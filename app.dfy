/**
 * The application shell (src/App.tsx): the one-time prompt to add the site to
 * the home screen, shown on mobile devices on the first visit.
 */
module App {
  import Storage
  import Text

  const PromptShownKey := "homeScreenPromptShown"

  /** The user-agent markers of the mobile test, in lower case. */
  const MobileMarkers := ["android", "iphone", "ipad", "ipod", "blackberry", "iemobile", "opera mini"]

  /** The case-insensitive regular expression test on `navigator.userAgent`. */
  predicate IsMobile(userAgent: string) {
    exists i :: 0 <= i < |MobileMarkers| && Text.Contains(Text.Lower(userAgent), MobileMarkers[i])
  }

  /** `!localStorage.getItem(...)`: the flag is missing or the empty string. */
  predicate FlagUnset(items: map<string, string>) {
    PromptShownKey !in items || items[PromptShownKey] == ""
  }

  predicate ShouldPrompt(isMobile: bool, items: map<string, string>) {
    isMobile && FlagUnset(items)
  }

  /** The storage after the mount effect. */
  function PromptEffect(isMobile: bool, items: map<string, string>): (r: map<string, string>)
    ensures ShouldPrompt(isMobile, items) ==> PromptShownKey in r && r[PromptShownKey] == "true"
    ensures !ShouldPrompt(isMobile, items) ==> r == items
    ensures forall k :: k != PromptShownKey ==> (k in r <==> k in items)
    ensures forall k :: k in items && k != PromptShownKey ==> r[k] == items[k]
  {
    if ShouldPrompt(isMobile, items) then items[PromptShownKey := "true"] else items
  }

  /** Once the prompt has been shown, no later visit, on any device, shows it again. */
  lemma PromptShownOnce(isMobile: bool, laterMobile: bool, items: map<string, string>)
    ensures ShouldPrompt(isMobile, items) ==> !ShouldPrompt(laterMobile, PromptEffect(isMobile, items))
    ensures !FlagUnset(items) ==> !ShouldPrompt(isMobile, items) && PromptEffect(isMobile, items) == items
    ensures PromptEffect(false, items) == items
  {
  }

  /** A user agent naming an iPhone in any letter case counts as mobile. */
  lemma IPhoneIsMobile()
    ensures IsMobile("Mozilla/5.0 (IPHONE)")
  {
    var ua := Text.Lower("Mozilla/5.0 (IPHONE)");
    assert ua == "mozilla/5.0 (iphone)";
    assert Text.OccursAt(ua, MobileMarkers[1], 13);
  }

  class AppShell {
    var showDialog: bool

    constructor ()
      ensures !showDialog
    {
      showDialog := false;
    }

    /** The mount effect: show the dialog and record it, or do nothing. */
    method MountEffect(userAgent: string, storage: Storage.LocalStorage)
      modifies this, storage
      ensures storage.items == PromptEffect(IsMobile(userAgent), old(storage.items))
      ensures showDialog == (old(showDialog) || ShouldPrompt(IsMobile(userAgent), old(storage.items)))
    {
      var isMobile := IsMobile(userAgent);
      var flag := storage.GetItem(PromptShownKey);
      if isMobile && (flag.None? || flag.value == "") {
        showDialog := true;
        storage.SetItem(PromptShownKey, "true");
      }
    }

    /** `closeDialog`: hide the dialog; the flag stays. */
    method CloseDialog()
      modifies this
      ensures !showDialog
    {
      showDialog := false;
    }
  }
}
