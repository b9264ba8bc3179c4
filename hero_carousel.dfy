/**
 * The public carousel (src/components/HeroCarousel.tsx): which ads it shows and
 * in what order, the slide index arithmetic, autoplay, and what a click on an ad
 * does. Timers are events here: `Tick` is one firing of the autoplay interval,
 * `Resume` the timeout that switches autoplay back on.
 */
module HeroCarousel {
  import opened Wrappers
  import opened Ads
  import Seqs
  import Text

  /** `ad.is_active !== false`: an ad without a status is shown. */
  function IsShown(): Ad -> bool {
    (ad: Ad) => ad.isActive != Some(false)
  }

  /** `activeAds`: the shown ads, stably sorted by position. */
  function ActiveAds(ads: seq<Ad>): seq<Ad> {
    SortByPosition(Seqs.Filter(ads, IsShown()))
  }

  /**
   * The active ads are exactly the ads not switched off, each as often as in the
   * input, sorted by position, and ads of equal position keep their input order.
   */
  lemma ActiveAdsAreTheShownAdsSorted(ads: seq<Ad>)
    ensures forall ad :: ad in ActiveAds(ads) <==> ad in ads && ad.isActive != Some(false)
    ensures multiset(ActiveAds(ads)) == multiset(Seqs.Filter(ads, IsShown()))
    ensures SortedByPosition(ActiveAds(ads))
    ensures SameOrderPerKey(ActiveAds(ads), Seqs.Filter(ads, IsShown()))
  {
    var shown := Seqs.Filter(ads, IsShown());
    Seqs.FilterMembers(ads, IsShown());
    SortIsSorted(shown);
    SortIsStable(shown);
    forall ad ensures ad in ActiveAds(ads) <==> ad in shown {
      assert ad in ActiveAds(ads) <==> ad in multiset(ActiveAds(ads));
      assert ad in shown <==> ad in multiset(shown);
    }
  }

  /** Nothing is rendered exactly when no ad is shown. */
  lemma RendersIffSomeAdShown(ads: seq<Ad>)
    ensures |ActiveAds(ads)| == 0 <==> forall i :: 0 <= i < |ads| ==> ads[i].isActive == Some(false)
  {
    var shown := Seqs.Filter(ads, IsShown());
    if forall i :: 0 <= i < |ads| ==> ads[i].isActive == Some(false) {
      Seqs.FilterKeepsNone(ads, IsShown());
    } else {
      var i :| 0 <= i < |ads| && ads[i].isActive != Some(false);
      assert ads[i] in shown;
    }
  }

  /** `(i + 1) % n`: the slide after `i`, wrapping to 0. */
  function Next(i: nat, n: nat): (r: nat)
    requires n > 0
    ensures r < n
    ensures i + 1 < n ==> r == i + 1
    ensures i + 1 == n ==> r == 0
  {
    (i + 1) % n
  }

  /** `currentIndex === 0 ? n - 1 : currentIndex - 1`. */
  function Previous(i: nat, n: nat): (r: int)
    requires n > 0
    ensures i < n ==> 0 <= r < n
    ensures i == 0 ==> r == n - 1
    ensures i > 0 ==> r == i - 1
  {
    if i == 0 then n - 1 else i - 1
  }

  /** Next undoes Previous and Previous undoes Next on every valid index. */
  lemma NextPreviousInverse(i: nat, n: nat)
    requires i < n
    ensures Previous(Next(i, n), n) == i
    ensures Next(Previous(i, n) as nat, n) == i
  {
  }

  /** The autoplay interval is installed exactly when autoplay is on and there are two slides or more. */
  predicate AutoplayRuns(isAutoPlaying: bool, n: nat) {
    isAutoPlaying && n > 1
  }

  datatype State = State(currentIndex: nat, isAutoPlaying: bool)

  datatype Event = Tick | ClickPrevious | ClickNext | ClickDot(k: nat) | Resume

  const Initial := State(0, true)

  /**
   * One event with `n` active ads. The arrows and the dots call `goToSlide`, which
   * also pauses autoplay; a tick only moves when the interval is running.
   */
  function Step(s: State, e: Event, n: nat): (r: State)
    requires n > 0 && s.currentIndex < n
    requires e.ClickDot? ==> e.k < n
    ensures r.currentIndex < n
    ensures e.Tick? ==> r.isAutoPlaying == s.isAutoPlaying
    ensures e.Tick? && !AutoplayRuns(s.isAutoPlaying, n) ==> r == s
    ensures e.Tick? && AutoplayRuns(s.isAutoPlaying, n) ==> r.currentIndex == Next(s.currentIndex, n)
    ensures (e.ClickPrevious? || e.ClickNext? || e.ClickDot?) ==> !r.isAutoPlaying
    ensures e.ClickNext? ==> r == State(Next(s.currentIndex, n), false)
    ensures e.ClickPrevious? ==> r == State(Previous(s.currentIndex, n) as nat, false)
    ensures e.ClickDot? ==> r == State(e.k, false)
    ensures e.Resume? ==> r == s.(isAutoPlaying := true)
  {
    match e
    case Tick => if AutoplayRuns(s.isAutoPlaying, n) then s.(currentIndex := Next(s.currentIndex, n)) else s
    case ClickPrevious => State(Previous(s.currentIndex, n) as nat, false)
    case ClickNext => State(Next(s.currentIndex, n), false)
    case ClickDot(k) => State(k, false)
    case Resume => s.(isAutoPlaying := true)
  }

  /** With a single active ad the index never leaves 0. */
  lemma SingleSlideStaysPut(s: State, e: Event)
    requires s.currentIndex == 0
    requires e.ClickDot? ==> e.k < 1
    ensures Step(s, e, 1).currentIndex == 0
  {
  }

  /** A non-empty link with neither web scheme prefix. */
  predicate IsInternalLink(l: string) {
    l != "" && !Text.StartsWith(l, "http://") && !Text.StartsWith(l, "https://")
  }

  /** What a click on an ad does. */
  datatype ClickAction = NoAction | OpenExternal(url: string) | NavigateInternal(url: string)

  /**
   * `handleAdClick`: no link (absent or empty) does nothing; a link starting with
   * 'http://' or 'https://' opens in a new tab; anything else navigates in place.
   */
  function AdClick(link: Option<string>): (r: ClickAction)
    ensures r.NoAction? <==> link.None? || link.value == ""
    ensures r.OpenExternal? <==> link.Some? && (Text.StartsWith(link.value, "http://") || Text.StartsWith(link.value, "https://"))
    ensures r.NavigateInternal? <==> link.Some? && IsInternalLink(link.value)
    ensures !r.NoAction? ==> r.url == link.value
  {
    match link
    case None => NoAction
    case Some(l) =>
      if l == "" then NoAction
      else if Text.StartsWith(l, "http://") || Text.StartsWith(l, "https://") then OpenExternal(l)
      else NavigateInternal(l)
  }
}
