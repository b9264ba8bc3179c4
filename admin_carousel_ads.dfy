/**
 * The admin page for carousel ads (src/pages/AdminCarouselAds.tsx): loading and
 * sorting the list, adding, deleting, switching an ad on or off, and moving an ad
 * up or down. The move handlers write `order_position` on the ad objects the list
 * holds, so an ad of the list is an object here and the list a sequence of
 * references; the value-level effect of each handler is stated as a function on
 * `Ad` values, and the lemmas are about those functions.
 */
module AdminCarouselAds {
  import opened Wrappers
  import opened Ads
  import Seqs
  import Text
  import Forms

  /** `!id`: an id is usable only when present and non-empty. */
  predicate HasId(id: Option<string>) {
    id.Some? && id.value != ""
  }

  // ---------------------------------------------------------------- adding

  /** The add form: title, preview URL, link and the chosen file. */
  datatype NewAd = NewAd(title: string, image: string, link: string, imageFile: Option<Forms.UploadedFile>)

  /** `Math.max(...ads.map(a => a.order_position || 0))` on a non-empty list. */
  function MaxPosition(s: seq<Ad>): (r: int)
    requires s != []
    ensures forall i :: 0 <= i < |s| ==> Position(s[i]) <= r
    ensures exists i :: 0 <= i < |s| && Position(s[i]) == r
  {
    if |s| == 1 then Position(s[0])
    else
      var m := MaxPosition(s[1..]);
      assert forall i :: 1 <= i < |s| ==> s[i] == s[1..][i - 1];
      if Position(s[0]) >= m then Position(s[0]) else m
  }

  /** The position a new ad is given: one past the largest, 1 for an empty list. */
  function NextPosition(s: seq<Ad>): (r: int)
    ensures forall i :: 0 <= i < |s| ==> Position(s[i]) < r
    ensures s == [] ==> r == 1
    ensures s != [] ==> exists i :: 0 <= i < |s| && Position(s[i]) == r - 1
  {
    (if |s| > 0 then MaxPosition(s) else 0) + 1
  }

  /**
   * The body `handleAdd` posts, or None when it refuses (empty title or no file)
   * and makes no request.
   */
  function AddRequest(newAd: NewAd, ads: seq<Ad>): (r: Option<seq<Forms.Entry>>)
    ensures r.None? <==> newAd.title == "" || newAd.imageFile.None?
    ensures r.Some? ==> Forms.Names(r.value) == AddFieldNames(newAd.link != "")
    ensures r.Some? ==> r.value[0].value == Forms.TextValue(newAd.title)
    ensures r.Some? ==> r.value[1].value == Forms.FileValue(newAd.imageFile.value)
    ensures r.Some? && newAd.link != "" ==> r.value[2].value == Forms.TextValue(newAd.link)
    ensures r.Some? ==> r.value[|r.value| - 2].value == Forms.TextValue(Text.IntToString(NextPosition(ads)))
    ensures r.Some? ==> r.value[|r.value| - 1].value == Forms.TextValue("1")
  {
    if newAd.title == "" || newAd.imageFile.None? then None
    else
      Some([Forms.Entry("title", Forms.TextValue(newAd.title)),
            Forms.Entry("image", Forms.FileValue(newAd.imageFile.value))]
           + (if newAd.link != "" then [Forms.Entry("link", Forms.TextValue(newAd.link))] else [])
           + [Forms.Entry("order_position", Forms.TextValue(Text.IntToString(NextPosition(ads)))),
              Forms.Entry("is_active", Forms.TextValue("1"))])
  }

  function AddFieldNames(withLink: bool): seq<string> {
    ["title", "image"] + (if withLink then ["link"] else []) + ["order_position", "is_active"]
  }

  /** An ad created at `NextPosition` of the list comes last once the list is sorted again. */
  lemma NewAdSortsLast(s: seq<Ad>, ad: Ad)
    requires Position(ad) == NextPosition(s)
    ensures SortByPosition(s + [ad]) == SortByPosition(s) + [ad]
  {
    var t := SortByPosition(s);
    assert (s + [ad])[..|s|] == s;
    if t != [] {
      assert t[|t| - 1] in multiset(s);
    }
  }

  // ------------------------------------------------------ switching on and off

  /** `!currentStatus`: an undefined status counts as off, so the ad is switched on. */
  function Flipped(current: Option<bool>): (r: bool)
    ensures r <==> current != Some(true)
  {
    !current.GetOr(false)
  }

  /** The PUT body of `handleToggleActive`: '1' exactly when the ad ends up active. */
  function ToggleForm(current: Option<bool>): (r: seq<Forms.Entry>)
    ensures Forms.Names(r) == ["_method", "is_active"]
    ensures r[1].value == Forms.TextValue(if Flipped(current) then "1" else "0")
  {
    [Forms.Entry("_method", Forms.TextValue("PUT")),
     Forms.Entry("is_active", Forms.TextValue(if Flipped(current) then "1" else "0"))]
  }

  /** The list after the toggle succeeds: ads with that id get `is_active := b`. */
  function SetActive(s: seq<Ad>, id: string, b: bool): (r: seq<Ad>)
    ensures |r| == |s|
    ensures forall i :: 0 <= i < |s| && s[i].id != Some(id) ==> r[i] == s[i]
    ensures forall i :: 0 <= i < |s| && s[i].id == Some(id) ==> r[i] == s[i].(isActive := Some(b))
  {
    seq(|s|, i requires 0 <= i < |s| => if s[i].id == Some(id) then s[i].(isActive := Some(b)) else s[i])
  }

  /**
   * Toggling twice, the second time with the status the first one set, restores a
   * list whose ads with that id all had a defined status `current`.
   */
  lemma ToggleTwiceRestores(s: seq<Ad>, id: string, current: Option<bool>)
    requires current.Some?
    requires forall i :: 0 <= i < |s| && s[i].id == Some(id) ==> s[i].isActive == current
    ensures SetActive(SetActive(s, id, Flipped(current)), id, Flipped(Some(Flipped(current)))) == s
  {
    var r := SetActive(SetActive(s, id, Flipped(current)), id, Flipped(Some(Flipped(current))));
    assert forall i :: 0 <= i < |s| ==> r[i] == s[i];
  }

  // ------------------------------------------------------------------- moving

  /** A position write: the ad's id and the PUT body carrying the position as text. */
  datatype Update = Update(id: string, form: seq<Forms.Entry>)

  function PositionForm(p: int): (r: seq<Forms.Entry>)
    ensures Forms.Names(r) == ["_method", "order_position"]
    ensures r[1].value == Forms.TextValue(Text.IntToString(p))
  {
    [Forms.Entry("_method", Forms.TextValue("PUT")),
     Forms.Entry("order_position", Forms.TextValue(Text.IntToString(p)))]
  }

  /**
   * The two writes of a move handler for slots `i` and `j` of the new list, or None
   * when a position is missing: `order_position!.toString()` on undefined throws
   * before any request is made.
   */
  function MoveUpdates(r: seq<Ad>, i: nat, j: nat): (u: Option<seq<Update>>)
    requires i < |r| && j < |r| && r[i].id.Some? && r[j].id.Some?
    ensures u.None? <==> r[i].orderPosition.None? || r[j].orderPosition.None?
    ensures u.Some? ==> u.value == [Update(r[i].id.value, PositionForm(r[i].orderPosition.value)),
                                    Update(r[j].id.value, PositionForm(r[j].orderPosition.value))]
  {
    if r[i].orderPosition.None? || r[j].orderPosition.None? then None
    else Some([Update(r[i].id.value, PositionForm(r[i].orderPosition.value)),
               Update(r[j].id.value, PositionForm(r[j].orderPosition.value))])
  }

  predicate MoveUpApplies(s: seq<Ad>, index: nat)
    requires index < |s|
  {
    index != 0 && HasId(s[index].id) && HasId(s[index - 1].id)
  }

  predicate MoveDownApplies(s: seq<Ad>, index: nat)
    requires index < |s|
  {
    index != |s| - 1 && HasId(s[index].id) && HasId(s[index + 1].id)
  }

  /**
   * What `handleMoveUp` does to the list as written: the two slots are swapped, and
   * the two exchanges of `order_position` cancel, so every ad keeps its own.
   */
  function MoveUpEffect(s: seq<Ad>, index: nat): (r: seq<Ad>)
    requires index < |s|
  {
    if MoveUpApplies(s, index) then s[index - 1 := s[index]][index := s[index - 1]] else s
  }

  /** What `handleMoveDown` does: the slots are swapped and the two positions exchanged. */
  function MoveDownEffect(s: seq<Ad>, index: nat): (r: seq<Ad>)
    requires index < |s|
  {
    if MoveDownApplies(s, index) then
      s[index := s[index + 1].(orderPosition := s[index].orderPosition)]
       [index + 1 := s[index].(orderPosition := s[index + 1].orderPosition)]
    else s
  }

  /**
   * Moving up swaps the two ads, records and all, leaves every other slot as it was,
   * and is its own inverse: moving the same slot up again restores the list.
   */
  lemma MoveUpSwapsWholeAds(s: seq<Ad>, index: nat)
    requires index < |s| && MoveUpApplies(s, index)
    ensures |MoveUpEffect(s, index)| == |s|
    ensures MoveUpEffect(s, index)[index - 1] == s[index] && MoveUpEffect(s, index)[index] == s[index - 1]
    ensures forall k :: 0 <= k < |s| && k != index - 1 && k != index ==> MoveUpEffect(s, index)[k] == s[k]
    ensures multiset(MoveUpEffect(s, index)) == multiset(s)
    ensures MoveUpEffect(MoveUpEffect(s, index), index) == s
  {
    var r := MoveUpEffect(s, index);
    SwapKeepsMultiset(s, index);
    assert MoveUpApplies(r, index);
    assert MoveUpEffect(r, index) == r[index - 1 := r[index]][index := r[index - 1]];
  }

  lemma SwapKeepsMultiset(s: seq<Ad>, i: nat)
    requires 0 < i < |s|
    ensures multiset(s[i - 1 := s[i]][i := s[i - 1]]) == multiset(s)
  {
    var a, b := s[..i - 1], s[i + 1..];
    assert s[i - 1 := s[i]][i := s[i - 1]] == a + [s[i], s[i - 1]] + b;
    assert s == a + [s[i - 1], s[i]] + b;
    assert multiset([s[i], s[i - 1]]) == multiset([s[i - 1], s[i]]);
  }

  /**
   * The writes `handleMoveUp` sends carry each ad's own, unchanged position: the ad
   * now shown first is sent its old position, and so is the other.
   */
  lemma MoveUpSendsOldPositions(s: seq<Ad>, index: nat)
    requires index < |s| && MoveUpApplies(s, index)
    requires s[index].orderPosition.Some? && s[index - 1].orderPosition.Some?
    ensures MoveUpdates(MoveUpEffect(s, index), index, index - 1) ==
      Some([Update(s[index - 1].id.value, PositionForm(s[index - 1].orderPosition.value)),
            Update(s[index].id.value, PositionForm(s[index].orderPosition.value))])
  {
  }

  /**
   * On a list sorted with distinct positions, moving up leaves the shown list out of
   * position order: the ad moved up still carries the larger position.
   */
  lemma MoveUpUnsortsAList(s: seq<Ad>, index: nat)
    requires index < |s| && MoveUpApplies(s, index)
    requires Position(s[index - 1]) < Position(s[index])
    ensures !SortedByPosition(MoveUpEffect(s, index))
  {
    var r := MoveUpEffect(s, index);
    assert Position(r[index - 1]) > Position(r[index]);
  }

  /**
   * Moving down keeps the position read at every slot (so the multiset of positions
   * too), exchanges the two ads' other fields, and leaves every other slot as it was.
   */
  lemma MoveDownKeepsPositionsBySlot(s: seq<Ad>, index: nat)
    requires index < |s| && MoveDownApplies(s, index)
    ensures |MoveDownEffect(s, index)| == |s|
    ensures forall k :: 0 <= k < |s| ==> MoveDownEffect(s, index)[k].orderPosition == s[k].orderPosition
    ensures Positions(MoveDownEffect(s, index)) == Positions(s)
    ensures MoveDownEffect(s, index)[index] == s[index + 1].(orderPosition := s[index].orderPosition)
    ensures MoveDownEffect(s, index)[index + 1] == s[index].(orderPosition := s[index + 1].orderPosition)
    ensures forall k :: 0 <= k < |s| && k != index && k != index + 1 ==> MoveDownEffect(s, index)[k] == s[k]
  {
  }

  /** Because positions stay by slot, a sorted list stays sorted and a re-sort keeps it. */
  lemma MoveDownSurvivesReload(s: seq<Ad>, index: nat)
    requires index < |s| && SortedByPosition(s)
    ensures SortedByPosition(MoveDownEffect(s, index))
    ensures SortByPosition(MoveDownEffect(s, index)) == MoveDownEffect(s, index)
  {
    var r := MoveDownEffect(s, index);
    if MoveDownApplies(s, index) {
      MoveDownKeepsPositionsBySlot(s, index);
      assert forall k :: 0 <= k < |r| ==> Position(r[k]) == Position(s[k]);
    }
    SortOfSortedIsIdentity(r);
  }

  /** The writes of `handleMoveDown` give each ad the position of the slot it moved to. */
  lemma MoveDownSendsSlotPositions(s: seq<Ad>, index: nat)
    requires index < |s| && MoveDownApplies(s, index)
    requires s[index].orderPosition.Some? && s[index + 1].orderPosition.Some?
    ensures MoveDownUpdates(s, index) ==
      Some([Update(s[index + 1].id.value, PositionForm(s[index].orderPosition.value)),
            Update(s[index].id.value, PositionForm(s[index + 1].orderPosition.value))])
  {
  }

  function MoveDownUpdates(s: seq<Ad>, index: nat): Option<seq<Update>>
    requires index < |s| && MoveDownApplies(s, index)
  {
    MoveUpdates(MoveDownEffect(s, index), index, index + 1)
  }

  /**
   * The scenario of the page: three ads at positions 1, 2 and 3. Moving the second up
   * shows it first, but it keeps position 2 and the first keeps 1; those are the
   * values written, so sorting the list again, as the next load does, undoes the move.
   */
  lemma MoveUpUndoneByReload()
    ensures var s := [Sample("id1", 1), Sample("id2", 2), Sample("id3", 3)];
      MoveUpEffect(s, 1) == [Sample("id2", 2), Sample("id1", 1), Sample("id3", 3)] &&
      SortByPosition(MoveUpEffect(s, 1)) == s
  {
    var a1, a2, a3 := Sample("id1", 1), Sample("id2", 2), Sample("id3", 3);
    assert MoveUpApplies([a1, a2, a3], 1);
    assert MoveUpEffect([a1, a2, a3], 1) == [a2, a1, a3];
    SortScenario(a1, a2, a3);
  }

  /** Sorting [a2, a1, a3] for positions 1, 2 and 3, one insertion at a time. */
  lemma SortScenario(a1: Ad, a2: Ad, a3: Ad)
    requires Position(a1) == 1 && Position(a2) == 2 && Position(a3) == 3
    ensures SortByPosition([a2, a1, a3]) == [a1, a2, a3]
  {
    SortFirstTwo(a1, a2);
    SortSnoc([a2, a1], a3);
    assert [a2, a1] + [a3] == [a2, a1, a3];
    InsertAfter([a1, a2], a3);
  }

  lemma SortFirstTwo(a1: Ad, a2: Ad)
    requires Position(a1) < Position(a2)
    ensures SortByPosition([a2, a1]) == [a1, a2]
  {
    SortSnoc([], a2);
    assert [] + [a2] == [a2];
    SortSnoc([a2], a1);
    assert [a2] + [a1] == [a2, a1];
    InsertBefore(a2, a1);
  }

  lemma InsertAfter(t: seq<Ad>, x: Ad)
    requires t != [] && Position(t[|t| - 1]) <= Position(x)
    ensures Insert(t, x) == t + [x]
  {
  }

  lemma InsertBefore(b: Ad, a: Ad)
    requires Position(a) < Position(b)
    ensures Insert([b], a) == [a, b]
  {
    assert [b][..0] == [];
  }

  lemma SortSnoc(s: seq<Ad>, x: Ad)
    ensures SortByPosition(s + [x]) == Insert(SortByPosition(s), x)
  {
    assert (s + [x])[..|s|] == s;
  }

  function Sample(id: string, p: int): Ad {
    Ad(Some(id), "", "", None, Some(true), Some(p))
  }

  /**
   * The evident intent of `handleMoveUp`: swap the slots and exchange the positions,
   * the mirror image of moving the ad above down.
   */
  function MoveUpIntended(s: seq<Ad>, index: nat): (r: seq<Ad>)
    requires index < |s|
    ensures |r| == |s|
    ensures MoveUpApplies(s, index) ==> r[index - 1] == s[index].(orderPosition := s[index - 1].orderPosition)
    ensures MoveUpApplies(s, index) ==> r[index] == s[index - 1].(orderPosition := s[index].orderPosition)
    ensures forall k :: 0 <= k < |s| ==> r[k].orderPosition == s[k].orderPosition
  {
    if MoveUpApplies(s, index) then
      s[index - 1 := s[index].(orderPosition := s[index - 1].orderPosition)]
       [index := s[index - 1].(orderPosition := s[index].orderPosition)]
    else s
  }

  /** The intended move up survives a reload of a sorted list, as moving down does. */
  lemma MoveUpIntendedSurvivesReload(s: seq<Ad>, index: nat)
    requires index < |s| && SortedByPosition(s)
    ensures MoveUpIntended(s, index) == (if index == 0 then s else MoveDownEffect(s, index - 1))
    ensures SortByPosition(MoveUpIntended(s, index)) == MoveUpIntended(s, index)
  {
    var r := MoveUpIntended(s, index);
    assert forall k :: 0 <= k < |r| ==> Position(r[k]) == Position(s[k]);
    assert SortedByPosition(r);
    SortOfSortedIsIdentity(r);
  }

  /** On the scenario the intended move shows the second ad first with position 1. */
  lemma MoveUpIntendedScenario()
    ensures var s := [Sample("id1", 1), Sample("id2", 2), Sample("id3", 3)];
      MoveUpIntended(s, 1) == [Sample("id2", 1), Sample("id1", 2), Sample("id3", 3)]
  {
    var s := [Sample("id1", 1), Sample("id2", 2), Sample("id3", 3)];
    assert MoveUpApplies(s, 1);
  }

  // ------------------------------------------------------------ the page state

  /** An ad object of the page's list; only `order_position` is written in place. */
  class AdItem {
    const id: Option<string>
    const title: string
    const image: string
    const link: Option<string>
    const isActive: Option<bool>
    var orderPosition: Option<int>

    constructor (ad: Ad)
      ensures Value() == ad
    {
      id, title, image, link, isActive := ad.id, ad.title, ad.image, ad.link, ad.isActive;
      orderPosition := ad.orderPosition;
    }

    function Value(): Ad
      reads this
    {
      Ad(id, title, image, link, isActive, orderPosition)
    }
  }

  /** The values the objects of a list hold. */
  function Values(s: seq<AdItem>): (r: seq<Ad>)
    reads set o | o in s
    ensures |r| == |s| && forall i :: 0 <= i < |s| ==> r[i] == s[i].Value()
  {
    seq(|s|, i requires 0 <= i < |s| reads s => s[i].Value())
  }

  /** `ad.id !== id`, on the objects of the list. */
  function OtherThan(id: string): AdItem -> bool {
    (o: AdItem) => o.id != Some(id)
  }

  /** What `api.getCarouselItems` produced: a failure, or the payload after `response.data || response`. */
  datatype FetchOutcome = FetchFailed | Fetched(adsData: Option<seq<Ad>>)

  /** The page: the list of ad objects and the loading flag. */
  class AdsPage {
    var ads: seq<AdItem>
    var loading: bool

    /** The list never holds the same object twice. */
    ghost predicate Valid()
      reads this
    {
      Seqs.Distinct(ads)
    }

    constructor ()
      ensures ads == [] && loading && Valid()
    {
      ads, loading := [], true;
    }

    /**
     * `fetchAds`: an array payload is sorted by position (stably) and shown as
     * new objects; any other payload gives the empty list; a failure keeps the list.
     */
    method Fetch(outcome: FetchOutcome)
      requires Valid()
      modifies this
      ensures Valid() && !loading
      ensures outcome.FetchFailed? ==> ads == old(ads)
      ensures outcome.Fetched? && outcome.adsData.None? ==> ads == []
      ensures outcome.Fetched? && outcome.adsData.Some? ==> Values(ads) == SortByPosition(outcome.adsData.value)
      ensures outcome.Fetched? ==> forall k :: 0 <= k < |ads| ==> fresh(ads[k])
    {
      if outcome.FetchFailed? {
        loading := false;
        return;
      }
      var list := LoadedItems(outcome.adsData);
      ads, loading := list, false;
    }

    /**
     * `handleDelete`: without a usable id or without confirmation nothing happens;
     * after the API call succeeds every ad with that id is dropped.
     */
    method Delete(id: Option<string>, confirmed: bool, apiOk: bool)
      requires Valid()
      modifies this
      ensures Valid() && loading == old(loading)
      ensures ads == if HasId(id) && confirmed && apiOk then Seqs.Filter(old(ads), OtherThan(id.value)) else old(ads)
    {
      if !HasId(id) || !confirmed {
        return;
      }
      if apiOk {
        Seqs.FilterDistinct(ads, OtherThan(id.value));
        ads := Seqs.Filter(ads, OtherThan(id.value));
      }
    }

    /**
     * `handleToggleActive`: once the PUT succeeds, each ad with that id is replaced
     * by a copy with the flipped status; every other object stays in its slot.
     */
    method ToggleActive(id: string, currentStatus: Option<bool>, apiOk: bool) returns (request: seq<Forms.Entry>)
      requires Valid()
      modifies this
      ensures Valid() && loading == old(loading)
      ensures request == ToggleForm(currentStatus)
      ensures |ads| == |old(ads)|
      ensures Values(ads) == if apiOk then SetActive(old(Values(ads)), id, Flipped(currentStatus)) else old(Values(ads))
      ensures forall k :: 0 <= k < |ads| && (!apiOk || old(ads[k].id) != Some(id)) ==> ads[k] == old(ads[k])
      ensures apiOk ==> forall k :: 0 <= k < |ads| && old(ads[k].id) == Some(id) ==> fresh(ads[k])
    {
      request := ToggleForm(currentStatus);
      if !apiOk {
        return;
      }
      ads := WithToggled(ads, id, Flipped(currentStatus));
    }

    /**
     * `handleMoveUp` as written. At slot 0, or when either ad has no usable id,
     * nothing happens. Otherwise the slots are swapped and, the two exchanges of
     * `order_position` cancelling, each ad object keeps its own position; those
     * values are sent. A missing position or a failed write asks for a reload.
     */
    method MoveUp(index: nat, apiOk: bool) returns (sent: seq<Update>, refetch: bool)
      requires Valid() && index < |ads|
      modifies this, ads
      ensures Valid() && loading == old(loading)
      ensures Values(ads) == MoveUpEffect(old(Values(ads)), index)
      ensures ads == if MoveUpApplies(old(Values(ads)), index)
        then old(ads)[index - 1 := old(ads[index])][index := old(ads[index - 1])] else old(ads)
      ensures forall k :: 0 <= k < |old(ads)| ==> old(ads)[k].orderPosition == old(ads[k].orderPosition)
      ensures !MoveUpApplies(old(Values(ads)), index) ==> sent == [] && !refetch
      ensures MoveUpApplies(old(Values(ads)), index) ==>
        sent == MoveUpdates(Values(ads), index, index - 1).GetOr([]) &&
        (refetch <==> MoveUpdates(Values(ads), index, index - 1).None? || !apiOk)
    {
      sent, refetch := [], false;
      if index == 0 {
        return;
      }
      var currentAd := ads[index];
      var prevAd := ads[index - 1];
      if !HasId(currentAd.id) || !HasId(prevAd.id) {
        return;
      }
      SwapUp(index);
      ghost var after := Values(ads);
      assert after == MoveUpEffect(old(Values(ads)), index);
      var p1 := ads[index].orderPosition;
      var p2 := ads[index - 1].orderPosition;
      if p1.None? || p2.None? {
        refetch := true;
        return;
      }
      sent := [Update(ads[index].id.value, PositionForm(p1.value)),
               Update(ads[index - 1].id.value, PositionForm(p2.value))];
      refetch := !apiOk;
    }

    /**
     * The in-memory part of `handleMoveUp` once its guards pass: the slots are
     * swapped, then `order_position` is exchanged twice, which leaves both objects
     * with the position they had.
     */
    method SwapUp(index: nat)
      requires Valid() && 0 < index < |ads|
      modifies this, ads
      ensures Valid() && loading == old(loading)
      ensures ads == old(ads)[index - 1 := old(ads[index])][index := old(ads[index - 1])]
      ensures forall k :: 0 <= k < |old(ads)| ==> old(ads)[k].orderPosition == old(ads[k].orderPosition)
      ensures Values(ads) == old(Values(ads))[index - 1 := old(Values(ads))[index]][index := old(Values(ads))[index - 1]]
    {
      var currentAd := ads[index];
      var prevAd := ads[index - 1];
      var newAds := ads;
      newAds := newAds[index := prevAd];
      newAds := newAds[index - 1 := currentAd];
      var currentOrder := currentAd.orderPosition;
      var prevOrder := prevAd.orderPosition;
      newAds[index].orderPosition := currentOrder;
      newAds[index - 1].orderPosition := prevOrder;
      assert prevAd.orderPosition == currentOrder && currentAd.orderPosition == prevOrder;
      var tempOrder := newAds[index].orderPosition;
      newAds[index].orderPosition := newAds[index - 1].orderPosition;
      newAds[index - 1].orderPosition := tempOrder;
      assert prevAd.orderPosition == prevOrder && currentAd.orderPosition == currentOrder;
      ads := newAds;
      forall k | 0 <= k < |ads|
        ensures ads[k].Value() == old(Values(ads))[index - 1 := old(Values(ads))[index]][index := old(Values(ads))[index - 1]][k]
      {
        if k != index && k != index - 1 {
          assert ads[k] == old(ads[k]) && ads[k] != prevAd && ads[k] != currentAd;
        }
      }
    }

    /** The object swap of `handleMoveDown`, followed by the exchange of the two positions. */
    method SwapDown(index: nat)
      requires Valid() && index + 1 < |ads|
      modifies this, ads
      ensures Valid() && loading == old(loading)
      ensures ads == old(ads)[index := old(ads[index + 1])][index + 1 := old(ads[index])]
      ensures Values(ads) == old(Values(ads))
        [index := old(Values(ads))[index + 1].(orderPosition := old(Values(ads))[index].orderPosition)]
        [index + 1 := old(Values(ads))[index].(orderPosition := old(Values(ads))[index + 1].orderPosition)]
    {
      var currentAd := ads[index];
      var nextAd := ads[index + 1];
      var newAds := ads;
      newAds := newAds[index := nextAd];
      newAds := newAds[index + 1 := currentAd];
      var tempOrder := newAds[index].orderPosition;
      newAds[index].orderPosition := newAds[index + 1].orderPosition;
      newAds[index + 1].orderPosition := tempOrder;
      ads := newAds;
      forall k | 0 <= k < |ads|
        ensures ads[k].Value() == old(Values(ads))
          [index := old(Values(ads))[index + 1].(orderPosition := old(Values(ads))[index].orderPosition)]
          [index + 1 := old(Values(ads))[index].(orderPosition := old(Values(ads))[index + 1].orderPosition)][k]
      {
        if k != index && k != index + 1 {
          assert ads[k] == old(ads[k]) && ads[k] != nextAd && ads[k] != currentAd;
        }
      }
    }

    /**
     * `handleMoveDown`. At the last slot, or when either ad has no usable id,
     * nothing happens. Otherwise the slots are swapped and the two objects exchange
     * positions; the new positions are sent, and a missing one or a failed write
     * asks for a reload.
     */
    method MoveDown(index: nat, apiOk: bool) returns (sent: seq<Update>, refetch: bool)
      requires Valid() && index < |ads|
      modifies this, ads
      ensures Valid() && loading == old(loading)
      ensures Values(ads) == MoveDownEffect(old(Values(ads)), index)
      ensures ads == if MoveDownApplies(old(Values(ads)), index)
        then old(ads)[index := old(ads[index + 1])][index + 1 := old(ads[index])] else old(ads)
      ensures !MoveDownApplies(old(Values(ads)), index) ==> sent == [] && !refetch
      ensures MoveDownApplies(old(Values(ads)), index) ==>
        sent == MoveUpdates(Values(ads), index, index + 1).GetOr([]) &&
        (refetch <==> MoveUpdates(Values(ads), index, index + 1).None? || !apiOk)
    {
      sent, refetch := [], false;
      if index == |ads| - 1 {
        return;
      }
      var currentAd := ads[index];
      var nextAd := ads[index + 1];
      if !HasId(currentAd.id) || !HasId(nextAd.id) {
        return;
      }
      SwapDown(index);
      var p1 := ads[index].orderPosition;
      var p2 := ads[index + 1].orderPosition;
      if p1.None? || p2.None? {
        refetch := true;
        return;
      }
      sent := [Update(ads[index].id.value, PositionForm(p1.value)),
               Update(ads[index + 1].id.value, PositionForm(p2.value))];
      refetch := !apiOk;
    }
  }

  /** Sorting an array copy of `data` in place, as `adsData.sort(...)` does. */
  method SortedCopy(data: seq<Ad>) returns (sorted: seq<Ad>)
    ensures sorted == SortByPosition(data)
  {
    var a := new Ad[|data|](i requires 0 <= i < |data| => data[i]);
    assert a[..] == data;
    SortInPlace(a);
    sorted := a[..];
  }

  /** The objects `fetchAds` shows for a payload: the sorted array, or nothing. */
  method LoadedItems(data: Option<seq<Ad>>) returns (list: seq<AdItem>)
    ensures Seqs.Distinct(list)
    ensures data.None? ==> list == []
    ensures data.Some? ==> Values(list) == SortByPosition(data.value)
    ensures forall k :: 0 <= k < |list| ==> fresh(list[k])
  {
    if data.None? {
      return [];
    }
    var sorted := SortedCopy(data.value);
    list := NewItems(sorted);
  }

  /** One new object per value, in order. */
  method NewItems(s: seq<Ad>) returns (list: seq<AdItem>)
    ensures Seqs.Distinct(list) && Values(list) == s
    ensures forall k :: 0 <= k < |list| ==> fresh(list[k])
  {
    list := [];
    var k := 0;
    while k < |s|
      invariant 0 <= k <= |s| && |list| == k
      invariant Seqs.Distinct(list)
      invariant forall m :: 0 <= m < k ==> fresh(list[m]) && list[m].Value() == s[m]
    {
      var o := new AdItem(s[k]);
      list := list + [o];
      k := k + 1;
    }
  }

  /**
   * `ads.map(ad => ad.id === id ? { ...ad, is_active: b } : ad)`: a copy replaces
   * each ad with that id; every other object stays in its slot.
   */
  method WithToggled(s: seq<AdItem>, id: string, b: bool) returns (list: seq<AdItem>)
    requires Seqs.Distinct(s)
    ensures Seqs.Distinct(list) && |list| == |s|
    ensures Values(list) == SetActive(Values(s), id, b)
    ensures forall k :: 0 <= k < |s| && s[k].id != Some(id) ==> list[k] == s[k]
    ensures forall k :: 0 <= k < |s| && s[k].id == Some(id) ==> fresh(list[k])
  {
    list := [];
    var k := 0;
    while k < |s|
      invariant 0 <= k <= |s| && |list| == k
      invariant Seqs.Distinct(list)
      invariant forall m :: 0 <= m < k && s[m].id != Some(id) ==> list[m] == s[m]
      invariant forall m :: 0 <= m < k && s[m].id == Some(id) ==> fresh(list[m]) && list[m].Value() == s[m].Value().(isActive := Some(b))
      invariant forall m, n :: 0 <= m < k && k <= n < |s| ==> list[m] != s[n]
    {
      var ad := s[k];
      if ad.id == Some(id) {
        var o := new AdItem(ad.Value().(isActive := Some(b)));
        list := list + [o];
      } else {
        list := list + [ad];
      }
      k := k + 1;
    }
    assert forall m :: 0 <= m < |s| ==> list[m].Value() == SetActive(Values(s), id, b)[m];
  }

  /** After a delete the list holds exactly the other ads, in their old order. */
  lemma DeleteKeepsOthersInOrder(s: seq<AdItem>, id: string)
    ensures forall o :: o in Seqs.Filter(s, OtherThan(id)) <==> o in s && o.id != Some(id)
    ensures Seqs.Subsequence(Seqs.Filter(s, OtherThan(id)), s)
  {
    Seqs.FilterMembers(s, OtherThan(id));
    Seqs.FilterIsSubsequence(s, OtherThan(id));
  }
}
