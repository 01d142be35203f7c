/**
 * The list logic of the modulator editor: which modulator list belongs to
 * a division, how a copied list is renumbered so that it stands alone
 * (indexes from 0, links remapped, broken links repaired), how a list is
 * pasted into a division (with the preset-level destination rules of the
 * SoundFont 2.04 specification, section 8.1.2), how deleting modulators
 * clears the links that pointed at them, and the defaults of a new
 * modulator. The soundfont store is a map from modulator index to
 * modulator; the widgets, the clipboard and the undo stack are not
 * modelled.
 */
module ModulatorEditor {
  import opened Wrappers
  import opened Attributes

  /** A modulator source (sfModSrcOper / sfModAmtSrcOper). */
  datatype SFModulator = SFModulator(kind: int, polarity: int, direction: int, cc: int, index: int)

  /** One modulator: the five SoundFont fields plus its index in the list. */
  datatype Modulator = Modulator(
    srcOper: SFModulator,
    destOper: int,            // a generator number, or LinkBase + index of the target modulator
    amount: int,
    amtSrcOper: SFModulator,
    transOper: int,
    index: int)

  /** Destinations from this value on are links to another modulator (section 8.2.1). */
  const LinkBase := 32768

  /** Source index 127 with CC 0 is the "Link" source of section 8.2.1. */
  predicate IsLinkSource(s: SFModulator) {
    s.index == 127 && s.cc == 0
  }

  predicate IsLink(dest: int) {
    dest >= LinkBase
  }

  // ---------------------------------------------------------------------
  // Element types

  /** The modulator list of a division; None for elements that have none. */
  function ModType(elt: ElementType): (r: Option<ElementType>)
    ensures r.Some? <==> elt in {Inst, Prst, InstSmpl, PrstInst}
    ensures r.Some? ==> r.value in {InstMod, PrstMod, InstSmplMod, PrstInstMod}
  {
    match elt
    case Inst => Some(InstMod)
    case Prst => Some(PrstMod)
    case InstSmpl => Some(InstSmplMod)
    case PrstInst => Some(PrstInstMod)
    case _ => None
  }

  /** The division a modulator list belongs to. */
  function Holder(mod: ElementType): Option<ElementType> {
    match mod
    case InstMod => Some(Inst)
    case PrstMod => Some(Prst)
    case InstSmplMod => Some(InstSmpl)
    case PrstInstMod => Some(PrstInst)
    case _ => None
  }

  /** The element-to-list mapping is one-to-one: Holder inverts ModType. */
  lemma ModTypeInverse(elt: ElementType, mod: ElementType)
    ensures ModType(elt) == Some(mod) <==> Holder(mod) == Some(elt)
  {
  }

  /** Modulators at preset level (preset and preset zone) obey the preset rules. */
  predicate IsPresetLevel(elt: ElementType) {
    elt == Prst || elt == PrstInst
  }

  // ---------------------------------------------------------------------
  // Distinct indexes

  predicate NoDuplicates(xs: seq<int>) {
    forall i, j :: 0 <= i < j < |xs| ==> xs[i] != xs[j]
  }

  /** The values of xs, each once, in order of first occurrence. */
  function Distinct(xs: seq<int>): (r: seq<int>)
    ensures forall x :: x in r <==> x in xs
    ensures NoDuplicates(r)
    ensures |r| <= |xs|
  {
    if |xs| == 0 then []
    else
      var d := Distinct(xs[..|xs| - 1]);
      assert forall x :: x in xs <==> x in xs[..|xs| - 1] || x == xs[|xs| - 1];
      if xs[|xs| - 1] in d then d else d + [xs[|xs| - 1]]
  }

  /** A list without repetitions is its own list of distinct values. */
  lemma {:induction false} DistinctOfDistinct(xs: seq<int>)
    requires NoDuplicates(xs)
    ensures Distinct(xs) == xs
  {
    if |xs| > 0 {
      var init := xs[..|xs| - 1];
      DistinctOfDistinct(init);
      assert xs[|xs| - 1] !in init;
      assert init + [xs[|xs| - 1]] == xs;
    }
  }

  /** The position of the first occurrence of x (QList::indexOf). */
  function IndexOf(xs: seq<int>, x: int): (i: nat)
    requires x in xs
    ensures i < |xs| && xs[i] == x
    ensures forall k :: 0 <= k < i ==> xs[k] != x
  {
    if xs[0] == x then 0 else 1 + IndexOf(xs[1..], x)
  }

  lemma IndexOfUnique(xs: seq<int>, k: int)
    requires NoDuplicates(xs) && 0 <= k < |xs|
    ensures IndexOf(xs, xs[k]) == k
  {
  }

  function Indexes(mods: seq<Modulator>): (r: seq<int>)
    ensures |r| == |mods|
    ensures forall i :: 0 <= i < |mods| ==> r[i] == mods[i].index
  {
    seq(|mods|, i requires 0 <= i < |mods| => mods[i].index)
  }

  // ---------------------------------------------------------------------
  // getModList

  /** A link into the list is renumbered; a link out of it is broken and becomes fineTune. */
  function RenumberDest(dest: int, list: seq<int>): (r: int)
    ensures !IsLink(dest) ==> r == dest
    ensures IsLink(dest) && dest - LinkBase in list ==> r == LinkBase + IndexOf(list, dest - LinkBase)
    ensures IsLink(dest) && dest - LinkBase !in list ==> r == FineTune
  {
    if IsLink(dest) then
      if dest - LinkBase in list then LinkBase + IndexOf(list, dest - LinkBase) else FineTune
    else dest
  }

  lemma RenumberLink(dest: int, list: seq<int>, t: int)
    requires t == dest - LinkBase && IsLink(dest) && t in list
    ensures RenumberDest(dest, list) == LinkBase + IndexOf(list, t)
  {
  }

  /** Only a link into the list comes out of the first pass as a link. */
  lemma RenumberKeepsOnlyLiveLinks(dest: int, list: seq<int>)
    ensures IsLink(RenumberDest(dest, list)) ==> IsLink(dest) && dest - LinkBase in list
  {
  }

  /** First pass: indexes renumbered from 0, link destinations remapped. */
  function Renumber(read: seq<Modulator>): (r: seq<Modulator>)
    ensures |r| == |read|
    ensures forall i :: 0 <= i < |read| ==>
              r[i] == read[i].(destOper := r[i].destOper, index := r[i].index)
    ensures forall i :: 0 <= i < |read| ==>
              read[i].index in Distinct(Indexes(read)) && r[i].index == IndexOf(Distinct(Indexes(read)), read[i].index)
    ensures forall i :: 0 <= i < |read| ==> r[i].destOper == RenumberDest(read[i].destOper, Distinct(Indexes(read)))
  {
    assert forall i :: 0 <= i < |read| ==> Indexes(read)[i] == read[i].index;
    var list := Distinct(Indexes(read));
    seq(|read|, i requires 0 <= i < |read| =>
      read[i].(destOper := RenumberDest(read[i].destOper, list),
               index := IndexOf(list, read[i].index)))
  }

  /** Is modulator i the target of another modulator's link? */
  predicate LinkedTo(mods: seq<Modulator>, i: int) {
    exists j :: 0 <= j < |mods| && j != i && mods[j].destOper == LinkBase + i
  }

  /**
   * Second pass: a link source that no other modulator feeds becomes an
   * ordinary source (index 0). The pass changes only sources and reads
   * only destinations, so visiting the modulators in order is the same
   * as repairing each one against the first pass's result.
   */
  function RepairSources(mods: seq<Modulator>): (r: seq<Modulator>)
    ensures |r| == |mods|
    ensures forall i :: 0 <= i < |mods| ==> r[i] == mods[i].(srcOper := r[i].srcOper)
    ensures forall i :: 0 <= i < |mods| ==>
              r[i].srcOper == if IsLinkSource(mods[i].srcOper) && !LinkedTo(mods, i)
                              then mods[i].srcOper.(index := 0) else mods[i].srcOper
  {
    seq(|mods|, i requires 0 <= i < |mods| =>
      if IsLinkSource(mods[i].srcOper) && !LinkedTo(mods, i)
      then mods[i].(srcOper := mods[i].srcOper.(index := 0))
      else mods[i])
  }

  /**
   * getModList after reading: the copied list made self-contained. The
   * list read is every modulator of the division, or the selected ones.
   */
  function GetModList(read: seq<Modulator>): (r: seq<Modulator>)
    ensures |r| == |read|
    ensures forall i :: 0 <= i < |r| ==>
              r[i].amount == read[i].amount && r[i].amtSrcOper == read[i].amtSrcOper &&
              r[i].transOper == read[i].transOper
    ensures forall i :: 0 <= i < |r| ==>
              r[i].srcOper == read[i].srcOper ||
              (IsLinkSource(read[i].srcOper) && r[i].srcOper == read[i].srcOper.(index := 0))
  {
    RepairSources(Renumber(read))
  }

  /**
   * The new indexes count from 0 without gaps, and two modulators share
   * a new index exactly when they shared their old one.
   */
  lemma GetModListIndexes(read: seq<Modulator>, i: int, j: int)
    requires 0 <= i < |read| && 0 <= j < |read|
    ensures var r := GetModList(read);
            && 0 <= r[i].index < |Distinct(Indexes(read))| <= |read|
            && (r[i].index == r[j].index <==> read[i].index == read[j].index)
  {
    var list := Distinct(Indexes(read));
    var r := GetModList(read);
    GetModListFirstPass(read, i);
    GetModListFirstPass(read, j);
    if r[i].index == r[j].index {
      assert list[r[i].index] == read[i].index && list[r[j].index] == read[j].index;
    }
  }

  /**
   * Links survive the copy: a modulator linked to another copied
   * modulator stays linked to it under the new numbering, a link to a
   * modulator left behind becomes fineTune, and other destinations are
   * kept.
   */
  lemma GetModListLinks(read: seq<Modulator>, i: int)
    requires 0 <= i < |read|
    ensures var r := GetModList(read);
            && (forall j :: 0 <= j < |read| && IsLink(read[i].destOper) && read[i].destOper == LinkBase + read[j].index ==>
                  r[i].destOper == LinkBase + r[j].index)
            && (IsLink(read[i].destOper) && (forall j :: 0 <= j < |read| ==> read[j].index != read[i].destOper - LinkBase) ==>
                  r[i].destOper == FineTune)
            && (!IsLink(read[i].destOper) ==> r[i].destOper == read[i].destOper)
  {
    var list := Distinct(Indexes(read));
    var r := GetModList(read);
    GetModListFirstPass(read, i);
    forall j | 0 <= j < |read| && IsLink(read[i].destOper) && read[i].destOper == LinkBase + read[j].index
      ensures r[i].destOper == LinkBase + r[j].index
    {
      GetModListFirstPass(read, j);
      var t := read[i].destOper - LinkBase;
      assert t == read[j].index && t in list;
      RenumberLink(read[i].destOper, list, t);
    }
    if IsLink(read[i].destOper) && read[i].destOper - LinkBase in list {
      assert read[i].destOper - LinkBase in Indexes(read);
    }
  }

  /** What the copy keeps of the first pass: destinations and new indexes. */
  lemma GetModListFirstPass(read: seq<Modulator>, k: int)
    requires 0 <= k < |read|
    ensures var list := Distinct(Indexes(read));
            && read[k].index in list
            && GetModList(read)[k].index == IndexOf(list, read[k].index)
            && GetModList(read)[k].destOper == RenumberDest(read[k].destOper, list)
  {
    var r1 := Renumber(read);
    assert GetModList(read) == RepairSources(r1);
  }

  /** After the copy, every link points at a modulator of the list. */
  lemma GetModListHasNoBrokenLinks(read: seq<Modulator>, i: int)
    requires 0 <= i < |read|
    ensures var r := GetModList(read);
            IsLink(r[i].destOper) ==> exists j :: 0 <= j < |r| && r[j].index == r[i].destOper - LinkBase
  {
    var list := Distinct(Indexes(read));
    var r := GetModList(read);
    if IsLink(r[i].destOper) {
      GetModListFirstPass(read, i);
      RenumberKeepsOnlyLiveLinks(read[i].destOper, list);
      var t := read[i].destOper - LinkBase;
      assert t in Indexes(read);
      var j :| 0 <= j < |read| && Indexes(read)[j] == t;
      GetModListFirstPass(read, j);
    }
  }

  /** After the copy, a modulator keeps a link source only when another modulator feeds it. */
  lemma GetModListLinkSourcesFed(read: seq<Modulator>, i: int)
    requires 0 <= i < |read|
    ensures var r := GetModList(read);
            IsLinkSource(r[i].srcOper) ==> LinkedTo(r, i)
    ensures var r := GetModList(read);
            IsLinkSource(read[i].srcOper) && !LinkedTo(r, i) ==> r[i].srcOper == read[i].srcOper.(index := 0)
  {
    var r1 := Renumber(read);
    var r := GetModList(read);
    assert forall j :: 0 <= j < |r| ==> r[j].destOper == r1[j].destOper;
    assert LinkedTo(r, i) <==> LinkedTo(r1, i) by {
      if LinkedTo(r1, i) {
        var j :| 0 <= j < |r1| && j != i && r1[j].destOper == LinkBase + i;
        assert r[j].destOper == LinkBase + i;
      }
      if LinkedTo(r, i) {
        var j :| 0 <= j < |r| && j != i && r[j].destOper == LinkBase + i;
        assert r1[j].destOper == LinkBase + i;
      }
    }
  }

  /** With distinct indexes (the usual case), the new index of each modulator is its position. */
  lemma GetModListPositions(read: seq<Modulator>)
    requires NoDuplicates(Indexes(read))
    ensures forall i :: 0 <= i < |read| ==> GetModList(read)[i].index == i
  {
    DistinctOfDistinct(Indexes(read));
    forall i | 0 <= i < |read| ensures GetModList(read)[i].index == i {
      IndexOfUnique(Indexes(read), i);
    }
  }

  // ---------------------------------------------------------------------
  // pasteMod

  /**
   * Destinations a preset-level modulator may not have: the eight sample
   * offsets and the generators that section 8.1.3 of the SoundFont 2.04
   * specification restricts to instruments.
   */
  const ForbiddenInPreset: set<int> := {
    StartAddrsOffset, StartAddrsCoarseOffset, StartloopAddrsOffset, StartloopAddrsCoarseOffset,
    EndAddrsOffset, EndAddrsCoarseOffset, EndloopAddrsOffset, EndloopAddrsCoarseOffset,
    Keynum, Velocity, SampleModes, ExclusiveClass, OverridingRootKey }

  predicate HasForbiddenDest(mods: seq<Modulator>) {
    exists i :: 0 <= i < |mods| && mods[i].destOper in ForbiddenInPreset
  }

  datatype PasteResult =
    | Unchanged                              // nothing to paste, or not a division
    | Rejected                               // a destination is forbidden at preset level
    | Pasted(store: map<int, Modulator>)

  /** A copied modulator moved to the indexes allocated from `first` on. */
  function Shift(mod: Modulator, first: int): (r: Modulator)
    ensures r.index == mod.index + first
    ensures r.destOper == if IsLink(mod.destOper) then mod.destOper + first else mod.destOper
    ensures r.srcOper == mod.srcOper && r.amount == mod.amount
    ensures r.amtSrcOper == mod.amtSrcOper && r.transOper == mod.transOper
  {
    var dest := if IsLink(mod.destOper) then mod.destOper + first else mod.destOper;
    mod.(index := mod.index + first, destOper := dest)
  }

  /** The indexes first .. first + n - 1 that the store allocates for n new modulators. */
  function Allocated(first: int, n: nat): (s: set<int>)
    ensures forall k :: k in s <==> first <= k < first + n
  {
    if n == 0 then {} else Allocated(first, n - 1) + {first + n - 1}
  }

  /** What the store holds at the index allocated for a copied modulator. */
  function Stored(mod: Modulator, first: int, key: int): Modulator {
    Shift(mod, first).(index := key)
  }

  /**
   * pasteMod into the division `target` of a store whose next allocated
   * index is `first` (the store appends, so the n new modulators get
   * first .. first + n - 1).
   */
  function PasteMod(target: ElementType, mods: seq<Modulator>, store: map<int, Modulator>, first: int): (r: PasteResult)
    ensures r.Unchanged? <==> |mods| == 0 || ModType(target).None?
    ensures r.Rejected? <==> |mods| > 0 && IsPresetLevel(target) && HasForbiddenDest(mods)
    ensures r.Pasted? ==>
              && r.store.Keys == store.Keys + Allocated(first, |mods|)
              && (forall k :: k in store && k !in Allocated(first, |mods|) ==> r.store[k] == store[k])
              && (forall i :: 0 <= i < |mods| ==> r.store[first + i] == Stored(mods[i], first, first + i))
  {
    if |mods| == 0 || ModType(target).None? then Unchanged
    else if IsPresetLevel(target) && HasForbiddenDest(mods) then Rejected
    else
      var added := map k | k in Allocated(first, |mods|) :: Stored(mods[k - first], first, k);
      Pasted(store + added)
  }

  /**
   * Copy then paste keeps the link structure: a modulator that was linked
   * to another copied modulator is, once pasted, linked to that
   * modulator's new index.
   */
  lemma CopyPasteKeepsLinks(read: seq<Modulator>, target: ElementType, store: map<int, Modulator>, first: int, i: int, j: int)
    requires NoDuplicates(Indexes(read))
    requires 0 <= i < |read| && 0 <= j < |read|
    requires IsLink(read[i].destOper) && read[i].destOper == LinkBase + read[j].index
    ensures var pasted := PasteMod(target, GetModList(read), store, first);
            pasted.Pasted? ==> pasted.store[first + i].destOper == LinkBase + (first + j)
  {
    var copied := GetModList(read);
    if PasteMod(target, copied, store, first).Pasted? {
      GetModListPositions(read);
      GetModListLinks(read, i);
      assert copied[i].destOper == LinkBase + j;
      PasteShiftsLinks(target, copied, store, first, i, j);
    }
  }

  /** A pasted link to the j-th pasted modulator points at the index allocated for it. */
  lemma PasteShiftsLinks(target: ElementType, mods: seq<Modulator>, store: map<int, Modulator>, first: int, i: int, j: int)
    requires 0 <= i < |mods| && 0 <= j < |mods| && mods[i].destOper == LinkBase + j
    requires PasteMod(target, mods, store, first).Pasted?
    ensures PasteMod(target, mods, store, first).store[first + i].destOper == LinkBase + (first + j)
  {
  }

  /** Pasting at instrument level never rejects; at preset level exactly the forbidden destinations do. */
  lemma PresetRuleOnlyAtPresetLevel(mods: seq<Modulator>, store: map<int, Modulator>, first: int)
    requires |mods| > 0
    ensures PasteMod(Inst, mods, store, first).Pasted?
    ensures PasteMod(InstSmpl, mods, store, first).Pasted?
    ensures PasteMod(Prst, mods, store, first).Rejected? <==> HasForbiddenDest(mods)
  {
  }

  // ---------------------------------------------------------------------
  // Deleting

  /** Before removing `id`, every other modulator linked to it gets destination 0. */
  function ClearLinksTo(store: map<int, Modulator>, id: int): (r: map<int, Modulator>)
    ensures r.Keys == store.Keys
  {
    map k | k in store :: if k != id && store[k].destOper == LinkBase + id then store[k].(destOper := 0) else store[k]
  }

  /** on_pushDelete_clicked: the selected modulators are deleted one after the other. */
  function DeleteMods(store: map<int, Modulator>, ids: seq<int>): (r: map<int, Modulator>)
    ensures r.Keys <= store.Keys
    ensures forall i :: 0 <= i < |ids| ==> ids[i] !in r
    decreases |ids|
  {
    if |ids| == 0 then store
    else DeleteMods(ClearLinksTo(store, ids[0]) - {ids[0]}, ids[1..])
  }

  /** A remaining modulator after deleting `ids`: its link is cleared when it pointed at one of them. */
  function AfterDelete(mod: Modulator, ids: seq<int>): Modulator {
    if mod.destOper - LinkBase in ids then mod.(destOper := 0) else mod
  }

  /**
   * Deleting removes exactly the selected modulators, resets to 0 each
   * destination that linked to one of them, and changes nothing else.
   */
  lemma {:induction false} DeleteModsEffect(store: map<int, Modulator>, ids: seq<int>)
    ensures DeleteMods(store, ids).Keys == store.Keys - set x | x in ids
    ensures forall k :: k in DeleteMods(store, ids) ==> DeleteMods(store, ids)[k] == AfterDelete(store[k], ids)
    decreases |ids|
  {
    if |ids| > 0 {
      var id := ids[0];
      var s1 := ClearLinksTo(store, id) - {id};
      DeleteModsEffect(s1, ids[1..]);
      assert forall x :: x in ids <==> x == id || x in ids[1..];
      forall k | k in DeleteMods(store, ids)
        ensures DeleteMods(store, ids)[k] == AfterDelete(store[k], ids)
      {
        assert k in s1 && k != id;
        if store[k].destOper == LinkBase + id {
          assert s1[k] == store[k].(destOper := 0);
          assert AfterDelete(s1[k], ids[1..]) == store[k].(destOper := 0);
        } else {
          assert s1[k] == store[k];
        }
      }
    }
  }

  /** After a deletion no remaining modulator links to a deleted one. */
  lemma NoLinkToDeleted(store: map<int, Modulator>, ids: seq<int>, k: int)
    requires k in DeleteMods(store, ids)
    ensures IsLink(DeleteMods(store, ids)[k].destOper) ==> DeleteMods(store, ids)[k].destOper - LinkBase !in ids
  {
    DeleteModsEffect(store, ids);
  }

  /**
   * The row selected after deleting: the old row when it still exists,
   * else the last remaining row (-1 when none remain).
   */
  function RowAfterDelete(row: int, rows: int, deleted: int): (r: int)
    ensures r < rows - deleted
    ensures row < rows - deleted ==> r == row
    ensures row >= rows - deleted ==> r == rows - deleted - 1
  {
    if row >= rows - deleted then rows - deleted - 1 else row
  }

  // ---------------------------------------------------------------------
  // setIds and updateInterface

  /** The coarse generator of a fine sample offset: each of the four fine offsets has its own. */
  function CoarseOf(fine: int): (r: Option<int>)
    ensures r.Some? <==> fine in {StartAddrsOffset, EndAddrsOffset, StartloopAddrsOffset, EndloopAddrsOffset}
    ensures r.Some? ==> r.value in {StartAddrsCoarseOffset, EndAddrsCoarseOffset, StartloopAddrsCoarseOffset, EndloopAddrsCoarseOffset}
  {
    if fine == StartAddrsOffset then Some(StartAddrsCoarseOffset)
    else if fine == EndAddrsOffset then Some(EndAddrsCoarseOffset)
    else if fine == StartloopAddrsOffset then Some(StartloopAddrsCoarseOffset)
    else if fine == EndloopAddrsOffset then Some(EndloopAddrsCoarseOffset)
    else None
  }

  /** The selected attributes of setIds, with the coarse counterpart of each fine offset appended. */
  function AddCoarseOffsets(attrs: seq<int>): (r: seq<int>)
    ensures |attrs| <= |r| <= |attrs| + 4 && r[..|attrs|] == attrs
    ensures forall x :: x in r <==> x in attrs || exists f :: f in attrs && CoarseOf(f) == Some(x)
  {
    var r0 := attrs;
    var r1 := if StartAddrsOffset in r0 then r0 + [StartAddrsCoarseOffset] else r0;
    var r2 := if EndAddrsOffset in r1 then r1 + [EndAddrsCoarseOffset] else r1;
    var r3 := if StartloopAddrsOffset in r2 then r2 + [StartloopAddrsCoarseOffset] else r2;
    var r4 := if EndloopAddrsOffset in r3 then r3 + [EndloopAddrsCoarseOffset] else r3;
    assert forall f :: CoarseOf(f).Some? ==> f in {0, 1, 2, 3};
    r4
  }

  /** The editor after setIds: one division is edited, otherwise none. */
  datatype EditorView = NoDivision | Division(current: ElementType, highlighted: seq<int>)

  function SetIds(ids: seq<ElementType>, attrs: seq<int>): (r: EditorView)
    ensures r.Division? <==> |ids| == 1
    ensures r.Division? ==> r.current == ids[0]
    ensures r.Division? ==> forall f :: f in attrs && CoarseOf(f).Some? ==> CoarseOf(f).value in r.highlighted
  {
    if |ids| == 1 then Division(ids[0], AddCoarseOffsets(attrs)) else NoDivision
  }

  /** updateInterface: a modulator row is selected when its destination is highlighted. */
  function SelectedRows(mods: seq<Modulator>, highlighted: seq<int>): (r: seq<bool>)
    ensures |r| == |mods|
    ensures forall i :: 0 <= i < |mods| ==> (r[i] <==> mods[i].destOper in highlighted)
  {
    seq(|mods|, i requires 0 <= i < |mods| => mods[i].destOper in highlighted)
  }

  /**
   * Selecting a fine offset in the table also selects the modulators of
   * its coarse counterpart.
   */
  lemma FineSelectsCoarseModulators(ids: seq<ElementType>, attrs: seq<int>, mods: seq<Modulator>, f: int, i: int)
    requires |ids| == 1 && f in attrs && CoarseOf(f).Some?
    requires 0 <= i < |mods| && mods[i].destOper == CoarseOf(f).value
    ensures SelectedRows(mods, SetIds(ids, attrs).highlighted)[i]
  {
  }

  /** The summary lists the destinations of the modulators that are not links. */
  function SummaryTargets(mods: seq<Modulator>): (r: seq<int>)
    ensures forall x :: x in r <==> exists i :: 0 <= i < |mods| && mods[i].destOper == x && x < 99
    ensures |r| <= |mods|
  {
    if |mods| == 0 then []
    else
      var rest := SummaryTargets(mods[1..]);
      assert forall i :: 1 <= i < |mods| ==> mods[i] == mods[1..][i - 1];
      if mods[0].destOper < 99 then [mods[0].destOper] + rest else rest
  }

  // ---------------------------------------------------------------------
  // on_pushAdd_clicked

  const NoSource := SFModulator(0, 0, 0, 0, 0)

  /** A new modulator of a division: all zero, destination fineTune at preset level. */
  function NewModulator(target: ElementType, index: int): (r: Option<Modulator>)
    ensures r.Some? <==> ModType(target).Some?
    ensures r.Some? ==> r.value.srcOper == NoSource && r.value.amtSrcOper == NoSource
    ensures r.Some? ==> r.value.amount == 0 && r.value.transOper == 0 && r.value.index == index
    ensures r.Some? ==> r.value.destOper == if IsPresetLevel(target) then FineTune else 0
  {
    if ModType(target).None? then None
    else Some(Modulator(NoSource, if IsPresetLevel(target) then FineTune else 0, 0, NoSource, 0, index))
  }

  /**
   * A new modulator is valid where it was created: copied on its own it is
   * unchanged but for its index, and pasting it into a division of the
   * same level is accepted.
   */
  lemma NewModulatorPastes(target: ElementType, index: int, store: map<int, Modulator>, first: int)
    requires NewModulator(target, index).Some?
    ensures var m := NewModulator(target, index).value;
            && GetModList([m]) == [m.(index := 0)]
            && PasteMod(target, [m], store, first).Pasted?
  {
    var m := NewModulator(target, index).value;
    assert Indexes([m]) == [index];
    assert Distinct([index]) == [index];
    assert IsPresetLevel(target) ==> !HasForbiddenDest([m]);
  }
}
