/**
 * The context menu of the soundfont tree: which actions a selection
 * enables, the bulk rename of samples, instruments and presets (with the
 * 20-character name limit of section 7 of the SoundFont 2.04
 * specification), associating samples to an instrument or instruments to
 * a preset, and replacing the sample or instrument a division points at.
 * Names are sequences of characters; the store is left out and each
 * operation returns what it would write.
 */
module TreeViewMenu {
  import opened Wrappers
  import opened Attributes

  /** SoundFont names hold at most 20 characters. */
  const NameLimit := 20

  // ---------------------------------------------------------------------
  // initialize: enable rules

  /**
   * The "all ids of one element type" scan: the type is taken from the
   * first id of known type, and any later id of another type (unknown
   * included) ends the scan with false.
   */
  function SameElementFrom(kind: ElementType, ids: seq<ElementType>): bool
    decreases |ids|
  {
    if |ids| == 0 then true
    else if kind == Unknown then SameElementFrom(ids[0], ids[1..])
    else if kind != ids[0] then false
    else SameElementFrom(kind, ids[1..])
  }

  function SameElement(ids: seq<ElementType>): (r: bool)
    ensures r <==> forall i, j :: 0 <= i < j < |ids| && ids[i] != Unknown ==> ids[j] == ids[i]
  {
    SameElementFromMeaning(Unknown, ids);
    SameElementFrom(Unknown, ids)
  }

  /** Every id after a known one has its type. */
  predicate AllAfterKnownAgree(kind: ElementType, ids: seq<ElementType>) {
    && (kind != Unknown ==> forall j :: 0 <= j < |ids| ==> ids[j] == kind)
    && (forall i, j :: 0 <= i < j < |ids| && ids[i] != Unknown ==> ids[j] == ids[i])
  }

  lemma {:induction false} SameElementFromMeaning(kind: ElementType, ids: seq<ElementType>)
    ensures SameElementFrom(kind, ids) <==> AllAfterKnownAgree(kind, ids)
    decreases |ids|
  {
    if |ids| > 0 {
      var rest := ids[1..];
      assert forall j :: 1 <= j < |ids| ==> ids[j] == rest[j - 1];
      if kind == Unknown {
        SameElementFromMeaning(ids[0], rest);
        if AllAfterKnownAgree(ids[0], rest) {
          forall i, j | 0 <= i < j < |ids| && ids[i] != Unknown ensures ids[j] == ids[i] {
            if i > 0 { assert rest[i - 1] != Unknown; }
          }
        }
      } else if kind == ids[0] {
        SameElementFromMeaning(kind, rest);
      }
    }
  }

  /**
   * What "one element type" means: no id of known type is followed by an
   * id of another type. Without unknown ids, every id has the first id's
   * type.
   */
  lemma SameElementMeaning(ids: seq<ElementType>)
    ensures SameElement(ids) <==> forall i, j :: 0 <= i < j < |ids| && ids[i] != Unknown ==> ids[j] == ids[i]
    ensures (forall i :: 0 <= i < |ids| ==> ids[i] != Unknown) ==>
              (SameElement(ids) <==> forall i :: 0 <= i < |ids| ==> ids[i] == ids[0])
  {
    SameElementFromMeaning(Unknown, ids);
  }

  /** The enabled actions; bulkRename says the rename action is labelled for several elements. */
  datatype MenuState = MenuState(
    associate: bool, replace: bool, rename: bool, bulkRename: bool,
    copy: bool, paste: bool, duplicate: bool, remove: bool)

  /** initialize: the actions a selection enables. */
  function Initialize(ids: seq<ElementType>): (m: MenuState)
    ensures m.associate <==> SameElement(ids) && forall i :: 0 <= i < |ids| ==> ids[i] in {Smpl, Inst}
    ensures m.replace <==> |ids| == 1 && ids[0] in {InstSmpl, PrstInst}
    ensures m.rename <==> forall i :: 0 <= i < |ids| ==> ids[i] in {Smpl, Inst, Prst}
    ensures m.bulkRename <==> m.rename && |ids| != 1
    ensures m.copy == m.duplicate == m.remove == SameElement(ids)
    ensures m.paste <==> |ids| == 1
  {
    var same := SameElement(ids);
    var rename := forall i :: 0 <= i < |ids| ==> ids[i] in {Smpl, Inst, Prst};
    MenuState(
      same && (forall i :: 0 <= i < |ids| ==> ids[i] in {Smpl, Inst}),
      |ids| == 1 && ids[0] in {InstSmpl, PrstInst},
      rename,
      rename && |ids| != 1,
      same, |ids| == 1, same, same)
  }

  /**
   * Association is offered for a selection of samples only or of
   * instruments only.
   */
  lemma AssociateNeedsOneKind(ids: seq<ElementType>)
    requires |ids| > 0
    ensures Initialize(ids).associate <==>
              (ids[0] == Smpl || ids[0] == Inst) && forall i :: 0 <= i < |ids| ==> ids[i] == ids[0]
  {
    SameElementMeaning(ids);
  }

  // ---------------------------------------------------------------------
  // String helpers with Qt's semantics

  /** QString::left: the whole string when n is negative or at least the length. */
  function Left(s: string, n: int): (r: string)
    ensures n < 0 || n >= |s| ==> r == s
    ensures 0 <= n < |s| ==> |r| == n
    ensures r <= s
  {
    if n < 0 || n >= |s| then s else s[..n]
  }

  /** QString::insert at a position within the string. */
  function InsertAt(s: string, pos: nat, t: string): (r: string)
    requires pos <= |s|
    ensures |r| == |s| + |t|
    ensures r[..pos] == s[..pos] && r[pos..pos + |t|] == t && r[pos + |t|..] == s[pos..]
  {
    s[..pos] + t + s[pos..]
  }

  /** QString::remove: past the end nothing; a count past the end truncates. */
  function RemoveAt(s: string, pos: nat, n: nat): (r: string)
    ensures pos >= |s| ==> r == s
    ensures pos < |s| && pos + n >= |s| ==> r == s[..pos]
    ensures |r| == |s| - (if pos >= |s| then 0 else if pos + n >= |s| then |s| - pos else n)
  {
    if pos >= |s| then s
    else if pos + n >= |s| then s[..pos]
    else s[..pos] + s[pos + n..]
  }

  /** Removing what was just inserted gives the original string back. */
  lemma InsertThenRemove(s: string, pos: nat, t: string)
    requires pos <= |s|
    ensures RemoveAt(InsertAt(s, pos, t), pos, |t|) == s
  {
    var r := InsertAt(s, pos, t);
    if pos >= |r| {
      assert |t| == 0 && pos == |s|;
    } else if pos + |t| >= |r| {
      assert r[..pos] == s[..pos] && pos == |s|;
    } else {
      assert r[..pos] + r[pos + |t|..] == s[..pos] + s[pos..];
    }
  }

  function Digit(d: int): char
    requires 0 <= d < 10
  {
    (('0' as int) + d) as char
  }

  /** A number below 100 written on two digits, with a leading zero below 10. */
  function TwoDigits(k: int): (r: string)
    requires 0 <= k < 100
    ensures |r| == 2 && '0' <= r[0] <= '9' && '0' <= r[1] <= '9'
  {
    [Digit(k / 10), Digit(k % 10)]
  }

  function ParseTwoDigits(s: string): int
    requires |s| == 2
  {
    (s[0] as int - '0' as int) * 10 + (s[1] as int - '0' as int)
  }

  lemma TwoDigitsRoundTrip(k: int)
    requires 0 <= k < 100
    ensures ParseTwoDigits(TwoDigits(k)) == k
  {
  }

  // ---------------------------------------------------------------------
  // bulkRename

  /** An element to rename: its name, and what the name computations read about it. */
  datatype Item = Item(
    name: string,
    keyName: string,     // the key name of its original pitch (samples)
    link: SampleLink,    // its stereo role (samples)
    replaced: string)    // its name after the case-insensitive replacement of mode 2

  /** Modes 3 and 4 give up before renaming anything. */
  predicate Aborts(mode: int, text1: string, val1: int, val2: int) {
    (mode == 3 && |text1| == 0) || (mode == 4 && val1 == val2)
  }

  /** The key-name suffix: the key name, then R or L for a right or left sample. */
  function KeySuffix(item: Item): (r: string)
    ensures item.link.IsRight() ==> r == item.keyName + ['R']
    ensures item.link.IsLeft() ==> r == item.keyName + ['L']
    ensures !item.link.IsRight() && !item.link.IsLeft() ==> r == item.keyName
  {
    if item.link.IsRight() then item.keyName + ['R']
    else if item.link.IsLeft() then item.keyName + ['L']
    else item.keyName
  }

  /** The counter suffix of item i: (i + 1) mod 100 on two digits. */
  function IndexSuffix(i: nat): string {
    TwoDigits((i + 1) % 100)
  }

  /** The name computed for item i, before the 20-character cut. */
  function ComputedName(item: Item, i: nat, mode: int, text1: string, val1: nat, val2: nat): string
    requires !Aborts(mode, text1, val1, val2)
  {
    if mode == 0 then
      var suffix := KeySuffix(item);
      if |text1| == 0 then suffix
      else Left(text1, NameLimit - (|suffix| + 1)) + " " + suffix
    else if mode == 1 then
      if |text1| == 0 then IndexSuffix(i) else Left(text1, 17) + "-" + IndexSuffix(i)
    else if mode == 2 then item.replaced
    else if mode == 3 then
      InsertAt(item.name, if val1 > |item.name| then |item.name| else val1, text1)
    else if mode == 4 then
      if val2 > val1 then RemoveAt(item.name, val1, val2 - val1) else RemoveAt(item.name, val2, val1 - val2)
    else item.name
  }
  /**
   * What each mode computes: the key-name suffix, alone or after the text
   * and a space; a name ending in the counter; the replaced name; the
   * text inserted at the position, or appended past the end; the name
   * without the range between the two positions, cut at its end.
   */
  lemma ComputedNameByMode(item: Item, i: nat, mode: int, text1: string, val1: nat, val2: nat)
    requires !Aborts(mode, text1, val1, val2)
    ensures var r := ComputedName(item, i, mode, text1, val1, val2);
            && (mode == 0 && |text1| == 0 ==> r == KeySuffix(item))
            && (mode == 0 && |text1| > 0 ==>
                  var n := |KeySuffix(item)|;
                  |r| > n && r[|r| - n..] == KeySuffix(item) && r[|r| - n - 1] == ' ')
            && (mode == 1 ==> |r| >= 2 && r[|r| - 2..] == IndexSuffix(i))
            && (mode == 2 ==> r == item.replaced)
            && (mode == 3 && val1 <= |item.name| ==> r == item.name[..val1] + text1 + item.name[val1..])
            && (mode == 3 && val1 > |item.name| ==> r == item.name + text1)
    ensures var r := ComputedName(item, i, mode, text1, val1, val2);
            var lo := if val1 < val2 then val1 else val2;
            var hi := if val1 < val2 then val2 else val1;
            mode == 4 ==>
              && (lo >= |item.name| ==> r == item.name)
              && (hi <= |item.name| ==> r == item.name[..lo] + item.name[hi..])
              && (lo < |item.name| < hi ==> r == item.name[..lo])
    ensures (mode < 0 || mode > 4) ==> ComputedName(item, i, mode, text1, val1, val2) == item.name
  {
    var r := ComputedName(item, i, mode, text1, val1, val2);
    if mode == 0 && |text1| > 0 {
      var suffix := KeySuffix(item);
      var head := Left(text1, NameLimit - (|suffix| + 1)) + " ";
      assert r == head + suffix;
      assert r[|r| - |suffix|..] == suffix;
    } else if mode == 1 && |text1| > 0 {
      assert r == Left(text1, 17) + "-" + IndexSuffix(i);
    }
  }


  /** A new name is written only when it differs from the current one. */
  function Written(item: Item, computed: string): (r: Option<string>)
    ensures r.Some? <==> Left(computed, NameLimit) != item.name
    ensures r.Some? ==> r.value == Left(computed, NameLimit) && |r.value| <= NameLimit
  {
    var name := Left(computed, NameLimit);
    if name != item.name then Some(name) else None
  }

  /**
   * bulkRename: the name written for each item (None where the name is
   * unchanged), or None for the whole operation when it aborts.
   * Positions come from spin boxes and are not negative.
   */
  function BulkRename(items: seq<Item>, mode: int, text1: string, val1: nat, val2: nat): (r: Option<seq<Option<string>>>)
    ensures r.None? <==> |items| > 0 && Aborts(mode, text1, val1, val2)
    ensures r.Some? ==> |r.value| == |items|
    ensures r.Some? ==> forall i :: 0 <= i < |items| ==>
              (r.value[i].Some? ==> |r.value[i].value| <= NameLimit && r.value[i].value != items[i].name)
  {
    if Aborts(mode, text1, val1, val2) then (if |items| == 0 then Some([]) else None)
    else Some(seq(|items|, i requires 0 <= i < |items| => Written(items[i], ComputedName(items[i], i, mode, text1, val1, val2))))
  }

  /**
   * Index mode: the name is the counter alone, or the first 17
   * characters of the text, a dash and the counter; the counter reads
   * back as (i + 1) mod 100.
   */
  lemma IndexModeName(item: Item, i: nat, text1: string, val1: nat, val2: nat)
    ensures var n := Left(ComputedName(item, i, 1, text1, val1, val2), NameLimit);
            && |n| >= 2
            && ParseTwoDigits(n[|n| - 2..]) == (i + 1) % 100
            && (|text1| == 0 ==> n == IndexSuffix(i))
            && (|text1| > 0 ==> n[..|n| - 3] == Left(text1, 17) && n[|n| - 3] == '-')
  {
    var c := ComputedName(item, i, 1, text1, val1, val2);
    assert |c| <= NameLimit;
    TwoDigitsRoundTrip((i + 1) % 100);
    if |text1| > 0 {
      assert c == Left(text1, 17) + "-" + IndexSuffix(i);
      assert c[..|c| - 3] == Left(text1, 17);
      assert c[|c| - 2..] == IndexSuffix(i);
    }
  }

  /**
   * Key-name mode: with a prefix, the prefix is cut so that prefix, a
   * space and the suffix fit in 20 characters, and the suffix survives.
   */
  lemma KeyNameModeName(item: Item, i: nat, text1: string, val1: nat, val2: nat)
    requires |text1| > 0 && |KeySuffix(item)| < NameLimit
    ensures var n := Left(ComputedName(item, i, 0, text1, val1, val2), NameLimit);
            var suffix := KeySuffix(item);
            && |n| <= NameLimit
            && n == Left(text1, NameLimit - 1 - |suffix|) + " " + suffix
            && n[|n| - |suffix|..] == suffix
  {
    var suffix := KeySuffix(item);
    var c := ComputedName(item, i, 0, text1, val1, val2);
    assert c == Left(text1, NameLimit - (|suffix| + 1)) + " " + suffix;
    assert c[|c| - |suffix|..] == suffix;
  }

  /** Delete mode removes the same characters whichever bound comes first. */
  lemma DeleteModeSymmetric(item: Item, i: nat, text1: string, a: nat, b: nat)
    requires a != b
    ensures ComputedName(item, i, 4, text1, a, b) == ComputedName(item, i, 4, text1, b, a)
  {
  }

  /**
   * Insert then delete round trip: deleting the inserted range from the
   * renamed item gives its name back.
   */
  lemma InsertThenDeleteMode(item: Item, i: nat, text1: string, pos: nat, val2: nat)
    requires |text1| > 0 && pos <= |item.name|
    ensures var inserted := item.(name := ComputedName(item, i, 3, text1, pos, val2));
            ComputedName(inserted, i, 4, text1, pos, pos + |text1|) == item.name
  {
    InsertThenRemove(item.name, pos, text1);
  }

  /**
   * bulkRename as written: the insert position is clamped in place, so a
   * short name lowers the position used for every later name.
   */
  function BulkRenameAsWrittenFrom(items: seq<Item>, from: nat, mode: int, text1: string, val1: nat, val2: nat): (r: seq<Option<string>>)
    requires from <= |items| && !Aborts(mode, text1, val1, val2)
    ensures |r| == |items| - from
    decreases |items| - from
  {
    if from == |items| then []
    else
      var pos: nat := if mode == 3 && val1 > |items[from].name| then |items[from].name| else val1;
      [Written(items[from], ComputedName(items[from], from, mode, text1, pos, val2))] +
      BulkRenameAsWrittenFrom(items, from + 1, mode, text1, pos, val2)
  }

  function BulkRenameAsWritten(items: seq<Item>, mode: int, text1: string, val1: nat, val2: nat): (r: Option<seq<Option<string>>>)
    ensures r.None? <==> |items| > 0 && Aborts(mode, text1, val1, val2)
    ensures r.Some? ==> |r.value| == |items|
  {
    if Aborts(mode, text1, val1, val2) then (if |items| == 0 then Some([]) else None)
    else Some(BulkRenameAsWrittenFrom(items, 0, mode, text1, val1, val2))
  }

  /**
   * Inserting "X" at position 5 into "ab" and "abcdef": the first name is
   * clamped to position 2, and the written loop then inserts into the
   * second name at 2 as well, where the per-name clamp inserts at 5.
   */
  lemma InsertClampCarriesOver()
    ensures var items := [Item("ab", "", MonoSample, ""), Item("abcdef", "", MonoSample, "")];
            && BulkRenameAsWritten(items, 3, "X", 5, 0) == Some([Some("abX"), Some("abXcdef")])
            && BulkRename(items, 3, "X", 5, 0) == Some([Some("abX"), Some("abcdeXf")])
  {
    var items := [Item("ab", "", MonoSample, ""), Item("abcdef", "", MonoSample, "")];
    assert ComputedName(items[0], 0, 3, "X", 5, 0) == "abX";
    assert ComputedName(items[1], 1, 3, "X", 2, 0) == "abXcdef";
    assert ComputedName(items[1], 1, 3, "X", 5, 0) == "abcdeXf";
    assert Left("abX", NameLimit) == "abX" && Written(items[0], "abX") == Some("abX");
    assert Left("abXcdef", NameLimit) == "abXcdef" && Written(items[1], "abXcdef") == Some("abXcdef");
    assert Left("abcdeXf", NameLimit) == "abcdeXf" && Written(items[1], "abcdeXf") == Some("abcdeXf");
    assert BulkRenameAsWrittenFrom(items, 2, 3, "X", 2, 0) == [];
    assert BulkRenameAsWrittenFrom(items, 1, 3, "X", 2, 0) == [Some("abXcdef")];
    assert BulkRenameAsWrittenFrom(items, 0, 3, "X", 5, 0) == [Some("abX")] + [Some("abXcdef")];
    assert [Some("abX")] + [Some("abXcdef")] == [Some("abX"), Some("abXcdef")];
    assert BulkRenameAsWritten(items, 3, "X", 5, 0) == Some(BulkRenameAsWrittenFrom(items, 0, 3, "X", 5, 0));
    var r := BulkRename(items, 3, "X", 5, 0).value;
    assert r[0] == Some("abX") && r[1] == Some("abcdeXf");
    assert r == [Some("abX"), Some("abcdeXf")];
  }

  /**
   * Outside insert mode, or when the position fits every name, the
   * written loop and the per-name clamp agree.
   */
  lemma {:induction false} AsWrittenAgreesWhenPositionFits(items: seq<Item>, from: nat, k: nat, mode: int, text1: string, val1: nat, val2: nat)
    requires from <= k < |items| && !Aborts(mode, text1, val1, val2)
    requires mode != 3 || forall i :: from <= i < |items| ==> val1 <= |items[i].name|
    ensures BulkRenameAsWrittenFrom(items, from, mode, text1, val1, val2)[k - from] ==
              Written(items[k], ComputedName(items[k], k, mode, text1, val1, val2))
    decreases k - from
  {
    var rest := BulkRenameAsWrittenFrom(items, from + 1, mode, text1, val1, val2);
    var head := Written(items[from], ComputedName(items[from], from, mode, text1, val1, val2));
    assert mode != 3 || val1 <= |items[from].name|;
    AsWrittenStep(items, from, mode, text1, val1, val2);
    if k > from {
      AsWrittenAgreesWhenPositionFits(items, from + 1, k, mode, text1, val1, val2);
      assert ([head] + rest)[k - from] == rest[k - from - 1];
    }
  }

  /** One step of the written loop when the position fits the current name: the position is kept. */
  lemma AsWrittenStep(items: seq<Item>, from: nat, mode: int, text1: string, val1: nat, val2: nat)
    requires from < |items| && !Aborts(mode, text1, val1, val2)
    requires mode != 3 || val1 <= |items[from].name|
    ensures BulkRenameAsWrittenFrom(items, from, mode, text1, val1, val2) ==
              [Written(items[from], ComputedName(items[from], from, mode, text1, val1, val2))] +
              BulkRenameAsWrittenFrom(items, from + 1, mode, text1, val1, val2)
  {
  }

  /** The same for the whole operation. */
  lemma AsWrittenAgreesWithBulkRename(items: seq<Item>, mode: int, text1: string, val1: nat, val2: nat)
    requires mode != 3 || forall i :: 0 <= i < |items| ==> val1 <= |items[i].name|
    ensures BulkRenameAsWritten(items, mode, text1, val1, val2) == BulkRename(items, mode, text1, val1, val2)
  {
    if !Aborts(mode, text1, val1, val2) {
      var a := BulkRenameAsWrittenFrom(items, 0, mode, text1, val1, val2);
      var b := seq(|items|, i requires 0 <= i < |items| => Written(items[i], ComputedName(items[i], i, mode, text1, val1, val2)));
      assert BulkRename(items, mode, text1, val1, val2) == Some(b);
      assert BulkRenameAsWritten(items, mode, text1, val1, val2) == Some(a);
      forall k | 0 <= k < |items| ensures a[k] == b[k] {
        AsWrittenAgreesWhenPositionFits(items, 0, k, mode, text1, val1, val2);
      }
      assert |a| == |b|;
      assert a == b;
    }
  }

  // ---------------------------------------------------------------------
  // associate

  type byte = x: int | 0 <= x < 256

  datatype KeyRange = KeyRange(lo: byte, hi: byte)

  /** An element being associated: its index, its stereo role, and the key range of each of its zones if set. */
  datatype Source = Source(index: int, link: SampleLink, zoneRanges: seq<Option<KeyRange>>)

  /** The division created for a source: a sample zone with a pan, or an instrument zone with a key range. */
  datatype NewDivision =
    | SampleZone(sampleId: int, pan: int)
    | InstrumentZone(instrument: int, keyRange: KeyRange)

  /** The smallest lower key over the zones that set a range, starting from 127. */
  function MinLo(zones: seq<Option<KeyRange>>): (r: int)
    ensures 0 <= r <= 127
    ensures forall i :: 0 <= i < |zones| && zones[i].Some? ==> r <= zones[i].value.lo
    ensures r == 127 || exists i :: 0 <= i < |zones| && zones[i].Some? && zones[i].value.lo == r
  {
    if |zones| == 0 then 127
    else
      var rest := MinLo(zones[1..]);
      assert forall i :: 1 <= i < |zones| ==> zones[i] == zones[1..][i - 1];
      if zones[0].Some? && zones[0].value.lo < rest then zones[0].value.lo else rest
  }

  /** The largest upper key over the zones that set a range, starting from 0. */
  function MaxHi(zones: seq<Option<KeyRange>>): (r: int)
    ensures 0 <= r <= 255
    ensures forall i :: 0 <= i < |zones| && zones[i].Some? ==> zones[i].value.hi <= r
    ensures r == 0 || exists i :: 0 <= i < |zones| && zones[i].Some? && zones[i].value.hi == r
  {
    if |zones| == 0 then 0
    else
      var rest := MaxHi(zones[1..]);
      assert forall i :: 1 <= i < |zones| ==> zones[i] == zones[1..][i - 1];
      if zones[0].Some? && zones[0].value.hi > rest then zones[0].value.hi else rest
  }

  /**
   * The key range of a new preset zone: the union of the instrument's
   * zone ranges, or the full keyboard when it would be empty or a single
   * key (which includes an instrument without ranges).
   */
  function KeyRangeUnion(zones: seq<Option<KeyRange>>): (r: KeyRange)
    ensures r.lo < r.hi
    ensures forall i :: 0 <= i < |zones| && zones[i].Some? ==> r.lo <= zones[i].value.lo && zones[i].value.hi <= r.hi
    ensures (forall i :: 0 <= i < |zones| ==> zones[i].None?) ==> r == KeyRange(0, 127)
    ensures MinLo(zones) < MaxHi(zones) ==> r == KeyRange(MinLo(zones), MaxHi(zones))
    ensures MinLo(zones) >= MaxHi(zones) ==> r == KeyRange(0, 127)
    ensures (exists i :: 0 <= i < |zones| && zones[i].Some? && zones[i].value.lo < zones[i].value.hi) ==>
              && (r.lo == 127 || exists i :: 0 <= i < |zones| && zones[i].Some? && zones[i].value.lo == r.lo)
              && (exists j :: 0 <= j < |zones| && zones[j].Some? && zones[j].value.hi == r.hi)
  {
    var lo := MinLo(zones);
    var hi := MaxHi(zones);
    if lo < hi then KeyRange(lo, hi) else KeyRange(0, 127)
  }

  /** Single-key zones 60 and 72 give the range 60..72, not the fallback. */
  lemma SingleKeyZonesUnion()
    ensures KeyRangeUnion([Some(KeyRange(60, 60)), Some(KeyRange(72, 72))]) == KeyRange(60, 72)
  {
    var zones := [Some(KeyRange(60, 60)), Some(KeyRange(72, 72))];
    assert zones[1..] == [Some(KeyRange(72, 72))];
    assert zones[1..][1..] == [];
  }

  /**
   * The union is tight: when it is not the fallback, both of its ends are
   * reached by some zone (or the lower end is the 127 starting value).
   */
  lemma KeyRangeUnionTight(zones: seq<Option<KeyRange>>)
    requires KeyRangeUnion(zones) != KeyRange(0, 127)
    ensures var r := KeyRangeUnion(zones);
            && (r.lo == 127 || exists i :: 0 <= i < |zones| && zones[i].Some? && zones[i].value.lo == r.lo)
            && (exists i :: 0 <= i < |zones| && zones[i].Some? && zones[i].value.hi == r.hi)
  {
  }

  datatype Association = Association(divisions: seq<NewDivision>, selected: ElementType)

  /**
   * associate: one new division per source in the destination. Into an
   * instrument, each sample gets a zone with the pan of its stereo role;
   * otherwise each instrument gets a preset zone with the union of its key
   * ranges. The parent of the new divisions is selected.
   */
  function Associate(sources: seq<Source>, dest: ElementType): (r: Association)
    ensures |r.divisions| == |sources|
    ensures r.selected == if dest == Inst then Inst else Prst
    ensures dest == Inst ==> forall i :: 0 <= i < |sources| ==>
              r.divisions[i].SampleZone? && r.divisions[i].sampleId == sources[i].index &&
              r.divisions[i].pan == LinkPan(sources[i].link) &&
              (r.divisions[i].pan > 0 <==> sources[i].link.IsRight()) &&
              (r.divisions[i].pan < 0 <==> sources[i].link.IsLeft())
    ensures dest != Inst ==> forall i :: 0 <= i < |sources| ==>
              r.divisions[i].InstrumentZone? && r.divisions[i].instrument == sources[i].index &&
              r.divisions[i].keyRange == KeyRangeUnion(sources[i].zoneRanges)
  {
    var divisions := seq(|sources|, i requires 0 <= i < |sources| =>
      if dest == Inst then SampleZone(sources[i].index, LinkPan(sources[i].link))
      else InstrumentZone(sources[i].index, KeyRangeUnion(sources[i].zoneRanges)));
    Association(divisions, if dest == Inst then Inst else Prst)
  }

  // ---------------------------------------------------------------------
  // replace

  /**
   * replace: a sample or an instrument becomes what a division points at.
   * The generator written and its value, or None when the types do not
   * allow it.
   */
  function Replace(src: ElementType, srcIndex: int, dest: ElementType): (r: Option<(int, int)>)
    ensures r.Some? <==> dest in {InstSmpl, PrstInst} && src in {Smpl, Inst}
    ensures r.Some? ==> r.value.1 == srcIndex
    ensures r.Some? ==> (r.value.0 == SampleId <==> src == Smpl) && (r.value.0 == Instrument <==> src == Inst)
  {
    if dest != InstSmpl && dest != PrstInst then None
    else if src != Smpl && src != Inst then None
    else Some((if src == Smpl then SampleId else Instrument, srcIndex))
  }

  /**
   * Replacing writes the generator that associating would have written:
   * sampleID for a sample in an instrument zone, instrument for an
   * instrument in a preset zone.
   */
  lemma ReplaceMatchesAssociate(s: Source, dest: ElementType)
    requires dest == Inst || dest == Prst
    ensures var kind := if dest == Inst then Smpl else Inst;
            var division := if dest == Inst then InstSmpl else PrstInst;
            var d := Associate([s], dest).divisions[0];
            && Replace(kind, s.index, division) == Some((if dest == Inst then SampleId else Instrument, s.index))
            && (if dest == Inst then d.sampleId else d.instrument) == s.index
  {
  }
}
