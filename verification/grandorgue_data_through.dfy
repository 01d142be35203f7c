/**
 * The bookkeeping of a GrandOrgue import: the largest gain met in each
 * rank and over all ranks, the soundfont element created for each
 * GrandOrgue instrument and for each sample file, and the set of sample
 * names already used, compared without regard to case.
 */
module GrandOrgueDataThrough {

  datatype DataThrough = DataThrough(
    maxGainPerRank: map<int, real>,
    maxGain: real,
    instIds: map<int, int>,
    smplIds: map<string, seq<int>>,
    sampleNames: seq<string>)     // stored in lower case

  /** The constructor: nothing recorded, overall maximum gain 0. */
  const Empty := DataThrough(map[], 0.0, map[], map[], [])

  // ---------------------------------------------------------------------
  // Gains

  /** getMaxRankGain: the largest gain recorded for a rank, 0 for a rank never seen. */
  function GetMaxRankGain(d: DataThrough, rank: int): (r: real)
    ensures rank !in d.maxGainPerRank ==> r == 0.0
    ensures rank in d.maxGainPerRank ==> r == d.maxGainPerRank[rank]
  {
    if rank in d.maxGainPerRank then d.maxGainPerRank[rank] else 0.0
  }

  /** setMaxRankGain: the rank keeps the largest gain it has been given. */
  function SetMaxRankGain(d: DataThrough, rank: int, gain: real): (r: DataThrough)
    ensures r == d.(maxGainPerRank := r.maxGainPerRank)
    ensures r.maxGainPerRank.Keys == d.maxGainPerRank.Keys + {rank}
    ensures GetMaxRankGain(r, rank) >= gain
    ensures rank in d.maxGainPerRank ==> GetMaxRankGain(r, rank) >= GetMaxRankGain(d, rank)
    ensures GetMaxRankGain(r, rank) == gain || GetMaxRankGain(r, rank) == GetMaxRankGain(d, rank)
    ensures forall other :: other != rank ==> GetMaxRankGain(r, other) == GetMaxRankGain(d, other)
  {
    if rank in d.maxGainPerRank then
      var current := d.maxGainPerRank[rank];
      d.(maxGainPerRank := d.maxGainPerRank[rank := if current >= gain then current else gain])
    else d.(maxGainPerRank := d.maxGainPerRank[rank := gain])
  }

  /** The order in which gains arrive does not matter. */
  lemma SetMaxRankGainCommutes(d: DataThrough, a: int, g: real, b: int, h: real)
    ensures SetMaxRankGain(SetMaxRankGain(d, a, g), b, h) == SetMaxRankGain(SetMaxRankGain(d, b, h), a, g)
  {
  }

  /** Giving a rank the same gain again changes nothing. */
  lemma SetMaxRankGainIdempotent(d: DataThrough, rank: int, gain: real)
    ensures SetMaxRankGain(SetMaxRankGain(d, rank, gain), rank, gain) == SetMaxRankGain(d, rank, gain)
  {
  }

  /** The gains of a sequence of setMaxRankGain calls. */
  function SetAll(d: DataThrough, calls: seq<(int, real)>): DataThrough
    decreases |calls|
  {
    if |calls| == 0 then d
    else SetAll(SetMaxRankGain(d, calls[0].0, calls[0].1), calls[1..])
  }

  /**
   * After any sequence of calls on a fresh store, a rank answers the
   * largest gain it was given, and 0 if it was given none.
   */
  lemma {:induction false} SetAllKeepsMaximum(d: DataThrough, calls: seq<(int, real)>, rank: int)
    ensures var g := GetMaxRankGain(SetAll(d, calls), rank);
            && (forall i :: 0 <= i < |calls| && calls[i].0 == rank ==> g >= calls[i].1)
            && (rank in d.maxGainPerRank ==> g >= GetMaxRankGain(d, rank))
            && (g == GetMaxRankGain(d, rank) || exists i :: 0 <= i < |calls| && calls[i].0 == rank && g == calls[i].1)
    decreases |calls|
  {
    if |calls| > 0 {
      var d1 := SetMaxRankGain(d, calls[0].0, calls[0].1);
      SetAllKeepsMaximum(d1, calls[1..], rank);
      assert forall i :: 1 <= i < |calls| ==> calls[i] == calls[1..][i - 1];
      var g := GetMaxRankGain(SetAll(d, calls), rank);
      if g != GetMaxRankGain(d1, rank) {
        var i :| 0 <= i < |calls[1..]| && calls[1..][i].0 == rank && g == calls[1..][i].1;
        assert calls[i + 1].0 == rank && g == calls[i + 1].1;
      } else if calls[0].0 == rank && g != GetMaxRankGain(d, rank) {
        assert g == calls[0].1;
      }
    }
  }

  /**
   * finalizePreprocess: the overall maximum becomes the largest of its
   * current value and every rank's gain.
   */
  method FinalizePreprocess(d: DataThrough) returns (r: DataThrough)
    ensures r == d.(maxGain := r.maxGain)
    ensures r.maxGain >= d.maxGain
    ensures forall rank :: rank in d.maxGainPerRank ==> r.maxGain >= d.maxGainPerRank[rank]
    ensures r.maxGain == d.maxGain || exists rank :: rank in d.maxGainPerRank && r.maxGain == d.maxGainPerRank[rank]
  {
    var gains := d.maxGainPerRank;
    var remaining := gains.Keys;
    var m := d.maxGain;
    while remaining != {}
      invariant remaining <= gains.Keys
      invariant m >= d.maxGain
      invariant forall rank :: rank in gains && rank !in remaining ==> m >= gains[rank]
      invariant m == d.maxGain || exists rank :: rank in gains && m == gains[rank]
      decreases |remaining|
    {
      NonEmptyHasMember(remaining);
      var next :| next in remaining;
      if gains[next] > m {
        m := gains[next];
      }
      remaining := remaining - {next};
    }
    r := d.(maxGain := m);
  }

  lemma NonEmptyHasMember(s: set<int>)
    requires s != {}
    ensures exists x :: x in s
  {
    if forall x :: x !in s {
      assert false;
    }
  }

  /** The overall maximum of a fresh import is never negative. */
  method FinalizeFresh(calls: seq<(int, real)>) returns (r: DataThrough)
    ensures r.maxGain >= 0.0
    ensures forall i :: 0 <= i < |calls| ==> r.maxGain >= calls[i].1
  {
    var d := SetAll(Empty, calls);
    SetAllKeepsRanks(Empty, calls);
    r := FinalizePreprocess(d);
    forall i | 0 <= i < |calls| ensures r.maxGain >= calls[i].1 {
      SetAllKeepsMaximum(Empty, calls, calls[i].0);
      assert calls[i].0 in d.maxGainPerRank by { SetAllRecordsRanks(Empty, calls, i); }
    }
  }

  lemma {:induction false} SetAllRecordsRanks(d: DataThrough, calls: seq<(int, real)>, i: int)
    requires 0 <= i < |calls|
    ensures calls[i].0 in SetAll(d, calls).maxGainPerRank
    decreases |calls|
  {
    var d1 := SetMaxRankGain(d, calls[0].0, calls[0].1);
    if i > 0 {
      SetAllRecordsRanks(d1, calls[1..], i - 1);
    } else {
      SetAllKeepsRanks(d1, calls[1..]);
    }
  }

  lemma {:induction false} SetAllKeepsRanks(d: DataThrough, calls: seq<(int, real)>)
    ensures d.maxGainPerRank.Keys <= SetAll(d, calls).maxGainPerRank.Keys
    ensures SetAll(d, calls).maxGain == d.maxGain
    decreases |calls|
  {
    if |calls| > 0 {
      SetAllKeepsRanks(SetMaxRankGain(d, calls[0].0, calls[0].1), calls[1..]);
    }
  }

  // ---------------------------------------------------------------------
  // Element ids

  /** getSf2InstId: the id recorded for a GrandOrgue instrument, or -1. */
  function GetSf2InstId(d: DataThrough, instId: int): (r: int)
    ensures instId !in d.instIds ==> r == -1
    ensures instId in d.instIds ==> r == d.instIds[instId]
  {
    if instId in d.instIds then d.instIds[instId] else -1
  }

  function SetSf2InstId(d: DataThrough, instId: int, sf2Id: int): (r: DataThrough)
    ensures r == d.(instIds := r.instIds)
    ensures GetSf2InstId(r, instId) == sf2Id
    ensures forall other :: other != instId ==> GetSf2InstId(r, other) == GetSf2InstId(d, other)
  {
    d.(instIds := d.instIds[instId := sf2Id])
  }

  /** getSf2SmplId: the ids recorded for a sample file, or none. */
  function GetSf2SmplId(d: DataThrough, filePath: string): (r: seq<int>)
    ensures filePath !in d.smplIds ==> r == []
    ensures filePath in d.smplIds ==> r == d.smplIds[filePath]
  {
    if filePath in d.smplIds then d.smplIds[filePath] else []
  }

  function SetSf2SmplId(d: DataThrough, filePath: string, ids: seq<int>): (r: DataThrough)
    ensures r == d.(smplIds := r.smplIds)
    ensures GetSf2SmplId(r, filePath) == ids
    ensures forall other :: other != filePath ==> GetSf2SmplId(r, other) == GetSf2SmplId(d, other)
  {
    d.(smplIds := d.smplIds[filePath := ids])
  }

  /** A fresh import knows no instrument and no sample file; the last write wins. */
  lemma IdDefaultsAndOverwrite(d: DataThrough, instId: int, a: int, b: int, path: string, xs: seq<int>, ys: seq<int>)
    ensures GetSf2InstId(Empty, instId) == -1 && GetSf2SmplId(Empty, path) == []
    ensures SetSf2InstId(SetSf2InstId(d, instId, a), instId, b) == SetSf2InstId(d, instId, b)
    ensures SetSf2SmplId(SetSf2SmplId(d, path, xs), path, ys) == SetSf2SmplId(d, path, ys)
  {
  }

  // ---------------------------------------------------------------------
  // Sample names

  /** Lower case, for the ASCII letters. */
  function ToLower(s: string): (r: string)
    ensures |r| == |s|
    ensures forall i :: 0 <= i < |s| ==> (if 'A' <= s[i] <= 'Z' then r[i] as int == s[i] as int + 32 else r[i] == s[i])
  {
    seq(|s|, i requires 0 <= i < |s| => if 'A' <= s[i] <= 'Z' then (s[i] as int + 32) as char else s[i])
  }

  lemma ToLowerIdempotent(s: string)
    ensures ToLower(ToLower(s)) == ToLower(s)
  {
  }

  /** Two names that differ only in the case of their letters. */
  predicate CaseVariants(a: string, b: string) {
    ToLower(a) == ToLower(b)
  }

  function StoreSampleName(d: DataThrough, name: string): (r: DataThrough)
    ensures r == d.(sampleNames := r.sampleNames)
    ensures forall n :: n in d.sampleNames ==> n in r.sampleNames
  {
    d.(sampleNames := d.sampleNames + [ToLower(name)])
  }

  /** sampleNameExists: whether a case variant of the name has been stored. */
  function SampleNameExists(d: DataThrough, name: string): (r: bool)
    ensures r ==> exists n :: n in d.sampleNames && CaseVariants(n, name)
    ensures name in d.sampleNames && ToLower(name) == name ==> r
  {
    ToLowerIdempotent(name);
    ToLower(name) in d.sampleNames
  }

  /**
   * After storing a name, exactly its case variants and the names known
   * before are found.
   */
  lemma StoreThenExists(d: DataThrough, stored: string, query: string)
    ensures SampleNameExists(StoreSampleName(d, stored), query) <==>
              SampleNameExists(d, query) || CaseVariants(stored, query)
  {
  }

  /** Lookup does not see case: case variants are found alike. */
  lemma ExistsIgnoresCase(d: DataThrough, a: string, b: string)
    requires CaseVariants(a, b)
    ensures SampleNameExists(d, a) == SampleNameExists(d, b)
  {
  }
}
