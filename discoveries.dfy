/**
 * The discovery table and its evaluator (src/data/discoveries.ts): a pure
 * filter of the table by warren type and stat thresholds.
 */
module Discoveries {
  import opened GameTypes

  const Table: seq<Discovery> := [
    Discovery("temporal_loop", "Temporal Loop",
      "You notice the same moment repeating. A glitch in the Time Warren's fabric.",
      Time, map[MemoryStat := 6]),
    Discovery("echo_origin", "The First Voice",
      "Among all the echoes, you find the original sound that started it all.",
      Echo, map[Perception := 7]),
    Discovery("void_entity", "The Watcher in Nothing",
      "Something that shouldn't exist notices you in the Void. It nods approvingly.",
      Void, map[Sanity := 8]),
    Discovery("memory_core", "Core Memory",
      "A memory that isn't yours but feels familiar. It belongs to someone else who walked these paths.",
      Memory, map[MemoryStat := 5, Perception := 5]),
    Discovery("shadow_truth", "Shadow's Secret",
      "In the deepest darkness, you glimpse the true nature of light.",
      Shadow, map[Perception := 6, Sanity := 4]),
    Discovery("pain_transcendence", "Beyond Suffering",
      "You discover that pain can be a doorway to understanding.",
      Pain, map[Sanity := 7]),
    Discovery("dream_lucidity", "Lucid Dreaming",
      "You realize you can control the impossible logic of this place.",
      Dream, map[Perception := 5, MemoryStat := 4]),
    Discovery("entropy_pattern", "Order in Chaos",
      "Within the corruption, you detect a hidden pattern. Someone designed this decay.",
      Entropy, map[Perception := 8, MemoryStat := 6])
  ]

  /** Every threshold the discovery lists is met by the stats. */
  predicate MeetsThresholds(d: Discovery, stats: Stats)
  {
    forall n :: n in d.requiresStats ==> StatValue(stats, n) >= d.requiresStats[n]
  }

  /** The filter's predicate: the warren type matches and every listed threshold is met. */
  predicate Matches(d: Discovery, t: WarrenType, stats: Stats)
  {
    d.warrenType == t && MeetsThresholds(d, stats)
  }

  /** The entries of `ds` that match, in their order. */
  function Filter(ds: seq<Discovery>, t: WarrenType, stats: Stats): (r: seq<Discovery>)
    ensures |r| <= |ds|
  {
    if ds == [] then []
    else (if Matches(ds[0], t, stats) then [ds[0]] else []) + Filter(ds[1..], t, stats)
  }

  /** Soundness and completeness: exactly the matching entries of `ds` are returned. */
  lemma {:induction false} FilterMembers(ds: seq<Discovery>, t: WarrenType, stats: Stats)
    ensures forall d :: d in Filter(ds, t, stats) <==> d in ds && Matches(d, t, stats)
  {
    if ds != [] {
      FilterMembers(ds[1..], t, stats);
      assert ds == [ds[0]] + ds[1..];
    }
  }

  /**
   * `checkDiscoveries`: the table entries of the given warren type whose
   * thresholds are met. The table lists each warren type once, so at most
   * one discovery is returned.
   */
  function CheckDiscoveries(t: WarrenType, stats: Stats): (r: seq<Discovery>)
    ensures |r| <= 1
  {
    TableTypesDistinct();
    OneOfEachType(Table, t, stats);
    Filter(Table, t, stats)
  }

  /** Every returned discovery belongs to the given warren type and meets its thresholds. */
  lemma CheckDiscoveriesSound(t: WarrenType, stats: Stats)
    ensures forall d :: d in CheckDiscoveries(t, stats) ==>
      d.warrenType == t && d in Table &&
      forall n :: n in d.requiresStats ==> d.requiresStats[n] <= StatValue(stats, n)
  {
    FilterMembers(Table, t, stats);
  }

  /** Every table entry of the given type whose thresholds are met is returned. */
  lemma CheckDiscoveriesComplete(t: WarrenType, stats: Stats)
    ensures forall d :: d in Table && d.warrenType == t && MeetsThresholds(d, stats) ==>
      d in CheckDiscoveries(t, stats)
  {
    FilterMembers(Table, t, stats);
  }

  /** `lo` is at most `hi` in every stat. */
  predicate StatsLe(lo: Stats, hi: Stats)
  {
    lo.sanity <= hi.sanity && lo.memory <= hi.memory && lo.perception <= hi.perception
  }

  /** `xs` is obtained from `ys` by deleting entries, keeping the order of the rest. */
  predicate IsSubsequence(xs: seq<Discovery>, ys: seq<Discovery>)
    decreases |ys|
  {
    if xs == [] then true
    else if ys == [] then false
    else if xs[0] == ys[0] then IsSubsequence(xs[1..], ys[1..])
    else IsSubsequence(xs, ys[1..])
  }

  lemma {:induction false} SubsequenceOfPrepend(x: Discovery, xs: seq<Discovery>, ys: seq<Discovery>)
    requires IsSubsequence(xs, ys)
    ensures IsSubsequence(xs, [x] + ys)
    decreases |ys|, 1
  {
    if xs != [] {
      assert ([x] + ys)[1..] == ys;
      if xs[0] == x {
        SubsequenceDropHead(xs, ys);
      }
    }
  }

  lemma {:induction false} SubsequenceDropHead(xs: seq<Discovery>, ys: seq<Discovery>)
    requires xs != [] && IsSubsequence(xs, ys)
    ensures IsSubsequence(xs[1..], ys)
    decreases |ys|, 0
  {
    assert ys != [];
    assert [ys[0]] + ys[1..] == ys;
    if xs[0] == ys[0] {
      SubsequenceOfPrepend(ys[0], xs[1..], ys[1..]);
    } else {
      SubsequenceDropHead(xs, ys[1..]);
      SubsequenceOfPrepend(ys[0], xs[1..], ys[1..]);
    }
  }

  /** Every entry of a subsequence is an entry of the whole. */
  lemma {:induction false} SubsequenceMembers(xs: seq<Discovery>, ys: seq<Discovery>)
    requires IsSubsequence(xs, ys)
    ensures forall d :: d in xs ==> d in ys
    decreases |ys|
  {
    if xs != [] {
      assert ys != [];
      if xs[0] == ys[0] {
        SubsequenceMembers(xs[1..], ys[1..]);
        assert xs == [xs[0]] + xs[1..];
      } else {
        SubsequenceMembers(xs, ys[1..]);
      }
      assert ys == [ys[0]] + ys[1..];
    }
  }

  /**
   * Monotonicity: raising stats never removes an entry, and what was found
   * before is still found in the same relative order.
   */
  lemma {:induction false} FilterMonotone(ds: seq<Discovery>, t: WarrenType, lo: Stats, hi: Stats)
    requires StatsLe(lo, hi)
    ensures IsSubsequence(Filter(ds, t, lo), Filter(ds, t, hi))
  {
    if ds != [] {
      FilterMonotone(ds[1..], t, lo, hi);
      var restLo, restHi := Filter(ds[1..], t, lo), Filter(ds[1..], t, hi);
      if Matches(ds[0], t, lo) {
        assert Matches(ds[0], t, hi);
        assert Filter(ds, t, lo) == [ds[0]] + restLo;
        assert Filter(ds, t, hi) == [ds[0]] + restHi;
        assert ([ds[0]] + restLo)[1..] == restLo;
        assert ([ds[0]] + restHi)[1..] == restHi;
      } else if Matches(ds[0], t, hi) {
        assert Filter(ds, t, lo) == restLo;
        assert Filter(ds, t, hi) == [ds[0]] + restHi;
        SubsequenceOfPrepend(ds[0], restLo, restHi);
      } else {
        assert Filter(ds, t, lo) == restLo;
        assert Filter(ds, t, hi) == restHi;
      }
    }
  }

  lemma CheckDiscoveriesMonotone(t: WarrenType, lo: Stats, hi: Stats)
    requires StatsLe(lo, hi)
    ensures IsSubsequence(CheckDiscoveries(t, lo), CheckDiscoveries(t, hi))
    ensures forall d :: d in CheckDiscoveries(t, lo) ==> d in CheckDiscoveries(t, hi)
  {
    FilterMonotone(Table, t, lo, hi);
    SubsequenceMembers(CheckDiscoveries(t, lo), CheckDiscoveries(t, hi));
  }

  lemma {:induction false} OneOfEachType(ds: seq<Discovery>, t: WarrenType, stats: Stats)
    requires forall i, j :: 0 <= i < j < |ds| ==> ds[i].warrenType != ds[j].warrenType
    ensures |Filter(ds, t, stats)| <= 1
    ensures ds != [] && ds[0].warrenType == t ==> Filter(ds[1..], t, stats) == []
  {
    if ds != [] {
      NoneOfType(ds[1..], ds[0].warrenType, stats);
      OneOfEachType(ds[1..], t, stats);
    }
  }

  lemma {:induction false} NoneOfType(ds: seq<Discovery>, t: WarrenType, stats: Stats)
    requires forall d :: d in ds ==> d.warrenType != t
    ensures Filter(ds, t, stats) == []
  {
    if ds != [] {
      NoneOfType(ds[1..], t, stats);
    }
  }

  /** The table entries have pairwise distinct warren types. */
  lemma TableTypesDistinct()
    ensures forall i, j :: 0 <= i < j < |Table| ==> Table[i].warrenType != Table[j].warrenType
  {
  }

  /** In a list with distinct types, the filter for the type of entry `k` is that entry when its thresholds are met, else nothing. */
  lemma {:induction false} OnlyEntryOfTypeIn(ds: seq<Discovery>, k: nat, t: WarrenType, stats: Stats)
    requires forall i, j :: 0 <= i < j < |ds| ==> ds[i].warrenType != ds[j].warrenType
    requires k < |ds| && ds[k].warrenType == t
    ensures Filter(ds, t, stats) == if MeetsThresholds(ds[k], stats) then [ds[k]] else []
  {
    OneOfEachType(ds, t, stats);
    if k > 0 {
      assert ds[0].warrenType != t;
      OnlyEntryOfTypeIn(ds[1..], k - 1, t, stats);
    }
  }

  /** For the table entry of type `t`, the result is that entry when its thresholds are met, else nothing. */
  lemma OnlyEntryOfType(k: nat, t: WarrenType, stats: Stats)
    requires k < |Table| && Table[k].warrenType == t
    ensures CheckDiscoveries(t, stats) == if MeetsThresholds(Table[k], stats) then [Table[k]] else []
  {
    TableTypesDistinct();
    OnlyEntryOfTypeIn(Table, k, t, stats);
  }

  /** At 5/5/5 the Memory Warren yields Core Memory and nothing else. */
  lemma CoreMemoryAtStart()
    ensures CheckDiscoveries(Memory, Stats(5, 5, 5)) == [Table[3]]
  {
    var d := Table[3];
    assert d.warrenType == Memory;
    assert d.requiresStats == map[MemoryStat := 5, Perception := 5];
    assert MeetsThresholds(d, Stats(5, 5, 5));
    OnlyEntryOfType(3, Memory, Stats(5, 5, 5));
  }

  lemma {:induction false} FilterAppend(xs: seq<Discovery>, ys: seq<Discovery>, t: WarrenType, stats: Stats)
    ensures Filter(xs + ys, t, stats) == Filter(xs, t, stats) + Filter(ys, t, stats)
  {
    if xs != [] {
      var head := if Matches(xs[0], t, stats) then [xs[0]] else [];
      assert (xs + ys)[0] == xs[0] && (xs + ys)[1..] == xs[1..] + ys;
      assert Filter(xs + ys, t, stats) == head + Filter(xs[1..] + ys, t, stats);
      FilterAppend(xs[1..], ys, t, stats);
      assert Filter(xs, t, stats) == head + Filter(xs[1..], t, stats);
    } else {
      assert xs + ys == ys;
    }
  }
}
