/**
 * The achievement table and its one-shot evaluator (src/data/achievements.ts).
 * Each achievement's condition is a predicate over a snapshot of the game
 * state; `checkAchievements` sets the `unlocked` flag in place on every
 * still-locked achievement whose condition holds and returns those, in order.
 */
module Achievements {
  import opened GameTypes
  import Warrens

  datatype AchievementId =
    | FirstDescent | FragmentCollector | MemoryKeeper | VoidWalker | TimeParadox
    | EchoChamber | PerfectBalance | MadnessIncarnate | WarrenMaster | FragmentHoarder

  datatype Achievement = Achievement(
    id: AchievementId,
    name: string,
    description: string,
    hidden: bool,
    unlocked: bool)

  /** The part of the game state the conditions read. */
  datatype Snapshot = Snapshot(
    currentLayer: int,
    fragments: seq<Fragment>,
    stats: Stats,
    visitedWarrens: seq<WarrenType>)

  const Table: seq<Achievement> := [
    Achievement(FirstDescent, "First Descent", "Begin your journey into the Warrens", false, false),
    Achievement(FragmentCollector, "Fragment Collector", "Collect your first reality fragment", false, false),
    Achievement(MemoryKeeper, "Memory Keeper", "Reach maximum memory stat", false, false),
    Achievement(VoidWalker, "Void Walker", "Survive an encounter with the Void Warren", true, false),
    Achievement(TimeParadox, "Temporal Paradox", "Experience all possible times at once", true, false),
    Achievement(EchoChamber, "Echo Chamber", "Find yourself in the reflections of sound", false, false),
    Achievement(PerfectBalance, "Perfect Balance", "Maintain equal stats across all three attributes", true, false),
    Achievement(MadnessIncarnate, "Madness Incarnate", "Lose yourself completely to the Warrens", true, false),
    Achievement(WarrenMaster, "Warren Master", "Visit all types of Warrens in a single descent", true, false),
    Achievement(FragmentHoarder, "Fragment Hoarder", "Collect 6 or more fragments in a single run", false, false)
  ]

  /** The position of an achievement in the table. */
  function Rank(id: AchievementId): (k: nat)
    ensures k < |Table| && Table[k].id == id
  {
    match id
    case FirstDescent => 0
    case FragmentCollector => 1
    case MemoryKeeper => 2
    case VoidWalker => 3
    case TimeParadox => 4
    case EchoChamber => 5
    case PerfectBalance => 6
    case MadnessIncarnate => 7
    case WarrenMaster => 8
    case FragmentHoarder => 9
  }

  /** The distinct warren types in a visit history (`new Set(visitedWarrens)`). */
  function Distinct(visited: seq<WarrenType>): set<WarrenType>
  {
    set t | t in visited
  }

  /** Each achievement's `condition`. */
  predicate Condition(id: AchievementId, s: Snapshot)
  {
    match id
    case FirstDescent => s.currentLayer > 1
    case FragmentCollector => |s.fragments| > 0
    case MemoryKeeper => s.stats.memory >= 8
    case VoidWalker => Void in s.visitedWarrens
    case TimeParadox => Time in s.visitedWarrens && s.stats.memory >= 6
    case EchoChamber => Echo in s.visitedWarrens
    case PerfectBalance =>
      s.stats.sanity == s.stats.memory && s.stats.memory == s.stats.perception && s.stats.sanity >= 5
    case MadnessIncarnate => s.stats.sanity <= 0
    case WarrenMaster => |Distinct(s.visitedWarrens)| >= |AllWarrenTypes|
    case FragmentHoarder => |s.fragments| >= 6
  }

  /** An achievement the pass unlocks: still locked, and its condition holds. */
  predicate Qualifies(a: Achievement, s: Snapshot)
  {
    !a.unlocked && Condition(a.id, s)
  }

  /** The list after the pass: qualifying entries get `unlocked` set, all else stays. */
  function UnlockPass(a: seq<Achievement>, s: Snapshot): (r: seq<Achievement>)
    ensures |r| == |a|
    ensures forall i :: 0 <= i < |a| ==>
      r[i] == a[i].(unlocked := r[i].unlocked) &&
      (r[i].unlocked <==> a[i].unlocked || Condition(a[i].id, s))
  {
    seq(|a|, i requires 0 <= i < |a| => if Qualifies(a[i], s) then a[i].(unlocked := true) else a[i])
  }

  /** The list `checkAchievements` returns: the qualifying entries, flagged, in list order. */
  function NewlyUnlocked(a: seq<Achievement>, s: Snapshot): (r: seq<Achievement>)
    ensures |r| <= |a|
  {
    if a == [] then []
    else
      var last := a[|a| - 1];
      NewlyUnlocked(a[..|a| - 1], s) + if Qualifies(last, s) then [last.(unlocked := true)] else []
  }

  /** `checkAchievements`, run over the game's achievement array. */
  method CheckAchievements(a: array<Achievement>, s: Snapshot) returns (newly: seq<Achievement>)
    modifies a
    ensures a[..] == UnlockPass(old(a[..]), s)
    ensures newly == NewlyUnlocked(old(a[..]), s)
  {
    newly := [];
    var i := 0;
    while i < a.Length
      invariant 0 <= i <= a.Length
      invariant forall j :: 0 <= j < i ==> a[j] == UnlockPass(old(a[..]), s)[j]
      invariant forall j :: i <= j < a.Length ==> a[j] == old(a[j])
      invariant newly == NewlyUnlocked(old(a[..])[..i], s)
    {
      assert old(a[..])[..i + 1][..i] == old(a[..])[..i];
      if !a[i].unlocked && Condition(a[i].id, s) {
        a[i] := a[i].(unlocked := true);
        newly := newly + [a[i]];
      }
      i := i + 1;
    }
    assert old(a[..])[..a.Length] == old(a[..]);
  }

  /** Membership: the returned entries are exactly the qualifying ones, flagged. */
  lemma {:induction false} NewlyMembers(a: seq<Achievement>, s: Snapshot)
    ensures forall x :: x in NewlyUnlocked(a, s) <==>
      exists i :: 0 <= i < |a| && Qualifies(a[i], s) && x == a[i].(unlocked := true)
  {
    if a != [] {
      var init := a[..|a| - 1];
      NewlyMembers(init, s);
      forall x | x in NewlyUnlocked(a, s)
        ensures exists i :: 0 <= i < |a| && Qualifies(a[i], s) && x == a[i].(unlocked := true)
      {
        if x in NewlyUnlocked(init, s) {
          var i :| 0 <= i < |init| && Qualifies(init[i], s) && x == init[i].(unlocked := true);
          assert a[i] == init[i];
        } else {
          assert x == a[|a| - 1].(unlocked := true);
        }
      }
      forall x | exists i :: 0 <= i < |a| && Qualifies(a[i], s) && x == a[i].(unlocked := true)
        ensures x in NewlyUnlocked(a, s)
      {
        var i :| 0 <= i < |a| && Qualifies(a[i], s) && x == a[i].(unlocked := true);
        if i < |a| - 1 {
          assert init[i] == a[i];
        }
      }
    }
  }

  /** Every returned entry is flagged unlocked and its condition holds. */
  lemma NewlyAreUnlocked(a: seq<Achievement>, s: Snapshot)
    ensures forall x :: x in NewlyUnlocked(a, s) ==> x.unlocked && Condition(x.id, s)
  {
    NewlyMembers(a, s);
  }

  /** Ids strictly increase in table order along the list. */
  predicate InTableOrder(a: seq<Achievement>)
  {
    forall i, j :: 0 <= i < j < |a| ==> Rank(a[i].id) < Rank(a[j].id)
  }

  /** The returned entries keep the order of the list they come from. */
  lemma {:induction false} NewlyInTableOrder(a: seq<Achievement>, s: Snapshot)
    requires InTableOrder(a)
    ensures InTableOrder(NewlyUnlocked(a, s))
  {
    if a != [] {
      var init, last := a[..|a| - 1], a[|a| - 1];
      NewlyInTableOrder(init, s);
      NewlyMembers(init, s);
      var rest := NewlyUnlocked(init, s);
      forall x | x in rest
        ensures Rank(x.id) < Rank(last.id)
      {
        var i :| 0 <= i < |init| && Qualifies(init[i], s) && x == init[i].(unlocked := true);
        assert init[i] == a[i];
      }
    }
  }

  /** When nothing in the list qualifies, the pass returns nothing. */
  lemma {:induction false} NoneQualify(a: seq<Achievement>, s: Snapshot)
    requires forall i :: 0 <= i < |a| ==> !Qualifies(a[i], s)
    ensures NewlyUnlocked(a, s) == []
  {
    if a != [] {
      NoneQualify(a[..|a| - 1], s);
    }
  }

  /** A second pass over the result unlocks and returns nothing more. */
  lemma SecondPassIsEmpty(a: seq<Achievement>, s: Snapshot)
    ensures NewlyUnlocked(UnlockPass(a, s), s) == []
    ensures UnlockPass(UnlockPass(a, s), s) == UnlockPass(a, s)
  {
    NoneQualify(UnlockPass(a, s), s);
  }

  /** An entry already unlocked is left as it is and is not returned. */
  lemma UnlockedIsSkipped(a: seq<Achievement>, s: Snapshot, i: int)
    requires InTableOrder(a)
    requires 0 <= i < |a| && a[i].unlocked
    ensures UnlockPass(a, s)[i] == a[i]
    ensures forall x :: x in NewlyUnlocked(a, s) ==> x.id != a[i].id
  {
    NewlyMembers(a, s);
    forall x | x in NewlyUnlocked(a, s)
      ensures x.id != a[i].id
    {
      var j :| 0 <= j < |a| && Qualifies(a[j], s) && x == a[j].(unlocked := true);
      assert j != i;
      assert Rank(a[j].id) != Rank(a[i].id);
    }
  }

  /** The achievement list of a fresh run: the table, all locked. */
  lemma TableIsLockedAndOrdered()
    ensures |Table| == 10
    ensures forall i :: 0 <= i < |Table| ==> !Table[i].unlocked && Rank(Table[i].id) == i
    ensures InTableOrder(Table)
  {
  }

  /** With only the five table warren types visited, four achievements can never unlock. */
  lemma UnreachableWithTableWarrens(s: Snapshot)
    requires forall t :: t in s.visitedWarrens ==> Warrens.IsTableType(t)
    ensures !Condition(VoidWalker, s) && !Condition(TimeParadox, s) && !Condition(EchoChamber, s)
    ensures !Condition(WarrenMaster, s)
  {
    var five := {Memory, Shadow, Pain, Dream, Entropy};
    assert Distinct(s.visitedWarrens) <= five;
    SubsetCard(Distinct(s.visitedWarrens), five);
    assert |five| == 5;
  }

  lemma {:induction false} SubsetCard(small: set<WarrenType>, big: set<WarrenType>)
    requires small <= big
    ensures |small| <= |big|
    decreases big
  {
    if small != {} {
      var x :| x in small;
      SubsetCard(small - {x}, big - {x});
    }
  }
}
