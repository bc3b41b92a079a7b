/**
 * The run state machine of src/App.tsx without its rendering: the stat and
 * difficulty resolver, the fragment roll, the layer advance, the ending
 * chain, and the `Game` class whose methods are the component's callbacks,
 * each run as one atomic step. The random draw and the warren the selector
 * hands over are parameters.
 */
module Game {
  import opened GameTypes
  import Warrens
  import Discoveries
  import Achievements

  const MaxLayers := 6
  const InitialStats := Stats(5, 5, 5)
  const DefaultSettings := Settings(50.0, Normal, false, true, false)

  // ---------------------------------------------------------------------------
  // Stat and difficulty resolver
  // ---------------------------------------------------------------------------

  /** `Math.max(0, Math.min(10, x))`. */
  function Clamp(x: int): (r: int)
    ensures MinStat <= r <= MaxStat
    ensures MinStat <= x <= MaxStat ==> r == x
    ensures x < MinStat ==> r == MinStat
    ensures x > MaxStat ==> r == MaxStat
  {
    var capped := if x < MaxStat then x else MaxStat;
    if capped > MinStat then capped else MinStat
  }

  /** JavaScript truthiness of an optional delta: present and non-zero. */
  predicate IsSet(d: Option<int>)
  {
    d.Some? && d.value != 0
  }

  /** The delta a choice's effect applies to one stat (0 when absent). */
  function EffectDelta(e: Option<StatEffect>, n: StatName): int
  {
    if e.None? then 0
    else
      var d := match n
        case Sanity => e.value.sanity
        case MemoryStat => e.value.memory
        case Perception => e.value.perception;
      if d.Some? then d.value else 0
  }

  /** The difficulty correction: only a negative delta is softened (easy) or sharpened (hard). */
  function Modifier(delta: int, difficulty: Difficulty): int
  {
    if delta < 0 then
      match difficulty
      case Easy => 1
      case Normal => 0
      case Hard => -1
    else 0
  }

  /** One stat after a choice: delta, difficulty correction, then clamp. */
  function ResolveStat(v: int, delta: int, difficulty: Difficulty): int
  {
    Clamp(v + delta + Modifier(delta, difficulty))
  }

  /** The stats after a choice with effect `e` on the given difficulty. */
  function ApplyStatEffect(s: Stats, e: Option<StatEffect>, difficulty: Difficulty): (r: Stats)
    ensures StatsInRange(r)
  {
    Stats(
      ResolveStat(s.sanity, EffectDelta(e, Sanity), difficulty),
      ResolveStat(s.memory, EffectDelta(e, MemoryStat), difficulty),
      ResolveStat(s.perception, EffectDelta(e, Perception), difficulty))
  }

  /** The updater's stat step, mutating the three stats one after another. */
  method ResolveStats(prior: Stats, effect: Option<StatEffect>, difficulty: Difficulty) returns (r: Stats)
    ensures r == ApplyStatEffect(prior, effect, difficulty)
    ensures StatsInRange(r)
  {
    var sanity, memory, perception := prior.sanity, prior.memory, prior.perception;
    if effect.Some? {
      var e := effect.value;
      if IsSet(e.sanity) { sanity := sanity + e.sanity.value; }
      if IsSet(e.memory) { memory := memory + e.memory.value; }
      if IsSet(e.perception) { perception := perception + e.perception.value; }
      if difficulty == Easy {
        if IsSet(e.sanity) && e.sanity.value < 0 { sanity := sanity + 1; }
        if IsSet(e.memory) && e.memory.value < 0 { memory := memory + 1; }
        if IsSet(e.perception) && e.perception.value < 0 { perception := perception + 1; }
      } else if difficulty == Hard {
        if IsSet(e.sanity) && e.sanity.value < 0 { sanity := sanity - 1; }
        if IsSet(e.memory) && e.memory.value < 0 { memory := memory - 1; }
        if IsSet(e.perception) && e.perception.value < 0 { perception := perception - 1; }
      }
    }
    sanity := Clamp(sanity);
    memory := Clamp(memory);
    perception := Clamp(perception);
    r := Stats(sanity, memory, perception);
  }

  /** For equal inputs each stat ends at least as high on easy as on normal, and on normal as on hard. */
  lemma DifficultyOrder(s: Stats, e: Option<StatEffect>, n: StatName)
    ensures StatValue(ApplyStatEffect(s, e, Easy), n) >= StatValue(ApplyStatEffect(s, e, Normal), n)
    ensures StatValue(ApplyStatEffect(s, e, Normal), n) >= StatValue(ApplyStatEffect(s, e, Hard), n)
  {
  }

  /**
   * Difficulty changes a stat only through a negative delta, by exactly one
   * point before clamping; an absent, zero or positive delta is unaffected.
   */
  lemma OnlyNegativeDeltasAdjusted(s: Stats, e: Option<StatEffect>, n: StatName, d: Difficulty)
    ensures EffectDelta(e, n) >= 0 ==>
      StatValue(ApplyStatEffect(s, e, d), n) == Clamp(StatValue(s, n) + EffectDelta(e, n))
    ensures EffectDelta(e, n) < 0 ==>
      StatValue(ApplyStatEffect(s, e, d), n) ==
        Clamp(StatValue(s, n) + EffectDelta(e, n) + (if d == Easy then 1 else if d == Hard then -1 else 0))
  {
  }

  // ---------------------------------------------------------------------------
  // Fragment award
  // ---------------------------------------------------------------------------

  /**
   * The choice's fragment chance (0 when absent) scaled by difficulty: it is
   * positive exactly when the base chance is, normal leaves it as it is, and
   * a non-negative chance lands between 0.7 and 1.3 times itself.
   */
  function ScaledChance(base: Option<real>, difficulty: Difficulty): (r: real)
    ensures r > 0.0 <==> base.Some? && base.value > 0.0
    ensures difficulty == Normal ==> r == if base.Some? then base.value else 0.0
    ensures base.Some? && base.value >= 0.0 ==> base.value * 0.7 <= r <= base.value * 1.3
  {
    var p := if base.Some? then base.value else 0.0;
    match difficulty
    case Easy => p * 1.3
    case Normal => p
    case Hard => p * 0.7
  }

  /**
   * A fragment is awarded when the scaled chance is positive and the draw
   * falls below it; a choice without a positive chance never awards one.
   */
  predicate AwardsFragment(base: Option<real>, difficulty: Difficulty, draw: real)
    ensures AwardsFragment(base, difficulty, draw) ==>
      base.Some? && base.value > 0.0 && draw < base.value * 1.3
  {
    var chance := ScaledChance(base, difficulty);
    chance > 0.0 && draw < chance
  }

  /** A base chance of 1.0 always awards on easy and normal; on hard only for draws below 0.7. */
  lemma CertainChance(difficulty: Difficulty, draw: real)
    requires 0.0 <= draw < 1.0
    ensures AwardsFragment(Some(1.0), difficulty, draw) <==> difficulty != Hard || draw < 0.7
  {
  }

  /** A draw that wins on hard wins on normal, and one that wins on normal wins on easy. */
  lemma AwardMonotoneInDifficulty(base: Option<real>, draw: real)
    ensures AwardsFragment(base, Hard, draw) ==> AwardsFragment(base, Normal, draw)
    ensures AwardsFragment(base, Normal, draw) ==> AwardsFragment(base, Easy, draw)
  {
  }

  /**
   * The fragment torn from warren `w` at `layer`: its source is the warren's
   * name, its layer the given one, and its name is "Shard of " and the source.
   */
  function ShardOf(w: Warren, layer: int): (f: Fragment)
    ensures f.source == w.name && f.layer == layer
    ensures |f.name| == 9 + |f.source| && f.name[..9] == "Shard of " && f.name[9..] == f.source
  {
    Fragment("Shard of " + w.name, w.name, layer, "A fragment torn from the " + TypeName(w.wtype) + " warren")
  }

  // ---------------------------------------------------------------------------
  // Layer advance and ending
  // ---------------------------------------------------------------------------

  /** The layer updater: the next layer, or the same layer and game over past the last one. */
  function AdvanceLayer(layer: int, maxLayers: int): (r: (int, bool))
    ensures r.1 <==> layer + 1 > maxLayers
    ensures 1 <= layer <= maxLayers ==> 1 <= r.0 <= maxLayers
  {
    var next := layer + 1;
    if next > maxLayers then (layer, true) else (next, false)
  }

  /** The layer after `n` advances that did not end the game. */
  function Descend(layer: int, maxLayers: int, n: nat): int
  {
    if n == 0 then layer else AdvanceLayer(Descend(layer, maxLayers, n - 1), maxLayers).0
  }

  /**
   * From layer 1 a run advances through every layer without ending the game
   * and ends at the advance out of the last layer.
   */
  lemma {:induction false} DescentReachesLastLayer(maxLayers: int, n: nat)
    requires 1 <= maxLayers && n < maxLayers
    ensures Descend(1, maxLayers, n) == 1 + n
    ensures n < maxLayers - 1 ==> !AdvanceLayer(Descend(1, maxLayers, n), maxLayers).1
    ensures n == maxLayers - 1 ==> AdvanceLayer(Descend(1, maxLayers, n), maxLayers).1
  {
    if n > 0 {
      DescentReachesLastLayer(maxLayers, n - 1);
    }
  }

  datatype Ending = Transcendence | Madness | Escape | PartialEscape | Claimed

  /** The rank of an ending in the priority chain. */
  function Priority(e: Ending): nat
  {
    match e
    case Transcendence => 0
    case Madness => 1
    case Escape => 2
    case PartialEscape => 3
    case Claimed => 4
  }

  /** The condition under which an ending applies, each on its own. */
  predicate EndingApplies(e: Ending, fragments: nat, discoveries: nat, sanity: int)
  {
    match e
    case Transcendence => fragments >= 6 && discoveries >= 3
    case Madness => sanity <= 1
    case Escape => fragments >= 4
    case PartialEscape => fragments >= 2
    case Claimed => true
  }

  /** The ending chain: the applicable ending of highest priority. */
  function ResolveEnding(fragments: nat, discoveries: nat, sanity: int): (e: Ending)
    ensures EndingApplies(e, fragments, discoveries, sanity)
    ensures forall other: Ending :: Priority(other) < Priority(e) ==> !EndingApplies(other, fragments, discoveries, sanity)
  {
    if fragments >= 6 && discoveries >= 3 then Transcendence
    else if sanity <= 1 then Madness
    else if fragments >= 4 then Escape
    else if fragments >= 2 then PartialEscape
    else Claimed
  }

  /** Worked cases of the chain. */
  lemma EndingExamples()
    ensures ResolveEnding(6, 3, 0) == Transcendence
    ensures ResolveEnding(4, 0, 5) == Escape
    ensures ResolveEnding(3, 0, 5) == PartialEscape
    ensures ResolveEnding(6, 2, 1) == Madness
  {
  }

  // ---------------------------------------------------------------------------
  // The run
  // ---------------------------------------------------------------------------

  datatype Phase = IntroPhase | WarrenPhase | ChoicePhase | ResultPhase | EndingPhase

  /** What the text display is showing. */
  datatype Text =
    | Blank
    | IntroText
    | WarrenText(warrenName: string, description: string)
    | ResultText(result: string, discovery: Option<Discovery>)
    | ContinueText
    | EndingText(ending: Ending)

  /**
   * The discovery whose text follows a choice's result: the first one found,
   * and none exactly when nothing was found.
   */
  function FirstDiscovery(found: seq<Discovery>): (r: Option<Discovery>)
    ensures r.None? <==> found == []
    ensures r.Some? ==> r.value in found && r.value == found[0]
  {
    if |found| > 0 then Some(found[0]) else None
  }

  /** Entry `i` of a fresh copy of the achievement table, locked. */
  function LockedTable(i: int): (a: Achievements.Achievement)
    requires 0 <= i < |Achievements.Table|
    ensures Achievements.Rank(a.id) == i && !a.unlocked
  {
    Achievements.Table[i].(unlocked := false)
  }

  /** A fresh achievement array holding the locked table. */
  method NewAchievements() returns (a: array<Achievements.Achievement>)
    ensures fresh(a) && a.Length == 10
    ensures forall i :: 0 <= i < a.Length ==> a[i] == LockedTable(i)
  {
    a := new Achievements.Achievement[|Achievements.Table|](LockedTable);
  }

  /** The `gameState` object; every update replaces it with a modified copy. */
  datatype RunState = RunState(
    currentLayer: int,
    maxLayers: int,
    fragments: seq<Fragment>,
    stats: Stats,
    isGameOver: bool,
    discoveries: seq<Discovery>,
    settings: Settings,
    visitedWarrens: seq<WarrenType>,
    currentWarren: Option<Warren>)

  /** What every update keeps: six layers, the current one among them, stats clamped. */
  predicate RunValid(r: RunState)
  {
    r.maxLayers == MaxLayers && 1 <= r.currentLayer <= r.maxLayers && StatsInRange(r.stats)
  }

  /** The state object of a new run with the given settings, with no warren entered yet. */
  function NewRun(settings: Settings): (r: RunState)
    ensures RunValid(r) && r.settings == settings
    ensures r.fragments == [] && r.discoveries == [] && r.visitedWarrens == [] && r.currentWarren.None?
  {
    RunState(1, MaxLayers, [], InitialStats, false, [], settings, [], None)
  }

  /** The part of the state object the achievement conditions read. */
  function SnapshotOf(r: RunState): Achievements.Snapshot
  {
    Achievements.Snapshot(r.currentLayer, r.fragments, r.stats, r.visitedWarrens)
  }

  class Game {
    var run: RunState
    var achievements: array<Achievements.Achievement>
    var phase: Phase
    var currentText: Text
    var showChoices: bool
    var isTextComplete: bool
    var pendingAchievement: Option<Achievements.Achievement>
    var currentDiscoveries: seq<Discovery>

    /** The state object is valid and holds one achievement per table entry, in table order. */
    ghost predicate Valid()
      reads this, achievements
    {
      && RunValid(run)
      && achievements.Length == 10
      && forall i :: 0 <= i < achievements.Length ==> Achievements.Rank(achievements[i].id) == i
    }

    /** The state the component starts with. */
    constructor ()
      ensures Valid()
      ensures run == NewRun(DefaultSettings)
      ensures forall i :: 0 <= i < achievements.Length ==> achievements[i] == LockedTable(i)
      ensures phase == IntroPhase && currentText == Blank
      ensures !showChoices && !isTextComplete && pendingAchievement == None && currentDiscoveries == []
    {
      run := NewRun(DefaultSettings);
      achievements := new Achievements.Achievement[|Achievements.Table|](LockedTable);
      phase := IntroPhase;
      currentText := Blank;
      showChoices := false;
      isTextComplete := false;
      pendingAchievement := None;
      currentDiscoveries := [];
    }

    /** `startNewGame`: a new run that keeps the settings; a pending notification stays. */
    method StartNewGame()
      modifies this`run, this`achievements, this`phase, this`currentText, this`showChoices,
               this`isTextComplete, this`currentDiscoveries
      ensures Valid() && fresh(achievements)
      ensures run == NewRun(old(run.settings))
      ensures forall i :: 0 <= i < achievements.Length ==> achievements[i] == LockedTable(i)
      ensures phase == IntroPhase && currentText == IntroText
      ensures !showChoices && !isTextComplete && currentDiscoveries == []
      ensures pendingAchievement == old(pendingAchievement)
    {
      run := NewRun(run.settings);
      achievements := NewAchievements();
      phase := IntroPhase;
      currentText := IntroText;
      showChoices := false;
      isTextComplete := false;
      currentDiscoveries := [];
    }

    /** `enterWarren`, with the selected warren `w` given. */
    method EnterWarren(w: Warren)
      requires Valid()
      modifies this`run, this`phase, this`currentText, this`showChoices, this`isTextComplete,
               this`currentDiscoveries
      ensures Valid()
      ensures run == old(run).(currentWarren := Some(w), visitedWarrens := old(run.visitedWarrens) + [w.wtype])
      ensures phase == WarrenPhase && currentText == WarrenText(w.name, w.description)
      ensures !showChoices && !isTextComplete
      ensures currentDiscoveries == Discoveries.CheckDiscoveries(w.wtype, run.stats)
    {
      run := run.(currentWarren := Some(w), visitedWarrens := run.visitedWarrens + [w.wtype]);
      phase := WarrenPhase;
      currentText := WarrenText(w.name, w.description);
      showChoices := false;
      isTextComplete := false;
      currentDiscoveries := Discoveries.CheckDiscoveries(w.wtype, run.stats);
    }

    /** `makeChoice`, with the fragment roll's draw given; without a current warren it does nothing. */
    method MakeChoice(choiceIndex: int, draw: real)
      requires Valid()
      requires run.currentWarren.Some? ==> 0 <= choiceIndex < |run.currentWarren.value.choices|
      requires 0.0 <= draw < 1.0
      modifies this`run, this`phase, this`currentText, this`showChoices, this`isTextComplete,
               this`pendingAchievement, achievements
      ensures Valid()
      ensures old(run).currentWarren.None? ==>
        && run == old(run) && phase == old(phase) && currentText == old(currentText)
        && showChoices == old(showChoices) && isTextComplete == old(isTextComplete)
        && pendingAchievement == old(pendingAchievement) && achievements[..] == old(achievements[..])
      ensures old(run).currentWarren.Some? ==>
        var w := old(run).currentWarren.value;
        var c := w.choices[choiceIndex];
        var difficulty := old(run).settings.difficulty;
        var newly := Achievements.NewlyUnlocked(old(achievements[..]), SnapshotOf(run));
        && run == old(run).(
             stats := ApplyStatEffect(old(run).stats, c.statEffect, difficulty),
             fragments := old(run).fragments +
               (if AwardsFragment(c.fragmentChance, difficulty, draw) then [ShardOf(w, old(run).currentLayer)] else []),
             discoveries := old(run).discoveries + currentDiscoveries)
        && phase == ResultPhase && !showChoices && !isTextComplete
        && currentText == ResultText(c.result, FirstDiscovery(currentDiscoveries))
        && achievements[..] == Achievements.UnlockPass(old(achievements[..]), SnapshotOf(run))
        && pendingAchievement == (if |newly| > 0 then Some(newly[0]) else old(pendingAchievement))
    {
      if run.currentWarren.None? {
        return;
      }
      var w := run.currentWarren.value;
      var choice := w.choices[choiceIndex];
      ApplyChoice(w, choice, draw);
      UnlockAchievements();
      phase := ResultPhase;
      currentText := ResultText(choice.result, FirstDiscovery(currentDiscoveries));
      showChoices := false;
      isTextComplete := false;
    }

    /** The state-object updater of `makeChoice`: stats, a possible fragment, and the discoveries found. */
    method ApplyChoice(w: Warren, c: Choice, draw: real)
      requires Valid()
      modifies this`run
      ensures Valid()
      ensures run == old(run).(
        stats := ApplyStatEffect(old(run).stats, c.statEffect, old(run).settings.difficulty),
        fragments := old(run).fragments +
          (if AwardsFragment(c.fragmentChance, old(run).settings.difficulty, draw)
           then [ShardOf(w, old(run).currentLayer)] else []),
        discoveries := old(run).discoveries + currentDiscoveries)
    {
      var stats := ResolveStats(run.stats, c.statEffect, run.settings.difficulty);
      var fragments := run.fragments;
      if AwardsFragment(c.fragmentChance, run.settings.difficulty, draw) {
        fragments := fragments + [ShardOf(w, run.currentLayer)];
      }
      run := run.(stats := stats, fragments := fragments, discoveries := run.discoveries + currentDiscoveries);
    }

    /** `checkAchievements` on the updated state; the first newly unlocked becomes the pending notification. */
    method UnlockAchievements()
      requires Valid()
      modifies achievements, this`pendingAchievement
      ensures Valid()
      ensures achievements[..] == Achievements.UnlockPass(old(achievements[..]), SnapshotOf(run))
      ensures var newly := Achievements.NewlyUnlocked(old(achievements[..]), SnapshotOf(run));
        pendingAchievement == (if |newly| > 0 then Some(newly[0]) else old(pendingAchievement))
    {
      var newly := Achievements.CheckAchievements(achievements, SnapshotOf(run));
      if |newly| > 0 {
        pendingAchievement := Some(newly[0]);
      }
    }

    /** `proceedToNextLayer`, with the warren the next layer enters given. */
    method ProceedToNextLayer(w: Warren)
      requires Valid()
      modifies this`run, this`phase, this`currentText, this`showChoices, this`isTextComplete,
               this`currentDiscoveries
      ensures Valid()
      ensures old(run).currentLayer + 1 > old(run).maxLayers ==>
        && run == old(run).(isGameOver := true)
        && phase == EndingPhase && !isTextComplete
        && currentText == EndingText(ResolveEnding(|run.fragments|, |run.discoveries|, run.stats.sanity))
        && showChoices == old(showChoices) && currentDiscoveries == old(currentDiscoveries)
      ensures old(run).currentLayer + 1 <= old(run).maxLayers ==>
        && run == old(run).(currentLayer := old(run).currentLayer + 1, currentWarren := Some(w),
                            visitedWarrens := old(run).visitedWarrens + [w.wtype])
        && phase == WarrenPhase && currentText == WarrenText(w.name, w.description)
        && !showChoices && !isTextComplete
        && currentDiscoveries == Discoveries.CheckDiscoveries(w.wtype, run.stats)
    {
      var (next, over) := AdvanceLayer(run.currentLayer, run.maxLayers);
      if over {
        run := run.(isGameOver := true);
        phase := EndingPhase;
        currentText := EndingText(ResolveEnding(|run.fragments|, |run.discoveries|, run.stats.sanity));
        isTextComplete := false;
      } else {
        run := run.(currentLayer := next);
        EnterWarren(w);
      }
    }

    /** `handleTextComplete`: the transition taken when the text display finishes, in the phase it finished in. */
    method HandleTextComplete(w: Warren)
      requires Valid()
      modifies this`run, this`phase, this`currentText, this`showChoices, this`isTextComplete,
               this`currentDiscoveries
      ensures Valid()
      ensures old(phase) == IntroPhase ==>
        && run == old(run).(currentWarren := Some(w), visitedWarrens := old(run).visitedWarrens + [w.wtype])
        && phase == WarrenPhase && currentText == WarrenText(w.name, w.description)
        && !showChoices && !isTextComplete
        && currentDiscoveries == Discoveries.CheckDiscoveries(w.wtype, run.stats)
      ensures old(phase) == WarrenPhase ==>
        && run == old(run) && phase == WarrenPhase && currentText == old(currentText)
        && showChoices && isTextComplete && currentDiscoveries == old(currentDiscoveries)
      ensures old(phase) == ResultPhase ==>
        && run == old(run) && phase == ChoicePhase && currentText == ContinueText
        && showChoices == old(showChoices) && !isTextComplete && currentDiscoveries == old(currentDiscoveries)
      ensures old(phase) == ChoicePhase ==>
        && !isTextComplete
        && (old(run).currentLayer + 1 > old(run).maxLayers ==>
              && run == old(run).(isGameOver := true) && phase == EndingPhase
              && currentText == EndingText(ResolveEnding(|run.fragments|, |run.discoveries|, run.stats.sanity))
              && showChoices == old(showChoices) && currentDiscoveries == old(currentDiscoveries))
        && (old(run).currentLayer + 1 <= old(run).maxLayers ==>
              && run == old(run).(currentLayer := old(run).currentLayer + 1, currentWarren := Some(w),
                                  visitedWarrens := old(run).visitedWarrens + [w.wtype])
              && phase == WarrenPhase && currentText == WarrenText(w.name, w.description)
              && !showChoices && currentDiscoveries == Discoveries.CheckDiscoveries(w.wtype, run.stats))
      ensures old(phase) == EndingPhase ==>
        && run == old(run) && phase == EndingPhase && currentText == old(currentText)
        && showChoices == old(showChoices) && isTextComplete && currentDiscoveries == old(currentDiscoveries)
    {
      isTextComplete := true;
      match phase
      case IntroPhase =>
        EnterWarren(w);
      case WarrenPhase =>
        showChoices := true;
      case ResultPhase =>
        // The same transition whether or not auto-advance is on; only the delay differs.
        phase := ChoicePhase;
        currentText := ContinueText;
        isTextComplete := false;
      case ChoicePhase =>
        ProceedToNextLayer(w);
      case EndingPhase =>
    }

    /** `handleSettingsChange`: the new settings replace the old ones, and nothing else changes. */
    method HandleSettingsChange(newSettings: Settings)
      requires Valid()
      modifies this`run
      ensures Valid()
      ensures run == old(run).(settings := newSettings)
    {
      run := run.(settings := newSettings);
    }
  }
}
