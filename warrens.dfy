/**
 * The warren table (src/data/warrens.ts): five fixed warrens with three
 * choices each, and the uniform pick `getRandomWarren`, whose random draw in
 * [0, 1) is a parameter.
 */
module Warrens {
  import opened GameTypes

  function Effect(sanity: Option<int>, memory: Option<int>, perception: Option<int>): StatEffect
  {
    StatEffect(sanity, memory, perception)
  }

  const Table: seq<Warren> := [
    Warren("Memory Warren", Memory,
      "Memories swirl like smoke. Forgotten faces reach for you from the mist.",
      [ Choice("Recall a childhood event",
          "You remember a lie you told. It costs you a truth, but grants clarity.",
          Some(0.6), Some(Effect(Some(-1), Some(1), None))),
        Choice("Ignore the voices",
          "They whisper anyway. Something precious is stolen from your mind.",
          Some(0.3), Some(Effect(None, Some(-2), None))),
        Choice("Search the memories",
          "You find a fragment of yourself, but it doesn't fit who you are now.",
          Some(0.8), Some(Effect(None, None, Some(1)))) ]),
    Warren("Shadow Warren", Shadow,
      "Light bends wrong here. Some choices feel real, some don't. Can you trust your eyes?",
      [ Choice("Step into the darkness",
          "It welcomes you. You lose your sense of time, but gain understanding.",
          Some(0.5), Some(Effect(Some(1), None, Some(-1)))),
        Choice("Call for help",
          "The echo returns, but it isn't your voice. Something else answered.",
          Some(0.4), Some(Effect(Some(-1), None, None))),
        Choice("Light a match",
          "Shadows multiply, swallowing the flame. In the darkness, you see truth.",
          Some(0.7), Some(Effect(None, None, Some(2)))) ]),
    Warren("Pain Warren", Pain,
      "Everything hurts. The ground is made of broken promises and sharp regrets.",
      [ Choice("Endure in silence",
          "Pain hardens into armor. You are stronger, but colder.",
          Some(0.6), Some(Effect(Some(2), Some(-1), None))),
        Choice("Cry out",
          "The Warren answers with another wound, but also unexpected compassion.",
          Some(0.4), Some(Effect(Some(-2), None, Some(1)))),
        Choice("Walk barefoot on the broken ground",
          "You leave a trail of blood and memory behind. Each step teaches you something.",
          Some(0.8), Some(Effect(Some(-1), Some(2), None))) ]),
    Warren("Dream Warren", Dream,
      "Logic dissolves like sugar in rain. Words taste of colors you've never seen.",
      [ Choice("Dance with the impossible",
          "Mathematics becomes music. You understand the song of falling upward.",
          Some(0.9), Some(Effect(Some(-2), None, Some(3)))),
        Choice("Speak in colors",
          "Blue tastes like forgotten names. Red sounds like your mother's lullaby.",
          Some(0.7), Some(Effect(Some(-1), Some(1), None))),
        Choice("Try to remember logic",
          "2+2 equals the sound of rain. Causality is just a rumor here.",
          Some(0.3), Some(Effect(Some(1), None, None))) ]),
    Warren("Entropy Warren", Entropy,
      "Everything decayssss... no, everything is [ERROR]. The rules keep ch4ng1ng.",
      [ Choice("Embrace the c0rruption",
          "Y0u bec0me 0ne with the gl1tch. [FRAGMENT_OBTAINED] [ERROR] [SUCCESS]",
          Some(1.0), Some(Effect(Some(1), Some(-1), Some(-3)))),
        Choice("Fight the breakdown",
          "Reality reasserts itself. But at what cost? [MEMORY_CORRUPTED]",
          Some(0.2), Some(Effect(Some(2), Some(-2), None))),
        Choice("0101000101000011010101",
          "Y3s. Y0u sp34k th3 tru3 l4ngu4g3 n0w. The Warren g1v3s y0u 1ts s3cr3t.",
          Some(0.8), Some(Effect(None, Some(-1), Some(1)))) ])
  ]

  /** The types of the table's warrens. */
  predicate IsTableType(t: WarrenType)
  {
    t == Memory || t == Shadow || t == Pain || t == Dream || t == Entropy
  }

  predicate DeltaBounded(d: Option<int>)
  {
    d.None? || -3 <= d.value <= 3
  }

  /** The index `Math.floor(draw * warrens.length)` for a draw in [0, 1). */
  function RandomIndex(draw: real): (i: int)
    requires 0.0 <= draw < 1.0
    ensures 0 <= i < |Table|
    ensures i as real <= draw * |Table| as real < i as real + 1.0
  {
    (draw * |Table| as real).Floor
  }

  /** `getRandomWarren`: the warren at the drawn index. */
  function RandomWarren(draw: real): (w: Warren)
    requires 0.0 <= draw < 1.0
    ensures w in Table
    ensures IsTableType(w.wtype)
  {
    Table[RandomIndex(draw)]
  }

  /** Each warren type is reached by exactly the draws of one fifth of [0, 1). */
  lemma RandomWarrenUniform(draw: real, k: int)
    requires 0.0 <= draw < 1.0 && 0 <= k < |Table|
    ensures RandomWarren(draw) == Table[k] <==> k as real / 5.0 <= draw < (k + 1) as real / 5.0
  {
    var i := RandomIndex(draw);
    if i != k {
      TableTypesDistinct();
      assert Table[i].wtype != Table[k].wtype;
    }
  }

  /** The table holds five warrens of the five types, with distinct names and types. */
  lemma TableTypesDistinct()
    ensures |Table| == 5
    ensures Table[0].wtype == Memory && Table[1].wtype == Shadow && Table[2].wtype == Pain
    ensures Table[3].wtype == Dream && Table[4].wtype == Entropy
    ensures forall i, j :: 0 <= i < j < |Table| ==> Table[i].wtype != Table[j].wtype && Table[i].name != Table[j].name
    ensures forall w :: w in Table ==> IsTableType(w.wtype)
  {
  }

  /** A choice has a stat effect and a fragment chance in (0, 1]. */
  predicate ChoiceWellFormed(c: Choice)
  {
    c.fragmentChance.Some? && c.statEffect.Some? && 0.0 < c.fragmentChance.value <= 1.0
  }

  /** Every warren has three choices, each with a fragment chance in (0, 1] and a stat effect. */
  lemma ChoicesWellFormed()
    ensures forall w :: w in Table ==> |w.choices| == 3
    ensures forall w, c :: w in Table && c in w.choices ==> ChoiceWellFormed(c)
  {
    forall k | 0 <= k < |Table|
      ensures |Table[k].choices| == 3
      ensures forall c :: c in Table[k].choices ==> ChoiceWellFormed(c)
    {
      var cs := Table[k].choices;
      assert ChoiceWellFormed(cs[0]) && ChoiceWellFormed(cs[1]) && ChoiceWellFormed(cs[2]);
      assert cs == [cs[0], cs[1], cs[2]];
    }
  }

  /** Only the Entropy Warren's first choice has fragment chance 1.0. */
  lemma CertainChanceOnlyEntropyFirst()
    ensures Table[4].choices[0].fragmentChance == Some(1.0)
    ensures forall i, j :: 0 <= i < |Table| && 0 <= j < |Table[i].choices| && (i, j) != (4, 0) ==>
      Table[i].choices[j].fragmentChance.Some? && Table[i].choices[j].fragmentChance.value < 1.0
  {
  }

  /** A choice's stat effect is present and each of its deltas lies in [-3, 3]. */
  predicate ChoiceDeltasBounded(c: Choice)
  {
    c.statEffect.Some? &&
    DeltaBounded(c.statEffect.value.sanity) && DeltaBounded(c.statEffect.value.memory) &&
    DeltaBounded(c.statEffect.value.perception)
  }

  /** Every stat delta in the table lies in [-3, 3], and both extremes occur. */
  lemma DeltasBounded()
    ensures forall w, c :: w in Table && c in w.choices ==> ChoiceDeltasBounded(c)
    ensures Table[4].choices[0].statEffect.value.perception == Some(-3)
    ensures Table[3].choices[0].statEffect.value.perception == Some(3)
  {
    forall k | 0 <= k < |Table|
      ensures forall c :: c in Table[k].choices ==> ChoiceDeltasBounded(c)
    {
      var cs := Table[k].choices;
      assert ChoiceDeltasBounded(cs[0]) && ChoiceDeltasBounded(cs[1]) && ChoiceDeltasBounded(cs[2]);
      assert cs == [cs[0], cs[1], cs[2]];
    }
  }
}
