/**
 * Security utilities (src/utils/security.ts): the HTML-escaping transform,
 * the structural settings validator and the per-key sliding-window rate
 * limiter. The limiter's clock (`Date.now`) is a parameter.
 */
module Security {
  import opened GameTypes

  // ---------------------------------------------------------------------------
  // sanitizeText
  // ---------------------------------------------------------------------------

  /** `s.replace(/c/g, rep)` for a one-character pattern: every `c` becomes `rep`. */
  function ReplaceAll(s: string, c: char, rep: string): (r: string)
    ensures c !in s ==> r == s
  {
    if s == [] then []
    else (if s[0] == c then rep else [s[0]]) + ReplaceAll(s[1..], c, rep)
  }

  /**
   * `sanitizeText`: the chain of six global replacements, `&` first. Text
   * without any of the six special characters passes through unchanged.
   */
  function SanitizeText(text: string): (r: string)
    ensures Plain(text) ==> r == text
  {
    var s1 := ReplaceAll(text, '&', "&amp;");
    var s2 := ReplaceAll(s1, '<', "&lt;");
    var s3 := ReplaceAll(s2, '>', "&gt;");
    var s4 := ReplaceAll(s3, '"', "&quot;");
    var s5 := ReplaceAll(s4, '\'', "&#x27;");
    ReplaceAll(s5, '/', "&#x2F;")
  }

  /** The six characters the sanitizer escapes. */
  predicate IsSpecial(c: char)
  {
    c == '&' || c == '<' || c == '>' || c == '"' || c == '\'' || c == '/'
  }

  /** Text with none of the six special characters. */
  predicate Plain(s: string)
  {
    forall i :: 0 <= i < |s| ==> !IsSpecial(s[i])
  }

  /** The escape of one character, as a reference definition of the sanitizer. */
  function EscapeChar(c: char): (r: string)
    ensures !IsSpecial(c) ==> r == [c]
    ensures IsSpecial(c) ==> |r| >= 4 && r[0] == '&' && r[|r| - 1] == ';'
  {
    match c
    case '&' => "&amp;"
    case '<' => "&lt;"
    case '>' => "&gt;"
    case '"' => "&quot;"
    case '\'' => "&#x27;"
    case '/' => "&#x2F;"
    case _ => [c]
  }

  /** The per-character escape of a whole string. */
  function Escape(s: string): string
  {
    if s == [] then [] else EscapeChar(s[0]) + Escape(s[1..])
  }

  lemma {:induction false} ReplaceAllAppend(a: string, b: string, c: char, rep: string)
    ensures ReplaceAll(a + b, c, rep) == ReplaceAll(a, c, rep) + ReplaceAll(b, c, rep)
  {
    if a == [] {
      assert a + b == b;
    } else {
      assert (a + b)[1..] == a[1..] + b;
      ReplaceAllAppend(a[1..], b, c, rep);
    }
  }

  /** Sanitizing distributes over concatenation. */
  lemma SanitizeAppend(a: string, b: string)
    ensures SanitizeText(a + b) == SanitizeText(a) + SanitizeText(b)
  {
    var a1, b1 := ReplaceAll(a, '&', "&amp;"), ReplaceAll(b, '&', "&amp;");
    ReplaceAllAppend(a, b, '&', "&amp;");
    var a2, b2 := ReplaceAll(a1, '<', "&lt;"), ReplaceAll(b1, '<', "&lt;");
    ReplaceAllAppend(a1, b1, '<', "&lt;");
    var a3, b3 := ReplaceAll(a2, '>', "&gt;"), ReplaceAll(b2, '>', "&gt;");
    ReplaceAllAppend(a2, b2, '>', "&gt;");
    var a4, b4 := ReplaceAll(a3, '"', "&quot;"), ReplaceAll(b3, '"', "&quot;");
    ReplaceAllAppend(a3, b3, '"', "&quot;");
    var a5, b5 := ReplaceAll(a4, '\'', "&#x27;"), ReplaceAll(b4, '\'', "&#x27;");
    ReplaceAllAppend(a4, b4, '\'', "&#x27;");
    ReplaceAllAppend(a5, b5, '/', "&#x2F;");
  }

  lemma ReplaceAllOne(c: char, rep: string)
    ensures ReplaceAll([c], c, rep) == rep
  {
    assert [c][1..] == [];
  }

  /** The pattern of the `k`-th replacement of the chain. */
  function Pattern(k: nat): char
    requires k < 6
  {
    ['&', '<', '>', '"', '\'', '/'][k]
  }

  /** The entity the `k`-th replacement writes. */
  function Entity(k: nat): string
    requires k < 6
  {
    ["&amp;", "&lt;", "&gt;", "&quot;", "&#x27;", "&#x2F;"][k]
  }

  /** The position of a character's replacement in the chain; 6 when none applies. */
  function StageOf(c: char): (k: nat)
    ensures k <= 6
    ensures k < 6 ==> Pattern(k) == c && EscapeChar(c) == Entity(k)
    ensures k == 6 <==> !IsSpecial(c)
  {
    match c
    case '&' => 0
    case '<' => 1
    case '>' => 2
    case '"' => 3
    case '\'' => 4
    case '/' => 5
    case _ => 6
  }

  /** The first `k` replacements of the chain. */
  function Chain(s: string, k: nat): string
    requires k <= 6
  {
    if k == 0 then s else ReplaceAll(Chain(s, k - 1), Pattern(k - 1), Entity(k - 1))
  }

  lemma SanitizeIsChain(t: string)
    ensures SanitizeText(t) == Chain(t, 6)
  {
    var s1 := ReplaceAll(t, '&', "&amp;");
    var s2 := ReplaceAll(s1, '<', "&lt;");
    var s3 := ReplaceAll(s2, '>', "&gt;");
    var s4 := ReplaceAll(s3, '"', "&quot;");
    var s5 := ReplaceAll(s4, '\'', "&#x27;");
    assert Chain(t, 1) == s1;
    assert Chain(t, 2) == s2;
    assert Chain(t, 3) == s3;
    assert Chain(t, 4) == s4;
    assert Chain(t, 5) == s5;
  }

  /** No entity holds the pattern of a later replacement. */
  lemma EntityLacksLaterPatterns(j: nat, k: nat)
    requires j < k < 6
    ensures Pattern(k) !in Entity(j)
  {
  }

  /** After `k` replacements a single character is escaped exactly when its own replacement is among them. */
  lemma {:induction false} ChainChar(c: char, k: nat)
    requires k <= 6
    ensures Chain([c], k) == if StageOf(c) < k then EscapeChar(c) else [c]
  {
    if k > 0 {
      ChainChar(c, k - 1);
      if StageOf(c) < k - 1 {
        EntityLacksLaterPatterns(StageOf(c), k - 1);
      } else if StageOf(c) == k - 1 {
        ReplaceAllOne(c, Entity(k - 1));
      }
    }
  }

  /** On a single character the chain of replacements is its escape. */
  lemma SanitizeChar(c: char)
    ensures SanitizeText([c]) == EscapeChar(c)
  {
    SanitizeIsChain([c]);
    ChainChar(c, 6);
  }

  /** The chain of replacements equals the per-character escape. */
  lemma {:induction false} SanitizeIsEscape(s: string)
    ensures SanitizeText(s) == Escape(s)
  {
    if s != [] {
      assert s == [s[0]] + s[1..];
      SanitizeAppend([s[0]], s[1..]);
      SanitizeChar(s[0]);
      SanitizeIsEscape(s[1..]);
    }
  }

  /** The characters that must not survive sanitizing. */
  predicate IsMarkup(c: char)
  {
    c == '<' || c == '>' || c == '"' || c == '\'' || c == '/'
  }

  /** The five entity names that follow `&` in an escape. */
  predicate StartsEntity(t: string)
  {
    (|t| >= 5 && t[..5] == "&amp;") ||
    (|t| >= 4 && t[..4] == "&lt;") ||
    (|t| >= 4 && t[..4] == "&gt;") ||
    (|t| >= 6 && t[..6] == "&quot;") ||
    (|t| >= 6 && t[..6] == "&#x27;") ||
    (|t| >= 6 && t[..6] == "&#x2F;")
  }

  lemma EscapeCharShape(c: char, t: string)
    ensures forall i :: 0 <= i < |EscapeChar(c)| ==> !IsMarkup(EscapeChar(c)[i])
    ensures forall i :: 0 < i < |EscapeChar(c)| ==> EscapeChar(c)[i] != '&'
    ensures EscapeChar(c)[0] == '&' ==> StartsEntity(EscapeChar(c) + t)
  {
    var e := EscapeChar(c);
    assert (e + t)[..|e|] == e;
    if c == '&' {
      assert e == "&amp;";
    }
  }

  /** What the sanitizer's output looks like: no markup, and every `&` opens an entity. */
  predicate WellEscaped(r: string)
  {
    (forall i :: 0 <= i < |r| ==> !IsMarkup(r[i])) &&
    (forall i :: 0 <= i < |r| && r[i] == '&' ==> StartsEntity(r[i..]))
  }

  lemma {:induction false} EscapeWellEscaped(s: string)
    ensures WellEscaped(Escape(s))
  {
    if s != [] {
      EscapeWellEscaped(s[1..]);
      var e, rest := EscapeChar(s[0]), Escape(s[1..]);
      var r := e + rest;
      EscapeCharShape(s[0], rest);
      forall i | 0 <= i < |r|
        ensures !IsMarkup(r[i])
        ensures r[i] == '&' ==> StartsEntity(r[i..])
      {
        if i < |e| {
          assert r[i] == e[i];
          if i == 0 {
            assert r[i..] == e + rest;
          }
        } else {
          assert r[i] == rest[i - |e|];
          assert r[i..] == rest[i - |e|..];
        }
      }
    }
  }

  /** The output contains none of `<`, `>`, `"`, `'`, `/`, and every `&` begins an entity. */
  lemma SanitizeSafe(s: string)
    ensures WellEscaped(SanitizeText(s))
  {
    SanitizeIsEscape(s);
    EscapeWellEscaped(s);
  }

  // ---------------------------------------------------------------------------
  // validateSettings
  // ---------------------------------------------------------------------------

  /** The JavaScript values `validateSettings` can be handed (NaN aside). */
  datatype JsValue =
    | Undefined
    | Null
    | Bool(b: bool)
    | Num(n: real)
    | Str(s: string)
    | Obj(fields: map<string, JsValue>)

  /** JavaScript truthiness. */
  predicate Truthy(v: JsValue)
  {
    match v
    case Undefined => false
    case Null => false
    case Bool(b) => b
    case Num(n) => n != 0.0
    case Str(s) => s != ""
    case Obj(_) => true
  }

  /** The `typeof` operator. */
  function TypeOf(v: JsValue): string
  {
    match v
    case Undefined => "undefined"
    case Null => "object"
    case Bool(_) => "boolean"
    case Num(_) => "number"
    case Str(_) => "string"
    case Obj(_) => "object"
  }

  /** Property access: a missing field reads as `undefined`. */
  function Get(fields: map<string, JsValue>, key: string): JsValue
  {
    if key in fields then fields[key] else Undefined
  }

  /**
   * `validateSettings`, guard by guard. It accepts exactly an object with a
   * numeric `textSpeed` in [1, 200], a `difficulty` of easy, normal or hard,
   * and boolean `autoAdvance`, `showStats` and `soundEnabled`.
   */
  predicate ValidateSettings(v: JsValue)
    ensures ValidateSettings(v) <==>
      v.Obj? &&
      Get(v.fields, "textSpeed").Num? && 1.0 <= Get(v.fields, "textSpeed").n <= 200.0 &&
      Get(v.fields, "difficulty") in {Str("easy"), Str("normal"), Str("hard")} &&
      Get(v.fields, "autoAdvance").Bool? &&
      Get(v.fields, "showStats").Bool? &&
      Get(v.fields, "soundEnabled").Bool?
  {
    if !Truthy(v) || TypeOf(v) != "object" then false
    else
      var f := v.fields;
      var speed := Get(f, "textSpeed");
      if TypeOf(speed) != "number" || speed.n < 1.0 || speed.n > 200.0 then false
      else if Get(f, "difficulty") !in [Str("easy"), Str("normal"), Str("hard")] then false
      else if TypeOf(Get(f, "autoAdvance")) != "boolean" ||
              TypeOf(Get(f, "showStats")) != "boolean" ||
              TypeOf(Get(f, "soundEnabled")) != "boolean" then false
      else true
  }

  /** The five fields a settings object must carry. */
  predicate IsSettingsField(k: string)
  {
    k == "textSpeed" || k == "difficulty" || k == "autoAdvance" || k == "showStats" || k == "soundEnabled"
  }

  function DifficultyName(d: Difficulty): string
  {
    match d
    case Easy => "easy"
    case Normal => "normal"
    case Hard => "hard"
  }

  /** The settings record as a JavaScript object. */
  function ToJs(s: Settings): (v: JsValue)
    ensures v.Obj? && forall k :: k in v.fields <==> IsSettingsField(k)
  {
    Obj(map[
      "textSpeed" := Num(s.textSpeed),
      "difficulty" := Str(DifficultyName(s.difficulty)),
      "autoAdvance" := Bool(s.autoAdvance),
      "showStats" := Bool(s.showStats),
      "soundEnabled" := Bool(s.soundEnabled)])
  }

  /** The settings a value describes, when it passes the validator. */
  function ParseSettings(v: JsValue): (r: Option<Settings>)
    ensures r.Some? <==> ValidateSettings(v)
    ensures r.Some? ==> 1.0 <= r.value.textSpeed <= 200.0
  {
    if !ValidateSettings(v) then None
    else
      var f := v.fields;
      var d := Get(f, "difficulty").s;
      Some(Settings(
        Get(f, "textSpeed").n,
        if d == "easy" then Easy else if d == "normal" then Normal else Hard,
        Get(f, "autoAdvance").b,
        Get(f, "showStats").b,
        Get(f, "soundEnabled").b))
  }

  /** Fields other than the five are ignored. */
  lemma ExtraFieldsIgnored(f: map<string, JsValue>, k: string, x: JsValue)
    requires !IsSettingsField(k)
    ensures ValidateSettings(Obj(f[k := x])) == ValidateSettings(Obj(f))
    ensures ParseSettings(Obj(f[k := x])) == ParseSettings(Obj(f))
  {
    assert forall j :: IsSettingsField(j) ==> Get(f[k := x], j) == Get(f, j);
  }

  /** A settings record passes exactly when its speed is in range, and reads back unchanged. */
  lemma SettingsRoundTrip(s: Settings)
    ensures ValidateSettings(ToJs(s)) <==> 1.0 <= s.textSpeed <= 200.0
    ensures 1.0 <= s.textSpeed <= 200.0 ==> ParseSettings(ToJs(s)) == Some(s)
  {
  }

  // ---------------------------------------------------------------------------
  // rateLimitActions
  // ---------------------------------------------------------------------------

  const WindowMs := 1000
  const MaxActions := 10

  /** The timestamps still inside the window at `now`, in their order (the `filter`). */
  function Recent(ts: seq<int>, now: int): (r: seq<int>)
    ensures |r| <= |ts|
  {
    if ts == [] then []
    else (if now - ts[0] < WindowMs then [ts[0]] else []) + Recent(ts[1..], now)
  }

  /** A timestamp survives the filter exactly when it is in the list and inside the window. */
  lemma {:induction false} RecentMembers(ts: seq<int>, now: int)
    ensures forall t :: t in Recent(ts, now) <==> t in ts && now - t < WindowMs
  {
    if ts != [] {
      RecentMembers(ts[1..], now);
      assert ts == [ts[0]] + ts[1..];
    }
  }

  /** A list whose entries are all inside the window is kept whole. */
  lemma {:induction false} RecentKeepsFresh(ts: seq<int>, now: int)
    requires forall i :: 0 <= i < |ts| ==> now - ts[i] < WindowMs
    ensures Recent(ts, now) == ts
  {
    if ts != [] {
      RecentKeepsFresh(ts[1..], now);
      assert ts == [ts[0]] + ts[1..];
    }
  }

  /** The list stored for a key (`[]` for a key not seen yet). */
  function Stored(actions: map<string, seq<int>>, key: string): seq<int>
  {
    if key in actions then actions[key] else []
  }

  /**
   * The properties every JavaScript object inherits from `Object.prototype`.
   * For such a key `actions[actionKey]` is a truthy non-array, so the
   * `filter` call throws a TypeError before anything is stored.
   */
  const ObjectPrototypeKeys: set<string> := {
    "constructor", "__proto__", "toString", "toLocaleString", "valueOf",
    "hasOwnProperty", "isPrototypeOf", "propertyIsEnumerable",
    "__defineGetter__", "__defineSetter__", "__lookupGetter__", "__lookupSetter__"}

  /** What one call of the limiter does. */
  datatype Outcome = Returns(allowed: bool) | ThrowsTypeError

  /** One call on a key's stored list at `now`: whether it is allowed, and the list kept. */
  function Step(ts: seq<int>, now: int): (bool, seq<int>)
  {
    var kept := Recent(ts, now);
    if |kept| < MaxActions then (true, kept + [now]) else (false, kept)
  }

  /**
   * The calls of one key at the clock readings `times`, from a fresh limiter:
   * the list stored at the end, and the readings whose calls were allowed.
   */
  function Replay(times: seq<int>): (r: (seq<int>, seq<int>))
    ensures |r.0| <= MaxActions
    ensures |r.1| <= |times|
  {
    if times == [] then ([], [])
    else
      var prev := Replay(times[..|times| - 1]);
      var now := times[|times| - 1];
      var step := Step(prev.0, now);
      (step.1, prev.1 + if step.0 then [now] else [])
  }

  /** Replaying one more call is one more step. */
  lemma ReplayStep(history: seq<int>, now: int)
    ensures Replay(history + [now]) ==
      (Step(Replay(history).0, now).1,
       Replay(history).1 + if Step(Replay(history).0, now).0 then [now] else [])
  {
    assert (history + [now])[..|history|] == history;
  }

  /**
   * The limiter's invariant on its state: each stored list is what replaying
   * the key's calls leaves, so it holds at most `MaxActions` timestamps, and
   * no inherited property is ever a key.
   */
  ghost predicate Consistent(actions: map<string, seq<int>>, calls: map<string, seq<int>>)
  {
    calls.Keys == actions.Keys &&
    forall k :: k in actions ==>
      k !in ObjectPrototypeKeys && actions[k] == Replay(calls[k]).0 && |actions[k]| <= MaxActions
  }

  /** A call on an ordinary key keeps the invariant. */
  lemma ConsistentAfterCall(actions: map<string, seq<int>>, calls: map<string, seq<int>>, key: string, now: int)
    requires Consistent(actions, calls)
    requires key !in ObjectPrototypeKeys
    ensures Consistent(actions[key := Step(Stored(actions, key), now).1],
                       calls[key := Stored(calls, key) + [now]])
  {
    ReplayStep(Stored(calls, key), now);
  }

  class RateLimiter {
    var actions: map<string, seq<int>>
    /** Every clock reading at which each key was called, in call order. */
    ghost var calls: map<string, seq<int>>

    ghost predicate Valid()
      reads this
    {
      Consistent(actions, calls)
    }

    constructor ()
      ensures Valid() && actions == map[] && calls == map[]
    {
      actions := map[];
      calls := map[];
    }

    /** One call of the limiter for `actionKey` at clock reading `now`. */
    method Allow(actionKey: string, now: int) returns (outcome: Outcome)
      requires Valid()
      modifies this
      ensures Valid()
      ensures outcome == ThrowsTypeError <==> actionKey in ObjectPrototypeKeys
      ensures outcome == ThrowsTypeError ==> actions == old(actions) && calls == old(calls)
      ensures outcome.Returns? ==>
        (outcome.allowed <==> |Recent(Stored(old(actions), actionKey), now)| < MaxActions)
      ensures outcome.Returns? ==> actions == old(actions)[actionKey :=
        if outcome.allowed then Recent(Stored(old(actions), actionKey), now) + [now]
        else Recent(Stored(old(actions), actionKey), now)]
      ensures actionKey !in old(actions) && outcome.Returns? ==>
        outcome.allowed && actions[actionKey] == [now]
      ensures outcome.Returns? ==>
        calls == old(calls)[actionKey := Stored(old(calls), actionKey) + [now]] &&
        Replay(calls[actionKey]).1 ==
          Replay(Stored(old(calls), actionKey)).1 + if outcome.allowed then [now] else []
    {
      if actionKey in ObjectPrototypeKeys {
        return ThrowsTypeError;
      }
      ConsistentAfterCall(actions, calls, actionKey, now);
      ReplayStep(Stored(calls, actionKey), now);
      calls := calls[actionKey := Stored(calls, actionKey) + [now]];
      // a missing list starts out empty, then the stale timestamps are dropped
      var kept := Recent(Stored(actions, actionKey), now);
      if |kept| >= MaxActions {
        actions := actions[actionKey := kept];
        return Returns(false);
      }
      actions := actions[actionKey := kept + [now]];
      return Returns(true);
    }
  }

  /** Once a call is allowed, every stored timestamp for the key lies inside the window. */
  lemma AllowedListIsFresh(ts: seq<int>, now: int)
    ensures forall t :: t in Recent(ts, now) + [now] ==> now - t < WindowMs
  {
    RecentMembers(ts, now);
  }

  /** Clock readings that never go back. */
  predicate NonDecreasing(times: seq<int>)
  {
    forall i, j :: 0 <= i < j < |times| ==> times[i] <= times[j]
  }

  lemma {:induction false} RecentAppend(a: seq<int>, b: seq<int>, now: int)
    ensures Recent(a + b, now) == Recent(a, now) + Recent(b, now)
  {
    if a == [] {
      assert a + b == b;
    } else {
      assert (a + b)[1..] == a[1..] + b;
      RecentAppend(a[1..], b, now);
    }
  }

  /** Filtering at an earlier reading and then at `now` is filtering at `now`. */
  lemma {:induction false} RecentOfRecent(ts: seq<int>, earlier: int, now: int)
    requires earlier <= now
    ensures Recent(Recent(ts, earlier), now) == Recent(ts, now)
  {
    if ts != [] {
      RecentOfRecent(ts[1..], earlier, now);
      var head := if earlier - ts[0] < WindowMs then [ts[0]] else [];
      RecentAppend(head, Recent(ts[1..], earlier), now);
      if head != [] {
        assert head[1..] == [];
      }
    }
  }

  /**
   * With a clock that never goes back, the list stored for a key is exactly
   * the allowed calls that are still inside the window.
   */
  lemma {:induction false} StoredIsRecentAllowed(times: seq<int>)
    requires NonDecreasing(times)
    requires times != []
    ensures Replay(times).0 == Recent(Replay(times).1, times[|times| - 1])
  {
    var init, now := times[..|times| - 1], times[|times| - 1];
    var prev := Replay(init);
    var kept := Recent(prev.0, now);
    if init != [] {
      assert NonDecreasing(init);
      StoredIsRecentAllowed(init);
      RecentOfRecent(prev.1, init[|init| - 1], now);
    }
    assert kept == Recent(prev.1, now);
    if |kept| < MaxActions {
      RecentAppend(prev.1, [now], now);
      assert [now][1..] == [];
      assert Recent([now], now) == [now];
      assert Replay(times) == (kept + [now], prev.1 + [now]);
    } else {
      assert Replay(times) == (kept, prev.1 + []);
      assert prev.1 + [] == prev.1;
    }
  }

  /** The timestamps that fall in the interval [start, start + WindowMs). */
  function InWindow(ts: seq<int>, start: int): (r: seq<int>)
    ensures forall t :: t in r ==> t in ts && start <= t < start + WindowMs
  {
    if ts == [] then []
    else (if start <= ts[0] < start + WindowMs then [ts[0]] else []) + InWindow(ts[1..], start)
  }

  lemma {:induction false} InWindowAppend(a: seq<int>, b: seq<int>, start: int)
    ensures InWindow(a + b, start) == InWindow(a, start) + InWindow(b, start)
  {
    if a == [] {
      assert a + b == b;
    } else {
      assert (a + b)[1..] == a[1..] + b;
      InWindowAppend(a[1..], b, start);
    }
  }

  /** An interval ending after `now` holds no more timestamps than the window at `now`. */
  lemma {:induction false} InWindowWithinRecent(ts: seq<int>, start: int, now: int)
    requires start <= now < start + WindowMs
    ensures |InWindow(ts, start)| <= |Recent(ts, now)|
  {
    if ts != [] {
      InWindowWithinRecent(ts[1..], start, now);
    }
  }

  /**
   * "Max 10 actions per second": with a clock that never goes back, no
   * interval of `WindowMs` milliseconds holds more than `MaxActions` allowed
   * calls of one key.
   */
  lemma {:induction false} AllowedPerWindow(times: seq<int>, start: int)
    requires NonDecreasing(times)
    ensures |InWindow(Replay(times).1, start)| <= MaxActions
  {
    if times != [] {
      var init, now := times[..|times| - 1], times[|times| - 1];
      var prev := Replay(init);
      assert NonDecreasing(init);
      AllowedPerWindow(init, start);
      var kept := Recent(prev.0, now);
      if |kept| < MaxActions {
        assert Replay(times).1 == prev.1 + [now];
        InWindowAppend(prev.1, [now], start);
        assert [now][1..] == [];
        if start <= now < start + WindowMs {
          if init != [] {
            StoredIsRecentAllowed(init);
            RecentOfRecent(prev.1, init[|init| - 1], now);
          }
          assert kept == Recent(prev.1, now);
          InWindowWithinRecent(prev.1, start, now);
        }
      } else {
        assert Replay(times).1 == prev.1 + [];
        assert prev.1 + [] == prev.1;
      }
    }
  }
}
