/** The global hotkey matcher: a "ctrl+shift+f7"-style string becomes a
    target key set, all or nothing, and a held-key set follows presses and
    releases, firing whenever it equals the target exactly.

    pynput's key enumeration is not part of this model: whether a text names
    one of its keys is the parameter `isKeyName`. The OS keyboard hook and
    its thread become a count of running listeners; a fired hotkey is
    counted in `triggers`. */
module HotkeyManager {
  import Strings
  import opened Models

  datatype Key = Named(name: string) | Char(c: char)

  /** `keyboard.Key[part]`, else `KeyCode.from_char(part)` for one character,
      else invalid. */
  function ParsePart(part: string, isKeyName: string -> bool): (k: Option<Key>)
    ensures k.None? <==> !isKeyName(part) && |part| != 1
  {
    if isKeyName(part) then Some(Named(part))
    else if |part| == 1 then Some(Char(part[0]))
    else None
  }

  /** The keys of all parts, or `None` as soon as one part is invalid. */
  function ParseParts(parts: seq<string>, isKeyName: string -> bool): Option<set<Key>>
    decreases |parts|
  {
    if parts == [] then Some({})
    else
      match ParseParts(parts[..|parts| - 1], isKeyName)
      case None => None
      case Some(keys) =>
        match ParsePart(parts[|parts| - 1], isKeyName)
        case None => None
        case Some(k) => Some(keys + {k})
  }

  /** The parts a hotkey string is split into, after lower-casing. */
  function PartsOf(hotkey: string): seq<string> {
    Strings.Split(Strings.Lower(hotkey), '+')
  }

  /** The target key set `_parse_hotkey_from_env` leaves, starting from the
      empty set. */
  function TargetKeys(hotkey: string, isKeyName: string -> bool): set<Key> {
    match ParseParts(PartsOf(hotkey), isKeyName)
    case None => {}
    case Some(keys) => keys
  }

  /** All or nothing: the parts parse exactly when each part does, and then
      the target is the set of their keys. */
  lemma {:induction false} ParsePartsAllOrNothing(parts: seq<string>, isKeyName: string -> bool)
    ensures ParseParts(parts, isKeyName).Some? <==>
      forall i :: 0 <= i < |parts| ==> ParsePart(parts[i], isKeyName).Some?
    ensures ParseParts(parts, isKeyName).Some? ==>
      ParseParts(parts, isKeyName).value == set i | 0 <= i < |parts| :: ParsePart(parts[i], isKeyName).value
    decreases |parts|
  {
    if parts != [] {
      var init := parts[..|parts| - 1];
      ParsePartsAllOrNothing(init, isKeyName);
      assert forall i :: 0 <= i < |init| ==> init[i] == parts[i];
      if ParseParts(parts, isKeyName).Some? {
        var n := |parts| - 1;
        var whole := set i | 0 <= i < |parts| :: ParsePart(parts[i], isKeyName).value;
        var front := set i | 0 <= i < |init| :: ParsePart(init[i], isKeyName).value;
        assert whole == front + {ParsePart(parts[n], isKeyName).value} by {
          forall k | k in whole ensures k in front + {ParsePart(parts[n], isKeyName).value} {
            var i :| 0 <= i < |parts| && k == ParsePart(parts[i], isKeyName).value;
            if i < n {
              assert k == ParsePart(init[i], isKeyName).value;
            }
          }
          forall k | k in front ensures k in whole {
            var i :| 0 <= i < |init| && k == ParsePart(init[i], isKeyName).value;
            assert k == ParsePart(parts[i], isKeyName).value;
          }
        }
      }
    }
  }

  /** The target does not depend on the order of the parts or on repeats:
      two strings with the same parts give the same target. */
  lemma SamePartsSameTarget(p1: seq<string>, p2: seq<string>, isKeyName: string -> bool)
    requires forall x :: x in p1 <==> x in p2
    ensures ParseParts(p1, isKeyName) == ParseParts(p2, isKeyName)
  {
    ParsePartsAllOrNothing(p1, isKeyName);
    ParsePartsAllOrNothing(p2, isKeyName);
    if ParseParts(p1, isKeyName).Some? {
      forall i | 0 <= i < |p2| ensures ParsePart(p2[i], isKeyName).Some? {
        assert p2[i] in p1;
      }
      var s1 := set i | 0 <= i < |p1| :: ParsePart(p1[i], isKeyName).value;
      var s2 := set i | 0 <= i < |p2| :: ParsePart(p2[i], isKeyName).value;
      forall k | k in s1 ensures k in s2 {
        var i :| 0 <= i < |p1| && k == ParsePart(p1[i], isKeyName).value;
        assert p1[i] in p2;
        var j :| 0 <= j < |p2| && p2[j] == p1[i];
      }
      forall k | k in s2 ensures k in s1 {
        var i :| 0 <= i < |p2| && k == ParsePart(p2[i], isKeyName).value;
        assert p2[i] in p1;
        var j :| 0 <= j < |p1| && p1[j] == p2[i];
      }
      assert s1 == s2;
    } else {
      var i :| 0 <= i < |p1| && ParsePart(p1[i], isKeyName).None?;
      assert p1[i] in p2;
    }
  }

  /** One invalid part (an empty one included) empties the whole target,
      whatever the parts before it added. */
  lemma InvalidPartEmptiesTarget(hotkey: string, isKeyName: string -> bool, i: nat)
    requires i < |PartsOf(hotkey)|
    requires ParsePart(PartsOf(hotkey)[i], isKeyName).None?
    ensures TargetKeys(hotkey, isKeyName) == {}
  {
    ParsePartsAllOrNothing(PartsOf(hotkey), isKeyName);
  }

  /** A valid string never yields the empty target: it has at least one part. */
  lemma ValidTargetNonEmpty(hotkey: string, isKeyName: string -> bool)
    requires forall i :: 0 <= i < |PartsOf(hotkey)| ==> ParsePart(PartsOf(hotkey)[i], isKeyName).Some?
    ensures TargetKeys(hotkey, isKeyName) != {}
    ensures TargetKeys(hotkey, isKeyName) ==
      set i | 0 <= i < |PartsOf(hotkey)| :: ParsePart(PartsOf(hotkey)[i], isKeyName).value
  {
    var parts := PartsOf(hotkey);
    ParsePartsAllOrNothing(parts, isKeyName);
    assert ParsePart(parts[0], isKeyName).value in TargetKeys(hotkey, isKeyName);
  }

  /** Strings that differ only in letter case give the same target. */
  lemma CaseInsensitive(a: string, b: string, isKeyName: string -> bool)
    requires Strings.Lower(a) == Strings.Lower(b)
    ensures TargetKeys(a, isKeyName) == TargetKeys(b, isKeyName)
    ensures TargetKeys(a, isKeyName) == TargetKeys(Strings.Lower(a), isKeyName)
  {
    Strings.LowerIdempotent(a);
  }

  /** "ctrl+shift+f7" names three distinct keys. */
  lemma ThreePartScenario(isKeyName: string -> bool)
    requires isKeyName("ctrl") && isKeyName("shift") && isKeyName("f7")
    ensures TargetKeys("ctrl+shift+f7", isKeyName) == {Named("ctrl"), Named("shift"), Named("f7")}
    ensures |TargetKeys("ctrl+shift+f7", isKeyName)| == 3
  {
    ThreePartSplit();
    ThreePartParse(isKeyName);
    ThreeDistinctKeys();
  }

  lemma ThreePartParse(isKeyName: string -> bool)
    requires isKeyName("ctrl") && isKeyName("shift") && isKeyName("f7")
    ensures ParseParts(["ctrl", "shift", "f7"], isKeyName) == Some({Named("ctrl"), Named("shift"), Named("f7")})
  {
    var p1: seq<string> := ["ctrl"];
    var p2 := p1 + ["shift"];
    assert p2 + ["f7"] == ["ctrl", "shift", "f7"];
    assert p1 == [] + ["ctrl"];
    var c, sh, f := Named("ctrl"), Named("shift"), Named("f7");
    assert ParseParts([], isKeyName) == Some({});
    ParsePartsSnoc([], "ctrl", isKeyName);
    assert {} + {c} == {c};
    ParsePartsSnoc(p1, "shift", isKeyName);
    assert {c} + {sh} == {c, sh};
    ParsePartsSnoc(p2, "f7", isKeyName);
    assert {c, sh} + {f} == {c, sh, f};
  }

  lemma ThreeDistinctKeys()
    ensures |{Named("ctrl"), Named("shift"), Named("f7")}| == 3
  {
    assert "ctrl"[0] != "shift"[0] && "ctrl"[0] != "f7"[0] && "shift"[0] != "f7"[0];
  }

  /** Parsing one more part adds its key, or fails. */
  lemma ParsePartsSnoc(parts: seq<string>, part: string, isKeyName: string -> bool)
    ensures ParseParts(parts + [part], isKeyName) ==
      if ParseParts(parts, isKeyName).Some? && ParsePart(part, isKeyName).Some?
      then Some(ParseParts(parts, isKeyName).value + {ParsePart(part, isKeyName).value})
      else None
  {
    assert (parts + [part])[..|parts|] == parts;
  }

  lemma ThreePartSplit()
    ensures PartsOf("ctrl+shift+f7") == ["ctrl", "shift", "f7"]
  {
    var p := ["ctrl", "shift", "f7"];
    Strings.LowerNoUpper("ctrl+shift+f7");
    assert Strings.Join(p, "+") == "ctrl+shift+f7";
    Strings.SplitJoin(p, '+');
  }

  /** "ctrl+@@" names no key: "@@" is neither a key name nor one character,
      and it undoes the "ctrl" before it. */
  lemma InvalidNameScenario(isKeyName: string -> bool)
    requires !isKeyName("@@")
    ensures TargetKeys("ctrl+@@", isKeyName) == {}
  {
    var p := ["ctrl", "@@"];
    Strings.LowerNoUpper("ctrl+@@");
    assert Strings.Join(p, "+") == "ctrl+@@";
    Strings.SplitJoin(p, '+');
    InvalidPartEmptiesTarget("ctrl+@@", isKeyName, 1);
  }

  /** "a++b" names no key: the empty part between the two separators is
      invalid. */
  lemma EmptyPartScenario(isKeyName: string -> bool)
    requires !isKeyName("")
    ensures TargetKeys("a++b", isKeyName) == {}
  {
    var p := ["a", "", "b"];
    Strings.LowerNoUpper("a++b");
    assert Strings.Join(p, "+") == "a++b";
    Strings.SplitJoin(p, '+');
    InvalidPartEmptiesTarget("a++b", isKeyName, 1);
  }

  /** The held set after a key event, and whether that event fires. */
  datatype KeyEvent = Press(key: Key) | Release(key: Key)

  function HeldAfter(held: set<Key>, e: KeyEvent): set<Key> {
    match e
    case Press(k) => held + {k}
    case Release(k) => held - {k}
  }

  predicate FiresOn(target: set<Key>, held: set<Key>, e: KeyEvent) {
    e.Press? && HeldAfter(held, e) == target
  }

  /** Which events of a sequence fire, starting from `held`. */
  function Fired(target: set<Key>, held: set<Key>, events: seq<KeyEvent>): (r: seq<bool>)
    ensures |r| == |events|
    decreases |events|
  {
    if events == [] then []
    else [FiresOn(target, held, events[0])] + Fired(target, HeldAfter(held, events[0]), events[1..])
  }

  /** The held set after a whole sequence of events, starting from `held`. */
  function HeldAfterAll(held: set<Key>, events: seq<KeyEvent>): set<Key>
    decreases |events|
  {
    if events == [] then held else HeldAfterAll(HeldAfter(held, events[0]), events[1..])
  }

  /** The i-th event fires exactly when it is a press that makes the keys
      held after the events before it equal to the target. */
  lemma {:induction false} FiredAt(target: set<Key>, held: set<Key>, events: seq<KeyEvent>, i: nat)
    requires i < |events|
    ensures Fired(target, held, events)[i] == FiresOn(target, HeldAfterAll(held, events[..i]), events[i])
    decreases |events|
  {
    if i > 0 {
      var rest := events[1..];
      FiredAt(target, HeldAfter(held, events[0]), rest, i - 1);
      assert rest[..i - 1] == events[..i][1..];
      assert rest[i - 1] == events[i];
    }
  }

  /** Releases never fire; a press whose held set becomes a strict superset
      of the target does not fire; a repeated press of a target key while
      exactly the target is held fires again. */
  lemma FiringRules(target: set<Key>, held: set<Key>, k: Key)
    ensures !FiresOn(target, held, Release(k))
    ensures target < held + {k} ==> !FiresOn(target, held, Press(k))
    ensures held == target && k in target ==> FiresOn(target, held, Press(k))
  {
  }

  /** Target {A, B}: press A, press C, release C, press B fires exactly once,
      on the last press. */
  lemma PressScenario(a: Key, b: Key, c: Key)
    requires a != b && a != c && b != c
    ensures Fired({a, b}, {}, [Press(a), Press(c), Release(c), Press(b)]) == [false, false, false, true]
  {
    var t := {a, b};
    assert {} + {a} == {a} && {a} != t by { assert b in t; }
    assert {a} + {c} != t by { assert c in {a} + {c}; }
    assert {a} + {c} - {c} == {a};
    assert {a} + {b} == t;
    assert Fired(t, {a}, [Press(b)]) == [true];
    assert Fired(t, {a, c}, [Release(c), Press(b)]) == [false, true];
    assert Fired(t, {a}, [Press(c), Release(c), Press(b)]) == [false, false, true];
  }

  class GlobalHotkeyManager {
    var targetKeys: set<Key>
    var currentKeys: set<Key>
    /** How many keyboard listeners were started and not yet stopped. */
    var running: nat
    /** The newest listener, the one `stop_listener` reaches, still runs. */
    var newestRunning: bool
    /** How many times `hotkey_triggered` was emitted. */
    ghost var triggers: nat

    /** `__init__`: both sets start empty, then the hotkey from the
        OVERLAY_HOTKEY environment variable (default "f7") is parsed. */
    constructor (envHotkey: Option<string>, isKeyName: string -> bool)
      ensures targetKeys == TargetKeys(if envHotkey.Some? then envHotkey.value else "f7", isKeyName)
      ensures currentKeys == {} && running == 0 && !newestRunning && triggers == 0
    {
      targetKeys := {};
      currentKeys := {};
      running := 0;
      newestRunning := false;
      triggers := 0;
      new;
      ParseHotkeyFromEnv(envHotkey, isKeyName);
    }

    /** `_parse_hotkey_from_env`: add each part's key to the target; the
        first invalid part clears the target and ends the parse. */
    method ParseHotkeyFromEnv(envHotkey: Option<string>, isKeyName: string -> bool)
      modifies this`targetKeys
      ensures var parsed := ParseParts(PartsOf(if envHotkey.Some? then envHotkey.value else "f7"), isKeyName);
        targetKeys == if parsed.Some? then old(targetKeys) + parsed.value else {}
    {
      var hotkey := Strings.Lower(if envHotkey.Some? then envHotkey.value else "f7");
      var parts := Strings.Split(hotkey, '+');
      assert parts == PartsOf(if envHotkey.Some? then envHotkey.value else "f7");
      var i := 0;
      while i < |parts|
        invariant 0 <= i <= |parts|
        invariant ParseParts(parts[..i], isKeyName).Some?
        invariant targetKeys == old(targetKeys) + ParseParts(parts[..i], isKeyName).value
      {
        var key := ParsePart(parts[i], isKeyName);
        ParsePrefixStep(parts, i, isKeyName);
        if key.None? {
          targetKeys := {};
          ParsePrefixFails(parts, i + 1, isKeyName);
          return;
        }
        targetKeys := targetKeys + {key.value};
        i := i + 1;
      }
      assert parts[..i] == parts;
    }

    /** `_on_press`: add the key; fire when the held set is exactly the target. */
    method OnPress(key: Key) returns (fired: bool)
      modifies this`currentKeys, this`triggers
      ensures currentKeys == HeldAfter(old(currentKeys), Press(key))
      ensures fired == FiresOn(targetKeys, old(currentKeys), Press(key))
      ensures fired <==> currentKeys == targetKeys
      ensures triggers == old(triggers) + (if fired then 1 else 0)
    {
      currentKeys := currentKeys + {key};
      fired := currentKeys == targetKeys;
      if fired {
        triggers := triggers + 1;
      }
    }

    /** `_on_release`: drop the key if it is held; otherwise nothing. Never fires. */
    method OnRelease(key: Key)
      modifies this`currentKeys
      ensures currentKeys == HeldAfter(old(currentKeys), Release(key))
      ensures key !in old(currentKeys) ==> currentKeys == old(currentKeys)
    {
      if key in currentKeys {
        currentKeys := currentKeys - {key};
      }
    }

    /** The newest listener is one of the running ones. */
    predicate ListenersValid()
      reads this
    {
      newestRunning ==> running > 0
    }

    /** `start_listener`: refused while the target is empty; otherwise a new
        listener starts beside any already running and becomes the newest. */
    method StartListener()
      requires ListenersValid()
      modifies this`running, this`newestRunning
      ensures ListenersValid()
      ensures targetKeys == {} ==> running == old(running) && newestRunning == old(newestRunning)
      ensures targetKeys != {} ==> running == old(running) + 1 && newestRunning
    {
      if targetKeys == {} {
        return;
      }
      running := running + 1;
      newestRunning := true;
    }

    /** `stop_listener`: stops the newest listener only; older ones keep
        running, and stopping twice does nothing more. */
    method StopListener()
      requires ListenersValid()
      modifies this`running, this`newestRunning
      ensures ListenersValid()
      ensures !newestRunning
      ensures running == if old(newestRunning) then old(running) - 1 else old(running)
    {
      if newestRunning {
        running := running - 1;
        newestRunning := false;
      }
    }
  }

  /** Once a prefix of the parts fails to parse, so do all longer prefixes. */
  lemma {:induction false} ParsePrefixFails(parts: seq<string>, n: nat, isKeyName: string -> bool)
    requires n <= |parts|
    requires ParseParts(parts[..n], isKeyName).None?
    ensures ParseParts(parts, isKeyName).None?
    decreases |parts| - n
  {
    if n < |parts| {
      ParsePrefixStep(parts, n, isKeyName);
      ParsePrefixFails(parts, n + 1, isKeyName);
    } else {
      assert parts[..n] == parts;
    }
  }

  /** Parsing one more part: the prefix's keys plus that part's key, or
      `None` when either fails. */
  lemma ParsePrefixStep(parts: seq<string>, i: nat, isKeyName: string -> bool)
    requires i < |parts|
    ensures ParseParts(parts[..i + 1], isKeyName) ==
      if ParseParts(parts[..i], isKeyName).None? || ParsePart(parts[i], isKeyName).None? then None
      else Some(ParseParts(parts[..i], isKeyName).value + {ParsePart(parts[i], isKeyName).value})
  {
    assert parts[..i + 1][..i] == parts[..i];
  }
}
