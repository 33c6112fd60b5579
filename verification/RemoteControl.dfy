/**
 The remote control handlers of the front processor driver: two kinds of remotes, each with its own
 last key, and one timer that both share. A key is identified by its value_new, 0 to 31.
 */
module RemoteControl {

  import opened Options

  const BREAK := 0x5cfe
  const NO_TOGGLE := 0xff
  const RC_KEY_COUNT := 32

  datatype Emit = Pressed(key: nat) | Repeated(key: nat) | Released(key: nat)

  datatype Owner = Old | New

  /** The column value_old of rc_key_map. */
  function ValueOld(key: nat): nat {
    match key
    case 0x0a => 0x2e case 0x0b => 0x2f case 0x0c => 0x0e case 0x0d => 0x0f case 0x0e => 0x30 case 0x0f => 0x28
    case 0x10 => 0x0c case 0x11 => 0x55 case 0x12 => 0x52 case 0x13 => 0x2d case 0x14 => 0x3b case 0x15 => 0x16
    case 0x16 => 0x17 case 0x17 => 0x82 case 0x18 => 0x27 case 0x19 => 0x53 case 0x1a => 0x54 case 0x1b => 0xff
    case 0x1c => 0xfb case 0x1d => 0xfd case 0x1e => 0xfc case 0x1f => 0x20
    case _ => key
  }

  /** The first key from `from` on with this value_old. */
  function FindOld(value: nat, from: nat): (k: Option<nat>)
    ensures k.Some? ==> from <= k.value < RC_KEY_COUNT && ValueOld(k.value) == value
    decreases RC_KEY_COUNT - from
  {
    if from >= RC_KEY_COUNT then None
    else if ValueOld(from) == value then Some(from)
    else FindOld(value, from + 1)
  }

  // ------------------------------------------------------------------ well-formed event streams

  /** What an event stream leaves behind: no key down, one key down, or nonsense. */
  datatype Hold = Idle | Down(key: nat) | Bad

  function Next(h: Hold, e: Emit): Hold {
    match e
    case Pressed(k) => if h == Idle then Down(k) else Bad
    case Repeated(k) => if h == Down(k) then h else Bad
    case Released(k) => if h == Down(k) then Idle else Bad
  }

  function Held(s: seq<Emit>): Hold {
    if s == [] then Idle else Next(Held(s[..|s| - 1]), s[|s| - 1])
  }

  lemma HeldMore(s: seq<Emit>, e: Emit)
    ensures Held(s + [e]) == Next(Held(s), e)
  {
    assert (s + [e])[..|s|] == s;
  }

  lemma {:induction false} BadStays(s: seq<Emit>, t: seq<Emit>)
    requires Held(s) == Bad
    ensures Held(s + t) == Bad
    decreases |t|
  {
    if t == [] {
      assert s + t == s;
    } else {
      BadStays(s, t[..|t| - 1]);
      assert s + t == (s + t[..|t| - 1]) + [t[|t| - 1]];
      HeldMore(s + t[..|t| - 1], t[|t| - 1]);
    }
  }

  /** A key pressed, repeated some times and released. */
  datatype Stroke = Stroke(key: nat, repeats: nat)

  function Repeats(key: nat, n: nat): seq<Emit> {
    seq(n, i => Repeated(key))
  }

  function Expand(strokes: seq<Stroke>): seq<Emit> {
    if strokes == [] then []
    else
      var last := strokes[|strokes| - 1];
      Expand(strokes[..|strokes| - 1]) + [Pressed(last.key)] + Repeats(last.key, last.repeats) + [Released(last.key)]
  }

  lemma ExpandMore(strokes: seq<Stroke>, x: Stroke)
    ensures Expand(strokes + [x]) == Expand(strokes) + [Pressed(x.key)] + Repeats(x.key, x.repeats) + [Released(x.key)]
  {
    assert (strokes + [x])[..|strokes|] == strokes;
  }

  lemma {:induction false} HeldRepeats(s: seq<Emit>, key: nat, n: nat)
    requires Held(s) == Down(key)
    ensures Held(s + Repeats(key, n)) == Down(key)
    decreases n
  {
    if n == 0 {
      assert s + Repeats(key, n) == s;
    } else {
      HeldRepeats(s, key, n - 1);
      assert s + Repeats(key, n) == (s + Repeats(key, n - 1)) + [Repeated(key)];
      HeldMore(s + Repeats(key, n - 1), Repeated(key));
    }
  }

  /** Any series of strokes leaves no key down... */
  lemma {:induction false} StrokesAreIdle(strokes: seq<Stroke>)
    ensures Held(Expand(strokes)) == Idle
    decreases |strokes|
  {
    if strokes != [] {
      var init, x := strokes[..|strokes| - 1], strokes[|strokes| - 1];
      StrokesAreIdle(init);
      HeldMore(Expand(init), Pressed(x.key));
      HeldRepeats(Expand(init) + [Pressed(x.key)], x.key, x.repeats);
      HeldMore(Expand(init) + [Pressed(x.key)] + Repeats(x.key, x.repeats), Released(x.key));
    }
  }

  /** ...and every stream that is not nonsense is a series of strokes, the last one perhaps unfinished. */
  lemma {:induction false} StreamIsStrokes(s: seq<Emit>) returns (strokes: seq<Stroke>)
    requires Held(s) != Bad
    ensures Held(s) == Idle ==> s == Expand(strokes)
    ensures Held(s).Down? ==>
              && strokes != [] && strokes[|strokes| - 1].key == Held(s).key
              && s + [Released(Held(s).key)] == Expand(strokes)
    decreases |s|
  {
    if s == [] {
      strokes := [];
    } else {
      var init, e := s[..|s| - 1], s[|s| - 1];
      assert s == init + [e];
      var before := StreamIsStrokes(init);
      hide Expand;
      match e
      case Pressed(k) =>
        strokes := before + [Stroke(k, 0)];
        NewStroke(init, before, k);
      case Released(k) =>
        strokes := before;
      case Repeated(k) =>
        strokes := LongerStroke(init, before, k);
    }
  }

  lemma NewStroke(s: seq<Emit>, strokes: seq<Stroke>, k: nat)
    requires s == Expand(strokes)
    ensures s + [Pressed(k)] + [Released(k)] == Expand(strokes + [Stroke(k, 0)])
  {
    hide Expand;
    ExpandMore(strokes, Stroke(k, 0));
    assert s + [Pressed(k)] + Repeats(k, 0) == s + [Pressed(k)];
  }

  lemma LongerStroke(s: seq<Emit>, before: seq<Stroke>, k: nat) returns (strokes: seq<Stroke>)
    requires before != [] && before[|before| - 1].key == k && s + [Released(k)] == Expand(before)
    ensures strokes != [] && strokes[|strokes| - 1].key == k && s + [Repeated(k)] + [Released(k)] == Expand(strokes)
  {
    hide Expand;
    var n := |before| - 1;
    var x := before[n];
    strokes := before[..n] + [Stroke(k, x.repeats + 1)];
    ExpandMore(before[..n], x);
    ExpandMore(before[..n], Stroke(k, x.repeats + 1));
    assert before == before[..n] + [x];
    var open := Expand(before[..n]) + [Pressed(k)];
    SamePrefix(s, open + Repeats(k, x.repeats), Released(k));
    assert Repeats(k, x.repeats + 1) == Repeats(k, x.repeats) + [Repeated(k)];
    assert open + Repeats(k, x.repeats + 1) == open + Repeats(k, x.repeats) + [Repeated(k)];
  }

  lemma SamePrefix(a: seq<Emit>, b: seq<Emit>, e: Emit)
    requires a + [e] == b + [e]
    ensures a == b
  {
    assert a == (a + [e])[..|a|] && b == (b + [e])[..|b|];
  }

  // ------------------------------------------------------------------ the handlers

  function KeyOfOld(code: nat): Option<nat> {
    if code == BREAK then None else FindOld(code % 256, 0)
  }

  /** What one remote's code should cause: `same` says that it continues the stroke of the key held. */
  function Response(held: Option<nat>, key: Option<nat>, same: bool): seq<Emit> {
    if held.Some? && key == held && same then [Repeated(held.value)]
    else (if held.Some? then [Released(held.value)] else []) + if key.Some? then [Pressed(key.value)] else []
  }

  datatype Input = OldCode(code: nat) | NewCode(code: nat) | Timeout

  class Remotes {
    const disableOld: bool
    const disableNew: bool
    const philipsPatch: bool
    var oldRcCode: nat
    var lastOld: Option<nat>
    var lastNew: Option<nat>
    var toggle: nat              // toggle_bits of the new remote
    var timer: Option<Owner>     // the pending key-up timer and whose key it releases
    var keys: set<nat>           // the keys that the input device has down
    var emitted: seq<Emit>

    /** The stream is well formed so far, and this is how the driver's state reflects it. */
    ghost predicate Valid()
      reads this
    {
      && (lastNew.Some? <==> toggle != NO_TOGGLE) && !(lastOld.Some? && lastNew.Some?)
      && Held(emitted) == (if lastOld.Some? then Down(lastOld.value)
                           else if lastNew.Some? then Down(lastNew.value)
                           else Idle)
      && keys == (if lastOld.Some? then {lastOld.value} else if lastNew.Some? then {lastNew.value} else {})
      && (lastOld.Some? ==> timer == Some(Old) && FindOld(ValueOld(lastOld.value), 0) == lastOld)
      && (lastOld.None? ==> timer != Some(Old)) && (lastNew.None? ==> timer != Some(New))
      && (disableOld ==> lastOld.None? && (lastNew.Some? ==> timer.Some?)) && (disableNew ==> lastNew.None?)
    }

    ghost function HeldKey(): Option<nat>
      reads this
    {
      if lastOld.Some? then lastOld else lastNew
    }

    /** The patch for Philips boxes ignores a code that differs from the previous one. */
    ghost predicate Skips(code: nat)
      reads this
    {
      philipsPatch && code % 32 != oldRcCode
    }

    /** The input that breaks the stream: it reaches a key while the other remote's key is down, or
        the new remote changes its key after the old remote's break code removed the shared timer. */
    ghost predicate Clash(i: Input)
      reads this
    {
      match i
      case OldCode(c) => !disableOld && lastNew.Some? && c != BREAK && FindOld(c % 256, 0).Some?
      case NewCode(c) =>
        && !disableNew && !Skips(c)
        && (lastOld.Some? || (lastNew.Some? && timer.None? && (lastNew.value != c % 32 || toggle != c / 64 % 4)))
      case Timeout => false
    }

    constructor (noOld: bool, noNew: bool, patch: bool)
      ensures Valid() && emitted == [] && disableOld == noOld && disableNew == noNew && philipsPatch == patch
      ensures lastOld == None && lastNew == None && timer == None
    {
      disableOld, disableNew, philipsPatch := noOld, noNew, patch;
      oldRcCode, lastOld, lastNew, toggle, timer := 0, None, None, NO_TOGGLE, None;
      keys, emitted := {}, [];
    }

    /** input_event */
    method InputEvent(e: Emit)
      modifies this`keys, this`emitted
      ensures emitted == old(emitted) + [e] && Held(emitted) == Next(old(Held(emitted)), e)
      ensures keys == match e
                      case Pressed(k) => old(keys) + {k}
                      case Repeated(_) => old(keys)
                      case Released(k) => old(keys) - {k}
    {
      HeldMore(emitted, e);
      emitted := emitted + [e];
      match e
      case Pressed(k) => keys := keys + {k};
      case Repeated(_) =>
      case Released(k) => keys := keys - {k};
    }

    /** The timer expires: dbox2_fp_rc_keyup for its owner. */
    method KeyUp()
      modifies this
      ensures old(Valid()) ==> Valid() && lastOld.None? && timer.None?
      ensures old(Valid()) ==> lastNew == if old(timer).None? then old(lastNew) else None
      ensures old(Valid()) ==>
                emitted == old(emitted) + if old(timer).None? then [] else Response(old(HeldKey()), None, false)
      ensures old(emitted) <= emitted
    {
      if timer.None? {
        return;
      }
      var owner := timer.value;
      timer := None;
      var last := if owner == Old then lastOld else lastNew;
      if last.None? || last.value !in keys {
        return;
      }
      if owner == New {
        toggle := NO_TOGGLE;
      }
      InputEvent(Released(last.value));
      if owner == Old {
        lastOld := None;
      } else {
        lastNew := None;
      }
    }

    /** dbox2_fp_old_rc_queue_handler */
    method HandleOld(code: nat)
      modifies this
      ensures old(Valid() && !Clash(OldCode(code))) ==> Valid() && lastNew == old(lastNew) && toggle == old(toggle)
      ensures old(Valid() && !Clash(OldCode(code))) && !disableOld ==>
                emitted == old(emitted) + Response(old(lastOld), KeyOfOld(code), true) && lastOld == KeyOfOld(code)
      ensures disableOld ==> unchanged(this)
      ensures old(Valid() && Clash(OldCode(code))) ==> Held(emitted) == Bad
      ensures old(emitted) <= emitted
    {
      hide Held;
      hide FindOld;
      hide ValueOld;
      if disableOld {
        return;
      }
      if code == BREAK || (lastOld.Some? && code % 256 != ValueOld(lastOld.value)) {
        timer := None;
        if lastOld.Some? {
          InputEvent(Released(lastOld.value));
          lastOld := None;
        }
        if code == BREAK {
          return;
        }
      }
      var key := FindOld(code % 256, 0);
      if key.Some? {
        timer := None;
        if lastOld == key {
          InputEvent(Repeated(key.value));
        } else {
          InputEvent(Pressed(key.value));
          lastOld := key;
        }
        timer := Some(Old);
      }
    }

    /** dbox2_fp_new_rc_queue_handler */
    method HandleNew(code: nat)
      modifies this
      ensures old(Valid() && !Clash(NewCode(code))) ==> Valid() && lastOld == old(lastOld)
      ensures old(Valid() && !Clash(NewCode(code))) && !disableNew && !old(Skips(code)) ==>
                emitted == old(emitted) + Response(old(lastNew), Some(code % 32), old(toggle) == code / 64 % 4)
                && lastNew == Some(code % 32) && toggle == code / 64 % 4 && timer == Some(New)
      ensures disableNew ==> unchanged(this)
      ensures !disableNew && old(Skips(code)) ==> emitted == old(emitted) && oldRcCode == code % 32
      ensures old(Valid() && Clash(NewCode(code))) ==> Held(emitted) == Bad
      ensures old(emitted) <= emitted
    {
      hide Held;
      hide FindOld;
      hide ValueOld;
      if disableNew {
        return;
      }
      var key, bits := code % 32, code / 64 % 4;
      if philipsPatch && key != oldRcCode {
        oldRcCode := key;
        return;
      }
      if timer.Some? {
        timer := None;
        if lastNew.Some? && (lastNew.value != key || toggle != bits) && toggle != NO_TOGGLE {
          InputEvent(Released(lastNew.value));
          toggle := NO_TOGGLE;
        }
      }
      if toggle != NO_TOGGLE && toggle == bits {
        InputEvent(Repeated(key));
      } else {
        InputEvent(Pressed(key));
      }
      lastNew, toggle, timer := Some(key), bits, Some(New);
    }

    /** With one kind of remote disabled, whatever arrives, the stream is well formed. */
    method Handle(inputs: seq<Input>)
      requires Valid() && (disableOld || disableNew)
      modifies this
      ensures Valid() && Held(emitted) != Bad
    {
      hide Held;
      for i := 0 to |inputs|
        invariant Valid()
      {
        match inputs[i]
        case OldCode(c) => HandleOld(c);
        case NewCode(c) => HandleNew(c);
        case Timeout => KeyUp();
      }
    }
  }

  lemma OldOne()
    ensures KeyOfOld(0x0001) == Some(1)
  {
    assert FindOld(1, 1) == Some(1);
  }

  /** With both remotes in use, a key of the second one breaks the stream while one of the first is down. */
  method TwoRemotes() returns (r: Remotes)
    ensures Held(r.emitted) == Bad
  {
    hide Held;
    hide FindOld;
    hide ValueOld;
    hide KeyOfOld;
    hide Response;
    r := new Remotes(false, false, false);
    OldOne();
    r.HandleOld(0x0001);
    r.HandleNew(0x0002);
  }
}
