/** The keyboard-driven transform state of the surface viewer.

    Six integer counters (three rotation angles, three positions) and a
    two-valued mode.  A keystroke either selects the mode or nudges one
    counter by a fixed step; the 'i' key asks for a new random surface and
    leaves the transform alone.
 */
module Keyboard {

  /** ROTATE (1) and TRANSLATE (2) in the program. */
  datatype Mode = Rotate | Translate

  /** The fixed amount an axis key moves a counter.  The program writes the
      literal 5 in each branch; its own `STEP` macro (0.1) is unrelated and unused. */
  const NUDGE: int := 5

  /** The abstract value of the transform state. */
  datatype Pose = Pose(xangle: int, yangle: int, zangle: int,
                       xpos: int, ypos: int, zpos: int, mode: Mode)

  /** The state at program start. */
  const Initial: Pose := Pose(0, 0, 0, 0, 0, 0, Rotate)

  /** The six counters in a fixed order: angles 0..2, positions 3..5. */
  function Counters(p: Pose): (c: seq<int>)
    ensures |c| == 6
  {
    [p.xangle, p.yangle, p.zangle, p.xpos, p.ypos, p.zpos]
  }

  /** The pose with counter k set to v. */
  function WithCounter(p: Pose, k: nat, v: int): (q: Pose)
    requires k < 6
    ensures q.mode == p.mode
    ensures Counters(q) == Counters(p)[k := v]
  {
    match k
    case 0 => p.(xangle := v)
    case 1 => p.(yangle := v)
    case 2 => p.(zangle := v)
    case 3 => p.(xpos := v)
    case 4 => p.(ypos := v)
    case _ => p.(zpos := v)
  }

  predicate IsModeKey(key: char) {
    key == 'r' || key == 'R' || key == 't' || key == 'T'
  }

  predicate IsAxisKey(key: char) {
    key == 'x' || key == 'y' || key == 'z' || key == 'X' || key == 'Y' || key == 'Z'
  }

  /** The mode after a keystroke. */
  function NextMode(m: Mode, key: char): Mode {
    if key == 'r' || key == 'R' then Rotate
    else if key == 't' || key == 'T' then Translate
    else m
  }

  /** What a keystroke does to the counters in a given mode. */
  datatype Move = NoMove | Move(counter: nat, delta: int)

  /** The counter an axis key addresses and its direction: lower-case keys
      decrease, upper-case keys increase; the angles are addressed in
      rotate mode and the positions in translate mode. */
  function MoveOf(m: Mode, key: char): (mv: Move)
    ensures mv.Move? <==> IsAxisKey(key)
    ensures mv.Move? ==> mv.counter < 6 && (mv.counter < 3 <==> m == Rotate)
    ensures mv.Move? ==> (mv.delta == -NUDGE <==> key in "xyz") && (mv.delta == NUDGE <==> key in "XYZ")
  {
    var base := if m == Rotate then 0 else 3;
    match key
    case 'x' => Move(base, -NUDGE)
    case 'y' => Move(base + 1, -NUDGE)
    case 'z' => Move(base + 2, -NUDGE)
    case 'X' => Move(base, NUDGE)
    case 'Y' => Move(base + 1, NUDGE)
    case 'Z' => Move(base + 2, NUDGE)
    case _ => NoMove
  }

  /** q differs from p in at most one counter, and there by exactly NUDGE. */
  predicate AtMostOneNudge(p: Pose, q: Pose) {
    (forall k :: 0 <= k < 6 ==>
       Counters(q)[k] == Counters(p)[k] || Counters(q)[k] == Counters(p)[k] - NUDGE || Counters(q)[k] == Counters(p)[k] + NUDGE) &&
    (forall k, l :: 0 <= k < 6 && 0 <= l < 6 && Counters(q)[k] != Counters(p)[k] && Counters(q)[l] != Counters(p)[l] ==> k == l)
  }

  /** The effect of one keystroke: the mode is selected first, then the
      axis key (if any) moves the counter of the mode now in force. */
  function Step(p: Pose, key: char): (q: Pose)
    // r/R select rotate, t/T select translate, no other key changes the mode
    ensures q.mode == (if key == 'r' || key == 'R' then Rotate
                       else if key == 't' || key == 'T' then Translate
                       else p.mode)
    // a key that is not an axis key (mode keys, 'i', anything else) moves no counter
    ensures !IsAxisKey(key) ==> Counters(q) == Counters(p)
    // at most one counter changes, and then by exactly NUDGE
    ensures AtMostOneNudge(p, q)
    // an axis key always changes a counter
    ensures IsAxisKey(key) ==> Counters(q) != Counters(p)
  {
    var p' := p.(mode := NextMode(p.mode, key));
    match MoveOf(p'.mode, key)
    case NoMove => p'
    case Move(k, d) => WithCounter(p', k, Counters(p')[k] + d)
  }

  /** In rotate mode x/y/z decrease and X/Y/Z increase the angles; the
      positions and the mode stay as they are. */
  lemma RotateKeys(p: Pose, key: char)
    requires p.mode == Rotate
    ensures key == 'x' ==> Step(p, key) == p.(xangle := p.xangle - 5)
    ensures key == 'y' ==> Step(p, key) == p.(yangle := p.yangle - 5)
    ensures key == 'z' ==> Step(p, key) == p.(zangle := p.zangle - 5)
    ensures key == 'X' ==> Step(p, key) == p.(xangle := p.xangle + 5)
    ensures key == 'Y' ==> Step(p, key) == p.(yangle := p.yangle + 5)
    ensures key == 'Z' ==> Step(p, key) == p.(zangle := p.zangle + 5)
  {
  }

  /** In translate mode the same keys move the positions instead. */
  lemma TranslateKeys(p: Pose, key: char)
    requires p.mode == Translate
    ensures key == 'x' ==> Step(p, key) == p.(xpos := p.xpos - 5)
    ensures key == 'y' ==> Step(p, key) == p.(ypos := p.ypos - 5)
    ensures key == 'z' ==> Step(p, key) == p.(zpos := p.zpos - 5)
    ensures key == 'X' ==> Step(p, key) == p.(xpos := p.xpos + 5)
    ensures key == 'Y' ==> Step(p, key) == p.(ypos := p.ypos + 5)
    ensures key == 'Z' ==> Step(p, key) == p.(zpos := p.zpos + 5)
  {
  }

  /** The key that undoes an axis key: the same letter in the other case. */
  function Opposite(key: char): (o: char)
    ensures IsAxisKey(key) <==> IsAxisKey(o)
    ensures !IsAxisKey(key) ==> o == key
  {
    match key
    case 'x' => 'X'
    case 'y' => 'Y'
    case 'z' => 'Z'
    case 'X' => 'x'
    case 'Y' => 'y'
    case 'Z' => 'z'
    case _ => key
  }

  /** An axis key followed by its opposite restores the exact prior state,
      whichever of the two comes first. */
  lemma UndoStep(p: Pose, key: char)
    requires IsAxisKey(key)
    ensures Step(Step(p, key), Opposite(key)) == p
    ensures Step(Step(p, Opposite(key)), key) == p
  {
  }

  /** The state after a sequence of keystrokes. */
  function Run(p: Pose, keys: seq<char>): Pose
    decreases |keys|
  {
    if keys == [] then p else Run(Step(p, keys[0]), keys[1..])
  }

  lemma {:induction false} RunAppend(p: Pose, a: seq<char>, b: seq<char>)
    ensures Run(p, a + b) == Run(Run(p, a), b)
    decreases |a|
  {
    if a == [] {
      assert a + b == b;
    } else {
      assert (a + b)[1..] == a[1..] + b;
      RunAppend(Step(p, a[0]), a[1..], b);
    }
  }

  /** Every counter is a multiple of NUDGE. */
  predicate OnStepGrid(p: Pose) {
    forall k :: 0 <= k < 6 ==> Counters(p)[k] % NUDGE == 0
  }

  /** Since every keystroke moves a counter by 0 or NUDGE, a state whose
      counters are multiples of NUDGE keeps them so over any session. */
  lemma {:induction false} RunKeepsStepGrid(p: Pose, keys: seq<char>)
    requires OnStepGrid(p)
    ensures OnStepGrid(Run(p, keys))
    decreases |keys|
  {
    if keys != [] {
      var q := Step(p, keys[0]);
      forall k | 0 <= k < 6 ensures Counters(q)[k] % NUDGE == 0 {
        assert Counters(p)[k] % NUDGE == 0;
      }
      RunKeepsStepGrid(q, keys[1..]);
    }
  }

  /** Every state reachable from the initial state has all counters on the step grid. */
  lemma ReachableOnStepGrid(keys: seq<char>)
    ensures OnStepGrid(Run(Initial, keys))
  {
    RunKeepsStepGrid(Initial, keys);
  }

  /** The mode selected by the last mode key of a session, or m if there is none. */
  function LastMode(m: Mode, keys: seq<char>): Mode
    decreases |keys|
  {
    if keys == [] then m
    else if IsModeKey(keys[|keys| - 1]) then NextMode(m, keys[|keys| - 1])
    else LastMode(m, keys[..|keys| - 1])
  }

  /** Only the mode keys decide the mode: after a session the mode is the one
      the last mode key selected. */
  lemma {:induction false} RunMode(p: Pose, keys: seq<char>)
    ensures Run(p, keys).mode == LastMode(p.mode, keys)
    decreases |keys|
  {
    if keys != [] {
      var n := |keys| - 1;
      var front := keys[..n];
      assert keys == front + [keys[n]];
      RunAppend(p, front, [keys[n]]);
      RunMode(p, front);
    }
  }

  /** After n keystrokes no counter has moved by more than n steps. */
  lemma {:induction false} RunDrift(p: Pose, keys: seq<char>, k: nat)
    requires k < 6
    ensures -NUDGE * |keys| <= Counters(Run(p, keys))[k] - Counters(p)[k] <= NUDGE * |keys|
    decreases |keys|
  {
    if keys != [] {
      var q := Step(p, keys[0]);
      RunDrift(q, keys[1..], k);
    }
  }

  /** The keys that undo a sequence of keystrokes: opposites in reverse order. */
  function Undoing(keys: seq<char>): (u: seq<char>)
    ensures |u| == |keys|
    ensures forall k :: 0 <= k < |u| ==> u[k] == Opposite(keys[|keys| - 1 - k])
    decreases |keys|
  {
    if keys == [] then [] else Undoing(keys[1..]) + [Opposite(keys[0])]
  }

  /** A session without mode keys is undone exactly by its opposites in reverse order. */
  lemma {:induction false} UndoRun(p: Pose, keys: seq<char>)
    requires forall k :: 0 <= k < |keys| ==> !IsModeKey(keys[k])
    ensures Run(p, keys + Undoing(keys)) == p
    decreases |keys|
  {
    if keys != [] {
      var c, rest := keys[0], keys[1..];
      var q := Step(p, c);
      assert keys + Undoing(keys) == [c] + ((rest + Undoing(rest)) + [Opposite(c)]);
      assert Run(p, keys + Undoing(keys)) == Run(q, (rest + Undoing(rest)) + [Opposite(c)]);
      RunAppend(q, rest + Undoing(rest), [Opposite(c)]);
      UndoRun(q, rest);
      if IsAxisKey(c) {
        UndoStep(p, c);
      }
      assert Run(q, [Opposite(c)]) == Step(q, Opposite(c));
    }
  }

  /** The program's transform globals, updated in place by the keyboard callback. */
  class Transform {
    var xangle: int
    var yangle: int
    var zangle: int
    var xpos: int
    var ypos: int
    var zpos: int
    var mode: Mode

    function State(): Pose
      reads this
    {
      Pose(xangle, yangle, zangle, xpos, ypos, zpos, mode)
    }

    /** The invariant every keystroke keeps: all counters are multiples of NUDGE. */
    ghost predicate Valid()
      reads this
    {
      OnStepGrid(State())
    }

    constructor ()
      ensures State() == Initial
      ensures Valid()
    {
      xangle, yangle, zangle := 0, 0, 0;
      xpos, ypos, zpos := 0, 0, 0;
      mode := Rotate;
    }

    /** The keyboard callback.  Returns whether the surface is to be
        regenerated (the 'i' key); the caller then reinitialises the
        surface and its normals. */
    method Key(key: char) returns (regenerate: bool)
      requires Valid()
      modifies this
      ensures Valid()
      ensures regenerate <==> key == 'i'
      ensures State() == Step(old(State()), key)
    {
      regenerate := key == 'i';

      if key == 'r' || key == 'R' {
        mode := Rotate;
      } else if key == 't' || key == 'T' {
        mode := Translate;
      }

      if mode == Rotate {
        if key == 'x' {
          xangle := xangle - NUDGE;
        } else if key == 'y' {
          yangle := yangle - NUDGE;
        } else if key == 'z' {
          zangle := zangle - NUDGE;
        } else if key == 'X' {
          xangle := xangle + NUDGE;
        } else if key == 'Y' {
          yangle := yangle + NUDGE;
        } else if key == 'Z' {
          zangle := zangle + NUDGE;
        }
      }

      if mode == Translate {
        if key == 'x' {
          xpos := xpos - NUDGE;
        } else if key == 'y' {
          ypos := ypos - NUDGE;
        } else if key == 'z' {
          zpos := zpos - NUDGE;
        } else if key == 'X' {
          xpos := xpos + NUDGE;
        } else if key == 'Y' {
          ypos := ypos + NUDGE;
        } else if key == 'Z' {
          zpos := zpos + NUDGE;
        }
      }

      RunKeepsStepGrid(old(State()), [key]);
    }
  }
}
