/** The input translator of src/input.rs: device readings to action events,
    appended to the action bus in emission order. */
module Input {
  import opened Engine
  import opened Player

  /** A stick axis must exceed this in absolute value to emit. */
  const StickThreshold: real := 0.01

  /** An analog button must read above this to emit. */
  const ButtonThreshold: real := 0.1

  /** The stick vector the keyboard's F key aims along. */
  const KeyboardAim: real := 0.5

  /** The position of each kind of action in one source's emission order. */
  function Rank(a: PlayerAction): nat
  {
    match a
    case Move(_, _) => 0
    case Jump(_) => 1
    case Aim(_, _, _) => 2
    case Fire(_) => 3
  }

  // ----- gamepads -----

  /** Whether `r` holds an action of the given rank. */
  predicate Emits(r: seq<PlayerAction>, rank: nat)
  {
    exists i :: 0 <= i < |r| && Rank(r[i]) == rank
  }

  lemma EmitsConcat(r: seq<PlayerAction>, s: seq<PlayerAction>, rank: nat)
    ensures Emits(r + s, rank) <==> Emits(r, rank) || Emits(s, rank)
  {
    if Emits(r + s, rank) {
      var i :| 0 <= i < |r + s| && Rank((r + s)[i]) == rank;
      if i >= |r| {
        assert s[i - |r|] == (r + s)[i];
      }
    }
    if Emits(r, rank) {
      var i :| 0 <= i < |r| && Rank(r[i]) == rank;
      assert (r + s)[i] == r[i];
    }
    if Emits(s, rank) {
      var i :| 0 <= i < |s| && Rank(s[i]) == rank;
      assert (r + s)[|r| + i] == s[i];
    }
  }

  lemma EmitsConcat4(a: seq<PlayerAction>, b: seq<PlayerAction>, c: seq<PlayerAction>, d: seq<PlayerAction>, rank: nat)
    ensures Emits(a + b + c + d, rank) <==> Emits(a, rank) || Emits(b, rank) || Emits(c, rank) || Emits(d, rank)
  {
    EmitsConcat(a, b, rank);
    EmitsConcat(a + b, c, rank);
    EmitsConcat(a + b + c, d, rank);
  }

  /** `Some` action when the condition holds, as a zero- or one-element run. */
  function When(c: bool, a: PlayerAction): (r: seq<PlayerAction>)
    ensures |r| <= 1 && (r != [] <==> c) && (c ==> r[0] == a)
  {
    if c then [a] else []
  }

  lemma WhenEmits(c: bool, a: PlayerAction)
    ensures forall rank: nat :: Emits(When(c, a), rank) <==> c && Rank(a) == rank
  {
    if c {
      assert When(c, a)[0] == a;
    }
  }

  /** The events one source emits for character `e`: Move along `dir`, Jump,
      Aim along (`x`, `y`) and Fire, in that order, each only when its
      condition holds. */
  function Emission(e: Entity, dir: real, x: real, y: real, move: bool, jump: bool, aim: bool, fire: bool): seq<PlayerAction>
  {
    When(move, Move(e, dir)) + When(jump, Jump(e)) + When(aim, Aim(e, x, y)) + When(fire, Fire(e))
  }

  /** Strictly increasing ranks from each action to the next: at most one
      action of each kind, in emission order. */
  predicate Ordered(r: seq<PlayerAction>)
  {
    forall i :: 0 <= i < |r| - 1 ==> Rank(r[i]) < Rank(r[i + 1])
  }

  /** The last action of `r`, if any, ranks below `k`. */
  predicate EndsBelow(r: seq<PlayerAction>, k: nat)
  {
    r != [] ==> Rank(r[|r| - 1]) < k
  }

  /** Ordered runs have pairwise increasing ranks. */
  lemma {:induction false} OrderedPairwise(r: seq<PlayerAction>, i: nat, j: nat)
    requires Ordered(r) && i < j < |r|
    ensures Rank(r[i]) < Rank(r[j])
    decreases j - i
  {
    if i + 1 < j {
      OrderedPairwise(r, i + 1, j);
    }
  }

  /** Every action in `r` targets `e`, every Move moves along `dir` and every
      Aim aims along (`x`, `y`). */
  predicate Carries(r: seq<PlayerAction>, e: Entity, dir: real, x: real, y: real)
  {
    forall i :: 0 <= i < |r| ==>
      && r[i].target == e
      && (r[i].Move? ==> r[i].dir == dir)
      && (r[i].Aim? ==> r[i].x == x && r[i].y == y)
  }

  lemma AppendOrdered(r: seq<PlayerAction>, c: bool, a: PlayerAction)
    requires Ordered(r) && EndsBelow(r, Rank(a))
    ensures Ordered(r + When(c, a)) && EndsBelow(r + When(c, a), Rank(a) + 1)
  {
    var s := r + When(c, a);
    assert forall i :: 0 <= i < |r| ==> s[i] == r[i];
    assert |s| > |r| ==> |s| == |r| + 1 && s[|r|] == a;
  }

  lemma AppendCarries(r: seq<PlayerAction>, c: bool, a: PlayerAction, e: Entity, dir: real, x: real, y: real)
    requires Carries(r, e, dir, x, y) && Carries([a], e, dir, x, y)
    ensures Carries(r + When(c, a), e, dir, x, y) && |r + When(c, a)| <= |r| + 1
  {
    var s := r + When(c, a);
    assert forall i :: 0 <= i < |r| ==> s[i] == r[i];
    assert |s| > |r| ==> |s| == |r| + 1 && s[|r|] == a && [a][0] == a;
  }

  /** An emission holds each kind of action exactly when its condition
      holds. */
  lemma EmissionEmits(e: Entity, dir: real, x: real, y: real, move: bool, jump: bool, aim: bool, fire: bool)
    ensures var r := Emission(e, dir, x, y, move, jump, aim, fire);
      (Emits(r, 0) <==> move) && (Emits(r, 1) <==> jump) && (Emits(r, 2) <==> aim) && (Emits(r, 3) <==> fire)
  {
    var mv, jp, am, fr := When(move, Move(e, dir)), When(jump, Jump(e)), When(aim, Aim(e, x, y)), When(fire, Fire(e));
    WhenEmits(move, Move(e, dir));
    WhenEmits(jump, Jump(e));
    WhenEmits(aim, Aim(e, x, y));
    WhenEmits(fire, Fire(e));
    EmitsConcat4(mv, jp, am, fr, 0);
    EmitsConcat4(mv, jp, am, fr, 1);
    EmitsConcat4(mv, jp, am, fr, 2);
    EmitsConcat4(mv, jp, am, fr, 3);
  }

  /** An emission is in rank order: Move before Jump before Aim before Fire. */
  lemma EmissionOrdered(e: Entity, dir: real, x: real, y: real, move: bool, jump: bool, aim: bool, fire: bool)
    ensures Ordered(Emission(e, dir, x, y, move, jump, aim, fire))
  {
    var s0: seq<PlayerAction> := [];
    var mv := When(move, Move(e, dir));
    AppendOrdered(s0, move, Move(e, dir));
    assert s0 + mv == mv;
    AppendOrdered(mv, jump, Jump(e));
    var s2 := mv + When(jump, Jump(e));
    AppendOrdered(s2, aim, Aim(e, x, y));
    var s3 := s2 + When(aim, Aim(e, x, y));
    AppendOrdered(s3, fire, Fire(e));
    assert Emission(e, dir, x, y, move, jump, aim, fire) == s3 + When(fire, Fire(e));
  }

  /** Every action of an emission targets its character and carries its
      direction and aim; it holds at most four actions. */
  lemma EmissionCarries(e: Entity, dir: real, x: real, y: real, move: bool, jump: bool, aim: bool, fire: bool)
    ensures var r := Emission(e, dir, x, y, move, jump, aim, fire);
      Carries(r, e, dir, x, y) && |r| <= 4
  {
    var s0: seq<PlayerAction> := [];
    var mv := When(move, Move(e, dir));
    AppendCarries(s0, move, Move(e, dir), e, dir, x, y);
    assert s0 + mv == mv;
    AppendCarries(mv, jump, Jump(e), e, dir, x, y);
    var s2 := mv + When(jump, Jump(e));
    AppendCarries(s2, aim, Aim(e, x, y), e, dir, x, y);
    var s3 := s2 + When(aim, Aim(e, x, y));
    AppendCarries(s3, fire, Fire(e), e, dir, x, y);
    assert Emission(e, dir, x, y, move, jump, aim, fire) == s3 + When(fire, Fire(e));
  }

  /** Every Aim in `r` comes directly before a Fire at `e`, and every Fire
      directly after an Aim. */
  predicate Paired(r: seq<PlayerAction>, e: Entity)
  {
    && (forall i :: 0 <= i < |r| && r[i].Aim? ==> i + 1 < |r| && r[i + 1] == Fire(e))
    && (forall i :: 0 <= i < |r| && r[i].Fire? ==> 0 < i && r[i - 1].Aim?)
  }

  /** A run of Moves and Jumps, then optionally an Aim and a Fire. */
  lemma PairedTail(s: seq<PlayerAction>, e: Entity, x: real, y: real, f: bool)
    requires forall i :: 0 <= i < |s| ==> s[i].Move? || s[i].Jump?
    ensures Paired(s + (if f then [Aim(e, x, y), Fire(e)] else []), e)
  {
    var r := s + (if f then [Aim(e, x, y), Fire(e)] else []);
    assert forall i :: 0 <= i < |s| ==> r[i] == s[i];
    if f {
      assert r[|s|] == Aim(e, x, y) && r[|s| + 1] == Fire(e) && |r| == |s| + 2;
    }
  }

  /** When Aim and Fire share one condition, the Aim comes directly before
      the Fire. */
  lemma EmissionAimThenFire(e: Entity, dir: real, x: real, y: real, move: bool, jump: bool, f: bool)
    ensures Paired(Emission(e, dir, x, y, move, jump, f, f), e)
  {
    var mv, jp := When(move, Move(e, dir)), When(jump, Jump(e));
    var s2 := mv + jp;
    assert forall i :: 0 <= i < |s2| ==> s2[i] == (if i < |mv| then mv[i] else jp[i - |mv|]);
    PairedTail(s2, e, x, y, f);
    assert When(f, Aim(e, x, y)) + When(f, Fire(e)) == (if f then [Aim(e, x, y), Fire(e)] else []);
    assert Emission(e, dir, x, y, move, jump, f, f) == s2 + (When(f, Aim(e, x, y)) + When(f, Fire(e)));
  }

  /** The condition under which a gamepad emits each kind of action: a stick
      axis beyond the stick threshold (either axis, for Aim), a button above
      the button threshold. */
  predicate MovesStick(p: Gamepad) { Abs(Reading(p.leftStickX)) > StickThreshold }
  predicate PressesSouth(p: Gamepad) { Reading(p.south) > ButtonThreshold }
  predicate AimsStick(p: Gamepad) { Abs(Reading(p.rightStickX)) > StickThreshold || Abs(Reading(p.rightStickY)) > StickThreshold }
  predicate PullsTrigger(p: Gamepad) { Reading(p.rightTrigger) > ButtonThreshold }

  /** The events one gamepad emits: nothing unless its index is bound; then
      the emission of the bound character, moving along the left stick and
      aiming along the right stick. */
  function PadEvents(a: map<nat, Entity>, p: Gamepad): (r: seq<PlayerAction>)
    ensures p.index !in a ==> r == []
    ensures |r| <= 4
    ensures forall i :: 0 <= i < |r| ==> p.index in a && r[i].target == a[p.index]
  {
    if p.index !in a then []
    else
      var x, rx, ry := Reading(p.leftStickX), Reading(p.rightStickX), Reading(p.rightStickY);
      EmissionCarries(a[p.index], x, rx, ry, MovesStick(p), PressesSouth(p), AimsStick(p), PullsTrigger(p));
      Emission(a[p.index], x, rx, ry, MovesStick(p), PressesSouth(p), AimsStick(p), PullsTrigger(p))
  }

  /** A bound gamepad emits each kind of action exactly when its reading
      passes the threshold; its events come in rank order and carry its
      stick readings. */
  lemma PadEventsShape(a: map<nat, Entity>, p: Gamepad)
    requires p.index in a
    ensures var r := PadEvents(a, p);
      && (Emits(r, 0) <==> Abs(Reading(p.leftStickX)) > StickThreshold)
      && (Emits(r, 1) <==> Reading(p.south) > ButtonThreshold)
      && (Emits(r, 2) <==> Abs(Reading(p.rightStickX)) > StickThreshold || Abs(Reading(p.rightStickY)) > StickThreshold)
      && (Emits(r, 3) <==> Reading(p.rightTrigger) > ButtonThreshold)
      && Ordered(r)
      && Carries(r, a[p.index], Reading(p.leftStickX), Reading(p.rightStickX), Reading(p.rightStickY))
  {
    var e, x, rx, ry := a[p.index], Reading(p.leftStickX), Reading(p.rightStickX), Reading(p.rightStickY);
    var move, jump, aim, fire := MovesStick(p), PressesSouth(p), AimsStick(p), PullsTrigger(p);
    assert PadEvents(a, p) == Emission(e, x, rx, ry, move, jump, aim, fire);
    EmissionEmits(e, x, rx, ry, move, jump, aim, fire);
    EmissionOrdered(e, x, rx, ry, move, jump, aim, fire);
    EmissionCarries(e, x, rx, ry, move, jump, aim, fire);
  }

  /** `gamepad_input` over the gamepads, in query order. */
  function GamepadEvents(a: map<nat, Entity>, pads: seq<Gamepad>): (r: seq<PlayerAction>)
    decreases |pads|
    ensures forall i :: 0 <= i < |r| ==> r[i].target in a.Values
    ensures (forall i :: 0 <= i < |pads| ==> pads[i].index !in a) ==> r == []
    ensures |r| <= 4 * |pads|
  {
    if pads == [] then []
    else
      var pre := pads[..|pads| - 1];
      assert forall i :: 0 <= i < |pre| ==> pre[i] == pads[i];
      GamepadEvents(a, pre) + PadEvents(a, pads[|pads| - 1])
  }

  /** `gamepad_input`: for each gamepad, look up its character and append
      the events its readings call for. */
  method GamepadInput(a: map<nat, Entity>, pads: seq<Gamepad>) returns (events: seq<PlayerAction>)
    ensures events == GamepadEvents(a, pads)
  {
    events := [];
    for i := 0 to |pads|
      invariant events == GamepadEvents(a, pads[..i])
    {
      assert pads[..i + 1][..i] == pads[..i];
      var p := pads[i];
      if p.index in a {
        var e := a[p.index];
        var x := Reading(p.leftStickX);
        var mv: seq<PlayerAction> := [];
        if Abs(x) > StickThreshold {
          mv := [Move(e, x)];
        }
        var jp: seq<PlayerAction> := [];
        var jump := Reading(p.south);
        if jump > ButtonThreshold {
          jp := [Jump(e)];
        }
        var am: seq<PlayerAction> := [];
        var rx, ry := Reading(p.rightStickX), Reading(p.rightStickY);
        if Abs(rx) > StickThreshold || Abs(ry) > StickThreshold {
          am := [Aim(e, rx, ry)];
        }
        var fr: seq<PlayerAction> := [];
        var fire := Reading(p.rightTrigger);
        if fire > ButtonThreshold {
          fr := [Fire(e)];
        }
        assert mv == When(MovesStick(p), Move(e, x)) && jp == When(PressesSouth(p), Jump(e));
        assert am == When(AimsStick(p), Aim(e, rx, ry)) && fr == When(PullsTrigger(p), Fire(e));
        assert mv + jp + am + fr == PadEvents(a, p);
        events := events + (mv + jp + am + fr);
      }
      assert GamepadEvents(a, pads[..i + 1]) == GamepadEvents(a, pads[..i]) + PadEvents(a, p);
    }
    assert pads[..|pads|] == pads;
  }

  // ----- keyboard -----

  /** The keys `keyboard_input` reads: the direction keys as held, Space, F
      and Enter as just pressed this frame. */
  datatype Keyboard = Keyboard(
    keyA: bool, arrowLeft: bool, keyD: bool, arrowRight: bool,
    space: bool, keyF: bool, enter: bool)

  /** The digital direction `right - left`. */
  function Direction(kb: Keyboard): (d: real)
    ensures d == -1.0 || d == 0.0 || d == 1.0
    ensures d == 1.0 <==> (kb.keyD || kb.arrowRight) && !(kb.keyA || kb.arrowLeft)
    ensures d == -1.0 <==> (kb.keyA || kb.arrowLeft) && !(kb.keyD || kb.arrowRight)
  {
    var left := kb.keyA || kb.arrowLeft;
    var right := kb.keyD || kb.arrowRight;
    ((if right then 1 else 0) - (if left then 1 else 0)) as real
  }

  /** The events the keyboard emits for the character it drives, if any:
      Move on a non-zero direction, Jump on Space, and on F an Aim along
      (0.5, 0.5) followed by a Fire. */
  function KeyboardEvents(kb: Keyboard, target: Option<Entity>): (r: seq<PlayerAction>)
    ensures target.None? ==> r == []
  {
    match target
    case None => []
    case Some(e) =>
      var d := Direction(kb);
      Emission(e, d, KeyboardAim, KeyboardAim, d != 0.0, kb.space, kb.keyF, kb.keyF)
  }

  /** The keyboard emits Move exactly on a non-zero direction, Jump exactly
      on Space, and Aim and Fire exactly on F. */
  lemma KeyboardEventsEmit(kb: Keyboard, e: Entity)
    ensures var r := KeyboardEvents(kb, Some(e));
      && (Emits(r, 0) <==> Direction(kb) != 0.0)
      && (Emits(r, 1) <==> kb.space)
      && (Emits(r, 2) <==> kb.keyF)
      && (Emits(r, 3) <==> kb.keyF)
  {
    var d := Direction(kb);
    assert KeyboardEvents(kb, Some(e)) == Emission(e, d, KeyboardAim, KeyboardAim, d != 0.0, kb.space, kb.keyF, kb.keyF);
    EmissionEmits(e, d, KeyboardAim, KeyboardAim, d != 0.0, kb.space, kb.keyF, kb.keyF);
  }

  /** Every keyboard event targets the driven character, a Move moves along
      the direction and an Aim aims along (0.5, 0.5); the events come in rank
      order, at most four, with the Aim directly before the Fire. */
  lemma KeyboardEventsShape(kb: Keyboard, e: Entity)
    ensures var r := KeyboardEvents(kb, Some(e));
      && |r| <= 4
      && Ordered(r)
      && Carries(r, e, Direction(kb), KeyboardAim, KeyboardAim)
      && Paired(r, e)
  {
    var d := Direction(kb);
    assert KeyboardEvents(kb, Some(e)) == Emission(e, d, KeyboardAim, KeyboardAim, d != 0.0, kb.space, kb.keyF, kb.keyF);
    EmissionOrdered(e, d, KeyboardAim, KeyboardAim, d != 0.0, kb.space, kb.keyF, kb.keyF);
    EmissionCarries(e, d, KeyboardAim, KeyboardAim, d != 0.0, kb.space, kb.keyF, kb.keyF);
    EmissionAimThenFire(e, d, KeyboardAim, KeyboardAim, d != 0.0, kb.space, kb.keyF);
  }

  /** The event half of `keyboard_input`: the character it drives is some
      value of the assignments (the map's first value in its own iteration
      order, which the model leaves open), or none when nothing is bound. */
  method KeyboardActions(kb: Keyboard, a: map<nat, Entity>) returns (events: seq<PlayerAction>, target: Option<Entity>)
    ensures target.Some? <==> a != map[]
    ensures target.Some? ==> target.value in a.Values
    ensures events == KeyboardEvents(kb, target)
  {
    if a == map[] {
      target := None;
    } else {
      var k :| k in a;
      target := Some(a[k]);
    }
    events := [];
    var d := Direction(kb);
    if d != 0.0 && target.Some? {
      events := events + [Move(target.value, d)];
    }
    if kb.space && target.Some? {
      events := events + [Jump(target.value)];
    }
    if kb.keyF && target.Some? {
      events := events + [Aim(target.value, KeyboardAim, KeyboardAim)];
      events := events + [Fire(target.value)];
    }
  }
}
