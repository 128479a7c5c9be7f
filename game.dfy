/** The game systems of src/game.rs: spawning a character per gamepad (the
    player-assignment table's check-then-insert) and the projectile
    lifecycle, as functions on the parts of the world they write. */
module Game {
  import opened Engine
  import opened Player

  /** A South button reading above this spawns (and jumps). */
  const PressThreshold: real := 0.1

  const GamepadJumpImpulse: real := 1200.0
  const KeyboardJumpImpulse: real := 800.0

  /** The assignment key the keyboard's Enter spawn writes. */
  const KeyboardKey: nat := 5

  /** The spawn position of every character. */
  const SpawnPoint: Vec2 := Vec2(50.0, -100.0)

  /** The tuning both spawners pass to `with_movement`: 30 degrees of slope,
      converted to radians as `30 * (pi / 180)`. */
  function CharacterMovement(t: Trig, jump: real): MovementBundle
  {
    MovementBundle(1250.0, 0.92, jump, 0.0, 30.0 * (t.pi / 180.0), 0.0)
  }

  /** A freshly spawned character. */
  function NewCharacter(t: Trig, jump: real): (c: Controller)
    ensures c.acceleration == 1250.0 && c.damping == 0.92 && c.jumpImpulse == jump
    ensures c.maxSlope == Some(30.0 * (t.pi / 180.0)) && c.fire == 0.0 && c.aim == 0.0
    ensures !c.grounded && c.vel == Vec2(0.0, 0.0) && c.pos == SpawnPoint
  {
    FromBundle(CharacterMovement(t, jump), SpawnPoint)
  }

  // ----- spawning and the assignment table -----

  /** The part of the world a spawn writes: the player assignments
      (gamepad or keyboard key to character), the controllers, the guns and
      the next free entity handle. */
  datatype Roster = Roster(assignments: map<nat, Entity>, controllers: map<Entity, Controller>, guns: seq<Gun>, nextId: nat)

  /** No character is the target of two control sources: distinct keys of
      the assignment table name distinct characters. */
  predicate OneSourceEach(a: map<nat, Entity>)
  {
    forall k1, k2 :: k1 in a && k2 in a && k1 != k2 ==> a[k1] != a[k2]
  }

  /** Every handle in use is below `nextId`, so the counter yields fresh
      handles; each character has at most one gun; every assignment names a
      live character, and no character is named by two assignments. */
  predicate RosterValid(r: Roster)
  {
    && (forall e :: e in r.controllers ==> e < r.nextId)
    && (forall i :: 0 <= i < |r.guns| ==> r.guns[i].id < r.nextId && r.guns[i].parent < r.nextId)
    && ParentsDistinct(r.guns)
    && (forall k :: k in r.assignments ==> r.assignments[k] in r.controllers)
    && OneSourceEach(r.assignments)
  }

  /** Spawn one character with its gun as a child and bind it under `key`:
      `assignments.players.insert(key, entity)`. */
  function SpawnFor(t: Trig, r: Roster, key: nat, jump: real): (s: Roster)
    ensures s.assignments.Keys == r.assignments.Keys + {key} && s.assignments[key] == r.nextId
    ensures s.controllers.Keys == r.controllers.Keys + {r.nextId} && s.controllers[r.nextId] == NewCharacter(t, jump)
    ensures |s.guns| == |r.guns| + 1 && s.guns[..|r.guns|] == r.guns && s.guns[|r.guns|] == Gun(r.nextId + 1, r.nextId, 0.0)
    ensures s.nextId == r.nextId + 2
  {
    Roster(r.assignments[key := r.nextId],
           r.controllers[r.nextId := NewCharacter(t, jump)],
           r.guns + [Gun(r.nextId + 1, r.nextId, 0.0)],
           r.nextId + 2)
  }

  /** A spawn binds `key` to a character no other key names, whether `key`
      was free or (the keyboard's Enter) already bound: the character it
      named before loses that binding. */
  lemma SpawnForInjective(t: Trig, r: Roster, key: nat, jump: real)
    requires RosterValid(r)
    ensures OneSourceEach(SpawnFor(t, r, key, jump).assignments)
  {
    var a := SpawnFor(t, r, key, jump).assignments;
    forall k1, k2 | k1 in a && k2 in a && k1 != k2
      ensures a[k1] != a[k2]
    {
      if k1 == key {
        assert a[k2] == r.assignments[k2] < r.nextId;
      } else if k2 == key {
        assert a[k1] == r.assignments[k1] < r.nextId;
      } else {
        assert a[k1] == r.assignments[k1] && a[k2] == r.assignments[k2];
      }
    }
  }

  /** A spawn keeps the roster valid and gives the new character its gun. */
  lemma SpawnForValid(t: Trig, r: Roster, key: nat, jump: real)
    requires RosterValid(r)
    ensures RosterValid(SpawnFor(t, r, key, jump))
    ensures IsParent(SpawnFor(t, r, key, jump).guns, r.nextId)
  {
    SpawnForInjective(t, r, key, jump);
    var s := SpawnFor(t, r, key, jump);
    assert s.guns[|r.guns|].parent == r.nextId;
    assert forall i :: 0 <= i < |r.guns| ==> s.guns[i] == r.guns[i];
  }

  /** A spawn creates exactly one new character under a fresh handle, binds
      `key` to it and leaves every other binding alone; a character that was
      bound under `key` before stays alive but is no longer bound there. */
  lemma SpawnForFacts(t: Trig, r: Roster, key: nat, jump: real)
    requires RosterValid(r)
    ensures var s := SpawnFor(t, r, key, jump);
      && RosterValid(s)
      && r.nextId !in r.controllers
      && s.controllers.Keys == r.controllers.Keys + {r.nextId}
      && |s.controllers| == |r.controllers| + 1
      && s.assignments.Keys == r.assignments.Keys + {key}
      && s.assignments[key] == r.nextId
      && s.controllers[r.nextId] == NewCharacter(t, jump)
      && IsParent(s.guns, r.nextId)
      && (forall e :: e in r.controllers ==> s.controllers[e] == r.controllers[e])
      && (forall k :: k in r.assignments && k != key ==> s.assignments[k] == r.assignments[k])
      && (key in r.assignments ==> r.assignments[key] in s.controllers && r.assignments[key] != s.assignments[key])
  {
    SpawnForValid(t, r, key, jump);
    SpawnForCharacters(t, r, key, jump);
    SpawnForBindings(t, r, key, jump);
  }

  lemma SpawnForCharacters(t: Trig, r: Roster, key: nat, jump: real)
    requires RosterValid(r)
    ensures var s := SpawnFor(t, r, key, jump);
      && r.nextId !in r.controllers
      && s.controllers.Keys == r.controllers.Keys + {r.nextId}
      && |s.controllers| == |r.controllers| + 1
      && s.controllers[r.nextId] == NewCharacter(t, jump)
      && (forall e :: e in r.controllers ==> s.controllers[e] == r.controllers[e])
  {
  }

  lemma SpawnForBindings(t: Trig, r: Roster, key: nat, jump: real)
    requires RosterValid(r)
    ensures var s := SpawnFor(t, r, key, jump);
      && s.assignments.Keys == r.assignments.Keys + {key}
      && s.assignments[key] == r.nextId
      && (forall k :: k in r.assignments && k != key ==> s.assignments[k] == r.assignments[k])
      && (key in r.assignments ==> r.assignments[key] in s.controllers && r.assignments[key] != s.assignments[key])
  {
  }

  predicate Pressed(p: Gamepad)
  {
    Reading(p.south) > PressThreshold
  }

  /** `spawn_character` for one gamepad: spawn only when South is pressed and
      the gamepad's index is not yet a key (check-then-insert). */
  function SpawnStep(t: Trig, r: Roster, p: Gamepad): (s: Roster)
    ensures s.assignments.Keys == r.assignments.Keys + (if Pressed(p) then {p.index} else {})
    ensures s == r <==> !Pressed(p) || p.index in r.assignments
  {
    if Pressed(p) && p.index !in r.assignments then SpawnFor(t, r, p.index, GamepadJumpImpulse) else r
  }

  /** `spawn_character` over the gamepads, in query order. */
  function SpawnAll(t: Trig, r: Roster, pads: seq<Gamepad>): (s: Roster)
    decreases |pads|
    ensures r.assignments.Keys <= s.assignments.Keys && r.controllers.Keys <= s.controllers.Keys
    ensures r.nextId <= s.nextId && |r.guns| <= |s.guns|
  {
    if pads == [] then r
    else SpawnStep(t, SpawnAll(t, r, pads[..|pads| - 1]), pads[|pads| - 1])
  }

  /** The Enter spawn of `keyboard_input`: no `contains_key` guard, key 5. */
  function KeyboardSpawn(t: Trig, r: Roster): (s: Roster)
    ensures s.assignments.Keys == r.assignments.Keys + {KeyboardKey} && s.assignments[KeyboardKey] == r.nextId
    ensures s.controllers.Keys == r.controllers.Keys + {r.nextId}
    ensures s.controllers[r.nextId] == NewCharacter(t, KeyboardJumpImpulse)
    ensures |s.guns| == |r.guns| + 1 && s.guns[..|r.guns|] == r.guns && IsParent(s.guns, r.nextId)
  {
    var s := SpawnFor(t, r, KeyboardKey, KeyboardJumpImpulse);
    assert s.guns[|r.guns|].parent == r.nextId;
    s
  }

  lemma {:induction false} SpawnAllValid(t: Trig, r: Roster, pads: seq<Gamepad>)
    requires RosterValid(r)
    ensures RosterValid(SpawnAll(t, r, pads))
    decreases |pads|
  {
    if pads != [] {
      var pre := pads[..|pads| - 1];
      SpawnAllValid(t, r, pre);
      var m := SpawnAll(t, r, pre);
      SpawnForFacts(t, m, pads[|pads| - 1].index, GamepadJumpImpulse);
    }
  }

  /** Presses from gamepads that are all bound already change nothing. */
  lemma {:induction false} SpawnAllIgnoresBound(t: Trig, r: Roster, pads: seq<Gamepad>)
    requires forall i :: 0 <= i < |pads| && Pressed(pads[i]) ==> pads[i].index in r.assignments
    ensures SpawnAll(t, r, pads) == r
    decreases |pads|
  {
    if pads != [] {
      SpawnAllIgnoresBound(t, r, pads[..|pads| - 1]);
    }
  }

  /** Spawning never unbinds or rebinds a key, never removes a character, and
      only appends guns. */
  lemma {:induction false} SpawnAllKeepsOld(t: Trig, r: Roster, pads: seq<Gamepad>)
    requires RosterValid(r)
    ensures var s := SpawnAll(t, r, pads);
      && (forall k :: k in r.assignments ==> k in s.assignments && s.assignments[k] == r.assignments[k])
      && (forall e :: e in r.controllers ==> e in s.controllers && s.controllers[e] == r.controllers[e])
      && |s.guns| >= |r.guns| && s.guns[..|r.guns|] == r.guns
      && s.nextId >= r.nextId
    decreases |pads|
  {
    if pads != [] {
      var pre := pads[..|pads| - 1];
      var p := pads[|pads| - 1];
      SpawnAllKeepsOld(t, r, pre);
      SpawnAllValid(t, r, pre);
      var m := SpawnAll(t, r, pre);
      if Pressed(p) && p.index !in m.assignments {
        SpawnForCharacters(t, m, p.index, GamepadJumpImpulse);
        SpawnForBindings(t, m, p.index, GamepadJumpImpulse);
        var s := SpawnAll(t, r, pads);
        assert s.guns[..|r.guns|] == m.guns[..|r.guns|];
      }
    }
  }

  /** After spawning, the bound keys are the old ones plus the index of
      every gamepad whose South button was pressed. */
  lemma {:induction false} SpawnAllKeys(t: Trig, r: Roster, pads: seq<Gamepad>, k: nat)
    ensures k in SpawnAll(t, r, pads).assignments <==>
      k in r.assignments || exists i :: 0 <= i < |pads| && Pressed(pads[i]) && pads[i].index == k
    decreases |pads|
  {
    if pads != [] {
      var pre := pads[..|pads| - 1];
      SpawnAllKeys(t, r, pre, k);
      assert forall i :: 0 <= i < |pre| ==> pre[i] == pads[i];
      if exists i :: 0 <= i < |pads| && Pressed(pads[i]) && pads[i].index == k {
        var i :| 0 <= i < |pads| && Pressed(pads[i]) && pads[i].index == k;
        if i < |pre| {
          assert Pressed(pre[i]) && pre[i].index == k;
        }
      }
    }
  }

  /** A parent keeps its gun when guns are only appended. */
  lemma ParentKept(gs: seq<Gun>, hs: seq<Gun>, c: Entity)
    requires |gs| <= |hs| && hs[..|gs|] == gs && IsParent(gs, c)
    ensures IsParent(hs, c)
  {
    var i :| 0 <= i < |gs| && gs[i].parent == c;
    assert hs[i] == gs[i];
  }

  /** Every newly bound key names a new character (a handle not in use
      before), with the gamepad tuning and a gun of its own. */
  lemma {:induction false} SpawnAllNewBindings(t: Trig, r: Roster, pads: seq<Gamepad>)
    requires RosterValid(r)
    ensures var s := SpawnAll(t, r, pads);
      forall k :: k in s.assignments && k !in r.assignments ==>
        var c := s.assignments[k];
        r.nextId <= c && c in s.controllers && s.controllers[c] == NewCharacter(t, GamepadJumpImpulse) && IsParent(s.guns, c)
    decreases |pads|
  {
    if pads != [] {
      var pre := pads[..|pads| - 1];
      var p := pads[|pads| - 1];
      SpawnAllNewBindings(t, r, pre);
      SpawnAllValid(t, r, pre);
      SpawnAllKeepsOld(t, r, pre);
      var m := SpawnAll(t, r, pre);
      if Pressed(p) && p.index !in m.assignments {
        SpawnForCharacters(t, m, p.index, GamepadJumpImpulse);
        SpawnForBindings(t, m, p.index, GamepadJumpImpulse);
        SpawnForValid(t, m, p.index, GamepadJumpImpulse);
        var s := SpawnAll(t, r, pads);
        forall k | k in s.assignments && k !in r.assignments && k != p.index
          ensures IsParent(s.guns, s.assignments[k])
        {
          ParentKept(m.guns, s.guns, s.assignments[k]);
        }
      }
    }
  }

  /** Conversely, every new character is bound under a key that was unbound
      before: no spawn happens without its binding. */
  lemma {:induction false} SpawnAllNewBound(t: Trig, r: Roster, pads: seq<Gamepad>)
    requires RosterValid(r)
    ensures var s := SpawnAll(t, r, pads);
      forall c :: c in s.controllers && c !in r.controllers ==>
        exists k :: k in s.assignments && k !in r.assignments && s.assignments[k] == c
    decreases |pads|
  {
    if pads != [] {
      var pre := pads[..|pads| - 1];
      var p := pads[|pads| - 1];
      SpawnAllNewBound(t, r, pre);
      SpawnAllValid(t, r, pre);
      var m := SpawnAll(t, r, pre);
      if Pressed(p) && p.index !in m.assignments {
        SpawnForBindings(t, m, p.index, GamepadJumpImpulse);
        var s := SpawnAll(t, r, pads);
        forall c | c in s.controllers && c !in r.controllers
          ensures exists k :: k in s.assignments && k !in r.assignments && s.assignments[k] == c
        {
          if c == m.nextId {
            assert s.assignments[p.index] == c;
          } else {
            var k :| k in m.assignments && k !in r.assignments && m.assignments[k] == c;
            assert s.assignments[k] == c;
          }
        }
      }
    }
  }

  /** Distinct newly bound keys name distinct characters. */
  lemma {:induction false} SpawnAllNewDistinct(t: Trig, r: Roster, pads: seq<Gamepad>)
    requires RosterValid(r)
    ensures var s := SpawnAll(t, r, pads);
      forall k1, k2 :: k1 in s.assignments && k2 in s.assignments && k1 !in r.assignments && k2 !in r.assignments && k1 != k2 ==>
        s.assignments[k1] != s.assignments[k2]
    decreases |pads|
  {
    if pads != [] {
      var pre := pads[..|pads| - 1];
      var p := pads[|pads| - 1];
      SpawnAllNewDistinct(t, r, pre);
      SpawnAllValid(t, r, pre);
      var m := SpawnAll(t, r, pre);
      if Pressed(p) && p.index !in m.assignments {
        SpawnForBindings(t, m, p.index, GamepadJumpImpulse);
        assert forall k :: k in m.assignments ==> m.assignments[k] < m.nextId;
      }
    }
  }

  /** Two fresh pressed gamepads in one query: two calls of `SpawnFor` in
      query order. */
  lemma TwoGamepadsUnfold(t: Trig, r: Roster, p1: Gamepad, p2: Gamepad)
    requires Pressed(p1) && Pressed(p2) && p1.index != p2.index
    requires p1.index !in r.assignments && p2.index !in r.assignments
    ensures SpawnAll(t, r, [p1, p2]) ==
      SpawnFor(t, SpawnFor(t, r, p1.index, GamepadJumpImpulse), p2.index, GamepadJumpImpulse)
  {
    assert [p1, p2][..1] == [p1];
    assert [p1][..0] == [];
    var s1 := SpawnFor(t, r, p1.index, GamepadJumpImpulse);
    assert SpawnAll(t, r, [p1]) == SpawnStep(t, r, p1) == s1;
    assert p2.index !in s1.assignments;
  }

  /** The scenario of two unbound gamepads pressing in one frame: two distinct
      characters are spawned and bound; a later press from either spawns nothing. */
  lemma TwoGamepadsSpawnTwo(t: Trig, r: Roster, p1: Gamepad, p2: Gamepad)
    requires RosterValid(r)
    requires Pressed(p1) && Pressed(p2) && p1.index != p2.index
    requires p1.index !in r.assignments && p2.index !in r.assignments
    ensures var s := SpawnAll(t, r, [p1, p2]);
      && |s.controllers| == |r.controllers| + 2
      && p1.index in s.assignments && p2.index in s.assignments
      && s.assignments[p1.index] != s.assignments[p2.index]
      && SpawnAll(t, s, [p1]) == s && SpawnAll(t, s, [p2]) == s
  {
    TwoGamepadsUnfold(t, r, p1, p2);
    var s1 := SpawnFor(t, r, p1.index, GamepadJumpImpulse);
    SpawnForValid(t, r, p1.index, GamepadJumpImpulse);
    SpawnForCharacters(t, r, p1.index, GamepadJumpImpulse);
    var s := SpawnFor(t, s1, p2.index, GamepadJumpImpulse);
    SpawnForCharacters(t, s1, p2.index, GamepadJumpImpulse);
    SpawnForBindings(t, s1, p2.index, GamepadJumpImpulse);
    assert s.assignments[p1.index] == r.nextId;
    assert [p1][..0] == [];
    assert SpawnAll(t, s, [p1]) == SpawnStep(t, s, p1);
    assert [p2][..0] == [];
    assert SpawnAll(t, s, [p2]) == SpawnStep(t, s, p2);
  }

  // ----- projectile lifecycle -----

  /** A live projectile one frame on: moved by velocity times delta time,
      lifetime reduced by delta time. */
  function Advance(p: Projectile, dt: real): (q: Projectile)
    ensures q.vel == p.vel && q.rotation == p.rotation && q.lifetime == p.lifetime - dt
    ensures q.pos == Vec2(p.pos.x + p.vel.x * dt, p.pos.y + p.vel.y * dt)
  {
    p.(pos := Vec2(p.pos.x + p.vel.x * dt, p.pos.y + p.vel.y * dt), lifetime := p.lifetime - dt)
  }

  /** `move_objects`: projectiles with lifetime > 0 advance; those whose
      lifetime is at most 0 at the start of the frame are despawned. */
  function MoveObjectsAll(ps: map<Entity, Projectile>, dt: real): (r: map<Entity, Projectile>)
    ensures forall e :: e in r <==> e in ps && ps[e].lifetime > 0.0
    ensures forall e :: e in r ==>
      && r[e].vel == ps[e].vel && r[e].rotation == ps[e].rotation
      && r[e].lifetime == ps[e].lifetime - dt
      && r[e].pos == Vec2(ps[e].pos.x + ps[e].vel.x * dt, ps[e].pos.y + ps[e].vel.y * dt)
  {
    map e | e in ps && ps[e].lifetime > 0.0 :: Advance(ps[e], dt)
  }

  /** One projectile over `n` frames of `move_objects`; `None` once despawned. */
  function Fly(p: Projectile, dt: real, n: nat): Option<Projectile>
  {
    if n == 0 then Some(p)
    else match Fly(p, dt, n - 1)
      case None => None
      case Some(q) => if q.lifetime > 0.0 then Some(Advance(q, dt)) else None
  }

  /** `n` frames of `move_objects` over all projectiles. */
  function MoveObjectsN(ps: map<Entity, Projectile>, dt: real, n: nat): map<Entity, Projectile>
  {
    if n == 0 then ps else MoveObjectsAll(MoveObjectsN(ps, dt, n - 1), dt)
  }

  /** While alive, a projectile after `n` frames is exactly `n * dt` times its
      velocity from where it started (no drift), with the same velocity and
      `n * dt` less lifetime. */
  lemma {:induction false} FlyTrajectory(p: Projectile, dt: real, n: nat)
    requires Fly(p, dt, n).Some?
    ensures var q := Fly(p, dt, n).value;
      && q.vel == p.vel && q.rotation == p.rotation
      && q.pos == Vec2(p.pos.x + (n as real) * dt * p.vel.x, p.pos.y + (n as real) * dt * p.vel.y)
      && q.lifetime == p.lifetime - (n as real) * dt
  {
    if n > 0 {
      FlyTrajectory(p, dt, n - 1);
      var q := Fly(p, dt, n - 1).value;
      assert Fly(p, dt, n) == Some(Advance(q, dt));
      var k := (n - 1) as real;
      assert (n as real) == k + 1.0;
      assert (k + 1.0) * dt * p.vel.x == k * dt * p.vel.x + p.vel.x * dt;
      assert (k + 1.0) * dt * p.vel.y == k * dt * p.vel.y + p.vel.y * dt;
      assert (k + 1.0) * dt == k * dt + dt;
    }
  }

  /** With a non-negative delta time, a projectile is still alive after `n`
      frames iff its lifetime at the start of frame `n` was positive, that
      is iff `(n - 1) * dt < lifetime`. */
  lemma {:induction false} FlySurvival(p: Projectile, dt: real, n: nat)
    requires dt >= 0.0
    ensures Fly(p, dt, n).Some? <==> n == 0 || ((n - 1) as real) * dt < p.lifetime
  {
    if n == 1 {
      assert (0 as real) * dt == 0.0;
    } else if n > 1 {
      FlySurvival(p, dt, n - 1);
      var k := (n - 2) as real;
      var before, now := k * dt, (k + 1.0) * dt;
      assert ((n - 1) as real) * dt == now;
      assert now == before + dt;
      if Fly(p, dt, n - 1).Some? {
        FlyTrajectory(p, dt, n - 1);
        assert Fly(p, dt, n - 1).value.lifetime == p.lifetime - now;
      } else {
        assert !(before < p.lifetime);
        assert !(now < p.lifetime);
      }
    }
  }

  /** A projectile spawned with lifetime 2.0, at 0.5 s per frame, lives
      through four frames and is despawned in the fifth. */
  lemma DefaultLifetimeFrames(p: Projectile)
    requires p.lifetime == ProjectileLifetime
    ensures Fly(p, 0.5, 4).Some? && Fly(p, 0.5, 5).None?
  {
    FlySurvival(p, 0.5, 4);
    FlySurvival(p, 0.5, 5);
  }

  /** Running the stage `n` times over the whole map follows each projectile
      on its own: it is present iff it survives `n` frames, with that state. */
  lemma {:induction false} MoveObjectsNFollowsFly(ps: map<Entity, Projectile>, dt: real, n: nat, e: Entity)
    requires e in ps
    ensures e in MoveObjectsN(ps, dt, n) <==> Fly(ps[e], dt, n).Some?
    ensures e in MoveObjectsN(ps, dt, n) ==> MoveObjectsN(ps, dt, n)[e] == Fly(ps[e], dt, n).value
  {
    if n > 0 {
      MoveObjectsNFollowsFly(ps, dt, n - 1, e);
    }
  }
}
