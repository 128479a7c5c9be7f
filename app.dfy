/** The game world as the systems see it, and the systems themselves as
    methods that update it in place, chained in the order the character
    controller plugin registers them (src/player.rs, `build`). */
module App {
  import opened Engine
  import opened Player
  import opened Game
  import opened Input

  /** Every handle in use, by a character, a gun or a projectile, is below
      `nextId`, so the counter yields fresh handles. */
  ghost predicate Consistent(r: Roster, ps: map<Entity, Projectile>)
  {
    RosterValid(r) && forall e :: e in ps ==> e < r.nextId
  }

  /** The aim stage keeps the world consistent: it moves no gun and takes its
      projectile handles from `nextId` upwards. */
  lemma AimKeepsConsistent(t: Trig, r: Roster, ps: map<Entity, Projectile>)
    requires Consistent(r, ps)
    ensures var shots := Shots(t, r.controllers, r.guns);
      Consistent(Roster(r.assignments, ClearedLatches(r.controllers, r.guns), AimedGuns(r.controllers, r.guns), r.nextId + |shots|),
                 ps + Enumerate(r.nextId, shots))
  {
    var gs := AimedGuns(r.controllers, r.guns);
    assert forall j :: 0 <= j < |gs| ==> gs[j].parent == r.guns[j].parent && gs[j].id == r.guns[j].id;
    EnumerateHandles(r.nextId, Shots(t, r.controllers, r.guns));
  }

  /** The keyboard's Enter spawn keeps the world consistent: the new handles
      are above every handle in use. */
  lemma KeyboardSpawnKeepsConsistent(t: Trig, r: Roster, ps: map<Entity, Projectile>)
    requires Consistent(r, ps)
    ensures Consistent(KeyboardSpawn(t, r), ps)
  {
    SpawnForValid(t, r, KeyboardKey, KeyboardJumpImpulse);
  }

  /** `Iterator::any` over the shape hits: whether some hit supports. */
  method AnySupports(hits: seq<real>, maxSlope: Option<real>) returns (b: bool)
    ensures b == IsGrounded(hits, maxSlope)
  {
    b := false;
    var i := 0;
    while i < |hits| && !b
      invariant 0 <= i <= |hits|
      invariant b == exists j :: 0 <= j < i && Supports(hits[j], maxSlope)
    {
      b := Supports(hits[i], maxSlope);
      i := i + 1;
    }
  }

  /** The query loop of `apply_aim_to_gun` over the guns: each gun whose
      parent is a controller takes the parent's aim and clears the parent's
      latch, queueing the parent's bullet first if the latch was set. */
  method AimGuns(t: Trig, c0: map<Entity, Controller>, g0: seq<Gun>) returns (cs: map<Entity, Controller>, gs: seq<Gun>, queued: seq<Projectile>)
    requires ParentsDistinct(g0)
    ensures gs == AimedGuns(c0, g0)
    ensures cs == ClearedLatches(c0, g0)
    ensures queued == Shots(t, c0, g0)
  {
    ghost var aimed := AimedGuns(c0, g0);
    cs, gs, queued := c0, g0, [];
    for i := 0 to |gs|
      invariant |gs| == |g0|
      invariant forall j :: 0 <= j < |g0| ==> gs[j] == if j < i then aimed[j] else g0[j]
      invariant cs == ClearedLatches(c0, g0[..i])
      invariant queued == Shots(t, c0, g0[..i])
    {
      var g := gs[i];
      assert g == g0[i];
      AimStep(t, c0, g0, i);
      if g.parent in cs {
        var c := cs[g.parent];
        gs := gs[i := g.(rotation := c.aim)];
        if c.fire > 0.0 {
          queued := queued + [Bullet(t, c)];
        }
        cs := cs[g.parent := c.(fire := 0.0)];
      }
    }
    assert g0[..|g0|] == g0;
  }

  /** The event loop of `movement`: the bus drained in emission order. */
  method Drain(t: Trig, c0: map<Entity, Controller>, events: seq<PlayerAction>, dt: real) returns (cs: map<Entity, Controller>)
    ensures cs == ResolveAll(t, c0, events, dt)
  {
    cs := c0;
    for i := 0 to |events|
      invariant cs == ResolveAll(t, c0, events[..i], dt)
    {
      assert events[..i + 1][..i] == events[..i];
      assert ResolveAll(t, c0, events[..i + 1], dt) == Resolve(t, cs, events[i], dt);
      ghost var before := cs;
      match events[i] {
        case Move(e, dir) =>
          if e in cs {
            var c := cs[e];
            cs := cs[e := c.(vel := c.vel.(x := c.vel.x + dir * c.acceleration * dt))];
            assert cs[e] == Resolve(t, before, events[i], dt)[e];
          }
        case Jump(e) =>
          if e in cs {
            var c := cs[e];
            if c.grounded {
              cs := cs[e := c.(vel := c.vel.(y := c.jumpImpulse))];
            }
          }
        case Aim(e, x, y) =>
          if e in cs {
            var angle := t.atan2(y, x) + t.pi / 2.0;
            cs := cs[e := cs[e].(aim := angle)];
          }
        case Fire(e) =>
          if e in cs {
            cs := cs[e := cs[e].(fire := 1.0)];
          }
      }
      assert cs == Resolve(t, before, events[i], dt);
    }
    assert events[..|events|] == events;
  }

  /** The query loop of `apply_movement_damping`. */
  method DampEach(c0: map<Entity, Controller>) returns (cs: map<Entity, Controller>)
    ensures cs == DampAll(c0)
  {
    cs := c0;
    var todo := c0.Keys;
    while todo != {}
      invariant todo <= cs.Keys && cs.Keys == c0.Keys
      invariant forall e :: e in todo ==> cs[e] == c0[e]
      invariant forall e :: e in cs && e !in todo ==> cs[e] == Damp(c0[e])
      decreases todo
    {
      var e :| e in todo;
      var c := cs[e];
      cs := cs[e := c.(vel := c.vel.(x := c.vel.x * c.damping))];
      todo := todo - {e};
    }
  }

  /** The query loop of `update_grounded`: a controller with shape hits is
      marked from them; one without is left alone. */
  method GroundEach(c0: map<Entity, Controller>, hits: map<Entity, seq<real>>) returns (cs: map<Entity, Controller>)
    ensures cs == UpdateGroundedAll(c0, hits)
  {
    cs := c0;
    var todo := c0.Keys;
    while todo != {}
      invariant todo <= cs.Keys && cs.Keys == c0.Keys
      invariant forall e :: e in todo ==> cs[e] == c0[e]
      invariant forall e :: e in cs && e !in todo ==> cs[e] == UpdateGroundedAll(c0, hits)[e]
      decreases todo
    {
      var e :| e in todo;
      if e in hits {
        var isGrounded := AnySupports(hits[e], cs[e].maxSlope);
        cs := cs[e := cs[e].(grounded := isGrounded)];
      }
      todo := todo - {e};
    }
  }

  /** The query loop of `move_objects`: live projectiles advance in place,
      expired ones are queued and despawned when the loop ends. */
  method AdvanceEach(p0: map<Entity, Projectile>, dt: real) returns (ps: map<Entity, Projectile>)
    ensures ps == MoveObjectsAll(p0, dt)
  {
    ps := p0;
    var todo, expired := p0.Keys, {};
    while todo != {}
      invariant todo <= p0.Keys && ps.Keys == p0.Keys
      invariant forall e :: e in todo ==> ps[e] == p0[e]
      invariant forall e :: e in ps && e !in todo ==>
        ps[e] == if p0[e].lifetime > 0.0 then Advance(p0[e], dt) else p0[e]
      invariant forall e :: e in expired <==> e in ps && e !in todo && p0[e].lifetime <= 0.0
      decreases todo
    {
      var e :| e in todo;
      var p := ps[e];
      if p.lifetime <= 0.0 {
        expired := expired + {e};
      } else {
        ps := ps[e := Advance(p, dt)];
      }
      todo := todo - {e};
    }
    ps := ps - expired;
  }

  /** Queued projectile spawns applied in order, each under the next free
      handle. */
  method PlaceEach(p0: map<Entity, Projectile>, n0: nat, shots: seq<Projectile>) returns (ps: map<Entity, Projectile>, next: nat)
    ensures ps == p0 + Enumerate(n0, shots) && next == n0 + |shots|
  {
    ps, next := p0, n0;
    assert p0 + Enumerate(n0, []) == p0;
    for k := 0 to |shots|
      invariant ps == p0 + Enumerate(n0, shots[..k])
      invariant next == n0 + k
    {
      assert shots[..k + 1] == shots[..k] + [shots[k]];
      EnumerateSnoc(n0, shots[..k], shots[k]);
      assert p0 + Enumerate(n0, shots[..k])[next := shots[k]] == (p0 + Enumerate(n0, shots[..k]))[next := shots[k]];
      ps := ps[next := shots[k]];
      next := next + 1;
    }
    assert shots[..|shots|] == shots;
  }

  /** The query loop of `spawn_character` over the gamepads. */
  method SpawnEach(t: Trig, r0: Roster, pads: seq<Gamepad>) returns (r: Roster)
    ensures r == SpawnAll(t, r0, pads)
  {
    r := r0;
    for i := 0 to |pads|
      invariant r == SpawnAll(t, r0, pads[..i])
    {
      assert pads[..i + 1][..i] == pads[..i];
      var p := pads[i];
      if Reading(p.south) > PressThreshold && p.index !in r.assignments {
        var e := r.nextId;
        r := Roster(r.assignments[p.index := e],
                    r.controllers[e := NewCharacter(t, GamepadJumpImpulse)],
                    r.guns + [Gun(e + 1, e, 0.0)],
                    e + 2);
      }
    }
    assert pads[..|pads|] == pads;
  }

  /** The whole world as a value: the roster and the projectiles. */
  datatype Scene = Scene(roster: Roster, projectiles: map<Entity, Projectile>)

  /** The world after `keyboard_input`: on Enter, the keyboard spawn. */
  function AfterKeyboard(t: Trig, s: Scene, kb: Keyboard): Scene
  {
    if kb.enter then s.(roster := KeyboardSpawn(t, s.roster)) else s
  }

  /** The world after grounded detection, damping, aim and fire, and
      projectile motion, in that order. */
  function AfterSimulate(t: Trig, s: Scene, hits: map<Entity, seq<real>>, dt: real): Scene
  {
    var r := s.roster;
    var c1 := DampAll(UpdateGroundedAll(r.controllers, hits));
    var shots := Shots(t, c1, r.guns);
    Scene(Roster(r.assignments, ClearedLatches(c1, r.guns), AimedGuns(c1, r.guns), r.nextId + |shots|),
          MoveObjectsAll(s.projectiles + Enumerate(r.nextId, shots), dt))
  }

  /** The world after `spawn_character`. */
  function AfterSpawn(t: Trig, s: Scene, pads: seq<Gamepad>): Scene
  {
    s.(roster := SpawnAll(t, s.roster, pads))
  }

  /** The world after `movement` drains the bus. */
  function AfterMovement(t: Trig, s: Scene, events: seq<PlayerAction>, dt: real): Scene
  {
    s.(roster := s.roster.(controllers := ResolveAll(t, s.roster.controllers, events, dt)))
  }

  /** The engine's entity-component store reduced to what the systems
      touch: controller components by entity, the guns in query order, the
      projectiles by entity, the player-assignment resource and the entity
      allocator. */
  class World {
    const trig: Trig
    var controllers: map<Entity, Controller>
    var guns: seq<Gun>
    var projectiles: map<Entity, Projectile>
    var assignments: map<nat, Entity>
    var nextId: nat

    /** The part of the world a spawn writes. */
    function Spawnable(): Roster
      reads this
    {
      Roster(assignments, controllers, guns, nextId)
    }

    function Snapshot(): Scene
      reads this
    {
      Scene(Spawnable(), projectiles)
    }

    ghost predicate Valid()
      reads this
    {
      Consistent(Spawnable(), projectiles)
    }

    /** Install a whole new roster, consistent with the projectiles. */
    method SetRoster(r: Roster)
      requires Consistent(r, projectiles)
      modifies this`assignments, this`controllers, this`guns, this`nextId
      ensures Valid() && Spawnable() == r
    {
      assignments, controllers, guns, nextId := r.assignments, r.controllers, r.guns, r.nextId;
    }

    /** An empty world; `PlayerAssignments::default()` is empty. */
    constructor (t: Trig)
      ensures Valid() && trig == t
      ensures controllers == map[] && guns == [] && projectiles == map[]
      ensures assignments == map[] && nextId == 0
    {
      trig := t;
      controllers := map[];
      guns := [];
      projectiles := map[];
      assignments := map[];
      nextId := 0;
    }

    /** `movement`: drain the action bus in order; an event whose target is
        not a controller is dropped. */
    method Movement(events: seq<PlayerAction>, dt: real)
      requires Valid()
      modifies this`controllers
      ensures Valid()
      ensures controllers == ResolveAll(trig, old(controllers), events, dt)
      ensures Snapshot() == AfterMovement(trig, old(Snapshot()), events, dt)
    {
      controllers := Drain(trig, controllers, events, dt);
    }

    /** `apply_movement_damping`: `vel.x *= damping` for every controller. */
    method ApplyMovementDamping()
      requires Valid()
      modifies this`controllers
      ensures Valid()
      ensures controllers == DampAll(old(controllers))
    {
      controllers := DampEach(controllers);
    }

    /** `update_grounded`: every controller with shape hits gets or loses
        the `Grounded` marker from this frame's hits alone. */
    method UpdateGrounded(hits: map<Entity, seq<real>>)
      requires Valid()
      modifies this`controllers
      ensures Valid()
      ensures controllers == UpdateGroundedAll(old(controllers), hits)
    {
      controllers := GroundEach(controllers, hits);
    }

    /** `apply_aim_to_gun`: each gun whose parent is a controller takes the
        parent's aim; a set latch queues one projectile spawn; the latch is
        then cleared whether or not it was set. The queued spawns take effect
        when the stage ends, in queue order. */
    method ApplyAimToGun()
      requires Valid()
      modifies this`controllers, this`guns, this`projectiles, this`nextId
      ensures Valid()
      ensures guns == AimedGuns(old(controllers), old(guns))
      ensures controllers == ClearedLatches(old(controllers), old(guns))
      ensures var shots := Shots(trig, old(controllers), old(guns));
        projectiles == old(projectiles) + Enumerate(old(nextId), shots) && nextId == old(nextId) + |shots|
    {
      AimKeepsConsistent(trig, Spawnable(), projectiles);
      var cs, gs, queued := AimGuns(trig, controllers, guns);
      controllers, guns := cs, gs;
      projectiles, nextId := PlaceEach(projectiles, nextId, queued);
    }

    /** `move_objects`: advance live projectiles, despawn expired ones. */
    method MoveObjects(dt: real)
      requires Valid()
      modifies this`projectiles
      ensures Valid()
      ensures projectiles == MoveObjectsAll(old(projectiles), dt)
    {
      projectiles := AdvanceEach(projectiles, dt);
    }

    /** `spawn_character`: for each gamepad pressing South that has no
        character yet, spawn one and record it in the assignments. */
    method SpawnCharacter(pads: seq<Gamepad>)
      requires Valid()
      modifies this`assignments, this`controllers, this`guns, this`nextId
      ensures Valid()
      ensures Spawnable() == SpawnAll(trig, old(Spawnable()), pads)
      ensures Snapshot() == AfterSpawn(trig, old(Snapshot()), pads)
    {
      ghost var r0 := Spawnable();
      var r := SpawnEach(trig, Spawnable(), pads);
      SpawnAllValid(trig, r0, pads);
      SpawnAllKeepsOld(trig, r0, pads);
      assignments, controllers, guns, nextId := r.assignments, r.controllers, r.guns, r.nextId;
    }

    /** `keyboard_input`: emit the keyboard's events for some bound
        character, then, on Enter, spawn a character and bind it under key 5
        with no check for an existing binding. */
    method KeyboardInput(kb: Keyboard) returns (events: seq<PlayerAction>, target: Option<Entity>)
      requires Valid()
      modifies this`assignments, this`controllers, this`guns, this`nextId
      ensures Valid()
      ensures target.Some? <==> old(assignments) != map[]
      ensures target.Some? ==> target.value in old(assignments).Values
      ensures events == KeyboardEvents(kb, target)
      ensures Spawnable() == if kb.enter then KeyboardSpawn(trig, old(Spawnable())) else old(Spawnable())
    {
      events, target := KeyboardActions(kb, assignments);
      if kb.enter {
        KeyboardSpawnKeepsConsistent(trig, Spawnable(), projectiles);
        SetRoster(KeyboardSpawn(trig, Spawnable()));
      }
    }

    /** The two input systems, keyboard first: the events they emit in
        emission order, for the character the keyboard drives. */
    method ReadInput(kb: Keyboard, pads: seq<Gamepad>) returns (events: seq<PlayerAction>, target: Option<Entity>)
      requires Valid()
      modifies this`assignments, this`controllers, this`guns, this`nextId
      ensures Valid()
      ensures target.Some? <==> old(assignments) != map[]
      ensures target.Some? ==> target.value in old(assignments).Values
      ensures Spawnable() == if kb.enter then KeyboardSpawn(trig, old(Spawnable())) else old(Spawnable())
      ensures events == KeyboardEvents(kb, target) + GamepadEvents(assignments, pads)
      ensures Snapshot() == AfterKeyboard(trig, old(Snapshot()), kb)
      ensures forall k :: k in old(assignments) && (k != KeyboardKey || !kb.enter) ==>
        k in assignments && assignments[k] == old(assignments)[k]
      ensures old(controllers).Keys <= controllers.Keys && old(nextId) <= nextId
    {
      ghost var r0 := Spawnable();
      var keyEvents;
      keyEvents, target := KeyboardInput(kb);
      assert forall k :: k in r0.assignments && (k != KeyboardKey || !kb.enter) ==>
          k in assignments && assignments[k] == r0.assignments[k]
        by { SpawnForFacts(trig, r0, KeyboardKey, KeyboardJumpImpulse); }
      var padEvents := GamepadInput(assignments, pads);
      events := keyEvents + padEvents;
    }

    /** The stages between input and spawning: grounded detection, damping,
        aim and fire, projectile motion. None of them binds, unbinds, spawns
        or despawns a character. */
    method Simulate(hits: map<Entity, seq<real>>, dt: real)
      requires Valid()
      modifies this`controllers, this`guns, this`projectiles, this`nextId
      ensures Valid()
      ensures controllers.Keys == old(controllers).Keys && old(nextId) <= nextId
      ensures var c1 := DampAll(UpdateGroundedAll(old(controllers), hits));
        var shots := Shots(trig, c1, old(guns));
        && controllers == ClearedLatches(c1, old(guns))
        && guns == AimedGuns(c1, old(guns))
        && projectiles == MoveObjectsAll(old(projectiles) + Enumerate(old(nextId), shots), dt)
        && nextId == old(nextId) + |shots|
      ensures Snapshot() == AfterSimulate(trig, old(Snapshot()), hits, dt)
    {
      ghost var c0, g0, p0, n0 := controllers, guns, projectiles, nextId;
      UpdateGrounded(hits);
      ApplyMovementDamping();
      ghost var c1 := controllers;
      assert c1 == DampAll(UpdateGroundedAll(c0, hits));
      ApplyAimToGun();
      ghost var p1 := projectiles;
      assert p1 == p0 + Enumerate(n0, Shots(trig, c1, g0));
      MoveObjects(dt);
    }

    /** One frame of the plugin's chained systems, in their fixed order:
        keyboard input, gamepad input, grounded detection, damping, aim and
        fire, projectile motion, gamepad spawning, movement. The events both
        input systems emit are drained by `Movement` in emission order, after
        this frame's spawns and against this frame's grounded markers. */
    method Frame(kb: Keyboard, pads: seq<Gamepad>, hits: map<Entity, seq<real>>, dt: real)
      returns (events: seq<PlayerAction>, target: Option<Entity>)
      requires Valid()
      modifies this
      ensures Valid()
      ensures target.Some? <==> old(assignments) != map[]
      ensures target.Some? ==> target.value in old(assignments).Values
      ensures var s1 := AfterKeyboard(trig, old(Snapshot()), kb);
        && events == KeyboardEvents(kb, target) + GamepadEvents(s1.roster.assignments, pads)
        && Snapshot() == AfterMovement(trig, AfterSpawn(trig, AfterSimulate(trig, s1, hits, dt), pads), events, dt)
      ensures forall k :: k in old(assignments) && k != KeyboardKey ==> k in assignments && assignments[k] == old(assignments)[k]
      ensures !kb.enter ==> forall k :: k in old(assignments) ==> k in assignments && assignments[k] == old(assignments)[k]
      ensures old(controllers).Keys <= controllers.Keys
      ensures old(nextId) <= nextId
    {
      events, target := ReadInput(kb, pads);
      Simulate(hits, dt);
      ghost var r := Spawnable();
      SpawnCharacter(pads);
      assert forall k :: k in r.assignments ==> k in assignments && assignments[k] == r.assignments[k]
        by { SpawnAllKeepsOld(trig, r, pads); }
      Movement(events, dt);
    }
  }
}
