/** The character controller of src/player.rs: the action events, the
    per-character components, and the per-frame stages as functions on the
    component maps (the `World` class runs them in place). The weapon
    components of src/weapons.rs (`Gun`, `Projectile`) live here too, since
    the aim stage reads and spawns them. */
module Player {
  import opened Engine

  /** A movement input action: one event on the action bus. */
  datatype PlayerAction =
    | Move(target: Entity, dir: real)
    | Jump(target: Entity)
    | Aim(target: Entity, x: real, y: real)
    | Fire(target: Entity)

  /** The tuning a character body is created with. */
  datatype MovementBundle = MovementBundle(
    acceleration: real,
    damping: real,
    jumpImpulse: real,
    aiming: real,
    maxSlopeAngle: real,
    fireImpulse: real)

  /** `MovementBundle::default()`; every spawn overrides it. */
  function DefaultMovement(t: Trig): (b: MovementBundle)
    ensures b.acceleration == 30.0 && b.damping == 0.9 && b.jumpImpulse == 200.0
    ensures b.aiming == 0.0 && b.maxSlopeAngle == t.pi * 0.45 && b.fireImpulse == 0.0
  {
    MovementBundle(30.0, 0.9, 200.0, 0.0, t.pi * 0.45, 0.0)
  }

  /** The components of one character-controller entity. `aim` is the
      z angle of `AimRotation`, `fire` is `FireImpulse` (the fire latch),
      `grounded` is the presence of the `Grounded` marker; `vel` and `pos`
      (`LinearVelocity`, the translation of `Transform`) belong to the
      physics engine, which the model does not run. */
  datatype Controller = Controller(
    acceleration: real,
    damping: real,
    jumpImpulse: real,
    maxSlope: Option<real>,
    aim: real,
    fire: real,
    vel: Vec2,
    grounded: bool,
    pos: Vec2)

  /** A character body just spawned from a bundle at `pos`: at rest, airborne. */
  function FromBundle(b: MovementBundle, pos: Vec2): (c: Controller)
    ensures c.maxSlope == Some(b.maxSlopeAngle) && !c.grounded && c.vel == Vec2(0.0, 0.0)
    ensures c.acceleration == b.acceleration && c.damping == b.damping
    ensures c.jumpImpulse == b.jumpImpulse && c.aim == b.aiming && c.fire == b.fireImpulse
    ensures c.pos == pos
  {
    Controller(b.acceleration, b.damping, b.jumpImpulse, Some(b.maxSlopeAngle),
               b.aiming, b.fireImpulse, Vec2(0.0, 0.0), false, pos)
  }

  // ----- movement: draining the action bus -----

  /** The aim rotation an `Aim(x, y)` event sets: atan2(y, x) plus a quarter turn. */
  function AimAngle(t: Trig, x: real, y: real): (r: real)
    ensures r - t.pi / 2.0 == t.atan2(y, x)
  {
    t.atan2(y, x) + t.pi / 2.0
  }

  /** One event applied to the controllers. An event whose target is not a
      controller is dropped. */
  function Resolve(t: Trig, c: map<Entity, Controller>, ev: PlayerAction, dt: real): (r: map<Entity, Controller>)
    ensures r.Keys == c.Keys
    ensures forall e :: e in c && e != ev.target ==> r[e] == c[e]
    ensures ev.target !in c ==> r == c
    ensures ev.target in c && ev.Move? ==>
      var o, n := c[ev.target], r[ev.target];
      n == o.(vel := n.vel) && n.vel.y == o.vel.y && n.vel.x == o.vel.x + ev.dir * o.acceleration * dt
    ensures ev.target in c && ev.Jump? ==>
      var o, n := c[ev.target], r[ev.target];
      n == o.(vel := n.vel) && n.vel.x == o.vel.x &&
      (n.vel.y == o.jumpImpulse <== o.grounded) && (!o.grounded ==> n == o)
    ensures ev.target in c && ev.Aim? ==>
      r[ev.target] == c[ev.target].(aim := AimAngle(t, ev.x, ev.y))
    ensures ev.target in c && ev.Fire? ==>
      r[ev.target] == c[ev.target].(fire := 1.0)
  {
    if ev.target !in c then c
    else
      var o := c[ev.target];
      var n := match ev
        case Move(_, dir) => o.(vel := o.vel.(x := o.vel.x + dir * o.acceleration * dt))
        case Jump(_) => if o.grounded then o.(vel := o.vel.(y := o.jumpImpulse)) else o
        case Aim(_, x, y) => o.(aim := AimAngle(t, x, y))
        case Fire(_) => o.(fire := 1.0);
      c[ev.target := n]
  }

  /** The whole bus drained in emission order. */
  function ResolveAll(t: Trig, c: map<Entity, Controller>, evs: seq<PlayerAction>, dt: real): (r: map<Entity, Controller>)
    decreases |evs|
    ensures r.Keys == c.Keys
  {
    if evs == [] then c
    else Resolve(t, ResolveAll(t, c, evs[..|evs| - 1], dt), evs[|evs| - 1], dt)
  }

  /** The sum of the directions of the `Move` events targeting `e`. */
  function MoveSum(evs: seq<PlayerAction>, e: Entity): real
    decreases |evs|
  {
    if evs == [] then 0.0
    else
      var last := evs[|evs| - 1];
      MoveSum(evs[..|evs| - 1], e) + (if last.Move? && last.target == e then last.dir else 0.0)
  }

  /** The stick vector of the last `Aim` event targeting `e`, if any. */
  function LastAim(evs: seq<PlayerAction>, e: Entity): Option<(real, real)>
    decreases |evs|
  {
    if evs == [] then None
    else
      var last := evs[|evs| - 1];
      if last.Aim? && last.target == e then Some((last.x, last.y)) else LastAim(evs[..|evs| - 1], e)
  }

  predicate JumpsAt(evs: seq<PlayerAction>, e: Entity)
  {
    exists i :: 0 <= i < |evs| && evs[i] == Jump(e)
  }

  predicate FiresAt(evs: seq<PlayerAction>, e: Entity)
  {
    exists i :: 0 <= i < |evs| && evs[i] == Fire(e)
  }

  /** A controller no event targets is left as it was. */
  lemma {:induction false} ResolveAllUntargeted(t: Trig, c: map<Entity, Controller>, evs: seq<PlayerAction>, dt: real, e: Entity)
    requires e in c
    requires forall i :: 0 <= i < |evs| ==> evs[i].target != e
    ensures ResolveAll(t, c, evs, dt)[e] == c[e]
    decreases |evs|
  {
    if evs != [] {
      ResolveAllUntargeted(t, c, evs[..|evs| - 1], dt, e);
    }
  }

  /** Events that all target missing entities change nothing at all. */
  lemma {:induction false} ResolveAllDropsMissing(t: Trig, c: map<Entity, Controller>, evs: seq<PlayerAction>, dt: real)
    requires forall i :: 0 <= i < |evs| ==> evs[i].target !in c
    ensures ResolveAll(t, c, evs, dt) == c
    decreases |evs|
  {
    if evs != [] {
      ResolveAllDropsMissing(t, c, evs[..|evs| - 1], dt);
    }
  }

  /** Events never change a controller's tuning, its grounded state or its position. */
  lemma {:induction false} ResolveAllKeepsTuning(t: Trig, c: map<Entity, Controller>, evs: seq<PlayerAction>, dt: real, e: Entity)
    requires e in c
    ensures var n := ResolveAll(t, c, evs, dt)[e];
      n.acceleration == c[e].acceleration && n.damping == c[e].damping &&
      n.jumpImpulse == c[e].jumpImpulse && n.maxSlope == c[e].maxSlope &&
      n.grounded == c[e].grounded && n.pos == c[e].pos
    decreases |evs|
  {
    if evs != [] {
      ResolveAllKeepsTuning(t, c, evs[..|evs| - 1], dt, e);
    }
  }

  lemma Distribute(s: real, d: real, a: real, dt: real)
    ensures (s + d) * a * dt == s * a * dt + d * a * dt
  {
  }

  /** The sum of the velocity increments `dir * a * dt` of the `Move`
      events targeting `e`. */
  function MoveDelta(evs: seq<PlayerAction>, e: Entity, a: real, dt: real): real
    decreases |evs|
  {
    if evs == [] then 0.0
    else
      var last := evs[|evs| - 1];
      MoveDelta(evs[..|evs| - 1], e, a, dt) + (if last.Move? && last.target == e then last.dir * a * dt else 0.0)
  }

  lemma {:induction false} MoveDeltaFactors(evs: seq<PlayerAction>, e: Entity, a: real, dt: real)
    ensures MoveDelta(evs, e, a, dt) == MoveSum(evs, e) * a * dt
    decreases |evs|
  {
    if evs != [] {
      var pre, last := evs[..|evs| - 1], evs[|evs| - 1];
      MoveDeltaFactors(pre, e, a, dt);
      if last.Move? && last.target == e {
        Distribute(MoveSum(pre, e), last.dir, a, dt);
      }
    }
  }

  /** Moves add up: the horizontal velocity grows by the sum of the Move
      directions times acceleration times delta time. */
  lemma {:induction false} ResolveAllVelocityX(t: Trig, c: map<Entity, Controller>, evs: seq<PlayerAction>, dt: real, e: Entity)
    requires e in c
    ensures ResolveAll(t, c, evs, dt)[e].vel.x == c[e].vel.x + MoveSum(evs, e) * c[e].acceleration * dt
  {
    ResolveAllVelocityDelta(t, c, evs, dt, e);
    MoveDeltaFactors(evs, e, c[e].acceleration, dt);
  }

  lemma {:induction false} ResolveAllVelocityDelta(t: Trig, c: map<Entity, Controller>, evs: seq<PlayerAction>, dt: real, e: Entity)
    requires e in c
    ensures ResolveAll(t, c, evs, dt)[e].vel.x == c[e].vel.x + MoveDelta(evs, e, c[e].acceleration, dt)
    decreases |evs|
  {
    if evs != [] {
      var pre, last := evs[..|evs| - 1], evs[|evs| - 1];
      ResolveAllVelocityDelta(t, c, pre, dt, e);
      ResolveAllKeepsTuning(t, c, pre, dt, e);
      assert ResolveAll(t, c, evs, dt) == Resolve(t, ResolveAll(t, c, pre, dt), last, dt);
    }
  }

  /** Jump sets the vertical velocity to the jump impulse exactly when the
      target is grounded and some Jump targets it; otherwise it is unchanged. */
  lemma {:induction false} ResolveAllVelocityY(t: Trig, c: map<Entity, Controller>, evs: seq<PlayerAction>, dt: real, e: Entity)
    requires e in c
    ensures ResolveAll(t, c, evs, dt)[e].vel.y ==
      if c[e].grounded && JumpsAt(evs, e) then c[e].jumpImpulse else c[e].vel.y
    decreases |evs|
  {
    if evs != [] {
      var pre := evs[..|evs| - 1];
      ResolveAllVelocityY(t, c, pre, dt, e);
      ResolveAllKeepsTuning(t, c, pre, dt, e);
      assert JumpsAt(evs, e) <==> JumpsAt(pre, e) || evs[|evs| - 1] == Jump(e) by {
        if JumpsAt(evs, e) && evs[|evs| - 1] != Jump(e) {
          var i :| 0 <= i < |evs| && evs[i] == Jump(e);
          assert pre[i] == Jump(e);
        }
        if JumpsAt(pre, e) {
          var i :| 0 <= i < |pre| && pre[i] == Jump(e);
          assert evs[i] == Jump(e);
        }
      }
    }
  }

  /** The aim ends at the rotation of the last Aim event for the target; with
      none, the previous aim persists. */
  lemma {:induction false} ResolveAllAim(t: Trig, c: map<Entity, Controller>, evs: seq<PlayerAction>, dt: real, e: Entity)
    requires e in c
    ensures ResolveAll(t, c, evs, dt)[e].aim ==
      match LastAim(evs, e)
      case None => c[e].aim
      case Some(v) => AimAngle(t, v.0, v.1)
    decreases |evs|
  {
    if evs != [] {
      ResolveAllAim(t, c, evs[..|evs| - 1], dt, e);
    }
  }

  /** The fire latch ends at 1.0 when some Fire targets the controller and
      is otherwise unchanged. */
  lemma {:induction false} ResolveAllFire(t: Trig, c: map<Entity, Controller>, evs: seq<PlayerAction>, dt: real, e: Entity)
    requires e in c
    ensures ResolveAll(t, c, evs, dt)[e].fire == if FiresAt(evs, e) then 1.0 else c[e].fire
    decreases |evs|
  {
    if evs != [] {
      var pre := evs[..|evs| - 1];
      ResolveAllFire(t, c, pre, dt, e);
      assert FiresAt(evs, e) <==> FiresAt(pre, e) || evs[|evs| - 1] == Fire(e) by {
        if FiresAt(evs, e) && evs[|evs| - 1] != Fire(e) {
          var i :| 0 <= i < |evs| && evs[i] == Fire(e);
          assert pre[i] == Fire(e);
        }
        if FiresAt(pre, e) {
          var i :| 0 <= i < |pre| && pre[i] == Fire(e);
          assert evs[i] == Fire(e);
        }
      }
    }
  }

  /** The same Aim twice is the same as once: the rotation depends on the
      stick vector alone. */
  lemma AimIdempotent(t: Trig, c: map<Entity, Controller>, evs: seq<PlayerAction>, e: Entity, x: real, y: real, dt: real)
    ensures ResolveAll(t, c, evs + [Aim(e, x, y), Aim(e, x, y)], dt) == ResolveAll(t, c, evs + [Aim(e, x, y)], dt)
  {
    var a := Aim(e, x, y);
    var once := evs + [a];
    var twice := once + [a];
    assert twice == evs + [a, a];
    assert twice[..|twice| - 1] == once;
    assert once[..|once| - 1] == evs;
    var m := ResolveAll(t, c, evs, dt);
    var r1 := Resolve(t, m, a, dt);
    assert ResolveAll(t, c, once, dt) == r1;
    assert ResolveAll(t, c, twice, dt) == Resolve(t, r1, a, dt);
    if e in m {
      assert Resolve(t, r1, a, dt) == r1;
    }
  }

  // ----- damping -----

  /** One controller's horizontal velocity scaled by its damping factor. */
  function Damp(c: Controller): Controller
  {
    c.(vel := c.vel.(x := c.vel.x * c.damping))
  }

  /** The damping stage over every controller. */
  function DampAll(cs: map<Entity, Controller>): (r: map<Entity, Controller>)
    ensures r.Keys == cs.Keys
    ensures forall e :: e in cs ==> r[e] == cs[e].(vel := Vec2(r[e].vel.x, cs[e].vel.y))
    ensures forall e :: e in cs ==> r[e].vel.x == cs[e].vel.x * cs[e].damping
  {
    map e | e in cs :: Damp(cs[e])
  }

  /** A damping factor in [0, 1] never increases the horizontal speed, and
      never reverses its direction. */
  lemma DampingNonExpansive(cs: map<Entity, Controller>, e: Entity)
    requires e in cs && 0.0 <= cs[e].damping <= 1.0
    ensures Abs(DampAll(cs)[e].vel.x) <= Abs(cs[e].vel.x)
    ensures DampAll(cs)[e].vel.x * cs[e].vel.x >= 0.0
  {
    ScaleShrinks(cs[e].vel.x, cs[e].damping);
  }

  lemma NonnegProduct(a: real, b: real)
    requires a >= 0.0 && b >= 0.0
    ensures a * b >= 0.0
  {
  }

  lemma ScaleShrinks(x: real, f: real)
    requires 0.0 <= f <= 1.0
    ensures Abs(x * f) <= Abs(x)
    ensures (x * f) * x >= 0.0
  {
    var y := Abs(x);
    NonnegProduct(y, f);
    NonnegProduct(y, 1.0 - f);
    assert y * f + y * (1.0 - f) == y;
    NonnegProduct(y * f, y);
    if x < 0.0 {
      assert x * f == -(y * f);
      assert (x * f) * x == (y * f) * y;
    }
  }

  // ----- grounded detection -----

  /** A shape-cast hit, given as the angle between its inverted world-space
      normal and up, supports the character when it is no steeper than the
      slope bound; with no bound any hit does. */
  predicate Supports(angle: real, maxSlope: Option<real>)
  {
    match maxSlope
    case None => true
    case Some(m) => Abs(angle) <= m
  }

  /** `hits.iter().any(...)`. */
  function IsGrounded(hits: seq<real>, maxSlope: Option<real>): (r: bool)
    ensures r <==> exists i :: 0 <= i < |hits| && Supports(hits[i], maxSlope)
    ensures maxSlope.None? ==> (r <==> hits != [])
  {
    if hits == [] then false
    else Supports(hits[0], maxSlope) || IsGrounded(hits[1..], maxSlope)
  }

  /** The grounded stage: every controller that has shape hits gets the
      marker iff some hit supports it; nothing else changes. */
  function UpdateGroundedAll(cs: map<Entity, Controller>, hits: map<Entity, seq<real>>): (r: map<Entity, Controller>)
    ensures r.Keys == cs.Keys
    ensures forall e :: e in cs ==> r[e] == cs[e].(grounded := r[e].grounded)
    ensures forall e :: e in cs && e in hits ==> r[e].grounded == IsGrounded(hits[e], cs[e].maxSlope)
    ensures forall e :: e in cs && e !in hits ==> r[e] == cs[e]
  {
    map e | e in cs :: if e in hits then cs[e].(grounded := IsGrounded(hits[e], cs[e].maxSlope)) else cs[e]
  }

  /** The grounded state is memoryless: when every controller has hits, the
      stage's result does not depend on the previous grounded markers. */
  lemma GroundedIsMemoryless(cs: map<Entity, Controller>, cs2: map<Entity, Controller>, hits: map<Entity, seq<real>>)
    requires cs.Keys == cs2.Keys && cs.Keys <= hits.Keys
    requires forall e :: e in cs ==> cs2[e] == cs[e].(grounded := cs2[e].grounded)
    ensures UpdateGroundedAll(cs, hits) == UpdateGroundedAll(cs2, hits)
  {
    var r, r2 := UpdateGroundedAll(cs, hits), UpdateGroundedAll(cs2, hits);
    forall e | e in r ensures r[e] == r2[e] {
      assert cs2[e].maxSlope == cs[e].maxSlope;
    }
  }

  // ----- weapons: aim propagation and firing -----

  /** A gun entity: its own handle, its parent character and its rotation. */
  datatype Gun = Gun(id: Entity, parent: Entity, rotation: real)

  /** A projectile entity: translation, velocity, remaining lifetime (s), rotation. */
  datatype Projectile = Projectile(pos: Vec2, vel: Vec2, lifetime: real, rotation: real)

  const MuzzleSpeed: real := 500.0
  const ProjectileLifetime: real := 2.0

  /** The launch velocity for an aim: the aim turned back a quarter turn,
      applied to (500, 0). */
  function MuzzleVelocity(t: Trig, aim: real): (v: Vec2)
    ensures UnitCircle(t) ==> Norm2(v) == MuzzleSpeed * MuzzleSpeed
  {
    var a := aim - t.pi / 2.0;
    ScaledNorm(MuzzleSpeed, t.cos(a), t.sin(a));
    Vec2(MuzzleSpeed * t.cos(a), MuzzleSpeed * t.sin(a))
  }

  lemma ScaledNorm(s: real, co: real, si: real)
    ensures Norm2(Vec2(s * co, s * si)) == s * s * (co * co + si * si)
  {
  }

  /** Firing along a stick direction: the quarter turn the aim adds is taken
      back at launch, so the bullet flies at the angle atan2(y, x). */
  lemma AimedLaunch(t: Trig, x: real, y: real)
    ensures MuzzleVelocity(t, AimAngle(t, x, y)) ==
      Vec2(MuzzleSpeed * t.cos(t.atan2(y, x)), MuzzleSpeed * t.sin(t.atan2(y, x)))
  {
  }

  /** The projectile a firing character launches: at the character's
      position, along its aim, with the initial lifetime. */
  function Bullet(t: Trig, c: Controller): (b: Projectile)
    ensures b.pos == c.pos && b.lifetime == ProjectileLifetime && b.rotation == c.aim
    ensures UnitCircle(t) ==> Norm2(b.vel) == MuzzleSpeed * MuzzleSpeed
  {
    Projectile(c.pos, MuzzleVelocity(t, c.aim), ProjectileLifetime, c.aim)
  }

  /** No two guns share a parent: one gun per character. */
  predicate ParentsDistinct(guns: seq<Gun>)
  {
    forall i, j :: 0 <= i < j < |guns| ==> guns[i].parent != guns[j].parent
  }

  predicate IsParent(guns: seq<Gun>, e: Entity)
  {
    exists i :: 0 <= i < |guns| && guns[i].parent == e
  }

  /** A gun fires when its parent is a controller whose latch is set. */
  predicate Fires(cs: map<Entity, Controller>, g: Gun)
  {
    g.parent in cs && cs[g.parent].fire > 0.0
  }

  /** The guns after the aim stage: every gun whose parent is a controller
      takes the parent's aim as its rotation. */
  function AimedGuns(cs: map<Entity, Controller>, guns: seq<Gun>): (r: seq<Gun>)
    ensures |r| == |guns|
    ensures forall i :: 0 <= i < |guns| ==> r[i].id == guns[i].id && r[i].parent == guns[i].parent
    ensures forall i :: 0 <= i < |guns| && guns[i].parent in cs ==> r[i].rotation == cs[guns[i].parent].aim
    ensures forall i :: 0 <= i < |guns| && guns[i].parent !in cs ==> r[i] == guns[i]
  {
    seq(|guns|, i requires 0 <= i < |guns| =>
      if guns[i].parent in cs then guns[i].(rotation := cs[guns[i].parent].aim) else guns[i])
  }

  /** The controllers after the aim stage: every gun's parent has its latch
      cleared, fired or not. */
  function ClearedLatches(cs: map<Entity, Controller>, guns: seq<Gun>): (r: map<Entity, Controller>)
    ensures r.Keys == cs.Keys
    ensures forall e :: e in cs && IsParent(guns, e) ==> r[e] == cs[e].(fire := 0.0)
    ensures forall e :: e in cs && !IsParent(guns, e) ==> r[e] == cs[e]
  {
    map e | e in cs :: if IsParent(guns, e) then cs[e].(fire := 0.0) else cs[e]
  }

  /** The projectiles the aim stage spawns, in gun order: one per gun whose
      parent's latch is set. */
  function Shots(t: Trig, cs: map<Entity, Controller>, guns: seq<Gun>): (r: seq<Projectile>)
    decreases |guns|
    ensures |r| <= |guns|
  {
    if guns == [] then []
    else
      var pre := guns[..|guns| - 1];
      var g := guns[|guns| - 1];
      var r := Shots(t, cs, pre) + (if Fires(cs, g) then [Bullet(t, cs[g.parent])] else []);
      assert forall i :: 0 <= i < |pre| ==> pre[i] == guns[i];
      r
  }

  /** The number of guns whose parent's latch is set. */
  function FiringCount(cs: map<Entity, Controller>, guns: seq<Gun>): nat
    decreases |guns|
  {
    if guns == [] then 0
    else FiringCount(cs, guns[..|guns| - 1]) + (if Fires(cs, guns[|guns| - 1]) then 1 else 0)
  }

  /** Exactly one projectile per firing gun. */
  lemma {:induction false} ShotsCount(t: Trig, cs: map<Entity, Controller>, guns: seq<Gun>)
    ensures |Shots(t, cs, guns)| == FiringCount(cs, guns)
    decreases |guns|
  {
    if guns != [] {
      ShotsCount(t, cs, guns[..|guns| - 1]);
    }
  }

  /** In gun order: the bullet of the gun at index `i` comes right after the
      bullets of the firing guns before it. */
  lemma {:induction false} ShotsInGunOrder(t: Trig, cs: map<Entity, Controller>, guns: seq<Gun>, i: nat)
    requires i < |guns| && Fires(cs, guns[i])
    ensures FiringCount(cs, guns[..i]) < |Shots(t, cs, guns)|
    ensures Shots(t, cs, guns)[FiringCount(cs, guns[..i])] == Bullet(t, cs[guns[i].parent])
    decreases |guns|
  {
    var pre := guns[..|guns| - 1];
    if i < |pre| {
      assert pre[..i] == guns[..i];
      assert pre[i] == guns[i];
      ShotsInGunOrder(t, cs, pre, i);
    } else {
      assert guns[..i] == pre;
      ShotsCount(t, cs, pre);
    }
  }

  /** Every gun whose parent's latch is set spawns its parent's bullet. */
  lemma {:induction false} FiringGunsShoot(t: Trig, cs: map<Entity, Controller>, guns: seq<Gun>, i: nat)
    requires i < |guns| && Fires(cs, guns[i])
    ensures Bullet(t, cs[guns[i].parent]) in Shots(t, cs, guns)
    decreases |guns|
  {
    var pre := guns[..|guns| - 1];
    if i < |pre| {
      assert pre[i] == guns[i];
      FiringGunsShoot(t, cs, pre, i);
    }
  }

  /** Conversely, every projectile the aim stage spawns comes from a gun
      whose parent's latch was set. */
  lemma {:induction false} ShotsComeFromFiringGuns(t: Trig, cs: map<Entity, Controller>, guns: seq<Gun>, k: nat)
    requires k < |Shots(t, cs, guns)|
    ensures exists i :: 0 <= i < |guns| && Fires(cs, guns[i]) && Shots(t, cs, guns)[k] == Bullet(t, cs[guns[i].parent])
    decreases |guns|
  {
    var pre := guns[..|guns| - 1];
    var g := guns[|guns| - 1];
    if k < |Shots(t, cs, pre)| {
      ShotsComeFromFiringGuns(t, cs, pre, k);
      var i :| 0 <= i < |pre| && Fires(cs, pre[i]) && Shots(t, cs, pre)[k] == Bullet(t, cs[pre[i].parent]);
      assert pre[i] == guns[i];
    } else {
      assert Fires(cs, guns[|guns| - 1]);
    }
  }

  /** No latch set among the guns' parents: the aim stage spawns nothing. */
  lemma {:induction false} ShotsNoneFire(t: Trig, cs: map<Entity, Controller>, guns: seq<Gun>)
    requires forall i :: 0 <= i < |guns| ==> !Fires(cs, guns[i])
    ensures Shots(t, cs, guns) == []
    decreases |guns|
  {
    if guns != [] {
      var pre := guns[..|guns| - 1];
      assert forall i :: 0 <= i < |pre| ==> pre[i] == guns[i];
      ShotsNoneFire(t, cs, pre);
    }
  }

  /** Fresh entity handles `base`, `base + 1`, ... given to spawned projectiles. */
  function Enumerate(base: nat, ps: seq<Projectile>): map<Entity, Projectile>
    decreases |ps|
  {
    if ps == [] then map[]
    else Enumerate(base, ps[..|ps| - 1])[base + |ps| - 1 := ps[|ps| - 1]]
  }

  /** The handles taken are exactly `base` up to `base + |ps|`, the k-th
      projectile under `base + k`. */
  lemma {:induction false} EnumerateHandles(base: nat, ps: seq<Projectile>)
    ensures forall e :: e in Enumerate(base, ps) <==> base <= e < base + |ps|
    ensures forall k :: 0 <= k < |ps| ==> Enumerate(base, ps)[base + k] == ps[k]
    decreases |ps|
  {
    if ps != [] {
      var pre := ps[..|ps| - 1];
      EnumerateHandles(base, pre);
      assert forall k :: 0 <= k < |pre| ==> pre[k] == ps[k];
    }
  }

  // ----- one gun at a time -----

  /** With distinct parents, the gun at index `i` has no parent among the
      guns before it. */
  lemma ParentFreshInPrefix(guns: seq<Gun>, i: nat)
    requires ParentsDistinct(guns) && i < |guns|
    ensures !IsParent(guns[..i], guns[i].parent)
  {
    assert forall j :: 0 <= j < i ==> guns[..i][j] == guns[j];
  }

  lemma AimedGunsSnoc(cs: map<Entity, Controller>, pre: seq<Gun>, g: Gun)
    ensures AimedGuns(cs, pre + [g]) ==
      AimedGuns(cs, pre) + [if g.parent in cs then g.(rotation := cs[g.parent].aim) else g]
  {
    var l, r := AimedGuns(cs, pre + [g]), AimedGuns(cs, pre) + [if g.parent in cs then g.(rotation := cs[g.parent].aim) else g];
    assert forall i :: 0 <= i < |pre| ==> (pre + [g])[i] == pre[i];
    assert l[|pre|] == r[|pre|];
    assert forall i :: 0 <= i < |pre| ==> l[i] == r[i];
  }

  lemma ClearedLatchesSnoc(cs: map<Entity, Controller>, pre: seq<Gun>, g: Gun)
    ensures ClearedLatches(cs, pre + [g]) ==
      if g.parent in cs then ClearedLatches(cs, pre)[g.parent := cs[g.parent].(fire := 0.0)] else ClearedLatches(cs, pre)
  {
    forall e | e in cs
      ensures IsParent(pre + [g], e) <==> IsParent(pre, e) || e == g.parent
    {
      if IsParent(pre, e) {
        var j :| 0 <= j < |pre| && pre[j].parent == e;
        assert (pre + [g])[j] == pre[j];
      }
      if e == g.parent {
        assert (pre + [g])[|pre|] == g;
      }
      if IsParent(pre + [g], e) && e != g.parent {
        var j :| 0 <= j < |pre + [g]| && (pre + [g])[j].parent == e;
        assert j < |pre| && pre[j] == (pre + [g])[j];
      }
    }
  }

  lemma ShotsSnoc(t: Trig, cs: map<Entity, Controller>, pre: seq<Gun>, g: Gun)
    ensures Shots(t, cs, pre + [g]) ==
      Shots(t, cs, pre) + (if Fires(cs, g) then [Bullet(t, cs[g.parent])] else [])
  {
    assert (pre + [g])[..|pre|] == pre;
  }

  lemma EnumerateSnoc(base: nat, ps: seq<Projectile>, p: Projectile)
    ensures Enumerate(base, ps + [p]) == Enumerate(base, ps)[base + |ps| := p]
  {
    assert (ps + [p])[..|ps|] == ps;
  }

  /** The aim stage after gun `i`, from the stage after the guns before it:
      the parent's latch is cleared, and a firing gun queues its parent's
      bullet. */
  lemma AimStep(t: Trig, c0: map<Entity, Controller>, g0: seq<Gun>, i: nat)
    requires ParentsDistinct(g0) && i < |g0|
    ensures var g, cs := g0[i], ClearedLatches(c0, g0[..i]);
      && (g.parent in cs <==> g.parent in c0)
      && (g.parent in cs ==> cs[g.parent] == c0[g.parent])
      && ClearedLatches(c0, g0[..i + 1]) == (if g.parent in c0 then cs[g.parent := c0[g.parent].(fire := 0.0)] else cs)
      && Shots(t, c0, g0[..i + 1]) ==
         Shots(t, c0, g0[..i]) + (if Fires(c0, g) then [Bullet(t, c0[g.parent])] else [])
  {
    var g := g0[i];
    assert g0[..i + 1] == g0[..i] + [g];
    ParentFreshInPrefix(g0, i);
    ClearedLatchesSnoc(c0, g0[..i], g);
    ShotsSnoc(t, c0, g0[..i], g);
  }
}
