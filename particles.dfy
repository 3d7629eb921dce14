/** The particle field drawn behind the coming-soon page.

    A canvas holds fifty particles.  Each animation frame moves every particle,
    in index order: an attraction impulse toward the mouse for the particles
    that are attracted and near enough, one Euler step, friction, and a
    reflect-and-clamp against each edge of the canvas.  Right after a particle
    has moved, if its index is a multiple of three, it is joined by a line to
    every other particle closer than 150 pixels, faded by distance.

    Positions and velocities are reals.  The attraction impulse (an angle and
    its cosine and sine) is a parameter of the frame: only the condition under
    which it is applied is modelled.  Drawing is the list of connections a frame
    produces; circles, colours on the canvas and scheduling are not modelled.
 */
module Particles {

  datatype Option<T> = None | Some(value: T)

  const ParticleCount: nat := 50
  const Friction: real := 0.98
  const AttractionRadius: real := 200.0
  const ConnectionRadius: real := 150.0
  const ConnectionStride: nat := 3
  const Palette: seq<string> := ["#FD4E1A", "#FEB52C", "#ff6b35"]

  /** A value returned by Math.random(). */
  type Unit = r: real | 0.0 <= r < 1.0

  datatype Particle = Particle(
    x: real, y: real,
    vx: real, vy: real,
    radius: real, color: string, opacity: real,
    attractToMouse: bool)

  // ---------------------------------------------------------------------------
  // Creation

  /** The eight Math.random() results that the creation of one particle
      consumes, in the order of the source; `color` is the one that
      `getRandomColor` draws for the palette index. */
  datatype Draw = Draw(x: Unit, y: Unit, vx: Unit, vy: Unit, radius: Unit, color: Unit, opacity: Unit, attract: Unit)

  /** One particle of `initParticles` (lines 32-41 of the source), on a canvas
      of the given size. */
  function Spawn(d: Draw, width: nat, height: nat): (p: Particle)
    ensures 0.0 <= p.x <= width as real && 0.0 <= p.y <= height as real
    ensures -0.5 <= p.vx < 0.5 && -0.5 <= p.vy < 0.5
    ensures 0.5 <= p.radius < 2.0
    ensures 0.1 <= p.opacity < 0.6
    ensures p.color in Palette
    ensures p.attractToMouse <==> d.attract > 0.7
  {
    var index := PaletteIndex(d.color);
    var x := Scale(d.x, width as real);
    var y := Scale(d.y, height as real);
    Particle(x, y,
             (d.vx - 0.5) * 1.0, (d.vy - 0.5) * 1.0,
             d.radius * 1.5 + 0.5, Palette[index], d.opacity * 0.5 + 0.1,
             d.attract > 0.7)
  }

  /** The particles of `initParticles`, particle k from the k-th group of
      draws. */
  function Spawned(draws: nat -> Draw, width: nat, height: nat): (ps: seq<Particle>)
    ensures |ps| == ParticleCount
    ensures forall k :: 0 <= k < ParticleCount ==> ps[k] == Spawn(draws(k), width, height)
  {
    seq(ParticleCount, (k: int) requires 0 <= k => Spawn(draws(k), width, height))
  }

  /** `Math.floor(Math.random() * colors.length)` (line 47 of the source). */
  function PaletteIndex(r: Unit): (i: nat)
    ensures i < |Palette|
  {
    var scaled := r * 3.0;
    assert 0.0 <= scaled < 3.0;
    var f := scaled.Floor;
    assert f as real <= scaled < f as real + 1.0;
    f
  }

  /** `Math.random() * size`, which lies in [0, size]. */
  function Scale(r: Unit, size: real): (v: real)
    requires 0.0 <= size
    ensures 0.0 <= v <= size
  {
    MulNonneg(r, size);
    MulNonneg(1.0 - r, size);
    assert (1.0 - r) * size == size - r * size;
    r * size
  }

  lemma MulNonneg(a: real, b: real)
    requires 0.0 <= a && 0.0 <= b
    ensures 0.0 <= a * b
  {
  }

  // ---------------------------------------------------------------------------
  // One particle's step

  /** A mouse coordinate as JavaScript's `&&` reads it: undefined until the
      first mousemove, and 0 is false as well. */
  predicate Truthy(m: Option<real>)
  {
    m.Some? && m.value != 0.0
  }

  /** The velocity increment toward the mouse, given the vector (dx, dy) from
      the particle to the mouse, for a particle within AttractionRadius. */
  type Impulse = (real, real) -> (real, real)

  /** What a frame reads besides the particle: the canvas size, the last mouse
      position and the attraction impulse. */
  datatype Env = Env(width: nat, height: nat, mouseX: Option<real>, mouseY: Option<real>, impulse: Impulse)

  /** The attraction of lines 60-72 of the source.  The distance test
      `sqrt(dx*dx + dy*dy) < 200` is written on the squared distance (see
      SqrtBelow). */
  function Attract(p: Particle, e: Env): (q: Particle)
    ensures q.x == p.x && q.y == p.y
    ensures q.radius == p.radius && q.color == p.color
    ensures q.opacity == p.opacity && q.attractToMouse == p.attractToMouse
  {
    if p.attractToMouse && Truthy(e.mouseX) && Truthy(e.mouseY) then
      var dx, dy := e.mouseX.value - p.x, e.mouseY.value - p.y;
      if dx * dx + dy * dy < AttractionRadius * AttractionRadius then
        var dv := e.impulse(dx, dy);
        p.(vx := p.vx + dv.0, vy := p.vy + dv.1)
      else
        p
    else
      p
  }

  /** Position plus velocity, one Euler step of unit time (lines 75-76). */
  function Integrate(p: Particle): Particle
  {
    p.(x := p.x + p.vx, y := p.y + p.vy)
  }

  /** Friction (lines 79-80). */
  function Damp(p: Particle): Particle
  {
    p.(vx := p.vx * Friction, vy := p.vy * Friction)
  }

  /** `Math.max(0, Math.min(limit, v))`. */
  function Clamp(v: real, limit: real): real
  {
    var m := if limit < v then limit else v;
    if 0.0 > m then 0.0 else m
  }

  /** The bounce along one axis (lines 83-90): a position outside [0, limit]
      reverses the velocity and is clamped back to the nearer edge. */
  function BounceAxis(pos: real, vel: real, limit: nat): (r: (real, real))
    ensures 0.0 <= r.0 <= limit as real
    ensures r.1 == if pos < 0.0 || pos > limit as real then -vel else vel
    ensures pos < 0.0 ==> r.0 == 0.0
    ensures pos > limit as real ==> r.0 == limit as real
    ensures 0.0 <= pos <= limit as real ==> r.0 == pos
  {
    if pos < 0.0 || pos > limit as real then (Clamp(pos, limit as real), vel * -1.0)
    else (pos, vel)
  }

  function Bounce(p: Particle, width: nat, height: nat): Particle
  {
    var bx := BounceAxis(p.x, p.vx, width);
    var byy := BounceAxis(p.y, p.vy, height);
    p.(x := bx.0, vx := bx.1, y := byy.0, vy := byy.1)
  }

  /** Everything a frame does to one particle before drawing it. */
  function StepParticle(p: Particle, e: Env): Particle
  {
    Bounce(Damp(Integrate(Attract(p, e))), e.width, e.height)
  }

  /** After its step a particle lies on the canvas. */
  lemma StepInBounds(p: Particle, e: Env)
    ensures var q := StepParticle(p, e);
      0.0 <= q.x <= e.width as real && 0.0 <= q.y <= e.height as real
  {
  }

  /** A step changes position and velocity only. */
  lemma StepKeepsAttributes(p: Particle, e: Env)
    ensures var q := StepParticle(p, e);
      q.radius == p.radius && q.color == p.color &&
      q.opacity == p.opacity && q.attractToMouse == p.attractToMouse
  {
  }

  /** The step axis by axis: with `a` the particle after attraction, the new
      x and vx depend only on a.x, a.vx and the width (and y likewise on the
      height); the velocity is 0.98 times a's, negated exactly when the moved
      position left [0, width]. */
  lemma StepPerAxis(p: Particle, e: Env)
    ensures var a, q := Attract(p, e), StepParticle(p, e);
      var mx, my := a.x + a.vx, a.y + a.vy;
      (q.vx == if mx < 0.0 || mx > e.width as real then -(Friction * a.vx) else Friction * a.vx) &&
      (q.vy == if my < 0.0 || my > e.height as real then -(Friction * a.vy) else Friction * a.vy) &&
      q.x == Clamp(mx, e.width as real) && q.y == Clamp(my, e.height as real)
  {
    var a := Attract(p, e);
    var mx, my := a.x + a.vx, a.y + a.vy;
    var bx := BounceAxis(mx, a.vx * Friction, e.width);
    var byy := BounceAxis(my, a.vy * Friction, e.height);
    assert 0.0 <= mx <= e.width as real ==> Clamp(mx, e.width as real) == mx;
    assert 0.0 <= my <= e.height as real ==> Clamp(my, e.height as real) == my;
  }

  /** Without attraction, the velocity entering the Euler step is the
      particle's own: the mouse is ignored when the particle is not attracted,
      when a coordinate is unset or 0, or when the mouse is 200 or more away. */
  lemma AttractionGuard(p: Particle, e: Env)
    requires !p.attractToMouse || !Truthy(e.mouseX) || !Truthy(e.mouseY) ||
      var dx, dy := e.mouseX.value - p.x, e.mouseY.value - p.y;
      dx * dx + dy * dy >= AttractionRadius * AttractionRadius
    ensures Attract(p, e) == p
  {
  }

  /** Within 200 the impulse is added to the velocity. */
  lemma AttractionApplied(p: Particle, e: Env)
    requires p.attractToMouse && Truthy(e.mouseX) && Truthy(e.mouseY)
    requires var dx, dy := e.mouseX.value - p.x, e.mouseY.value - p.y;
      dx * dx + dy * dy < AttractionRadius * AttractionRadius
    ensures var dv := e.impulse(e.mouseX.value - p.x, e.mouseY.value - p.y);
      Attract(p, e).vx == p.vx + dv.0 && Attract(p, e).vy == p.vy + dv.1
  {
  }

  /** A distance below a limit is a squared distance below the limit's square:
      the comparisons `distance < 200` and `distance < 150` of the source, read
      on squared distances. */
  lemma SqrtBelow(distance: real, squared: real, limit: real)
    requires 0.0 <= distance && 0.0 < limit && distance * distance == squared
    ensures distance < limit <==> squared < limit * limit
  {
    if distance < limit {
      assert (limit - distance) * distance >= 0.0;
      assert (limit - distance) * limit > 0.0;
    } else {
      assert (distance - limit) * distance >= 0.0;
      assert (distance - limit) * limit >= 0.0;
    }
  }

  function SquaredSpeed(p: Particle): real
  {
    p.vx * p.vx + p.vy * p.vy
  }

  /** Friction: without attraction, a step multiplies the squared speed by
      0.98 * 0.98, bounce or not, so the speed never grows and strictly falls
      while the particle moves. */
  lemma StepDamps(p: Particle, e: Env)
    requires Attract(p, e) == p
    ensures SquaredSpeed(StepParticle(p, e)) == Friction * Friction * SquaredSpeed(p)
    ensures SquaredSpeed(StepParticle(p, e)) <= SquaredSpeed(p)
    ensures SquaredSpeed(p) > 0.0 ==> SquaredSpeed(StepParticle(p, e)) < SquaredSpeed(p)
  {
    StepPerAxis(p, e);
    var q := StepParticle(p, e);
    assert q.vx * q.vx == Friction * Friction * (p.vx * p.vx);
    assert q.vy * q.vy == Friction * Friction * (p.vy * p.vy);
  }

  /** Without attraction and away from the edges, the velocity is exactly 0.98
      times what it was. */
  lemma StepFreeFlight(p: Particle, e: Env)
    requires Attract(p, e) == p
    requires 0.0 <= p.x + p.vx <= e.width as real && 0.0 <= p.y + p.vy <= e.height as real
    ensures StepParticle(p, e) == p.(x := p.x + p.vx, y := p.y + p.vy,
                                     vx := Friction * p.vx, vy := Friction * p.vy)
  {
    StepPerAxis(p, e);
  }

  /** A particle 5 beyond the right edge moving right at 2 comes back onto the
      edge moving left at 1.96. */
  lemma ReflectAtRightEdge(p: Particle, e: Env)
    requires Attract(p, e) == p
    requires p.x == e.width as real + 5.0 && p.vx == 2.0
    ensures StepParticle(p, e).x == e.width as real && StepParticle(p, e).vx == -1.96
  {
    StepPerAxis(p, e);
  }

  // ---------------------------------------------------------------------------
  // Connections

  const ConnectionSquaredRadius: real := ConnectionRadius * ConnectionRadius

  function SquaredDistance(p: Particle, q: Particle): real
  {
    (p.x - q.x) * (p.x - q.x) + (p.y - q.y) * (p.y - q.y)
  }

  /** A line drawn from particle `source` to particle `target`, whose squared
      distance was `squared`. */
  datatype Connection = Connection(source: nat, target: nat, squared: real)

  /** The lines the particle at index i draws to the particles of index
      below n (the inner forEach of lines 101-117 of the source). */
  function ConnectionsFrom(ps: seq<Particle>, i: nat, n: nat): (cs: seq<Connection>)
    requires i < |ps| && n <= |ps|
    ensures forall a :: 0 <= a < |cs| ==> cs[a].source == i && cs[a].target < n
  {
    if n == 0 then []
    else
      var j := n - 1;
      var rest := ConnectionsFrom(ps, i, j);
      var sq := SquaredDistance(ps[i], ps[j]);
      if i != j && sq < ConnectionSquaredRadius then rest + [Connection(i, j, sq)] else rest
  }

  predicate TargetsIncreasing(cs: seq<Connection>)
  {
    forall a, b :: 0 <= a < b < |cs| ==> cs[a].target < cs[b].target
  }

  /** The lines of particle i come in increasing order of target, as the
      inner loop visits the targets. */
  lemma {:induction false} ConnectionsFromOrdered(ps: seq<Particle>, i: nat, n: nat)
    requires i < |ps| && n <= |ps|
    ensures TargetsIncreasing(ConnectionsFrom(ps, i, n))
  {
    if n > 0 {
      ConnectionsFromOrdered(ps, i, n - 1);
      var rest := ConnectionsFrom(ps, i, n - 1);
      var sq := SquaredDistance(ps[i], ps[n - 1]);
      if i != n - 1 && sq < ConnectionSquaredRadius {
        var cs := rest + [Connection(i, n - 1, sq)];
        forall a, b | 0 <= a < b < |cs| ensures cs[a].target < cs[b].target {
          assert cs[a] == rest[a];
          if b < |rest| {
            assert cs[b] == rest[b];
          } else {
            assert cs[b].target == n - 1;
          }
        }
      }
    }
  }

  /** A line from i to j is drawn exactly when j is another particle closer
      than 150. */
  lemma {:induction false} ConnectionsFromExact(ps: seq<Particle>, i: nat, n: nat, c: Connection)
    requires i < |ps| && n <= |ps|
    ensures c in ConnectionsFrom(ps, i, n) <==>
      c.source == i && c.target < n && c.target != i &&
      c.squared == SquaredDistance(ps[i], ps[c.target]) && c.squared < ConnectionSquaredRadius
  {
    if n > 0 {
      ConnectionsFromExact(ps, i, n - 1, c);
    }
  }

  /** The alpha of a line (line 109 of the source). */
  function Alpha(distance: real): real
  {
    (1.0 - distance / ConnectionRadius) * 0.1
  }

  /** Every line drawn is visible and at most 0.1 opaque. */
  lemma AlphaRange(distance: real)
    requires 0.0 <= distance && distance * distance < ConnectionSquaredRadius
    ensures 0.0 < Alpha(distance) <= 0.1
  {
    SqrtBelow(distance, distance * distance, ConnectionRadius);
  }

  // ---------------------------------------------------------------------------
  // One frame

  /** Every particle of `ps` after its step: the particles as a frame leaves
      them. */
  function Stepped(ps: seq<Particle>, e: Env): (qs: seq<Particle>)
    ensures |qs| == |ps|
  {
    if ps == [] then [] else [StepParticle(ps[0], e)] + Stepped(ps[1..], e)
  }

  lemma {:induction false} SteppedAt(ps: seq<Particle>, e: Env, k: nat)
    requires k < |ps|
    ensures Stepped(ps, e)[k] == StepParticle(ps[k], e)
  {
    if k > 0 {
      SteppedAt(ps[1..], e, k - 1);
    }
  }

  /** Every particle of `ps` lies on a canvas of the given size. */
  predicate OnCanvas(ps: seq<Particle>, width: nat, height: nat)
  {
    forall k :: 0 <= k < |ps| ==>
      0.0 <= ps[k].x <= width as real && 0.0 <= ps[k].y <= height as real
  }

  /** After a frame every particle lies on the canvas. */
  lemma SteppedOnCanvas(ps: seq<Particle>, e: Env)
    ensures OnCanvas(Stepped(ps, e), e.width, e.height)
  {
    var qs := Stepped(ps, e);
    forall k | 0 <= k < |qs|
      ensures 0.0 <= qs[k].x <= e.width as real && 0.0 <= qs[k].y <= e.height as real
    {
      SteppedAt(ps, e, k);
      StepInBounds(ps[k], e);
    }
  }

  /** With no mouse position a frame attracts no particle, so the impulse
      does not matter. */
  lemma {:induction false} SteppedWithoutMouse(ps: seq<Particle>, e: Env, e': Env)
    requires e.width == e'.width && e.height == e'.height
    requires !Truthy(e.mouseX) && !Truthy(e'.mouseX)
    ensures Stepped(ps, e) == Stepped(ps, e')
  {
    if ps != [] {
      AttractionGuard(ps[0], e);
      AttractionGuard(ps[0], e');
      SteppedWithoutMouse(ps[1..], e, e');
    }
  }

  /** The particles as the turn of particle n - 1 leaves them: the first n as
      `stepped` has them, the others as the frame found them in `ps`. */
  function Partial(ps: seq<Particle>, stepped: seq<Particle>, n: nat): (qs: seq<Particle>)
    requires |stepped| == |ps| && n <= |ps|
    ensures |qs| == |ps|
  {
    stepped[..n] + ps[n..]
  }

  /** Before the first turn nothing has moved; after the last every particle
      has. */
  lemma PartialEnds(ps: seq<Particle>, stepped: seq<Particle>)
    requires |stepped| == |ps|
    ensures Partial(ps, stepped, 0) == ps
    ensures Partial(ps, stepped, |ps|) == stepped
  {
    assert stepped[..0] + ps[0..] == ps;
    assert stepped[..|ps|] + ps[|ps|..] == stepped;
  }

  /** Turn n moves particle n and no other. */
  lemma PartialNext(ps: seq<Particle>, stepped: seq<Particle>, n: nat)
    requires |stepped| == |ps| && n < |ps|
    ensures Partial(ps, stepped, n)[n] == ps[n]
    ensures Partial(ps, stepped, n)[n := stepped[n]] == Partial(ps, stepped, n + 1)
  {
    var before, after := Partial(ps, stepped, n), Partial(ps, stepped, n + 1);
    assert before[n] == ps[n];
    forall k | 0 <= k < |ps| ensures before[n := stepped[n]][k] == after[k] {
      if k < n {
        assert before[k] == stepped[k] && after[k] == stepped[k];
      } else if k > n {
        assert before[k] == ps[k] && after[k] == ps[k];
      }
    }
  }

  /** The lines particle i draws in its turn. */
  function TurnConnections(ps: seq<Particle>, stepped: seq<Particle>, i: nat): (cs: seq<Connection>)
    requires |stepped| == |ps| && i < |ps|
  {
    if i % ConnectionStride == 0 then ConnectionsFrom(Partial(ps, stepped, i + 1), i, |ps|) else []
  }

  /** Only particle i draws in its turn. */
  lemma TurnConnectionsSource(ps: seq<Particle>, stepped: seq<Particle>, i: nat, c: Connection)
    requires |stepped| == |ps| && i < |ps|
    ensures c in TurnConnections(ps, stepped, i) ==> c.source == i
  {
  }

  /** The line `c` is one that particle `c.source` draws when its turn comes
      in the frame: the source is a multiple of three, the target another
      particle, and, with the particles up to the source moved and those after
      it not yet, the two are closer than 150. */
  predicate DrawnInTurn(ps: seq<Particle>, stepped: seq<Particle>, c: Connection)
    requires |stepped| == |ps|
  {
    c.source < |ps| && c.source % ConnectionStride == 0 &&
    c.target < |ps| && c.target != c.source &&
    var view := Partial(ps, stepped, c.source + 1);
    c.squared == SquaredDistance(view[c.source], view[c.target]) &&
    c.squared < ConnectionSquaredRadius
  }

  /** Particle i draws exactly the lines from itself that the frame draws in
      its turn. */
  lemma TurnConnectionsExact(ps: seq<Particle>, stepped: seq<Particle>, i: nat, c: Connection)
    requires |stepped| == |ps| && i < |ps|
    ensures c in TurnConnections(ps, stepped, i) <==> c.source == i && DrawnInTurn(ps, stepped, c)
  {
    if i % ConnectionStride == 0 {
      ConnectionsFromExact(Partial(ps, stepped, i + 1), i, |ps|, c);
    }
  }

  /** The lists `turn(0)`, ..., `turn(n - 1)` one after the other. */
  function Concat(turn: nat -> seq<Connection>, n: nat): seq<Connection>
  {
    if n == 0 then [] else Concat(turn, n - 1) + turn(n - 1)
  }

  /** When the lines of turn i all start at i, the first n turns together
      hold a line exactly when its source is below n and its own turn holds
      it. */
  lemma {:induction false} ConcatByTurn(turn: nat -> seq<Connection>, n: nat, c: Connection)
    requires forall i: nat, d :: d in turn(i) ==> d.source == i
    ensures c in Concat(turn, n) <==> c.source < n && c in turn(c.source)
  {
    if n > 0 {
      ConcatByTurn(turn, n - 1, c);
      assert c in Concat(turn, n) <==> c in Concat(turn, n - 1) || c in turn(n - 1);
    }
  }

  /** The turns of a frame over `ps`, as a function of the index. */
  function TurnsOf(ps: seq<Particle>, stepped: seq<Particle>): nat -> seq<Connection>
    requires |stepped| == |ps|
  {
    (i: nat) => if i < |ps| then TurnConnections(ps, stepped, i) else []
  }

  /** The lines of a frame that started with particles `ps`, drawn by the
      particles of index below n, in drawing order. */
  function FrameConnections(ps: seq<Particle>, stepped: seq<Particle>, n: nat): seq<Connection>
    requires |stepped| == |ps| && n <= |ps|
  {
    Concat(TurnsOf(ps, stepped), n)
  }

  /** One more turn appends that turn's lines. */
  lemma FrameConnectionsNext(ps: seq<Particle>, stepped: seq<Particle>, n: nat)
    requires |stepped| == |ps| && n < |ps|
    ensures FrameConnections(ps, stepped, n + 1) ==
      FrameConnections(ps, stepped, n) + TurnConnections(ps, stepped, n)
  {
    assert TurnsOf(ps, stepped)(n) == TurnConnections(ps, stepped, n);
  }

  /** A frame whose first n particles have had their turn has drawn exactly
      the lines those particles drew in their turns. */
  lemma FrameConnectionsByTurn(ps: seq<Particle>, stepped: seq<Particle>, n: nat, c: Connection)
    requires |stepped| == |ps| && n <= |ps|
    ensures c in FrameConnections(ps, stepped, n) <==>
      c.source < n && c in TurnConnections(ps, stepped, c.source)
  {
    var turn := TurnsOf(ps, stepped);
    forall i: nat, d | d in turn(i) ensures d.source == i {
      if i < |ps| {
        TurnConnectionsSource(ps, stepped, i, d);
      }
    }
    ConcatByTurn(turn, n, c);
    if c.source < n {
      assert turn(c.source) == TurnConnections(ps, stepped, c.source);
    }
  }

  /** A whole frame draws a line from i to j exactly when i is a multiple of
      three, j is another particle, and the two are closer than 150 at i's
      turn, with i and the particles before it moved and those after it not
      yet. */
  lemma FrameConnectionsExact(ps: seq<Particle>, stepped: seq<Particle>, c: Connection)
    requires |stepped| == |ps|
    ensures c in FrameConnections(ps, stepped, |ps|) <==> DrawnInTurn(ps, stepped, c)
  {
    FrameConnectionsByTurn(ps, stepped, |ps|, c);
    if c.source < |ps| {
      TurnConnectionsExact(ps, stepped, c.source, c);
    }
  }

  // ---------------------------------------------------------------------------
  // The canvas

  class ParticleCanvas {
    var width: nat
    var height: nat
    var particles: seq<Particle>
    var mouseX: Option<real>
    var mouseY: Option<real>

    /** The particle set has its configured size. */
    ghost predicate Valid()
      reads this
    {
      |particles| == ParticleCount
    }

    /** Every particle lies on the canvas. */
    ghost predicate InBounds()
      reads this
    {
      OnCanvas(particles, width, height)
    }

    function EnvWith(impulse: Impulse): (e: Env)
      reads this`width, this`height, this`mouseX, this`mouseY
      ensures e.width == width && e.height == height && e.mouseX == mouseX && e.mouseY == mouseY
      ensures e.impulse == impulse
    {
      Env(width, height, mouseX, mouseY, impulse)
    }

    /** The constructor sizes the canvas to the window, creates the particles
        and draws the first frame.  The mouse is unknown until it first
        moves, so that frame attracts nothing, whatever the impulse. */
    constructor (innerWidth: nat, innerHeight: nat, draws: nat -> Draw, impulse: Impulse)
      ensures Valid() && InBounds()
      ensures width == innerWidth && height == innerHeight
      ensures mouseX == None && mouseY == None
      ensures particles == Stepped(Spawned(draws, innerWidth, innerHeight),
                                   Env(innerWidth, innerHeight, None, None, impulse))
    {
      width, height := innerWidth, innerHeight;
      particles := [];
      mouseX, mouseY := None, None;
      new;
      InitParticles(draws);
      ghost var spawned, e := particles, EnvWith(impulse);
      assert e == Env(innerWidth, innerHeight, None, None, impulse);
      var lines := Animate(impulse);
      assert particles == Stepped(spawned, e);
    }

    /** `resize`: the canvas takes the window's size.  Particles are not moved,
        so some may lie outside the canvas until the next frame. */
    method Resize(innerWidth: nat, innerHeight: nat)
      modifies this`width, this`height
      ensures width == innerWidth && height == innerHeight
    {
      width, height := innerWidth, innerHeight;
    }

    /** `initParticles`: particle k is made from the k-th group of random
        draws, on the canvas as it is now. */
    method InitParticles(draws: nat -> Draw)
      modifies this`particles
      ensures particles == Spawned(draws, width, height)
    {
      particles := [];
      var i := 0;
      while i < ParticleCount
        invariant 0 <= i <= ParticleCount && |particles| == i
        invariant forall k :: 0 <= k < i ==> particles[k] == Spawn(draws(k), width, height)
      {
        particles := particles + [Spawn(draws(i), width, height)];
        i := i + 1;
      }
      assert particles == Spawned(draws, width, height);
    }

    /** `onMouseMove`: the last pointer position wins. */
    method OnMouseMove(clientX: real, clientY: real)
      modifies this`mouseX, this`mouseY
      ensures mouseX == Some(clientX) && mouseY == Some(clientY)
    {
      mouseX, mouseY := Some(clientX), Some(clientY);
    }

    /** The inner forEach: the lines particle i draws, target by target. */
    static method DrawConnections(ps: seq<Particle>, i: nat) returns (lines: seq<Connection>)
      requires i < |ps|
      ensures lines == ConnectionsFrom(ps, i, |ps|)
    {
      lines := [];
      var j := 0;
      while j < |ps|
        invariant 0 <= j <= |ps|
        invariant lines == ConnectionsFrom(ps, i, j)
      {
        if i != j {
          var sq := SquaredDistance(ps[i], ps[j]);
          if sq < ConnectionSquaredRadius {
            lines := lines + [Connection(i, j, sq)];
          }
        }
        j := j + 1;
      }
    }

    /** One turn of the frame's loop: particle i takes its step and, when i
        is a multiple of three, adds its lines, drawn against the particles as
        they are at that moment, to those of the earlier turns. */
    method Turn(ghost start: seq<Particle>, ghost stepped: seq<Particle>, e: Env, i: nat,
                lines: seq<Connection>) returns (lines': seq<Connection>)
      requires stepped == Stepped(start, e) && i < |start|
      requires particles == Partial(start, stepped, i)
      requires lines == FrameConnections(start, stepped, i)
      modifies this`particles
      ensures particles == Partial(start, stepped, i + 1)
      ensures lines' == FrameConnections(start, stepped, i + 1)
    {
      SteppedAt(start, e, i);
      PartialNext(start, stepped, i);
      FrameConnectionsNext(start, stepped, i);
      particles := particles[i := StepParticle(particles[i], e)];
      lines' := lines;
      if i % ConnectionStride == 0 {
        var drawn := DrawConnections(particles, i);
        lines' := lines' + drawn;
      }
    }

    /** `animate`, one frame: every particle takes its step, in index order,
        and each particle whose index is a multiple of three draws its lines
        right after its own step. */
    method Animate(impulse: Impulse) returns (lines: seq<Connection>)
      modifies this`particles
      ensures particles == Stepped(old(particles), EnvWith(impulse))
      ensures lines == FrameConnections(old(particles), particles, |particles|)
      ensures InBounds()
    {
      ghost var start := particles;
      var e := EnvWith(impulse);
      ghost var stepped := Stepped(start, e);
      PartialEnds(start, stepped);
      lines := [];
      var i := 0;
      while i < |particles|
        invariant 0 <= i <= |particles| == |start|
        invariant particles == Partial(start, stepped, i)
        invariant lines == FrameConnections(start, stepped, i)
      {
        lines := Turn(start, stepped, e, i, lines);
        i := i + 1;
      }
      assert e == EnvWith(impulse);
      SteppedOnCanvas(start, e);
    }
  }
}
