/** The player jet's horizontal motion: acceleration from the held keys,
    friction when no key is held, a speed limit and a wall stop. */
module Movement {
  const Acceleration: real := 0.8
  const MaxSpeed: real := 2.5
  const Friction: real := 0.85
  /** The jet's horizontal range, in percent of the container width. */
  const LeftWall: real := 5.0
  const RightWall: real := 95.0

  datatype Jet = Jet(position: real, velocity: real)

  predicate ValidJet(jet: Jet)
  {
    LeftWall <= jet.position <= RightWall && -MaxSpeed <= jet.velocity <= MaxSpeed
  }

  /** Velocity after the held keys act: the left key pushes by -0.8, the right
      key by +0.8, and only when neither is held friction scales it by 0.85. */
  function Steer(v: real, left: bool, right: bool): (w: real)
    ensures left && !right ==> w == v - Acceleration
    ensures right && !left ==> w == v + Acceleration
    ensures left && right ==> w == v
    ensures !left && !right ==> w == v * Friction
  {
    var v1 := if left then v - Acceleration else v;
    var v2 := if right then v1 + Acceleration else v1;
    if !left && !right then v2 * Friction else v2
  }

  function ClampSpeed(v: real): (c: real)
    ensures -MaxSpeed <= c <= MaxSpeed
    ensures -MaxSpeed <= v <= MaxSpeed ==> c == v
    ensures v > MaxSpeed ==> c == MaxSpeed
    ensures v < -MaxSpeed ==> c == -MaxSpeed
  {
    if v > MaxSpeed then MaxSpeed else if v < -MaxSpeed then -MaxSpeed else v
  }

  /** Moving by v from `position` would leave the jet's range. */
  predicate HitsWall(position: real, v: real)
  {
    position + v < LeftWall || position + v > RightWall
  }

  /** One tick of jet motion. */
  function JetStep(jet: Jet, left: bool, right: bool): (next: Jet)
    ensures ValidJet(next)
    ensures next.velocity == 0.0 || next.position == jet.position + next.velocity
  {
    var v := ClampSpeed(Steer(jet.velocity, left, right));
    var p := jet.position + v;
    if p < LeftWall then Jet(LeftWall, 0.0)
    else if p > RightWall then Jet(RightWall, 0.0)
    else Jet(p, v)
  }

  /** When the wall clamp fires the jet stops dead at the wall it hit. */
  lemma WallStopsJet(jet: Jet, left: bool, right: bool)
    requires HitsWall(jet.position, ClampSpeed(Steer(jet.velocity, left, right)))
    ensures var c := ClampSpeed(Steer(jet.velocity, left, right));
            JetStep(jet, left, right) == if jet.position + c < LeftWall then Jet(LeftWall, 0.0) else Jet(RightWall, 0.0)
  {
  }

  /** Away from the walls the jet moves by the steered, clamped velocity and
      keeps it, whichever keys are held. */
  lemma FreeStep(jet: Jet, left: bool, right: bool)
    requires !HitsWall(jet.position, ClampSpeed(Steer(jet.velocity, left, right)))
    ensures var c := ClampSpeed(Steer(jet.velocity, left, right));
            JetStep(jet, left, right) == Jet(jet.position + c, c)
  {
  }

  /** With no key held and no wall in the way, the velocity decays by the
      friction factor and the jet moves by the decayed velocity. */
  lemma CoastingAppliesFriction(jet: Jet)
    requires ValidJet(jet)
    requires !HitsWall(jet.position, jet.velocity * Friction)
    ensures JetStep(jet, false, false) == Jet(jet.position + jet.velocity * Friction, jet.velocity * Friction)
  {
  }

  /** With both keys held the two pushes cancel and no friction applies: the
      velocity is kept as it is. */
  lemma BothKeysKeepVelocity(jet: Jet)
    requires ValidJet(jet)
    requires !HitsWall(jet.position, jet.velocity)
    ensures JetStep(jet, true, true) == Jet(jet.position + jet.velocity, jet.velocity)
  {
  }

  /** With one key held and no wall in the way, the velocity moves by 0.8 in
      that key's direction (up to the speed limit), no friction applies, and
      the jet moves by the new velocity. */
  lemma HeldKeyPushes(jet: Jet, left: bool)
    requires ValidJet(jet)
    requires !HitsWall(jet.position, ClampSpeed(if left then jet.velocity - Acceleration else jet.velocity + Acceleration))
    ensures var c := ClampSpeed(if left then jet.velocity - Acceleration else jet.velocity + Acceleration);
            JetStep(jet, left, !left) == Jet(jet.position + c, c)
  {
  }

  /** The jet after n ticks with only the left key held. */
  function HoldLeft(jet: Jet, n: nat): (r: Jet)
    decreases n
  {
    if n == 0 then jet else HoldLeft(JetStep(jet, true, false), n - 1)
  }

  /** A measure that holding left lowers by at least 2.5 per tick until the
      jet rests at the left wall. */
  function LeftPotential(jet: Jet): (r: real)
  {
    (jet.position - LeftWall) + 10.0 * (jet.velocity + MaxSpeed)
  }

  lemma LeftStep(jet: Jet)
    requires ValidJet(jet) && jet != Jet(LeftWall, 0.0)
    ensures var next := JetStep(jet, true, false);
            next == Jet(LeftWall, 0.0) || LeftPotential(next) <= LeftPotential(jet) - 2.5
  {
  }

  /** Resting at the left wall with the left key held stays there. */
  lemma {:induction false} RestsAtLeftWall(n: nat)
    ensures HoldLeft(Jet(LeftWall, 0.0), n) == Jet(LeftWall, 0.0)
    decreases n
  {
    if n > 0 {
      assert JetStep(Jet(LeftWall, 0.0), true, false) == Jet(LeftWall, 0.0);
      RestsAtLeftWall(n - 1);
    }
  }

  /** Holding left long enough brings the jet to exactly the left wall with
      zero velocity. */
  lemma {:induction false} HoldLeftReachesWall(jet: Jet, n: nat)
    requires ValidJet(jet)
    requires n as real * 2.5 >= LeftPotential(jet) + 2.5
    ensures HoldLeft(jet, n) == Jet(LeftWall, 0.0)
    decreases n
  {
    if jet == Jet(LeftWall, 0.0) {
      RestsAtLeftWall(n);
    } else {
      var next := JetStep(jet, true, false);
      LeftStep(jet);
      if next == Jet(LeftWall, 0.0) {
        RestsAtLeftWall(n - 1);
      } else {
        HoldLeftReachesWall(next, n - 1);
      }
    }
  }

  /** From anywhere in range, 57 ticks of holding left are enough. */
  lemma HoldLeftWithin57Ticks(jet: Jet, n: nat)
    requires ValidJet(jet) && n >= 57
    ensures HoldLeft(jet, n) == Jet(LeftWall, 0.0)
  {
    HoldLeftReachesWall(jet, n);
  }
}
