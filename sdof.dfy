/** The Nigam–Jennings step recurrence of st_func_core/src/dynamic/sdof.rs:
    the response of a damped single-degree-of-freedom oscillator, at rest at
    time 0, to a sampled ground acceleration. */
module Sdof {
  import opened Failures
  import opened Vectors

  /** The eight transition coefficients for one time step Δt, natural
      circular frequency ω and damping ratio h.  Their closed forms (in
      exp, sin, cos and sqrt) are computed once per call, before the
      recurrence; here they are given. */
  datatype Coefficients = Coefficients(
    a11: real, a12: real, a21: real, a22: real,
    b11: real, b12: real, b21: real, b22: real)

  /** The three index-aligned outputs of one run. */
  datatype SdofResponse = SdofResponse(
    absoluteAcceleration: Vector,
    relativeVelocity: Vector,
    relativeDisplacement: Vector)

  /** Relative displacement and relative velocity at one sample. */
  datatype State = State(y: real, yDot: real)

  /** One step: the state at a sample from the state at the previous sample
      and the ground acceleration at both samples. */
  function Step(k: Coefficients, s: State, gPre: real, gCur: real): State
  {
    State(k.a11 * s.y + k.a12 * s.yDot + k.b11 * gPre + k.b12 * gCur,
          k.a21 * s.y + k.a22 * s.yDot + k.b21 * gPre + k.b22 * gCur)
  }

  /** The absolute acceleration the program reports for a state. */
  function AccelerationOf(omega: real, h: real, s: State): real
  {
    2.0 * h * omega * s.yDot + omega * omega * s.y
  }

  /** The state at sample i, starting from rest at sample 0. */
  function StateAt(g: seq<real>, k: Coefficients, i: nat): State
    requires i < |g|
  {
    if i == 0 then State(0.0, 0.0) else Step(k, StateAt(g, k, i - 1), g[i - 1], g[i])
  }

  /** Relative displacement at every sample. */
  function Displacement(g: seq<real>, k: Coefficients): (y: seq<real>)
    ensures |y| == |g|
  {
    seq(|g|, i requires 0 <= i < |g| => StateAt(g, k, i).y)
  }

  /** Relative velocity at every sample. */
  function Velocity(g: seq<real>, k: Coefficients): (v: seq<real>)
    ensures |v| == |g|
  {
    seq(|g|, i requires 0 <= i < |g| => StateAt(g, k, i).yDot)
  }

  /** Absolute acceleration at every sample; sample 0 is never written by
      the program and keeps the zero it was allocated with. */
  function AbsoluteAcceleration(g: seq<real>, omega: real, h: real, k: Coefficients): (a: seq<real>)
    ensures |a| == |g|
  {
    seq(|g|, i requires 0 <= i < |g| => if i == 0 then 0.0 else AccelerationOf(omega, h, StateAt(g, k, i)))
  }

  /** What a run promises of its three outputs for the input `g`: each has
      the input's length, sample 0 is zero, and every later sample follows
      from the previous one by Step, its acceleration by AccelerationOf. */
  ghost predicate IsResponse(g: seq<real>, omega: real, h: real, k: Coefficients,
                             y: seq<real>, v: seq<real>, a: seq<real>)
  {
    && |y| == |g| && |v| == |g| && |a| == |g|
    && (|g| > 0 ==> y[0] == 0.0 && v[0] == 0.0 && a[0] == 0.0)
    && forall i :: 1 <= i < |g| ==>
         && State(y[i], v[i]) == Step(k, State(y[i - 1], v[i - 1]), g[i - 1], g[i])
         && a[i] == AccelerationOf(omega, h, State(y[i], v[i]))
  }

  /** Sequences that follow the recurrence agree with StateAt up to sample i. */
  lemma {:induction false} FollowsStateAt(g: seq<real>, omega: real, h: real, k: Coefficients,
                                          y: seq<real>, v: seq<real>, a: seq<real>, i: nat)
    requires IsResponse(g, omega, h, k, y, v, a) && i < |g|
    ensures y[i] == StateAt(g, k, i).y && v[i] == StateAt(g, k, i).yDot
  {
    if i > 0 {
      FollowsStateAt(g, omega, h, k, y, v, a, i - 1);
    }
  }

  /** The three functions above are the one and only response: a triple of
      sequences satisfies the recurrence exactly when it is theirs. */
  lemma ResponseIsUnique(g: seq<real>, omega: real, h: real, k: Coefficients,
                         y: seq<real>, v: seq<real>, a: seq<real>)
    ensures IsResponse(g, omega, h, k, y, v, a)
        <==> (y == Displacement(g, k) && v == Velocity(g, k) && a == AbsoluteAcceleration(g, omega, h, k))
  {
    var y', v', a' := Displacement(g, k), Velocity(g, k), AbsoluteAcceleration(g, omega, h, k);
    assert IsResponse(g, omega, h, k, y', v', a') by {
      forall i | 1 <= i < |g|
        ensures State(y'[i], v'[i]) == Step(k, State(y'[i - 1], v'[i - 1]), g[i - 1], g[i])
        ensures a'[i] == AccelerationOf(omega, h, State(y'[i], v'[i]))
      {
        assert State(y'[i], v'[i]) == StateAt(g, k, i);
        assert State(y'[i - 1], v'[i - 1]) == StateAt(g, k, i - 1);
      }
    }
    if IsResponse(g, omega, h, k, y, v, a) {
      forall i | 0 <= i < |g|
        ensures y[i] == y'[i] && v[i] == v'[i] && a[i] == a'[i]
      {
        FollowsStateAt(g, omega, h, k, y, v, a, i);
      }
    }
  }

  /** Rest fixed point: a still ground leaves the oscillator at rest. */
  lemma {:induction false} StillGroundStateAt(g: seq<real>, k: Coefficients, i: nat)
    requires forall j :: 0 <= j < |g| ==> g[j] == 0.0
    requires i < |g|
    ensures StateAt(g, k, i) == State(0.0, 0.0)
  {
    if i > 0 {
      StillGroundStateAt(g, k, i - 1);
    }
  }

  /** Rest fixed point: if every ground sample is 0, all three outputs are 0
      at every sample. */
  lemma ZeroInputZeroResponse(g: seq<real>, omega: real, h: real, k: Coefficients)
    requires forall j :: 0 <= j < |g| ==> g[j] == 0.0
    ensures forall i :: 0 <= i < |g| ==>
      Displacement(g, k)[i] == 0.0 && Velocity(g, k)[i] == 0.0 && AbsoluteAcceleration(g, omega, h, k)[i] == 0.0
  {
    forall i | 0 <= i < |g|
      ensures StateAt(g, k, i) == State(0.0, 0.0)
    {
      StillGroundStateAt(g, k, i);
    }
  }

  /** Componentwise sum of two states. */
  function Combined(s1: State, s2: State): State
  {
    State(s1.y + s2.y, s1.yDot + s2.yDot)
  }

  /** Step is additive in the state and the two ground samples together. */
  lemma StepIsAdditive(k: Coefficients, s1: State, s2: State, p1: real, c1: real, p2: real, c2: real)
    ensures Step(k, Combined(s1, s2), p1 + p2, c1 + c2) == Combined(Step(k, s1, p1, c1), Step(k, s2, p2, c2))
  {
  }

  /** The reported acceleration is additive in the state. */
  lemma AccelerationIsAdditive(omega: real, h: real, s1: State, s2: State)
    ensures AccelerationOf(omega, h, Combined(s1, s2)) == AccelerationOf(omega, h, s1) + AccelerationOf(omega, h, s2)
  {
  }

  /** Superposition, one sample at a time. */
  lemma {:induction false} SuperposedStateAt(g1: seq<real>, g2: seq<real>, k: Coefficients, i: nat)
    requires |g1| == |g2| && i < |g1|
    ensures StateAt(Plus(g1, g2), k, i) == Combined(StateAt(g1, k, i), StateAt(g2, k, i))
  {
    if i > 0 {
      SuperposedStateAt(g1, g2, k, i - 1);
      StepIsAdditive(k, StateAt(g1, k, i - 1), StateAt(g2, k, i - 1), g1[i - 1], g1[i], g2[i - 1], g2[i]);
    }
  }

  /** Superposition of displacement and velocity at one sample. */
  lemma SuperposedSample(g1: seq<real>, g2: seq<real>, k: Coefficients, i: nat)
    requires |g1| == |g2| && i < |g1|
    ensures Displacement(Plus(g1, g2), k)[i] == Displacement(g1, k)[i] + Displacement(g2, k)[i]
    ensures Velocity(Plus(g1, g2), k)[i] == Velocity(g1, k)[i] + Velocity(g2, k)[i]
  {
    SuperposedStateAt(g1, g2, k, i);
  }

  /** Superposition of displacement and velocity. */
  lemma SuperposedMotion(g1: seq<real>, g2: seq<real>, k: Coefficients)
    requires |g1| == |g2|
    ensures Displacement(Plus(g1, g2), k) == Plus(Displacement(g1, k), Displacement(g2, k))
    ensures Velocity(Plus(g1, g2), k) == Plus(Velocity(g1, k), Velocity(g2, k))
  {
    var g := Plus(g1, g2);
    var y, y1, y2 := Displacement(g, k), Displacement(g1, k), Displacement(g2, k);
    var v, v1, v2 := Velocity(g, k), Velocity(g1, k), Velocity(g2, k);
    forall i | 0 <= i < |g1|
      ensures y[i] == y1[i] + y2[i] && v[i] == v1[i] + v2[i]
    {
      SuperposedSample(g1, g2, k, i);
    }
    assert y == Plus(y1, y2);
    assert v == Plus(v1, v2);
  }

  /** Superposition: the response to the sum of two ground records (the
      container's `add`) is the sum of the two responses. */
  lemma Superposition(g1: seq<real>, g2: seq<real>, omega: real, h: real, k: Coefficients)
    requires |g1| == |g2|
    ensures Displacement(Plus(g1, g2), k) == Plus(Displacement(g1, k), Displacement(g2, k))
    ensures Velocity(Plus(g1, g2), k) == Plus(Velocity(g1, k), Velocity(g2, k))
    ensures AbsoluteAcceleration(Plus(g1, g2), omega, h, k)
         == Plus(AbsoluteAcceleration(g1, omega, h, k), AbsoluteAcceleration(g2, omega, h, k))
  {
    SuperposedMotion(g1, g2, k);
    var g := Plus(g1, g2);
    var a, a1, a2 := AbsoluteAcceleration(g, omega, h, k), AbsoluteAcceleration(g1, omega, h, k), AbsoluteAcceleration(g2, omega, h, k);
    forall i | 0 <= i < |g1|
      ensures a[i] == a1[i] + a2[i]
    {
      if i > 0 {
        SuperposedStateAt(g1, g2, k, i);
        AccelerationIsAdditive(omega, h, StateAt(g1, k, i), StateAt(g2, k, i));
      }
    }
    assert a == Plus(a1, a2);
  }

  /** Causality, one sample at a time. */
  lemma {:induction false} PrefixStateAt(g: seq<real>, k: Coefficients, m: nat, i: nat)
    requires i < m <= |g|
    ensures StateAt(g[..m], k, i) == StateAt(g, k, i)
  {
    if i > 0 {
      PrefixStateAt(g, k, m, i - 1);
    }
  }

  /** Causality: the response up to a sample depends only on the ground
      motion up to that sample, so a run on a prefix of the record gives the
      prefix of the outputs. */
  lemma Causality(g: seq<real>, omega: real, h: real, k: Coefficients, m: nat)
    requires m <= |g|
    ensures Displacement(g[..m], k) == Displacement(g, k)[..m]
    ensures Velocity(g[..m], k) == Velocity(g, k)[..m]
    ensures AbsoluteAcceleration(g[..m], omega, h, k) == AbsoluteAcceleration(g, omega, h, k)[..m]
  {
    forall i | 0 <= i < m
      ensures StateAt(g[..m], k, i) == StateAt(g, k, i)
    {
      PrefixStateAt(g, k, m, i);
    }
  }

  /** `nigam_jennings`: one forward pass over the ground acceleration,
      writing the three outputs in place by index.  The input is only read.
      An empty record fails where the program reads its sample 0. */
  method NigamJennings(y0Ddot: Vector, omega: real, h: real, k: Coefficients) returns (r: Result<SdofResponse>)
    requires y0Ddot.Valid()
    ensures y0Ddot.size == 0 ==> r == Err(IndexOutOfRange)
    ensures y0Ddot.size > 0 ==> r.Ok?
    ensures r.Ok? ==>
      var out := r.value;
      && fresh(out.relativeDisplacement) && fresh(out.relativeVelocity) && fresh(out.absoluteAcceleration)
      && out.relativeDisplacement != out.relativeVelocity
      && out.relativeDisplacement != out.absoluteAcceleration
      && out.relativeVelocity != out.absoluteAcceleration
      && out.relativeDisplacement.Valid() && out.relativeVelocity.Valid() && out.absoluteAcceleration.Valid()
      && IsResponse(y0Ddot.data, omega, h, k,
                    out.relativeDisplacement.data, out.relativeVelocity.data, out.absoluteAcceleration.data)
      && out.relativeDisplacement.data == Displacement(y0Ddot.data, k)
      && out.relativeVelocity.data == Velocity(y0Ddot.data, k)
      && out.absoluteAcceleration.data == AbsoluteAcceleration(y0Ddot.data, omega, h, k)
  {
    var n := y0Ddot.Len();
    var y := new Vector.New(n);
    var yDot := new Vector.New(n);
    var yAbs := new Vector.New(n);

    var yPre: real := 0.0;
    var yDotPre: real := 0.0;
    var first := y0Ddot.Get(0);
    if first.Err? {
      return Err(first.error);
    }
    var gPre: real := first.value;

    ghost var g := y0Ddot.data;
    for i := 1 to n
      invariant y.Valid() && yDot.Valid() && yAbs.Valid()
      invariant y.size == n && yDot.size == n && yAbs.size == n
      invariant y.data[0] == 0.0 && yDot.data[0] == 0.0 && yAbs.data[0] == 0.0
      invariant yPre == y.data[i - 1] && yDotPre == yDot.data[i - 1] && gPre == g[i - 1]
      invariant forall j :: 1 <= j < i ==>
         && State(y.data[j], yDot.data[j]) == Step(k, State(y.data[j - 1], yDot.data[j - 1]), g[j - 1], g[j])
         && yAbs.data[j] == AccelerationOf(omega, h, State(y.data[j], yDot.data[j]))
    {
      var gCur := y0Ddot.Get(i).value;
      var yCur := k.a11 * yPre + k.a12 * yDotPre + k.b11 * gPre + k.b12 * gCur;
      var yDotCur := k.a21 * yPre + k.a22 * yDotPre + k.b21 * gPre + k.b22 * gCur;
      var yAbsCur := 2.0 * h * omega * yDotCur + omega * omega * yCur;

      assert State(yCur, yDotCur) == Step(k, State(yPre, yDotPre), gPre, gCur);
      assert yAbsCur == AccelerationOf(omega, h, State(yCur, yDotCur));

      ghost var y0, v0, a0 := y.data, yDot.data, yAbs.data;
      var _ := y.Set(i, yCur);
      var _ := yDot.Set(i, yDotCur);
      var _ := yAbs.Set(i, yAbsCur);
      assert y.data == y0[i := yCur] && yDot.data == v0[i := yDotCur] && yAbs.data == a0[i := yAbsCur];

      yPre := yCur;
      yDotPre := yDotCur;
      gPre := gCur;
    }

    ResponseIsUnique(g, omega, h, k, y.data, yDot.data, yAbs.data);
    return Ok(SdofResponse(yAbs, yDot, y));
  }
}
