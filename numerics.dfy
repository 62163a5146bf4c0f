/** Real-number stand-ins for the numerical primitives the engine borrows from
    numpy (the transcendental functions, abs/max, np.linspace) and the errors
    the engine lets escape to its callers. */
module Numerics {

  datatype Option<T> = None | Some(value: T)

  /** ValueError for a concept name that is not in the space, the
      ValueError np.linspace raises for a negative number of samples, and the
      AttributeError of calling .tolist() on a plain Python list. */
  datatype Failure = UnknownConcept | NegativeSampleCount | ListHasNoToList

  datatype Result<T> = Ok(value: T) | Err(failure: Failure)

  /** np.exp and np.sqrt as oracles. Nothing is assumed of them beyond the laws
      collected in Sound, which the real exponential and square root satisfy. */
  datatype Maths = Maths(exp: real -> real, sqrt: real -> real)

  ghost predicate Sound(m: Maths) {
    && (forall x :: 0.0 < m.exp(x))
    && (forall x :: x <= 0.0 ==> m.exp(x) <= 1.0)
    && (forall x :: 0.0 <= x ==> 0.0 <= m.sqrt(x) && m.sqrt(x) * m.sqrt(x) == x)
    && (forall x :: 0.0 < x ==> 0.0 < m.sqrt(x))
    && m.sqrt(0.0) == 0.0
  }

  function Abs(x: real): (r: real)
    ensures 0.0 <= r && (r == x || r == -x)
  {
    if x < 0.0 then -x else x
  }

  function Max(a: real, b: real): (r: real)
    ensures a <= r && b <= r && (r == a || r == b)
  {
    if a < b then b else a
  }

  /** np.linspace(start, stop, num) with the default endpoint=True: num evenly
      spaced samples, the last one set to stop exactly. A negative num makes
      numpy raise, so callers check it before. */
  function Linspace(start: real, stop: real, num: nat): (r: seq<real>)
    ensures |r| == num
    ensures 1 <= num ==> r[0] == start
    ensures 2 <= num ==> r[num - 1] == stop
  {
    seq(num, i requires 0 <= i < num => LinspaceAt(start, stop, num, i))
  }

  function LinspaceAt(start: real, stop: real, num: nat, i: nat): real
    requires i < num
  {
    if num == 1 then start
    else if i == num - 1 then stop
    else start + (i as real) * ((stop - start) / ((num - 1) as real))
  }

  /** Every sample of an ascending linspace lies between its end points. */
  lemma LinspaceWithin(start: real, stop: real, num: nat)
    requires start <= stop
    ensures forall i :: 0 <= i < num ==> start <= Linspace(start, stop, num)[i] <= stop
  {
    var r := Linspace(start, stop, num);
    forall i | 0 <= i < num
      ensures start <= r[i] <= stop
    {
      assert r[i] == LinspaceAt(start, stop, num, i);
      LinspaceAtWithin(start, stop, num, i);
    }
  }

  lemma LinspaceAtWithin(start: real, stop: real, num: nat, i: nat)
    requires start <= stop && i < num
    ensures start <= LinspaceAt(start, stop, num, i) <= stop
  {
    if 1 < num && i < num - 1 {
      StepWithin(stop - start, i as real, (num - 1) as real);
    }
  }

  /** 0 <= k · (d / n) <= d for 0 <= k <= n and d >= 0. */
  lemma StepWithin(d: real, k: real, n: real)
    requires 0.0 <= d && 0.0 <= k <= n && 0.0 < n
    ensures 0.0 <= k * (d / n) <= d
  {
    var step := d / n;
    assert 0.0 <= step;
    assert step * n == d;
    assert k * step <= n * step;
  }
}
