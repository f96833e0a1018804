/** Shared vocabulary of the backtesting model: optional values, the
    exceptions the modelled code can raise, float comparisons in which NaN
    never compares true, and sums over sequences of reals. */
module Base {

  /** `None` also stands for a float NaN wherever a price or an indicator
      value is meant. */
  datatype Option<+T> = None | Some(value: T)

  /** The Python exceptions the modelled code can raise. */
  datatype Fault =
    | ZeroDivision           // float division by zero
    | IndexError             // positional access outside a list or frame
    | KeyError(key: string)  // missing column or feed name
    | AttributeError(name: string)  // missing parameter
    | ValueError(msg: string)
    | TypeError              // arithmetic on None
    | NanArithmetic          // money arithmetic on NaN, which the model does not carry on with
    | OverflowError          // int() of an infinite float

  datatype Result<+T> = Ok(value: T) | Err(fault: Fault) {
    predicate IsFailure() { Err? }

    function PropagateFailure<U>(): Result<U>
      requires Err?
    {
      Err(fault)
    }

    function Extract(): T
      requires Ok?
    {
      value
    }
  }

  /** `a > b` between floats that may be NaN: false when either side is NaN. */
  predicate Gt(a: Option<real>, b: Option<real>) {
    a.Some? && b.Some? && a.value > b.value
  }

  /** `a < b` between floats that may be NaN: false when either side is NaN. */
  predicate Lt(a: Option<real>, b: Option<real>) {
    a.Some? && b.Some? && a.value < b.value
  }

  /** The absolute tolerance the broker uses for "already at target". */
  const Eps: real := 0.000000000001

  function Abs(x: real): real {
    if x < 0.0 then -x else x
  }

  function MinReal(a: real, b: real): real {
    if b < a then b else a
  }

  function MaxReal(a: real, b: real): real {
    if b > a then b else a
  }

  /** Python's `sum` over a list of floats, without rounding. */
  function Sum(s: seq<real>): real {
    if |s| == 0 then 0.0 else Sum(s[..|s| - 1]) + s[|s| - 1]
  }

  lemma SumAppend(s: seq<real>, x: real)
    ensures Sum(s + [x]) == Sum(s) + x
  {
    assert (s + [x])[..|s|] == s;
  }

  /** A sum of values that all lie in [lo, hi] lies in [n*lo, n*hi]. */
  lemma {:induction false} SumBounds(s: seq<real>, lo: real, hi: real)
    requires forall i :: 0 <= i < |s| ==> lo <= s[i] <= hi
    ensures |s| as real * lo <= Sum(s) <= |s| as real * hi
  {
    if |s| > 0 {
      SumBounds(s[..|s| - 1], lo, hi);
    }
  }

  /** Every element of s is v. */
  predicate Constant(s: seq<real>, v: real) {
    forall i :: 0 <= i < |s| ==> s[i] == v
  }

  lemma {:induction false} SumConstant(s: seq<real>, v: real)
    requires Constant(s, v)
    ensures Sum(s) == |s| as real * v
  {
    if |s| > 0 {
      SumConstant(s[..|s| - 1], v);
    }
  }

  /** The least element of a non-empty sequence. */
  function SeqMin(s: seq<real>): (m: real)
    requires |s| > 0
    ensures forall i :: 0 <= i < |s| ==> m <= s[i]
    ensures exists i :: 0 <= i < |s| && m == s[i]
  {
    if |s| == 1 then s[0]
    else
      var m := SeqMin(s[..|s| - 1]);
      assert forall i :: 0 <= i < |s| - 1 ==> s[..|s| - 1][i] == s[i];
      if s[|s| - 1] < m then s[|s| - 1] else m
  }

  /** The greatest element of a non-empty sequence. */
  function SeqMax(s: seq<real>): (m: real)
    requires |s| > 0
    ensures forall i :: 0 <= i < |s| ==> s[i] <= m
    ensures exists i :: 0 <= i < |s| && m == s[i]
  {
    if |s| == 1 then s[0]
    else
      var m := SeqMax(s[..|s| - 1]);
      assert forall i :: 0 <= i < |s| - 1 ==> s[..|s| - 1][i] == s[i];
      if s[|s| - 1] > m then s[|s| - 1] else m
  }

  /** Python truthiness of an optional name: neither None nor "". */
  predicate Truthy(name: Option<string>) {
    name.Some? && |name.value| > 0
  }
}
