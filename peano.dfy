/**
 * micro_kanren/peano.py: natural numbers as nested pairs `Pair(SUCCESSOR, ...)` over
 * the ZERO sentinel. The memoisation cache of the source does not change results
 * and is not modelled.
 */
module Peano {
  import opened Wrappers
  import opened Terms

  /** `peano.ZERO` and `peano.SUCCESSOR`. */
  const Zero: Term := Const(ZeroMark)
  const Successor: Term := Const(SuccessorMark)

  /** A canonical numeral: n successor pairs over ZERO. */
  predicate IsNumeral(t: Term) {
    t == Zero || (t.Pair? && t.left == Successor && IsNumeral(t.right))
  }

  /** `from_integer(n)`: n nested successor pairs over ZERO. A negative argument never
      reaches the base case in the source (it ends in RecursionError), so n >= 0 is
      required. */
  function FromInteger(n: int): (r: Term)
    requires n >= 0
    ensures IsNumeral(r)
    ensures |Spine(r)| == n && Terminator(r) == Zero
    decreases n
  {
    if n == 0 then Zero else Pair(Successor, FromInteger(n - 1))
  }

  /** `to_integer(p)`: 0 for ZERO, otherwise one more than `to_integer(p.right)`; only
      right components are read, and `.right` of anything that is neither ZERO nor a
      pair raises. So it counts the pairs of any chain that ends in ZERO. */
  function ToInteger(t: Term): (r: Result<nat>)
    ensures r.Ok? <==> Terminator(t) == Zero
    ensures r.Ok? ==> r.value == |Spine(t)|
    ensures r.Err? ==> r.error == NoRightComponent
  {
    if t == Zero then Ok(0)
    else if !t.Pair? then Err(NoRightComponent)
    else
      match ToInteger(t.right)
      case Ok(n) => Ok(n + 1)
      case Err(e) => Err(e)
  }

  /** Round trip from integers. */
  lemma {:induction false} ToIntegerFromInteger(n: nat)
    ensures ToInteger(FromInteger(n)) == Ok(n)
  {
    if n > 0 {
      ToIntegerFromInteger(n - 1);
    }
  }

  /** Round trip from canonical numerals. */
  lemma {:induction false} FromIntegerToInteger(t: Term)
    requires IsNumeral(t)
    ensures ToInteger(t).Ok? && FromInteger(ToInteger(t).value) == t
  {
    if t != Zero {
      FromIntegerToInteger(t.right);
    }
  }

  /** `to_peano`, an alias of `from_integer`: the numeral that reads back as n. */
  function ToPeano(n: int): (r: Term)
    requires n >= 0
    ensures IsNumeral(r) && ToInteger(r) == Ok(n)
  {
    ToIntegerFromInteger(n);
    FromInteger(n)
  }

  /** `from_peano`, an alias of `to_integer`: it counts the pairs of any chain that
      ends in ZERO, fails on the missing `.right` otherwise, and on a canonical numeral
      inverts `to_peano`. */
  function FromPeano(t: Term): (r: Result<nat>)
    ensures r.Ok? <==> Terminator(t) == Zero
    ensures r.Ok? ==> r.value == |Spine(t)|
    ensures r.Err? ==> r.error == NoRightComponent
    ensures IsNumeral(t) ==> r.Ok? && ToPeano(r.value) == t
  {
    if IsNumeral(t) then FromIntegerToInteger(t); ToInteger(t) else ToInteger(t)
  }
}
