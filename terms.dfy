/**
 * Terms of the logic engine: logic variables, pairs and atoms.
 * A Python `Variable` is identified by its object identity; here it carries an
 * explicit `id`, the position at which `create_variables` appended it to the
 * variable list of its state.
 */
module Terms {

  datatype Variable = Variable(id: nat, name: string)

  /** Atomic values. The three markers are the `object()` sentinels of the source,
      each equal only to itself. */
  datatype Atom =
    | EmptyMark       // Sequence.EMPTY, the end of a cons list
    | ZeroMark        // peano.ZERO
    | SuccessorMark   // peano.SUCCESSOR
    | Num(n: int)
    | Text(s: string)

  datatype Term = Var(v: Variable) | Pair(left: Term, right: Term) | Const(a: Atom)

  /** The variables a term mentions. */
  function VarsOf(t: Term): set<Variable> {
    match t
    case Var(v) => {v}
    case Pair(l, r) => VarsOf(l) + VarsOf(r)
    case Const(_) => {}
  }

  /** Number of nodes of a term, a termination measure. */
  function Size(t: Term): nat {
    match t
    case Pair(l, r) => 1 + Size(l) + Size(r)
    case _ => 1
  }

  /** The left components along the chain of right components: the elements of a
      cons list, or the successors of a Peano numeral. */
  function Spine(t: Term): seq<Term> {
    if t.Pair? then [t.left] + Spine(t.right) else []
  }

  /** The first non-pair reached by following right components. */
  function Terminator(t: Term): (r: Term)
    ensures !r.Pair?
  {
    if t.Pair? then Terminator(t.right) else t
  }
}
