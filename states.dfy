/**
 * The immutable `State` of micro_kanren/micro.py: an ordered list of introduced
 * variables and a binding map, with `value_of`, `final_value_of`, `unify`,
 * `create_variables`, `assign_values`, `results` and `result`.
 *
 * Bindings are not path-compressed and there is no occurs check, so a binding map
 * may contain a cycle, on which the source's `value_of` recurses until Python's
 * recursion limit raises RecursionError. `Walk` follows the source's recursion while
 * remembering which bound variables may still be chased on the current path; it
 * returns None exactly when the path would come back to a variable it already
 * chased, i.e. exactly when the source ends in that RecursionError.
 */
module States {
  import opened Wrappers
  import opened Terms

  type Bindings = map<Variable, Term>

  datatype State = State(variables: seq<Variable>, values: Bindings)

  /** `State()`: no variables, no bindings. */
  const EmptyState: State := State([], map[])

  /** The variables mentioned by bound values. */
  function RangeVars(m: Bindings): set<Variable> {
    set k, v | k in m && v in VarsOf(m[k]) :: v
  }

  lemma RangeVarsOf(m: Bindings, k: Variable)
    requires k in m
    ensures VarsOf(m[k]) <= RangeVars(m)
  {
    forall v | v in VarsOf(m[k]) ensures v in RangeVars(m) {
    }
  }

  /** `value_of` with `avail` the bound variables not yet chased on this path. */
  function Walk(m: Bindings, t: Term, avail: set<Variable>): (r: Option<Term>)
    ensures r.Some? ==> VarsOf(r.value) <= VarsOf(t) + RangeVars(m)
    ensures r.Some? ==> VarsOf(r.value) !! m.Keys
    decreases avail, t
  {
    match t
    case Var(v) =>
      if v !in m then Some(t)
      else if v in avail then RangeVarsOf(m, v); Walk(m, m[v], avail - {v})
      else None
    case Pair(l, r) =>
      var wl := Walk(m, l, avail);
      var wr := Walk(m, r, avail);
      if wl.Some? && wr.Some? then Some(Pair(wl.value, wr.value)) else None
    case Const(_) => Some(t)
  }

  /** `final_value_of`: as Walk, except that an unbound variable becomes its name. */
  function FinalWalk(m: Bindings, t: Term, avail: set<Variable>): Option<Term>
    decreases avail, t
  {
    match t
    case Var(v) =>
      if v !in m then Some(Const(Text(v.name)))
      else if v in avail then FinalWalk(m, m[v], avail - {v})
      else None
    case Pair(l, r) =>
      var wl := FinalWalk(m, l, avail);
      var wr := FinalWalk(m, r, avail);
      if wl.Some? && wr.Some? then Some(Pair(wl.value, wr.value)) else None
    case Const(_) => Some(t)
  }

  /** Replaces every variable by the text of its name. */
  function Named(t: Term): (r: Term)
    ensures VarsOf(r) == {}
  {
    match t
    case Var(v) => Const(Text(v.name))
    case Pair(l, r) => Pair(Named(l), Named(r))
    case Const(_) => t
  }

  /** `value_of` returns a value (does not recurse into a cycle) on t in s. */
  predicate Walkable(s: State, t: Term) {
    Walk(s.values, t, s.values.Keys).Some?
  }

  /** `State.value_of`: follows bindings and rebuilds pairs; the result mentions no
      bound variable and nothing that was not in t or in a bound value. */
  function ValueOf(s: State, t: Term): (r: Term)
    requires Walkable(s, t)
    ensures VarsOf(r) !! s.values.Keys
    ensures VarsOf(r) <= VarsOf(t) + RangeVars(s.values)
  {
    Walk(s.values, t, s.values.Keys).value
  }

  /** `State.final_value_of`. */
  function FinalValueOf(s: State, t: Term): (r: Term)
    requires Walkable(s, t)
    ensures r == Named(ValueOf(s, t))
  {
    FinalWalkIsNamedWalk(s.values, t, s.values.Keys);
    FinalWalk(s.values, t, s.values.Keys).value
  }

  /** `final_value_of` agrees with `value_of` except that unbound variables turn into
      their names; in particular it returns exactly when `value_of` does. */
  lemma {:induction false} FinalWalkIsNamedWalk(m: Bindings, t: Term, avail: set<Variable>)
    ensures FinalWalk(m, t, avail).Some? == Walk(m, t, avail).Some?
    ensures Walk(m, t, avail).Some? ==> FinalWalk(m, t, avail).value == Named(Walk(m, t, avail).value)
    decreases avail, t
  {
    match t
    case Var(v) =>
      if v in m && v in avail {
        FinalWalkIsNamedWalk(m, m[v], avail - {v});
      }
    case Pair(l, r) =>
      FinalWalkIsNamedWalk(m, l, avail);
      FinalWalkIsNamedWalk(m, r, avail);
    case Const(_) =>
  }

  /** Chasing with more variables available gives the same answer. */
  lemma {:induction false} WalkMonotone(m: Bindings, t: Term, a: set<Variable>, b: set<Variable>)
    requires a <= b && Walk(m, t, a).Some?
    ensures Walk(m, t, b) == Walk(m, t, a)
    decreases a, t
  {
    match t
    case Var(v) =>
      if v in m {
        WalkMonotone(m, m[v], a - {v}, b - {v});
      }
    case Pair(l, r) =>
      WalkMonotone(m, l, a, b);
      WalkMonotone(m, r, a, b);
    case Const(_) =>
  }

  /** A term that mentions no bound variable resolves to itself. */
  lemma {:induction false} WalkResolved(m: Bindings, t: Term, avail: set<Variable>)
    requires VarsOf(t) !! m.Keys
    ensures Walk(m, t, avail) == Some(t)
  {
    match t
    case Var(v) =>
      assert v in VarsOf(t);
    case Pair(l, r) =>
      WalkResolved(m, l, avail);
      WalkResolved(m, r, avail);
    case Const(_) =>
  }

  /** How `value_of` resolves each kind of term: an unbound variable or an atom is
      returned unchanged, a bound variable is chased, a pair is rebuilt from its
      resolved components. */
  lemma ValueOfCases(s: State, t: Term)
    requires Walkable(s, t)
    ensures t.Const? || (t.Var? && t.v !in s.values) ==> ValueOf(s, t) == t
    ensures t.Var? && t.v in s.values ==>
      Walkable(s, s.values[t.v]) && ValueOf(s, t) == ValueOf(s, s.values[t.v])
    ensures t.Pair? ==>
      Walkable(s, t.left) && Walkable(s, t.right) &&
      ValueOf(s, t) == Pair(ValueOf(s, t.left), ValueOf(s, t.right))
  {
    if t.Var? && t.v in s.values {
      var m := s.values;
      WalkMonotone(m, m[t.v], m.Keys - {t.v}, m.Keys);
    }
  }

  /** Resolving a resolved term changes nothing. */
  lemma ValueOfIdempotent(s: State, t: Term)
    requires Walkable(s, t)
    ensures Walkable(s, ValueOf(s, t)) && ValueOf(s, ValueOf(s, t)) == ValueOf(s, t)
  {
    WalkResolved(s.values, ValueOf(s, t), s.values.Keys);
  }

  /** No chain of bindings leads back to where it started. */
  predicate Acyclic(m: Bindings) {
    forall v | v in m :: Walk(m, Var(v), m.Keys).Some?
  }

  lemma {:induction false} AcyclicWalkable(m: Bindings, t: Term)
    requires Acyclic(m)
    ensures Walk(m, t, m.Keys).Some?
  {
    match t
    case Var(v) =>
    case Pair(l, r) =>
      AcyclicWalkable(m, l);
      AcyclicWalkable(m, r);
    case Const(_) =>
  }

  /** m' keeps every binding of m. */
  predicate ExtendsMap(m: Bindings, m': Bindings) {
    m.Keys <= m'.Keys && forall k | k in m :: m'[k] == m[k]
  }

  /** s' has the same variables as s and keeps all its bindings. */
  predicate Extends(s: State, s': State) {
    s'.variables == s.variables && ExtendsMap(s.values, s'.values)
  }

  lemma {:induction false} WalkRestrict(m: Bindings, m': Bindings, t: Term, avail: set<Variable>)
    requires ExtendsMap(m, m') && Walk(m', t, avail).Some?
    ensures Walk(m, t, avail * m.Keys).Some?
    decreases avail, t
  {
    match t
    case Var(v) =>
      if v in m {
        WalkRestrict(m, m', m[v], avail - {v});
        assert (avail - {v}) * m.Keys == avail * m.Keys - {v};
      }
    case Pair(l, r) =>
      WalkRestrict(m, m', l, avail);
      WalkRestrict(m, m', r, avail);
    case Const(_) =>
  }

  /** Dropping bindings cannot create a cycle. */
  lemma SubAcyclic(m: Bindings, m': Bindings)
    requires ExtendsMap(m, m') && Acyclic(m')
    ensures Acyclic(m)
  {
    forall v | v in m ensures Walk(m, Var(v), m.Keys).Some? {
      WalkRestrict(m, m', Var(v), m'.Keys);
      assert m'.Keys * m.Keys == m.Keys;
    }
  }

  /** Resolving in m and then in an acyclic extension m' is resolving in m'. */
  lemma {:induction false} ComposeWalk(m: Bindings, m': Bindings, t: Term, avail: set<Variable>)
    requires ExtendsMap(m, m') && Acyclic(m') && avail <= m.Keys
    requires Walk(m, t, avail).Some?
    ensures Walk(m', Walk(m, t, avail).value, m'.Keys) == Walk(m', t, m'.Keys)
    decreases avail, t
  {
    AcyclicWalkable(m', t);
    match t
    case Var(v) =>
      if v in m {
        ComposeWalk(m, m', m[v], avail - {v});
        WalkMonotone(m', m[v], m'.Keys - {v}, m'.Keys);
      }
    case Pair(l, r) =>
      ComposeWalk(m, m', l, avail);
      ComposeWalk(m, m', r, avail);
      AcyclicWalkable(m', l);
      AcyclicWalkable(m', r);
    case Const(_) =>
  }

  /** `create_variables(names)`: one new variable per name, in order, appended to the
      variable list; bindings are shared. Each new variable's id is its position in the
      new list, so the new variables are pairwise distinct even when names repeat. */
  function CreateVariables(s: State, names: seq<string>): (r: (State, seq<Variable>))
    ensures |r.1| == |names|
    ensures forall i | 0 <= i < |names| :: r.1[i].name == names[i]
    ensures forall i, j | 0 <= i < j < |names| :: r.1[i] != r.1[j]
    ensures r.0.variables == s.variables + r.1 && r.0.values == s.values
    ensures Numbered(s) ==> Numbered(r.0)
    ensures Numbered(s) ==> forall v | v in r.1 :: v !in s.variables
  {
    var made := seq(|names|, i requires 0 <= i < |names| => Variable(|s.variables| + i, names[i]));
    (State(s.variables + made, s.values), made)
  }

  /** Every variable's id is its position in the variable list. */
  predicate Numbered(s: State) {
    forall i | 0 <= i < |s.variables| :: s.variables[i].id == i
  }

  /** t was reached from s by the engine: s's variables are a prefix of t's, every
      binding of s is kept, and positional ids stay positional. */
  predicate Grows(s: State, t: State) {
    && s.variables <= t.variables
    && ExtendsMap(s.values, t.values)
    && (Numbered(s) ==> Numbered(t))
  }

  lemma GrowsTransitive(s: State, t: State, u: State)
    requires Grows(s, t) && Grows(t, u)
    ensures Grows(s, u)
  {
  }

  /** `assign_values(new_values)`: the old bindings overridden by the new ones (new
      entries win); the variable list is copied unchanged. */
  function AssignValues(s: State, newValues: Bindings): (r: State)
    ensures r.variables == s.variables
    ensures r.values.Keys == s.values.Keys + newValues.Keys
    ensures forall k | k in newValues :: r.values[k] == newValues[k]
    ensures forall k | k in s.values && k !in newValues :: r.values[k] == s.values[k]
  {
    State(s.variables, s.values + newValues)
  }

  /** The variables a unification of a and b in s can touch. */
  function Scope(m: Bindings, a: Term, b: Term): set<Variable> {
    VarsOf(a) + VarsOf(b) + RangeVars(m) + m.Keys
  }

  /** Termination measure of `unify`: the variables in scope that are still unbound. */
  function Unsolved(s: State, a: Term, b: Term): nat {
    |Scope(s.values, a, b) - s.values.Keys|
  }

  /** Second termination measure of `unify`: the size of the resolved operands. */
  function ResolvedSize(s: State, a: Term, b: Term): nat {
    if Walkable(s, a) && Walkable(s, b) then Size(ValueOf(s, a)) + Size(ValueOf(s, b)) else 0
  }

  /** Two resolved values that `unify` rejects: different, neither is a variable, and
      not both are pairs (mismatched atoms, or an atom against a pair). */
  predicate Clash(x: Term, y: Term) {
    x != y && !x.Var? && !y.Var? && !(x.Pair? && y.Pair?)
  }

  /** What `unify` does: returns a state, returns None, or raises RecursionError because some
      `value_of` it calls runs into a cycle. */
  datatype Unified = Unifies(state: State) | Fails | Diverges

  lemma SubsetSmaller(a: set<Variable>, b: set<Variable>, k: Variable)
    requires a <= b && k in b && k !in a
    ensures |a| < |b|
  {
    assert a <= b - {k};
    assert |b - {k}| == |b| - 1;
    SubsetNoLarger(a, b - {k});
  }

  lemma SubsetNoLarger(a: set<Variable>, b: set<Variable>)
    requires a <= b
    ensures |a| <= |b|
  {
    assert b == a + (b - a);
  }

  lemma RangeVarsAssign(m: Bindings, u: Variable, y: Term)
    ensures RangeVars(m + map[u := y]) <= RangeVars(m) + VarsOf(y)
  {
    var m' := m + map[u := y];
    forall v | v in RangeVars(m') ensures v in RangeVars(m) + VarsOf(y) {
      var k :| k in m' && v in VarsOf(m'[k]);
      if k != u {
        RangeVarsOf(m, k);
      }
    }
  }

  /** Binding an unbound variable in scope to a term in scope keeps the old bindings
      and the scope. */
  lemma BindInScope(s: State, u: Variable, t: Term, a: Term, b: Term)
    requires u !in s.values && u in Scope(s.values, a, b) && VarsOf(t) <= Scope(s.values, a, b)
    ensures Extends(s, AssignValues(s, map[u := t]))
    ensures Scope(AssignValues(s, map[u := t]).values, a, b) <= Scope(s.values, a, b)
  {
    RangeVarsAssign(s.values, u, t);
  }

  /** Two successive extensions that stay in scope make one. */
  lemma ChainInScope(s: State, s1: State, s2: State, a: Term, b: Term, c: Term, d: Term)
    requires Extends(s, s1) && Extends(s1, s2)
    requires Scope(s2.values, c, d) <= Scope(s1.values, c, d) <= Scope(s.values, a, b)
    ensures Extends(s, s2) && Scope(s2.values, a, b) <= Scope(s.values, a, b)
  {
  }

  /** The first recursive call of `unify` (on the left components) makes progress. */
  lemma LeftCallDecreases(s: State, a: Term, b: Term)
    requires Walkable(s, a) && Walkable(s, b)
    requires ValueOf(s, a).Pair? && ValueOf(s, b).Pair?
    ensures var x, y := ValueOf(s, a), ValueOf(s, b);
      && Walkable(s, x.left) && ValueOf(s, x.left) == x.left
      && Walkable(s, y.left) && ValueOf(s, y.left) == y.left
      && Scope(s.values, x.left, y.left) <= Scope(s.values, a, b)
      && Unsolved(s, x.left, y.left) <= Unsolved(s, a, b)
      && ResolvedSize(s, x.left, y.left) < ResolvedSize(s, a, b)
  {
    var m := s.values;
    var x, y := ValueOf(s, a), ValueOf(s, b);
    WalkResolved(m, x.left, m.Keys);
    WalkResolved(m, y.left, m.Keys);
    SubsetNoLarger(Scope(m, x.left, y.left) - m.Keys, Scope(m, a, b) - m.Keys);
  }

  /** The right components, in the state the left components produced, stay within
      the scope of the original operands, and no variable becomes unbound. */
  lemma RightInScope(s: State, a: Term, b: Term, s1: State)
    requires Walkable(s, a) && Walkable(s, b)
    requires ValueOf(s, a).Pair? && ValueOf(s, b).Pair?
    requires Extends(s, s1)
    requires Scope(s1.values, ValueOf(s, a).left, ValueOf(s, b).left)
          <= Scope(s.values, ValueOf(s, a).left, ValueOf(s, b).left)
    ensures var x, y := ValueOf(s, a), ValueOf(s, b);
      && Scope(s1.values, x.right, y.right) <= Scope(s.values, a, b)
      && Scope(s1.values, x.right, y.right) - s1.values.Keys <= Scope(s.values, a, b) - s.values.Keys
  {
    LeftCallDecreases(s, a, b);
  }

  /** The second recursive call of `unify` (on the right components, in the state the
      left components produced) makes progress: either a variable got bound, or the
      state is unchanged and the operands are smaller. */
  lemma RightCallDecreases(s: State, a: Term, b: Term, s1: State)
    requires Walkable(s, a) && Walkable(s, b)
    requires ValueOf(s, a).Pair? && ValueOf(s, b).Pair?
    requires Extends(s, s1)
    requires Scope(s1.values, ValueOf(s, a).left, ValueOf(s, b).left)
          <= Scope(s.values, ValueOf(s, a).left, ValueOf(s, b).left)
    ensures var x, y := ValueOf(s, a), ValueOf(s, b);
      && Scope(s1.values, x.right, y.right) <= Scope(s.values, a, b)
      && (|| Unsolved(s1, x.right, y.right) < Unsolved(s, a, b)
          || (Unsolved(s1, x.right, y.right) == Unsolved(s, a, b)
              && ResolvedSize(s1, x.right, y.right) < ResolvedSize(s, a, b)))
  {
    RightInScope(s, a, b, s1);
    if s1.values.Keys == s.values.Keys {
      assert s1 == s;
      RightSmallerInSameState(s, a, b);
    } else {
      RightAfterBinding(s, a, b, s1);
    }
  }

  /** With no new binding, the right components are strictly smaller resolved terms. */
  lemma RightSmallerInSameState(s: State, a: Term, b: Term)
    requires Walkable(s, a) && Walkable(s, b)
    requires ValueOf(s, a).Pair? && ValueOf(s, b).Pair?
    ensures var x, y := ValueOf(s, a), ValueOf(s, b);
      && Unsolved(s, x.right, y.right) <= Unsolved(s, a, b)
      && ResolvedSize(s, x.right, y.right) < ResolvedSize(s, a, b)
  {
    var m := s.values;
    var x, y := ValueOf(s, a), ValueOf(s, b);
    RightInScope(s, a, b, s);
    WalkResolved(m, x.right, m.Keys);
    WalkResolved(m, y.right, m.Keys);
    SubsetNoLarger(Scope(m, x.right, y.right) - m.Keys, Scope(m, a, b) - m.Keys);
  }

  /** A new binding made by the left components leaves fewer unbound variables in scope. */
  lemma RightAfterBinding(s: State, a: Term, b: Term, s1: State)
    requires Walkable(s, a) && Walkable(s, b)
    requires ValueOf(s, a).Pair? && ValueOf(s, b).Pair?
    requires Extends(s, s1) && s1.values.Keys != s.values.Keys
    requires Scope(s1.values, ValueOf(s, a).left, ValueOf(s, b).left)
          <= Scope(s.values, ValueOf(s, a).left, ValueOf(s, b).left)
    ensures var x, y := ValueOf(s, a), ValueOf(s, b);
      Unsolved(s1, x.right, y.right) < Unsolved(s, a, b)
  {
    var m, m1 := s.values, s1.values;
    var x, y := ValueOf(s, a), ValueOf(s, b);
    RightInScope(s, a, b, s1);
    LeftCallDecreases(s, a, b);
    var k :| k in m1.Keys && k !in m.Keys;
    assert k in Scope(m1, x.left, y.left);
    SubsetSmaller(Scope(m1, x.right, y.right) - m1.Keys, Scope(m, a, b) - m.Keys, k);
  }

  /** `State.unify(a, b)`. The result keeps the variable list and every existing
      binding, and binds only variables that were in play. Equal resolved values give
      back the very same state; clashing resolved values give None. */
  function Unify(s: State, a: Term, b: Term): (r: Unified)
    ensures r.Unifies? ==> Extends(s, r.state)
    ensures r.Unifies? ==> Scope(r.state.values, a, b) <= Scope(s.values, a, b)
    ensures !Walkable(s, a) || !Walkable(s, b) ==> r == Diverges
    ensures Walkable(s, a) && Walkable(s, b) && ValueOf(s, a) == ValueOf(s, b) ==> r == Unifies(s)
    ensures Walkable(s, a) && Walkable(s, b) && Clash(ValueOf(s, a), ValueOf(s, b)) ==> r == Fails
    ensures Walkable(s, a) && Walkable(s, b) && ValueOf(s, a) != ValueOf(s, b) && ValueOf(s, a).Var? ==>
      r == Unifies(AssignValues(s, map[ValueOf(s, a).v := ValueOf(s, b)]))
    ensures Walkable(s, a) && Walkable(s, b) && ValueOf(s, a) != ValueOf(s, b) && !ValueOf(s, a).Var? && ValueOf(s, b).Var? ==>
      r == Unifies(AssignValues(s, map[ValueOf(s, b).v := ValueOf(s, a)]))
    decreases Unsolved(s, a, b), ResolvedSize(s, a, b)
  {
    if !Walkable(s, a) || !Walkable(s, b) then Diverges
    else
      var x, y := ValueOf(s, a), ValueOf(s, b);
      if x == y then Unifies(s)
      else if x.Var? then
        assert x.v in VarsOf(x);
        BindInScope(s, x.v, y, a, b);
        Unifies(AssignValues(s, map[x.v := y]))
      else if y.Var? then
        assert y.v in VarsOf(y);
        BindInScope(s, y.v, x, a, b);
        Unifies(AssignValues(s, map[y.v := x]))
      else if x.Pair? && y.Pair? then
        LeftCallDecreases(s, a, b);
        match Unify(s, x.left, y.left)
        case Unifies(s1) =>
          RightCallDecreases(s, a, b, s1);
          var r2 := Unify(s1, x.right, y.right);
          if r2.Unifies? then ChainInScope(s, s1, r2.state, a, b, x.right, y.right); r2
          else r2
        case Fails => Fails
        case Diverges => Diverges
      else Fails
  }

  /** `unify` of two operands that resolve to different pairs: the left components
      are unified first, then the right components in the resulting state; a failure
      or a RecursionError in either step is the outcome of the whole. */
  lemma UnifyPairs(s: State, a: Term, b: Term)
    requires Walkable(s, a) && Walkable(s, b)
    requires ValueOf(s, a).Pair? && ValueOf(s, b).Pair? && ValueOf(s, a) != ValueOf(s, b)
    ensures var x, y := ValueOf(s, a), ValueOf(s, b);
      match Unify(s, x.left, y.left)
      case Unifies(s1) => Unify(s, a, b) == Unify(s1, x.right, y.right)
      case Fails => Unify(s, a, b) == Fails
      case Diverges => Unify(s, a, b) == Diverges
  {
  }

  /** After binding u to y, u resolves as y does. */
  lemma BindSound(m: Bindings, u: Variable, y: Term)
    requires Acyclic(m + map[u := y])
    ensures Walk(m + map[u := y], Var(u), (m + map[u := y]).Keys) == Walk(m + map[u := y], y, (m + map[u := y]).Keys)
  {
    var m' := m + map[u := y];
    AcyclicWalkable(m', Var(u));
    WalkMonotone(m', y, m'.Keys - {u}, m'.Keys);
  }

  /** Components that agree in m1, and then in an acyclic extension m', make pairs
      that agree in m'. */
  lemma PairSound(m1: Bindings, m': Bindings, xl: Term, xr: Term, yl: Term, yr: Term)
    requires ExtendsMap(m1, m') && Acyclic(m')
    requires Walk(m1, xl, m1.Keys).Some? && Walk(m1, xl, m1.Keys) == Walk(m1, yl, m1.Keys)
    requires Walk(m', xr, m'.Keys) == Walk(m', yr, m'.Keys)
    ensures Walk(m', Pair(xl, xr), m'.Keys) == Walk(m', Pair(yl, yr), m'.Keys)
  {
    ComposeWalk(m1, m', xl, m1.Keys);
    ComposeWalk(m1, m', yl, m1.Keys);
  }

  /** The resolved operands agree in an acyclic extension m' of m exactly when the
      original operands do. */
  lemma AgreeAfterResolving(s: State, m': Bindings, a: Term, b: Term)
    requires ExtendsMap(s.values, m') && Acyclic(m')
    requires Walkable(s, a) && Walkable(s, b)
    ensures Walk(m', ValueOf(s, a), m'.Keys) == Walk(m', a, m'.Keys)
    ensures Walk(m', ValueOf(s, b), m'.Keys) == Walk(m', b, m'.Keys)
  {
    ComposeWalk(s.values, m', a, s.values.Keys);
    ComposeWalk(s.values, m', b, s.values.Keys);
  }

  /** `unify` on operands that resolve to equal values or to a variable. */
  lemma UnifySoundDirect(s: State, a: Term, b: Term)
    requires Walkable(s, a) && Walkable(s, b)
    requires !(ValueOf(s, a).Pair? && ValueOf(s, b).Pair?) || ValueOf(s, a) == ValueOf(s, b)
    requires Unify(s, a, b).Unifies? && Acyclic(Unify(s, a, b).state.values)
    ensures Walk(Unify(s, a, b).state.values, a, Unify(s, a, b).state.values.Keys)
         == Walk(Unify(s, a, b).state.values, b, Unify(s, a, b).state.values.Keys)
  {
    var m, m' := s.values, Unify(s, a, b).state.values;
    var x, y := ValueOf(s, a), ValueOf(s, b);
    AgreeAfterResolving(s, m', a, b);
    if x == y {
    } else if x.Var? {
      assert m' == m + map[x.v := y];
      BindSound(m, x.v, y);
    } else {
      assert m' == m + map[y.v := x];
      BindSound(m, y.v, x);
    }
  }

  /** Soundness of `unify`: when it succeeds with an acyclic substitution, both
      operands resolve to the same term in the returned state. */
  lemma {:induction false} UnifySound(s: State, a: Term, b: Term)
    requires Unify(s, a, b).Unifies? && Acyclic(Unify(s, a, b).state.values)
    ensures Walkable(Unify(s, a, b).state, a) && Walkable(Unify(s, a, b).state, b)
    ensures ValueOf(Unify(s, a, b).state, a) == ValueOf(Unify(s, a, b).state, b)
    decreases Unsolved(s, a, b), ResolvedSize(s, a, b)
  {
    var s' := Unify(s, a, b).state;
    var m' := s'.values;
    AcyclicWalkable(m', a);
    AcyclicWalkable(m', b);
    var x, y := ValueOf(s, a), ValueOf(s, b);
    if x.Pair? && y.Pair? && x != y {
      LeftCallDecreases(s, a, b);
      var s1 := Unify(s, x.left, y.left).state;
      RightCallDecreases(s, a, b, s1);
      assert Unify(s1, x.right, y.right) == Unifies(s');
      SubAcyclic(s1.values, m');
      UnifySound(s, x.left, y.left);
      UnifySound(s1, x.right, y.right);
      PairSound(s1.values, m', x.left, x.right, y.left, y.right);
      AgreeAfterResolving(s, m', a, b);
    } else {
      UnifySoundDirect(s, a, b);
    }
  }

  /** Re-unifying the same operands in the result of a successful unification changes
      nothing. */
  lemma UnifyIdempotent(s: State, a: Term, b: Term)
    requires Unify(s, a, b).Unifies? && Acyclic(Unify(s, a, b).state.values)
    ensures Unify(Unify(s, a, b).state, a, b) == Unify(s, a, b)
  {
    UnifySound(s, a, b);
  }

  /** `results(n)`: the resolved values of the first n variables, in creation order;
      `islice` truncates when there are fewer than n. */
  function Results(s: State, n: nat): (r: seq<Term>)
    requires forall i | 0 <= i < |s.variables| && i < n :: Walkable(s, Var(s.variables[i]))
    ensures |r| == if n < |s.variables| then n else |s.variables|
    ensures forall i | 0 <= i < |r| :: r[i] == ValueOf(s, Var(s.variables[i]))
  {
    var k := if n < |s.variables| then n else |s.variables|;
    seq(k, i requires 0 <= i < k => ValueOf(s, Var(s.variables[i])))
  }

  /** `result()`: the resolved value of the first variable; indexing the empty list of
      results raises when there is none. */
  function Result(s: State): (r: Result<Term>)
    requires |s.variables| > 0 ==> Walkable(s, Var(s.variables[0]))
    ensures r.Err? <==> s.variables == []
    ensures r.Err? ==> r.error == NoVariables
    ensures r.Ok? ==> r.value == ValueOf(s, Var(s.variables[0]))
  {
    var rs := Results(s, 1);
    if |rs| == 0 then Err(NoVariables) else Ok(rs[0])
  }
}
