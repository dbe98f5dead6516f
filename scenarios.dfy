/**
 * The worked problems of the repository's example script, stated as facts about the
 * model: each goal is written with the combinators of module Goals and pursued from
 * the state the script uses.
 */
module Scenarios {
  import opened Wrappers
  import opened Terms
  import opened States
  import opened Scheduler
  import opened Goals
  import opened Sequences

  const X := Variable(0, "x")
  const Y := Variable(1, "y")
  const Z := Variable(2, "z")
  const A := Variable(0, "a")
  const B := Variable(1, "b")

  function N(n: int): Term {
    Const(Num(n))
  }

  /** `x = 5` pursued in a state with the variables (x, y, z) and no bindings: one
      state, binding x alone. */
  lemma AssignInThreeVariableState()
    ensures var (s0, made) := CreateVariables(EmptyState, ["x", "y", "z"]);
      && made == [X, Y, Z]
      && Pursue(Equal(Ref(0), Lit(N(5))), made, Some(s0))
         == Yields(Stream([Some(State([X, Y, Z], map[X := N(5)]))], Exhausted))
  {
    var (s0, made) := CreateVariables(EmptyState, ["x", "y", "z"]);
    assert made == [X, Y, Z];
    assert Walk(map[], Var(X), {}) == Some(Var(X));
    assert Walk(map[], N(5), {}) == Some(N(5));
    assert ValueOf(s0, Var(X)) == Var(X) && ValueOf(s0, N(5)) == N(5);
    assert Unify(s0, Var(X), N(5)) == Unifies(AssignValues(s0, map[X := N(5)]));
    assert AssignValues(s0, map[X := N(5)]) == State([X, Y, Z], map[X := N(5)]);
  }

  /** `with_variables(lambda x: equal(x, 5))` from the empty state. */
  lemma AssignFromEmptyState()
    ensures Pursue(WithVariables(["x"], Equal(Ref(0), Lit(N(5)))), [], Some(EmptyState))
         == Yields(Stream([Some(State([X], map[X := N(5)]))], Exhausted))
  {
    var (s0, made) := CreateVariables(EmptyState, ["x"]);
    assert made == [X];
    assert ValueOf(s0, Var(X)) == Var(X) && ValueOf(s0, N(5)) == N(5);
    assert Unify(s0, Var(X), N(5)) == Unifies(AssignValues(s0, map[X := N(5)]));
    assert AssignValues(s0, map[X := N(5)]) == State([X], map[X := N(5)]);
  }

  /** `equal(v, c)` for an unbound variable v and an atom c binds v to c. */
  lemma EqualBindsUnbound(env: seq<Variable>, i: nat, c: Atom, s: State)
    requires i < |env| && env[i] !in s.values
    ensures Pursue(Equal(Ref(i), Lit(Const(c))), env, Some(s))
         == Yields(Stream([Some(State(s.variables, s.values[env[i] := Const(c)]))], Exhausted))
  {
    assert ValueOf(s, Var(env[i])) == Var(env[i]);
    assert ValueOf(s, Const(c)) == Const(c);
    assert s.values + map[env[i] := Const(c)] == s.values[env[i] := Const(c)];
  }

  /** `equal` of an atom and a variable bound to a different atom yields None. */
  lemma {:induction false} EqualClashesWithBound(env: seq<Variable>, i: nat, c: Atom, d: Atom, s: State)
    requires i < |env| && env[i] in s.values && s.values[env[i]] == Const(c) && c != d
    ensures Pursue(Equal(Lit(Const(d)), Ref(i)), env, Some(s)) == NoStream
  {
    var v := env[i];
    assert Walk(s.values, Const(c), s.values.Keys - {v}) == Some(Const(c));
    assert ValueOf(s, Var(v)) == Const(c);
    assert ValueOf(s, Const(d)) == Const(d);
    assert Clash(Const(d), Const(c));
  }

  /** `either(x = 5, y = 6)`: two states, one per branch, first branch first. */
  lemma EitherGivesTwoStates()
    ensures Pursue(WithVariables(["x", "y"], Either(Equal(Ref(0), Lit(N(5))), Equal(Ref(1), Lit(N(6))))), [], Some(EmptyState))
         == Yields(Stream([Some(State([X, Y], map[X := N(5)])), Some(State([X, Y], map[Y := N(6)]))], Exhausted))
  {
    var (s0, made) := CreateVariables(EmptyState, ["x", "y"]);
    assert made == [X, Y] && [] + made == made;
    var g1, g2 := Equal(Ref(0), Lit(N(5))), Equal(Ref(1), Lit(N(6)));
    var a, b := State([X, Y], map[X := N(5)]), State([X, Y], map[Y := N(6)]);
    EqualBindsUnbound(made, 0, Num(5), s0);
    EqualBindsUnbound(made, 1, Num(6), s0);
    assert Pursue(g1, made, Some(s0)) == Yields(Stream([Some(a)], Exhausted));
    assert Pursue(g2, made, Some(s0)) == Yields(Stream([Some(b)], Exhausted));
    RoundRobinAlternates([Some(a)], [Some(b)]);
    assert Alternate([Some(a)], [Some(b)]) == [Some(a), Some(b)];
    assert Pursue(Either(g1, g2), made, Some(s0)) == Yields(Stream([Some(a), Some(b)], Exhausted));
  }

  /** `both(x = 5, y = 7)`: a single state binding both variables. */
  lemma BothBindsBoth()
    ensures Pursue(WithVariables(["x", "y"], Both(Equal(Ref(0), Lit(N(5))), Equal(Ref(1), Lit(N(7))))), [], Some(EmptyState))
         == Yields(Stream([Some(State([X, Y], map[X := N(5), Y := N(7)]))], Exhausted))
  {
    var (s0, made) := CreateVariables(EmptyState, ["x", "y"]);
    assert made == [X, Y] && [] + made == made;
    var g1, g2 := Equal(Ref(0), Lit(N(5))), Equal(Ref(1), Lit(N(7)));
    var a := State([X, Y], map[X := N(5)]);
    var b := State([X, Y], map[X := N(5), Y := N(7)]);
    EqualBindsUnbound(made, 0, Num(5), s0);
    assert Pursue(g1, made, Some(s0)) == Yields(Stream([Some(a)], Exhausted));
    EqualBindsUnbound(made, 1, Num(7), a);
    assert Pursue(g2, made, Some(a)) == Yields(Stream([Some(b)], Exhausted));
    BothOfSingle(g1, g2, made, Some(s0), a, Stream([Some(b)], Exhausted));
  }

  /** A conjunction whose first goal yields exactly one state yields what its second
      goal yields in that state. */
  lemma BothOfSingle(g1: Goal, g2: Goal, env: seq<Variable>, st: Option<State>, a: State, out: Stream<State>)
    requires Scoped(g1, |env|) && Scoped(g2, |env|)
    requires Pursue(g1, env, st) == Yields(Stream([Some(a)], Exhausted))
    requires Pursue(g2, env, Some(a)) == Yields(out) && out.end == Exhausted
    ensures Pursue(Both(g1, g2), env, st) == Yields(out)
  {
    var states := Stream([Some(a)], Exhausted);
    assert PursueEach(g2, env, Stream(states.items[1..], states.end)) == Stream([], Exhausted);
    PursueEachConcatenates(g2, env, states, out.items);
    assert out.items + [] == out.items;
  }

  /** `with_variables(lambda a, b: both(a = 7, either(b = 5, b = 6)))` */
  function BothOverEitherGoal(): (g: Goal)
    ensures Scoped(g, 0)
  {
    var body := Both(Equal(Ref(0), Lit(N(7))), Either(Equal(Ref(1), Lit(N(5))), Equal(Ref(1), Lit(N(6)))));
    assert Scoped(body.second, 2);
    WithVariables(["a", "b"], body)
  }

  /** `both(a = 7, either(b = 5, b = 6))`: the states {a: 7, b: 5} and {a: 7, b: 6},
      in that order. */
  lemma BothOverEither()
    ensures Pursue(BothOverEitherGoal(), [], Some(EmptyState))
         == Yields(Stream([Some(State([A, B], map[A := N(7), B := N(5)])), Some(State([A, B], map[A := N(7), B := N(6)]))], Exhausted))
  {
    var (s0, made) := CreateVariables(EmptyState, ["a", "b"]);
    assert made == [A, B] && [] + made == made;
    var g1, g21, g22 := Equal(Ref(0), Lit(N(7))), Equal(Ref(1), Lit(N(5))), Equal(Ref(1), Lit(N(6)));
    var s1 := State([A, B], map[A := N(7)]);
    var b5, b6 := State([A, B], map[A := N(7), B := N(5)]), State([A, B], map[A := N(7), B := N(6)]);
    EqualBindsUnbound(made, 0, Num(7), s0);
    assert Pursue(g1, made, Some(s0)) == Yields(Stream([Some(s1)], Exhausted));
    EqualBindsUnbound(made, 1, Num(5), s1);
    EqualBindsUnbound(made, 1, Num(6), s1);
    assert Pursue(g21, made, Some(s1)) == Yields(Stream([Some(b5)], Exhausted));
    assert Pursue(g22, made, Some(s1)) == Yields(Stream([Some(b6)], Exhausted));
    RoundRobinAlternates([Some(b5)], [Some(b6)]);
    assert Alternate([Some(b5)], [Some(b6)]) == [Some(b5), Some(b6)];
    assert Pursue(Either(g21, g22), made, Some(s1)) == Yields(Stream([Some(b5), Some(b6)], Exhausted));
    var states := Stream([Some(s1)], Exhausted);
    assert PursueEach(Either(g21, g22), made, Stream(states.items[1..], states.end)) == Stream([], Exhausted);
    PursueEachConcatenates(Either(g21, g22), made, states, [Some(b5), Some(b6)]);
    assert [Some(b5), Some(b6)] + [] == [Some(b5), Some(b6)];
  }

  /** `both(x = 1, 2 = x)`: no state at all, only the `None` that stands for the
      failed unification. */
  lemma ContradictionYieldsNoState()
    ensures Pursue(WithVariables(["x"], Both(Equal(Ref(0), Lit(N(1))), Equal(Lit(N(2)), Ref(0)))), [], Some(EmptyState))
         == Yields(Stream([None], Exhausted))
  {
    var (s0, made) := CreateVariables(EmptyState, ["x"]);
    assert made == [X] && [] + made == made;
    var g1, g2 := Equal(Ref(0), Lit(N(1))), Equal(Lit(N(2)), Ref(0));
    var s1 := State([X], map[X := N(1)]);
    EqualBindsUnbound(made, 0, Num(1), s0);
    assert Pursue(g1, made, Some(s0)) == Yields(Stream([Some(s1)], Exhausted));
    EqualClashesWithBound(made, 0, Num(1), Num(2), s1);
    PursueEachStopsAtNone(g2, made, Stream([Some(s1)], Exhausted));
  }

  /** `with_variables(lambda x, y: equal(Pair(3, x), Pair(y, Pair(5, y))))` */
  function PairsGoal(): (g: Goal)
    ensures Scoped(g, 0)
  {
    var b := Cons(Ref(1), Cons(Lit(N(5)), Ref(1)));
    assert PatternScoped(b.right, 2);
    WithVariables(["x", "y"], Equal(Cons(Lit(N(3)), Ref(0)), b))
  }

  /** `unify(Pair(3, x), Pair(y, Pair(5, y)))` in a state with x and y unbound: y is
      bound to 3 first, then x to the resolved `Pair(5, 3)`. */
  lemma PairsUnifyComponentwise(s0: State)
    requires s0 == State([X, Y], map[])
    ensures Unify(s0, Pair(N(3), Var(X)), Pair(Var(Y), Pair(N(5), Var(Y))))
         == Unifies(State([X, Y], map[Y := N(3), X := Pair(N(5), N(3))]))
  {
    var a, b := Pair(N(3), Var(X)), Pair(Var(Y), Pair(N(5), Var(Y)));
    WalkResolved(s0.values, a, s0.values.Keys);
    WalkResolved(s0.values, b, s0.values.Keys);
    assert ValueOf(s0, N(3)) == N(3) && ValueOf(s0, Var(Y)) == Var(Y);
    var s1 := State([X, Y], map[Y := N(3)]);
    assert Unify(s0, N(3), Var(Y)) == Unifies(s1);
    ChaseY(s1);
    var s2 := State([X, Y], map[Y := N(3), X := Pair(N(5), N(3))]);
    assert AssignValues(s1, map[X := Pair(N(5), N(3))]) == s2;
    assert Unify(s1, Var(X), Pair(N(5), Var(Y))) == Unifies(s2);
    assert ValueOf(s0, a) == a && ValueOf(s0, b) == b && a != b;
  }

  lemma ChaseY(s1: State)
    requires s1 == State([X, Y], map[Y := N(3)])
    ensures Walkable(s1, Var(X)) && ValueOf(s1, Var(X)) == Var(X)
    ensures Walkable(s1, Pair(N(5), Var(Y))) && ValueOf(s1, Pair(N(5), Var(Y))) == Pair(N(5), N(3))
  {
    assert Walk(s1.values, N(3), s1.values.Keys - {Y}) == Some(N(3));
    assert Walk(s1.values, Var(Y), s1.values.Keys) == Some(N(3));
    assert Walk(s1.values, N(5), s1.values.Keys) == Some(N(5));
  }

  /** The same unification as a goal, pursued from the empty state. */
  lemma PairsGoalYieldsOneState()
    ensures Pursue(PairsGoal(), [], Some(EmptyState))
         == Yields(Stream([Some(State([X, Y], map[Y := N(3), X := Pair(N(5), N(3))]))], Exhausted))
  {
    var (s0, made) := CreateVariables(EmptyState, ["x", "y"]);
    assert made == [X, Y] && [] + made == made;
    var pa, pb := Cons(Lit(N(3)), Ref(0)), Cons(Ref(1), Cons(Lit(N(5)), Ref(1)));
    assert PairsGoal() == WithVariables(["x", "y"], Equal(pa, pb));
    assert Instantiate(made, pa) == Pair(N(3), Var(X));
    assert Instantiate(made, pb.right) == Pair(N(5), Var(Y));
    assert Instantiate(made, pb) == Pair(Var(Y), Pair(N(5), Var(Y)));
    PairsUnifyComponentwise(s0);
  }

  /** `results(2)` of the state found by `both(x = 5, y = 7)` reports x then y. */
  lemma ResultsOfBothBindsBoth(s: State)
    requires s == State([X, Y], map[X := N(5), Y := N(7)])
    ensures Walkable(s, Var(X)) && Walkable(s, Var(Y))
    ensures Results(s, 2) == [N(5), N(7)]
    ensures States.Result(s) == Ok(N(5))
  {
    assert Walk(s.values, N(5), s.values.Keys - {X}) == Some(N(5));
    assert Walk(s.values, N(7), s.values.Keys - {Y}) == Some(N(7));
    assert ValueOf(s, Var(X)) == N(5);
    assert ValueOf(s, Var(Y)) == N(7);
  }

  function Char(c: char): Term {
    Const(Text([c]))
  }

  /** `to_list` iterates each element: the two-element sequence ('he', 'llo') reads
      back as the five characters of "hello". */
  lemma ToListSplitsStrings()
    ensures ToList(Pair(Const(Text("he")), Pair(Const(Text("llo")), Empty)))
         == Ok([Char('h'), Char('e'), Char('l'), Char('l'), Char('o')])
  {
    var he, llo := Iterate(Const(Text("he"))).value, Iterate(Const(Text("llo"))).value;
    assert |he| == 2 && he[0] == Char('h') && he[1] == Char('e');
    assert he == [Char('h'), Char('e')];
    assert |llo| == 3 && llo[0] == Char('l') && llo[1] == Char('l') && llo[2] == Char('o');
    assert llo == [Char('l'), Char('l'), Char('o')];
    var inner := Pair(Const(Text("llo")), Empty);
    assert ToList(Empty) == Ok([]);
    assert ToList(inner) == Ok(llo + []);
    assert he + (llo + []) == [Char('h'), Char('e'), Char('l'), Char('l'), Char('o')];
  }

  /** `with_variables(lambda x, y: both(either(1 = 2, y = 6), x = 5))` */
  function BothAfterFailedBranchGoal(): (g: Goal)
    ensures Scoped(g, 0)
  {
    WithVariables(["x", "y"], Both(Either(Equal(Lit(N(1)), Lit(N(2))), Equal(Ref(1), Lit(N(6)))), Equal(Ref(0), Lit(N(5)))))
  }

  /** `both(either(1 = 2, y = 6), x = 5)` with x and y fresh. The disjunction yields a
      None for its failed branch, then {y: 6}. The None reaches `x = 5` first, the
      chain's TypeError ends the conjunction, and {y: 6} is never extended: the whole
      output is a lone None although {x: 5, y: 6} satisfies the goal. */
  lemma BothLosesStatesAfterNone()
    ensures Pursue(BothAfterFailedBranchGoal(), [], Some(EmptyState)) == Yields(Stream([None], Exhausted))
  {
    var (s0, made) := CreateVariables(EmptyState, ["x", "y"]);
    assert made == [X, Y] && [] + made == made;
    var fail, y6, x5 := Equal(Lit(N(1)), Lit(N(2))), Equal(Ref(1), Lit(N(6))), Equal(Ref(0), Lit(N(5)));
    var sy := State([X, Y], map[Y := N(6)]);
    assert ValueOf(s0, N(1)) == N(1) && ValueOf(s0, N(2)) == N(2);
    assert Unify(s0, N(1), N(2)) == Fails;
    assert Pursue(fail, made, Some(s0)) == NoStream;
    EqualBindsUnbound(made, 1, Num(6), s0);
    assert Pursue(y6, made, Some(s0)) == Yields(Stream([Some(sy)], Exhausted));
    RoundRobinAfterRaise(Stream([], Raises), Stream([Some(sy)], Exhausted));
    var states := Stream([None, Some(sy)], Exhausted);
    assert Pursue(Either(fail, y6), made, Some(s0)) == Yields(states);
    PursueEachStopsAtNone(x5, made, states);
  }

  /** The same states handed to the corrected generator: the None for the failed
      branch still comes first, and {y: 6} goes on to {x: 5, y: 6}. */
  lemma FairPursuitExtendsLaterStates()
    ensures PursueEachFair(Equal(Ref(0), Lit(N(5))), [X, Y], Stream([None, Some(State([X, Y], map[Y := N(6)]))], Exhausted))
         == Stream([None, Some(State([X, Y], map[Y := N(6), X := N(5)]))], Exhausted)
  {
    var env, x5 := [X, Y], Equal(Ref(0), Lit(N(5)));
    var sy := State([X, Y], map[Y := N(6)]);
    var sxy := State([X, Y], map[Y := N(6), X := N(5)]);
    var states := Stream([None, Some(sy)], Exhausted);
    EqualBindsUnbound(env, 0, Num(5), sy);
    assert sy.values[X := N(5)] == sxy.values;
    var tail := Stream(states.items[1..], states.end);
    assert tail == Stream([Some(sy)], Exhausted);
    var last := Stream(tail.items[1..], tail.end);
    assert PursueEachFair(x5, env, last) == Stream([], Exhausted);
    RoundRobinAfterEmpty(Stream([Some(sxy)], Exhausted), Stream([], Exhausted));
    assert PursueEachFair(x5, env, tail) == Stream([Some(sxy)], Exhausted);
    RoundRobinAfterRaise(Stream([], Raises), Stream([Some(sxy)], Exhausted));
  }

  /** An iterator that raises at once contributes one None and is dropped. */
  lemma RoundRobinAfterRaise(a: Stream<State>, b: Stream<State>)
    requires a == Stream([], Raises) && b.end == Exhausted
    ensures RoundRobin([a, b]) == Stream([None] + b.items, Exhausted)
  {
    assert [a, b][1..] == [b];
    RoundRobinSingle(b);
  }

  /** A one-item iterator followed by an empty one gives that item. */
  lemma RoundRobinAfterEmpty(a: Stream<State>, b: Stream<State>)
    requires |a.items| == 1 && a.end == Exhausted && b == Stream([], Exhausted)
    ensures RoundRobin([a, b]) == a
  {
    var a' := Stream(a.items[1..], a.end);
    assert [a, b][1..] + [a'] == [b, a'];
    assert [b, a'][1..] == [a'];
    assert [a'][1..] == [];
    assert RoundRobin([a']) == Stream([], Exhausted);
    assert RoundRobin([b, a']) == Stream([], Exhausted);
    assert a.items == [a.items[0]];
  }
}
