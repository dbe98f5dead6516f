/**
 * The `Goal` combinators of micro_kanren/micro.py: `equal`, `either`, `both`,
 * `with_variables`, and the generator `pursue_in_each` behind `both`.
 *
 * A goal is a first-order description of the Python closure it stands for. Terms
 * inside a goal are Patterns, in which `Ref(i)` names the i-th variable introduced by
 * the enclosing `with_variables` binders, outermost first; `with_variables` carries the
 * parameter names of its binder explicitly.
 *
 * Pursuing a goal either returns Python's `None` (NoStream), returns an iterator
 * (Yields), or raises RecursionError (Loops) because a `value_of` inside an eager
 * `unify` meets a cyclic binding.
 */
module Goals {
  import opened Wrappers
  import opened Terms
  import opened States
  import opened Scheduler

  datatype Pattern = Ref(index: nat) | Lit(t: Term) | Cons(left: Pattern, right: Pattern)

  datatype Goal =
    | Equal(a: Pattern, b: Pattern)
    | Either(first: Goal, second: Goal)
    | Both(first: Goal, second: Goal)
    | WithVariables(names: seq<string>, body: Goal)

  /** Every Ref refers to one of the `depth` variables in scope. */
  predicate PatternScoped(p: Pattern, depth: nat) {
    match p
    case Ref(i) => i < depth
    case Lit(_) => true
    case Cons(l, r) => PatternScoped(l, depth) && PatternScoped(r, depth)
  }

  predicate Scoped(g: Goal, depth: nat) {
    match g
    case Equal(a, b) => PatternScoped(a, depth) && PatternScoped(b, depth)
    case Either(g1, g2) => Scoped(g1, depth) && Scoped(g2, depth)
    case Both(g1, g2) => Scoped(g1, depth) && Scoped(g2, depth)
    case WithVariables(names, body) => Scoped(body, depth + |names|)
  }

  /** The term a pattern denotes once its binders have produced the variables `env`. */
  function Instantiate(env: seq<Variable>, p: Pattern): Term
    requires PatternScoped(p, |env|)
  {
    match p
    case Ref(i) => Var(env[i])
    case Lit(t) => t
    case Cons(l, r) => Pair(Instantiate(env, l), Instantiate(env, r))
  }

  datatype Pursuit = NoStream | Yields(stream: Stream<State>) | Loops

  /** How consumers (`interleave`, `chain`, `next`, a for loop) see a returned value:
      pulling from `None` raises TypeError. */
  function AsIterator(p: Pursuit): Stream<State>
    requires !p.Loops?
  {
    if p.NoStream? then Stream([], Raises) else p.stream
  }

  /** `goal.pursue_in(state)`; `state` is None when an earlier unification failed.
      `equal` and `with_variables` give None for a None state; `equal` yields at most
      one state and then ends; `either` returns an `interleave`, which never lets a
      TypeError out; `both` returns a generator, so it is never None. */
  function Pursue(g: Goal, env: seq<Variable>, st: Option<State>): (r: Pursuit)
    requires Scoped(g, |env|)
    ensures (g.Equal? || g.WithVariables?) && st.None? ==> r == NoStream
    ensures g.Equal? && r.Yields? ==> |r.stream.items| == 1 && r.stream.items[0].Some? && r.stream.end == Exhausted
    ensures g.Either? && r.Yields? ==> r.stream.end != Raises
    ensures g.Either? || g.Both? ==> !r.NoStream?
    decreases g, 0
  {
    match g
    case Equal(a, b) =>
      if st.None? then NoStream
      else
        var u := Unify(st.value, Instantiate(env, a), Instantiate(env, b));
        if u.Unifies? then Yields(Stream([Some(u.state)], Exhausted))
        else if u.Fails? then NoStream
        else Loops
    case WithVariables(names, body) =>
      if st.None? then NoStream
      else
        var (s, made) := CreateVariables(st.value, names);
        Pursue(body, env + made, Some(s))
    case Either(g1, g2) =>
      var p1 := Pursue(g1, env, st);
      if p1.Loops? then Loops
      else
        var p2 := Pursue(g2, env, st);
        if p2.Loops? then Loops
        else Yields(RoundRobin([AsIterator(p1), AsIterator(p2)]))
    case Both(g1, g2) =>
      var p1 := Pursue(g1, env, st);
      if p1.Loops? then Loops
      else Yields(PursueEach(g2, env, AsIterator(p1)))
  }

  /** The generator `pursue_in_each(states)` of goal g. Its first pull takes the next
      state (the end of `states` ends it, as StopIteration inside a generator did
      before PEP 479; a TypeError or a hang passes through), pursues g in it, and hands
      `interleave` ONE iterator: the chain of those results and of the recursive
      generator over the remaining states. A TypeError from the chain becomes one
      `None`, after which the remaining states are never looked at. */
  function PursueEach(g: Goal, env: seq<Variable>, states: Stream<State>): (r: Stream<State>)
    requires Scoped(g, |env|)
    ensures states.items == [] ==> r == Stream([], states.end)
    ensures states.items != [] ==> r.end != Raises
    decreases g, |states.items| + 1
  {
    if states.items == [] then Stream([], states.end)
    else
      var first := Pursue(g, env, states.items[0]);
      if first.Loops? then Stream([], Hangs)
      else
        var results := AsIterator(first);
        var chained :=
          if results.end == Exhausted then
            var rest := PursueEach(g, env, Stream(states.items[1..], states.end));
            Stream(results.items + rest.items, rest.end)
          else results;
        RoundRobin([chained])
  }

  /** The generator `pursue_in_each` as its use of `interleave` calls for: the results
      for the first state and the generator over the remaining states are handed over
      as two iterators, `interleave(results, rest)`, so a None for one state no longer
      ends the search over the states after it. */
  function PursueEachFair(g: Goal, env: seq<Variable>, states: Stream<State>): (r: Stream<State>)
    requires Scoped(g, |env|)
    ensures states.items == [] ==> r == Stream([], states.end)
    ensures states.items != [] ==> r.end != Raises
    decreases |states.items|
  {
    if states.items == [] then Stream([], states.end)
    else
      var first := Pursue(g, env, states.items[0]);
      if first.Loops? then Stream([], Hangs)
      else RoundRobin([AsIterator(first), PursueEachFair(g, env, Stream(states.items[1..], states.end))])
  }

  /** With the corrected generator, the results for the first state and everything
      found for the later states both appear in full and in their own order, whether
      or not g returned None for the first state. */
  lemma PursueEachFairKeepsLaterStates(g: Goal, env: seq<Variable>, states: Stream<State>)
    requires Scoped(g, |env|) && states.items != []
    requires !Pursue(g, env, states.items[0]).Loops?
    requires AsIterator(Pursue(g, env, states.items[0])).end != Hangs
    requires PursueEachFair(g, env, Stream(states.items[1..], states.end)).end != Hangs
    ensures var first := AsIterator(Pursue(g, env, states.items[0]));
      var rest := PursueEachFair(g, env, Stream(states.items[1..], states.end));
      var out := PursueEachFair(g, env, states);
      && out.end == Exhausted
      && Pick(out.items, Origins([first, rest], [0, 1]), 0) == Contribution(first)
      && Pick(out.items, Origins([first, rest], [0, 1]), 1) == Contribution(rest)
  {
    var first := AsIterator(Pursue(g, env, states.items[0]));
    var rest := PursueEachFair(g, env, Stream(states.items[1..], states.end));
    assert PursueEachFair(g, env, states) == RoundRobin([first, rest]);
    RoundRobinPair(first, rest);
  }

  /** `equal(a, b)`: None on a None input; otherwise exactly one state when the
      operands unify, None when they do not. */
  lemma EqualYieldsAtMostOne(a: Pattern, b: Pattern, env: seq<Variable>, st: Option<State>)
    requires Scoped(Equal(a, b), |env|)
    ensures st.None? ==> Pursue(Equal(a, b), env, st) == NoStream
    ensures st.Some? ==>
      var u := Unify(st.value, Instantiate(env, a), Instantiate(env, b));
      && (u.Unifies? ==> Pursue(Equal(a, b), env, st) == Yields(Stream([Some(u.state)], Exhausted)))
      && (Pursue(Equal(a, b), env, st).Yields? ==> u.Unifies?)
      && (u.Fails? <==> Pursue(Equal(a, b), env, st) == NoStream)
  {
  }

  /** `with_variables`: None on a None input, without creating variables; otherwise
      the body is pursued in the state extended with one fresh variable per name. */
  lemma WithVariablesCreates(names: seq<string>, body: Goal, env: seq<Variable>, st: Option<State>)
    requires Scoped(WithVariables(names, body), |env|)
    ensures st.None? ==> Pursue(WithVariables(names, body), env, st) == NoStream
    ensures st.Some? ==>
      var (s, made) := CreateVariables(st.value, names);
      && s.variables == st.value.variables + made && |made| == |names|
      && Pursue(WithVariables(names, body), env, st) == Pursue(body, env + made, Some(s))
  {
  }

  /** `either`: when neither branch diverges or hangs, every result of each branch
      appears exactly once and in its own order (a branch that returned None
      contributing a single `None`), so the output is as long as both together. */
  lemma EitherMergesBranches(g1: Goal, g2: Goal, env: seq<Variable>, st: Option<State>)
    requires Scoped(Either(g1, g2), |env|)
    requires !Pursue(g1, env, st).Loops? && !Pursue(g2, env, st).Loops?
    requires AsIterator(Pursue(g1, env, st)).end != Hangs
    requires AsIterator(Pursue(g2, env, st)).end != Hangs
    ensures var s1, s2 := AsIterator(Pursue(g1, env, st)), AsIterator(Pursue(g2, env, st));
      var out := Pursue(Either(g1, g2), env, st).stream;
      && Pursue(Either(g1, g2), env, st).Yields?
      && out.end == Exhausted
      && |out.items| == |Contribution(s1)| + |Contribution(s2)|
      && Pick(out.items, Origins([s1, s2], [0, 1]), 0) == Contribution(s1)
      && Pick(out.items, Origins([s1, s2], [0, 1]), 1) == Contribution(s2)
  {
    var s1, s2 := AsIterator(Pursue(g1, env, st)), AsIterator(Pursue(g2, env, st));
    assert Pursue(Either(g1, g2), env, st) == Yields(RoundRobin([s1, s2]));
    RoundRobinPair(s1, s2);
  }

  /** `both`: when the first goal yields nothing, neither does the conjunction. */
  lemma BothOfNothing(g1: Goal, g2: Goal, env: seq<Variable>, st: Option<State>)
    requires Scoped(Both(g1, g2), |env|)
    requires Pursue(g1, env, st) == Yields(Stream([], Exhausted))
    ensures Pursue(Both(g1, g2), env, st) == Yields(Stream([], Exhausted))
  {
  }

  /** `both`: when the first goal returns None, the conjunction's iterator raises
      TypeError at its first pull. */
  lemma BothOfNone(g1: Goal, g2: Goal, env: seq<Variable>, st: Option<State>)
    requires Scoped(Both(g1, g2), |env|)
    requires Pursue(g1, env, st) == NoStream
    ensures Pursue(Both(g1, g2), env, st) == Yields(Stream([], Raises))
  {
  }

  /** `both` concatenates: all results of g for the first state come before anything
      from later states (a TypeError that escapes the later part becoming one `None`). */
  lemma PursueEachConcatenates(g: Goal, env: seq<Variable>, states: Stream<State>, xs: seq<Option<State>>)
    requires Scoped(g, |env|) && states.items != []
    requires Pursue(g, env, states.items[0]) == Yields(Stream(xs, Exhausted))
    ensures var rest := PursueEach(g, env, Stream(states.items[1..], states.end));
      PursueEach(g, env, states)
        == Stream(xs + Contribution(rest), if rest.end == Hangs then Hangs else Exhausted)
  {
    var rest := PursueEach(g, env, Stream(states.items[1..], states.end));
    RoundRobinSingle(Stream(xs + rest.items, rest.end));
  }

  /** `both` stops at a failure: when g returns None for the first state, the output is
      a single `None` and the later states are never explored. */
  lemma PursueEachStopsAtNone(g: Goal, env: seq<Variable>, states: Stream<State>)
    requires Scoped(g, |env|) && states.items != []
    requires Pursue(g, env, states.items[0]) == NoStream
    ensures PursueEach(g, env, states) == Stream([None], Exhausted)
  {
    RoundRobinSingle<State>(Stream([], Raises));
  }

  /** Every state among `items` was reached from `st` (and so `st` is a state). */
  ghost predicate DescendFrom(st: Option<State>, items: seq<Option<State>>) {
    forall t | Some(t) in items :: st.Some? && Grows(st.value, t)
  }

  lemma {:induction false} FromInputs(st: Option<State>, queue: seq<Stream<State>>)
    requires forall i | 0 <= i < |queue| :: DescendFrom(st, queue[i].items)
    ensures DescendFrom(st, RoundRobin(queue).items)
  {
    forall t | Some(t) in RoundRobin(queue).items ensures st.Some? && Grows(st.value, t) {
      FromInputsAt(st, queue, t);
    }
  }

  lemma {:induction false} FromInputsAt(st: Option<State>, queue: seq<Stream<State>>, t: State)
    requires forall i | 0 <= i < |queue| :: DescendFrom(st, queue[i].items)
    requires Some(t) in RoundRobin(queue).items
    ensures st.Some? && Grows(st.value, t)
  {
    RoundRobinDrawsFromInputs(queue, t);
    var i :| 0 <= i < |queue| && Some(t) in queue[i].items;
    assert DescendFrom(st, queue[i].items);
  }

  /** Goals only add: every state a goal yields keeps the input's variables as a prefix
      and all of its bindings. */
  lemma {:induction false} PursueGrows(g: Goal, env: seq<Variable>, st: Option<State>)
    requires Scoped(g, |env|)
    ensures Pursue(g, env, st).Yields? ==> DescendFrom(st, Pursue(g, env, st).stream.items)
    decreases g, 0
  {
    match g
    case Equal(a, b) =>
    case WithVariables(names, body) =>
      if st.Some? {
        var (s, made) := CreateVariables(st.value, names);
        PursueGrows(body, env + made, Some(s));
        if Pursue(g, env, st).Yields? {
          forall t | Some(t) in Pursue(g, env, st).stream.items ensures Grows(st.value, t) {
            GrowsTransitive(st.value, s, t);
          }
        }
      }
    case Either(g1, g2) =>
      PursueGrows(g1, env, st);
      PursueGrows(g2, env, st);
      var p1, p2 := Pursue(g1, env, st), Pursue(g2, env, st);
      if !p1.Loops? && !p2.Loops? {
        FromInputs(st, [AsIterator(p1), AsIterator(p2)]);
      }
    case Both(g1, g2) =>
      PursueGrows(g1, env, st);
      var p1 := Pursue(g1, env, st);
      if !p1.Loops? {
        PursueEachGrows(g2, env, AsIterator(p1), st);
      }
  }

  lemma {:induction false} PursueEachGrows(g: Goal, env: seq<Variable>, states: Stream<State>, st: Option<State>)
    requires Scoped(g, |env|)
    requires DescendFrom(st, states.items)
    ensures DescendFrom(st, PursueEach(g, env, states).items)
    decreases g, |states.items| + 1
  {
    if states.items != [] {
      var head := states.items[0];
      var first := Pursue(g, env, head);
      if !first.Loops? {
        PursueGrows(g, env, head);
        var results := AsIterator(first);
        assert DescendFrom(st, results.items) by {
          forall t | Some(t) in results.items ensures st.Some? && Grows(st.value, t) {
            GrowsTransitive(st.value, head.value, t);
          }
        }
        if results.end == Exhausted {
          var tail := Stream(states.items[1..], states.end);
          PursueEachGrows(g, env, tail, st);
          var rest := PursueEach(g, env, tail);
          FromInputs(st, [Stream(results.items + rest.items, rest.end)]);
        } else {
          FromInputs(st, [results]);
        }
      }
    }
  }
}
