# micro_kanren in Dafny

A model of the micro-Kanren logic engine in `micro_kanren/`. Logic variables, pairs
and atoms form terms. An immutable `State` holds the variables created so far and
a map of bindings. `unify` extends a state so that two terms resolve alike. Four
goal combinators (`equal`, `either`, `both`, `with_variables`) turn a state into a
stream of states. The round-robin scheduler `interleave` merges such streams. Cons
lists (`Sequence.from_list` / `to_list`) and Peano numerals (`from_integer` /
`to_integer`) encode data as nested pairs.

Modules, one per concern:

- `Wrappers` (wrappers.dfy): `Option`, the `Result` of conversions that may raise,
  and the kinds of error raised.
- `Terms` (terms.dfy): `Variable`, `Atom` and `Term`.
  - A `Variable` carries an explicit `id`, its position in the variable list of its
    state. This stands in for the object identity the source compares.
  - The three `object()` sentinels (`Sequence.EMPTY`, `peano.ZERO`,
    `peano.SUCCESSOR`) are atoms, each equal only to itself.
- `States` (states.dfy): `State` with `value_of`, `final_value_of`, `unify`,
  `create_variables`, `assign_values`, `results` and `result`.
  - There is no occurs check, so a binding map can hold a cycle. On a cycle
    `value_of` recurses until Python's recursion limit raises RecursionError.
  - `Walk` follows the source's recursion while tracking the bound variables not yet
    chased on the current path. It answers `None` exactly when the source ends in that
    RecursionError.
  - `Unify` answers `Unifies(state)`, `Fails` (the source's `None`) or `Diverges`.
  - On an acyclic result, unification is proved sound and idempotent.
- `Scheduler` (scheduler.dfy): `interleave` and `take`.
  - An iterator is its finite list of items followed by an ending: exhausted (StopIteration), raises
    TypeError (which is also what pulling from `None` does), or hangs (a pull that
    does not come back normally: an exception `interleave` does not catch, such as the
    RecursionError of `value_of` on a cycle, or a pull that never returns).
  - `Interleave` is the imperative queue loop. It is proved equal to the recursive
    specification `RoundRobin`, whose completeness, per-input order, length and
    alternation are proved as lemmas.
- `Goals` (goals.dfy): goals as a first-order datatype.
  - `Ref(i)` in a pattern names the i-th variable introduced by the enclosing
    `with_variables`. The binder lists its parameter names explicitly, in place of
    signature reflection.
  - `Pursue` returns `NoStream` (the source's `None`), `Yields(stream)` or `Loops` (an
    eager `unify` that raises RecursionError on a cyclic binding).
  - `PursueEach` is the generator `pursue_in_each`: it hands `interleave` a single
    `chain`. So `both` concatenates the results for successive states, and a `None`
    from the second goal ends the whole conjunction after one `None`.
  - `PursueEachFair` is the generator as its use of `interleave` calls for, with the
    results for the first state and the generator over the rest as two iterators
    (see Findings).
  - A state that `next(states)` never produces ends the generator, as StopIteration
    inside a generator did before PEP 479.
- `Sequences` (sequences.dfy) and `Peano` (peano.dfy): the two encodings.
- `Scenarios` (scenarios.dfy): the problems worked in `examples/examples.py`, stated
  as facts about the model.

## Model

| member | source | states |
|---|---|---|
| States.CreateVariables | micro_kanren/micro.py:45-47 | one new variable per name, in order, named as given and pairwise distinct even for repeated names; appended after the old variables; bindings unchanged; the new variables are not among the old ones |
| States.AssignValues | micro_kanren/micro.py:49-50 | variable list unchanged; keys are old plus new; a new entry wins over an old one; other old entries kept |
| States.Walk | micro_kanren/micro.py:62-72 | a result of `value_of` mentions only variables of the input or of bound values, and never a bound variable |
| States.ValueOf | micro_kanren/micro.py:62-72 | the resolved term contains no bound variable and nothing beyond the term's and the bound values' variables |
| States.FinalValueOf | micro_kanren/micro.py:52-60 | `final_value_of` is `value_of` with every remaining (unbound) variable replaced by its name |
| States.FinalWalkIsNamedWalk | micro_kanren/micro.py:52-72 | `final_value_of` returns exactly when `value_of` does, and then agrees with it up to naming unbound variables |
| States.WalkResolved | micro_kanren/micro.py:62-72 | a term mentioning no bound variable resolves to itself |
| States.ValueOfCases | micro_kanren/micro.py:62-72 | atoms and unbound variables come back unchanged; a bound variable resolves as its value; a pair resolves componentwise |
| States.ValueOfIdempotent | micro_kanren/micro.py:62-72 | resolving a resolved term changes nothing |
| States.Unify | micro_kanren/micro.py:74-85 | the variable list and every existing binding are kept; only variables in play get bound; a side whose `value_of` raises RecursionError gives `Diverges`; equal resolved values give back the very same state; otherwise a resolved unbound variable on the left is bound to the right value, else one on the right is bound to the left value; clashing resolved values (unequal, no variable, not two pairs) give None |
| States.UnifyPairs | micro_kanren/micro.py:83-85 | two unequal resolved pairs: the left components are unified first; None (or divergence) there is the answer; otherwise the right components are unified in the state that produced |
| States.UnifySound | micro_kanren/micro.py:74-85 | on success with an acyclic result, both operands resolve to the same term in the returned state |
| States.UnifyIdempotent | micro_kanren/micro.py:74-85 | unifying the same operands again in the result returns that result unchanged |
| States.Results | micro_kanren/micro.py:87-88 | the resolved values of the first min(n, number of variables) variables, in creation order |
| States.Result | micro_kanren/micro.py:90-91 | the resolved value of the first variable; an error exactly when there are no variables |
| Scheduler.RoundRobin | micro_kanren/utils.py:4-16 | the merged output never ends by raising (every TypeError is caught and becomes None); it ends whenever no input hangs |
| Scheduler.Interleave | micro_kanren/utils.py:4-16 | the loop that pops the front iterator, emits its next item and re-appends it, drops it when exhausted, and emits one None for a TypeError, produces exactly `RoundRobin` of its inputs |
| Scheduler.RoundRobinLength | micro_kanren/utils.py:4-16 | with no hanging input the loop ends, and the output holds as many elements as all inputs' items plus one None per raising input |
| Scheduler.RoundRobinKeepsEachInput | micro_kanren/utils.py:9-16 | restricted to the outputs drawn from one input, the output is that input's items in their own order, followed by one None when it raises TypeError; nothing is lost or duplicated |
| Scheduler.RoundRobinDrawsFromInputs | micro_kanren/utils.py:9-11 | every value emitted is an item of one of the inputs |
| Scheduler.RoundRobinPair | micro_kanren/utils.py:4-16 | two non-hanging inputs: the output ends, has the length of both contributions together, and contains each input's contribution in order |
| Scheduler.RoundRobinSingle | micro_kanren/utils.py:6-16 | with one input the output is that input, a TypeError becoming one trailing None |
| Scheduler.RoundRobinAlternates | micro_kanren/utils.py:9-11 | two finite inputs of equal length are drawn from alternately, first input first |
| Scheduler.Take | micro_kanren/utils.py:18-20 | `take(n, xs)` is the first min(n, len(xs)) items; it raises or hangs only when it needs an item beyond the ones available and the iterator raises or hangs there |
| Goals.Pursue | micro_kanren/micro.py:105-148 | `equal` and `with_variables` return None for a None state; `equal` that returns an iterator yields exactly one state and ends; `either` returns an `interleave`, which never ends by raising; `either` and `both` never return None |
| Goals.PursueEach | micro_kanren/micro.py:108-112 | with no state left the generator ends as its input does; once a state has been drawn, no TypeError escapes it |
| Goals.PursueEachFair | micro_kanren/micro.py:108-112 | the corrected generator: with no state left it ends as its input does; once a state has been drawn, no TypeError escapes it |
| Goals.PursueEachFairKeepsLaterStates | micro_kanren/micro.py:108-112 | with the corrected generator, the results for the first state and everything found for the later states both appear in full and in order, even when the goal returns None for the first state |
| Goals.EqualYieldsAtMostOne | micro_kanren/micro.py:126-133 | None on a None input; otherwise exactly one state when the operands unify, None exactly when they fail to |
| Goals.WithVariablesCreates | micro_kanren/micro.py:114-124 | None on a None input without creating variables; otherwise the body is pursued in the state extended with one new variable per parameter name |
| Goals.EitherMergesBranches | micro_kanren/micro.py:135-141 | when neither branch diverges, each branch's results appear in the output exactly once and in their own order (None standing for a branch that returned None) |
| Goals.BothOfNothing | micro_kanren/micro.py:143-148 | if the first goal yields no state, neither does the conjunction |
| Goals.BothOfNone | micro_kanren/micro.py:143-148 | if the first goal returns None, pulling from the conjunction raises TypeError |
| Goals.PursueEachConcatenates | micro_kanren/micro.py:108-112 | all results of the goal for the first state come before anything from the later states |
| Goals.PursueEachStopsAtNone | micro_kanren/micro.py:108-112 | when the goal returns None for the first state, the output is a single None and later states are never explored |
| Goals.PursueGrows | micro_kanren/micro.py:105-148 | every state any goal yields keeps the input state's variables as a prefix and all of its bindings |
| Goals.PursueEachGrows | micro_kanren/micro.py:108-112 | every state `pursue_in_each` yields grows from the state its input states grew from |
| Sequences.FromList | micro_kanren/sequence.py:16-25 | a falsy argument gives EMPTY, another non-list raises TypeError, a list gives the chain of its elements in order ending in EMPTY |
| Sequences.ToList | micro_kanren/sequence.py:27-36 | succeeds exactly on a chain ending in EMPTY whose elements are all iterable, giving their concatenated iterations; a chain ending elsewhere raises the "not a Pair" error |
| Sequences.ToListFromList | micro_kanren/sequence.py:16-36 | a list of one-character strings survives `from_list` then `to_list` |
| Sequences.ToListSplicesElements | micro_kanren/sequence.py:36 | as written, the round trip fails: `[1]` raises TypeError and `['he']` comes back as `['h', 'e']` |
| Sequences.ToListIntended | micro_kanren/sequence.py:27-36 | the corrected conversion: succeeds exactly on a chain ending in EMPTY and returns its elements |
| Sequences.ToListIntendedFromList | micro_kanren/sequence.py:16-36 | with the corrected conversion, `to_list(from_list(L)) == L` for every list L |
| Sequences.FromListToListIntended | micro_kanren/sequence.py:16-36 | the corrected conversion inverts `from_list` on every chain that ends in EMPTY |
| Peano.FromInteger | micro_kanren/peano.py:11-19 | a canonical numeral with n successor pairs over ZERO |
| Peano.ToInteger | micro_kanren/peano.py:22-29 | succeeds exactly on a chain of pairs ending in ZERO and counts its pairs, reading only right components; otherwise the missing `.right` error |
| Peano.ToIntegerFromInteger | micro_kanren/peano.py:11-29 | `to_integer(from_integer(n)) == n` for every n >= 0 |
| Peano.FromIntegerToInteger | micro_kanren/peano.py:11-29 | every canonical numeral is `from_integer` of its value |
| Peano.ToPeano | micro_kanren/peano.py:32-33 | the numeral returned reads back as n |
| Peano.FromPeano | micro_kanren/peano.py:36-37 | succeeds exactly on chains of pairs ending in ZERO and then counts their pairs; otherwise the missing `.right` error; inverts `to_peano` on canonical numerals |
| Scenarios.AssignInThreeVariableState | examples/examples.py:16-22 | `x = 5` in a state with x, y, z yields one state binding x alone |
| Scenarios.AssignFromEmptyState | examples/examples.py:33-38 | `with_variables(lambda x: x = 5)` from the empty state yields {x: 5} |
| Scenarios.EqualBindsUnbound | micro_kanren/micro.py:126-133 | `equal` of an unbound variable and an atom yields the state with that one binding added |
| Scenarios.EitherGivesTwoStates | examples/examples.py:49-57 | `x = 5 or y = 6` yields {x: 5} then {y: 6} |
| Scenarios.BothBindsBoth | examples/examples.py:68-76 | `x = 5 and y = 7` yields the single state {x: 5, y: 7} |
| Scenarios.BothOverEither | examples/examples.py:87-97 | `a = 7 and (b = 5 or b = 6)` yields {a: 7, b: 5} then {a: 7, b: 6} |
| Scenarios.ContradictionYieldsNoState | examples/examples.py:108-116 | `x = 1 and 2 = x` yields no state, only one None |
| Scenarios.PairsUnifyComponentwise | micro_kanren/micro.py:83-85 | `Pair(3, x)` against `Pair(y, Pair(5, y))` binds y to 3 and then x to `Pair(5, 3)` |
| Scenarios.PairsGoalYieldsOneState | examples/examples.py:127-135 | the same equation as a goal yields exactly that one state |
| Scenarios.ResultsOfBothBindsBoth | micro_kanren/micro.py:87-91 | `results(2)` of {x: 5, y: 7} is [5, 7] and `result()` is 5 |
| Scenarios.BothLosesStatesAfterNone | micro_kanren/micro.py:108-112 | `both(either(1 = 2, y = 6), x = 5)` with x and y fresh yields a lone None, although {x: 5, y: 6} satisfies it |
| Scenarios.FairPursuitExtendsLaterStates | micro_kanren/micro.py:108-112 | the corrected generator turns the states None, {y: 6} under `x = 5` into None, {x: 5, y: 6} |
| Scenarios.ToListSplitsStrings | micro_kanren/sequence.py:35-36 | the chain ('he', 'llo') reads back as the five characters of "hello" |

## Left out

- `append`, `add` and `multiply` (micro_kanren/micro.py:155-206) are not modelled. They are relations whose goal trees unfold without bound as the stream is pulled, and the first-order `Goal` datatype has no recursion. So the append and arithmetic problems of the example script (for instance that adding 5 and 3 reports 8) are not stated.
- Laziness is only modelled for finite streams. An iterator is a finite list of items followed by an ending, so infinite streams are out of reach. A hang stands for any pull that does not come back normally (an uncaught RecursionError, or a pull that never returns), and only the prefix before it is kept.
- Python 3.7 and later turn the StopIteration of `next(states)` inside `pursue_in_each` into RuntimeError (PEP 479). The model keeps the earlier behaviour, where the generator simply ends.
- String formatting (`__str__`, `inspect`) and the `id(self)` it prints are not modelled.
- The signature reflection of `with_variables` is replaced by an explicit list of parameter names.
- The `memoized` decorator of peano.py is treated as the identity. micro_kanren/helpers.py is not part of this model.
- Python equality quirks are out of scope: `1 == True`, and unhashable atoms raising TypeError in `key in self.values`.
- `assign_values` is only ever given variables as keys by `unify`, so binding maps have variables as keys. Consequently `final_value_of`'s lookup of an unbound variable's name in the bindings never succeeds.
- Variables of unrelated states may share an `id`, where Python objects would differ. Within one state's history ids are positions and stay distinct (`Grows`, `Numbered`).
- Python's recursion limit (about 1000 frames) is not modelled for well-founded recursion. `value_of`, `unify`, `from_list`, `to_list`, `from_integer` and `to_integer` raise RecursionError on inputs nested deeper than that. So does pulling from `both`: `pursue_in_each` nests one more generator, with its `interleave`, for each state the first goal yields, so a pull fails after a few hundred such states. The model gives them results at every depth; only the unbounded recursion on a cyclic binding is modelled as RecursionError.
- Peano.FromInteger: requires n >= 0. On a negative argument the source recurses until Python's recursion limit raises RecursionError. For large n it also raises RecursionError, which the model does not capture (see above); so do Peano.ToIntegerFromInteger and Peano.ToPeano.
- Peano.ToPeano: requires n >= 0, for the same reason.
- States.Results: the count is a `nat`, so the ValueError that `islice` raises for a negative count is not modelled. The reported variables must also resolve; on a cyclic binding the source raises RecursionError.
- States.Result: requires the first variable to resolve, as for `results`.
- Scheduler.Take: the count is a `nat`, so the ValueError for a negative count is not modelled. `take(n, None)` raises TypeError when `islice` is built, even for n = 0. The model reads None as an iterator that raises on its first pull, so it gives `Taken([])` for n = 0.
- States.UnifySound: stated for acyclic results only, because on a cyclic one `value_of` raises RecursionError. Symmetry of `unify` is not stated: the two argument orders bind a variable to a variable in opposite orientations, so their states agree only up to renaming variables, which this model has no notion of.
- Goals.EitherMergesBranches: covers branches that do not hang. If one branch hangs, `interleave` stops at that branch's turn.

## Findings

| source | as written | input that shows it | evidently intended | confidence | as-written member | corrected member |
|---|---|---|---|---|---|---|
| micro_kanren/sequence.py:36 | `to_list` chains the iteration of each left component with the rest, so elements are spliced instead of kept | `to_list(from_list([1]))` raises TypeError; `to_list(from_list(['he']))` gives `['h', 'e']` | each left component becomes one list element, so `to_list(from_list(L)) == L` for every list L | not executed; high | Sequences.ToListSplicesElements | Sequences.ToListIntended |
| micro_kanren/micro.py:108-112 | `pursue_in_each` hands `interleave` a single `chain` of the results for the first state and the recursive generator, so a None for one state becomes the whole output's last item | `both(either(1 = 2, y = 6), x = 5)` with x and y fresh yields only None; {x: 5, y: 6} is never reached | the results for each state and the generator over the remaining states are two iterators to `interleave`, so every state is explored | not executed; medium | Scenarios.BothLosesStatesAfterNone | Goals.PursueEachFair |
