/**
 * micro_kanren/sequence.py: lists encoded as right-nested pairs ending in the EMPTY
 * sentinel, and the conversions `Sequence.from_list` and `Sequence.to_list`.
 */
module Sequences {
  import opened Wrappers
  import opened Terms

  /** `Sequence.EMPTY`. */
  const Empty: Term := Const(EmptyMark)

  /** What `from_list` may be handed: a Python list, or any other value. */
  datatype Argument = List(elements: seq<Term>) | Other(value: Term)

  /** The falsy values among terms: `0` and the empty string. */
  predicate Falsy(t: Term) {
    t == Const(Num(0)) || t == Const(Text(""))
  }

  /** `Sequence.from_list`: a falsy argument (the empty list among them) gives EMPTY,
      another non-list raises TypeError, and a list [x1, ..., xn] gives
      Pair(x1, Pair(x2, ... Pair(xn, EMPTY))). */
  function FromList(x: Argument): (r: Result<Term>)
    ensures x.List? ==> r.Ok? && Spine(r.value) == x.elements && Terminator(r.value) == Empty
    ensures x.Other? && Falsy(x.value) ==> r == Ok(Empty)
    ensures x.Other? && !Falsy(x.value) ==> r == Err(NotAList)
    decreases if x.List? then |x.elements| else 0
  {
    match x
    case List(xs) =>
      if xs == [] then Ok(Empty)
      else Ok(Pair(xs[0], FromList(List(xs[1..])).value))
    case Other(t) =>
      if Falsy(t) then Ok(Empty) else Err(NotAList)
  }

  /** Iterating a value, as `chain.from_iterable` does: a string yields its characters,
      a pair (a named tuple) its two components; anything else is not iterable. */
  function Iterate(t: Term): Option<seq<Term>> {
    match t
    case Const(Text(s)) => Some(seq(|s|, i requires 0 <= i < |s| => Const(Text([s[i]]))))
    case Pair(l, r) => Some([l, r])
    case _ => None
  }

  predicate Iterable(t: Term) {
    Iterate(t).Some?
  }

  /** The concatenated iterations of the elements. */
  function Flatten(xs: seq<Term>): seq<Term>
    requires forall t | t in xs :: Iterable(t)
  {
    if xs == [] then [] else assert xs[0] in xs && Iterable(xs[0]); Iterate(xs[0]).value + Flatten(xs[1..])
  }

  /** `Sequence.to_list`: EMPTY gives []; a pair gives the iteration of its left
      component followed by `to_list` of its right component, which is converted first;
      anything else raises TypeError. So it succeeds exactly on a chain that ends in
      EMPTY and whose elements are all iterable, and a chain ending in anything else
      fails with the "not a Pair" error whatever its elements are. */
  function ToList(t: Term): (r: Result<seq<Term>>)
    ensures r.Ok? <==> Terminator(t) == Empty && forall e | e in Spine(t) :: Iterable(e)
    ensures r.Ok? ==> r.value == Flatten(Spine(t))
    ensures Terminator(t) != Empty ==> r == Err(NotAPair)
  {
    if t == Empty then Ok([])
    else if !t.Pair? then Err(NotAPair)
    else
      match ToList(t.right)
      case Err(e) => Err(e)
      case Ok(rest) =>
        match Iterate(t.left)
        case None =>
          assert t.left in Spine(t) && !Iterable(t.left);
          Err(NotIterable)
        case Some(first) => Ok(first + rest)
  }

  predicate IsCharacter(t: Term) {
    t.Const? && t.a.Text? && |t.a.s| == 1
  }

  /** Round trip: a list of one-character strings survives `from_list` then `to_list`. */
  lemma {:induction false} ToListFromList(xs: seq<Term>)
    requires forall i | 0 <= i < |xs| :: IsCharacter(xs[i])
    ensures ToList(FromList(List(xs)).value) == Ok(xs)
  {
    if xs != [] {
      ToListFromList(xs[1..]);
      var c := xs[0].a.s;
      assert Iterate(xs[0]) == Some([xs[0]]) by {
        var it := Iterate(xs[0]).value;
        assert |it| == 1 && it[0] == Const(Text([c[0]]));
        assert [c[0]] == c;
        assert it == [xs[0]];
      }
      assert xs == [xs[0]] + xs[1..];
    }
  }

  /** As written, `to_list` splices the iteration of each element into its result, so
      the round trip fails for every element that is not a one-character string: a
      number makes it raise, and a longer string comes back split into characters. */
  lemma ToListSplicesElements()
    ensures FromList(List([Const(Num(1))])) == Ok(Pair(Const(Num(1)), Empty))
    ensures ToList(Pair(Const(Num(1)), Empty)) == Err(NotIterable)
    ensures FromList(List([Const(Text("he"))])) == Ok(Pair(Const(Text("he")), Empty))
    ensures ToList(Pair(Const(Text("he")), Empty)) == Ok([Const(Text("h")), Const(Text("e"))])
  {
    var it := Iterate(Const(Text("he"))).value;
    assert |it| == 2 && it[0] == Const(Text("h")) && it[1] == Const(Text("e"));
    assert ToList(Empty) == Ok([]);
    assert it + [] == [Const(Text("h")), Const(Text("e"))];
  }

  /** The conversion the round trip calls for: each left component becomes one element
      of the list. */
  function ToListIntended(t: Term): (r: Result<seq<Term>>)
    ensures r.Ok? <==> Terminator(t) == Empty
    ensures r.Ok? ==> r.value == Spine(t)
    ensures r.Err? ==> r.error == NotAPair
  {
    if t == Empty then Ok([])
    else if !t.Pair? then Err(NotAPair)
    else
      match ToListIntended(t.right)
      case Err(e) => Err(e)
      case Ok(rest) => Ok([t.left] + rest)
  }

  /** Round trip of the corrected conversion, for every list. */
  lemma ToListIntendedFromList(xs: seq<Term>)
    ensures ToListIntended(FromList(List(xs)).value) == Ok(xs)
  {
  }

  /** Round trip from sequences: a chain that ends in EMPTY is rebuilt by `from_list`
      from its elements. */
  lemma {:induction false} FromListToListIntended(t: Term)
    requires Terminator(t) == Empty
    ensures FromList(List(ToListIntended(t).value)) == Ok(t)
  {
    if t.Pair? {
      FromListToListIntended(t.right);
      var xs := ToListIntended(t).value;
      assert xs[1..] == ToListIntended(t.right).value;
    }
  }
}
