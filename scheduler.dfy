/**
 * The round-robin scheduler of micro_kanren/utils.py: `interleave` over a queue of
 * iterators, and `take`.
 *
 * An iterator is modelled by what pulling from it produces: a finite list of items
 * followed by one of three endings. `Exhausted` is StopIteration, `Raises` is a
 * TypeError (which is also what pulling from Python's `None` does), and `Hangs` is a
 * pull that does not come back normally: it raises an exception that `interleave`
 * does not catch (in this engine, the RecursionError of `value_of` on a cyclic
 * binding) or never returns. Either way the consumer gets nothing more. Items are
 * `Option`s because the engine's streams carry `None` placeholders as ordinary
 * elements.
 */
module Scheduler {
  import opened Wrappers

  datatype End = Exhausted | Raises | Hangs

  datatype Stream<X> = Stream(items: seq<Option<X>>, end: End)

  /** What one iterator adds to the output of `interleave`: its items and, when its
      next pull raises TypeError, one `None` in place of the error. */
  function Contribution<X>(s: Stream<X>): seq<Option<X>> {
    s.items + (if s.end == Raises then [None] else [])
  }

  /** Number of pulls left in a queue (one per item and one for the ending). */
  function Weight<X>(queue: seq<Stream<X>>): nat {
    if queue == [] then 0 else |queue[0].items| + 1 + Weight(queue[1..])
  }

  lemma {:induction false} WeightAppend<X>(a: seq<Stream<X>>, b: seq<Stream<X>>)
    ensures Weight(a + b) == Weight(a) + Weight(b)
  {
    if a != [] {
      assert (a + b)[1..] == a[1..] + b;
      WeightAppend(a[1..], b);
    } else {
      assert a + b == b;
    }
  }

  /** The output of `interleave` over the queue, one loop iteration per call: pop the
      front iterator; if it yields, emit the item and re-append it; if it is exhausted,
      drop it; if it raises TypeError, emit `None` and drop it; if it hangs, so does
      the whole output. No TypeError escapes: the output never ends by raising. */
  function RoundRobin<X>(queue: seq<Stream<X>>): (r: Stream<X>)
    ensures r.end != Raises
    ensures NoHangs(queue) ==> r.end == Exhausted
    decreases Weight(queue)
  {
    if queue == [] then Stream([], Exhausted)
    else
      var it := queue[0];
      if it.items != [] then
        WeightAppend(queue[1..], [Stream(it.items[1..], it.end)]);
        var rest := RoundRobin(queue[1..] + [Stream(it.items[1..], it.end)]);
        Stream([it.items[0]] + rest.items, rest.end)
      else if it.end == Exhausted then
        RoundRobin(queue[1..])
      else if it.end == Raises then
        var rest := RoundRobin(queue[1..]);
        Stream([None] + rest.items, rest.end)
      else
        Stream([], Hangs)
  }

  /** `interleave(*iterators)`: the while loop over the mutable list `iters`. */
  method Interleave<X>(iterators: seq<Stream<X>>) returns (out: Stream<X>)
    ensures out == RoundRobin(iterators)
  {
    var iters := iterators;
    var yielded: seq<Option<X>> := [];
    while iters != []
      invariant yielded + RoundRobin(iters).items == RoundRobin(iterators).items
      invariant RoundRobin(iters).end == RoundRobin(iterators).end
      decreases Weight(iters)
    {
      var it := iters[0];
      ghost var now := RoundRobin(iters);
      iters := iters[1..];
      if it.items != [] {
        var rest := Stream(it.items[1..], it.end);
        WeightAppend(iters, [rest]);
        assert now.items == [it.items[0]] + RoundRobin(iters + [rest]).items;
        yielded := yielded + [it.items[0]];
        iters := iters + [rest];
      } else if it.end == Raises {
        assert now.items == [None] + RoundRobin(iters).items;
        yielded := yielded + [None];
      } else if it.end == Hangs {
        assert now == Stream([], Hangs);
        return Stream(yielded, Hangs);
      }
    }
    return Stream(yielded, Exhausted);
  }

  predicate NoHangs<X>(queue: seq<Stream<X>>) {
    forall i | 0 <= i < |queue| :: queue[i].end != Hangs
  }

  /** Total number of outputs the queue owes: items plus one `None` per raising iterator. */
  function Volume<X>(queue: seq<Stream<X>>): nat {
    if queue == [] then 0 else |Contribution(queue[0])| + Volume(queue[1..])
  }

  lemma {:induction false} VolumeAppend<X>(a: seq<Stream<X>>, b: seq<Stream<X>>)
    ensures Volume(a + b) == Volume(a) + Volume(b)
  {
    if a != [] {
      assert (a + b)[1..] == a[1..] + b;
      VolumeAppend(a[1..], b);
    } else {
      assert a + b == b;
    }
  }

  /** With finite, non-hanging inputs the loop ends, and every item of every input,
      plus one `None` per raising input, is emitted: the output is exactly as long as
      all contributions together. */
  lemma {:induction false} RoundRobinLength<X>(queue: seq<Stream<X>>)
    requires NoHangs(queue)
    ensures RoundRobin(queue).end == Exhausted
    ensures |RoundRobin(queue).items| == Volume(queue)
    decreases Weight(queue)
  {
    if queue != [] {
      var it := queue[0];
      if it.items != [] {
        var next := queue[1..] + [Stream(it.items[1..], it.end)];
        WeightAppend(queue[1..], [Stream(it.items[1..], it.end)]);
        VolumeAppend(queue[1..], [Stream(it.items[1..], it.end)]);
        RoundRobinLength(next);
      } else {
        RoundRobinLength(queue[1..]);
      }
    }
  }

  predicate Distinct(tags: seq<nat>) {
    forall a, b | 0 <= a < b < |tags| :: tags[a] != tags[b]
  }

  /** For each output of RoundRobin(queue), the tag of the queue entry it came from. */
  ghost function Origins<X>(queue: seq<Stream<X>>, tags: seq<nat>): (r: seq<nat>)
    requires |tags| == |queue|
    ensures |r| == |RoundRobin(queue).items|
    ensures forall k | 0 <= k < |r| :: r[k] in tags
    decreases Weight(queue)
  {
    if queue == [] then []
    else
      var it := queue[0];
      if it.items != [] then
        WeightAppend(queue[1..], [Stream(it.items[1..], it.end)]);
        [tags[0]] + Origins(queue[1..] + [Stream(it.items[1..], it.end)], tags[1..] + [tags[0]])
      else if it.end == Exhausted then
        Origins(queue[1..], tags[1..])
      else if it.end == Raises then
        [tags[0]] + Origins(queue[1..], tags[1..])
      else
        []
  }

  /** The outputs whose origin is `tag`, in output order. */
  function Pick<X>(items: seq<Option<X>>, origins: seq<nat>, tag: nat): seq<Option<X>>
    requires |items| == |origins|
  {
    if items == [] then []
    else (if origins[0] == tag then [items[0]] else []) + Pick(items[1..], origins[1..], tag)
  }

  lemma {:induction false} PickAbsent<X>(items: seq<Option<X>>, origins: seq<nat>, tag: nat)
    requires |items| == |origins|
    requires forall k | 0 <= k < |origins| :: origins[k] != tag
    ensures Pick(items, origins, tag) == []
  {
    if items != [] {
      PickAbsent(items[1..], origins[1..], tag);
    }
  }

  /** Fairness and completeness of `interleave`: restricted to the outputs drawn from
      input i, the output is exactly that input's items in their original order,
      followed by one `None` when the input raises TypeError. So every element of every
      finite input appears exactly once, in its relative order. */
  lemma {:induction false} RoundRobinKeepsEachInput<X>(queue: seq<Stream<X>>, tags: seq<nat>, i: nat)
    requires |tags| == |queue| && Distinct(tags) && NoHangs(queue)
    requires i < |queue|
    ensures Pick(RoundRobin(queue).items, Origins(queue, tags), tags[i]) == Contribution(queue[i])
    decreases Weight(queue)
  {
    var it := queue[0];
    if it.items != [] {
      var next := queue[1..] + [Stream(it.items[1..], it.end)];
      var nextTags := tags[1..] + [tags[0]];
      WeightAppend(queue[1..], [Stream(it.items[1..], it.end)]);
      assert Distinct(nextTags) by {
        forall a, b | 0 <= a < b < |nextTags| ensures nextTags[a] != nextTags[b] {
          if b == |nextTags| - 1 {
            assert nextTags[a] == tags[a + 1] && nextTags[b] == tags[0];
          } else {
            assert nextTags[a] == tags[a + 1] && nextTags[b] == tags[b + 1];
          }
        }
      }
      assert NoHangs(next) by {
        forall j | 0 <= j < |next| ensures next[j].end != Hangs {
          if j < |next| - 1 { assert next[j] == queue[j + 1]; }
        }
      }
      if i == 0 {
        RoundRobinKeepsEachInput(next, nextTags, |next| - 1);
        assert it.items == [it.items[0]] + it.items[1..];
      } else {
        assert tags[0] != tags[i];
        assert next[i - 1] == queue[i] && nextTags[i - 1] == tags[i];
        RoundRobinKeepsEachInput(next, nextTags, i - 1);
      }
    } else {
      var rest := queue[1..];
      if i == 0 {
        var o := Origins(rest, tags[1..]);
        forall k | 0 <= k < |o| ensures o[k] != tags[0] {
          assert o[k] in tags[1..];
        }
        PickAbsent(RoundRobin(rest).items, o, tags[0]);
      } else {
        assert tags[0] != tags[i];
        assert rest[i - 1] == queue[i];
        assert NoHangs(rest) by {
          forall j | 0 <= j < |rest| ensures rest[j].end != Hangs {
            assert rest[j] == queue[j + 1];
          }
        }
        RoundRobinKeepsEachInput(rest, tags[1..], i - 1);
      }
    }
  }

  /** Every value `interleave` yields was an item of one of its inputs. */
  lemma {:induction false} RoundRobinDrawsFromInputs<X>(queue: seq<Stream<X>>, x: X)
    requires Some(x) in RoundRobin(queue).items
    ensures exists i :: 0 <= i < |queue| && Some(x) in queue[i].items
    decreases Weight(queue)
  {
    var it := queue[0];
    if it.items != [] {
      var next := queue[1..] + [Stream(it.items[1..], it.end)];
      WeightAppend(queue[1..], [Stream(it.items[1..], it.end)]);
      if it.items[0] != Some(x) {
        RoundRobinDrawsFromInputs(next, x);
        var j :| 0 <= j < |next| && Some(x) in next[j].items;
        if j < |next| - 1 {
          assert next[j] == queue[j + 1];
        } else {
          assert it.items == [it.items[0]] + it.items[1..];
          assert Some(x) in it.items;
        }
      }
    } else {
      RoundRobinDrawsFromInputs(queue[1..], x);
      var j :| 0 <= j < |queue| - 1 && Some(x) in queue[1..][j].items;
      assert queue[1..][j] == queue[j + 1];
    }
  }

  /** `interleave(a, b)` of two finite, non-hanging iterators: it ends, and restricted
      to each input's outputs it is that input's contribution, so nothing is lost,
      duplicated or reordered. */
  lemma {:induction false} RoundRobinPair<X>(a: Stream<X>, b: Stream<X>)
    requires a.end != Hangs && b.end != Hangs
    ensures RoundRobin([a, b]).end == Exhausted
    ensures |RoundRobin([a, b]).items| == |Contribution(a)| + |Contribution(b)|
    ensures Pick(RoundRobin([a, b]).items, Origins([a, b], [0, 1]), 0) == Contribution(a)
    ensures Pick(RoundRobin([a, b]).items, Origins([a, b], [0, 1]), 1) == Contribution(b)
  {
    assert NoHangs([a, b]);
    RoundRobinLength([a, b]);
    assert [a, b][1..] == [b];
    assert [b][1..] == [];
    assert Volume([b]) == |Contribution(b)| + Volume([b][1..]);
    assert Volume([a, b]) == |Contribution(a)| + Volume([b]);
    RoundRobinKeepsEachInput([a, b], [0, 1], 0);
    RoundRobinKeepsEachInput([a, b], [0, 1], 1);
  }

  /** With a single input, `interleave` reproduces it, a TypeError becoming one `None`. */
  lemma {:induction false} RoundRobinSingle<X>(s: Stream<X>)
    ensures RoundRobin([s]) == Stream(Contribution(s), if s.end == Hangs then Hangs else Exhausted)
    decreases |s.items|
  {
    if s.items != [] {
      var rest := Stream(s.items[1..], s.end);
      assert [s][1..] + [rest] == [rest];
      RoundRobinSingle(rest);
      assert s.items == [s.items[0]] + rest.items;
    } else {
      assert [s][1..] == [];
    }
  }

  /** [a0, b0, a1, b1, ...] */
  function Alternate<X>(a: seq<Option<X>>, b: seq<Option<X>>): seq<Option<X>>
    requires |a| == |b|
  {
    if a == [] then [] else [a[0], b[0]] + Alternate(a[1..], b[1..])
  }

  /** Round robin: two finite inputs of equal length are drawn from alternately. */
  lemma {:induction false} RoundRobinAlternates<X>(a: seq<Option<X>>, b: seq<Option<X>>)
    requires |a| == |b|
    ensures RoundRobin([Stream(a, Exhausted), Stream(b, Exhausted)]) == Stream(Alternate(a, b), Exhausted)
    decreases |a|
  {
    var qa, qb := Stream(a, Exhausted), Stream(b, Exhausted);
    if a == [] {
      assert [qa, qb][1..] == [qb];
      assert [qb][1..] == [];
      assert RoundRobin([qb]) == RoundRobin([]);
      assert RoundRobin([qa, qb]) == RoundRobin([qb]);
    } else {
      var ra, rb := Stream(a[1..], Exhausted), Stream(b[1..], Exhausted);
      assert [qa, qb][1..] + [ra] == [qb, ra];
      assert [qb, ra][1..] + [rb] == [ra, rb];
      RoundRobinAlternates(a[1..], b[1..]);
      WeightAppend([qb], [ra]);
      assert RoundRobin([qb, ra]) == Stream([b[0]] + RoundRobin([ra, rb]).items, Exhausted);
    }
  }

  /** Outcome of `take(n, iterable)`: the list, or the exception that escaped while pulling. */
  datatype Taken<X> = Taken(items: seq<Option<X>>) | TakeRaises | TakeHangs

  function Min(a: nat, b: nat): nat {
    if a <= b then a else b
  }

  /** `take(n, iterable)`: `islice` pulls at most n items and stops as soon as it has n.
      The argument is an iterator; `islice` over Python's `None` raises TypeError as
      soon as it is built, even for n = 0, which the `Stream([], Raises)` standing for
      `None` elsewhere does not capture. */
  function Take<X>(n: nat, s: Stream<X>): (r: Taken<X>)
    ensures r.Taken? <==> n <= |s.items| || s.end == Exhausted
    ensures r.Taken? ==> r.items == s.items[..Min(n, |s.items|)]
    ensures r.TakeRaises? <==> n > |s.items| && s.end == Raises
  {
    if n <= |s.items| then Taken(s.items[..n])
    else match s.end
      case Exhausted => Taken(s.items)
      case Raises => TakeRaises
      case Hangs => TakeHangs
  }
}
