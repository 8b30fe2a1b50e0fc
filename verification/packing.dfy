/** The greedy token-budget batching of EntityGenerator._process_tables
    (convert/create_entity.py) and RepositoryGenerator._process_dml_nodes
    (convert/create_repository.py): items are taken in order; before an
    item is added, a non-empty batch is closed when the running total plus
    the item's cost reaches the limit; whatever is gathered at the end is
    closed too. After a close the running total restarts from the item's
    cost, except in _process_dml_nodes as written, where it carries the
    total from before the close (`carry`). */
module Packing {

  /** An item together with the tokens it costs. */
  datatype Sized<T> = Sized(item: T, cost: int)

  /** The sum of the costs of a batch. */
  function Cost<T>(b: seq<Sized<T>>): int
  {
    if b == [] then 0 else Cost(b[..|b| - 1]) + b[|b| - 1].cost
  }

  lemma {:induction false} CostAppend<T>(b: seq<Sized<T>>, x: Sized<T>)
    ensures Cost(b + [x]) == Cost(b) + x.cost
  {
    assert (b + [x])[..|b|] == b;
  }

  /** The batches, concatenated. */
  function Flatten<T>(bs: seq<seq<Sized<T>>>): seq<Sized<T>>
  {
    if bs == [] then [] else bs[0] + Flatten(bs[1..])
  }

  /** The loop from the state `batch` with running total `current`: the
      batches it closes from here on, in order. */
  function Pack<T>(xs: seq<Sized<T>>, limit: int, batch: seq<Sized<T>>, current: int, carry: bool): (r: seq<seq<Sized<T>>>)
    decreases |xs|
  {
    if xs == [] then (if batch == [] then [] else [batch])
    else
      var total := current + xs[0].cost;
      if batch != [] && total >= limit then [batch] + Pack(xs[1..], limit, [xs[0]], if carry then total else xs[0].cost, carry)
      else Pack(xs[1..], limit, batch + [xs[0]], total, carry)
  }

  /** The batches the whole loop closes, starting from nothing, with the
      running total reset at each close. */
  function Batches<T>(xs: seq<Sized<T>>, limit: int): seq<seq<Sized<T>>>
  {
    Pack(xs, limit, [], 0, false)
  }

  /** One item in the loop: the batches closed so far followed by the
      loop's remaining batches stay the whole answer, whether or not the
      item closes the gathered batch. */
  lemma {:induction false} PackLoopStep<T>(done: seq<seq<Sized<T>>>, all: seq<seq<Sized<T>>>, limit: int,
                                          batch: seq<Sized<T>>, current: int, carry: bool, x: Sized<T>, rest: seq<Sized<T>>)
    requires done + Pack([x] + rest, limit, batch, current, carry) == all
    ensures var total := current + x.cost;
            && (batch != [] && total >= limit ==>
                  (done + [batch]) + Pack(rest, limit, [] + [x], if carry then total else 0 + x.cost, carry) == all)
            && (!(batch != [] && total >= limit) ==> done + Pack(rest, limit, batch + [x], total, carry) == all)
  {
    assert ([x] + rest)[0] == x && ([x] + rest)[1..] == rest;
    assert [] + [x] == [x];
    var total := current + x.cost;
    if batch != [] && total >= limit {
      var tail := Pack(rest, limit, [x], if carry then total else x.cost, carry);
      assert Pack([x] + rest, limit, batch, current, carry) == [batch] + tail;
      assert (done + [batch]) + tail == done + ([batch] + tail);
    }
  }

  /** What the batches satisfy: each is non-empty, each of two or more items
      stays under the limit, and each was closed only because the first item
      of the next one would have taken it to the limit. */
  ghost predicate WellPacked<T>(bs: seq<seq<Sized<T>>>, limit: int) {
    && (forall i :: 0 <= i < |bs| ==> bs[i] != [])
    && (forall i :: 0 <= i < |bs| && |bs[i]| >= 2 ==> Cost(bs[i]) < limit)
    && (forall i :: 0 <= i < |bs| - 1 && bs[i + 1] != [] ==> Cost(bs[i]) + bs[i + 1][0].cost >= limit)
  }

  /** The loop's batches, concatenated, are the gathered batch followed by
      the remaining items; the first of them starts with the gathered
      batch. */
  lemma {:induction false} PackFlatten<T>(xs: seq<Sized<T>>, limit: int, batch: seq<Sized<T>>, current: int, carry: bool)
    ensures var r := Pack(xs, limit, batch, current, carry);
            && Flatten(r) == batch + xs
            && (batch != [] ==> r != [] && r[0] != [] && r[0][0] == batch[0])
            && (r == [] <==> batch == [] && xs == [])
    decreases |xs|
  {
    var r: seq<seq<Sized<T>>> := Pack(xs, limit, batch, current, carry);
    if xs == [] {
      if batch != [] {
        assert Flatten(r) == batch + Flatten([]);
      }
    } else {
      var x := xs[0];
      assert [x] + xs[1..] == xs;
      var next := if carry then current + x.cost else x.cost;
      if batch != [] && current + x.cost >= limit {
        PackFlatten(xs[1..], limit, [x], next, carry);
        var rest: seq<seq<Sized<T>>> := Pack(xs[1..], limit, [x], next, carry);
        assert r == [batch] + rest;
        assert r[1..] == rest;
        assert Flatten(r) == batch + Flatten(rest);
      } else {
        PackFlatten(xs[1..], limit, batch + [x], current + x.cost, carry);
        assert batch + [x] + xs[1..] == batch + xs;
        if batch != [] {
          assert (batch + [x])[0] == batch[0];
        }
      }
    }
  }

  /** A batch in front of well-packed batches, closed because the first
      item after it would have taken it to the limit. */
  lemma {:induction false} WellPackedCons<T>(batch: seq<Sized<T>>, rest: seq<seq<Sized<T>>>, limit: int)
    requires batch != [] && (|batch| >= 2 ==> Cost(batch) < limit)
    requires WellPacked(rest, limit)
    requires rest != [] ==> rest[0] != [] && Cost(batch) + rest[0][0].cost >= limit
    ensures WellPacked([batch] + rest, limit)
  {
    var r: seq<seq<Sized<T>>> := [batch] + rest;
    forall i | 1 <= i < |r| ensures r[i] == rest[i - 1] { }
  }

  lemma {:induction false} PackWell<T>(xs: seq<Sized<T>>, limit: int, batch: seq<Sized<T>>, current: int)
    requires current == Cost(batch) && (|batch| >= 2 ==> current < limit)
    ensures WellPacked(Pack(xs, limit, batch, current, false), limit)
    decreases |xs|
  {
    if xs != [] {
      var x := xs[0];
      if batch != [] && current + x.cost >= limit {
        CostAppend([], x);
        assert [] + [x] == [x];
        PackWell(xs[1..], limit, [x], x.cost);
        PackFlatten(xs[1..], limit, [x], x.cost, false);
        WellPackedCons(batch, Pack(xs[1..], limit, [x], x.cost, false), limit);
      } else {
        CostAppend(batch, x);
        PackWell(xs[1..], limit, batch + [x], current + x.cost);
      }
    } else if batch != [] {
      WellPackedCons(batch, [], limit);
      assert [batch] + [] == [batch];
    }
  }

  /** The loop's batches put every item into exactly one batch, in order,
      and are well packed; no items means no batch. */
  lemma {:induction false} BatchesSpec<T>(xs: seq<Sized<T>>, limit: int)
    ensures Flatten(Batches(xs, limit)) == xs
    ensures WellPacked(Batches(xs, limit), limit)
    ensures Batches(xs, limit) == [] <==> xs == []
  {
    PackFlatten(xs, limit, [], 0, false);
    PackWell(xs, limit, [], 0);
  }

  /** Every batch after the first holds a single item. */
  ghost predicate SingletonsAfterFirst<T>(r: seq<seq<Sized<T>>>) {
    forall i :: 1 <= i < |r| ==> |r[i]| == 1
  }

  /** With the running total carried over a close and no negative cost,
      the total never drops back under the limit once a batch has been
      closed: every batch after the first holds a single item. */
  lemma {:induction false} CarryPack<T>(xs: seq<Sized<T>>, limit: int, batch: seq<Sized<T>>, current: int)
    requires forall i :: 0 <= i < |xs| ==> xs[i].cost >= 0
    ensures var r := Pack(xs, limit, batch, current, true);
            && SingletonsAfterFirst(r)
            && (batch != [] && current >= limit ==> r != [] && r[0] == batch)
    decreases |xs|
  {
    if xs != [] {
      var x := xs[0];
      var total := current + x.cost;
      assert forall i :: 0 <= i < |xs| - 1 ==> xs[1..][i] == xs[i + 1];
      if batch != [] && total >= limit {
        CarryPack(xs[1..], limit, [x], total);
        var rest: seq<seq<Sized<T>>> := Pack(xs[1..], limit, [x], total, true);
        var r: seq<seq<Sized<T>>> := [batch] + rest;
        assert r == Pack(xs, limit, batch, current, true);
        assert rest != [] && rest[0] == [x];
        forall i | 1 <= i < |r| ensures |r[i]| == 1 {
          assert r[i] == rest[i - 1];
        }
        assert SingletonsAfterFirst(r);
      } else {
        assert x.cost >= 0;
        assert batch != [] ==> current < limit;
        CarryPack(xs[1..], limit, batch + [x], total);
        assert Pack(xs, limit, batch, current, true) == Pack(xs[1..], limit, batch + [x], total, true);
      }
    }
  }

  /** The whole loop with the total carried over: every batch after the
      first holds a single item. */
  lemma {:induction false} CarriedBatches<T>(xs: seq<Sized<T>>, limit: int)
    requires forall i :: 0 <= i < |xs| ==> xs[i].cost >= 0
    ensures var r := Pack(xs, limit, [], 0, true);
            forall i :: 1 <= i < |r| ==> |r[i]| == 1
  {
    CarryPack(xs, limit, [], 0);
  }
}
