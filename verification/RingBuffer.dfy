/**
 The alert ring buffer and its flush loop (digcore/server/ringbuf.go, flushAlertEvents
 in conn.go): a circular array that drops its oldest event when full.
 */
module RingBuffer {
  import opened Common

  const DEFAULT_CAPACITY: nat := 1000
  const FLUSH_BATCH: nat := 100

  // ---------------------------------------------------------------- the abstract queue

  /** Events are named by their position in the order of pushes: `pushed` of them so far,
      the newest `held` of them still inside. */
  datatype Queue = Queue(cap: nat, pushed: nat, held: nat, drained: seq<nat>, overwritten: nat)

  datatype Op = Push | Drain(max: nat)

  function Range(lo: nat, hi: nat): (s: seq<nat>)
    requires lo <= hi
    ensures |s| == hi - lo && forall i :: 0 <= i < |s| ==> s[i] == lo + i
  {
    seq(hi - lo, i => lo + i)
  }

  predicate Bounded(q: Queue) {
    q.held <= q.cap && q.held <= q.pushed
  }

  function Step(q: Queue, op: Op): (r: Queue)
    requires Bounded(q)
    ensures Bounded(r)
  {
    match op
    case Push =>
      if q.held < q.cap then q.(pushed := q.pushed + 1, held := q.held + 1)
      else q.(pushed := q.pushed + 1, overwritten := q.overwritten + 1)
    case Drain(max) =>
      var n := Min(q.held, max);
      var oldest := q.pushed - q.held;
      q.(held := q.held - n, drained := q.drained + Range(oldest, oldest + n))
  }

  function RunOps(cap: nat, ops: seq<Op>): (q: Queue)
    ensures Bounded(q)
  {
    if ops == [] then Queue(cap, 0, 0, [], 0)
    else Step(RunOps(cap, ops[..|ops| - 1]), ops[|ops| - 1])
  }

  /** Drained events are in push order without duplicates, all older than what is held,
      and every push is accounted for. */
  predicate Orderly(q: Queue) {
    && Bounded(q)
    && (forall i, j :: 0 <= i < j < |q.drained| ==> q.drained[i] < q.drained[j])
    && (forall i :: 0 <= i < |q.drained| ==> q.drained[i] < q.pushed - q.held)
    && q.pushed == |q.drained| + q.overwritten + q.held
  }

  lemma StepOrderly(q: Queue, op: Op)
    requires Orderly(q) && q.cap > 0
    ensures Orderly(Step(q, op))
  {
    if op.Drain? {
      var n := Min(q.held, op.max);
      var oldest := q.pushed - q.held;
      var d := Step(q, op).drained;
      assert forall i :: |q.drained| <= i < |d| ==> d[i] == oldest + (i - |q.drained|);
      assert forall i :: 0 <= i < |q.drained| ==> d[i] == q.drained[i];
    }
  }

  /** The buffer is a bounded drop-oldest queue over every run of pushes and drains. */
  lemma {:induction false} RunOrderly(cap: nat, ops: seq<Op>)
    requires cap > 0
    ensures Orderly(RunOps(cap, ops)) && RunOps(cap, ops).cap == cap
  {
    if ops != [] {
      RunOrderly(cap, ops[..|ops| - 1]);
      StepOrderly(RunOps(cap, ops[..|ops| - 1]), ops[|ops| - 1]);
    }
  }

  // ---------------------------------------------------------------- the circular array

  /** x mod cap for the small x that occur. */
  function Wrap(x: nat, cap: nat): (r: nat)
    requires 0 < cap && x < 2 * cap
    ensures r < cap
  {
    if x < cap then x else x - cap
  }

  lemma WrapIsMod(x: nat, cap: nat)
    requires 0 < cap && x < 2 * cap
    ensures x % cap == Wrap(x, cap)
  {
    if x >= cap {
      assert x == cap * 1 + (x - cap);
    }
  }

  /** The slot of the i-th oldest of `count` events when the next write goes to `head`. */
  function Slot(cap: nat, head: nat, count: nat, i: nat): (k: nat)
    requires head < cap && count <= cap && i < cap
    ensures k < cap
  {
    Wrap(Wrap(head + (cap - count), cap) + i, cap)
  }

  /** The circular store holds exactly `es`, oldest first from the tail. */
  ghost predicate Stores<E>(store: seq<Option<E>>, head: nat, es: seq<E>) {
    && head < |store| && |es| <= |store|
    && forall i :: 0 <= i < |es| ==> store[Slot(|store|, head, |es|, i)] == Some(es[i])
  }

  /** Drop-oldest append. */
  function Appended<E>(es: seq<E>, e: E, cap: nat): (r: seq<E>)
    requires |es| <= cap && cap > 0
  {
    if |es| < cap then es + [e] else es[1..] + [e]
  }

  lemma PushStores<E>(store: seq<Option<E>>, head: nat, es: seq<E>, e: E)
    requires Stores(store, head, es)
    ensures Stores(store[head := Some(e)], Wrap(head + 1, |store|), Appended(es, e, |store|))
  {
    var cap := |store|;
    var store', head', es' := store[head := Some(e)], Wrap(head + 1, cap), Appended(es, e, cap);
    forall i | 0 <= i < |es'|
      ensures store'[Slot(cap, head', |es'|, i)] == Some(es'[i])
    {
      if i == |es'| - 1 {
        assert Slot(cap, head', |es'|, i) == head;
      } else {
        var j := if |es| < cap then i else i + 1;
        assert Slot(cap, head', |es'|, i) == Slot(cap, head, |es|, j) != head;
        assert es'[i] == es[j];
      }
    }
  }

  lemma DrainStores<E>(store: seq<Option<E>>, head: nat, es: seq<E>, n: nat)
    requires n <= |es| <= |store| && head < |store|
    requires forall i :: n <= i < |es| ==> store[Slot(|store|, head, |es|, i)] == Some(es[i])
    ensures Stores(store, head, es[n..])
  {
    forall i | 0 <= i < |es| - n
      ensures store[Slot(|store|, head, |es| - n, i)] == Some(es[n..][i])
    {
      assert Slot(|store|, head, |es| - n, i) == Slot(|store|, head, |es|, n + i);
    }
  }

  lemma SlotsDiffer(cap: nat, head: nat, count: nat, i: nat, j: nat)
    requires head < cap && i < j < count <= cap
    ensures Slot(cap, head, count, i) != Slot(cap, head, count, j)
  {
  }

  lemma RunOpsSnoc(cap: nat, ops: seq<Op>, op: Op)
    ensures RunOps(cap, ops + [op]) == Step(RunOps(cap, ops), op)
  {
    assert (ops + [op])[..|ops|] == ops;
  }

  /** `held` is the newest part of `pushes`, as long as the abstract queue says. */
  ghost predicate Newest<E>(q: Queue, cap: nat, pushes: seq<E>, held: seq<E>) {
    && Bounded(q) && q.cap == cap && q.pushed == |pushes| && q.held == |held|
    && held == pushes[|pushes| - |held|..]
  }

  /** `drained` is what the abstract queue drained, by push number. */
  ghost predicate DrainedAs<E>(q: Queue, pushes: seq<E>, drained: seq<E>) {
    && |drained| == |q.drained|
    && forall i :: 0 <= i < |drained| ==> q.drained[i] < |pushes| && drained[i] == pushes[q.drained[i]]
  }

  lemma DrainedAfterPush<E>(q: Queue, pushes: seq<E>, drained: seq<E>, e: E)
    requires Bounded(q) && DrainedAs(q, pushes, drained)
    ensures DrainedAs(Step(q, Push), pushes + [e], drained)
  {
  }

  lemma DrainedAfterDrain<E>(q: Queue, cap: nat, pushes: seq<E>, held: seq<E>, drained: seq<E>, max: nat)
    requires Newest(q, cap, pushes, held) && DrainedAs(q, pushes, drained)
    ensures DrainedAs(Step(q, Drain(max)), pushes, drained + held[..Min(|held|, max)])
  {
    var n, oldest := Min(|held|, max), |pushes| - |held|;
    var more, all := q.drained + Range(oldest, oldest + n), drained + held[..n];
    forall i | 0 <= i < |all|
      ensures more[i] < |pushes| && all[i] == pushes[more[i]]
    {
      if i < |drained| {
        assert more[i] == q.drained[i] && all[i] == drained[i];
      } else {
        assert more[i] == oldest + (i - |drained|) && all[i] == held[i - |drained|];
      }
    }
  }

  lemma NewestAfterPush<E>(q: Queue, cap: nat, pushes: seq<E>, held: seq<E>, e: E)
    requires Newest(q, cap, pushes, held) && 0 < cap && |held| <= cap
    ensures Newest(Step(q, Push), cap, pushes + [e], Appended(held, e, cap))
  {
  }

  lemma NewestAfterDrain<E>(q: Queue, cap: nat, pushes: seq<E>, held: seq<E>, max: nat)
    requires Newest(q, cap, pushes, held)
    ensures Newest(Step(q, Drain(max)), cap, pushes, held[Min(|held|, max)..])
  {
  }

  ghost predicate Trace<E>(q: Queue, cap: nat, pushes: seq<E>, held: seq<E>, drained: seq<E>) {
    Newest(q, cap, pushes, held) && DrainedAs(q, pushes, drained)
  }

  lemma TraceAfterPush<E>(q: Queue, cap: nat, pushes: seq<E>, held: seq<E>, drained: seq<E>, e: E)
    requires Trace(q, cap, pushes, held, drained) && 0 < cap && |held| <= cap
    ensures Trace(Step(q, Push), cap, pushes + [e], Appended(held, e, cap), drained)
  {
    NewestAfterPush(q, cap, pushes, held, e);
    DrainedAfterPush(q, pushes, drained, e);
  }

  lemma TraceAfterDrain<E>(q: Queue, cap: nat, pushes: seq<E>, held: seq<E>, drained: seq<E>, max: nat)
    requires Trace(q, cap, pushes, held, drained)
    ensures var n := Min(|held|, max);
      Trace(Step(q, Drain(max)), cap, pushes, held[n..], drained + held[..n])
  {
    NewestAfterDrain(q, cap, pushes, held, max);
    DrainedAfterDrain(q, cap, pushes, held, drained, max);
  }

  /** `all` is `a`, then `b`, then `c`. */
  ghost predicate Pieces<E>(all: seq<E>, a: seq<E>, b: seq<E>, c: seq<E>) {
    && |all| == |a| + |b| + |c|
    && a == all[..|a|] && b == all[|a|..|a| + |b|] && c == all[|a| + |b|..]
  }

  /** Nonempty batches of at most 100 events, each of which could be handed on. */
  ghost predicate Batches<E>(sent: seq<seq<E>>, sends: nat -> bool) {
    forall k :: 0 <= k < |sent| ==> 0 < |sent[k]| <= FLUSH_BATCH && sends(k)
  }

  lemma BatchesSnoc<E>(sent: seq<seq<E>>, events: seq<E>, sends: nat -> bool)
    requires Batches(sent, sends) && 0 < |events| <= FLUSH_BATCH && sends(|sent|)
    ensures Batches(sent + [events], sends)
  {
  }

  lemma NextBatch<E>(start: seq<E>, sent: seq<seq<E>>, before: seq<E>, events: seq<E>, held: seq<E>)
    requires Pieces(start, Flatten(sent), [], before)
    requires |events| <= |before| && events == before[..|events|] && held == before[|events|..]
    ensures Pieces(start, Flatten(sent), events, held)
    ensures Pieces(start, Flatten(sent + [events]), [], held)
  {
    FlattenSnoc(sent, events);
  }

  class RingBuffer<E> {
    const cap: nat
    const buf: array<Option<E>>
    var head: nat
    var count: nat
    ghost var held: seq<E>
    ghost var pushes: seq<E>
    ghost var drained: seq<E>
    ghost var ops: seq<Op>

    constructor (capacity: int)
      ensures Valid() && held == [] && pushes == [] && drained == [] && ops == [] && fresh(buf)
      ensures cap == (if capacity <= 0 then DEFAULT_CAPACITY else capacity)
    {
      var n: nat := if capacity <= 0 then DEFAULT_CAPACITY else capacity;
      cap := n;
      buf := new Option<E>[n](_ => None);
      head, count := 0, 0;
      held, pushes, drained, ops := [], [], [], [];
    }

    /** The array stores exactly `held`. */
    ghost predicate Sound()
      reads this, buf
    {
      0 < cap == buf.Length && count == |held| && Stores(buf[..], head, held)
    }

    /** `held` is the newest pushes, as many as the abstract queue holds, and `drained` is
        what that queue drained. */
    ghost predicate Traced()
      reads this
    {
      Trace(RunOps(cap, ops), cap, pushes, held, drained)
    }

    ghost predicate Valid()
      reads this, buf
    {
      Sound() && Traced()
    }

    method PushEvent(e: E)
      requires Valid()
      modifies this, buf
      ensures Valid() && pushes == old(pushes) + [e] && ops == old(ops) + [Push]
      ensures held == Appended(old(held), e, cap) && drained == old(drained)
    {
      WriteNewest(e);
      RunOpsSnoc(cap, ops, Push);
      TraceAfterPush(RunOps(cap, ops), cap, pushes, old(held), drained, e);
      pushes := pushes + [e];
      ops := ops + [Push];
    }

    method WriteNewest(e: E)
      requires Sound()
      modifies this`head, this`count, this`held, buf
      ensures Sound() && held == Appended(old(held), e, cap)
    {
      PushStores(buf[..], head, held, e);
      WrapIsMod(head + 1, cap);
      ghost var store := buf[..][head := Some(e)];
      buf[head] := Some(e);
      assert buf[..] == store;
      head := (head + 1) % cap;
      if count < cap {
        count := count + 1;
      }
      held := Appended(held, e, cap);
    }

    /** Removes up to `max` of the oldest events and clears their slots. */
    method DrainEvents(max: nat) returns (result: seq<E>)
      requires Valid()
      modifies this, buf
      ensures Valid() && pushes == old(pushes) && ops == old(ops) + [Drain(max)]
      ensures var n := Min(|old(held)|, max); result == old(held)[..n] && held == old(held)[n..]
      ensures drained == old(drained) + result
    {
      RunOpsSnoc(cap, ops, Drain(max));
      TraceAfterDrain(RunOps(cap, ops), cap, pushes, held, drained, max);
      result := TakeUpTo(max);
      ops := ops + [Drain(max)];
      drained := drained + result;
    }

    method TakeUpTo(max: nat) returns (result: seq<E>)
      requires Sound()
      modifies this`count, this`held, buf
      ensures Sound()
      ensures var n := Min(|old(held)|, max); result == old(held)[..n] && held == old(held)[n..]
    {
      if count == 0 {
        return [];
      }
      var n := count;
      if n > max {
        n := max;
      }
      result := RemoveOldest(n);
    }

    method RemoveOldest(n: nat) returns (result: seq<E>)
      requires Sound() && n <= count
      modifies this`count, this`held, buf
      ensures Sound() && result == old(held)[..n] && held == old(held)[n..]
    {
      result := TakeOldest(n, held);
      DrainStores(buf[..], head, held, n);
      count := count - n;
      held := held[n..];
    }

    /** The copy loop of Drain: the slots of the n oldest events are emptied. */
    method TakeOldest(n: nat, ghost es: seq<E>) returns (result: seq<E>)
      requires 0 < cap == buf.Length && Stores(buf[..], head, es) && n <= |es| == count
      modifies buf
      ensures result == es[..n]
      ensures forall i :: n <= i < count ==> buf[..][Slot(cap, head, count, i)] == Some(es[i])
    {
      var tail := (head + cap - count) % cap;
      WrapIsMod(head + (cap - count), cap);
      result := [];
      for i := 0 to n
        invariant result == es[..i]
        invariant forall k :: i <= k < count ==> buf[..][Slot(cap, head, count, k)] == Some(es[k])
      {
        WrapIsMod(tail + i, cap);
        var idx := (tail + i) % cap;
        assert idx == Slot(cap, head, count, i);
        assert buf[idx] == buf[..][idx];
        ghost var before := buf[..];
        result := result + [buf[idx].value];
        buf[idx] := None;
        forall k | i + 1 <= k < count
          ensures buf[..][Slot(cap, head, count, k)] == Some(es[k])
        {
          SlotsDiffer(cap, head, count, i, k);
          assert before[Slot(cap, head, count, k)] == Some(es[k]);
        }
      }
    }

    method Len() returns (n: nat)
      requires Valid()
      ensures n == |held|
    {
      n := count;
    }

    /** Drains the whole buffer in ordered batches of at most 100. `sends` says whether
        the k-th batch can be handed on; the first one that cannot ends the flush and is
        lost. */
    method Flush(sends: nat -> bool) returns (sent: seq<seq<E>>, lost: seq<E>)
      requires Valid()
      modifies this, buf
      ensures Valid() && pushes == old(pushes)
      ensures Pieces(old(held), Flatten(sent), lost, held)
      ensures Batches(sent, sends)
      ensures |lost| <= FLUSH_BATCH && (lost != [] ==> !sends(|sent|))
      ensures lost == [] ==> held == []
    {
      sent, lost := [], [];
      while true
        invariant Valid() && pushes == old(pushes)
        invariant Pieces(old(held), Flatten(sent), [], held)
        invariant Batches(sent, sends)
        decreases count
      {
        ghost var before := held;
        var events := DrainEvents(FLUSH_BATCH);
        if |events| == 0 {
          return;
        }
        NextBatch(old(held), sent, before, events, held);
        if !sends(|sent|) {
          lost := events;
          return;
        }
        BatchesSnoc(sent, events, sends);
        sent := sent + [events];
      }
    }
  }
}
