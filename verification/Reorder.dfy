/**
 The reorder buffer that the command-line sender keeps for encrypted frames and the
 receiver's hashing thread keeps for decrypted chunks: a table of early arrivals and the
 index that must leave next.
 */
module Reorder {

  datatype Buffer<T> = Buffer(next: nat, pending: map<nat, T>)

  predicate Ready<T>(b: Buffer<T>) {
    b.next in b.pending
  }

  /** One turn of the draining loop. */
  function Release<T>(b: Buffer<T>): Buffer<T>
    requires Ready(b)
  {
    Buffer(b.next + 1, b.pending - {b.next})
  }

  function Insert<T>(b: Buffer<T>, index: nat, payload: T): Buffer<T> {
    Buffer(b.next, b.pending[index := payload])
  }

  /** Drains until the next index is missing. */
  function Drain<T>(b: Buffer<T>): (r: (Buffer<T>, seq<T>))
    decreases |b.pending|
  {
    if Ready(b) then
      assert |(b.pending - {b.next}).Keys| < |b.pending.Keys| by {
        assert (b.pending - {b.next}).Keys == b.pending.Keys - {b.next};
      }
      var (rest, out) := Drain(Release(b));
      (rest, [b.pending[b.next]] + out)
    else
      (b, [])
  }

  function Push<T>(b: Buffer<T>, index: nat, payload: T): (Buffer<T>, seq<T>) {
    Drain(Insert(b, index, payload))
  }

  function PushAll<T>(b: Buffer<T>, arrivals: seq<(nat, T)>): (Buffer<T>, seq<T>) {
    if arrivals == [] then (b, [])
    else
      var n := |arrivals| - 1;
      var (mid, out) := PushAll(b, arrivals[..n]);
      var (last, more) := Push(mid, arrivals[n].0, arrivals[n].1);
      (last, out + more)
  }

  /** `out` lists the entries `b.next`, `b.next + 1`, ... of the table. */
  ghost predicate Run<T>(b: Buffer<T>, out: seq<T>) {
    forall k :: 0 <= k < |out| ==> Entry(b, b.next + k, out[k])
  }

  ghost predicate Entry<T>(b: Buffer<T>, index: nat, payload: T) {
    index in b.pending && b.pending[index] == payload
  }

  /** Draining emits the run of consecutive entries that starts at the next index, all of it and
      nothing else, and what stays behind is untouched. */
  lemma {:induction false} DrainSpec<T>(b: Buffer<T>)
    ensures var (r, out) := Drain(b);
            && r.next == b.next + |out|
            && !Ready(r)
            && Run(b, out)
            && (forall i: nat :: i in r.pending ==> i in b.pending && r.pending[i] == b.pending[i])
            && (forall i: nat :: i in b.pending ==> (i in r.pending <==> i < b.next || r.next <= i))
    decreases |b.pending|
  {
    if Ready(b) {
      assert (b.pending - {b.next}).Keys == b.pending.Keys - {b.next};
      DrainSpec(Release(b));
      var (r, rest) := Drain(Release(b));
      forall k | 0 <= k < |Drain(b).1| ensures Entry(b, b.next + k, Drain(b).1[k]) {
        if k > 0 {
          assert Entry(Release(b), Release(b).next + (k - 1), rest[k - 1]);
        }
      }
    }
  }

  // ---- any arrival order ----

  ghost function Indices<T>(arrivals: seq<(nat, T)>): set<nat> {
    set k | 0 <= k < |arrivals| :: arrivals[k].0
  }

  ghost predicate DistinctIndices<T>(arrivals: seq<(nat, T)>) {
    forall j, k :: 0 <= j < k < |arrivals| ==> arrivals[j].0 != arrivals[k].0
  }

  /** Every arrival carries an index of the range `start .. start + |want|` and the payload meant for it. */
  ghost predicate Honest<T>(arrivals: seq<(nat, T)>, start: nat, want: seq<T>) {
    forall k :: 0 <= k < |arrivals| ==>
      start <= arrivals[k].0 < start + |want| && arrivals[k].1 == want[arrivals[k].0 - start]
  }

  /** The table holds only payloads of the range, each under its index. */
  ghost predicate Table<T>(b: Buffer<T>, start: nat, want: seq<T>) {
    forall i: nat :: i in b.pending ==> start <= i < start + |want| && b.pending[i] == want[i - start]
  }

  ghost predicate Seen<T>(b: Buffer<T>, seen: set<nat>, start: nat) {
    forall i: nat :: i in seen <==> start <= i < b.next || i in b.pending
  }

  ghost predicate Later<T>(b: Buffer<T>) {
    forall i: nat :: i in b.pending ==> b.next < i
  }

  /** What has been emitted is the longest sorted prefix that the indices seen so far allow. */
  ghost predicate Sorted<T>(b: Buffer<T>, out: seq<T>, seen: set<nat>, start: nat, want: seq<T>) {
    && b.next == start + |out| <= start + |want|
    && out == want[..|out|]
    && b.next !in seen
    && Seen(b, seen, start)
    && Table(b, start, want)
    && Later(b)
  }

  lemma DrainedPayloads<T>(full: Buffer<T>, r: Buffer<T>, out: seq<T>, more: seq<T>, start: nat, want: seq<T>)
    requires Table(full, start, want) && full.next == start + |out| && (r, more) == Drain(full)
    requires |out| <= |want| && out == want[..|out|]
    ensures |out + more| <= |want| && out + more == want[..|out + more|]
    ensures r.next == start + |out + more| && Table(r, start, want)
  {
    DrainSpec(full);
    forall k | 0 <= k < |more| ensures |out| + k < |want| && more[k] == want[|out| + k] {
      assert Entry(full, full.next + k, more[k]);
    }
    if more != [] {
      var last := |more| - 1;
      assert Entry(full, full.next + last, more[last]);
    }
  }

  lemma DrainedSeen<T>(full: Buffer<T>, r: Buffer<T>, more: seq<T>, seen: set<nat>, start: nat)
    requires Seen(full, seen, start) && start <= full.next && (r, more) == Drain(full)
    requires forall i: nat :: i in full.pending ==> full.next <= i
    ensures Seen(r, seen, start) && r.next !in seen && Later(r)
  {
    forall j: nat ensures j in seen <==> start <= j < r.next || j in r.pending { DrainedAt(full, j); }
    DrainedAt(full, r.next);
    forall j: nat ensures j in r.pending ==> r.next < j {
      DrainedAt(full, j);
    }
  }

  /** What draining does to one index. */
  lemma DrainedAt<T>(full: Buffer<T>, j: nat)
    ensures var (r, more) := Drain(full);
            && full.next <= r.next && r.next !in r.pending
            && (j in r.pending <==> j in full.pending && (j < full.next || r.next <= j))
            && (full.next <= j < r.next ==> j in full.pending)
  {
    DrainSpec(full);
    var (r, more) := Drain(full);
    if full.next <= j < r.next { assert Entry(full, full.next + (j - full.next), more[j - full.next]); }
  }

  lemma PushKeepsSorted<T>(b: Buffer<T>, out: seq<T>, seen: set<nat>, start: nat, want: seq<T>, i: nat)
    requires Sorted(b, out, seen, start, want)
    requires start <= i < start + |want| && i !in seen
    ensures var (r, more) := Push(b, i, want[i - start]);
            Sorted(r, out + more, seen + {i}, start, want)
  {
    var full := Insert(b, i, want[i - start]);
    var (r, more) := Drain(full);
    assert Seen(full, seen + {i}, start) && Table(full, start, want);
    DrainedPayloads(full, r, out, more, start, want);
    DrainedSeen(full, r, more, seen + {i}, start);
  }

  lemma LastIndex<T>(arrivals: seq<(nat, T)>)
    requires arrivals != [] && DistinctIndices(arrivals)
    ensures var n := |arrivals| - 1;
            Indices(arrivals) == Indices(arrivals[..n]) + {arrivals[n].0} && arrivals[n].0 !in Indices(arrivals[..n])
  {
  }

  /** After any arrivals in any order the emitted payloads are a sorted prefix, and the table holds
      only indices beyond the next one. */
  lemma {:induction false} ReorderPrefix<T>(arrivals: seq<(nat, T)>, start: nat, want: seq<T>)
    requires DistinctIndices(arrivals) && Honest(arrivals, start, want)
    ensures var (b, out) := PushAll(Buffer(start, map[]), arrivals);
            Sorted(b, out, Indices(arrivals), start, want)
  {
    if arrivals != [] {
      var n := |arrivals| - 1;
      var before := arrivals[..n];
      ReorderPrefix(before, start, want);
      var (b, out) := PushAll(Buffer(start, map[]), before);
      LastIndex(arrivals);
      PushKeepsSorted(b, out, Indices(before), start, want, arrivals[n].0);
    }
  }

  /** The buffer sorts: any arrival order of all the indices emits each payload once, in order, and
      leaves the table empty. */
  lemma ReorderSorts<T>(arrivals: seq<(nat, T)>, start: nat, want: seq<T>)
    requires DistinctIndices(arrivals) && Honest(arrivals, start, want)
    requires forall i: nat :: start <= i < start + |want| ==> i in Indices(arrivals)
    ensures PushAll(Buffer(start, map[]), arrivals) == (Buffer(start + |want|, map[]), want)
  {
    ReorderPrefix(arrivals, start, want);
    var (b, out) := PushAll(Buffer(start, map[]), arrivals);
    assert b.next == start + |want|;
    assert b.pending == map[];
    assert out == want;
  }

  /** An index that comes twice before its turn is emitted with the payload that came last. */
  lemma LastPayloadCounts<T>(b: Buffer<T>, index: nat, first: T, second: T)
    requires index != b.next && !Ready(b)
    ensures Push(Push(b, index, first).0, index, second) == Push(b, index, second)
    ensures Push(b, index, first).1 == [] && Push(b, index, first).0.pending == b.pending[index := first]
  {
    assert b.pending[index := first][index := second] == b.pending[index := second];
  }

  /** Draining `full` has emitted `out` so far and has `b` left to drain. */
  ghost predicate Drains<T>(full: Buffer<T>, b: Buffer<T>, out: seq<T>) {
    Drain(full) == (Drain(b).0, out + Drain(b).1)
  }

  lemma DrainOne<T>(full: Buffer<T>, b: Buffer<T>, out: seq<T>)
    requires Drains(full, b, out) && b.next in b.pending
    ensures Drains(full, Release(b), out + [b.pending[b.next]])
  {
    var x := b.pending[b.next];
    assert out + ([x] + Drain(Release(b)).1) == (out + [x]) + Drain(Release(b)).1;
  }

  /** The table and counter as the code keeps them, updated in place. */
  class ReorderBuffer<T> {
    var next: nat
    var pending: map<nat, T>

    constructor (start: nat)
      ensures View() == Buffer(start, map[])
    {
      next, pending := start, map[];
    }

    ghost function View(): Buffer<T>
      reads this
    {
      Buffer(next, pending)
    }

    method Accept(index: nat, payload: T) returns (out: seq<T>)
      modifies this
      ensures (View(), out) == Push(old(View()), index, payload)
    {
      pending := pending[index := payload];
      ghost var full := View();
      out := [];
      assert [] + Drain(full).1 == Drain(full).1;
      while next in pending
        invariant Drains(full, View(), out)
        decreases |pending|
      {
        ghost var before := View();
        DrainOne(full, before, out);
        out := out + [pending[next]];
        assert (pending - {next}).Keys == pending.Keys - {next};
        pending := pending - {next};
        next := next + 1;
        assert View() == Release(before);
      }
      assert out + [] == out;
    }
  }
}
