/** One outbox worker on its own: batches of twenty, oldest first, until nothing is due. */
module OutboxWorker {
  import opened Wrappers
  import opened Backoff
  import opened OutboxProtocol

  /** The positions between `lo` and `hi` of the rows that are due. */
  function DueIn(rows: seq<EventRow>, now: nat, lo: nat, hi: nat): seq<nat>
    requires lo <= hi <= |rows|
    decreases hi - lo
  {
    if lo == hi then [] else (if Due(rows[lo], now) then [lo] else []) + DueIn(rows, now, lo + 1, hi)
  }

  function AllDue(rows: seq<EventRow>, now: nat): seq<nat> { DueIn(rows, now, 0, |rows|) }

  /** They are due, in order, without repetition, and all of them. */
  lemma {:induction false} DueIsExact(rows: seq<EventRow>, now: nat, lo: nat, hi: nat)
    requires lo <= hi <= |rows|
    ensures forall i :: i in DueIn(rows, now, lo, hi) <==> lo <= i < hi && rows[i].processedAt.None? && rows[i].nextAttemptAt <= now
    ensures forall i, j :: 0 <= i < j < |DueIn(rows, now, lo, hi)| ==> DueIn(rows, now, lo, hi)[i] < DueIn(rows, now, lo, hi)[j]
    decreases hi - lo
  {
    if lo < hi {
      DueIsExact(rows, now, lo + 1, hi);
      var rest := DueIn(rows, now, lo + 1, hi);
      assert forall i :: 0 <= i < |rest| ==> rest[i] in rest;
    }
  }

  lemma {:induction false} DueSplits(rows: seq<EventRow>, now: nat, lo: nat, mid: nat, hi: nat)
    requires lo <= mid <= hi <= |rows|
    ensures DueIn(rows, now, lo, hi) == DueIn(rows, now, lo, mid) + DueIn(rows, now, mid, hi)
    decreases mid - lo
  {
    if lo < mid {
      DueSplits(rows, now, lo + 1, mid, hi);
    } else {
      assert DueIn(rows, now, lo, mid) == [];
    }
  }

  lemma {:induction false} DueSame(rows: seq<EventRow>, next: seq<EventRow>, now: nat, lo: nat, hi: nat)
    requires lo <= hi <= |rows| == |next|
    requires forall i :: lo <= i < hi ==> next[i] == rows[i]
    ensures DueIn(next, now, lo, hi) == DueIn(rows, now, lo, hi)
    decreases hi - lo
  {
    if lo < hi {
      DueSame(rows, next, now, lo + 1, hi);
      var first := if Due(rows[lo], now) then [lo] else [];
      assert DueIn(rows, now, lo, hi) == first + DueIn(rows, now, lo + 1, hi);
      assert DueIn(next, now, lo, hi) == first + DueIn(next, now, lo + 1, hi);
    }
  }

  lemma {:induction false} NoneDue(rows: seq<EventRow>, now: nat, lo: nat, hi: nat)
    requires lo <= hi <= |rows|
    requires forall i :: lo <= i < hi ==> !Due(rows[i], now)
    ensures DueIn(rows, now, lo, hi) == []
    decreases hi - lo
  {
    if lo < hi { NoneDue(rows, now, lo + 1, hi); }
  }

  /** A handled row is not due again at the same instant. */
  lemma OutcomeIsNotDue(row: EventRow, now: nat, ok: bool)
    requires Due(row, now)
    ensures !Due(Outcome(row, now, ok), now)
  {
    DelayIsPositive(row.attempts + 1);
  }

  /** Once the due rows up to `cut` are handled, what is left to do is what was due after it. */
  lemma BatchLeavesRest(rows: seq<EventRow>, next: seq<EventRow>, now: nat, cut: nat)
    requires cut <= |rows| == |next|
    requires forall i :: 0 <= i < cut ==> !Due(next[i], now)
    requires forall i :: cut <= i < |rows| ==> next[i] == rows[i]
    ensures AllDue(rows, now) == DueIn(rows, now, 0, cut) + AllDue(next, now)
  {
    DueSplits(rows, now, 0, cut, |rows|);
    DueSplits(next, now, 0, cut, |rows|);
    NoneDue(next, now, 0, cut);
    DueSame(rows, next, now, cut, |rows|);
  }

  /** How `handle` turns out for each event: any pattern of failures. */
  type Handler = (nat, EventRow) -> bool

  /** The rows after handling every due one before `cut`. */
  ghost predicate Handled(before: seq<EventRow>, after: seq<EventRow>, now: nat, handle: Handler, cut: nat) {
    && |after| == |before|
    && forall i :: 0 <= i < |before| ==>
         after[i] == if i < cut && Due(before[i], now) then Outcome(before[i], now, handle(i, before[i])) else before[i]
  }

  lemma HandledIsNotDue(before: seq<EventRow>, after: seq<EventRow>, now: nat, handle: Handler, cut: nat)
    requires Handled(before, after, now, handle, cut) && cut <= |before|
    ensures forall i :: 0 <= i < cut ==> !Due(after[i], now)
  {
    forall i | 0 <= i < cut ensures !Due(after[i], now) {
      if Due(before[i], now) { OutcomeIsNotDue(before[i], now, handle(i, before[i])); }
    }
  }

  predicate ByAge(rows: seq<EventRow>) {
    forall i, j :: 0 <= i < j < |rows| ==> rows[i].createdAt <= rows[j].createdAt
  }

  /** The positions of exactly the rows that are unprocessed and whose time has come, in order. */
  ghost predicate DueList(rows: seq<EventRow>, now: nat, due: seq<nat>) {
    && (forall i, j :: 0 <= i < j < |due| ==> due[i] < due[j])
    && forall i: nat :: i in due <==> i < |rows| && rows[i].processedAt.None? && rows[i].nextAttemptAt <= now
  }

  lemma AllDueIsDueList(rows: seq<EventRow>, now: nat)
    ensures DueList(rows, now, AllDue(rows, now))
  {
    DueIsExact(rows, now, 0, |rows|);
  }

  /** The rows at these positions were attempted, each with its own outcome, and no other row changed. */
  ghost predicate Attempted(before: seq<EventRow>, after: seq<EventRow>, now: nat, handle: Handler, positions: seq<nat>) {
    && |after| == |before|
    && forall i :: 0 <= i < |before| ==>
         if i in positions then Attempt(before[i], after[i], now, handle(i, before[i])) else after[i] == before[i]
  }

  lemma HandledIsAttempted(before: seq<EventRow>, after: seq<EventRow>, now: nat, handle: Handler, cut: nat)
    requires cut <= |before| && Handled(before, after, now, handle, cut)
    ensures Attempted(before, after, now, handle, DueIn(before, now, 0, cut))
  {
    DueIsExact(before, now, 0, cut);
    forall i | 0 <= i < |before| && i in DueIn(before, now, 0, cut)
      ensures Attempt(before[i], after[i], now, handle(i, before[i]))
    {
      OutcomeMeans(before[i], now, handle(i, before[i]));
    }
  }

  /** A second batch of rows that the first one left alone. */
  lemma AttemptedTwice(first: seq<EventRow>, mid: seq<EventRow>, last: seq<EventRow>, now: nat, handle: Handler, a: seq<nat>, b: seq<nat>)
    requires Attempted(first, mid, now, handle, a) && Attempted(mid, last, now, handle, b)
    requires forall i :: i in a ==> i !in b
    ensures Attempted(first, last, now, handle, a + b)
  {
  }

  class Worker {
    /** The table in order of `created_at`, and every event handed to `handle` so far. */
    var rows: seq<EventRow>
    var attempted: seq<nat>

    constructor (rows: seq<EventRow>)
      ensures this.rows == rows && attempted == []
    {
      this.rows, attempted := rows, [];
    }

    /** `SELECT … ORDER BY created_at LIMIT n`; `cut` is where the scan stopped. */
    method SelectDue(now: nat, n: nat) returns (batch: seq<nat>, ghost cut: nat)
      ensures cut <= |rows| && batch == DueIn(rows, now, 0, cut)
      ensures |batch| <= n && (|batch| < n ==> cut == |rows|)
    {
      batch := [];
      var i := 0;
      while i < |rows| && |batch| < n
        invariant i <= |rows| && |batch| <= n
        invariant batch == DueIn(rows, now, 0, i)
      {
        DueSplits(rows, now, 0, i, i + 1);
        assert DueIn(rows, now, i + 1, i + 1) == [];
        if Due(rows[i], now) { batch := batch + [i]; }
        i := i + 1;
      }
      cut := i;
    }

    /** The loop over the locked rows. */
    method HandleRows(batch: seq<nat>, now: nat, handle: Handler)
      requires forall k :: 0 <= k < |batch| ==> batch[k] < |rows|
      requires forall i, j :: 0 <= i < j < |batch| ==> batch[i] != batch[j]
      modifies this
      ensures |rows| == |old(rows)|
      ensures forall i :: 0 <= i < |rows| ==>
                rows[i] == if i in batch then Outcome(old(rows)[i], now, handle(i, old(rows)[i])) else old(rows)[i]
      ensures attempted == old(attempted) + batch
    {
      for k := 0 to |batch|
        invariant |rows| == |old(rows)|
        invariant forall i :: 0 <= i < |rows| ==>
                    rows[i] == if i in batch[..k] then Outcome(old(rows)[i], now, handle(i, old(rows)[i])) else old(rows)[i]
        invariant attempted == old(attempted) + batch[..k]
      {
        var i := batch[k];
        assert batch[..k + 1] == batch[..k] + [i];
        attempted := attempted + [i];
        if handle(i, rows[i]) {
          rows := rows[i := rows[i].(processedAt := Some(now))];
        } else {
          var attempts := rows[i].attempts + 1;
          rows := rows[i := rows[i].(attempts := attempts, nextAttemptAt := now + Delay(attempts))];
        }
      }
      assert batch[..|batch|] == batch;
    }

    /** `processBatch`: it attempts the first `n` due events, in order, and no other row changes. */
    method ProcessBatch(now: nat, n: nat, handle: Handler) returns (count: nat, ghost due: seq<nat>)
      requires ByAge(rows)
      modifies this
      ensures ByAge(rows) && DueList(old(rows), now, due)
      ensures count == if |due| < n then |due| else n
      ensures attempted == old(attempted) + due[..count]
      ensures Attempted(old(rows), rows, now, handle, due[..count])
      ensures DueList(rows, now, due[count..])
    {
      ghost var before := rows;
      due := AllDue(before, now);
      var batch;
      ghost var cut;
      batch, cut := SelectDue(now, n);
      DueIsExact(rows, now, 0, cut);
      assert forall k :: 0 <= k < |batch| ==> batch[k] in batch;
      HandleRows(batch, now, handle);
      assert Handled(before, rows, now, handle, cut);
      HandledIsNotDue(before, rows, now, handle, cut);
      BatchLeavesRest(before, rows, now, cut);
      HandledIsAttempted(before, rows, now, handle, cut);
      AllDueIsDueList(before, now);
      AllDueIsDueList(rows, now);
      count := |batch|;
      assert due == batch + AllDue(rows, now);
    }

    /** The worker's loop with the clock held still: each due event is attempted exactly once, whatever
        fails, in one batch for every twenty of them, and nothing is left that is due. */
    method Drain(now: nat, handle: Handler) returns (passes: nat, ghost due: seq<nat>)
      requires ByAge(rows)
      modifies this
      ensures DueList(old(rows), now, due)
      ensures attempted == old(attempted) + due && Attempted(old(rows), rows, now, handle, due)
      ensures passes == (|due| + 19) / 20
      ensures forall i :: 0 <= i < |rows| ==> rows[i].processedAt.Some? || rows[i].nextAttemptAt > now
    {
      passes := 0;
      ghost var batch;
      var count;
      count, due := ProcessBatch(now, BATCH_SIZE, handle);
      ghost var done := count;
      while count > 0
        invariant ByAge(rows) && DueList(old(rows), now, due)
        invariant 0 <= done <= |due| && DueList(rows, now, due[done..]) && attempted == old(attempted) + due[..done]
        invariant Attempted(old(rows), rows, now, handle, due[..done])
        invariant count <= BATCH_SIZE && (count < BATCH_SIZE ==> done == |due|)
        invariant if count > 0 then done - count == BATCH_SIZE * passes
                  else BATCH_SIZE * (passes - 1) < done <= BATCH_SIZE * passes
        decreases |due| - done, count
      {
        passes := passes + 1;
        ghost var mid := rows;
        count, batch := ProcessBatch(now, BATCH_SIZE, handle);
        SameDue(mid, now, batch, due[done..]);
        NextBatch(old(rows), mid, rows, now, handle, due, done, count);
        done := done + count;
      }
      assert due[..done] == due && due[done..] == [];
      NothingDue(rows, now);
    }
  }

  lemma NothingDue(rows: seq<EventRow>, now: nat)
    requires DueList(rows, now, [])
    ensures forall i :: 0 <= i < |rows| ==> rows[i].processedAt.Some? || rows[i].nextAttemptAt > now
  {
    forall i: nat | i < |rows| ensures rows[i].processedAt.Some? || rows[i].nextAttemptAt > now {
      assert i !in [];
    }
  }

  lemma NextBatch(first: seq<EventRow>, mid: seq<EventRow>, last: seq<EventRow>, now: nat, handle: Handler, due: seq<nat>, done: nat, count: nat)
    requires done + count <= |due| && DueList(first, now, due)
    requires Attempted(first, mid, now, handle, due[..done]) && Attempted(mid, last, now, handle, due[done..][..count])
    ensures Attempted(first, last, now, handle, due[..done + count])
    ensures due[..done] + due[done..][..count] == due[..done + count] && due[done..][count..] == due[done + count..]
  {
    var a, b := due[..done], due[done..][..count];
    assert a + b == due[..done + count];
    forall i | i in a ensures i !in b {
      var x :| 0 <= x < done && a[x] == i;
      assert forall y :: 0 <= y < |b| ==> b[y] == due[done + y];
      assert due[x] == i;
    }
    AttemptedTwice(first, mid, last, now, handle, a, b);
  }

  /** The list of what is due is the only one. */
  lemma {:induction false} SameDue(rows: seq<EventRow>, now: nat, a: seq<nat>, b: seq<nat>)
    requires DueList(rows, now, a) && DueList(rows, now, b)
    ensures a == b
  {
    SameIncreasing(a, b);
  }

  lemma {:induction false} SameIncreasing(a: seq<nat>, b: seq<nat>)
    requires forall i, j :: 0 <= i < j < |a| ==> a[i] < a[j]
    requires forall i, j :: 0 <= i < j < |b| ==> b[i] < b[j]
    requires forall x :: x in a <==> x in b
    ensures a == b
  {
    assert b != [] ==> b[0] in b;
    if a != [] {
      assert a[0] in a;
      var x, y := a[|a| - 1], b[|b| - 1];
      assert x in b && y in a;
      assert x == y;
      var c, d := a[..|a| - 1], b[..|b| - 1];
      forall z ensures z in c <==> z in d {
        assert z in a <==> z in c || z == x;
        assert z in b <==> z in d || z == x;
        assert x !in c && x !in d;
      }
      SameIncreasing(c, d);
      assert a == c + [x] && b == d + [x];
    }
  }
}
