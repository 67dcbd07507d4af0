/** Any number of outbox workers on one table of events, as their transactions interleave. */
module OutboxProtocol {
  import opened Wrappers
  import opened Backoff

  type EventId = nat
  type WorkerId = nat

  /** A row of `message_events_outbox`; times are in seconds. */
  datatype EventRow = EventRow(createdAt: nat, processedAt: Option<nat>, attempts: nat, nextAttemptAt: nat)

  const BATCH_SIZE: nat := 20

  predicate Due(row: EventRow, now: nat) {
    row.processedAt.None? && row.nextAttemptAt <= now
  }

  /** What a row becomes after its event was handled in a transaction that started at `now`. */
  function Outcome(row: EventRow, now: nat, ok: bool): EventRow {
    if ok then row.(processedAt := Some(now))
    else row.(attempts := row.attempts + 1, nextAttemptAt := now + Delay(row.attempts + 1))
  }

  /** What an attempt leaves of a row: processed, or put off by the capped power of two. */
  predicate Attempt(row: EventRow, next: EventRow, now: nat, ok: bool) {
    && next.createdAt == row.createdAt
    && if ok then next.processedAt == Some(now) && next.attempts == row.attempts && next.nextAttemptAt == row.nextAttemptAt
       else
         && next.processedAt == row.processedAt && next.attempts == row.attempts + 1
         && next.nextAttemptAt == now + if Pow2(row.attempts + 1) < 3600 then Pow2(row.attempts + 1) else 3600
  }

  lemma OutcomeMeans(row: EventRow, now: nat, ok: bool)
    ensures Attempt(row, Outcome(row, now, ok), now, ok)
  {
  }

  /** A worker's transaction: `now()` is its start; `writes` wait for the commit. */
  datatype Batch =
    | Started(start: nat)
    | Working(start: nat, rows: seq<EventId>, next: nat, writes: map<EventId, EventRow>)

  /** `completed` are the events whose `handle` has run to its end at least once; `failedAt` records,
      for each event, the start of each transaction that committed a failure for it. */
  datatype State = State(
    table: map<EventId, EventRow>,
    workers: map<WorkerId, Batch>,
    clock: nat,
    completed: set<EventId>,
    failedAt: map<EventId, seq<nat>>)

  /** An event becomes visible when its transaction commits, with the time at which that one started. */
  datatype Action =
    | Insert(id: EventId, createdAt: nat)
    | Advance(seconds: nat)
    | Begin(w: WorkerId)
    | Select(w: WorkerId, rows: seq<EventId>)
    | Handle(w: WorkerId, ok: bool)
    | Commit(w: WorkerId)
    | Crash(w: WorkerId)

  const INITIAL := State(map[], map[], 0, {}, map[])

  predicate Holds(s: State, w: WorkerId, id: EventId) {
    w in s.workers && s.workers[w].Working? && id in s.workers[w].rows
  }

  predicate Free(s: State, id: EventId) {
    forall w :: w in s.workers ==> !Holds(s, w, id)
  }

  predicate Distinct(rows: seq<EventId>) {
    forall i, j :: 0 <= i < j < |rows| ==> rows[i] != rows[j]
  }

  /** A possible answer of `… ORDER BY created_at LIMIT 20 FOR UPDATE SKIP LOCKED`: due rows that
      nobody holds, oldest first. Rows that others held during the scan, or that were committed after
      its snapshot, may be missing from it. */
  predicate Selectable(s: State, start: nat, rows: seq<EventId>) {
    && |rows| <= BATCH_SIZE && Distinct(rows)
    && (forall i :: 0 <= i < |rows| ==> rows[i] in s.table && Due(s.table[rows[i]], start) && Free(s, rows[i]))
    && (forall i, j :: 0 <= i < j < |rows| ==> s.table[rows[i]].createdAt <= s.table[rows[j]].createdAt)
  }

  function DoHandle(s: State, w: WorkerId, ok: bool): State {
    if w !in s.workers || !s.workers[w].Working? || s.workers[w].next >= |s.workers[w].rows| then s
    else
      var b := s.workers[w];
      var id := b.rows[b.next];
      if id !in s.table then s
      else
        s.(workers := s.workers[w := b.(next := b.next + 1, writes := b.writes[id := Outcome(s.table[id], b.start, ok)])],
           completed := if ok then s.completed + {id} else s.completed)
  }

  /** The failures that this batch commits, added to the record. */
  function Record(s: State, b: Batch): map<EventId, seq<nat>>
    requires b.Working?
  {
    map id | id in s.failedAt ::
      if id in b.writes && b.writes[id].processedAt.None? then s.failedAt[id] + [b.start] else s.failedAt[id]
  }

  function DoCommit(s: State, w: WorkerId): State {
    if w !in s.workers || !s.workers[w].Working? || s.workers[w].next < |s.workers[w].rows| then s
    else
      var b := s.workers[w];
      s.(table := s.table + b.writes, failedAt := Record(s, b), workers := s.workers - {w})
  }

  /** One step; a step that cannot be taken changes nothing. */
  function Do(s: State, a: Action): State {
    match a
    case Insert(id, createdAt) =>
      if id in s.table || createdAt > s.clock then s
      else s.(table := s.table[id := EventRow(createdAt, None, 0, createdAt)], failedAt := s.failedAt[id := []])
    case Advance(seconds) => s.(clock := s.clock + seconds)
    case Begin(w) => if w in s.workers then s else s.(workers := s.workers[w := Started(s.clock)])
    case Select(w, rows) =>
      if w !in s.workers || !s.workers[w].Started? || !Selectable(s, s.workers[w].start, rows) then s
      else if rows == [] then s.(workers := s.workers - {w})
      else s.(workers := s.workers[w := Working(s.workers[w].start, rows, 0, map[])])
    case Handle(w, ok) => DoHandle(s, w, ok)
    case Commit(w) => DoCommit(s, w)
    case Crash(w) => s.(workers := s.workers - {w})
  }

  function Run(s: State, actions: seq<Action>): State {
    if actions == [] then s else Do(Run(s, actions[..|actions| - 1]), actions[|actions| - 1])
  }

  // ---- The invariant ----

  ghost predicate WriteOk(s: State, start: nat, id: EventId, written: EventRow) {
    && id in s.table
    && (written == Outcome(s.table[id], start, false) || (written == Outcome(s.table[id], start, true) && id in s.completed))
  }

  /** Every row of the batch is still as it was when the worker locked it. */
  ghost predicate BatchOk(s: State, b: Batch) {
    && b.start <= s.clock
    && (b.Working? ==>
          && b.next <= |b.rows| && Distinct(b.rows)
          && (forall i :: 0 <= i < |b.rows| ==> b.rows[i] in s.table && Due(s.table[b.rows[i]], b.start))
          && (forall id :: id in b.writes <==> id in b.rows[..b.next])
          && (forall id :: id in b.writes ==> WriteOk(s, b.start, id, b.writes[id])))
  }

  /** No event row is held by two workers. */
  ghost predicate HeldOnce(s: State) {
    forall w, v, id :: Holds(s, w, id) && Holds(s, v, id) ==> w == v
  }

  /** Each committed failure came at least its delay after the one before. */
  predicate Spaced(starts: seq<nat>) {
    forall i :: 0 < i < |starts| ==> starts[i] >= starts[i - 1] + Delay(i)
  }

  /** A row against the record of its committed failures. */
  predicate RowFits(row: EventRow, starts: seq<nat>, done: bool) {
    && (row.processedAt.Some? ==> done)
    && |starts| == row.attempts
    && Spaced(starts)
    && (starts != [] ==> row.nextAttemptAt == starts[|starts| - 1] + Delay(row.attempts))
  }

  ghost predicate RowOk(s: State, id: EventId) {
    id in s.table && id in s.failedAt && RowFits(s.table[id], s.failedAt[id], id in s.completed)
  }

  ghost predicate Inv(s: State) {
    && HeldOnce(s)
    && (forall w :: w in s.workers ==> BatchOk(s, s.workers[w]))
    && (forall id :: id in s.table ==> RowOk(s, id))
    && s.failedAt.Keys == s.table.Keys
  }

  lemma StepHeldOnce(s: State, a: Action)
    requires Inv(s)
    ensures HeldOnce(Do(s, a))
  {
    var next := Do(s, a);
    forall w, v, id | Holds(next, w, id) && Holds(next, v, id) ensures w == v {
      HeldBefore(s, a, w, id);
      HeldBefore(s, a, v, id);
    }
  }

  /** A row that is held after a step was held before it, or has just been selected while free. */
  lemma HeldBefore(s: State, a: Action, w: WorkerId, id: EventId)
    requires Holds(Do(s, a), w, id)
    ensures Holds(s, w, id) || (a.Select? && a.w == w && Free(s, id))
  {
  }

  /** A batch does not notice a change of the table outside its own rows. */
  lemma BatchFrame(s: State, next: State, b: Batch)
    requires BatchOk(s, b) && s.clock <= next.clock && s.completed <= next.completed
    requires b.Working? ==> forall id :: id in b.rows && id in s.table ==> id in next.table && next.table[id] == s.table[id]
    ensures BatchOk(next, b)
  {
    if b.Working? {
      forall id | id in b.writes ensures WriteOk(next, b.start, id, b.writes[id]) {
        assert WriteOk(s, b.start, id, b.writes[id]);
        assert id in b.rows;
      }
    }
  }

  lemma BatchHandles(s: State, w: WorkerId, ok: bool)
    requires Inv(s) && w in s.workers
    ensures BatchOk(DoHandle(s, w, ok), DoHandle(s, w, ok).workers[w])
  {
    var b := s.workers[w];
    assert BatchOk(s, b);
    if b.Working? && b.next < |b.rows| {
      var id, next := b.rows[b.next], DoHandle(s, w, ok);
      var c := next.workers[w];
      assert b.rows[..b.next + 1] == b.rows[..b.next] + [id];
      forall x | x in c.writes ensures WriteOk(next, c.start, x, c.writes[x]) {
        if x != id { assert WriteOk(s, b.start, x, b.writes[x]); }
      }
    }
  }

  lemma StepBatch(s: State, a: Action, w: WorkerId)
    requires Inv(s) && w in Do(s, a).workers
    ensures BatchOk(Do(s, a), Do(s, a).workers[w])
  {
    var next := Do(s, a);
    if a.Handle? && a.w == w {
      BatchHandles(s, w, a.ok);
    } else if w in s.workers && next.workers[w] == s.workers[w] {
      assert BatchOk(s, s.workers[w]);
      if a.Commit? && a.w in s.workers { CommitElsewhere(s, a.w, w); }
      BatchFrame(s, next, s.workers[w]);
    } else if w in s.workers {
      assert BatchOk(s, s.workers[w]);
    }
  }

  /** A commit writes only rows that its own worker holds. */
  lemma CommitElsewhere(s: State, v: WorkerId, w: WorkerId)
    requires Inv(s) && v in s.workers && w in s.workers && w in DoCommit(s, v).workers
    ensures s.workers[w].Working? ==>
              forall id :: id in s.workers[w].rows && id in s.table ==> id in DoCommit(s, v).table && DoCommit(s, v).table[id] == s.table[id]
  {
    if s.workers[w].Working? && s.workers[v].Working? && v != w {
      assert BatchOk(s, s.workers[v]);
      forall id | id in s.workers[w].rows ensures id !in s.workers[v].writes {
        assert Holds(s, w, id);
        assert id in s.workers[v].writes ==> Holds(s, v, id);
      }
    }
  }

  lemma OutcomeFits(row: EventRow, starts: seq<nat>, done: bool, start: nat)
    requires RowFits(row, starts, done) && Due(row, start)
    ensures RowFits(Outcome(row, start, false), starts + [start], done)
    ensures done ==> RowFits(Outcome(row, start, true), starts, done)
  {
  }

  lemma CommitRow(s: State, w: WorkerId, id: EventId)
    requires Inv(s) && w in s.workers && s.workers[w].Working? && s.workers[w].next == |s.workers[w].rows|
    requires id in DoCommit(s, w).table
    ensures RowOk(DoCommit(s, w), id)
  {
    var b, next := s.workers[w], DoCommit(s, w);
    assert BatchOk(s, b);
    if id in b.writes {
      assert WriteOk(s, b.start, id, b.writes[id]) && id in b.rows;
      assert RowOk(s, id);
      OutcomeFits(s.table[id], s.failedAt[id], id in s.completed, b.start);
    } else {
      assert RowOk(s, id);
      assert next.table[id] == s.table[id] && next.failedAt[id] == s.failedAt[id];
    }
  }

  lemma StepRow(s: State, a: Action, id: EventId)
    requires Inv(s) && id in Do(s, a).table
    ensures RowOk(Do(s, a), id)
  {
    var next := Do(s, a);
    if a.Commit? && a.w in s.workers && s.workers[a.w].Working? && s.workers[a.w].next >= |s.workers[a.w].rows| {
      assert BatchOk(s, s.workers[a.w]);
      CommitRow(s, a.w, id);
    } else if id in s.table {
      assert RowOk(s, id);
      QuietRow(s, a, id);
    }
  }

  lemma QuietRow(s: State, a: Action, id: EventId)
    requires id in s.table && id in s.failedAt
    requires !(a.Commit? && a.w in s.workers && s.workers[a.w].Working? && s.workers[a.w].next >= |s.workers[a.w].rows|)
    ensures id in Do(s, a).table && Do(s, a).table[id] == s.table[id]
    ensures id in Do(s, a).failedAt && Do(s, a).failedAt[id] == s.failedAt[id]
    ensures s.completed <= Do(s, a).completed
  {
  }

  lemma StepKeys(s: State, a: Action)
    requires Inv(s)
    ensures Do(s, a).failedAt.Keys == Do(s, a).table.Keys
  {
    if a.Commit? && a.w in s.workers {
      var b := s.workers[a.w];
      assert BatchOk(s, b);
      assert b.Working? ==> b.writes.Keys <= s.table.Keys;
    }
  }

  lemma StepKeepsInv(s: State, a: Action)
    requires Inv(s)
    ensures Inv(Do(s, a))
  {
    StepHeldOnce(s, a);
    StepKeys(s, a);
    forall w | w in Do(s, a).workers ensures BatchOk(Do(s, a), Do(s, a).workers[w]) { StepBatch(s, a, w); }
    forall id | id in Do(s, a).table ensures RowOk(Do(s, a), id) { StepRow(s, a, id); }
  }

  // ---- Whole runs ----

  lemma {:induction false} RunKeepsInv(s: State, actions: seq<Action>)
    requires Inv(s)
    ensures Inv(Run(s, actions))
  {
    if actions != [] {
      RunKeepsInv(s, actions[..|actions| - 1]);
      StepKeepsInv(Run(s, actions[..|actions| - 1]), actions[|actions| - 1]);
    }
  }

  /** With any number of workers and a crash possible at any step, no row is ever held twice,
      and a committed `processed_at` means that the event was handled to the end. */
  lemma WorkersAreSafe(actions: seq<Action>)
    ensures var s := Run(INITIAL, actions);
            && HeldOnce(s)
            && forall id :: id in s.table && s.table[id].processedAt.Some? ==> id in s.completed
  {
    RunKeepsInv(INITIAL, actions);
    var s := Run(INITIAL, actions);
    forall id | id in s.table ensures s.table[id].processedAt.Some? ==> id in s.completed { assert RowOk(s, id); }
  }

  lemma StepKeepsEvent(s: State, a: Action, id: EventId)
    requires Inv(s) && id in s.table
    ensures id in Do(s, a).table && Do(s, a).table[id].createdAt == s.table[id].createdAt
    ensures s.table[id].processedAt.Some? ==> Do(s, a).table[id] == s.table[id]
    ensures Do(s, a).table[id].attempts >= s.table[id].attempts
  {
    if a.Commit? && a.w in s.workers {
      var b := s.workers[a.w];
      assert BatchOk(s, b);
      if b.Working? && id in b.writes { assert WriteOk(s, b.start, id, b.writes[id]); }
    }
  }

  /** An event is never lost: its row stays, and stays unprocessed until its handling has committed. */
  lemma {:induction false} EventsAreNeverLost(s: State, actions: seq<Action>, id: EventId)
    requires Inv(s) && id in s.table
    ensures var end := Run(s, actions);
            && id in end.table
            && (end.table[id].processedAt.None? || id in end.completed)
            && (s.table[id].processedAt.Some? ==> end.table[id] == s.table[id])
  {
    RunKeepsInv(s, actions);
    assert RowOk(Run(s, actions), id) by {
      if actions != [] { EventsAreNeverLost(s, actions[..|actions| - 1], id); }
      EventStays(s, actions, id);
    }
    EventStays(s, actions, id);
  }

  lemma {:induction false} EventStays(s: State, actions: seq<Action>, id: EventId)
    requires Inv(s) && id in s.table
    ensures id in Run(s, actions).table
    ensures s.table[id].processedAt.Some? ==> Run(s, actions).table[id] == s.table[id]
  {
    if actions != [] {
      var before := actions[..|actions| - 1];
      EventStays(s, before, id);
      RunKeepsInv(s, before);
      StepKeepsEvent(Run(s, before), actions[|actions| - 1], id);
    }
  }

  /** A crash gives every row of the batch back as it was, for another worker to take. */
  lemma CrashFreesRows(s: State, w: WorkerId, id: EventId)
    requires Inv(s) && Holds(s, w, id)
    ensures var next := Do(s, Crash(w));
            Free(next, id) && id in next.table && next.table == s.table && Due(next.table[id], next.clock)
  {
    assert BatchOk(s, s.workers[w]);
    var next := Do(s, Crash(w));
    forall v | v in next.workers ensures !Holds(next, v, id) {
      assert Holds(next, v, id) ==> Holds(s, v, id);
    }
  }

  // ---- Spacing of the attempts ----

  lemma {:induction false} SpacingAddsUp(starts: seq<nat>, n: nat)
    requires Spaced(starts) && n < |starts|
    ensures starts[n] >= starts[0] + TotalDelay(n)
  {
    if n > 0 { SpacingAddsUp(starts, n - 1); }
  }

  lemma RowSpacing(row: EventRow, starts: seq<nat>, done: bool, start: nat)
    requires RowFits(row, starts, done) && Due(row, start) && row.attempts > 0
    ensures start >= starts[0] + TotalDelay(row.attempts)
  {
    SpacingAddsUp(starts, row.attempts - 1);
  }

  function LeastWait(n: nat): int { if n <= 11 then Pow2(n + 1) - 2 else 4094 + 3600 * (n - 11) }

  /** An attempt that a worker makes after `n` committed failures starts at least 2^(n+1) - 2 seconds
      after the first one, or 4094 + 3600 (n - 11) from the twelfth failure on. */
  lemma AttemptsAreSpaced(actions: seq<Action>, w: WorkerId, id: EventId)
    requires Holds(Run(INITIAL, actions), w, id)
    ensures var s := Run(INITIAL, actions);
            && id in s.table && id in s.failedAt && |s.failedAt[id]| == s.table[id].attempts
            && (s.failedAt[id] != [] ==> s.workers[w].start >= s.failedAt[id][0] + LeastWait(s.table[id].attempts))
  {
    RunKeepsInv(INITIAL, actions);
    var s := Run(INITIAL, actions);
    assert BatchOk(s, s.workers[w]);
    assert RowOk(s, id);
    TotalDelayClosedForm(s.table[id].attempts);
    if s.failedAt[id] != [] {
      RowSpacing(s.table[id], s.failedAt[id], id in s.completed, s.workers[w].start);
    }
  }

  /** In every run, an event that has failed is due again exactly two to the power of its failures, but at most
      an hour, after the start of the transaction that committed the last one. */
  lemma RetryTimeIsExact(actions: seq<Action>, id: EventId)
    requires id in Run(INITIAL, actions).table && Run(INITIAL, actions).table[id].attempts > 0
    ensures var s := Run(INITIAL, actions);
            && id in s.failedAt && |s.failedAt[id]| == s.table[id].attempts
            && var n, starts := s.table[id].attempts, s.failedAt[id];
               s.table[id].nextAttemptAt == starts[n - 1] + if Pow2(n) < 3600 then Pow2(n) else 3600
  {
    RunKeepsInv(INITIAL, actions);
    var s := Run(INITIAL, actions);
    assert RowOk(s, id);
    RetryOfRow(s.table[id], s.failedAt[id], id in s.completed);
  }

  lemma RetryOfRow(row: EventRow, starts: seq<nat>, done: bool)
    requires RowFits(row, starts, done) && row.attempts > 0
    ensures |starts| == row.attempts
    ensures row.nextAttemptAt == starts[row.attempts - 1] + if Pow2(row.attempts) < 3600 then Pow2(row.attempts) else 3600
  {
  }

  // ---- Nothing is stuck ----

  /** A worker that takes one row, handles it and commits, with nothing in between. */
  function HandleOne(s: State, w: WorkerId, id: EventId, ok: bool): State {
    Do(Do(Do(Do(s, Begin(w)), Select(w, [id])), Handle(w, ok)), Commit(w))
  }

  lemma TakeOne(s: State, w: WorkerId, id: EventId)
    requires w !in s.workers && id in s.table
    requires s.table[id].processedAt.None? && s.table[id].nextAttemptAt <= s.clock
    requires forall v :: v in s.workers && s.workers[v].Working? ==> id !in s.workers[v].rows
    ensures Do(Do(s, Begin(w)), Select(w, [id])) == s.(workers := s.workers[w := Working(s.clock, [id], 0, map[])])
  {
    var s1 := Do(s, Begin(w));
    assert s1 == s.(workers := s.workers[w := Started(s.clock)]);
    assert Selectable(s1, s.clock, [id]);
    assert s1.workers[w := Working(s.clock, [id], 0, map[])] == s.workers[w := Working(s.clock, [id], 0, map[])];
  }

  lemma FinishOne(s: State, w: WorkerId, id: EventId, ok: bool, start: nat)
    requires id in s.table && w in s.workers && s.workers[w] == Working(start, [id], 0, map[])
    ensures var end := DoCommit(DoHandle(s, w, ok), w);
            && w !in end.workers && end.table == s.table[id := Outcome(s.table[id], start, ok)]
            && (ok ==> id in end.completed)
  {
    var s1 := DoHandle(s, w, ok);
    assert s1.table == s.table && s1.workers[w] == Working(start, [id], 1, map[id := Outcome(s.table[id], start, ok)]);
  }

  /** Whatever happened before, an event that is unprocessed, whose time has come and that nobody holds can be
      taken by any idle worker, handled and committed. */
  lemma DueEventsCanBeHandled(s: State, w: WorkerId, id: EventId, ok: bool)
    requires w !in s.workers && id in s.table
    requires s.table[id].processedAt.None? && s.table[id].nextAttemptAt <= s.clock
    requires forall v :: v in s.workers && s.workers[v].Working? ==> id !in s.workers[v].rows
    ensures var end := HandleOne(s, w, id, ok);
            && w !in end.workers && end.table.Keys == s.table.Keys
            && Attempt(s.table[id], end.table[id], s.clock, ok)
            && (forall other :: other in s.table && other != id ==> end.table[other] == s.table[other])
            && (ok ==> id in end.completed)
  {
    TakeOne(s, w, id);
    FinishOne(s.(workers := s.workers[w := Working(s.clock, [id], 0, map[])]), w, id, ok, s.clock);
    OutcomeMeans(s.table[id], s.clock, ok);
  }
}
