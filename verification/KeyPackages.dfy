/** The pool of single-use MLS key packages (section 10 of RFC 9420), under concurrent claims. */
module KeyPackages {
  import opened Wrappers

  type TxId = nat

  /** A row of `mls_key_packages`, identified by its position in the table; times are in milliseconds. */
  datatype KeyPackage = KeyPackage(user: nat, device: string, suite: string, bytes: seq<nat>, createdAt: int,
                                   expires: int, consumed: Option<Claim>)
  datatype Claim = Claim(who: nat, at: int)
  type Table = seq<KeyPackage>

  const DAY_MS := 86_400_000

  /** Unconsumed and not yet expired at `now`, for this user and cipher suite. */
  predicate Available(k: KeyPackage, user: nat, suite: string, now: int) {
    k.user == user && k.suite == suite && k.consumed.None? && k.expires > now
  }

  /** A claim's transaction: `now()` in its query is the transaction's start. */
  datatype Tx =
    | Looking(user: nat, suite: string, who: nat, start: int)
    | Locked(user: nat, suite: string, who: nat, start: int, row: nat, lockedAt: int)

  /** What a claim returned, with the request it answered, and when its transaction started,
      got its row and committed. */
  datatype Hand = Hand(user: nat, suite: string, who: nat, row: nat, start: int, lockedAt: int, at: int)

  datatype State = State(table: Table, txs: map<TxId, Tx>, clock: int, handed: seq<Hand>)

  datatype Action =
    | Publish(user: nat, device: string, suite: string, packages: seq<seq<nat>>, ttlDays: Option<int>)
    | Begin(tx: TxId, user: nat, suite: string, who: nat)
    | Select(tx: TxId, row: nat)
    | Commit(tx: TxId)
    | Abort(tx: TxId)
    | Advance(ms: nat)

  function Initial(clock: int): State { State([], map[], clock, []) }

  function Rows(a: Action, clock: int): (r: Table)
    requires a.Publish?
    ensures |r| == |a.packages|
    ensures forall i :: 0 <= i < |r| ==> r[i].user == a.user && r[i].suite == a.suite && r[i].consumed.None?
  {
    var expires := clock + (if a.ttlDays.Some? then a.ttlDays.value else 30) * DAY_MS;
    seq(|a.packages|, i requires 0 <= i < |a.packages| =>
      KeyPackage(a.user, a.device, a.suite, a.packages[i], clock, expires, None))
  }

  /** Between 1 and 100 packages are accepted at a time. */
  predicate Accepts(a: Action)
    requires a.Publish?
  {
    1 <= |a.packages| <= 100
  }

  predicate Unlocked(s: State, row: nat) {
    forall t :: t in s.txs ==> !(s.txs[t].Locked? && s.txs[t].row == row)
  }

  /** The locking query waits for a locked row and checks it again. It may settle on any package that is
      still available: the oldest one of its snapshot need not be the oldest one by then. */
  predicate Settles(s: State, tx: Tx, row: nat) {
    tx.Looking? && row < |s.table| && Unlocked(s, row) && Available(s.table[row], tx.user, tx.suite, tx.start)
  }

  function Do(s: State, a: Action): State {
    match a
    case Publish(_, _, _, _, _) => if Accepts(a) then s.(table := s.table + Rows(a, s.clock)) else s
    case Begin(t, user, suite, who) => if t in s.txs then s else s.(txs := s.txs[t := Looking(user, suite, who, s.clock)])
    case Select(t, row) =>
      if t !in s.txs || !Settles(s, s.txs[t], row) then s
      else
        var tx := s.txs[t];
        s.(txs := s.txs[t := Locked(tx.user, tx.suite, tx.who, tx.start, row, s.clock)])
    case Commit(t) =>
      if t !in s.txs || !s.txs[t].Locked? || s.txs[t].row >= |s.table| then s
      else
        var tx := s.txs[t];
        s.(txs := s.txs - {t},
           table := s.table[tx.row := s.table[tx.row].(consumed := Some(Claim(tx.who, s.clock)))],
           handed := s.handed + [Hand(tx.user, tx.suite, tx.who, tx.row, tx.start, tx.lockedAt, s.clock)])
    case Abort(t) => s.(txs := s.txs - {t})
    case Advance(ms) => s.(clock := s.clock + ms)
  }

  function Run(s: State, actions: seq<Action>): State {
    if actions == [] then s else Do(Run(s, actions[..|actions| - 1]), actions[|actions| - 1])
  }

  /** The rows after a publish: the old ones, and one for each package, in order, with its own bytes. */
  ghost predicate AddsPackages(before: Table, after: Table, a: Action, clock: int)
    requires a.Publish?
  {
    && |after| == |before| + |a.packages|
    && (forall i :: 0 <= i < |before| ==> after[i] == before[i])
    && forall i :: 0 <= i < |a.packages| ==>
         var k := after[|before| + i];
         && k.user == a.user && k.device == a.device && k.suite == a.suite && k.bytes == a.packages[i]
         && k.createdAt == clock && k.consumed.None?
         && k.expires == clock + (if a.ttlDays.Some? then a.ttlDays.value else 30) * 86_400_000
  }

  /** Between one and a hundred packages are published as they come; any other number adds none. */
  lemma PublishAdds(s: State, a: Action)
    requires a.Publish?
    ensures if 1 <= |a.packages| <= 100 then AddsPackages(s.table, Do(s, a).table, a, s.clock) else Do(s, a) == s
  {
  }

  /** A claim with nothing in between. */
  function LoneClaim(s: State, t: TxId, user: nat, suite: string, who: nat, row: nat): State {
    Do(Do(Do(s, Begin(t, user, suite, who)), Select(t, row)), Commit(t))
  }

  /** Whatever happened before, any package of the user and suite that is unclaimed, unexpired and not locked
      can be claimed: it is handed out and marked, and no other row changes. */
  lemma AvailableCanBeClaimed(s: State, t: TxId, user: nat, suite: string, who: nat, row: nat)
    requires t !in s.txs && row < |s.table|
    requires s.table[row].user == user && s.table[row].suite == suite
    requires s.table[row].consumed.None? && s.table[row].expires > s.clock
    requires forall u :: u in s.txs && s.txs[u].Locked? ==> s.txs[u].row != row
    ensures var end := LoneClaim(s, t, user, suite, who, row);
            && end.table == s.table[row := s.table[row].(consumed := Some(Claim(who, s.clock)))]
            && end.handed == s.handed + [Hand(user, suite, who, row, s.clock, s.clock, s.clock)] && t !in end.txs
  {
    var s1 := Do(s, Begin(t, user, suite, who));
    assert s1 == s.(txs := s.txs[t := Looking(user, suite, who, s.clock)]);
    assert Settles(s1, s1.txs[t], row);
    var s2 := Do(s1, Select(t, row));
    assert s2.table == s.table && t in s2.txs && s2.txs[t] == Locked(user, suite, who, s.clock, row, s.clock);
  }

  // ---- The invariant ----

  ghost predicate LocksOk(s: State) {
    && (forall t :: t in s.txs ==> s.txs[t].start <= s.clock)
    && (forall t :: t in s.txs && s.txs[t].Locked? ==>
          && s.txs[t].row < |s.table| && Available(s.table[s.txs[t].row], s.txs[t].user, s.txs[t].suite, s.txs[t].start)
          && s.txs[t].start <= s.txs[t].lockedAt <= s.clock)
    && (forall t, u :: t in s.txs && u in s.txs && s.txs[t].Locked? && s.txs[u].Locked? && s.txs[t].row == s.txs[u].row ==> t == u)
  }

  /** The answer matches its request, and its package was unexpired when the transaction started. */
  predicate HandOk(table: Table, h: Hand) {
    && h.row < |table| && table[h.row].user == h.user && table[h.row].suite == h.suite
    && table[h.row].expires > h.start && h.start <= h.lockedAt <= h.at
    && table[h.row].consumed == Some(Claim(h.who, h.at))
  }

  /** So it is for every answer, and no package was ever handed out twice. */
  ghost predicate HandsOk(s: State) {
    && (forall i :: 0 <= i < |s.handed| ==> HandOk(s.table, s.handed[i]))
    && (forall i, j :: 0 <= i < j < |s.handed| ==> s.handed[i].row != s.handed[j].row)
  }

  lemma StepLocks(s: State, a: Action)
    requires LocksOk(s)
    ensures LocksOk(Do(s, a))
  {
  }

  lemma StepHands(s: State, a: Action)
    requires LocksOk(s) && HandsOk(s)
    ensures HandsOk(Do(s, a))
  {
  }

  lemma {:induction false} PackagesAreSingleUse(clock: int, actions: seq<Action>)
    ensures LocksOk(Run(Initial(clock), actions)) && HandsOk(Run(Initial(clock), actions))
  {
    if actions != [] {
      var before := actions[..|actions| - 1];
      PackagesAreSingleUse(clock, before);
      StepLocks(Run(Initial(clock), before), actions[|actions| - 1]);
      StepHands(Run(Initial(clock), before), actions[|actions| - 1]);
    }
  }

  // ---- Expiry ----

  /** No claim took more than `limit` milliseconds from the start of its transaction to its commit. */
  ghost predicate Quick(s: State, limit: nat) {
    forall i :: 0 <= i < |s.handed| ==> s.handed[i].at <= s.handed[i].start + limit
  }

  predicate Lively(table: Table, h: Hand, left: nat) {
    h.row < |table| && table[h.row].expires > h.start + left
  }

  /** Every package with more than `left` milliseconds to live at the start of its claim was still
      unexpired when the query locked it. */
  ghost predicate LockedInTime(s: State, left: nat) {
    forall i :: 0 <= i < |s.handed| && Lively(s.table, s.handed[i], left) ==>
      s.table[s.handed[i].row].expires > s.handed[i].lockedAt
  }

  /** And still when it was handed out. */
  ghost predicate HandedInTime(s: State, left: nat) {
    forall i :: 0 <= i < |s.handed| && Lively(s.table, s.handed[i], left) ==>
      s.table[s.handed[i].row].expires > s.handed[i].at
  }

  ghost predicate QuickRun(clock: int, actions: seq<Action>, limit: nat) {
    Quick(Run(Initial(clock), actions), limit)
  }

  /** A claim that waits `wait` milliseconds for its row, on a package that expires just then. */
  function SlowClaim(wait: nat): seq<Action> {
    [Publish(1, "d", "x", [[7]], Some(wait)), Advance(wait * (DAY_MS - 1)), Begin(5, 1, "x", 2), Advance(wait), Select(5, 0), Commit(5)]
  }

  lemma SlowClaimEnds(wait: nat)
    requires wait > 0
    ensures var s := Run(Initial(0), SlowClaim(wait));
            && |s.handed| == 1 && s.handed[0].row == 0 && |s.table| == 1
            && s.handed[0].start == s.table[0].expires - wait && s.handed[0].lockedAt == s.handed[0].at == s.table[0].expires
  {
    var all := SlowClaim(wait);
    var s1 := Do(Initial(0), all[0]);
    var s2 := Do(s1, all[1]);
    var s3 := Do(s2, all[2]);
    var s4 := Do(s3, all[3]);
    assert Settles(s4, s4.txs[5], 0);
    var s5 := Do(s4, all[4]);
    var s6 := Do(s5, all[5]);
    assert all[..1][..0] == [] && all[..2][..1] == all[..1] && all[..3][..2] == all[..2];
    assert all[..4][..3] == all[..3] && all[..5][..4] == all[..4] && all[..6] == all;
    assert Run(Initial(0), all[..1]) == s1;
    assert Run(Initial(0), all[..2]) == s2;
    assert Run(Initial(0), all[..3]) == s3;
    assert Run(Initial(0), all[..4]) == s4;
    assert Run(Initial(0), all[..5]) == s5;
    assert Run(Initial(0), all) == s6;
  }

  /** The query compares the expiry with the start of its transaction, however long it then waits for its
      row. So in all runs whose claims take at most `limit` milliseconds, no package with more than `left`
      to live at the start of its claim is locked or handed out after its expiry exactly if `left >= limit`. */
  lemma InTimeExactly(left: nat, limit: nat)
    ensures (forall clock, actions :: QuickRun(clock, actions, limit) ==> LockedInTime(Run(Initial(clock), actions), left))
            <==> left >= limit
    ensures (forall clock, actions :: QuickRun(clock, actions, limit) ==> HandedInTime(Run(Initial(clock), actions), left))
            <==> left >= limit
  {
    if left >= limit {
      forall clock, actions | QuickRun(clock, actions, limit)
        ensures LockedInTime(Run(Initial(clock), actions), left) && HandedInTime(Run(Initial(clock), actions), left)
      {
        PackagesAreSingleUse(clock, actions);
      }
    } else {
      var clock, wait := 0, left + 1;
      SlowClaimEnds(wait);
      var s := Run(Initial(clock), SlowClaim(wait));
      assert QuickRun(clock, SlowClaim(wait), limit);
      assert Lively(s.table, s.handed[0], left);
      assert !LockedInTime(s, left) && !HandedInTime(s, left);
    }
  }

  // ---- Conservation ----

  datatype Fate = Other | Ready | Claimed | Expired

  function FateOf(k: KeyPackage, user: nat, suite: string, now: int): Fate {
    if k.user != user || k.suite != suite then Other
    else if k.consumed.Some? then Claimed
    else if k.expires > now then Ready
    else Expired
  }

  function Count(t: Table, user: nat, suite: string, now: int, f: Fate): nat {
    if t == [] then 0
    else Count(t[..|t| - 1], user, suite, now, f) + if FateOf(t[|t| - 1], user, suite, now) == f then 1 else 0
  }

  function HandedTo(handed: seq<Hand>, user: nat, suite: string): nat {
    if handed == [] then 0
    else
      HandedTo(handed[..|handed| - 1], user, suite)
      + if handed[|handed| - 1].user == user && handed[|handed| - 1].suite == suite then 1 else 0
  }

  function Published(actions: seq<Action>, user: nat, suite: string): nat {
    if actions == [] then 0
    else
      var a := actions[|actions| - 1];
      Published(actions[..|actions| - 1], user, suite) + NewlyPublished(a, user, suite)
  }

  /** How many rows of the table belong to the user and suite. */
  function Owned(t: Table, user: nat, suite: string): nat {
    if t == [] then 0
    else Owned(t[..|t| - 1], user, suite) + if t[|t| - 1].user == user && t[|t| - 1].suite == suite then 1 else 0
  }

  lemma {:induction false} FatesPartition(t: Table, user: nat, suite: string, now: int)
    ensures Count(t, user, suite, now, Ready) + Count(t, user, suite, now, Claimed) + Count(t, user, suite, now, Expired)
            == Owned(t, user, suite)
  {
    if t != [] { FatesPartition(t[..|t| - 1], user, suite, now); }
  }

  /** The rows of the user and suite that a claim could take now. */
  function ReadyRows(t: Table, user: nat, suite: string, now: int): set<nat> {
    set i: nat | i < |t| && t[i].user == user && t[i].suite == suite && t[i].consumed.None? && t[i].expires > now
  }

  /** Those that nobody claimed in time. */
  function ExpiredRows(t: Table, user: nat, suite: string, now: int): set<nat> {
    set i: nat | i < |t| && t[i].user == user && t[i].suite == suite && t[i].consumed.None? && t[i].expires <= now
  }

  /** And those that were claimed. */
  function ClaimedRows(t: Table, user: nat, suite: string): set<nat> {
    set i: nat | i < |t| && t[i].user == user && t[i].suite == suite && t[i].consumed.Some?
  }

  lemma {:induction false} ReadyMeans(t: Table, user: nat, suite: string, now: int)
    ensures Count(t, user, suite, now, Ready) == |ReadyRows(t, user, suite, now)|
  {
    if t != [] {
      var init, last := t[..|t| - 1], |t| - 1;
      ReadyMeans(init, user, suite, now);
      assert last !in ReadyRows(init, user, suite, now);
      assert ReadyRows(t, user, suite, now) == ReadyRows(init, user, suite, now) + if FateOf(t[last], user, suite, now) == Ready then {last} else {};
    }
  }

  lemma {:induction false} ExpiredMeans(t: Table, user: nat, suite: string, now: int)
    ensures Count(t, user, suite, now, Expired) == |ExpiredRows(t, user, suite, now)|
  {
    if t != [] {
      var init, last := t[..|t| - 1], |t| - 1;
      ExpiredMeans(init, user, suite, now);
      assert last !in ExpiredRows(init, user, suite, now);
      assert ExpiredRows(t, user, suite, now) == ExpiredRows(init, user, suite, now) + if FateOf(t[last], user, suite, now) == Expired then {last} else {};
    }
  }

  lemma {:induction false} ClaimedMeans(t: Table, user: nat, suite: string, now: int)
    ensures Count(t, user, suite, now, Claimed) == |ClaimedRows(t, user, suite)|
  {
    if t != [] {
      var init, last := t[..|t| - 1], |t| - 1;
      ClaimedMeans(init, user, suite, now);
      assert last !in ClaimedRows(init, user, suite);
      assert ClaimedRows(t, user, suite) == ClaimedRows(init, user, suite) + if FateOf(t[last], user, suite, now) == Claimed then {last} else {};
    }
  }

  lemma {:induction false} OwnedAppend(t: Table, rows: Table, user: nat, suite: string)
    requires forall i, j :: 0 <= i < j < |rows| ==> rows[i].user == rows[j].user && rows[i].suite == rows[j].suite
    ensures Owned(t + rows, user, suite) ==
            Owned(t, user, suite) + if rows != [] && rows[0].user == user && rows[0].suite == suite then |rows| else 0
  {
    if rows == [] {
      assert t + rows == t;
    } else {
      assert (t + rows)[..|t + rows| - 1] == t + rows[..|rows| - 1];
      OwnedAppend(t, rows[..|rows| - 1], user, suite);
    }
  }

  lemma {:induction false} OwnedUpdate(t: Table, i: nat, k: KeyPackage, user: nat, suite: string)
    requires i < |t| && k.user == t[i].user && k.suite == t[i].suite
    ensures Owned(t[i := k], user, suite) == Owned(t, user, suite)
  {
    var u := t[i := k];
    if i == |t| - 1 {
      assert u[..|t| - 1] == t[..|t| - 1];
    } else {
      assert u[..|t| - 1] == t[..|t| - 1][i := k];
      OwnedUpdate(t[..|t| - 1], i, k, user, suite);
    }
  }

  lemma {:induction false} ClaimedUpdate(t: Table, i: nat, k: KeyPackage, user: nat, suite: string, now: int)
    requires i < |t| && k.user == t[i].user && k.suite == t[i].suite && t[i].consumed.None? && k.consumed.Some?
    ensures Count(t[i := k], user, suite, now, Claimed) ==
            Count(t, user, suite, now, Claimed) + if k.user == user && k.suite == suite then 1 else 0
  {
    var u := t[i := k];
    if i == |t| - 1 {
      assert u[..|t| - 1] == t[..|t| - 1];
    } else {
      assert u[..|t| - 1] == t[..|t| - 1][i := k];
      ClaimedUpdate(t[..|t| - 1], i, k, user, suite, now);
    }
  }

  lemma {:induction false} ClaimedAppend(t: Table, rows: Table, user: nat, suite: string, now: int)
    requires forall i :: 0 <= i < |rows| ==> rows[i].consumed.None?
    ensures Count(t + rows, user, suite, now, Claimed) == Count(t, user, suite, now, Claimed)
  {
    if rows == [] {
      assert t + rows == t;
    } else {
      assert (t + rows)[..|t + rows| - 1] == t + rows[..|rows| - 1];
      ClaimedAppend(t, rows[..|rows| - 1], user, suite, now);
    }
  }

  lemma {:induction false} ClaimedIgnoresClock(t: Table, user: nat, suite: string, now: int, later: int)
    ensures Count(t, user, suite, now, Claimed) == Count(t, user, suite, later, Claimed)
  {
    if t != [] { ClaimedIgnoresClock(t[..|t| - 1], user, suite, now, later); }
  }

  function NewlyPublished(a: Action, user: nat, suite: string): nat {
    if a.Publish? && 1 <= |a.packages| <= 100 && a.user == user && a.suite == suite then |a.packages| else 0
  }

  /** The step adds to the table what it publishes, and hands out as many packages as it claims. */
  ghost predicate Conserves(s: State, next: State, added: nat, user: nat, suite: string) {
    && Owned(next.table, user, suite) == Owned(s.table, user, suite) + added
    && Count(next.table, user, suite, 0, Claimed) + HandedTo(s.handed, user, suite)
       == Count(s.table, user, suite, 0, Claimed) + HandedTo(next.handed, user, suite)
  }

  lemma PublishConserves(s: State, a: Action, user: nat, suite: string)
    requires a.Publish?
    ensures Conserves(s, Do(s, a), NewlyPublished(a, user, suite), user, suite)
  {
    if Accepts(a) {
      OwnedAppend(s.table, Rows(a, s.clock), user, suite);
      ClaimedAppend(s.table, Rows(a, s.clock), user, suite, 0);
    }
  }

  lemma CommitConserves(s: State, t: TxId, user: nat, suite: string)
    requires LocksOk(s) && t in s.txs && s.txs[t].Locked?
    ensures Conserves(s, Do(s, Commit(t)), 0, user, suite)
  {
    var row := s.txs[t].row;
    var k := s.table[row].(consumed := Some(Claim(s.txs[t].who, s.clock)));
    OwnedUpdate(s.table, row, k, user, suite);
    ClaimedUpdate(s.table, row, k, user, suite, 0);
    assert Do(s, Commit(t)).handed[..|s.handed|] == s.handed;
  }

  lemma StepConserves(s: State, a: Action, user: nat, suite: string)
    requires LocksOk(s)
    ensures Conserves(s, Do(s, a), NewlyPublished(a, user, suite), user, suite)
  {
    if a.Publish? {
      PublishConserves(s, a, user, suite);
    } else if a.Commit? && a.tx in s.txs && s.txs[a.tx].Locked? {
      CommitConserves(s, a.tx, user, suite);
    } else {
      assert Do(s, a).table == s.table && Do(s, a).handed == s.handed;
    }
  }

  lemma {:induction false} RunConserves(clock: int, actions: seq<Action>, user: nat, suite: string)
    ensures var s := Run(Initial(clock), actions);
            && Owned(s.table, user, suite) == Published(actions, user, suite)
            && Count(s.table, user, suite, 0, Claimed) == HandedTo(s.handed, user, suite)
  {
    if actions != [] {
      var before := actions[..|actions| - 1];
      RunConserves(clock, before, user, suite);
      PackagesAreSingleUse(clock, before);
      StepConserves(Run(Initial(clock), before), actions[|actions| - 1], user, suite);
    }
  }

  /** For each user and suite, at all times: still available, handed out, and expired unclaimed
      add up to published. */
  lemma PoolIsConserved(clock: int, actions: seq<Action>, user: nat, suite: string)
    ensures var s := Run(Initial(clock), actions);
            && |ReadyRows(s.table, user, suite, s.clock)| + HandedTo(s.handed, user, suite) + |ExpiredRows(s.table, user, suite, s.clock)|
               == Published(actions, user, suite)
            && HandedTo(s.handed, user, suite) == |ClaimedRows(s.table, user, suite)|
  {
    var s := Run(Initial(clock), actions);
    RunConserves(clock, actions, user, suite);
    FatesPartition(s.table, user, suite, s.clock);
    ClaimedIgnoresClock(s.table, user, suite, 0, s.clock);
    ReadyMeans(s.table, user, suite, s.clock);
    ExpiredMeans(s.table, user, suite, s.clock);
    ClaimedMeans(s.table, user, suite, s.clock);
  }
}
