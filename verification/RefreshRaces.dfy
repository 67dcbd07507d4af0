/** Refresh-token rotation as its statements interleave: `rotate` reads, saves and inserts without a
    transaction around them. What then still holds, and exactly when the rest does. */
module RefreshRaces {
  import opened Wrappers
  import opened RefreshTokens

  /** A `rotate` between two of its statements. */
  datatype Flight =
    | Reading(row: nat, nextHash: string, now: int, expires: int)
    | Saved(row: nat, nextHash: string, expires: int)
    | Reused(user: nat, now: int)

  datatype State = State(table: Table, flights: map<nat, Flight>)

  datatype Action =
    | SignIn(user: nat, hash: string, expires: int)
    | Read(call: nat, hash: string, nextHash: string, now: int, expires: int)
    | Save(call: nat)
    | Issue(call: nat)
    | Sweep(call: nat)
    | Stop(call: nat)
    | SignOut(who: Target, now: int, reason: string)

  function InsertOr(t: Table, user: nat, hash: string, parent: Option<nat>, expires: int): Table {
    var r := Insert(t, user, hash, parent, expires);
    if r.Ok? then r.value else t
  }

  /** What the lookup decides. */
  function DoRead(s: State, a: Action): State
    requires a.Read?
  {
    if a.call in s.flights then s
    else match Find(s.table, a.hash)
      case None => s
      case Some(i) =>
        if s.table[i].revoked.Some? then s.(flights := s.flights[a.call := Reused(s.table[i].user, a.now)])
        else if s.table[i].expires < a.now then s
        else s.(flights := s.flights[a.call := Reading(i, a.nextHash, a.now, a.expires)])
  }

  /** The save marks the row whether or not somebody else revoked it meanwhile. */
  function DoSave(s: State, call: nat): State {
    if call !in s.flights || !s.flights[call].Reading? || s.flights[call].row >= |s.table| then s
    else
      var Reading(i, nextHash, now, expires) := s.flights[call];
      State(s.table[i := s.table[i].(revoked := Some(Revocation(now, "rotated")))], s.flights[call := Saved(i, nextHash, expires)])
  }

  function DoIssue(s: State, call: nat): State {
    if call !in s.flights || !s.flights[call].Saved? || s.flights[call].row >= |s.table| then s
    else
      var Saved(i, nextHash, expires) := s.flights[call];
      State(InsertOr(s.table, s.table[i].user, nextHash, Some(i), expires), s.flights - {call})
  }

  function DoSweep(s: State, call: nat): State {
    if call !in s.flights || !s.flights[call].Reused? then s
    else
      var Reused(user, now) := s.flights[call];
      State(RevokeRows(s.table, User(user), Revocation(now, "family_compromise")), s.flights - {call})
  }

  function Step(s: State, a: Action): State {
    match a
    case SignIn(user, hash, expires) => s.(table := InsertOr(s.table, user, hash, None, expires))
    case Read(_, _, _, _, _) => DoRead(s, a)
    case Save(call) => DoSave(s, call)
    case Issue(call) => DoIssue(s, call)
    case Sweep(call) => DoSweep(s, call)
    case Stop(call) => s.(flights := s.flights - {call})
    case SignOut(who, now, reason) => s.(table := RevokeRows(s.table, who, Revocation(now, reason)))
  }

  function Steps(s: State, actions: seq<Action>): State {
    if actions == [] then s else Step(Steps(s, actions[..|actions| - 1]), actions[|actions| - 1])
  }

  const START := State([], map[])

  /** Without interference, the statements of one call are the atomic rotation. */
  lemma AloneIsRotate(s: State, call: nat, hash: string, nextHash: string, now: int, expires: int)
    requires call !in s.flights
    ensures DoIssue(DoSweep(DoSave(DoRead(s, Read(call, hash, nextHash, now, expires)), call), call), call)
            == State(RotateCall(s.table, hash, nextHash, now, expires).0, s.flights)
  {
    var read := DoRead(s, Read(call, hash, nextHash, now, expires));
    if call in read.flights {
      assert read.flights - {call} == s.flights;
    } else {
      assert s.flights - {call} == s.flights;
    }
  }

  // ---- Rows never move ----

  lemma StepOnlyRevokes(s: State, a: Action)
    ensures |s.table| <= |Step(s, a).table|
    ensures forall i :: 0 <= i < |s.table| ==>
              && Step(s, a).table[i].user == s.table[i].user && Step(s, a).table[i].hash == s.table[i].hash
              && Step(s, a).table[i].parent == s.table[i].parent
              && (s.table[i].revoked.Some? ==> Step(s, a).table[i].revoked.Some?)
  {
  }

  /** A hash that is taken stays taken. */
  lemma StaysTaken(s: State, a: Action, hash: string)
    requires Find(s.table, hash).Some?
    ensures Find(Step(s, a).table, hash).Some?
  {
    StepOnlyRevokes(s, a);
    var i := Find(s.table, hash).value;
    assert Step(s, a).table[i].hash == hash;
  }

  // ---- A revoked token ----

  /** The call will insert a successor of row `i`, unless it stops. */
  predicate WillRotate(s: State, f: Flight, i: nat) {
    (f.Reading? || f.Saved?) && f.row == i && i < |s.table| && Find(s.table, f.nextHash).None?
  }

  predicate RotationPending(s: State, i: nat) {
    exists call :: call in s.flights && WillRotate(s, s.flights[call], i)
  }

  predicate HasSuccessorFrom(t: Table, i: nat, from: nat) {
    exists j :: from <= j < |t| && t[j].parent == Some(i)
  }

  ghost predicate Rotates(s: State, actions: seq<Action>, i: nat) {
    HasSuccessorFrom(Steps(s, actions).table, i, |s.table|)
  }

  lemma StepAddsSuccessor(s: State, a: Action, i: nat, from: nat)
    requires i < |s.table| && from <= |s.table| && s.table[i].revoked.Some? && !RotationPending(s, i)
    requires !HasSuccessorFrom(s.table, i, from)
    ensures !RotationPending(Step(s, a), i) && !HasSuccessorFrom(Step(s, a).table, i, from)
  {
    StepOnlyRevokes(s, a);
    forall call | call in Step(s, a).flights ensures !WillRotate(Step(s, a), Step(s, a).flights[call], i) {
      if call in s.flights {
        assert !WillRotate(s, s.flights[call], i);
        var f := s.flights[call];
        if (f.Reading? || f.Saved?) && Find(s.table, f.nextHash).Some? { StaysTaken(s, a, f.nextHash); }
      }
    }
    if a.Issue? && a.call in s.flights {
      assert !WillRotate(s, s.flights[a.call], i);
    }
  }

  lemma {:induction false} NoSuccessor(s: State, actions: seq<Action>, i: nat)
    requires i < |s.table| && s.table[i].revoked.Some? && !RotationPending(s, i)
    ensures var end := Steps(s, actions);
            && |s.table| <= |end.table| && end.table[i].revoked.Some?
            && !RotationPending(end, i) && !HasSuccessorFrom(end.table, i, |s.table|)
  {
    if actions != [] {
      var before, a := actions[..|actions| - 1], actions[|actions| - 1];
      NoSuccessor(s, before, i);
      StepOnlyRevokes(Steps(s, before), a);
      StepAddsSuccessor(Steps(s, before), a, i, |s.table|);
    }
  }

  lemma IssueRotates(s: State, call: nat, i: nat)
    requires call in s.flights && s.flights[call].Saved? && WillRotate(s, s.flights[call], i)
    ensures DoIssue(s, call).table == s.table + [Token(s.table[i].user, s.flights[call].nextHash, Some(i), s.flights[call].expires, None)]
  {
  }

  lemma SaveKeepsPending(s: State, call: nat, i: nat)
    requires call in s.flights && s.flights[call].Reading? && WillRotate(s, s.flights[call], i)
    ensures var next := DoSave(s, call);
            && call in next.flights && next.flights[call].Saved? && WillRotate(next, next.flights[call], i)
            && |next.table| == |s.table| && next.table[i].user == s.table[i].user
  {
    var next := DoSave(s, call);
    assert forall j :: 0 <= j < |s.table| ==> next.table[j].hash == s.table[j].hash;
  }

  /** What is left of a call in flight. */
  function Rest(s: State, call: nat): seq<Action>
    requires call in s.flights
  {
    if s.flights[call].Reading? then [Save(call), Issue(call)] else [Issue(call)]
  }

  lemma RestRotates(s: State, call: nat, i: nat)
    requires call in s.flights && WillRotate(s, s.flights[call], i)
    ensures var end := Steps(s, Rest(s, call)).table;
            |end| == |s.table| + 1 && end[|s.table|].parent == Some(i) && end[|s.table|].user == s.table[i].user && end[|s.table|].revoked.None?
  {
    var rest := Rest(s, call);
    if s.flights[call].Reading? {
      SaveKeepsPending(s, call, i);
      IssueRotates(DoSave(s, call), call, i);
      assert rest[..1] == [Save(call)] && rest[..1][..0] == [];
      assert Steps(s, rest[..1]) == DoSave(s, call);
    } else {
      IssueRotates(s, call, i);
      assert rest[..0] == [];
    }
  }

  /** A revoked token is never rotated again, however the calls go on, exactly if no rotation of it is in flight. */
  lemma RotatesAgainExactly(s: State, i: nat)
    requires i < |s.table| && s.table[i].revoked.Some?
    ensures (exists actions :: Rotates(s, actions, i)) <==> RotationPending(s, i)
  {
    if RotationPending(s, i) {
      var call :| call in s.flights && WillRotate(s, s.flights[call], i);
      RestRotates(s, call, i);
      assert Rotates(s, Rest(s, call), i);
    }
    forall actions | Rotates(s, actions, i) ensures RotationPending(s, i) {
      if !RotationPending(s, i) { NoSuccessor(s, actions, i); }
    }
  }

  // ---- A user without live tokens ----

  predicate UserPending(s: State, user: nat) {
    exists call :: call in s.flights && UserFlight(s, s.flights[call], user)
  }

  predicate UserFlight(s: State, f: Flight, user: nat) {
    !f.Reused? && WillRotate(s, f, f.row) && s.table[f.row].user == user
  }

  predicate SignsIn(actions: seq<Action>, user: nat) {
    exists i :: 0 <= i < |actions| && actions[i].SignIn? && actions[i].user == user
  }

  /** A rotation in flight was so before the step, or has just read a live row. */
  lemma FlightBefore(s: State, a: Action, call: nat)
    requires call in Step(s, a).flights && !Step(s, a).flights[call].Reused?
    ensures var f := Step(s, a).flights[call];
            || (call in s.flights && !s.flights[call].Reused? && s.flights[call].row == f.row && s.flights[call].nextHash == f.nextHash)
            || (f.row < |s.table| && s.table[f.row].revoked.None?)
  {
  }

  lemma NewRowsAreLive(s: State, a: Action, user: nat, i: nat)
    requires NoneLive(Step(s, a).table, user) && i < |Step(s, a).table| && Step(s, a).table[i].user == user
    ensures i < |s.table|
  {
  }

  lemma FreeBefore(s: State, a: Action, hash: string)
    requires Find(Step(s, a).table, hash).None?
    ensures Find(s.table, hash).None?
  {
    if Find(s.table, hash).Some? { StaysTaken(s, a, hash); }
  }

  lemma PendingBefore(s: State, a: Action, user: nat)
    requires NoneLive(s.table, user) && NoneLive(Step(s, a).table, user) && UserPending(Step(s, a), user)
    ensures UserPending(s, user)
  {
    StepOnlyRevokes(s, a);
    var next := Step(s, a);
    var call :| call in next.flights && UserFlight(next, next.flights[call], user);
    NewRowsAreLive(s, a, user, next.flights[call].row);
    FlightBefore(s, a, call);
    FreeBefore(s, a, next.flights[call].nextHash);
    assert UserFlight(s, s.flights[call], user);
  }

  lemma StepStaysDead(s: State, a: Action, user: nat)
    requires NoneLive(s.table, user) && !UserPending(s, user) && !(a.SignIn? && a.user == user)
    ensures NoneLive(Step(s, a).table, user)
  {
    StepOnlyRevokes(s, a);
    if a.Issue? && a.call in s.flights {
      assert !UserFlight(s, s.flights[a.call], user);
    }
  }

  lemma {:induction false} StaysDead(s: State, actions: seq<Action>, user: nat)
    requires NoneLive(s.table, user) && !UserPending(s, user) && !SignsIn(actions, user)
    ensures NoneLive(Steps(s, actions).table, user) && !UserPending(Steps(s, actions), user)
  {
    if actions != [] {
      var before, a := actions[..|actions| - 1], actions[|actions| - 1];
      assert forall i :: 0 <= i < |before| ==> before[i] == actions[i];
      StaysDead(s, before, user);
      StepStaysDead(Steps(s, before), a, user);
      if UserPending(Steps(s, actions), user) { PendingBefore(Steps(s, before), a, user); }
    }
  }

  ghost predicate ComesBack(s: State, actions: seq<Action>, user: nat) {
    !SignsIn(actions, user) && !NoneLive(Steps(s, actions).table, user)
  }

  /** A user without live tokens can get one back without signing in exactly if a rotation of theirs is in
      flight: reuse detection misses the calls that had read their token before it. */
  lemma ComesBackExactly(s: State, user: nat)
    requires NoneLive(s.table, user)
    ensures (exists actions :: ComesBack(s, actions, user)) <==> UserPending(s, user)
  {
    if UserPending(s, user) {
      var call :| call in s.flights && UserFlight(s, s.flights[call], user);
      RestRotates(s, call, s.flights[call].row);
      assert ComesBack(s, Rest(s, call), user);
    }
    forall actions | ComesBack(s, actions, user) ensures UserPending(s, user) {
      if !UserPending(s, user) { StaysDead(s, actions, user); }
    }
  }

  // ---- One rotation of a token at a time ----

  predicate OnRow(f: Flight, i: nat) { (f.Reading? || f.Saved?) && f.row == i }

  predicate Busy(s: State, i: nat) {
    exists call :: call in s.flights && OnRow(s.flights[call], i)
  }

  /** A call that finds a live token finds no other rotation of it in flight. */
  predicate Alone(s: State, a: Action) {
    a.Read? && Find(s.table, a.hash).Some? && s.table[Find(s.table, a.hash).value].revoked.None? ==>
      !Busy(s, Find(s.table, a.hash).value)
  }

  ghost predicate FlightOk(t: Table, f: Flight) {
    f.Reused? || (f.row < |t| && (f.Saved? ==> t[f.row].revoked.Some?) && forall j :: 0 <= j < |t| ==> t[j].parent != Some(f.row))
  }

  ghost predicate Orderly(s: State) {
    && Chains(s.table)
    && (forall call :: call in s.flights ==> FlightOk(s.table, s.flights[call]))
    && (forall c, d :: c in s.flights && d in s.flights && !s.flights[c].Reused? && !s.flights[d].Reused? && s.flights[c].row == s.flights[d].row ==> c == d)
  }

  lemma ReadOrderly(s: State, a: Action)
    requires Orderly(s) && Alone(s, a) && a.Read?
    ensures Orderly(Step(s, a))
  {
    var next := Step(s, a);
    if next != s && next.flights[a.call].Reading? {
      var i := next.flights[a.call].row;
      forall c | c in s.flights && !s.flights[c].Reused? ensures s.flights[c].row != i {
        assert !OnRow(s.flights[c], i);
      }
    }
  }

  lemma SaveOrderly(s: State, call: nat)
    requires Orderly(s)
    ensures Orderly(DoSave(s, call))
  {
    if DoSave(s, call) != s { RevokingKeepsChains(s.table, DoSave(s, call).table); }
  }

  lemma IssueOrderly(s: State, call: nat)
    requires Orderly(s)
    ensures Orderly(DoIssue(s, call))
  {
    var next := DoIssue(s, call);
    if next.table != s.table {
      AppendKeepsChains(s.table, next.table[|s.table|]);
    }
  }

  lemma OthersOrderly(s: State, a: Action)
    requires Orderly(s) && (a.SignIn? || a.Sweep? || a.Stop? || a.SignOut?)
    ensures Orderly(Step(s, a))
  {
    var next := Step(s, a);
    if a.SignIn? {
      if next.table != s.table { AppendKeepsChains(s.table, next.table[|s.table|]); }
    } else {
      RevokingKeepsChains(s.table, next.table);
    }
  }

  lemma StepOrderly(s: State, a: Action)
    requires Orderly(s) && Alone(s, a)
    ensures Orderly(Step(s, a))
  {
    match a
    case Read(_, _, _, _, _) => ReadOrderly(s, a);
    case Save(call) => SaveOrderly(s, call);
    case Issue(call) => IssueOrderly(s, call);
    case _ => OthersOrderly(s, a);
  }

  ghost predicate AlwaysAlone(actions: seq<Action>) {
    forall i :: 0 <= i < |actions| ==> Alone(Steps(START, actions[..i]), actions[i])
  }

  /** If no two rotations of one token are ever in flight together, every interleaving of the statements keeps
      the chains, so that each login has at most one live token, its newest, and each token one successor. */
  lemma {:induction false} AloneKeepsChains(actions: seq<Action>)
    requires AlwaysAlone(actions)
    ensures Orderly(Steps(START, actions))
  {
    if actions != [] {
      var before, a := actions[..|actions| - 1], actions[|actions| - 1];
      assert forall i :: 0 <= i < |before| ==> before[..i] == actions[..i] && before[i] == actions[i];
      AloneKeepsChains(before);
      assert Alone(Steps(START, actions[..|before|]), actions[|before|]);
      StepOrderly(Steps(START, before), a);
    }
  }

  lemma SaveKeepsOther(s: State, call: nat, other: nat, i: nat)
    requires call in s.flights && s.flights[call].Reading? && other in s.flights && other != call && WillRotate(s, s.flights[other], i)
    ensures var next := DoSave(s, call);
            other in next.flights && next.flights[other] == s.flights[other] && WillRotate(next, next.flights[other], i)
  {
    var next := DoSave(s, call);
    assert forall j :: 0 <= j < |s.table| ==> next.table[j].hash == s.table[j].hash;
  }

  lemma IssueKeepsOther(s: State, call: nat, other: nat, i: nat)
    requires call in s.flights && s.flights[call].Saved? && WillRotate(s, s.flights[call], i)
    requires other in s.flights && other != call && WillRotate(s, s.flights[other], i)
    requires s.flights[call].nextHash != s.flights[other].nextHash
    ensures var next := DoIssue(s, call);
            other in next.flights && next.flights[other] == s.flights[other] && WillRotate(next, next.flights[other], i)
  {
    IssueRotates(s, call, i);
    var next := DoIssue(s, call);
    assert forall j :: 0 <= j < |next.table| ==> next.table[j].hash != s.flights[other].nextHash;
  }

  function Fork(first: nat, second: nat): seq<Action> { [Save(first), Save(second), Issue(first), Issue(second)] }

  /** And that is needed: any two rotations of one token that are in flight together, with different new hashes
      and both before their saves, can be run to two live successors. */
  lemma TwoRotationsForkTheChain(s: State, first: nat, second: nat, i: nat)
    requires first in s.flights && s.flights[first].Reading? && WillRotate(s, s.flights[first], i)
    requires second in s.flights && s.flights[second].Reading? && WillRotate(s, s.flights[second], i)
    requires first != second && s.flights[first].nextHash != s.flights[second].nextHash
    ensures var end, n := Steps(s, Fork(first, second)).table, |s.table|;
            && |end| == n + 2 && end[n].parent == Some(i) && end[n + 1].parent == Some(i)
            && end[n].revoked.None? && end[n + 1].revoked.None? && !Chains(end)
  {
    SaveKeepsPending(s, first, i);
    SaveKeepsOther(s, first, second, i);
    var s1 := DoSave(s, first);
    SaveKeepsPending(s1, second, i);
    SaveKeepsOther(s1, second, first, i);
    var s2 := DoSave(s1, second);
    IssueRotates(s2, first, i);
    IssueKeepsOther(s2, first, second, i);
    var s3 := DoIssue(s2, first);
    IssueRotates(s3, second, i);
    ForkRuns(s, first, second);
  }

  lemma ForkRuns(s: State, first: nat, second: nat)
    ensures Steps(s, Fork(first, second)) == DoIssue(DoIssue(DoSave(DoSave(s, first), second), first), second)
  {
    var all := Fork(first, second);
    assert all[..1][..0] == [] && all[..2][..1] == all[..1] && all[..3][..2] == all[..2] && all[..4] == all;
    assert Steps(s, all[..1]) == DoSave(s, first);
    assert Steps(s, all[..2]) == DoSave(DoSave(s, first), second);
    assert Steps(s, all[..3]) == DoIssue(DoSave(DoSave(s, first), second), first);
  }
}
