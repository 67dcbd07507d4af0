/** Where committed rows come from: what each committing transaction was asked to do, and which
    committed tables it had read, under its lock, on the way. */
module MessageOrigins {
  import opened Wrappers
  import opened LocalKms
  import opened MessageStore
  import opened MessageLog
  import opened MessageGuarantees
  import opened MessageBodies
  import opened TableEffects

  /** The state before step `i` of a run. */
  function At(p: Primitives, ring: KeyRing, actions: seq<Action>, i: nat): State
    requires i <= |actions|
  {
    Reach(p, ring, actions[..i])
  }

  predicate LockedBy(s: State, t: TxId, c: Uuid) { c in s.locks && s.locks[c] == t }

  /** `t` has held the row lock of `c` from step `i` to the end. */
  ghost predicate HeldSince(p: Primitives, ring: KeyRing, actions: seq<Action>, i: nat, t: TxId, c: Uuid) {
    forall j: nat :: i <= j <= |actions| ==> LockedBy(At(p, ring, actions, j), t, c)
  }

  // ---- What a transaction under way has behind it ----

  /** Step `i` is the call that made this request. */
  predicate Asks(actions: seq<Action>, i: nat, t: TxId, req: SendRequest) {
    && i < |actions| && actions[i].BeginSend? && actions[i].tx == t
    && actions[i].conv == req.conv && actions[i].sender == req.sender && actions[i].key == req.key && actions[i].text == req.text
    && req.status == if actions[i].flagged then Flagged else Sent
  }

  /** At step `i` the sender was found to be a member, under the lock that is still held. */
  ghost predicate FindsMember(p: Primitives, ring: KeyRing, actions: seq<Action>, i: nat, t: TxId, req: SendRequest) {
    && i < |actions| && actions[i] == CheckMember(t)
    && HeldSince(p, ring, actions, i, t, req.conv)
    && var parts := At(p, ring, actions, i).db.parts; (req.conv, req.sender) in parts && !parts[(req.conv, req.sender)].left
  }

  /** At step `i` the receivers were read, under the lock that is still held. */
  ghost predicate FindsReaders(p: Primitives, ring: KeyRing, actions: seq<Action>, i: nat, t: TxId, req: SendRequest, got: Receivers) {
    && i < |actions| && actions[i] == InsertReceipts(t) && HeldSince(p, ring, actions, i, t, req.conv)
    && got == ReceiversIn(At(p, ring, actions, i).db, req)
  }

  /** At step `i` the subquery saw `seen` messages. */
  ghost predicate FindsRows(p: Primitives, ring: KeyRing, actions: seq<Action>, i: nat, t: TxId, tx: Tx)
    requires tx.Marking?
  {
    && i < |actions| && actions[i] == BeginMarkRead(t, tx.conv, tx.user, tx.upto)
    && tx.conv in At(p, ring, actions, i).db.log && |At(p, ring, actions, i).db.log[tx.conv]| == tx.seen
  }

  /** The stages after the membership check that still hold the lock. */
  predicate Checked(tx: Tx) {
    tx.Member? || tx.Fresh? || tx.Inserted? || tx.Receipted? || tx.Queued? || tx.Bumped?
  }

  function ReceiversOf(tx: Tx): Option<Receivers> {
    match tx
    case Receipted(_, _, _, readers, recipients) => Some(Receivers(readers, recipients))
    case Queued(_, _, _, readers, event) => if event.Created? then Some(Receivers(readers, event.recipients)) else None
    case Bumped(_, _, _, readers, event, _) => if event.Created? then Some(Receivers(readers, event.recipients)) else None
    case _ => None
  }

  ghost predicate Asked(actions: seq<Action>, t: TxId, req: SendRequest) {
    exists i: nat :: Asks(actions, i, t, req)
  }

  ghost predicate FoundMember(p: Primitives, ring: KeyRing, actions: seq<Action>, t: TxId, req: SendRequest) {
    exists i: nat :: FindsMember(p, ring, actions, i, t, req)
  }

  ghost predicate FoundReaders(p: Primitives, ring: KeyRing, actions: seq<Action>, t: TxId, req: SendRequest, got: Receivers) {
    exists i: nat :: FindsReaders(p, ring, actions, i, t, req, got)
  }

  ghost predicate FoundRows(p: Primitives, ring: KeyRing, actions: seq<Action>, t: TxId, tx: Tx)
    requires tx.Marking?
  {
    exists i: nat :: FindsRows(p, ring, actions, i, t, tx)
  }

  ghost predicate Traced(p: Primitives, ring: KeyRing, actions: seq<Action>, t: TxId, tx: Tx) {
    && (RequestOf(tx).Some? ==> Asked(actions, t, RequestOf(tx).value))
    && (Checked(tx) ==> FoundMember(p, ring, actions, t, tx.req))
    && (ReceiversOf(tx).Some? ==> FoundReaders(p, ring, actions, t, tx.req, ReceiversOf(tx).value))
    && (tx.Marking? ==> FoundRows(p, ring, actions, t, tx))
  }

  // ---- One step further ----

  lemma Earlier(p: Primitives, ring: KeyRing, before: seq<Action>, a: Action, i: nat)
    requires i <= |before|
    ensures At(p, ring, before + [a], i) == At(p, ring, before, i)
  {
    assert (before + [a])[..i] == before[..i];
  }

  lemma Last(p: Primitives, ring: KeyRing, before: seq<Action>, a: Action)
    ensures At(p, ring, before + [a], |before|) == Reach(p, ring, before)
    ensures At(p, ring, before + [a], |before| + 1) == Do(p, Reach(p, ring, before), a)
  {
    assert (before + [a])[..|before|] == before && (before + [a])[..|before| + 1] == before + [a];
  }

  lemma HeldLonger(p: Primitives, ring: KeyRing, before: seq<Action>, a: Action, i: nat, t: TxId, c: Uuid)
    requires i <= |before| && HeldSince(p, ring, before, i, t, c) && LockedBy(Do(p, Reach(p, ring, before), a), t, c)
    ensures HeldSince(p, ring, before + [a], i, t, c)
  {
    forall j: nat | i <= j <= |before + [a]| ensures LockedBy(At(p, ring, before + [a], j), t, c) {
      if j <= |before| { Earlier(p, ring, before, a, j); } else { Last(p, ring, before, a); }
    }
  }

  /** A stage after the check keeps the lock. */
  lemma CheckedHolds(s: State, t: TxId)
    requires Inv(s) && t in s.txs && (Checked(s.txs[t]) || s.txs[t].Locked?)
    ensures LockedBy(s, t, s.txs[t].req.conv)
  {
    assert TxOk(s, t, s.txs[t]);
  }

  lemma AskedLater(before: seq<Action>, a: Action, t: TxId, req: SendRequest)
    requires Asked(before, t, req)
    ensures Asked(before + [a], t, req)
  {
    var i: nat :| Asks(before, i, t, req);
    assert Asks(before + [a], i, t, req);
  }

  lemma MemberLater(p: Primitives, ring: KeyRing, before: seq<Action>, a: Action, t: TxId, req: SendRequest)
    requires FoundMember(p, ring, before, t, req) && LockedBy(Do(p, Reach(p, ring, before), a), t, req.conv)
    ensures FoundMember(p, ring, before + [a], t, req)
  {
    var i: nat :| FindsMember(p, ring, before, i, t, req);
    Earlier(p, ring, before, a, i);
    HeldLonger(p, ring, before, a, i, t, req.conv);
    assert FindsMember(p, ring, before + [a], i, t, req);
  }

  lemma ReadersLater(p: Primitives, ring: KeyRing, before: seq<Action>, a: Action, t: TxId, req: SendRequest, got: Receivers)
    requires FoundReaders(p, ring, before, t, req, got) && LockedBy(Do(p, Reach(p, ring, before), a), t, req.conv)
    ensures FoundReaders(p, ring, before + [a], t, req, got)
  {
    var i: nat :| FindsReaders(p, ring, before, i, t, req, got);
    Earlier(p, ring, before, a, i);
    HeldLonger(p, ring, before, a, i, t, req.conv);
    assert FindsReaders(p, ring, before + [a], i, t, req, got);
  }

  lemma RowsLater(p: Primitives, ring: KeyRing, before: seq<Action>, a: Action, t: TxId, tx: Tx)
    requires tx.Marking? && FoundRows(p, ring, before, t, tx)
    ensures FoundRows(p, ring, before + [a], t, tx)
  {
    var i: nat :| FindsRows(p, ring, before, i, t, tx);
    Earlier(p, ring, before, a, i);
    assert FindsRows(p, ring, before + [a], i, t, tx);
  }

  // ---- Where each stage gets what it has ----

  lemma RequestStep(p: Primitives, s: State, a: Action, t: TxId)
    requires Inv(s) && Actor(a) == Some(t) && t in Do(p, s, a).txs && RequestOf(Do(p, s, a).txs[t]).Some?
    ensures var req := RequestOf(Do(p, s, a).txs[t]).value;
            (t in s.txs && RequestOf(s.txs[t]) == Some(req)) || Asks([a], 0, t, req)
  {
    if t in s.txs {
      ActorKeepsRequest(p, s, a, t);
    } else {
      NewTransaction(p, s, a, t);
    }
  }

  /** Any other step of a transaction leaves it, ends it, or puts it where it has checked nothing. */
  lemma OtherStepAdvances(p: Primitives, s: State, a: Action, t: TxId)
    requires Actor(a) == Some(t) && !IsSendStep(a) && t in Do(p, s, a).txs
    ensures var next := Do(p, s, a).txs[t];
            || (t in s.txs && next == s.txs[t])
            || next.Waiting? || next.Enabling? || next.Grouped? || next.FlagSet?
            || (next.Marking? && a == BeginMarkRead(t, next.conv, next.user, next.upto) && next.conv in s.db.log && next.seen == |s.db.log[next.conv]|)
  {
  }

  // ---- Every transaction under way, in every run ----

  lemma JustHeld(p: Primitives, ring: KeyRing, before: seq<Action>, a: Action, t: TxId, c: Uuid)
    requires LockedBy(Reach(p, ring, before), t, c) && LockedBy(Do(p, Reach(p, ring, before), a), t, c)
    ensures HeldSince(p, ring, before + [a], |before|, t, c)
  {
    Last(p, ring, before, a);
    forall j: nat | |before| <= j <= |before + [a]| ensures LockedBy(At(p, ring, before + [a], j), t, c) {
      assert j == |before| || j == |before| + 1;
    }
  }

  lemma SameTraced(p: Primitives, ring: KeyRing, before: seq<Action>, a: Action, t: TxId, tx: Tx)
    requires Traced(p, ring, before, t, tx) && Inv(Do(p, Reach(p, ring, before), a))
    requires t in Do(p, Reach(p, ring, before), a).txs && Do(p, Reach(p, ring, before), a).txs[t] == tx
    ensures Traced(p, ring, before + [a], t, tx)
  {
    var next := Do(p, Reach(p, ring, before), a);
    if RequestOf(tx).Some? { AskedLater(before, a, t, RequestOf(tx).value); }
    if Checked(tx) {
      CheckedHolds(next, t);
      MemberLater(p, ring, before, a, t, tx.req);
    }
    if ReceiversOf(tx).Some? { ReadersLater(p, ring, before, a, t, tx.req, ReceiversOf(tx).value); }
    if tx.Marking? { RowsLater(p, ring, before, a, t, tx); }
  }

  lemma NowMember(p: Primitives, ring: KeyRing, before: seq<Action>, t: TxId, tx: Tx)
    requires var s, a := Reach(p, ring, before), CheckMember(t);
             && Inv(s) && Inv(Do(p, s, a)) && t in s.txs && t in Do(p, s, a).txs
             && Do(p, s, a).txs[t] == tx && Advances(s, a, s.txs[t], tx)
    ensures FoundMember(p, ring, before + [CheckMember(t)], t, tx.req)
  {
    var s, a := Reach(p, ring, before), CheckMember(t);
    CheckedHolds(s, t);
    CheckedHolds(Do(p, s, a), t);
    JustHeld(p, ring, before, a, t, tx.req.conv);
    Last(p, ring, before, a);
    assert FindsMember(p, ring, before + [a], |before|, t, tx.req);
  }

  lemma NowReaders(p: Primitives, ring: KeyRing, before: seq<Action>, t: TxId, tx: Tx)
    requires var s, a := Reach(p, ring, before), InsertReceipts(t);
             && Inv(s) && Inv(Do(p, s, a)) && t in s.txs && t in Do(p, s, a).txs
             && Do(p, s, a).txs[t] == tx && Advances(s, a, s.txs[t], tx)
    ensures ReceiversOf(tx).Some? && FoundReaders(p, ring, before + [InsertReceipts(t)], t, tx.req, ReceiversOf(tx).value)
  {
    var s, a := Reach(p, ring, before), InsertReceipts(t);
    CheckedHolds(s, t);
    CheckedHolds(Do(p, s, a), t);
    JustHeld(p, ring, before, a, t, tx.req.conv);
    Last(p, ring, before, a);
    assert FindsReaders(p, ring, before + [a], |before|, t, tx.req, ReceiversOf(tx).value);
  }

  lemma SendStepMember(p: Primitives, ring: KeyRing, before: seq<Action>, a: Action, t: TxId, tx: Tx)
    requires var s := Reach(p, ring, before);
             && Inv(s) && Inv(Do(p, s, a)) && t in s.txs && Traced(p, ring, before, t, s.txs[t])
             && IsSendStep(a) && a.tx == t && t in Do(p, s, a).txs
             && Do(p, s, a).txs[t] == tx && Advances(s, a, s.txs[t], tx)
    ensures Checked(tx) ==> FoundMember(p, ring, before + [a], t, tx.req)
  {
    if a.CheckMember? {
      NowMember(p, ring, before, t, tx);
    } else if Checked(tx) {
      CheckedHolds(Do(p, Reach(p, ring, before), a), t);
      MemberLater(p, ring, before, a, t, tx.req);
    }
  }

  lemma ReceiversStay(s: State, a: Action, tx: Tx, next: Tx)
    requires Advances(s, a, tx, next) && !a.InsertReceipts? && ReceiversOf(next).Some?
    ensures ReceiversOf(tx) == ReceiversOf(next) && Checked(tx) && Checked(next) && tx.req == next.req
  {
  }

  lemma SendStepReaders(p: Primitives, ring: KeyRing, before: seq<Action>, a: Action, t: TxId, tx: Tx)
    requires var s := Reach(p, ring, before);
             && Inv(s) && Inv(Do(p, s, a)) && t in s.txs && Traced(p, ring, before, t, s.txs[t])
             && IsSendStep(a) && a.tx == t && t in Do(p, s, a).txs
             && Do(p, s, a).txs[t] == tx && Advances(s, a, s.txs[t], tx)
    ensures ReceiversOf(tx).Some? ==> FoundReaders(p, ring, before + [a], t, tx.req, ReceiversOf(tx).value)
  {
    if a.InsertReceipts? {
      NowReaders(p, ring, before, t, tx);
    } else if ReceiversOf(tx).Some? {
      ReceiversStay(Reach(p, ring, before), a, Reach(p, ring, before).txs[t], tx);
      CheckedHolds(Do(p, Reach(p, ring, before), a), t);
      ReadersLater(p, ring, before, a, t, tx.req, ReceiversOf(tx).value);
    }
  }

  lemma SendStepAsked(before: seq<Action>, s: State, a: Action, t: TxId, tx: Tx, next: Tx)
    requires (RequestOf(tx).Some? ==> Asked(before, t, RequestOf(tx).value)) && IsSendStep(a) && Advances(s, a, tx, next)
    ensures RequestOf(next).Some? && Asked(before + [a], t, RequestOf(next).value) && !next.Marking?
  {
    AskedLater(before, a, t, next.req);
  }

  lemma NewMark(p: Primitives, ring: KeyRing, before: seq<Action>, t: TxId, tx: Tx)
    requires tx.Marking? && tx.conv in Reach(p, ring, before).db.log && tx.seen == |Reach(p, ring, before).db.log[tx.conv]|
    ensures FoundRows(p, ring, before + [BeginMarkRead(t, tx.conv, tx.user, tx.upto)], t, tx)
  {
    var a := BeginMarkRead(t, tx.conv, tx.user, tx.upto);
    Last(p, ring, before, a);
    assert FindsRows(p, ring, before + [a], |before|, t, tx);
  }

  lemma WaitingAsked(p: Primitives, ring: KeyRing, before: seq<Action>, s: State, a: Action, t: TxId, req: SendRequest)
    requires Inv(s) && Actor(a) == Some(t) && t in Do(p, s, a).txs && Do(p, s, a).txs[t] == Waiting(req)
    requires t in s.txs && RequestOf(s.txs[t]).Some? ==> Asked(before, t, RequestOf(s.txs[t]).value)
    ensures Asked(before + [a], t, req)
  {
    RequestStep(p, s, a, t);
    if t in s.txs && RequestOf(s.txs[t]) == Some(req) {
      AskedLater(before, a, t, req);
    } else {
      assert Asks(before + [a], |before|, t, req);
    }
  }

  lemma OtherStepTraced(p: Primitives, ring: KeyRing, before: seq<Action>, s: State, a: Action, t: TxId, tx: Tx)
    requires s == Reach(p, ring, before) && Inv(s) && (t in s.txs ==> Traced(p, ring, before, t, s.txs[t]))
    requires !IsSendStep(a) && Actor(a) == Some(t) && t in Do(p, s, a).txs && Do(p, s, a).txs[t] == tx
    requires t in s.txs ==> tx != s.txs[t]
    ensures Traced(p, ring, before + [a], t, tx)
  {
    OtherStepAdvances(p, s, a, t);
    if tx.Waiting? {
      WaitingAsked(p, ring, before, s, a, t, tx.req);
    } else if tx.Marking? {
      NewMark(p, ring, before, t, tx);
    }
  }

  lemma StepTraced(p: Primitives, ring: KeyRing, before: seq<Action>, a: Action, t: TxId)
    requires var s := Reach(p, ring, before);
             && Inv(s) && Inv(Do(p, s, a)) && (t in s.txs ==> Traced(p, ring, before, t, s.txs[t])) && t in Do(p, s, a).txs
    ensures Traced(p, ring, before + [a], t, Do(p, Reach(p, ring, before), a).txs[t])
  {
    var s := Reach(p, ring, before);
    var tx := Do(p, s, a).txs[t];
    if Actor(a) != Some(t) {
      StepMovesActor(p, s, a, if Actor(a).Some? then Actor(a).value else t + 1);
      SameTraced(p, ring, before, a, t, tx);
    } else if t in s.txs && tx == s.txs[t] {
      SameTraced(p, ring, before, a, t, tx);
    } else if !IsSendStep(a) {
      OtherStepTraced(p, ring, before, s, a, t, tx);
    } else {
      if t !in s.txs { SendStepNeedsTransaction(p, s, a); }
      SendStepAdvances(p, s, a, t);
      SendStepAsked(before, s, a, t, s.txs[t], tx);
      SendStepMember(p, ring, before, a, t, tx);
      SendStepReaders(p, ring, before, a, t, tx);
    }
  }

  /** In every run, every transaction under way acts for a call that was made, and what it has checked and
      read it found in the committed tables, under the lock that it still holds. */
  lemma {:induction false} RunIsTraced(p: Primitives, ring: KeyRing, actions: seq<Action>)
    ensures var s := Reach(p, ring, actions); forall t :: t in s.txs ==> Traced(p, ring, actions, t, s.txs[t])
  {
    if actions != [] {
      var before, a := actions[..|actions| - 1], actions[|actions| - 1];
      assert actions == before + [a];
      RunIsTraced(p, ring, before);
      ReachOk(p, ring, before);
      ReachOk(p, ring, actions);
      var s := Reach(p, ring, before);
      forall t | t in Do(p, s, a).txs ensures Traced(p, ring, actions, t, Do(p, s, a).txs[t]) {
        StepTraced(p, ring, before, a, t);
      }
    }
  }

  // ---- What commits ----

  /** Every send that commits was asked for, found its sender to be a member, and took its receipts and
      recipients from the members of the conversation, all in committed tables and without letting go of
      the row lock from then to its commit, which adds its row, receipts and event and nothing else. */
  lemma CommittedSend(p: Primitives, ring: KeyRing, actions: seq<Action>, t: TxId, req: SendRequest, id: Uuid, readers: set<Uuid>, recipients: set<Uuid>)
    requires OpOf(Reach(p, ring, actions), Commit(t)) == Some(SendOp(req, id, readers, recipients))
    ensures Asked(actions, t, req) && FoundMember(p, ring, actions, t, req)
    ensures FoundReaders(p, ring, actions, t, req, Receivers(readers, recipients))
    ensures Delivers(Reach(p, ring, actions).db, Do(p, Reach(p, ring, actions), Commit(t)).db, req, id, readers, recipients)
  {
    RunIsTraced(p, ring, actions);
    ReachOk(p, ring, actions);
    var s := Reach(p, ring, actions);
    assert Traced(p, ring, actions, t, s.txs[t]);
    CommitRefines(s, t);
    SendDelivers(s.db, SendOp(req, id, readers, recipients));
  }

  /** Every `markRead` that commits does what its subquery found: exactly the receipts of the user for messages
      up to the sequence that were committed when it ran become read, and its position and event are set. */
  lemma CommittedMark(p: Primitives, ring: KeyRing, actions: seq<Action>, t: TxId, c: Uuid, user: Uuid, upto: int, seen: nat)
    requires OpOf(Reach(p, ring, actions), Commit(t)) == Some(MarkOp(c, user, upto, seen))
    ensures exists i: nat :: Found(p, ring, actions, i, t, c, user, upto, seen)
    ensures var db, after := Reach(p, ring, actions).db, Do(p, Reach(p, ring, actions), Commit(t)).db;
            && c in db.log && seen <= |db.log[c]|
            && MarksReceipts(db, after, c, user, upto, seen) && MovesPosition(db, after, c, user, upto) && after.log == db.log
  {
    RunIsTraced(p, ring, actions);
    ReachOk(p, ring, actions);
    var s := Reach(p, ring, actions);
    assert Traced(p, ring, actions, t, s.txs[t]);
    var i: nat :| FindsRows(p, ring, actions, i, t, s.txs[t]);
    assert Found(p, ring, actions, i, t, c, user, upto, seen);
    CommitRefines(s, t);
    MarkReads(s.db, MarkOp(c, user, upto, seen));
  }

  /** A soft delete, a hide or an anonymise rewrites exactly the rows that it names, and changes no other table. */
  lemma CommittedEdit(p: Primitives, s: State, e: Edit)
    ensures var after := Do(p, s, EditMessages(e)).db;
            RewritesRows(e, s.db.log, after.log) && after == s.db.(log := after.log)
  {
    EditRewrites(e, s.db.log);
  }

  /** A hidden row is shown as the moderation notice, a deleted one as nothing. */
  lemma HiddenAndDeletedShow(open: Opener, m: Message)
    ensures m.status == Hidden ==> ToDecrypted(open, m) == Ok("[Message masqué par la modération]")
    ensures m.status == Deleted ==> ToDecrypted(open, m) == Ok("")
  {
  }

  /** Step `i` is the call, and its subquery saw the first `seen` messages. */
  ghost predicate Found(p: Primitives, ring: KeyRing, actions: seq<Action>, i: nat, t: TxId, c: Uuid, user: Uuid, upto: int, seen: nat) {
    && i < |actions| && actions[i] == BeginMarkRead(t, c, user, upto)
    && c in At(p, ring, actions, i).db.log && |At(p, ring, actions, i).db.log[c]| == seen
  }

  // ---- Rows ----

  type Drawn = map<Uuid, TxId>

  /** Step `i` is the call of transaction `t` that sent this row, with the text of its creation event. */
  predicate Sends(actions: seq<Action>, i: nat, t: TxId, c: Uuid, m: Message, text: string) {
    && i < |actions| && actions[i].BeginSend? && actions[i].tx == t && actions[i].conv == c
    && actions[i].sender == m.sender && actions[i].key == m.key && actions[i].text == text
    && (m.status == Hidden || m.status == Deleted || m.status == if actions[i].flagged then Flagged else Status.Sent)
  }

  /** The transaction that drew the row's id was asked to send it. */
  ghost predicate WasSent(actions: seq<Action>, drawn: Drawn, c: Uuid, m: Message, text: string) {
    m.id in drawn && exists i: nat :: Sends(actions, i, drawn[m.id], c, m, text)
  }

  ghost predicate RowsSent(actions: seq<Action>, drawn: Drawn, db: Store) {
    forall c, k :: c in db.log && 0 <= k < |db.log[c]| && k < |CreatedIn(db.outbox, c)| ==>
      WasSent(actions, drawn, c, db.log[c][k], CreatedIn(db.outbox, c)[k].text)
  }

  ghost predicate DrawnGrows(before: Drawn, after: Drawn) {
    forall id :: id in before ==> id in after && after[id] == before[id]
  }

  lemma SentLater(actions: seq<Action>, a: Action, drawn: Drawn, after: Drawn, c: Uuid, m: Message, n: Message, text: string)
    requires WasSent(actions, drawn, c, m, text) && DrawnGrows(drawn, after)
    requires m.id == n.id && m.sender == n.sender && m.key == n.key && (n.status == m.status || n.status == Hidden || n.status == Deleted)
    ensures WasSent(actions + [a], after, c, n, text)
  {
    var i: nat :| Sends(actions, i, drawn[m.id], c, m, text);
    assert Sends(actions + [a], i, after[n.id], c, n, text);
  }

  lemma AskedIsSent(actions: seq<Action>, a: Action, t: TxId, drawn: Drawn, req: SendRequest, id: Uuid, seqNo: nat)
    requires Asked(actions, t, req) && id in drawn && drawn[id] == t
    ensures WasSent(actions + [a], drawn, req.conv, MessageOf(req, id, seqNo), req.text)
  {
    var i: nat :| Asks(actions, i, t, req);
    assert Sends(actions + [a], i, t, req.conv, MessageOf(req, id, seqNo), req.text);
  }

  lemma OtherOpRows(db: Store, op: Op, c: Uuid)
    requires Legal(db, op) && Numbered(db) && !op.SendOp? && c in Apply(db, op).log && Apply(db, op).log[c] != []
    ensures c in db.log && Grown(db.log[c], Apply(db, op).log[c]) && |Apply(db, op).log[c]| == |db.log[c]|
    ensures CreatedIn(Apply(db, op).outbox, c) == CreatedIn(db.outbox, c)
  {
    if c in db.log { ApplyGrows(db, op, c); }
    if op.MarkOp? { OutboxGrows(db.outbox, ReadUpTo(op.conv, op.user, op.upto)); }
  }

  lemma OtherOpSent(actions: seq<Action>, a: Action, drawn: Drawn, after: Drawn, db: Store, op: Op)
    requires RowsSent(actions, drawn, db) && DrawnGrows(drawn, after) && Legal(db, op) && Numbered(db) && !op.SendOp?
    ensures RowsSent(actions + [a], after, Apply(db, op))
  {
    var end := Apply(db, op);
    forall c, k | c in end.log && 0 <= k < |end.log[c]| && k < |CreatedIn(end.outbox, c)|
      ensures WasSent(actions + [a], after, c, end.log[c][k], CreatedIn(end.outbox, c)[k].text)
    {
      OtherOpRows(db, op, c);
      SentLater(actions, a, drawn, after, c, db.log[c][k], end.log[c][k], CreatedIn(db.outbox, c)[k].text);
    }
  }

  lemma SendOpSent(actions: seq<Action>, a: Action, t: TxId, drawn: Drawn, after: Drawn, db: Store, op: Op)
    requires RowsSent(actions, drawn, db) && DrawnGrows(drawn, after) && Legal(db, op) && Numbered(db) && EventsMatch(db)
    requires op.SendOp? && Asked(actions, t, op.req) && op.id in after && after[op.id] == t
    ensures RowsSent(actions + [a], after, Apply(db, op))
  {
    var end := Apply(db, op);
    forall c, k | c in end.log && 0 <= k < |end.log[c]| && k < |CreatedIn(end.outbox, c)|
      ensures WasSent(actions + [a], after, c, end.log[c][k], CreatedIn(end.outbox, c)[k].text)
    {
      SendOpRow(db, op, c, k);
      if k < |db.log[c]| {
        SentLater(actions, a, drawn, after, c, db.log[c][k], end.log[c][k], CreatedIn(db.outbox, c)[k].text);
      } else {
        AskedIsSent(actions, a, t, after, op.req, op.id, db.convs[c].lastSeq + 1);
      }
    }
  }

  lemma SameDbSent(actions: seq<Action>, a: Action, drawn: Drawn, after: Drawn, db: Store)
    requires RowsSent(actions, drawn, db) && DrawnGrows(drawn, after)
    ensures RowsSent(actions + [a], after, db)
  {
    forall c, k | c in db.log && 0 <= k < |db.log[c]| && k < |CreatedIn(db.outbox, c)|
      ensures WasSent(actions + [a], after, c, db.log[c][k], CreatedIn(db.outbox, c)[k].text)
    {
      SentLater(actions, a, drawn, after, c, db.log[c][k], db.log[c][k], CreatedIn(db.outbox, c)[k].text);
    }
  }

  lemma StepDraws(p: Primitives, s: State, a: Action)
    ensures DrawnGrows(s.drawn, Do(p, s, a).drawn)
  {
    StepMovesActor(p, s, a, if Actor(a).Some? then Actor(a).value else 0);
  }

  /** A committing send's message has an id that it drew itself. */
  lemma CommitDrew(s: State, a: Action)
    requires Inv(s) && OpOf(s, a).Some? && OpOf(s, a).value.SendOp?
    ensures a.Commit? && OpOf(s, a).value.id in s.drawn && s.drawn[OpOf(s, a).value.id] == a.tx
  {
    assert TxOk(s, a.tx, s.txs[a.tx]);
  }

  lemma StepRowsSent(p: Primitives, ring: KeyRing, before: seq<Action>, s: State, a: Action, after: Drawn)
    requires s == Reach(p, ring, before) && Inv(s) && RowsSent(before, s.drawn, s.db) && DrawnGrows(s.drawn, after)
    requires OpOf(s, a).Some? ==> Legal(s.db, OpOf(s, a).value)
    ensures RowsSent(before + [a], after, if OpOf(s, a).Some? then Apply(s.db, OpOf(s, a).value) else s.db)
  {
    if OpOf(s, a).None? {
      SameDbSent(before, a, s.drawn, after, s.db);
    } else if OpOf(s, a).value.SendOp? {
      var op := OpOf(s, a).value;
      CommitDrew(s, a);
      CommittedSend(p, ring, before, a.tx, op.req, op.id, op.readers, op.recipients);
      SendOpSent(before, a, a.tx, s.drawn, after, s.db, op);
    } else {
      OtherOpSent(before, a, s.drawn, after, s.db, OpOf(s, a).value);
    }
  }

  lemma {:induction false} RunRowsSent(p: Primitives, ring: KeyRing, actions: seq<Action>)
    ensures RowsSent(actions, Reach(p, ring, actions).drawn, Reach(p, ring, actions).db)
  {
    if actions != [] {
      var before, a := actions[..|actions| - 1], actions[|actions| - 1];
      assert actions == before + [a];
      RunRowsSent(p, ring, before);
      ReachOk(p, ring, before);
      var s := Reach(p, ring, before);
      StepRefines(p, s, a);
      StepDraws(p, s, a);
      StepRowsSent(p, ring, before, s, a, Do(p, s, a).drawn);
    }
  }

  /** In every run, an undeleted message is shown with the text of the one call that created it, made to that
      conversation by its sender with its key, whether or not the body was encrypted and whatever keys were
      added since; a hidden one is shown with the moderation notice. */
  lemma ListedTextWasSent(p: Primitives, ring: KeyRing, actions: seq<Action>, c: Uuid, k: nat)
    requires Lawful(p) && WellFormed(ring)
    requires var db := Reach(p, ring, actions).db; c in db.log && k < |db.log[c]| && db.log[c][k].deletedAt.None?
    ensures var s := Reach(p, ring, actions);
            var m := s.db.log[c][k];
            && m.id in s.drawn
            && exists i: nat ::
                 && i < |actions| && actions[i].BeginSend? && Sends(actions, i, s.drawn[m.id], c, m, actions[i].text)
                 && ToDecrypted(OpenerOf(p, s.ring), m) == Ok(if m.status == Hidden then MASK else actions[i].text)
  {
    ListedTextIsSentText(p, ring, actions, c, k);
    RunRowsSent(p, ring, actions);
    var s := Reach(p, ring, actions);
    var m, text := s.db.log[c][k], CreatedIn(s.db.outbox, c)[k].text;
    assert WasSent(actions, s.drawn, c, m, text);
    var i: nat :| Sends(actions, i, s.drawn[m.id], c, m, text);
    assert Sends(actions, i, s.drawn[m.id], c, m, actions[i].text);
  }
}
