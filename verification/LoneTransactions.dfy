/** A transaction on its own, from its call to its commit: what it decides, and that it gets there. */
module LoneTransactions {
  import opened Wrappers
  import opened LocalKms
  import opened MessageStore
  import opened MessageLog
  import opened TableEffects
  import EnvelopeCrypto

  // ---- A send on its own ----

  /** The statements of one send up to the membership check, with nothing in between. */
  function Checking(p: Primitives, s: State, a: Action): State
    requires a.BeginSend?
  {
    DoCheckMember(DoTakeLock(DoBeginSend(p, s, a), a.tx), a.tx)
  }

  /** Its writes and the commit, with nothing in between. */
  function Closing(s: State, t: TxId, id: Uuid): State {
    DoCommit(DoBump(DoQueue(DoReceipts(DoInsert(s, t, id), t), t), t), t)
  }

  /** A whole send, from its call to its commit. */
  function LoneSend(p: Primitives, s: State, a: Action, id: Uuid): State
    requires a.BeginSend?
  {
    Closing(DoLookUpKey(Checking(p, s, a), a.tx), a.tx, id)
  }

  function RequestFor(a: Action, body: Body): SendRequest
    requires a.BeginSend?
  {
    SendRequest(a.conv, a.sender, a.key, a.text, if a.flagged then Flagged else Sent, body)
  }

  /** Under the lock the next sequence is free, so an insert fails only on a known key or an oversized value. */
  lemma InsertFailsMeans(db: Store, req: SendRequest)
    requires Numbered(db) && req.conv in db.convs
    ensures InsertFails(db.log[req.conv], req, db.convs[req.conv].lastSeq + 1) <==>
              || Known(db, req) || (req.key.Some? && |req.key.value| > 128)
              || (req.body.dekId.Some? && |req.body.dekId.value| > 128)
              || (req.body.plain.Some? && '\0' in req.body.plain.value)
  {
  }

  /** The lock and the checks, for a sender who may write. */
  lemma OpeningToMember(p: Primitives, s: State, a: Action, body: Body)
    requires a.BeginSend? && a.tx !in s.used
    requires EnvelopeCrypto.Sized(a.random) && BodyColumns(p, s.ring, a.text, a.encrypt, a.random) == Some(body)
    requires a.conv in s.db.convs && a.conv !in s.locks && s.db.convs[a.conv].isOpen && !s.db.convs[a.conv].e2ee
    requires (a.conv, a.sender) in s.db.parts && !s.db.parts[(a.conv, a.sender)].left
    ensures Checking(p, s, a) ==
            Stage(Grab(Begin(s, a.tx, Waiting(RequestFor(a, body))), a.tx, a.conv, Locked(RequestFor(a, body), s.db.convs[a.conv])),
                  a.tx, Member(RequestFor(a, body), s.db.convs[a.conv]))
  {
    var req, row := RequestFor(a, body), s.db.convs[a.conv];
    var s1 := DoBeginSend(p, s, a);
    assert s1 == Begin(s, a.tx, Waiting(req));
    var s2 := DoTakeLock(s1, a.tx);
    assert s2 == Grab(s1, a.tx, a.conv, Locked(req, row));
    assert DoCheckMember(s2, a.tx) == Stage(s2, a.tx, Member(req, row));
  }

  /** And for one who may not: the transaction is over. */
  lemma OpeningRefused(p: Primitives, s: State, a: Action, body: Body)
    requires a.BeginSend? && a.tx !in s.used
    requires EnvelopeCrypto.Sized(a.random) && BodyColumns(p, s.ring, a.text, a.encrypt, a.random) == Some(body) && a.conv !in s.locks
    requires !(&& a.conv in s.db.convs && s.db.convs[a.conv].isOpen && !s.db.convs[a.conv].e2ee
               && (a.conv, a.sender) in s.db.parts && !s.db.parts[(a.conv, a.sender)].left)
    ensures var end := Checking(p, s, a);
            a.tx !in end.txs && end.db == s.db && end.replies == s.replies
  {
    var req := RequestFor(a, body);
    var s1 := DoBeginSend(p, s, a);
    assert s1 == Begin(s, a.tx, Waiting(req));
    var s2 := DoTakeLock(s1, a.tx);
    if a.conv in s.db.convs && s.db.convs[a.conv].isOpen && !s.db.convs[a.conv].e2ee {
      assert s2 == Grab(s1, a.tx, a.conv, Locked(req, s.db.convs[a.conv]));
      assert DoCheckMember(s2, a.tx) == Finish(s2, a.tx);
    } else {
      assert s2 == Finish(s1, a.tx);
    }
  }

  lemma ClosingAppends(s: State, t: TxId, id: Uuid, req: SendRequest, row: Conversation)
    requires t in s.txs && s.txs[t] == Fresh(req, row) && id !in s.drawn
    requires req.conv in s.db.convs && req.conv in s.db.log && s.db.convs[req.conv] == row
    requires !InsertFails(s.db.log[req.conv], req, row.lastSeq + 1) && !HasNul(Some(req.text))
    ensures var end := Closing(s, t, id);
            && end.db == Append(s.db, req, id, Readers(s.db.parts, req.conv, req.sender), Recipients(s.db.parts, req.conv, req.sender))
            && t in end.replies && end.replies[t] == Reply(req.conv, req.sender, req.key, id, row.lastSeq + 1)
            && t !in end.txs
  {
    var msg := MessageOf(req, id, row.lastSeq + 1);
    var readers, recipients := Readers(s.db.parts, req.conv, req.sender), Recipients(s.db.parts, req.conv, req.sender);
    var event := EventOf(req, id, msg.seqNo, recipients);
    var s1 := DoInsert(s, t, id);
    assert s1.db == s.db && s1.txs[t] == Inserted(req, row, msg);
    var s2 := DoReceipts(s1, t);
    assert s2 == Stage(s1, t, Receipted(req, row, msg, readers, recipients));
    var s3 := DoQueue(s2, t);
    assert s3 == Stage(s2, t, Queued(req, row, msg, readers, event));
    var s4 := DoBump(s3, t);
    assert s4 == Stage(s3, t, Bumped(req, row, msg, readers, event, msg.seqNo));
    CommitAppends(s4, t);
  }

  lemma CommitAppends(s: State, t: TxId)
    requires t in s.txs && s.txs[t].Bumped?
    requires var Bumped(req, row, msg, _, event, lastSeq) := s.txs[t];
             && req.conv in s.db.convs && req.conv in s.db.log && s.db.convs[req.conv] == row
             && lastSeq == row.lastSeq + 1 && msg == MessageOf(req, msg.id, lastSeq)
             && event.Created? && event == EventOf(req, msg.id, lastSeq, event.recipients)
    ensures var Bumped(req, _, msg, readers, event, lastSeq) := s.txs[t];
            var end := DoCommit(s, t);
            && end.db == Append(s.db, req, msg.id, readers, event.recipients)
            && t in end.replies && end.replies[t] == Reply(req.conv, req.sender, req.key, msg.id, lastSeq)
            && t !in end.txs
  {
  }

  lemma GoneIsGone(s: State, t: TxId, id: Uuid)
    requires t !in s.txs
    ensures DoLookUpKey(s, t) == s && Closing(s, t, id) == s
  {
  }

  /** The writes of a send that passed the lookup: they fail exactly on a value that cannot be stored, or on
      an empty key that is taken. */
  lemma ClosingDecides(s: State, t: TxId, id: Uuid, req: SendRequest, row: Conversation)
    requires t in s.txs && s.txs[t] == Fresh(req, row) && id !in s.drawn && t !in s.replies && Numbered(s.db)
    requires req.conv in s.db.convs && s.db.convs[req.conv] == row
    ensures var end, fails := Closing(s, t, id), InsertFails(s.db.log[req.conv], req, row.lastSeq + 1) || '\0' in req.text;
            && t !in end.txs && (t in end.replies <==> !fails)
            && if fails then end.db == s.db
               else
                 && end.replies[t] == Reply(req.conv, req.sender, req.key, id, row.lastSeq + 1)
                 && end.db == Append(s.db, req, id, Readers(s.db.parts, req.conv, req.sender), Recipients(s.db.parts, req.conv, req.sender))
  {
    if InsertFails(s.db.log[req.conv], req, row.lastSeq + 1) {
      assert DoInsert(s, t, id) == Finish(s, t);
    } else if '\0' in req.text {
      ClosingFails(s, t, id, req, row);
    } else {
      ClosingAppends(s, t, id, req, row);
    }
  }

  lemma ClosingFails(s: State, t: TxId, id: Uuid, req: SendRequest, row: Conversation)
    requires t in s.txs && s.txs[t] == Fresh(req, row) && id !in s.drawn && req.conv in s.db.log
    requires !InsertFails(s.db.log[req.conv], req, row.lastSeq + 1) && '\0' in req.text
    ensures var end := Closing(s, t, id); t !in end.txs && end.db == s.db && end.replies == s.replies
  {
    var msg := MessageOf(req, id, row.lastSeq + 1);
    var s1 := DoInsert(s, t, id);
    assert s1.db == s.db && s1.txs[t] == Inserted(req, row, msg) && s1.replies == s.replies;
    var s2 := DoReceipts(s1, t);
    assert s2.txs[t].Receipted? && s2.txs[t].req == req && s2.db == s.db && s2.replies == s.replies;
    assert DoQueue(s2, t) == Finish(s2, t);
  }

  lemma LookUpDecides(s: State, t: TxId, req: SendRequest, row: Conversation)
    requires t in s.txs && s.txs[t] == Member(req, row) && req.conv in s.db.log
    ensures var next := DoLookUpKey(s, t);
            && next.db == s.db && next.drawn == s.drawn && next.replies == s.replies
            && if req.key.Some? && '\0' in req.key.value then t !in next.txs
               else if Known(s.db, req) && req.key.value != "" then
                 && t in next.txs && next.txs[t].Replay? && next.txs[t].req == req
                 && var m := next.txs[t].existing; m in s.db.log[req.conv] && m.sender == req.sender && m.key == req.key
               else t in next.txs && next.txs[t] == Fresh(req, row)
  {
    var next := DoLookUpKey(s, t);
    if req.key.None? || req.key.value == "" {
      assert next == Stage(s, t, Fresh(req, row));
    } else if HasNul(req.key) {
      assert next == Finish(s, t);
    } else {
      var found := FindKey(s.db.log[req.conv], req.sender, req.key);
      assert next == Stage(s, t, if found.Some? then Replay(req, found.value) else Fresh(req, row));
    }
  }

  lemma ReplayCloses(s: State, t: TxId, id: Uuid)
    requires t in s.txs && s.txs[t].Replay?
    ensures var end, req, m := Closing(s, t, id), s.txs[t].req, s.txs[t].existing;
            && t !in end.txs && end.db == s.db
            && t in end.replies && end.replies[t] == Reply(req.conv, req.sender, req.key, m.id, m.seqNo)
  {
    assert DoBump(DoQueue(DoReceipts(DoInsert(s, t, id), t), t), t) == s;
  }

  /** A stored row answers this reply. */
  predicate Stored(db: Store, q: Reply) {
    && q.conv in db.log
    && exists k :: 0 <= k < |db.log[q.conv]| && Row(db.log[q.conv][k], q)
  }

  predicate Row(m: Message, q: Reply) {
    m.id == q.id && m.seqNo == q.seqNo && m.sender == q.sender && m.key == q.key
  }

  /** What a send that met no one else has done. */
  ghost predicate Decided(before: Store, after: Store, req: SendRequest, id: Uuid, reply: Option<Reply>) {
    && (reply.Some? <==> Accepted(before, req))
    && (reply.Some? ==> reply.value.conv == req.conv && reply.value.sender == req.sender && reply.value.key == req.key)
    && (reply.None? ==> after == before)
    && (reply.Some? && Known(before, req) ==> after == before && Stored(before, reply.value))
    && (reply.Some? && !Known(before, req) ==>
          && req.conv in before.log && reply.value.id == id && reply.value.seqNo == |before.log[req.conv]| + 1
          && Delivers(before, after, req, id, Readers(before.parts, req.conv, req.sender), Recipients(before.parts, req.conv, req.sender)))
  }

  function ReplyOf(s: State, t: TxId): Option<Reply> { if t in s.replies then Some(s.replies[t]) else None }

  lemma MemberDecides(s: State, t: TxId, id: Uuid, req: SendRequest, row: Conversation)
    requires StoreOk(s.db) && t in s.txs && s.txs[t] == Member(req, row) && id !in s.drawn && IdFree(s.db, id) && t !in s.replies
    requires req.conv in s.db.convs && s.db.convs[req.conv] == row && row.isOpen && !row.e2ee
    requires (req.conv, req.sender) in s.db.parts && !s.db.parts[(req.conv, req.sender)].left
    ensures var end := Closing(DoLookUpKey(s, t), t, id);
            t !in end.txs && Decided(s.db, end.db, req, id, ReplyOf(end, t))
  {
    var next := DoLookUpKey(s, t);
    LookUpDecides(s, t, req, row);
    if t !in next.txs {
      GoneIsGone(next, t, id);
    } else if next.txs[t].Replay? {
      ReplayCloses(next, t, id);
      var m := next.txs[t].existing;
      var k :| 0 <= k < |s.db.log[req.conv]| && s.db.log[req.conv][k] == m;
      assert Row(s.db.log[req.conv][k], Closing(next, t, id).replies[t]);
    } else {
      ClosingDecides(next, t, id, req, row);
      InsertFailsMeans(s.db, req);
      var op := SendOp(req, id, Readers(s.db.parts, req.conv, req.sender), Recipients(s.db.parts, req.conv, req.sender));
      if Accepted(s.db, req) { SendDelivers(s.db, op); }
    }
  }

  /** A send that meets no one else is over when it ends, and decides exactly: it is accepted or changes
      nothing; with a known key it answers with the stored row; otherwise it delivers the message. */
  lemma LoneSendDecides(p: Primitives, s: State, a: Action, id: Uuid, body: Body)
    requires Inv(s) && a.BeginSend? && a.tx !in s.used && a.tx !in s.replies && id !in s.drawn && a.conv !in s.locks
    requires EnvelopeCrypto.Sized(a.random) && BodyColumns(p, s.ring, a.text, a.encrypt, a.random) == Some(body)
    ensures var end := LoneSend(p, s, a, id);
            a.tx !in end.txs && Decided(s.db, end.db, RequestFor(a, body), id, ReplyOf(end, a.tx))
  {
    var req, mid := RequestFor(a, body), Checking(p, s, a);
    if && a.conv in s.db.convs && s.db.convs[a.conv].isOpen && !s.db.convs[a.conv].e2ee
       && (a.conv, a.sender) in s.db.parts && !s.db.parts[(a.conv, a.sender)].left {
      OpeningToMember(p, s, a, body);
      IdIsFree(s, id);
      MemberDecides(mid, a.tx, id, req, s.db.convs[a.conv]);
    } else {
      OpeningRefused(p, s, a, body);
      GoneIsGone(mid, a.tx, id);
    }
  }

  lemma IdIsFree(s: State, id: Uuid)
    requires IdsSettled(s) && id !in s.drawn
    ensures IdFree(s.db, id)
  {
  }

  // ---- The other two ----

  function LoneEnable(s: State, t: TxId, c: Uuid): State {
    DoCommit(DoSetFlag(DoInsertGroup(DoBeginEnable(s, t, c), t), t), t)
  }

  lemma EnableCommits(s: State, t: TxId, c: Uuid)
    requires t in s.txs && s.txs[t] == FlagSet(c) && c in s.db.convs
    ensures DoCommit(s, t).db == s.db.(groups := s.db.groups + {c}, convs := s.db.convs[c := s.db.convs[c].(e2ee := true)])
  {
  }

  /** `enableE2ee` switches every conversation that is not switched yet, and nothing else. */
  lemma LoneEnableDecides(s: State, t: TxId, c: Uuid)
    requires Inv(s) && t !in s.used && c !in s.locks && c !in s.groupLocks
    ensures var after := LoneEnable(s, t, c).db;
            if c in s.db.convs && !s.db.convs[c].e2ee then
              && c in after.convs && after.convs[c].e2ee && after.groups == s.db.groups + {c}
              && after == s.db.(groups := after.groups, convs := s.db.convs[c := s.db.convs[c].(e2ee := true)])
            else after == s.db
  {
    var s1 := DoBeginEnable(s, t, c);
    if c in s.db.convs && !s.db.convs[c].e2ee {
      assert s1 == Begin(s, t, Enabling(c));
      var s2 := DoInsertGroup(s1, t);
      assert s2.db == s.db && s2.locks == s.locks && t in s2.txs && s2.txs[t] == Grouped(c);
      var s3 := DoSetFlag(s2, t);
      assert s3.db == s.db && t in s3.txs && s3.txs[t] == FlagSet(c);
      EnableCommits(s3, t, c);
    } else {
      assert t !in s1.txs && s1 == s;
    }
  }

  function LoneMark(s: State, t: TxId, c: Uuid, user: Uuid, upto: int): State {
    DoCommit(DoBeginMark(s, BeginMarkRead(t, c, user, upto)), t)
  }

  lemma MarkCommits(s: State, t: TxId)
    requires t in s.txs && s.txs[t].Marking?
    ensures DoCommit(s, t).db == MarkRead(s.db, s.txs[t].conv, s.txs[t].user, s.txs[t].upto, s.txs[t].ids)
  {
  }

  /** `markRead` marks what is there, unless the number does not fit. */
  lemma LoneMarkDecides(s: State, t: TxId, c: Uuid, user: Uuid, upto: int)
    requires Inv(s) && t !in s.used && c in s.db.log
    ensures var after := LoneMark(s, t, c, user, upto).db;
            if -0x8000_0000_0000_0000 <= upto < 0x8000_0000_0000_0000 then
              MovesPosition(s.db, after, c, user, upto) && MarksReceipts(s.db, after, c, user, upto, |s.db.log[c]|) && after.log == s.db.log
            else after == s.db
  {
    var rows := s.db.log[c];
    var s1 := DoBeginMark(s, BeginMarkRead(t, c, user, upto));
    if FitsBigint(upto) {
      assert s1 == Begin(s, t, Marking(c, user, upto, |rows|, UpTo(rows, upto)));
      MarkCommits(s1, t);
      assert rows[..|rows|] == rows;
      MarkReads(s.db, MarkOp(c, user, upto, |rows|));
    } else {
      assert t !in s1.txs && s1 == s;
    }
  }
}
