/** What each transaction does to the tables, column by column. */
module TableEffects {
  import opened Wrappers
  import opened MessageStore

  // ---- Which sends are accepted ----

  /** A message of the conversation carries the sender's key. */
  predicate Known(db: Store, req: SendRequest) {
    && req.conv in db.log && req.key.Some?
    && exists k :: 0 <= k < |db.log[req.conv]| && db.log[req.conv][k].sender == req.sender && db.log[req.conv][k].key == req.key
  }

  /** Exactly when a send is accepted: an active member writes to an open conversation without end-to-end
      encryption, and its key is known and not empty, or new with values that fit their columns. */
  predicate Accepted(db: Store, req: SendRequest) {
    && req.conv in db.convs && db.convs[req.conv].isOpen && !db.convs[req.conv].e2ee
    && (req.conv, req.sender) in db.parts && !db.parts[(req.conv, req.sender)].left
    && (req.key.Some? ==> '\0' !in req.key.value)
    && if Known(db, req) then req.key.value != ""
       else
         && (req.key.Some? ==> |req.key.value| <= 128)
         && (req.body.dekId.Some? ==> |req.body.dekId.value| <= 128)
         && (req.body.plain.Some? ==> '\0' !in req.body.plain.value) && '\0' !in req.text
  }

  // ---- A message sent ----

  /** The row of a message that was just sent. */
  predicate NewRow(m: Message, req: SendRequest, id: Uuid, seqNo: nat) {
    && m.id == id && m.sender == req.sender && m.seqNo == seqNo && m.key == req.key
    && m.body == req.body && m.status == req.status && m.deletedAt.None?
  }

  /** One row is added after the others of its conversation, and the cached counter follows it. */
  ghost predicate AddsRow(before: Store, after: Store, req: SendRequest, id: Uuid) {
    && req.conv in before.log && req.conv in before.convs
    && after.log.Keys == before.log.Keys && after.convs.Keys == before.convs.Keys
    && (forall c :: c in before.log && c != req.conv ==> after.log[c] == before.log[c])
    && (forall c :: c in before.convs && c != req.conv ==> after.convs[c] == before.convs[c])
    && |after.log[req.conv]| == |before.log[req.conv]| + 1
    && (forall k :: 0 <= k < |before.log[req.conv]| ==> after.log[req.conv][k] == before.log[req.conv][k])
    && NewRow(after.log[req.conv][|before.log[req.conv]|], req, id, |before.log[req.conv]| + 1)
    && after.convs[req.conv].lastSeq == |before.log[req.conv]| + 1
    && after.convs[req.conv].isOpen == before.convs[req.conv].isOpen && after.convs[req.conv].e2ee == before.convs[req.conv].e2ee
  }

  /** Each reader gets an unread receipt for the message; no other receipt appears, goes or changes. */
  ghost predicate AddsReceipts(before: Store, after: Store, id: Uuid, readers: set<Uuid>) {
    && (forall r :: r in after.receipts <==> r in before.receipts || (r.0 == id && r.1 in readers))
    && (forall r :: r in after.receipts ==> after.receipts[r] == (r in before.receipts && before.receipts[r]))
  }

  /** One event is added, with the message's text and all its recipients. */
  ghost predicate AddsCreated(before: Store, after: Store, req: SendRequest, id: Uuid, recipients: set<Uuid>)
    requires req.conv in before.log
  {
    && |after.outbox| == |before.outbox| + 1 && before.outbox <= after.outbox
    && var e := after.outbox[|before.outbox|];
       && e.Created? && e.conv == req.conv && e.id == id && e.sender == req.sender
       && e.seqNo == |before.log[req.conv]| + 1 && e.text == req.text && e.recipients == recipients
  }

  ghost predicate Delivers(before: Store, after: Store, req: SendRequest, id: Uuid, readers: set<Uuid>, recipients: set<Uuid>) {
    && AddsRow(before, after, req, id) && AddsReceipts(before, after, id, readers)
    && AddsCreated(before, after, req, id, recipients)
    && after.parts == before.parts && after.groups == before.groups
  }

  /** A committed send adds its row, its receipts and its event, and changes nothing else. */
  lemma SendDelivers(db: Store, op: Op)
    requires StoreOk(db) && op.SendOp? && Legal(db, op)
    ensures Delivers(db, Apply(db, op), op.req, op.id, op.readers, op.recipients)
  {
    var after := Apply(db, op);
    assert forall r :: r in after.receipts && r.0 == op.id ==> r !in db.receipts;
    assert after.outbox[..|db.outbox|] == db.outbox;
  }

  // ---- Rows rewritten ----

  /** Two rows that differ at most in their status, body columns and time of deletion. */
  predicate SameMessage(m: Message, n: Message) {
    n.id == m.id && n.sender == m.sender && n.seqNo == m.seqNo && n.key == m.key
  }

  predicate Wiped(b: Body) {
    b.plain.None? && b.ciphertext.None? && b.iv.None? && b.tag.None? && b.dekId.None?
  }

  predicate SoftDeleted(m: Message, n: Message, at: int) {
    SameMessage(m, n) && n.status == Deleted && n.deletedAt == Some(at) && Wiped(n.body) && n.body.alg == m.body.alg
  }

  predicate NowHidden(m: Message, n: Message) {
    SameMessage(m, n) && n.status == Hidden && n.deletedAt == m.deletedAt && n.body == m.body
  }

  /** An earlier time of deletion is kept. */
  predicate Anonymized(m: Message, n: Message, at: int) {
    && SameMessage(m, n) && n.status == Deleted && Wiped(n.body) && n.body.alg.None?
    && n.deletedAt.Some? && n.deletedAt.value == if m.deletedAt.Some? then m.deletedAt.value else at
  }

  /** What each of the three statements leaves of a row. */
  predicate Rewritten(e: Edit, m: Message, n: Message) {
    match e
    case SoftDelete(id, actor, at) => if m.id == id && m.sender == actor then SoftDeleted(m, n, at) else n == m
    case Hide(id) => if m.id == id then NowHidden(m, n) else n == m
    case Anonymize(user, at) => if m.sender == user then Anonymized(m, n, at) else n == m
  }

  ghost predicate RewritesRows(e: Edit, before: map<Uuid, seq<Message>>, after: map<Uuid, seq<Message>>) {
    && after.Keys == before.Keys
    && (forall c :: c in before ==> |after[c]| == |before[c]|)
    && forall c, k :: c in before && 0 <= k < |before[c]| ==> Rewritten(e, before[c][k], after[c][k])
  }

  lemma EditRewrites(e: Edit, log: map<Uuid, seq<Message>>)
    ensures RewritesRows(e, log, EditLog(e, log))
  {
  }

  // ---- markRead ----

  /** The user's read position is overwritten, if the user has a row, and one event says so. */
  ghost predicate MovesPosition(before: Store, after: Store, c: Uuid, user: Uuid, upto: int) {
    && after.parts.Keys == before.parts.Keys
    && (forall q :: q in before.parts ==> after.parts[q].left == before.parts[q].left)
    && (forall q :: q in before.parts ==>
          after.parts[q].lastRead == if q == (c, user) then upto else before.parts[q].lastRead)
    && after.outbox == before.outbox + [ReadUpTo(c, user, upto)]
  }

  /** A receipt is read afterwards exactly if it was before, or is the user's, for one of the first `seen`
      messages of the conversation, up to the sequence. */
  ghost predicate MarksReceipts(before: Store, after: Store, c: Uuid, user: Uuid, upto: int, seen: nat)
    requires c in before.log && seen <= |before.log[c]|
  {
    && after.receipts.Keys == before.receipts.Keys
    && forall r :: r in before.receipts ==>
         (after.receipts[r] <==>
            before.receipts[r] || (r.1 == user && exists k :: 0 <= k < seen && k + 1 <= upto && before.log[c][k].id == r.0))
  }

  lemma MarkReads(db: Store, op: Op)
    requires StoreOk(db) && op.MarkOp? && Legal(db, op)
    ensures var after := Apply(db, op);
            && MovesPosition(db, after, op.conv, op.user, op.upto)
            && MarksReceipts(db, after, op.conv, op.user, op.upto, op.seen)
            && after.log == db.log && after.convs == db.convs && after.groups == db.groups
  {
    forall r | r in db.receipts
      ensures Apply(db, op).receipts[r] <==>
                db.receipts[r] || (r.1 == op.user && exists k :: 0 <= k < op.seen && k + 1 <= op.upto && db.log[op.conv][k].id == r.0)
    {
      MarkIsExact(db, op, r);
    }
  }

  // ---- The end-to-end encryption switch ----

  lemma EnableSwitches(db: Store, op: Op)
    requires StoreOk(db) && op.EnableOp? && Legal(db, op)
    ensures var after := Apply(db, op);
            && after.convs.Keys == db.convs.Keys && after.convs[op.conv].e2ee && after.groups == db.groups + {op.conv}
            && after.convs[op.conv].isOpen == db.convs[op.conv].isOpen && after.convs[op.conv].lastSeq == db.convs[op.conv].lastSeq
            && (forall c :: c in db.convs && c != op.conv ==> after.convs[c] == db.convs[c])
            && after.log == db.log && after.receipts == db.receipts && after.outbox == db.outbox && after.parts == db.parts
  {
  }
}
