/** The committed tables behind classic messages, and the transactions on them taken one at a time. */
module MessageStore {
  import opened Wrappers
  import opened Base64

  /** A uuid is only ever compared. */
  type Uuid = nat

  datatype Conversation = Conversation(isOpen: bool, e2ee: bool, lastSeq: nat)
  datatype Participant = Participant(left: bool, lastRead: int)
  datatype Status = Sent | Flagged | Hidden | Deleted

  /** The body columns of a message row. */
  datatype Body = Body(plain: Option<string>, ciphertext: Option<Bytes>, iv: Option<Bytes>, tag: Option<Bytes>,
                       dekId: Option<string>, alg: Option<string>)

  datatype Message = Message(id: Uuid, sender: Uuid, seqNo: nat, key: Option<string>, body: Body,
                             status: Status, deletedAt: Option<int>)

  datatype Event =
    | Created(conv: Uuid, id: Uuid, sender: Uuid, seqNo: nat, text: string, recipients: set<Uuid>)
    | ReadUpTo(conv: Uuid, user: Uuid, upto: int)

  /** `log[c]` holds the rows of conversation `c` in the order in which they were committed;
      a receipt maps a message and a user to whether `read_at` is set. */
  datatype Store = Store(
    convs: map<Uuid, Conversation>,
    parts: map<(Uuid, Uuid), Participant>,
    log: map<Uuid, seq<Message>>,
    receipts: map<(Uuid, Uuid), bool>,
    outbox: seq<Event>,
    groups: set<Uuid>)

  const EMPTY_STORE := Store(map[], map[], map[], map[], [], {})

  /** What `send` has worked out before its transaction starts. */
  datatype SendRequest = SendRequest(conv: Uuid, sender: Uuid, key: Option<string>, text: string,
                                     status: Status, body: Body)

  // ---- Statements ----

  /** The three statements that rewrite message rows. */
  datatype Edit =
    | SoftDelete(id: Uuid, actor: Uuid, at: int)
    | Hide(id: Uuid)
    | Anonymize(user: Uuid, at: int)

  function EditRow(e: Edit, m: Message): Message {
    match e
    case SoftDelete(id, actor, at) =>
      if m.id == id && m.sender == actor then
        m.(status := Deleted, deletedAt := Some(at), body := Body(None, None, None, None, None, m.body.alg))
      else m
    case Hide(id) =>
      if m.id == id then m.(status := Hidden) else m
    case Anonymize(user, at) =>
      if m.sender == user then
        m.(status := Deleted, body := Body(None, None, None, None, None, None),
           deletedAt := if m.deletedAt.Some? then m.deletedAt else Some(at))
      else m
  }

  function EditRows(e: Edit, rows: seq<Message>): (r: seq<Message>)
    ensures |r| == |rows| && forall k :: 0 <= k < |rows| ==> r[k] == EditRow(e, rows[k])
  {
    seq(|rows|, k requires 0 <= k < |rows| => EditRow(e, rows[k]))
  }

  function EditLog(e: Edit, log: map<Uuid, seq<Message>>): map<Uuid, seq<Message>> {
    map c | c in log :: EditRows(e, log[c])
  }

  predicate HasKey(m: Message, sender: Uuid, key: Option<string>) {
    m.sender == sender && m.key == key
  }

  /** `idx_msg_idem`: no row of the conversation carries this sender and key. */
  predicate KeyFree(rows: seq<Message>, sender: Uuid, key: Option<string>) {
    forall k :: 0 <= k < |rows| ==> !HasKey(rows[k], sender, key)
  }

  function MessageOf(req: SendRequest, id: Uuid, seqNo: nat): Message {
    Message(id, req.sender, seqNo, req.key, req.body, req.status, None)
  }

  function EventOf(req: SendRequest, id: Uuid, seqNo: nat, recipients: set<Uuid>): Event {
    Created(req.conv, id, req.sender, seqNo, req.text, recipients)
  }

  function AddReceipts(receipts: map<(Uuid, Uuid), bool>, id: Uuid, readers: set<Uuid>): map<(Uuid, Uuid), bool> {
    receipts + map u | u in readers :: (id, u) := false
  }

  function MarkReceipts(receipts: map<(Uuid, Uuid), bool>, ids: set<Uuid>, user: Uuid): map<(Uuid, Uuid), bool> {
    map r | r in receipts :: receipts[r] || (r.1 == user && r.0 in ids)
  }

  /** The other members of a conversation, who are named in the creation event. */
  function Recipients(parts: map<(Uuid, Uuid), Participant>, c: Uuid, sender: Uuid): (r: set<Uuid>)
    ensures forall u :: u in r <==> (c, u) in parts && u != sender
  {
    set q | q in parts && q.0 == c && q.1 != sender :: q.1
  }

  /** Those of them who have not left, who get a receipt. */
  function Readers(parts: map<(Uuid, Uuid), Participant>, c: Uuid, sender: Uuid): (r: set<Uuid>)
    ensures forall u :: u in r <==> (c, u) in parts && !parts[(c, u)].left && u != sender
  {
    set u | u in Recipients(parts, c, sender) && !parts[(c, u)].left
  }

  /** The messages up to a sequence, as `markRead`'s subquery finds them. */
  function UpTo(rows: seq<Message>, upto: int): set<Uuid> {
    set k | 0 <= k < |rows| && rows[k].seqNo <= upto :: rows[k].id
  }

  // ---- Transactions, one at a time ----

  /** `seen` in a `MarkOp` is how many messages were committed when its subquery ran. */
  datatype Op =
    | SendOp(req: SendRequest, id: Uuid, readers: set<Uuid>, recipients: set<Uuid>)
    | EnableOp(conv: Uuid)
    | MarkOp(conv: Uuid, user: Uuid, upto: int, seen: nat)
    | EditOp(edit: Edit)
    | CreateOp(conv: Uuid)
    | StatusOp(conv: Uuid, isOpen: bool)
    | MemberOp(conv: Uuid, user: Uuid, part: Participant)

  /** The atomic append that a `send` transaction is meant to be. */
  function Append(db: Store, req: SendRequest, id: Uuid, readers: set<Uuid>, recipients: set<Uuid>): Store
    requires req.conv in db.convs && req.conv in db.log
  {
    var next := db.convs[req.conv].lastSeq + 1;
    db.(convs := db.convs[req.conv := db.convs[req.conv].(lastSeq := next)],
        log := db.log[req.conv := db.log[req.conv] + [MessageOf(req, id, next)]],
        receipts := AddReceipts(db.receipts, id, readers),
        outbox := db.outbox + [EventOf(req, id, next, recipients)])
  }

  function MarkRead(db: Store, c: Uuid, user: Uuid, upto: int, ids: set<Uuid>): Store {
    db.(parts := if (c, user) in db.parts then db.parts[(c, user) := db.parts[(c, user)].(lastRead := upto)] else db.parts,
        receipts := MarkReceipts(db.receipts, ids, user),
        outbox := db.outbox + [ReadUpTo(c, user, upto)])
  }

  /** When the transaction may commit on this store. */
  predicate Legal(db: Store, op: Op) {
    match op
    case SendOp(req, id, _, _) =>
      && req.conv in db.convs && req.conv in db.log
      && db.convs[req.conv].isOpen && !db.convs[req.conv].e2ee
      && (req.key.Some? ==> KeyFree(db.log[req.conv], req.sender, req.key))
      && IdFree(db, id)
    case EnableOp(c) => c in db.convs && c !in db.groups
    case MarkOp(c, _, _, seen) => c in db.log && seen <= |db.log[c]|
    case CreateOp(c) => c !in db.convs
    case StatusOp(c, _) => c in db.convs
    case EditOp(_) => true
    case MemberOp(_, _, _) => true
  }

  function Apply(db: Store, op: Op): Store
    requires Legal(db, op)
  {
    match op
    case SendOp(req, id, readers, recipients) => Append(db, req, id, readers, recipients)
    case EnableOp(c) => db.(groups := db.groups + {c}, convs := db.convs[c := db.convs[c].(e2ee := true)])
    case MarkOp(c, user, upto, seen) => MarkRead(db, c, user, upto, UpTo(db.log[c][..seen], upto))
    case EditOp(e) => db.(log := EditLog(e, db.log))
    case CreateOp(c) => db.(convs := db.convs[c := Conversation(true, false, 0)], log := db.log[c := []])
    case StatusOp(c, isOpen) => db.(convs := db.convs[c := db.convs[c].(isOpen := isOpen)])
    case MemberOp(c, user, part) => db.(parts := db.parts[(c, user) := part])
  }

  predicate IdFree(db: Store, id: Uuid) {
    && (forall c, k :: c in db.log && 0 <= k < |db.log[c]| ==> db.log[c][k].id != id)
    && (forall r :: r in db.receipts ==> r.0 != id)
  }

  // ---- What every transaction keeps ----

  ghost predicate Numbered(db: Store) {
    && db.log.Keys == db.convs.Keys
    && (forall c :: c in db.convs ==> |db.log[c]| == db.convs[c].lastSeq)
    && forall c, k :: c in db.log && 0 <= k < |db.log[c]| ==> db.log[c][k].seqNo == k + 1
  }

  ghost predicate IdsDistinct(db: Store) {
    forall c, k, d, j | c in db.log && 0 <= k < |db.log[c]| && d in db.log && 0 <= j < |db.log[d]| ::
      db.log[c][k].id == db.log[d][j].id ==> c == d && k == j
  }

  ghost predicate UniqueKeys(rows: seq<Message>) {
    forall i, j :: 0 <= i < j < |rows| && rows[i].key.Some? ==> !(rows[j].sender == rows[i].sender && rows[j].key == rows[i].key)
  }

  ghost predicate KeysUnique(db: Store) {
    forall c :: c in db.log ==> UniqueKeys(db.log[c])
  }

  ghost predicate FlagsMatchGroups(db: Store) {
    && db.groups <= db.convs.Keys
    && forall c :: c in db.convs ==> (db.convs[c].e2ee <==> c in db.groups)
  }

  /** The creation events of one conversation, in commit order. */
  function CreatedIn(outbox: seq<Event>, c: Uuid): (r: seq<Event>)
    ensures forall i :: 0 <= i < |r| ==> r[i].Created? && r[i].conv == c
  {
    if outbox == [] then []
    else
      var last := outbox[|outbox| - 1];
      CreatedIn(outbox[..|outbox| - 1], c) + if last.Created? && last.conv == c then [last] else []
  }

  predicate Announces(e: Event, c: Uuid, m: Message) {
    e.Created? && e.conv == c && e.id == m.id && e.sender == m.sender && e.seqNo == m.seqNo
  }

  ghost predicate Announced(db: Store, c: Uuid, rows: seq<Message>) {
    && |CreatedIn(db.outbox, c)| == |rows|
    && forall k :: 0 <= k < |rows| ==> Announces(CreatedIn(db.outbox, c)[k], c, rows[k])
  }

  /** One creation event for each message and no other, in the same order. */
  ghost predicate EventsMatch(db: Store) {
    && (forall c :: c in db.log ==> Announced(db, c, db.log[c]))
    && (forall c :: c !in db.log ==> CreatedIn(db.outbox, c) == [])
  }

  /** Among the receipts that `u` holds for these rows, the read ones come first. */
  predicate ReadPrefix(receipts: map<(Uuid, Uuid), bool>, rows: seq<Message>, u: Uuid) {
    forall i, j | 0 <= i < j < |rows| && (rows[i].id, u) in receipts && (rows[j].id, u) in receipts ::
      receipts[(rows[j].id, u)] ==> receipts[(rows[i].id, u)]
  }

  ghost predicate ReceiptsOrdered(db: Store) {
    forall c, u :: c in db.log ==> ReadPrefix(db.receipts, db.log[c], u)
  }

  predicate NoBody(b: Body) {
    b.plain.None? && b.ciphertext.None? && b.iv.None? && b.tag.None? && b.dekId.None?
  }

  predicate EncryptedBody(b: Body) {
    b.plain.None? && b.ciphertext.Some? && b.iv.Some? && b.tag.Some? && b.dekId.Some?
  }

  predicate PlainBody(b: Body) {
    b.plain.Some? && b.ciphertext.None? && b.iv.None? && b.tag.None? && b.dekId.None?
  }

  /** An undeleted row holds exactly one complete form of its body; a deleted row holds none. */
  predicate BodyForm(m: Message) {
    if m.deletedAt.None? then (PlainBody(m.body) || EncryptedBody(m.body)) && m.status != Deleted
    else NoBody(m.body) && (m.status == Deleted || m.status == Hidden)
  }

  ghost predicate BodiesFormed(db: Store) {
    forall c, k :: c in db.log && 0 <= k < |db.log[c]| ==> BodyForm(db.log[c][k])
  }

  ghost predicate StoreOk(db: Store) {
    && Numbered(db) && IdsDistinct(db) && KeysUnique(db) && FlagsMatchGroups(db)
    && EventsMatch(db) && ReceiptsOrdered(db) && BodiesFormed(db)
  }

  /** A send's body columns before the transaction: one complete form, and a status of its own. */
  predicate RequestFormed(req: SendRequest) {
    (PlainBody(req.body) || EncryptedBody(req.body)) && (req.status == Sent || req.status == Flagged)
  }

  // ---- Proofs, one property at a time ----

  lemma CreatedInAppend(outbox: seq<Event>, e: Event, c: Uuid)
    ensures CreatedIn(outbox + [e], c) == CreatedIn(outbox, c) + if e.Created? && e.conv == c then [e] else []
  {
    assert (outbox + [e])[..|outbox|] == outbox;
  }

  lemma ApplyNumbered(db: Store, op: Op)
    requires Legal(db, op) && Numbered(db)
    ensures Numbered(Apply(db, op))
  {
    match op
    case SendOp(req, id, readers, recipients) => AppendNumbered(db, req, id, readers, recipients);
    case EditOp(e) => EditKeepsIdentity(e, db.log);
    case _ =>
  }

  lemma AppendNumbered(db: Store, req: SendRequest, id: Uuid, readers: set<Uuid>, recipients: set<Uuid>)
    requires Numbered(db) && req.conv in db.convs
    ensures Numbered(Append(db, req, id, readers, recipients))
  {
  }

  lemma ApplyIds(db: Store, op: Op)
    requires Legal(db, op) && IdsDistinct(db)
    ensures IdsDistinct(Apply(db, op))
  {
    if op.EditOp? {
      EditKeepsIdentity(op.edit, db.log);
    }
  }

  lemma EditKeepsIdentity(e: Edit, log: map<Uuid, seq<Message>>)
    ensures EditLog(e, log).Keys == log.Keys
    ensures forall c :: c in log ==> |EditLog(e, log)[c]| == |log[c]|
    ensures forall c, k :: c in log && 0 <= k < |log[c]| ==>
              var m, n := log[c][k], EditLog(e, log)[c][k];
              m.id == n.id && m.sender == n.sender && m.seqNo == n.seqNo && m.key == n.key
  {
  }

  lemma ApplyKeys(db: Store, op: Op)
    requires Legal(db, op) && KeysUnique(db)
    ensures KeysUnique(Apply(db, op))
  {
    if op.EditOp? {
      EditKeepsIdentity(op.edit, db.log);
    }
  }

  lemma ApplyFlags(db: Store, op: Op)
    requires Legal(db, op) && FlagsMatchGroups(db)
    ensures FlagsMatchGroups(Apply(db, op))
  {
  }

  /** Appending an event leaves the announcements of other conversations alone. */
  lemma OutboxGrows(outbox: seq<Event>, e: Event)
    ensures forall c :: CreatedIn(outbox + [e], c) == CreatedIn(outbox, c) + if e.Created? && e.conv == c then [e] else []
  {
    forall c { CreatedInAppend(outbox, e, c); }
  }

  lemma AppendEvents(db: Store, req: SendRequest, id: Uuid, readers: set<Uuid>, recipients: set<Uuid>)
    requires req.conv in db.convs && Numbered(db) && EventsMatch(db)
    ensures EventsMatch(Append(db, req, id, readers, recipients))
  {
    var after := Append(db, req, id, readers, recipients);
    OutboxGrows(db.outbox, EventOf(req, id, db.convs[req.conv].lastSeq + 1, recipients));
    forall c | c in after.log ensures Announced(after, c, after.log[c]) {
      assert Announced(db, c, db.log[c]);
    }
  }

  /** After a send, a row and its creation event are as before, or those of the new message. */
  lemma SendOpRow(db: Store, op: Op, c: Uuid, k: nat)
    requires Legal(db, op) && op.SendOp? && Numbered(db) && EventsMatch(db) && c in Apply(db, op).log && k < |Apply(db, op).log[c]|
    ensures var end := Apply(db, op);
            && c in db.log && k < |CreatedIn(end.outbox, c)|
            && if k < |db.log[c]| then
                 k < |CreatedIn(db.outbox, c)| && end.log[c][k] == db.log[c][k] && CreatedIn(end.outbox, c)[k] == CreatedIn(db.outbox, c)[k]
               else
                 && c == op.req.conv && CreatedIn(end.outbox, c)[k].text == op.req.text
                 && end.log[c][k] == MessageOf(op.req, op.id, db.convs[c].lastSeq + 1)
  {
    OutboxGrows(db.outbox, EventOf(op.req, op.id, db.convs[op.req.conv].lastSeq + 1, op.recipients));
    assert Announced(db, c, db.log[c]);
  }

  lemma EditEvents(db: Store, e: Edit)
    requires EventsMatch(db)
    ensures EventsMatch(db.(log := EditLog(e, db.log)))
  {
    EditKeepsIdentity(e, db.log);
    var after := db.(log := EditLog(e, db.log));
    forall c | c in after.log ensures Announced(after, c, after.log[c]) {
      assert Announced(db, c, db.log[c]);
    }
  }

  lemma ApplyEvents(db: Store, op: Op)
    requires Legal(db, op) && Numbered(db) && EventsMatch(db)
    ensures EventsMatch(Apply(db, op))
  {
    match op
    case SendOp(req, id, readers, recipients) => AppendEvents(db, req, id, readers, recipients);
    case MarkOp(c, user, upto, _) => OutboxGrows(db.outbox, ReadUpTo(c, user, upto));
    case EditOp(e) => EditEvents(db, e);
    case _ => SameOutboxEvents(db, op);
  }

  lemma SameOutboxEvents(db: Store, op: Op)
    requires Legal(db, op) && Numbered(db) && EventsMatch(db)
    requires op.EnableOp? || op.CreateOp? || op.StatusOp? || op.MemberOp?
    ensures EventsMatch(Apply(db, op))
  {
  }

  lemma MarkKeepsPrefix(db: Store, op: Op, c: Uuid, u: Uuid)
    requires Legal(db, op) && op.MarkOp? && Numbered(db) && IdsDistinct(db) && c in db.log
    requires ReadPrefix(db.receipts, db.log[c], u)
    ensures ReadPrefix(Apply(db, op).receipts, db.log[c], u)
  {
    var rows, ids := db.log[c], UpTo(db.log[op.conv][..op.seen], op.upto);
    forall i, j | 0 <= i < j < |rows| && rows[j].id in ids ensures rows[i].id in ids {
      assert c == op.conv && j < op.seen;
      assert db.log[op.conv][..op.seen][i] == rows[i];
    }
  }

  lemma ApplyReceipts(db: Store, op: Op)
    requires Legal(db, op) && Numbered(db) && IdsDistinct(db) && ReceiptsOrdered(db)
    ensures ReceiptsOrdered(Apply(db, op))
  {
    var after := Apply(db, op);
    forall c, u | c in after.log ensures ReadPrefix(after.receipts, after.log[c], u) {
      if c in db.log {
        assert ReadPrefix(db.receipts, db.log[c], u);
        if op.MarkOp? { MarkKeepsPrefix(db, op, c, u); }
      }
    }
  }

  /** And what it marks is exactly what its subquery saw: afterwards every receipt of the user for those
      messages is read, and every other receipt is as before. */
  lemma MarkIsExact(db: Store, op: Op, r: (Uuid, Uuid))
    requires Legal(db, op) && op.MarkOp? && r in db.receipts
    ensures var after := Apply(db, op);
            && r in after.receipts
            && (after.receipts[r] <==>
                  db.receipts[r] || (r.1 == op.user && exists k :: 0 <= k < op.seen && Marks(db.log[op.conv], k, op.upto, r.0)))
  {
    var rows := db.log[op.conv];
    if r.0 in UpTo(rows[..op.seen], op.upto) {
      var k :| 0 <= k < op.seen && rows[..op.seen][k].seqNo <= op.upto && rows[..op.seen][k].id == r.0;
      assert Marks(rows, k, op.upto, r.0);
    }
  }

  predicate Marks(rows: seq<Message>, k: nat, upto: int, id: Uuid) {
    k < |rows| && rows[k].seqNo <= upto && rows[k].id == id
  }

  lemma ApplyBodies(db: Store, op: Op)
    requires Legal(db, op) && BodiesFormed(db)
    requires op.SendOp? ==> RequestFormed(op.req)
    ensures BodiesFormed(Apply(db, op))
  {
  }

  /** Every transaction, taken alone, keeps every property of the store. */
  lemma ApplyKeepsStoreOk(db: Store, op: Op)
    requires StoreOk(db) && Legal(db, op)
    requires op.SendOp? ==> RequestFormed(op.req)
    ensures StoreOk(Apply(db, op))
  {
    ApplyNumbered(db, op);
    ApplyIds(db, op);
    ApplyKeys(db, op);
    ApplyFlags(db, op);
    ApplyEvents(db, op);
    ApplyReceipts(db, op);
    ApplyBodies(db, op);
  }

  /** Transactions run one after the other. */
  ghost predicate AllLegal(db: Store, ops: seq<Op>)
    decreases |ops|, 0
  {
    ops == [] || (AllLegal(db, ops[..|ops| - 1]) && Legal(Serial(db, ops[..|ops| - 1]), ops[|ops| - 1]))
  }

  ghost function Serial(db: Store, ops: seq<Op>): Store
    requires AllLegal(db, ops)
    decreases |ops|, 1
  {
    if ops == [] then db else Apply(Serial(db, ops[..|ops| - 1]), ops[|ops| - 1])
  }
}
