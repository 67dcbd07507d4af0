/** The transactions on classic messages as they interleave: every statement is a step, a row lock
    is held to the end of its transaction, and a transaction may fail or crash between any two steps. */
module MessageLog {
  import opened Wrappers
  import opened LocalKms
  import opened MessageStore
  import EnvelopeCrypto

  type TxId = nat

  /** Where a transaction stands, with what it has read and what it will write at commit.
      The first nine stages are those of `send`, in order. */
  datatype Tx =
    | Waiting(req: SendRequest)
    | Locked(req: SendRequest, row: Conversation)
    | Member(req: SendRequest, row: Conversation)
    | Replay(req: SendRequest, existing: Message)
    | Fresh(req: SendRequest, row: Conversation)
    | Inserted(req: SendRequest, row: Conversation, msg: Message)
    | Receipted(req: SendRequest, row: Conversation, msg: Message, readers: set<Uuid>, recipients: set<Uuid>)
    | Queued(req: SendRequest, row: Conversation, msg: Message, readers: set<Uuid>, event: Event)
    | Bumped(req: SendRequest, row: Conversation, msg: Message, readers: set<Uuid>, event: Event, lastSeq: nat)
    | Enabling(conv: Uuid)
    | Grouped(conv: Uuid)
    | FlagSet(conv: Uuid)
    | Marking(conv: Uuid, user: Uuid, upto: int, seen: nat, ids: set<Uuid>)

  /** What a successful `send` returned. */
  datatype Reply = Reply(conv: Uuid, sender: Uuid, key: Option<string>, id: Uuid, seqNo: nat)

  /** `locks` are the row locks on conversations, `groupLocks` the unique-index locks on `mls_groups`;
      `drawn` records which transaction drew each message id, `used` every transaction so far. */
  datatype State = State(
    db: Store,
    locks: map<Uuid, TxId>,
    groupLocks: map<Uuid, TxId>,
    txs: map<TxId, Tx>,
    drawn: map<Uuid, TxId>,
    used: set<TxId>,
    replies: map<TxId, Reply>,
    ring: KeyRing)

  datatype Action =
    | BeginSend(tx: TxId, conv: Uuid, sender: Uuid, key: Option<string>, text: string, flagged: bool,
                encrypt: bool, random: EnvelopeCrypto.Randomness)
    | TakeLock(tx: TxId)
    | CheckMember(tx: TxId)
    | LookUpKey(tx: TxId)
    | InsertMessage(tx: TxId, id: Uuid)
    | InsertReceipts(tx: TxId)
    | QueueEvent(tx: TxId)
    | BumpSequence(tx: TxId)
    | BeginEnable(tx: TxId, conv: Uuid)
    | InsertGroup(tx: TxId)
    | SetFlag(tx: TxId)
    | BeginMarkRead(tx: TxId, conv: Uuid, user: Uuid, upto: int)
    | Commit(tx: TxId)
    | Abort(tx: TxId)
    | EditMessages(edit: Edit)
    | OpenConversation(conv: Uuid)
    | SetStatus(conv: Uuid, isOpen: bool)
    | SetParticipant(conv: Uuid, user: Uuid, part: Participant)
    | AddKeys(ring: KeyRing)

  function Initial(ring: KeyRing): State {
    State(EMPTY_STORE, map[], map[], map[], map[], {}, map[], ring)
  }

  // ---- Steps ----

  function Unlock(locks: map<Uuid, TxId>, t: TxId): map<Uuid, TxId> {
    map c | c in locks && locks[c] != t :: locks[c]
  }

  /** Only `t` moved: the locks, stages and drawn ids of all the others are as before. */
  ghost predicate OnlyMoves(s: State, next: State, t: TxId) {
    && (forall c :: c in s.locks && s.locks[c] != t ==> c in next.locks && next.locks[c] == s.locks[c])
    && (forall c :: c in s.groupLocks && s.groupLocks[c] != t ==> c in next.groupLocks && next.groupLocks[c] == s.groupLocks[c])
    && (forall u :: u in s.txs && u != t ==> u in next.txs && next.txs[u] == s.txs[u])
    && (forall id :: id in s.drawn ==> id in next.drawn && next.drawn[id] == s.drawn[id])
    && (forall u :: u in next.txs && u != t ==> u in s.txs)
    && (forall id :: id in next.drawn ==> id in s.drawn || (t in s.txs && next.drawn[id] == t))
    && s.used <= next.used
    && (t in next.txs && t !in s.txs ==> t !in s.used && t in next.used)
  }

  /** The transaction is over, whichever way: its locks go, and what it had not committed is gone. */
  function Finish(s: State, t: TxId): State {
    s.(txs := s.txs - {t}, locks := Unlock(s.locks, t), groupLocks := Unlock(s.groupLocks, t))
  }

  function Begin(s: State, t: TxId, tx: Tx): State {
    if t in s.used then s else s.(txs := s.txs[t := tx], used := s.used + {t})
  }

  /** The transaction goes on to its next stage. */
  function Stage(s: State, t: TxId, tx: Tx): State {
    s.(txs := s.txs[t := tx])
  }

  /** The same, taking the row lock on a free conversation row. */
  function Grab(s: State, t: TxId, c: Uuid, tx: Tx): State {
    s.(txs := s.txs[t := tx], locks := s.locks[c := t])
  }

  /** The body columns, computed before the transaction: encrypted, or in clear when encryption is off. */
  function BodyColumns(p: Primitives, ring: KeyRing, text: string, encrypt: bool, r: EnvelopeCrypto.Randomness): Option<Body> {
    if !encrypt then Some(Body(Some(text), None, None, None, None, None))
    else match EnvelopeCrypto.Encrypt(p, ring, r, text)
      case Err(_) => None
      case Ok(m) => Some(Body(None, Some(m.ciphertext), Some(m.iv), Some(m.tag), Some(m.dekId), Some("aes-256-gcm")))
  }

  function DoBeginSend(p: Primitives, s: State, a: Action): State
    requires a.BeginSend?
  {
    match BodyColumns(p, s.ring, a.text, a.encrypt, a.random)
    case None => s
    case Some(body) =>
      if !EnvelopeCrypto.Sized(a.random) then s
      else Begin(s, a.tx, Waiting(SendRequest(a.conv, a.sender, a.key, a.text, if a.flagged then Flagged else Sent, body)))
  }

  /** `SELECT … FOR UPDATE` waits for the lock, then reads the row as it is committed by then. */
  function DoTakeLock(s: State, t: TxId): State {
    if t !in s.txs || !s.txs[t].Waiting? then s
    else
      var req := s.txs[t].req;
      if req.conv !in s.db.convs then Finish(s, t)
      else if req.conv in s.locks then s
      else
        var row := s.db.convs[req.conv];
        if row.e2ee || !row.isOpen then Finish(s, t)
        else Grab(s, t, req.conv, Locked(req, row))
  }

  function DoCheckMember(s: State, t: TxId): State {
    if t !in s.txs || !s.txs[t].Locked? then s
    else
      var Locked(req, row) := s.txs[t];
      if (req.conv, req.sender) in s.db.parts && !s.db.parts[(req.conv, req.sender)].left
      then Stage(s, t, Member(req, row))
      else Finish(s, t)
  }

  /** The row that carries the key, if there is one. */
  function FindKey(rows: seq<Message>, sender: Uuid, key: Option<string>): (r: Option<Message>)
    ensures r.None? <==> forall k :: 0 <= k < |rows| ==> !(rows[k].sender == sender && rows[k].key == key)
    ensures r.Some? ==> r.value.sender == sender && r.value.key == key && r.value in rows
  {
    if rows == [] then None
    else if HasKey(rows[|rows| - 1], sender, key) then Some(rows[|rows| - 1])
    else FindKey(rows[..|rows| - 1], sender, key)
  }

  /** An empty key skips the lookup, like an absent one. */
  function DoLookUpKey(s: State, t: TxId): State {
    if t !in s.txs || !s.txs[t].Member? then s
    else
      var Member(req, row) := s.txs[t];
      if req.conv !in s.db.log || req.key.None? || req.key.value == "" then Stage(s, t, Fresh(req, row))
      else if HasNul(req.key) then Finish(s, t)
      else match FindKey(s.db.log[req.conv], req.sender, req.key)
        case Some(m) => Stage(s, t, Replay(req, m))
        case None => Stage(s, t, Fresh(req, row))
  }

  /** PostgreSQL refuses U+0000 in text, whether in a column, in `jsonb` or as a query parameter. */
  predicate HasNul(s: Option<string>) { s.Some? && '\0' in s.value }

  /** `body_dek_id` and `idempotency_key` are columns of at most 128 characters, `body` is a text column. */
  predicate Unstorable(req: SendRequest) {
    || (req.body.dekId.Some? && |req.body.dekId.value| > 128)
    || (req.key.Some? && |req.key.value| > 128)
    || HasNul(req.body.plain)
  }

  /** The insert fails on either unique index, or when a value does not fit its column. */
  predicate InsertFails(rows: seq<Message>, req: SendRequest, seqNo: nat) {
    || (exists k :: 0 <= k < |rows| && rows[k].seqNo == seqNo)
    || (req.key.Some? && !KeyFree(rows, req.sender, req.key))
    || Unstorable(req)
  }

  function DoInsert(s: State, t: TxId, id: Uuid): State {
    if t !in s.txs || !s.txs[t].Fresh? || id in s.drawn then s
    else
      var Fresh(req, row) := s.txs[t];
      if req.conv !in s.db.log || InsertFails(s.db.log[req.conv], req, row.lastSeq + 1) then Finish(s, t)
      else s.(txs := s.txs[t := Inserted(req, row, MessageOf(req, id, row.lastSeq + 1))], drawn := s.drawn[id := t])
  }

  /** Receipts go to the other members who have not left; the event names all other members. */
  function DoReceipts(s: State, t: TxId): State {
    if t !in s.txs || !s.txs[t].Inserted? then s
    else
      var Inserted(req, row, msg) := s.txs[t];
      Stage(s, t, Receipted(req, row, msg, Readers(s.db.parts, req.conv, req.sender), Recipients(s.db.parts, req.conv, req.sender)))
  }

  /** The payload holds the text, in `jsonb`. */
  function DoQueue(s: State, t: TxId): State {
    if t !in s.txs || !s.txs[t].Receipted? then s
    else
      var Receipted(req, row, msg, readers, recipients) := s.txs[t];
      if HasNul(Some(req.text)) then Finish(s, t)
      else Stage(s, t, Queued(req, row, msg, readers, EventOf(req, msg.id, msg.seqNo, recipients)))
  }

  function DoBump(s: State, t: TxId): State {
    if t !in s.txs || !s.txs[t].Queued? then s
    else
      var Queued(req, row, msg, readers, event) := s.txs[t];
      Stage(s, t, Bumped(req, row, msg, readers, event, msg.seqNo))
  }

  /** The flag is read before the transaction. */
  function DoBeginEnable(s: State, t: TxId, c: Uuid): State {
    if c !in s.db.convs || s.db.convs[c].e2ee then s else Begin(s, t, Enabling(c))
  }

  /** The unique index on the conversation: the insert waits for another's, and fails on a committed one. */
  function DoInsertGroup(s: State, t: TxId): State {
    if t !in s.txs || !s.txs[t].Enabling? then s
    else
      var c := s.txs[t].conv;
      if c in s.groupLocks then s
      else if c in s.db.groups || c !in s.db.convs then Finish(s, t)
      else s.(txs := s.txs[t := Grouped(c)], groupLocks := s.groupLocks[c := t])
  }

  function DoSetFlag(s: State, t: TxId): State {
    if t !in s.txs || !s.txs[t].Grouped? || s.txs[t].conv in s.locks then s
    else Grab(s, t, s.txs[t].conv, FlagSet(s.txs[t].conv))
  }

  /** The read position is stored in a `bigint` column; any other number fails the transaction. */
  predicate FitsBigint(n: int) { -0x8000_0000_0000_0000 <= n < 0x8000_0000_0000_0000 }

  /** The messages that the update's subquery finds when the statement runs. */
  function DoBeginMark(s: State, a: Action): State
    requires a.BeginMarkRead?
  {
    var rows := if a.conv in s.db.log then s.db.log[a.conv] else [];
    if a.conv !in s.db.log || !FitsBigint(a.upto) then s
    else Begin(s, a.tx, Marking(a.conv, a.user, a.upto, |rows|, UpTo(rows, a.upto)))
  }

  function DoCommitSend(s: State, t: TxId, tx: Tx): State
    requires tx.Bumped?
  {
    var c := tx.req.conv;
    if c !in s.db.convs || c !in s.db.log then s
    else
      Finish(s.(replies := s.replies[t := Reply(c, tx.req.sender, tx.req.key, tx.msg.id, tx.msg.seqNo)],
                db := s.db.(log := s.db.log[c := s.db.log[c] + [tx.msg]],
                            receipts := AddReceipts(s.db.receipts, tx.msg.id, tx.readers),
                            outbox := s.db.outbox + [tx.event],
                            convs := s.db.convs[c := s.db.convs[c].(lastSeq := tx.lastSeq)])), t)
  }

  function DoCommit(s: State, t: TxId): State {
    if t !in s.txs then s
    else match s.txs[t]
      case Bumped(_, _, _, _, _, _) => DoCommitSend(s, t, s.txs[t])
      case Replay(req, m) => Finish(s.(replies := s.replies[t := Reply(req.conv, req.sender, req.key, m.id, m.seqNo)]), t)
      case FlagSet(c) =>
        if c !in s.db.convs then s
        else Finish(s.(db := s.db.(groups := s.db.groups + {c}, convs := s.db.convs[c := s.db.convs[c].(e2ee := true)])), t)
      case Marking(c, user, upto, _, ids) => Finish(s.(db := MarkRead(s.db, c, user, upto, ids)), t)
      case _ => s
  }

  /** One step of the system; a step that cannot be taken changes nothing. */
  function Do(p: Primitives, s: State, a: Action): State {
    match a
    case BeginSend(_, _, _, _, _, _, _, _) => DoBeginSend(p, s, a)
    case TakeLock(t) => DoTakeLock(s, t)
    case CheckMember(t) => DoCheckMember(s, t)
    case LookUpKey(t) => DoLookUpKey(s, t)
    case InsertMessage(t, id) => DoInsert(s, t, id)
    case InsertReceipts(t) => DoReceipts(s, t)
    case QueueEvent(t) => DoQueue(s, t)
    case BumpSequence(t) => DoBump(s, t)
    case BeginEnable(t, c) => DoBeginEnable(s, t, c)
    case InsertGroup(t) => DoInsertGroup(s, t)
    case SetFlag(t) => DoSetFlag(s, t)
    case BeginMarkRead(_, _, _, _) => DoBeginMark(s, a)
    case Commit(t) => DoCommit(s, t)
    case Abort(t) => Finish(s, t)
    case EditMessages(e) => s.(db := s.db.(log := EditLog(e, s.db.log)))
    case OpenConversation(c) =>
      if c in s.db.convs then s
      else s.(db := s.db.(convs := s.db.convs[c := Conversation(true, false, 0)], log := s.db.log[c := []]))
    case SetStatus(c, isOpen) =>
      if c !in s.db.convs || c in s.locks then s
      else s.(db := s.db.(convs := s.db.convs[c := s.db.convs[c].(isOpen := isOpen)]))
    case SetParticipant(c, user, part) => s.(db := s.db.(parts := s.db.parts[(c, user) := part]))
    case AddKeys(ring) => if WellFormed(ring) && Extends(ring, s.ring) then s.(ring := ring) else s
  }

  // ---- How a send moves on ----

  predicate IsMember(db: Store, c: Uuid, user: Uuid) { (c, user) in db.parts && !db.parts[(c, user)].left }

  datatype Receivers = Receivers(readers: set<Uuid>, recipients: set<Uuid>)

  function ReceiversIn(db: Store, req: SendRequest): Receivers {
    Receivers(Readers(db.parts, req.conv, req.sender), Recipients(db.parts, req.conv, req.sender))
  }

  /** How each statement of `send` moves its transaction on, if it does not end it. */
  predicate Advances(s: State, a: Action, tx: Tx, next: Tx) {
    match a
    case TakeLock(_) => tx.Waiting? && next.Locked? && next.req == tx.req
    case CheckMember(_) => tx.Locked? && IsMember(s.db, tx.req.conv, tx.req.sender) && next == Member(tx.req, tx.row)
    case LookUpKey(_) =>
      && tx.Member?
      && (|| next == Fresh(tx.req, tx.row)
          || (&& next.Replay? && next.req == tx.req && tx.req.conv in s.db.log
              && FindKey(s.db.log[tx.req.conv], tx.req.sender, tx.req.key) == Some(next.existing)))
    case InsertMessage(_, _) => tx.Fresh? && next.Inserted? && next.req == tx.req
    case InsertReceipts(_) =>
      && tx.Inserted?
      && var got := ReceiversIn(s.db, tx.req); next == Receipted(tx.req, tx.row, tx.msg, got.readers, got.recipients)
    case QueueEvent(_) =>
      tx.Receipted? && next == Queued(tx.req, tx.row, tx.msg, tx.readers, EventOf(tx.req, tx.msg.id, tx.msg.seqNo, tx.recipients))
    case BumpSequence(_) => tx.Queued? && next == Bumped(tx.req, tx.row, tx.msg, tx.readers, tx.event, tx.msg.seqNo)
    case _ => false
  }

  lemma OpeningAdvances(s: State, t: TxId)
    requires t in s.txs
    ensures var next := DoTakeLock(s, t); t in next.txs ==> next.txs[t] == s.txs[t] || Advances(s, TakeLock(t), s.txs[t], next.txs[t])
    ensures var next := DoCheckMember(s, t); t in next.txs ==> next.txs[t] == s.txs[t] || Advances(s, CheckMember(t), s.txs[t], next.txs[t])
  {
  }

  lemma LookUpAdvances(s: State, t: TxId)
    requires t in s.txs
    ensures var next := DoLookUpKey(s, t); t in next.txs ==> next.txs[t] == s.txs[t] || Advances(s, LookUpKey(t), s.txs[t], next.txs[t])
  {
  }

  lemma InsertAdvances(s: State, t: TxId, id: Uuid)
    requires t in s.txs
    ensures var next := DoInsert(s, t, id); t in next.txs ==> next.txs[t] == s.txs[t] || Advances(s, InsertMessage(t, id), s.txs[t], next.txs[t])
  {
  }

  lemma WritesAdvance(s: State, t: TxId)
    requires t in s.txs
    ensures var next := DoReceipts(s, t); t in next.txs ==> next.txs[t] == s.txs[t] || Advances(s, InsertReceipts(t), s.txs[t], next.txs[t])
    ensures var next := DoQueue(s, t); t in next.txs ==> next.txs[t] == s.txs[t] || Advances(s, QueueEvent(t), s.txs[t], next.txs[t])
    ensures var next := DoBump(s, t); t in next.txs ==> next.txs[t] == s.txs[t] || Advances(s, BumpSequence(t), s.txs[t], next.txs[t])
  {
  }

  lemma SendStepAdvances(p: Primitives, s: State, a: Action, t: TxId)
    requires IsSendStep(a) && a.tx == t && t in s.txs && t in Do(p, s, a).txs
    ensures Do(p, s, a).txs[t] == s.txs[t] || Advances(s, a, s.txs[t], Do(p, s, a).txs[t])
  {
    match a
    case TakeLock(_) => OpeningAdvances(s, t);
    case CheckMember(_) => OpeningAdvances(s, t);
    case LookUpKey(_) => LookUpAdvances(s, t);
    case InsertMessage(_, id) => InsertAdvances(s, t, id);
    case InsertReceipts(_) => WritesAdvance(s, t);
    case QueueEvent(_) => WritesAdvance(s, t);
    case BumpSequence(_) => WritesAdvance(s, t);
  }

  function Run(p: Primitives, s: State, actions: seq<Action>): State {
    if actions == [] then s
    else Do(p, Run(p, s, actions[..|actions| - 1]), actions[|actions| - 1])
  }

  // ---- What every transaction under way can rely on ----

  /** The transaction holds the row lock, and the row it read is still the committed one. */
  ghost predicate Holds(s: State, t: TxId, c: Uuid, row: Conversation) {
    && c in s.locks && s.locks[c] == t
    && c in s.db.convs && c in s.db.log && s.db.convs[c] == row
    && row.isOpen && !row.e2ee
  }

  ghost predicate Pending(s: State, t: TxId, req: SendRequest, row: Conversation, msg: Message) {
    && Holds(s, t, req.conv, row)
    && msg.id in s.drawn && s.drawn[msg.id] == t
    && msg == MessageOf(req, msg.id, row.lastSeq + 1)
    && (req.key.Some? ==> KeyFree(s.db.log[req.conv], req.sender, req.key))
  }

  /** A committed row answers for this request. */
  predicate Answers(rows: seq<Message>, k: nat, sender: Uuid, key: Option<string>, id: Uuid, seqNo: nat) {
    k < |rows| && rows[k].sender == sender && rows[k].key == key && rows[k].id == id && rows[k].seqNo == seqNo
  }

  ghost predicate Answered(db: Store, c: Uuid, sender: Uuid, key: Option<string>, id: Uuid, seqNo: nat) {
    c in db.log && exists k: nat :: Answers(db.log[c], k, sender, key, id, seqNo)
  }

  ghost predicate TxOk(s: State, t: TxId, tx: Tx) {
    match tx
    case Waiting(req) => RequestFormed(req)
    case Locked(req, row) => RequestFormed(req) && Holds(s, t, req.conv, row)
    case Member(req, row) => RequestFormed(req) && Holds(s, t, req.conv, row)
    case Replay(req, m) => Answered(s.db, req.conv, req.sender, req.key, m.id, m.seqNo)
    case Fresh(req, row) => RequestFormed(req) && Holds(s, t, req.conv, row)
    case Inserted(req, row, msg) => RequestFormed(req) && Pending(s, t, req, row, msg)
    case Receipted(req, row, msg, _, _) => RequestFormed(req) && Pending(s, t, req, row, msg)
    case Queued(req, row, msg, _, e) =>
      && RequestFormed(req) && Pending(s, t, req, row, msg)
      && e.Created? && e == EventOf(req, msg.id, msg.seqNo, e.recipients)
    case Bumped(req, row, msg, _, e, lastSeq) =>
      && RequestFormed(req) && Pending(s, t, req, row, msg)
      && e.Created? && e == EventOf(req, msg.id, msg.seqNo, e.recipients) && lastSeq == msg.seqNo
    case Enabling(c) => c in s.db.convs
    case Grouped(c) => c in s.db.convs && c !in s.db.groups && c in s.groupLocks && s.groupLocks[c] == t
    case FlagSet(c) =>
      && c in s.db.convs && c !in s.db.groups && c in s.groupLocks && s.groupLocks[c] == t
      && c in s.locks && s.locks[c] == t
    case Marking(c, _, upto, seen, ids) => c in s.db.log && seen <= |s.db.log[c]| && ids == UpTo(s.db.log[c][..seen], upto)
  }

  /** Ids in the tables were drawn by transactions that are over. */
  ghost predicate IdsSettled(s: State) {
    && (forall c, k :: c in s.db.log && 0 <= k < |s.db.log[c]| ==>
          s.db.log[c][k].id in s.drawn && s.drawn[s.db.log[c][k].id] !in s.txs)
    && (forall r :: r in s.db.receipts ==> r.0 in s.drawn && s.drawn[r.0] !in s.txs)
    && (forall id :: id in s.drawn ==> s.drawn[id] in s.used)
    && s.txs.Keys <= s.used
  }

  ghost predicate TxsOk(s: State) {
    forall t :: t in s.txs ==> TxOk(s, t, s.txs[t])
  }

  ghost predicate RepliesOk(s: State) {
    forall t :: t in s.replies ==>
      var r := s.replies[t]; Answered(s.db, r.conv, r.sender, r.key, r.id, r.seqNo)
  }

  ghost predicate Inv(s: State) {
    StoreOk(s.db) && IdsSettled(s) && TxsOk(s) && RepliesOk(s)
  }

  // ---- Refinement: a step is one legal transaction on the store, or nothing ----

  function OpOf(s: State, a: Action): Option<Op> {
    match a
    case Commit(t) =>
      if t !in s.txs then None
      else (match s.txs[t]
            case Bumped(req, _, msg, readers, e, _) =>
              if e.Created? then Some(SendOp(req, msg.id, readers, e.recipients)) else None
            case FlagSet(c) => Some(EnableOp(c))
            case Marking(c, user, upto, seen, _) => Some(MarkOp(c, user, upto, seen))
            case _ => None)
    case EditMessages(e) => Some(EditOp(e))
    case OpenConversation(c) => if c in s.db.convs then None else Some(CreateOp(c))
    case SetStatus(c, isOpen) => if c !in s.db.convs || c in s.locks then None else Some(StatusOp(c, isOpen))
    case SetParticipant(c, user, part) => Some(MemberOp(c, user, part))
    case _ => None
  }

  /** A commit changes the tables exactly as one legal atomic transaction would, or not at all. */
  lemma CommitRefines(s: State, t: TxId)
    requires Inv(s)
    ensures var op := OpOf(s, Commit(t));
            if op.None? then DoCommit(s, t).db == s.db
            else Legal(s.db, op.value) && DoCommit(s, t).db == Apply(s.db, op.value)
  {
    if t in s.txs {
      assert TxOk(s, t, s.txs[t]);
    }
  }

  /** A step changes the tables exactly as one legal atomic transaction would, or not at all. */
  lemma StepRefines(p: Primitives, s: State, a: Action)
    requires Inv(s)
    ensures OpOf(s, a).None? ==> Do(p, s, a).db == s.db
    ensures OpOf(s, a).Some? ==> Legal(s.db, OpOf(s, a).value) && Do(p, s, a).db == Apply(s.db, OpOf(s, a).value)
  {
    if a.Commit? {
      CommitRefines(s, a.tx);
    } else if Actor(a).Some? {
      QuietStep(p, s, a);
    }
  }

  /** Until it commits, a transaction changes no table. */
  lemma QuietStep(p: Primitives, s: State, a: Action)
    requires Actor(a).Some? && !a.Commit?
    ensures OpOf(s, a).None? && Do(p, s, a).db == s.db
  {
    if IsSendStep(a) {
      QuietSendStep(p, s, a);
    }
  }

  lemma QuietSendStep(p: Primitives, s: State, a: Action)
    requires IsSendStep(a)
    ensures Do(p, s, a).db == s.db
  {
    match a
    case TakeLock(t) => assert DoTakeLock(s, t).db == s.db;
    case CheckMember(t) => assert DoCheckMember(s, t).db == s.db;
    case LookUpKey(t) => QuietLookUp(s, t);
    case InsertMessage(t, id) => assert DoInsert(s, t, id).db == s.db;
    case InsertReceipts(t) => assert DoReceipts(s, t).db == s.db;
    case _ =>
  }

  /** The lookup moves its own transaction on, to a replay, an insert or a failure, and nothing else. */
  lemma QuietLookUp(s: State, t: TxId)
    ensures DoLookUpKey(s, t) == s || DoLookUpKey(s, t) == Finish(s, t) || exists tx :: DoLookUpKey(s, t) == Stage(s, t, tx)
    ensures DoLookUpKey(s, t).db == s.db && (t !in s.txs ==> DoLookUpKey(s, t) == s)
  {
  }

  // ---- The invariant is kept ----

  /** The same rows as far as identity goes, with perhaps more after them. */
  predicate Grown(before: seq<Message>, after: seq<Message>) {
    && |before| <= |after|
    && forall k :: 0 <= k < |before| ==>
         && before[k].id == after[k].id && before[k].sender == after[k].sender
         && before[k].key == after[k].key && before[k].seqNo == after[k].seqNo
  }

  lemma ApplyGrows(db: Store, op: Op, c: Uuid)
    requires Legal(db, op) && Numbered(db) && c in db.log
    ensures c in Apply(db, op).log && Grown(db.log[c], Apply(db, op).log[c])
  {
  }

  /** Transactions that need the row lock of `c`. */
  predicate Touches(op: Op, c: Uuid) {
    || (op.SendOp? && op.req.conv == c)
    || (op.EnableOp? && op.conv == c)
    || (op.StatusOp? && op.conv == c)
  }

  lemma UntouchedRow(db: Store, op: Op, c: Uuid)
    requires Legal(db, op) && Numbered(db) && c in db.convs && !Touches(op, c)
    ensures c in Apply(db, op).convs && Apply(db, op).convs[c] == db.convs[c]
    ensures c in Apply(db, op).log && |Apply(db, op).log[c]| == |db.log[c]|
    ensures c in Apply(db, op).groups <==> c in db.groups
  {
  }

  lemma AnsweredGrows(db: Store, after: Store, c: Uuid, sender: Uuid, key: Option<string>, id: Uuid, seqNo: nat)
    requires Answered(db, c, sender, key, id, seqNo)
    requires c in after.log && Grown(db.log[c], after.log[c])
    ensures Answered(after, c, sender, key, id, seqNo)
  {
    var k: nat :| Answers(db.log[c], k, sender, key, id, seqNo);
    assert Answers(after.log[c], k, sender, key, id, seqNo);
  }

  /** What a change of the tables leaves alone for the holder `t` of some locks. */
  ghost predicate LockedKept(s: State, after: Store, t: TxId) {
    && (forall c :: c in s.locks && s.locks[c] == t && c in s.db.convs ==>
          && c in after.convs && after.convs[c] == s.db.convs[c]
          && c in s.db.log && c in after.log && |after.log[c]| == |s.db.log[c]|)
    && (forall c :: c in s.groupLocks && s.groupLocks[c] == t && c !in s.db.groups ==> c !in after.groups)
    && (forall c :: c in s.db.log ==> c in after.log && Grown(s.db.log[c], after.log[c]))
  }

  /** The transaction that takes the step, if the step belongs to one. */
  function Actor(a: Action): Option<TxId> {
    match a
    case BeginSend(t, _, _, _, _, _, _, _) => Some(t)
    case TakeLock(t) => Some(t)
    case CheckMember(t) => Some(t)
    case LookUpKey(t) => Some(t)
    case InsertMessage(t, _) => Some(t)
    case InsertReceipts(t) => Some(t)
    case QueueEvent(t) => Some(t)
    case BumpSequence(t) => Some(t)
    case BeginEnable(t, _) => Some(t)
    case InsertGroup(t) => Some(t)
    case SetFlag(t) => Some(t)
    case BeginMarkRead(t, _, _, _) => Some(t)
    case Commit(t) => Some(t)
    case Abort(t) => Some(t)
    case _ => None
  }

  lemma MovesEnds(s: State, t: TxId, tx: Tx)
    ensures OnlyMoves(s, Begin(s, t, tx), t)
    ensures OnlyMoves(s, Finish(s, t), t)
  {
  }

  lemma MovesOn(s: State, t: TxId, c: Uuid, tx: Tx)
    requires t in s.txs
    ensures OnlyMoves(s, Stage(s, t, tx), t)
    ensures c !in s.locks ==> OnlyMoves(s, Grab(s, t, c, tx), t)
  {
  }

  lemma MovesLock(s: State, t: TxId)
    ensures OnlyMoves(s, DoTakeLock(s, t), t)
  {
    MovesEnds(s, t, Enabling(0));
    if t in s.txs && s.txs[t].Waiting? && s.txs[t].req.conv in s.db.convs {
      var req := s.txs[t].req;
      MovesOn(s, t, req.conv, Locked(req, s.db.convs[req.conv]));
    }
  }

  lemma MovesCheck(s: State, t: TxId)
    ensures OnlyMoves(s, DoCheckMember(s, t), t)
  {
    MovesEnds(s, t, Enabling(0));
  }

  lemma MovesInsert(s: State, t: TxId, id: Uuid)
    ensures OnlyMoves(s, DoInsert(s, t, id), t)
  {
    MovesEnds(s, t, Enabling(0));
  }

  lemma MovesLookUp(s: State, t: TxId)
    ensures OnlyMoves(s, DoLookUpKey(s, t), t)
  {
    QuietLookUp(s, t);
    MovesEnds(s, t, Enabling(0));
  }

  lemma MovesQueue(s: State, t: TxId)
    ensures OnlyMoves(s, DoQueue(s, t), t)
  {
    MovesEnds(s, t, Enabling(0));
  }

  lemma MovesWrite(s: State, t: TxId)
    ensures OnlyMoves(s, DoReceipts(s, t), t)
    ensures OnlyMoves(s, DoBump(s, t), t)
  {
  }

  lemma MovesGroup(s: State, t: TxId)
    ensures OnlyMoves(s, DoInsertGroup(s, t), t)
  {
    MovesEnds(s, t, Enabling(0));
  }

  lemma MovesEnable(s: State, t: TxId, c: Uuid)
    ensures OnlyMoves(s, DoBeginEnable(s, t, c), t)
    ensures OnlyMoves(s, DoSetFlag(s, t), t)
  {
  }

  /** The steps so far agree on everything but the tables and the replies. */
  predicate SameControl(s: State, next: State) {
    && next.locks == s.locks && next.groupLocks == s.groupLocks && next.txs == s.txs
    && next.drawn == s.drawn && next.used == s.used
  }

  lemma MovesNothing(s: State, next: State, t: TxId)
    requires SameControl(s, next)
    ensures OnlyMoves(s, next, t)
    ensures OnlyMoves(s, Finish(next, t), t)
  {
  }

  lemma MovesCommit(s: State, t: TxId)
    ensures OnlyMoves(s, DoCommit(s, t), t)
  {
    if t !in s.txs {
      MovesNothing(s, s, t);
    } else {
      match s.txs[t]
      case Bumped(_, _, _, _, _, _) => MovesCommitSend(s, t);
      case Replay(req, m) =>
        MovesNothing(s, s.(replies := s.replies[t := Reply(req.conv, req.sender, req.key, m.id, m.seqNo)]), t);
      case FlagSet(c) =>
        MovesNothing(s, s, t);
        if c in s.db.convs {
          MovesNothing(s, s.(db := s.db.(groups := s.db.groups + {c}, convs := s.db.convs[c := s.db.convs[c].(e2ee := true)])), t);
        }
      case Marking(c, user, upto, _, ids) => MovesNothing(s, s.(db := MarkRead(s.db, c, user, upto, ids)), t);
      case _ => MovesNothing(s, s, t);
    }
  }

  lemma MovesCommitSend(s: State, t: TxId)
    requires t in s.txs && s.txs[t].Bumped?
    ensures OnlyMoves(s, DoCommit(s, t), t)
  {
  }

  lemma MovesBegin(p: Primitives, s: State, a: Action)
    requires a.BeginSend? || a.BeginMarkRead?
    ensures OnlyMoves(s, Do(p, s, a), a.tx)
  {
  }

  predicate IsSendStep(a: Action) {
    a.TakeLock? || a.CheckMember? || a.LookUpKey? || a.InsertMessage? || a.InsertReceipts? || a.QueueEvent? || a.BumpSequence?
  }

  lemma SendStepMovesActor(p: Primitives, s: State, a: Action)
    requires IsSendStep(a)
    ensures OnlyMoves(s, Do(p, s, a), a.tx)
  {
    match a
    case TakeLock(t) => MovesLock(s, t);
    case CheckMember(t) => MovesCheck(s, t);
    case InsertMessage(t, id) => MovesInsert(s, t, id);
    case LookUpKey(t) => MovesLookUp(s, t);
    case InsertReceipts(t) => MovesWrite(s, t);
    case QueueEvent(t) => MovesQueue(s, t);
    case BumpSequence(t) => MovesWrite(s, t);
  }

  lemma OtherStepMovesActor(p: Primitives, s: State, a: Action)
    requires Actor(a).Some? && !IsSendStep(a)
    ensures OnlyMoves(s, Do(p, s, a), a.tx)
  {
    match a
    case BeginSend(_, _, _, _, _, _, _, _) => MovesBegin(p, s, a);
    case BeginMarkRead(_, _, _, _) => MovesBegin(p, s, a);
    case BeginEnable(t, c) => MovesEnable(s, t, c);
    case InsertGroup(t) => MovesGroup(s, t);
    case SetFlag(t) => MovesEnable(s, t, 0);
    case Commit(t) => MovesCommit(s, t);
    case Abort(t) => MovesEnds(s, t, Enabling(0));
  }

  lemma EnvironmentMovesNothing(p: Primitives, s: State, a: Action)
    requires Actor(a).None?
    ensures SameControl(s, Do(p, s, a))
  {
  }

  /** A step moves the transaction it belongs to and no other. */
  lemma StepMovesActor(p: Primitives, s: State, a: Action, t: TxId)
    requires Actor(a).Some? ==> Actor(a).value == t
    ensures OnlyMoves(s, Do(p, s, a), t)
  {
    if Actor(a).None? {
      EnvironmentMovesNothing(p, s, a);
      MovesNothing(s, Do(p, s, a), t);
    } else if IsSendStep(a) {
      SendStepMovesActor(p, s, a);
    } else {
      OtherStepMovesActor(p, s, a);
    }
  }

  /** Only a committing send adds a reply. */
  lemma StepAddsReplies(p: Primitives, s: State, a: Action)
    ensures !a.Commit? ==> Do(p, s, a).replies == s.replies
  {
  }

  lemma CommitAddsReply(s: State, t: TxId)
    ensures forall u :: u in DoCommit(s, t).replies && u != t ==> u in s.replies && DoCommit(s, t).replies[u] == s.replies[u]
    ensures (t in s.txs && (s.txs[t].Bumped? || s.txs[t].Replay?)) || DoCommit(s, t).replies == s.replies
  {
  }

  /** A committing transaction never touches a row that another one has locked. */
  lemma StepTouchesOwn(s: State, a: Action, t: TxId, c: Uuid)
    requires Inv(s) && t in s.txs && Actor(a) != Some(t) && OpOf(s, a).Some?
    ensures c in s.locks && s.locks[c] == t ==> !Touches(OpOf(s, a).value, c)
    ensures c in s.groupLocks && s.groupLocks[c] == t ==> OpOf(s, a).value != EnableOp(c)
  {
    if a.Commit? {
      assert TxOk(s, a.tx, s.txs[a.tx]);
    }
  }

  lemma StepKeepsLocked(p: Primitives, s: State, a: Action, t: TxId)
    requires Inv(s) && t in s.txs && Actor(a) != Some(t)
    ensures LockedKept(s, Do(p, s, a).db, t)
  {
    StepRefines(p, s, a);
    if OpOf(s, a).Some? {
      OpKeepsLocked(s, a, t);
    } else {
      NothingKeepsLocked(s, t);
    }
  }

  lemma NothingKeepsLocked(s: State, t: TxId)
    requires Inv(s)
    ensures LockedKept(s, s.db, t)
  {
  }

  lemma OpKeepsLocked(s: State, a: Action, t: TxId)
    requires Inv(s) && t in s.txs && Actor(a) != Some(t) && OpOf(s, a).Some? && Legal(s.db, OpOf(s, a).value)
    ensures LockedKept(s, Apply(s.db, OpOf(s, a).value), t)
  {
    var op := OpOf(s, a).value;
    forall c | c in s.db.log ensures c in Apply(s.db, op).log && Grown(s.db.log[c], Apply(s.db, op).log[c]) {
      ApplyGrows(s.db, op, c);
    }
    forall c | c in s.locks && s.locks[c] == t && c in s.db.convs
      ensures c in Apply(s.db, op).convs && Apply(s.db, op).convs[c] == s.db.convs[c]
      ensures c in Apply(s.db, op).log && |Apply(s.db, op).log[c]| == |s.db.log[c]|
    {
      StepTouchesOwn(s, a, t, c);
      UntouchedRow(s.db, op, c);
    }
    forall c | c in s.groupLocks && s.groupLocks[c] == t && c !in s.db.groups ensures c !in Apply(s.db, op).groups {
      StepTouchesOwn(s, a, t, c);
    }
  }

  /** What a transaction relied on before someone else's step, it can rely on after it. */
  lemma OthersKeepTx(s: State, next: State, u: TxId, t: TxId, tx: Tx)
    requires TxOk(s, t, tx) && u != t && OnlyMoves(s, next, u) && LockedKept(s, next.db, t)
    requires Numbered(s.db) && Numbered(next.db) && IdsDistinct(next.db)
    ensures TxOk(next, t, tx)
  {
    match tx
    case Replay(req, m) => AnsweredGrows(s.db, next.db, req.conv, req.sender, req.key, m.id, m.seqNo);
    case Marking(c, _, upto, seen, _) => MarksStay(s.db.log[c], next.db.log[c], upto, seen);
    case Inserted(req, row, msg) => OthersKeepPending(s, next, u, t, req, row, msg);
    case Receipted(req, row, msg, _, _) => OthersKeepPending(s, next, u, t, req, row, msg);
    case Queued(req, row, msg, _, _) => OthersKeepPending(s, next, u, t, req, row, msg);
    case Bumped(req, row, msg, _, _, _) => OthersKeepPending(s, next, u, t, req, row, msg);
    case _ =>
  }

  lemma OthersKeepPending(s: State, next: State, u: TxId, t: TxId, req: SendRequest, row: Conversation, msg: Message)
    requires Pending(s, t, req, row, msg) && u != t && OnlyMoves(s, next, u) && LockedKept(s, next.db, t)
    ensures Pending(next, t, req, row, msg)
  {
  }

  /** The subquery's answer does not depend on what was committed after it. */
  lemma MarksStay(before: seq<Message>, after: seq<Message>, upto: int, seen: nat)
    requires Grown(before, after) && seen <= |before|
    ensures UpTo(before[..seen], upto) == UpTo(after[..seen], upto)
  {
    var b, a := before[..seen], after[..seen];
    forall x ensures x in UpTo(b, upto) <==> x in UpTo(a, upto) {
      if x in UpTo(b, upto) {
        var k :| 0 <= k < seen && b[k].seqNo <= upto && b[k].id == x;
        assert a[k].seqNo <= upto && a[k].id == x;
      }
      if x in UpTo(a, upto) {
        var k :| 0 <= k < seen && a[k].seqNo <= upto && a[k].id == x;
        assert b[k].seqNo <= upto && b[k].id == x;
      }
    }
  }

  lemma OpFormed(s: State, a: Action)
    requires Inv(s)
    ensures OpOf(s, a).Some? && OpOf(s, a).value.SendOp? ==> RequestFormed(OpOf(s, a).value.req)
  {
    if a.Commit? && a.tx in s.txs { assert TxOk(s, a.tx, s.txs[a.tx]); }
  }

  lemma StepStore(p: Primitives, s: State, a: Action)
    requires Inv(s)
    ensures StoreOk(Do(p, s, a).db)
  {
    StepRefines(p, s, a);
    OpFormed(s, a);
    if OpOf(s, a).Some? {
      ApplyKeepsStoreOk(s.db, OpOf(s, a).value);
    }
  }

  lemma BodyColumnsFormed(p: Primitives, ring: KeyRing, text: string, encrypt: bool, r: EnvelopeCrypto.Randomness)
    ensures var b := BodyColumns(p, ring, text, encrypt, r);
            b.Some? ==> PlainBody(b.value) || EncryptedBody(b.value)
  {
  }

  lemma ActBegin(s: State, t: TxId, tx: Tx)
    requires Inv(s) && (t !in s.txs ==> TxOk(Begin(s, t, tx), t, tx))
    ensures t in Begin(s, t, tx).txs ==> TxOk(Begin(s, t, tx), t, Begin(s, t, tx).txs[t])
  {
    if t in s.txs {
      assert TxOk(s, t, s.txs[t]);
    }
  }

  lemma ActBeginSend(p: Primitives, s: State, a: Action)
    requires Inv(s) && a.BeginSend?
    ensures a.tx in DoBeginSend(p, s, a).txs ==> TxOk(DoBeginSend(p, s, a), a.tx, DoBeginSend(p, s, a).txs[a.tx])
  {
    BodyColumnsFormed(p, s.ring, a.text, a.encrypt, a.random);
    var body := BodyColumns(p, s.ring, a.text, a.encrypt, a.random);
    if a.tx in s.txs { assert TxOk(s, a.tx, s.txs[a.tx]); }
    if body.Some? {
      ActBegin(s, a.tx, Waiting(SendRequest(a.conv, a.sender, a.key, a.text, if a.flagged then Flagged else Sent, body.value)));
    }
  }

  lemma ActBeginEnable(s: State, t: TxId, c: Uuid)
    requires Inv(s)
    ensures t in DoBeginEnable(s, t, c).txs ==> TxOk(DoBeginEnable(s, t, c), t, DoBeginEnable(s, t, c).txs[t])
  {
    if t in s.txs { assert TxOk(s, t, s.txs[t]); }
  }

  lemma ActBeginMark(s: State, a: Action)
    requires Inv(s) && a.BeginMarkRead?
    ensures a.tx in DoBeginMark(s, a).txs ==> TxOk(DoBeginMark(s, a), a.tx, DoBeginMark(s, a).txs[a.tx])
  {
    if a.tx in s.txs { assert TxOk(s, a.tx, s.txs[a.tx]); }
    if a.conv in s.db.log {
      var rows := s.db.log[a.conv];
      assert rows[..|rows|] == rows;
      ActBegin(s, a.tx, Marking(a.conv, a.user, a.upto, |rows|, UpTo(rows, a.upto)));
    }
  }

  lemma ActLock(s: State, t: TxId)
    requires Inv(s) && t in s.txs
    ensures t in DoTakeLock(s, t).txs ==> TxOk(DoTakeLock(s, t), t, DoTakeLock(s, t).txs[t])
    ensures t in DoCheckMember(s, t).txs ==> TxOk(DoCheckMember(s, t), t, DoCheckMember(s, t).txs[t])
  {
    assert TxOk(s, t, s.txs[t]);
  }

  lemma ActQueue(s: State, t: TxId)
    requires Inv(s) && t in s.txs
    ensures t in DoQueue(s, t).txs ==> TxOk(DoQueue(s, t), t, DoQueue(s, t).txs[t])
  {
    assert TxOk(s, t, s.txs[t]);
  }

  lemma ActBump(s: State, t: TxId)
    requires Inv(s) && t in s.txs
    ensures TxOk(DoBump(s, t), t, DoBump(s, t).txs[t])
  {
    assert TxOk(s, t, s.txs[t]);
  }

  lemma ActReceipts(s: State, t: TxId)
    requires Inv(s) && t in s.txs
    ensures TxOk(DoReceipts(s, t), t, DoReceipts(s, t).txs[t])
  {
    assert TxOk(s, t, s.txs[t]);
  }

  lemma FoundAnswers(rows: seq<Message>, sender: Uuid, key: Option<string>)
    requires FindKey(rows, sender, key).Some?
    ensures var m := FindKey(rows, sender, key).value; exists k: nat :: Answers(rows, k, sender, key, m.id, m.seqNo)
  {
    var m := FindKey(rows, sender, key).value;
    var k :| 0 <= k < |rows| && rows[k] == m;
    assert Answers(rows, k, sender, key, m.id, m.seqNo);
  }

  lemma ActLookUp(s: State, t: TxId)
    requires Inv(s) && t in s.txs
    ensures t in DoLookUpKey(s, t).txs ==> TxOk(DoLookUpKey(s, t), t, DoLookUpKey(s, t).txs[t])
  {
    var next := DoLookUpKey(s, t);
    assert TxOk(s, t, s.txs[t]);
    if t in next.txs {
      LookUpAdvances(s, t);
      QuietLookUp(s, t);
      var tx := next.txs[t];
      if tx.Replay? && tx != s.txs[t] {
        FoundAnswers(s.db.log[tx.req.conv], tx.req.sender, tx.req.key);
      }
    }
  }

  lemma ActInsert(s: State, t: TxId, id: Uuid)
    requires Inv(s) && t in s.txs
    ensures t in DoInsert(s, t, id).txs ==> TxOk(DoInsert(s, t, id), t, DoInsert(s, t, id).txs[t])
  {
    assert TxOk(s, t, s.txs[t]);
  }

  lemma ActEnable(s: State, t: TxId)
    requires Inv(s) && t in s.txs
    ensures t in DoInsertGroup(s, t).txs ==> TxOk(DoInsertGroup(s, t), t, DoInsertGroup(s, t).txs[t])
    ensures TxOk(DoSetFlag(s, t), t, DoSetFlag(s, t).txs[t])
  {
    assert TxOk(s, t, s.txs[t]);
  }

  lemma ActEnd(s: State, t: TxId)
    requires Inv(s) && t in s.txs
    ensures t in DoCommit(s, t).txs ==> DoCommit(s, t) == s && TxOk(s, t, s.txs[t])
    ensures t !in Finish(s, t).txs
  {
    assert TxOk(s, t, s.txs[t]);
  }

  lemma SendStepActor(p: Primitives, s: State, a: Action)
    requires Inv(s) && IsSendStep(a) && a.tx in s.txs
    ensures a.tx in Do(p, s, a).txs ==> TxOk(Do(p, s, a), a.tx, Do(p, s, a).txs[a.tx])
  {
    match a
    case TakeLock(t) => ActLock(s, t);
    case CheckMember(t) => ActLock(s, t);
    case LookUpKey(t) => ActLookUp(s, t);
    case InsertMessage(t, id) => ActInsert(s, t, id);
    case InsertReceipts(t) => ActReceipts(s, t);
    case QueueEvent(t) => ActQueue(s, t);
    case BumpSequence(t) => ActBump(s, t);
  }

  lemma OtherStepActor(p: Primitives, s: State, a: Action)
    requires Inv(s) && !IsSendStep(a) && Actor(a).Some?
    ensures a.tx in Do(p, s, a).txs ==> TxOk(Do(p, s, a), a.tx, Do(p, s, a).txs[a.tx])
  {
    match a
    case BeginSend(_, _, _, _, _, _, _, _) => ActBeginSend(p, s, a);
    case BeginMarkRead(_, _, _, _) => ActBeginMark(s, a);
    case BeginEnable(t, c) => ActBeginEnable(s, t, c);
    case InsertGroup(t) => if t in s.txs { ActEnable(s, t); }
    case SetFlag(t) => if t in s.txs { ActEnable(s, t); }
    case Commit(t) => if t in s.txs { ActEnd(s, t); }
    case Abort(t) => if t in s.txs { ActEnd(s, t); }
  }

  /** The acting transaction's own new stage is in order. */
  lemma StepActor(p: Primitives, s: State, a: Action, t: TxId)
    requires Inv(s) && Actor(a) == Some(t)
    ensures t in Do(p, s, a).txs ==> TxOk(Do(p, s, a), t, Do(p, s, a).txs[t])
  {
    if !IsSendStep(a) {
      OtherStepActor(p, s, a);
    } else if t in s.txs {
      SendStepActor(p, s, a);
    }
  }

  lemma StepTxs(p: Primitives, s: State, a: Action)
    requires Inv(s) && StoreOk(Do(p, s, a).db)
    ensures TxsOk(Do(p, s, a))
  {
    var next := Do(p, s, a);
    forall t | t in next.txs ensures TxOk(next, t, next.txs[t]) {
      if Actor(a) == Some(t) {
        StepActor(p, s, a, t);
      } else {
        var u := if Actor(a).Some? then Actor(a).value else t + 1;
        StepMovesActor(p, s, a, u);
        StepKeepsLocked(p, s, a, t);
        OthersKeepTx(s, next, u, t, s.txs[t]);
      }
    }
  }

  lemma StepIds(p: Primitives, s: State, a: Action)
    requires Inv(s)
    ensures IdsSettled(Do(p, s, a))
  {
    if Actor(a).None? {
      IdsEnvironment(p, s, a);
    } else if a.Commit? {
      if a.tx in s.txs { IdsCommit(s, a.tx); }
    } else {
      StepRefines(p, s, a);
      StepMovesActor(p, s, a, Actor(a).value);
      IdsQuiet(s, Do(p, s, a), Actor(a).value);
    }
  }

  lemma IdsQuiet(s: State, next: State, t: TxId)
    requires IdsSettled(s) && OnlyMoves(s, next, t)
    requires next.db.log == s.db.log && next.db.receipts.Keys == s.db.receipts.Keys
    ensures IdsSettled(next)
  {
  }

  lemma IdsCommit(s: State, t: TxId)
    requires Inv(s) && t in s.txs
    ensures IdsSettled(DoCommit(s, t))
  {
    if s.txs[t].Bumped? {
      IdsCommitSend(s, t);
    } else {
      MovesCommit(s, t);
      CommitKeepsIds(s, t);
      IdsQuiet(s, DoCommit(s, t), t);
    }
  }

  lemma CommitKeepsIds(s: State, t: TxId)
    requires Inv(s) && t in s.txs && !s.txs[t].Bumped?
    ensures DoCommit(s, t).db.log == s.db.log && DoCommit(s, t).db.receipts.Keys == s.db.receipts.Keys
  {
    CommitRefines(s, t);
  }

  lemma IdsEnvironment(p: Primitives, s: State, a: Action)
    requires Inv(s) && Actor(a).None?
    ensures IdsSettled(Do(p, s, a))
  {
    EnvironmentMovesNothing(p, s, a);
    StepRefines(p, s, a);
    if OpOf(s, a).Some? { IdsOp(s, Do(p, s, a), OpOf(s, a).value); }
  }

  lemma IdsOp(s: State, next: State, op: Op)
    requires IdsSettled(s) && SameControl(s, next) && Legal(s.db, op) && next.db == Apply(s.db, op)
    requires op.EditOp? || op.CreateOp? || op.StatusOp? || op.MemberOp?
    ensures IdsSettled(next)
  {
    if op.EditOp? { EditKeepsIdentity(op.edit, s.db.log); }
  }

  lemma IdsCommitSend(s: State, t: TxId)
    requires Inv(s) && t in s.txs && s.txs[t].Bumped?
    ensures IdsSettled(DoCommit(s, t))
  {
    assert TxOk(s, t, s.txs[t]);
    var next := DoCommit(s, t);
    var Bumped(req, row, msg, readers, _, _) := s.txs[t];
    forall c, k | c in next.db.log && 0 <= k < |next.db.log[c]|
      ensures next.db.log[c][k].id in next.drawn && next.drawn[next.db.log[c][k].id] !in next.txs
    {
      assert next.db.log[c][k] == msg || (c in s.db.log && k < |s.db.log[c]| && next.db.log[c][k] == s.db.log[c][k]);
    }
    forall r | r in next.db.receipts ensures r.0 in next.drawn && next.drawn[r.0] !in next.txs {
      assert r.0 == msg.id || r in s.db.receipts;
    }
  }

  lemma StepReplies(p: Primitives, s: State, a: Action)
    requires Inv(s)
    ensures RepliesOk(Do(p, s, a))
  {
    var next := Do(p, s, a);
    StepRefines(p, s, a);
    StepAddsReplies(p, s, a);
    forall t | t in next.replies
      ensures var r := next.replies[t]; Answered(next.db, r.conv, r.sender, r.key, r.id, r.seqNo)
    {
      if a.Commit? { CommitAddsReply(s, a.tx); }
      if a == Commit(t) && t in s.txs && (s.txs[t].Bumped? || s.txs[t].Replay?) {
        ReplyAnswered(s, t);
      } else {
        OldReply(s, OpOf(s, a), s.replies[t]);
      }
    }
  }

  lemma OldReply(s: State, op: Option<Op>, r: Reply)
    requires Inv(s) && Answered(s.db, r.conv, r.sender, r.key, r.id, r.seqNo)
    requires op.Some? ==> Legal(s.db, op.value)
    ensures Answered(if op.Some? then Apply(s.db, op.value) else s.db, r.conv, r.sender, r.key, r.id, r.seqNo)
  {
    if op.Some? {
      ApplyGrows(s.db, op.value, r.conv);
      AnsweredGrows(s.db, Apply(s.db, op.value), r.conv, r.sender, r.key, r.id, r.seqNo);
    }
  }

  lemma ReplyAnswered(s: State, t: TxId)
    requires Inv(s) && t in s.txs && (s.txs[t].Bumped? || s.txs[t].Replay?)
    ensures t in DoCommit(s, t).replies
    ensures var r := DoCommit(s, t).replies[t]; Answered(DoCommit(s, t).db, r.conv, r.sender, r.key, r.id, r.seqNo)
  {
    assert TxOk(s, t, s.txs[t]);
    if s.txs[t].Bumped? {
      var Bumped(req, row, msg, _, _, _) := s.txs[t];
      assert Answers(DoCommit(s, t).db.log[req.conv], |s.db.log[req.conv]|, req.sender, req.key, msg.id, msg.seqNo);
    }
  }

  lemma StepKeepsInv(p: Primitives, s: State, a: Action)
    requires Inv(s)
    ensures Inv(Do(p, s, a))
  {
    StepStore(p, s, a);
    StepIds(p, s, a);
    StepTxs(p, s, a);
    StepReplies(p, s, a);
  }

  // ---- Whole runs ----

  /** The transactions that a run committed, in commit order. */
  function History(p: Primitives, s: State, actions: seq<Action>): seq<Op> {
    if actions == [] then []
    else
      var before := actions[..|actions| - 1];
      var op := OpOf(Run(p, s, before), actions[|actions| - 1]);
      History(p, s, before) + if op.Some? then [op.value] else []
  }

  /** Every interleaving, with any number of transactions, failures and crashes, leaves the tables
      exactly as running its committed transactions one after the other does. */
  lemma {:induction false} RunIsSerial(p: Primitives, s: State, actions: seq<Action>)
    requires Inv(s)
    ensures Inv(Run(p, s, actions))
    ensures AllLegal(s.db, History(p, s, actions))
    ensures Run(p, s, actions).db == Serial(s.db, History(p, s, actions))
  {
    if actions != [] {
      var before, a := actions[..|actions| - 1], actions[|actions| - 1];
      RunIsSerial(p, s, before);
      var mid := Run(p, s, before);
      StepKeepsInv(p, mid, a);
      StepRefines(p, mid, a);
      var h := History(p, s, actions);
      if OpOf(mid, a).Some? {
        assert h[..|h| - 1] == History(p, s, before);
      } else {
        assert h == History(p, s, before);
      }
    }
  }

  lemma InitialOk(ring: KeyRing)
    ensures Inv(Initial(ring))
  {
  }
}
