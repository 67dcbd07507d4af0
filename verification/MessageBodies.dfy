/** Bodies stay readable: what is listed is the text that was sent. */
module MessageBodies {
  import opened Wrappers
  import opened LocalKms
  import opened MessageStore
  import opened MessageLog
  import opened MessageGuarantees
  import EnvelopeCrypto

  const MASK := "[Message masqué par la modération]"

  /** How an encrypted body is read at the moment. */
  type Opener = EnvelopeCrypto.Payload -> Result<string>

  function OpenerOf(p: Primitives, ring: KeyRing): Opener {
    m => EnvelopeCrypto.Decrypt(p, ring, m)
  }

  function BodyText(open: Opener, b: Body): Result<string> {
    if b.plain.Some? then Ok(b.plain.value)
    else if b.ciphertext.Some? && b.iv.Some? && b.tag.Some? && b.dekId.Some? then
      open(EnvelopeCrypto.Payload(b.ciphertext.value, b.iv.value, b.tag.value, b.dekId.value))
    else Ok("")
  }

  /** `toDecrypted` on a row that comes from the table. */
  function ToDecrypted(open: Opener, m: Message): Result<string> {
    match m.status
    case Deleted => Ok("")
    case Hidden => Ok(MASK)
    case _ => BodyText(open, m.body)
  }

  // ---- The invariant ----

  /** Each undeleted row reads as the text that its creation event announced. */
  ghost predicate RowsReadable(open: Opener, db: Store) {
    forall c, k :: c in db.log && 0 <= k < |db.log[c]| && k < |CreatedIn(db.outbox, c)| && db.log[c][k].deletedAt.None? ==>
      BodyText(open, db.log[c][k].body) == Ok(CreatedIn(db.outbox, c)[k].text)
  }

  ghost predicate TxsReadable(open: Opener, s: State) {
    forall t :: t in s.txs && RequestOf(s.txs[t]).Some? ==>
      BodyText(open, RequestOf(s.txs[t]).value.body) == Ok(RequestOf(s.txs[t]).value.text)
  }

  ghost predicate Readable(open: Opener, s: State) {
    RowsReadable(open, s.db) && TxsReadable(open, s)
  }

  lemma AppendReadable(open: Opener, db: Store, op: Op)
    requires StoreOk(db) && op.SendOp? && Legal(db, op) && RowsReadable(open, db) && BodyText(open, op.req.body) == Ok(op.req.text)
    ensures RowsReadable(open, Apply(db, op))
  {
    var after := Apply(db, op);
    forall c, k | c in after.log && 0 <= k < |after.log[c]| && k < |CreatedIn(after.outbox, c)| && after.log[c][k].deletedAt.None?
      ensures BodyText(open, after.log[c][k].body) == Ok(CreatedIn(after.outbox, c)[k].text)
    {
      SendOpRow(db, op, c, k);
    }
  }

  /** An edit either leaves a row's body alone or deletes the row. */
  lemma EditReadable(open: Opener, db: Store, e: Edit)
    requires RowsReadable(open, db)
    ensures RowsReadable(open, db.(log := EditLog(e, db.log)))
  {
    var after := db.(log := EditLog(e, db.log));
    forall c, k | c in after.log && 0 <= k < |after.log[c]| && k < |CreatedIn(after.outbox, c)| && after.log[c][k].deletedAt.None?
      ensures BodyText(open, after.log[c][k].body) == Ok(CreatedIn(after.outbox, c)[k].text)
    {
      assert after.log[c][k] == EditRow(e, db.log[c][k]);
      assert after.log[c][k].body == db.log[c][k].body && db.log[c][k].deletedAt.None?;
    }
  }

  lemma OpReadable(open: Opener, db: Store, op: Op)
    requires StoreOk(db) && Legal(db, op) && RowsReadable(open, db)
    requires op.SendOp? ==> BodyText(open, op.req.body) == Ok(op.req.text)
    ensures RowsReadable(open, Apply(db, op))
  {
    match op
    case SendOp(_, _, _, _) => AppendReadable(open, db, op);
    case EditOp(e) => EditReadable(open, db, e);
    case MarkOp(c, user, upto, _) => OutboxGrows(db.outbox, ReadUpTo(c, user, upto));
    case _ =>
  }

  /** A transaction keeps the request it was started with. */
  lemma ActorKeepsRequest(p: Primitives, s: State, a: Action, t: TxId)
    requires Actor(a) == Some(t) && t in s.txs && s.txs.Keys <= s.used && t in Do(p, s, a).txs
    ensures RequestOf(Do(p, s, a).txs[t]) == RequestOf(s.txs[t])
  {
    if IsSendStep(a) { SendStepKeepsRequest(p, s, a); } else { OtherStepKeepsRequest(p, s, a); }
  }

  lemma SendStepKeepsRequest(p: Primitives, s: State, a: Action)
    requires IsSendStep(a) && a.tx in s.txs && a.tx in Do(p, s, a).txs
    ensures RequestOf(Do(p, s, a).txs[a.tx]) == RequestOf(s.txs[a.tx])
  {
    SendStepAdvances(p, s, a, a.tx);
  }

  lemma OtherStepKeepsRequest(p: Primitives, s: State, a: Action)
    requires Actor(a).Some? && !IsSendStep(a) && a.tx in s.txs && s.txs.Keys <= s.used && a.tx in Do(p, s, a).txs
    ensures RequestOf(Do(p, s, a).txs[a.tx]) == RequestOf(s.txs[a.tx])
  {
  }

  /** The body columns computed before the transaction read back as the text. */
  lemma ColumnsReadable(p: Primitives, ring: KeyRing, text: string, encrypt: bool, r: EnvelopeCrypto.Randomness)
    requires Lawful(p) && WellFormed(ring) && EnvelopeCrypto.Sized(r)
    ensures BodyColumns(p, ring, text, encrypt, r).Some?
    ensures var b := BodyColumns(p, ring, text, encrypt, r).value;
            && (if encrypt then EncryptedBody(b) else PlainBody(b) && b.plain == Some(text))
            && b.alg == if encrypt then Some("aes-256-gcm") else None
    ensures BodyText(OpenerOf(p, ring), BodyColumns(p, ring, text, encrypt, r).value) == Ok(text)
  {
    EnvelopeCrypto.DecryptEncrypt(p, ring, ring, r, text);
  }

  /** More keys change nothing that could be read before. */
  lemma MoreKeys(p: Primitives, ring: KeyRing, later: KeyRing, s: State)
    requires Extends(later, ring) && Readable(OpenerOf(p, ring), s)
    ensures Readable(OpenerOf(p, later), s)
  {
    forall m | OpenerOf(p, ring)(m).Ok? ensures OpenerOf(p, later)(m) == OpenerOf(p, ring)(m) {
      EnvelopeCrypto.DecryptStable(p, ring, later, m);
    }
  }

  lemma RingStep(p: Primitives, s: State, a: Action)
    ensures a.AddKeys? ==> Do(p, s, a) == s || (WellFormed(a.ring) && Extends(a.ring, s.ring) && Do(p, s, a) == s.(ring := a.ring))
    ensures !a.AddKeys? ==> Do(p, s, a).ring == s.ring
  {
    if a.AddKeys? {
    } else if IsSendStep(a) {
      SendStepKeepsRing(p, s, a);
    } else {
      OtherStepKeepsRing(p, s, a);
    }
  }

  lemma SendStepKeepsRing(p: Primitives, s: State, a: Action)
    requires IsSendStep(a)
    ensures Do(p, s, a).ring == s.ring
  {
  }

  lemma OtherStepKeepsRing(p: Primitives, s: State, a: Action)
    requires !IsSendStep(a) && !a.AddKeys?
    ensures Do(p, s, a).ring == s.ring
  {
  }

  lemma BeginReadable(p: Primitives, s: State, a: Action)
    requires Lawful(p) && WellFormed(s.ring) && a.BeginSend? && a.tx !in s.txs && a.tx in Do(p, s, a).txs
    ensures RequestOf(Do(p, s, a).txs[a.tx]).Some?
    ensures var req := RequestOf(Do(p, s, a).txs[a.tx]).value; BodyText(OpenerOf(p, s.ring), req.body) == Ok(req.text)
  {
    if EnvelopeCrypto.Sized(a.random) {
      ColumnsReadable(p, s.ring, a.text, a.encrypt, a.random);
    }
  }

  lemma NewTransaction(p: Primitives, s: State, a: Action, t: TxId)
    requires t !in s.txs && t in Do(p, s, a).txs
    ensures a.BeginSend? || RequestOf(Do(p, s, a).txs[t]).None?
    ensures Actor(a) == Some(t)
  {
    if Actor(a) != Some(t) {
      StepMovesActor(p, s, a, if Actor(a).Some? then Actor(a).value else t + 1);
    } else if IsSendStep(a) {
      SendStepNeedsTransaction(p, s, a);
    } else {
      OtherStepNeedsTransaction(p, s, a);
    }
  }

  lemma SendStepNeedsTransaction(p: Primitives, s: State, a: Action)
    requires IsSendStep(a) && a.tx !in s.txs
    ensures Do(p, s, a) == s
  {
  }

  lemma OtherStepNeedsTransaction(p: Primitives, s: State, a: Action)
    requires Actor(a).Some? && !IsSendStep(a) && a.tx !in s.txs && a.tx in Do(p, s, a).txs
    ensures a.BeginSend? || RequestOf(Do(p, s, a).txs[a.tx]).None?
  {
  }

  lemma StepTxsReadable(p: Primitives, s: State, a: Action)
    requires Lawful(p) && WellFormed(s.ring) && Inv(s) && TxsReadable(OpenerOf(p, s.ring), s)
    ensures TxsReadable(OpenerOf(p, s.ring), Do(p, s, a))
  {
    var next := Do(p, s, a);
    forall t | t in next.txs && RequestOf(next.txs[t]).Some?
      ensures BodyText(OpenerOf(p, s.ring), RequestOf(next.txs[t]).value.body) == Ok(RequestOf(next.txs[t]).value.text)
    {
      if t !in s.txs {
        NewTransaction(p, s, a, t);
        BeginReadable(p, s, a);
      } else if Actor(a) == Some(t) {
        ActorKeepsRequest(p, s, a, t);
      } else {
        StepMovesActor(p, s, a, if Actor(a).Some? then Actor(a).value else t + 1);
      }
    }
  }

  lemma StepRowsReadable(p: Primitives, s: State, a: Action)
    requires Inv(s) && Readable(OpenerOf(p, s.ring), s)
    ensures RowsReadable(OpenerOf(p, s.ring), Do(p, s, a).db)
  {
    StepRefines(p, s, a);
    if OpOf(s, a).Some? {
      OpReadable(OpenerOf(p, s.ring), s.db, OpOf(s, a).value);
    }
  }

  lemma StepReadable(p: Primitives, s: State, a: Action)
    requires Lawful(p) && WellFormed(s.ring) && Inv(s) && Readable(OpenerOf(p, s.ring), s)
    ensures WellFormed(Do(p, s, a).ring) && Readable(OpenerOf(p, Do(p, s, a).ring), Do(p, s, a))
  {
    RingStep(p, s, a);
    if a.AddKeys? {
      if Do(p, s, a) != s { MoreKeys(p, s.ring, a.ring, s); }
    } else {
      StepTxsReadable(p, s, a);
      StepRowsReadable(p, s, a);
    }
  }

  lemma {:induction false} RunReadable(p: Primitives, s: State, actions: seq<Action>)
    requires Lawful(p) && WellFormed(s.ring) && Inv(s) && Readable(OpenerOf(p, s.ring), s)
    ensures var end := Run(p, s, actions); WellFormed(end.ring) && Readable(OpenerOf(p, end.ring), end)
  {
    if actions != [] {
      var before := actions[..|actions| - 1];
      RunReadable(p, s, before);
      RunIsSerial(p, s, before);
      StepReadable(p, Run(p, s, before), actions[|actions| - 1]);
    }
  }

  /** In every run, a message that is neither deleted nor hidden reads as the text of the send that
      created it, whether or not it was encrypted and whatever keys were added since;
      a hidden one reads as the moderation notice. */
  lemma ListedTextIsSentText(p: Primitives, ring: KeyRing, actions: seq<Action>, c: Uuid, k: nat)
    requires Lawful(p) && WellFormed(ring)
    requires var db := Reach(p, ring, actions).db; c in db.log && k < |db.log[c]| && db.log[c][k].deletedAt.None?
    ensures var s := Reach(p, ring, actions);
            && k < |CreatedIn(s.db.outbox, c)|
            && Announces(CreatedIn(s.db.outbox, c)[k], c, s.db.log[c][k])
            && ToDecrypted(OpenerOf(p, s.ring), s.db.log[c][k]) ==
                 if s.db.log[c][k].status == Hidden then Ok(MASK) else Ok(CreatedIn(s.db.outbox, c)[k].text)
  {
    ReachOk(p, ring, actions);
    InitialOk(ring);
    RunReadable(p, Initial(ring), actions);
    var s := Reach(p, ring, actions);
    assert Announced(s.db, c, s.db.log[c]);
    assert BodyForm(s.db.log[c][k]);
  }
}
