/** What holds of classic messages in every run of the interleaved transactions. */
module MessageGuarantees {
  import opened Wrappers
  import opened LocalKms
  import opened MessageStore
  import opened MessageLog

  /** Any state that some run reaches from the empty system. */
  function Reach(p: Primitives, ring: KeyRing, actions: seq<Action>): State {
    Run(p, Initial(ring), actions)
  }

  lemma ReachOk(p: Primitives, ring: KeyRing, actions: seq<Action>)
    ensures Inv(Reach(p, ring, actions))
  {
    InitialOk(ring);
    RunIsSerial(p, Initial(ring), actions);
  }

  /** The committed messages of a conversation carry exactly the sequences 1 to `last_sequence`,
      in the order in which they were committed, and each has exactly one creation event. */
  lemma LogIsGapFree(p: Primitives, ring: KeyRing, actions: seq<Action>, c: Uuid)
    requires c in Reach(p, ring, actions).db.convs
    ensures var db := Reach(p, ring, actions).db;
            && c in db.log
            && |db.log[c]| == db.convs[c].lastSeq == |CreatedIn(db.outbox, c)|
            && forall k :: 0 <= k < |db.log[c]| ==>
                 db.log[c][k].seqNo == k + 1 && Announces(CreatedIn(db.outbox, c)[k], c, db.log[c][k])
  {
    ReachOk(p, ring, actions);
    var db := Reach(p, ring, actions).db;
    assert Announced(db, c, db.log[c]);
  }

  /** What is committed stays where it is: the log only grows at its end. */
  lemma {:induction false} RunGrows(p: Primitives, s: State, actions: seq<Action>, c: Uuid)
    requires Inv(s) && c in s.db.log
    ensures var after := Run(p, s, actions).db; c in after.log && Grown(s.db.log[c], after.log[c])
  {
    if actions != [] {
      var before, a := actions[..|actions| - 1], actions[|actions| - 1];
      RunGrows(p, s, before, c);
      RunIsSerial(p, s, before);
      StepRefines(p, Run(p, s, before), a);
      if OpOf(Run(p, s, before), a).Some? {
        ApplyGrows(Run(p, s, before).db, OpOf(Run(p, s, before), a).value, c);
      }
    }
  }

  // ---- Idempotency ----

  /** Two successful sends with the same conversation, sender and key returned the same message. */
  lemma RepliesAgree(p: Primitives, ring: KeyRing, actions: seq<Action>, t: TxId, u: TxId)
    requires t in Reach(p, ring, actions).replies && u in Reach(p, ring, actions).replies
    requires var r, q := Reach(p, ring, actions).replies[t], Reach(p, ring, actions).replies[u];
             r.conv == q.conv && r.sender == q.sender && r.key == q.key && r.key.Some?
    ensures var r, q := Reach(p, ring, actions).replies[t], Reach(p, ring, actions).replies[u];
            r.id == q.id && r.seqNo == q.seqNo
  {
    ReachOk(p, ring, actions);
    var s := Reach(p, ring, actions);
    var r, q := s.replies[t], s.replies[u];
    var i: nat :| Answers(s.db.log[r.conv], i, r.sender, r.key, r.id, r.seqNo);
    var j: nat :| Answers(s.db.log[r.conv], j, q.sender, q.key, q.id, q.seqNo);
    assert UniqueKeys(s.db.log[r.conv]);
    assert i == j;
  }

  /** The request of a send under way. */
  function RequestOf(tx: Tx): Option<SendRequest> {
    match tx
    case Enabling(_) => None
    case Grouped(_) => None
    case FlagSet(_) => None
    case Marking(_, _, _, _, _) => None
    case _ => Some(tx.req)
  }

  /** Once a message carries the key, no step of another send with that key changes any table. */
  lemma KnownKeyChangesNothing(p: Primitives, s: State, a: Action, t: TxId)
    requires Inv(s) && Actor(a) == Some(t) && t in s.txs
    requires RequestOf(s.txs[t]).Some? && RequestOf(s.txs[t]).value.key.Some?
    requires var req := RequestOf(s.txs[t]).value;
             req.conv in s.db.log && exists k :: 0 <= k < |s.db.log[req.conv]| && s.db.log[req.conv][k].sender == req.sender && s.db.log[req.conv][k].key == req.key
    ensures Do(p, s, a).db == s.db
  {
    StepRefines(p, s, a);
    assert TxOk(s, t, s.txs[t]);
  }

  /** A non-empty key that is already known ends in a replay of the stored message, or fails the lookup
      if it holds U+0000; an empty one skips the lookup, and its insert then fails on the unique index. */
  lemma KnownKeyOutcome(s: State, t: TxId, id: Uuid)
    requires Inv(s) && t in s.txs && s.txs[t].Member? && s.txs[t].req.key.Some?
    requires var req := s.txs[t].req;
             req.conv in s.db.log && exists k :: 0 <= k < |s.db.log[req.conv]| && s.db.log[req.conv][k].sender == req.sender && s.db.log[req.conv][k].key == req.key
    ensures var next := DoLookUpKey(s, t);
            if HasNul(s.txs[t].req.key) then t !in next.txs
            else if s.txs[t].req.key != Some("") then next.txs[t].Replay?
            else next.txs[t].Fresh? && (id !in s.drawn ==> t !in DoInsert(next, t, id).txs)
  {
  }

  // ---- The end-to-end encryption switch ----

  lemma StepFrozen(p: Primitives, s: State, a: Action, c: Uuid)
    requires Inv(s) && c in s.db.convs && s.db.convs[c].e2ee
    ensures var after := Do(p, s, a).db;
            c in after.convs && after.convs[c].e2ee && c in after.log && |after.log[c]| == |s.db.log[c]|
  {
    StepRefines(p, s, a);
    if OpOf(s, a).Some? {
      OpFrozen(s.db, OpOf(s, a).value, c);
    }
  }

  lemma OpFrozen(db: Store, op: Op, c: Uuid)
    requires Legal(db, op) && Numbered(db) && c in db.convs && db.convs[c].e2ee
    ensures var after := Apply(db, op);
            c in after.convs && after.convs[c].e2ee && c in after.log && |after.log[c]| == |db.log[c]|
  {
  }

  /** Once the flag is committed it stays, and no classic message is ever committed again. */
  lemma {:induction false} FlagFreezesLog(p: Primitives, s: State, actions: seq<Action>, c: Uuid)
    requires Inv(s) && c in s.db.convs && s.db.convs[c].e2ee
    ensures var after := Run(p, s, actions).db;
            c in after.convs && after.convs[c].e2ee && c in after.log && |after.log[c]| == |s.db.log[c]|
  {
    if actions != [] {
      var before := actions[..|actions| - 1];
      FlagFreezesLog(p, s, before, c);
      RunIsSerial(p, s, before);
      StepFrozen(p, Run(p, s, before), actions[|actions| - 1], c);
    }
  }

  /** The flag is set exactly on the conversations that have a group, and a second group is never added. */
  lemma FlagMeansGroup(p: Primitives, ring: KeyRing, actions: seq<Action>, c: Uuid)
    requires c in Reach(p, ring, actions).db.convs
    ensures var s := Reach(p, ring, actions);
            && (s.db.convs[c].e2ee <==> c in s.db.groups)
            && forall t :: t in s.txs && s.txs[t] == FlagSet(c) ==> c !in s.db.groups
  {
    ReachOk(p, ring, actions);
    var s := Reach(p, ring, actions);
    forall t | t in s.txs && s.txs[t] == FlagSet(c) ensures c !in s.db.groups {
      assert TxOk(s, t, s.txs[t]);
    }
  }

  // ---- Receipts ----

  /** Read receipts are a prefix, by sequence, of the receipts that the user holds. */
  lemma ReadReceiptsArePrefix(p: Primitives, ring: KeyRing, actions: seq<Action>, c: Uuid, u: Uuid, i: nat, j: nat)
    requires var db := Reach(p, ring, actions).db;
             && c in db.log && i < j < |db.log[c]|
             && (db.log[c][i].id, u) in db.receipts && (db.log[c][j].id, u) in db.receipts
    ensures var db := Reach(p, ring, actions).db;
            db.receipts[(db.log[c][j].id, u)] ==> db.receipts[(db.log[c][i].id, u)]
  {
    ReachOk(p, ring, actions);
    var db := Reach(p, ring, actions).db;
    assert ReadPrefix(db.receipts, db.log[c], u);
  }

  lemma OpKeepsRead(db: Store, op: Op, r: (Uuid, Uuid))
    requires Legal(db, op) && r in db.receipts
    ensures r in Apply(db, op).receipts && (db.receipts[r] ==> Apply(db, op).receipts[r])
  {
  }

  /** No receipt disappears, and none goes from read back to unread. */
  lemma {:induction false} ReadStaysRead(p: Primitives, s: State, actions: seq<Action>, r: (Uuid, Uuid))
    requires Inv(s) && r in s.db.receipts
    ensures var after := Run(p, s, actions).db; r in after.receipts && (s.db.receipts[r] ==> after.receipts[r])
  {
    if actions != [] {
      var before, a := actions[..|actions| - 1], actions[|actions| - 1];
      ReadStaysRead(p, s, before, r);
      RunIsSerial(p, s, before);
      StepRefines(p, Run(p, s, before), a);
      if OpOf(Run(p, s, before), a).Some? {
        OpKeepsRead(Run(p, s, before).db, OpOf(Run(p, s, before), a).value, r);
      }
    }
  }
}
