/** The messages service as an object: each call runs to its end before the next one starts,
    which is what the interleaved transactions amount to. */
module MessagesService {
  import opened Wrappers
  import opened LocalKms
  import opened MessageStore
  import opened MessageLog
  import opened TableEffects
  import opened LoneTransactions
  import EnvelopeCrypto
  import Scanner = ContentScanner
  import Strings

  /** `length` of a JavaScript string counts UTF-16 units. */
  function Utf16Length(s: string): nat {
    if s == "" then 0 else (if s[0] as int > 0xFFFF then 2 else 1) + Utf16Length(s[1..])
  }

  /** Letters outside the basic plane count twice. */
  lemma {:induction false} Utf16Reads(s: string, c: char)
    ensures Utf16Length("") == 0 && Utf16Length(s + [c]) == Utf16Length(s) + if c as int >= 0x10000 then 2 else 1
  {
    if s == "" {
      assert s + [c] == [c] && [c][1..] == "";
    } else {
      assert (s + [c])[1..] == s[1..] + [c];
      Utf16Reads(s[1..], c);
    }
  }

  lemma AddOneReceipt(receipts: map<(Uuid, Uuid), bool>, id: Uuid, done: set<Uuid>, u: Uuid)
    ensures AddReceipts(receipts, id, done + {u}) == AddReceipts(receipts, id, done)[(id, u) := false]
  {
  }

  lemma DeleteIsEdit(db: Store, c: Uuid, k: nat, now: int)
    requires IdsDistinct(db) && c in db.log && k < |db.log[c]|
    ensures var m := db.log[c][k];
            EditLog(SoftDelete(m.id, m.sender, now), db.log) ==
            db.log[c := db.log[c][k := EditRow(SoftDelete(m.id, m.sender, now), m)]]
  {
    var m := db.log[c][k];
    var e := SoftDelete(m.id, m.sender, now);
    forall d | d in db.log ensures EditRows(e, db.log[d]) == if d == c then db.log[c][k := EditRow(e, m)] else db.log[d] {
      assert forall j :: 0 <= j < |db.log[d]| && !(d == c && j == k) ==> EditRow(e, db.log[d][j]) == db.log[d][j];
    }
  }

  /** The body columns, before the transaction. */
  method WriteBody(crypto: EnvelopeCrypto.EnvelopeCryptoService, text: string, encrypt: bool, random: EnvelopeCrypto.Randomness)
    returns (body: Body)
    requires crypto.Valid() && Lawful(crypto.p) && WellFormed(crypto.ring) && EnvelopeCrypto.Sized(random)
    modifies crypto`pending
    ensures crypto.Valid() && BodyColumns(crypto.p, crypto.ring, text, encrypt, random) == Some(body)
    ensures body.alg == if encrypt then Some("aes-256-gcm") else None
    ensures if encrypt then EncryptedBody(body) else PlainBody(body) && body.plain.value == text
  {
    if !encrypt { return Body(Some(text), None, None, None, None, None); }
    var m := crypto.EncryptBody(random, text);
    body := Body(None, Some(m.ciphertext), Some(m.iv), Some(m.tag), Some(m.dekId), Some("aes-256-gcm"));
  }

  /** What `send` works out before its transaction: the text is scanned, then encrypted or left in clear. */
  ghost predicate Prepared(p: Primitives, ring: KeyRing, engine: Scanner.Engine, text: string, encrypt: bool,
                     random: EnvelopeCrypto.Randomness, req: SendRequest)
    requires Scanner.InRange(engine)
  {
    && req.text == Scanner.Passes(engine, text, 5).cleaned
    && req.status == (if |Scanner.Passes(engine, text, 5).flags| >= 2 then Flagged else Sent)
    && (if encrypt then EncryptedBody(req.body) else PlainBody(req.body) && req.body.plain.value == req.text)
    && BodyColumns(p, ring, req.text, encrypt, random) == Some(req.body)
  }

  method Prepare(crypto: EnvelopeCrypto.EnvelopeCryptoService, engine: Scanner.Engine, conv: Uuid, sender: Uuid, text: string,
                 key: Option<string>, encrypt: bool, random: EnvelopeCrypto.Randomness)
    returns (req: SendRequest)
    requires Scanner.Sound(engine) && EnvelopeCrypto.Sized(random)
    requires crypto.Valid() && Lawful(crypto.p) && WellFormed(crypto.ring)
    modifies crypto`pending
    ensures crypto.Valid() && RequestFormed(req) && req.conv == conv && req.sender == sender && req.key == key
    ensures Prepared(crypto.p, crypto.ring, engine, text, encrypt, random, req)
  {
    var scan, score := Scanner.Scan(engine, text);
    var columns := WriteBody(crypto, scan.cleaned, encrypt, random);
    req := SendRequest(conv, sender, key, scan.cleaned, if score >= 0.6 then Flagged else Sent, columns);
  }

  /** The stored row of a text: flagged if at least two kinds were found in it, and sent otherwise. */
  ghost predicate RowAsSent(m: Message, engine: Scanner.Engine, text: string, sender: Uuid, key: Option<string>, body: Body)
    requires Scanner.InRange(engine)
  {
    && m.status == (if |Scanner.Passes(engine, text, 5).flags| >= 2 then Flagged else Sent)
    && m.sender == sender && m.key == key && m.body == body && m.deletedAt.None?
  }

  function ToOption(r: Result<Reply>): Option<Reply> { if r.Ok? then Some(r.value) else None }

  lemma DeliveredRow(before: Store, after: Store, req: SendRequest, id: Uuid, engine: Scanner.Engine, text: string)
    requires AddsRow(before, after, req, id) && Scanner.InRange(engine)
    requires req.status == if |Scanner.Passes(engine, text, 5).flags| >= 2 then Flagged else Sent
    ensures after.log[req.conv] != []
    ensures RowAsSent(after.log[req.conv][|after.log[req.conv]| - 1], engine, text, req.sender, req.key, req.body)
  {
  }

  class Service {
    var convs: map<Uuid, Conversation>
    var parts: map<(Uuid, Uuid), Participant>
    var log: map<Uuid, seq<Message>>
    var receipts: map<(Uuid, Uuid), bool>
    var outbox: seq<Event>
    const groups: set<Uuid>

    constructor (db: Store)
      ensures Tables() == db
    {
      convs, parts, log, receipts, outbox, groups := db.convs, db.parts, db.log, db.receipts, db.outbox, db.groups;
    }

    ghost function Tables(): Store
      reads this
    {
      Store(convs, parts, log, receipts, outbox, groups)
    }

    /** The receipts of a new message, one member at a time. */
    method SaveReceipts(id: Uuid, readers: set<Uuid>)
      modifies this`receipts
      ensures receipts == AddReceipts(old(receipts), id, readers)
      ensures forall r :: r in receipts <==> r in old(receipts) || (r.0 == id && r.1 in readers)
      ensures forall u :: u in readers ==> !receipts[(id, u)]
    {
      var todo := readers;
      ghost var done := {};
      while todo != {}
        invariant done + todo == readers
        invariant receipts == AddReceipts(old(receipts), id, done)
        decreases |todo|
      {
        var u :| u in todo;
        AddOneReceipt(old(receipts), id, done, u);
        receipts := receipts[(id, u) := false];
        todo, done := todo - {u}, done + {u};
      }
      assert done == readers;
    }

    /** The writes of the transaction, in order. */
    method WriteMessage(req: SendRequest, id: Uuid, next: nat)
      requires req.conv in convs && req.conv in log && next == convs[req.conv].lastSeq + 1
      modifies this
      ensures Tables() == Append(old(Tables()), req, id, Readers(old(parts), req.conv, req.sender),
                                 Recipients(old(parts), req.conv, req.sender))
    {
      log := log[req.conv := log[req.conv] + [MessageOf(req, id, next)]];
      var recipients := Recipients(parts, req.conv, req.sender);
      SaveReceipts(id, Readers(parts, req.conv, req.sender));
      outbox := outbox + [EventOf(req, id, next, recipients)];
      convs := convs[req.conv := convs[req.conv].(lastSeq := next)];
    }

    /** The transaction of `send`. A refused send changes nothing, a replay changes nothing and returns
        the stored message, and anything else adds one row, its receipts and its event. */
    method SendTransaction(req: SendRequest, id: Uuid) returns (r: Result<Reply>)
      requires StoreOk(Tables()) && RequestFormed(req) && IdFree(Tables(), id)
      modifies this
      ensures StoreOk(Tables())
      ensures Decided(old(Tables()), Tables(), req, id, ToOption(r))
    {
      if req.conv !in convs { return Err("Conversation introuvable"); }
      var conv := convs[req.conv];
      if conv.e2ee { return Err("Conversation E2EE"); }
      if !conv.isOpen { return Err("Conversation fermée ou archivée"); }
      if (req.conv, req.sender) !in parts || parts[(req.conv, req.sender)].left { return Err("Vous n'êtes pas participant"); }
      r := LookUpOrAppend(req, id);
    }

    /** The rest of the transaction, past the checks. */
    method LookUpOrAppend(req: SendRequest, id: Uuid) returns (r: Result<Reply>)
      requires StoreOk(Tables()) && RequestFormed(req) && IdFree(Tables(), id)
      requires req.conv in convs && convs[req.conv].isOpen && !convs[req.conv].e2ee
      requires (req.conv, req.sender) in parts && !parts[(req.conv, req.sender)].left
      modifies this
      ensures StoreOk(Tables()) && Decided(old(Tables()), Tables(), req, id, ToOption(r))
    {
      var rows := log[req.conv];
      if req.key.Some? && req.key.value != "" {
        if HasNul(req.key) { return Err("QueryFailedError"); }
        var existing := FindKey(rows, req.sender, req.key);
        if existing.Some? {
          var q := Reply(req.conv, req.sender, req.key, existing.value.id, existing.value.seqNo);
          ghost var k :| 0 <= k < |rows| && rows[k] == existing.value;
          assert Row(rows[k], q);
          return Ok(q);
        }
      }
      InsertFailsMeans(Tables(), req);
      if InsertFails(rows, req, convs[req.conv].lastSeq + 1) { return Err("QueryFailedError"); }
      if HasNul(Some(req.text)) { return Err("QueryFailedError"); }
      r := AppendMessage(req, id);
    }

    /** The writes of the transaction, once nothing stands in their way. */
    method AppendMessage(req: SendRequest, id: Uuid) returns (r: Result<Reply>)
      requires StoreOk(Tables()) && RequestFormed(req) && Legal(Tables(), SendOp(req, id, {}, {}))
      modifies this
      ensures StoreOk(Tables()) && r.Ok?
      ensures Delivers(old(Tables()), Tables(), req, id, Readers(old(parts), req.conv, req.sender),
                       Recipients(old(parts), req.conv, req.sender))
      ensures r.value == Reply(req.conv, req.sender, req.key, id, |old(log)[req.conv]| + 1)
      ensures Answered(Tables(), req.conv, req.sender, req.key, id, r.value.seqNo)
    {
      var next := convs[req.conv].lastSeq + 1;
      ghost var op := SendOp(req, id, Readers(parts, req.conv, req.sender), Recipients(parts, req.conv, req.sender));
      ApplyKeepsStoreOk(Tables(), op);
      SendDelivers(Tables(), op);
      WriteMessage(req, id, next);
      assert Answers(log[req.conv], |log[req.conv]| - 1, req.sender, req.key, id, next);
      return Ok(Reply(req.conv, req.sender, req.key, id, next));
    }

    /** `send`: the text is trimmed, bounded, scanned and encrypted before the transaction. */
    method Send(crypto: EnvelopeCrypto.EnvelopeCryptoService, engine: Scanner.Engine, conv: Uuid, sender: Uuid, body: string,
                key: Option<string>, encrypt: bool, random: EnvelopeCrypto.Randomness, id: Uuid, maxLen: nat)
      returns (r: Result<Reply>, ghost req: SendRequest)
      requires StoreOk(Tables()) && IdFree(Tables(), id)
      requires Scanner.Sound(engine) && EnvelopeCrypto.Sized(random)
      requires crypto.Valid() && Lawful(crypto.p) && WellFormed(crypto.ring)
      modifies this, crypto`pending
      ensures StoreOk(Tables()) && crypto.Valid()
      ensures var text := Strings.Trim(body);
              text == "" || Utf16Length(text) > maxLen ==> r.Err? && Tables() == old(Tables())
      ensures var text := Strings.Trim(body);
              text != "" && Utf16Length(text) <= maxLen ==>
                && req.conv == conv && req.sender == sender && req.key == key
                && Prepared(crypto.p, crypto.ring, engine, text, encrypt, random, req)
                && Decided(old(Tables()), Tables(), req, id, ToOption(r))
                && (r.Ok? && !Known(old(Tables()), req) ==>
                      conv in log && log[conv] != [] && RowAsSent(log[conv][|log[conv]| - 1], engine, text, sender, key, req.body))
    {
      req := SendRequest(conv, sender, key, "", Sent, Body(None, None, None, None, None, None));
      var trimmed := Strings.Trim(body);
      if trimmed == "" { return Err("Message vide"), req; }
      if Utf16Length(trimmed) > maxLen { return Err("Message trop long"), req; }
      var request := Prepare(crypto, engine, conv, sender, trimmed, key, encrypt, random);
      req := request;
      r := SendPrepared(request, id, engine, trimmed);
    }

    method SendPrepared(req: SendRequest, id: Uuid, ghost engine: Scanner.Engine, ghost text: string) returns (r: Result<Reply>)
      requires StoreOk(Tables()) && RequestFormed(req) && IdFree(Tables(), id) && Scanner.InRange(engine)
      requires req.status == if |Scanner.Passes(engine, text, 5).flags| >= 2 then Flagged else Sent
      modifies this
      ensures StoreOk(Tables()) && Decided(old(Tables()), Tables(), req, id, ToOption(r))
      ensures r.Ok? && !Known(old(Tables()), req) ==>
                req.conv in log && log[req.conv] != [] && RowAsSent(log[req.conv][|log[req.conv]| - 1], engine, text, req.sender, req.key, req.body)
    {
      r := SendTransaction(req, id);
      if r.Ok? && !Known(old(Tables()), req) { DeliveredRow(old(Tables()), Tables(), req, id, engine, text); }
    }

    /** `markRead`: the receipts of the messages up to the sequence, and the read event. */
    method MarkReadUpTo(conv: Uuid, user: Uuid, upto: int) returns (r: Result<()>)
      requires StoreOk(Tables()) && conv in log
      modifies this
      ensures StoreOk(Tables())
      ensures r.Ok? <==> -0x8000_0000_0000_0000 <= upto < 0x8000_0000_0000_0000
      ensures r.Err? ==> Tables() == old(Tables())
      ensures r.Ok? ==>
                && MovesPosition(old(Tables()), Tables(), conv, user, upto)
                && MarksReceipts(old(Tables()), Tables(), conv, user, upto, |old(log)[conv]|)
                && log == old(log) && convs == old(convs)
    {
      if !FitsBigint(upto) { return Err("QueryFailedError"); }
      ApplyKeepsStoreOk(Tables(), MarkOp(conv, user, upto, |log[conv]|));
      MarkReads(Tables(), MarkOp(conv, user, upto, |log[conv]|));
      assert log[conv][..|log[conv]|] == log[conv];
      if (conv, user) in parts {
        parts := parts[(conv, user) := parts[(conv, user)].(lastRead := upto)];
      }
      receipts := MarkReceipts(receipts, UpTo(log[conv], upto), user);
      outbox := outbox + [ReadUpTo(conv, user, upto)];
      return Ok(());
    }

    /** Where the message is, if it exists. */
    method FindMessage(id: Uuid) returns (r: Option<(Uuid, nat)>)
      ensures r.Some? ==> r.value.0 in log && r.value.1 < |log[r.value.0]| && log[r.value.0][r.value.1].id == id
      ensures r.None? ==> forall c, k :: c in log && 0 <= k < |log[c]| ==> log[c][k].id != id
    {
      var todo := log.Keys;
      while todo != {}
        invariant todo <= log.Keys
        invariant forall c, k :: c in log && c !in todo && 0 <= k < |log[c]| ==> log[c][k].id != id
        decreases |todo|
      {
        var c :| c in todo;
        for k := 0 to |log[c]|
          invariant forall j :: 0 <= j < k ==> log[c][j].id != id
        {
          if log[c][k].id == id { return Some((c, k)); }
        }
        todo := todo - {c};
      }
      return None;
    }

    /** `softDelete`: only the sender may delete, and only that row loses its body. */
    method Delete(id: Uuid, actor: Uuid, now: int) returns (r: Result<()>)
      requires StoreOk(Tables())
      modifies this`log
      ensures StoreOk(Tables())
      ensures r.Ok? <==> exists c, k :: c in old(log) && 0 <= k < |old(log)[c]| && old(log)[c][k].id == id && old(log)[c][k].sender == actor
      ensures r.Ok? ==>
                && log.Keys == old(log).Keys && (forall c :: c in log ==> |log[c]| == |old(log)[c]|)
                && forall c, k :: c in log && 0 <= k < |log[c]| ==>
                     if old(log)[c][k].id == id then SoftDeleted(old(log)[c][k], log[c][k], now) else log[c][k] == old(log)[c][k]
      ensures r.Err? ==> log == old(log)
    {
      var at := FindMessage(id);
      if at.None? { return Err("Not Found"); }
      var (c, k) := at.value;
      var msg := log[c][k];
      if msg.sender != actor { return Err("Vous ne pouvez supprimer que vos messages"); }
      DeleteIsEdit(Tables(), c, k, now);
      ApplyKeepsStoreOk(Tables(), EditOp(SoftDelete(id, actor, now)));
      var body := Body(None, None, None, None, None, msg.body.alg);
      log := log[c := log[c][k := msg.(status := Deleted, deletedAt := Some(now), body := body)]];
      return Ok(());
    }
  }
}
