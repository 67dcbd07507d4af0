/** Overlapping calls of the envelope-encryption service on its real buffers. */
module CryptoSchedule {
  import opened Wrappers
  import opened Base64
  import opened LocalKms
  import opened EnvelopeCrypto

  /** What an `encrypt` holds while it is suspended: its data key, and the wrapped form of it. */
  datatype DataKey = DataKey(dek: array<Byte>, wrapped: Bytes)

  /** The calls that are suspended, and what the finished ones returned. */
  datatype Calls = Calls(waiting: map<nat, string>, replies: map<nat, Result<array<Byte>>>,
                         sealing: map<nat, Randomness>, keys: map<nat, DataKey>,
                         clock: int, answers: seq<Answer>, written: seq<Written>)

  /** The KMS's reply to a suspended `unwrap`: a buffer on record, or its error. */
  ghost predicate ReplyOk(svc: EnvelopeCryptoService, shared: map<array<Byte>, string>, dekId: string, reply: Result<array<Byte>>) {
    match reply
    case Ok(b) => b in shared && shared[b] == dekId
    case Err(e) => svc.Reply(dekId) == Err(e)
  }

  ghost predicate RepliesOk(svc: EnvelopeCryptoService, shared: map<array<Byte>, string>, c: Calls) {
    c.replies.Keys == c.waiting.Keys && forall i :: i in c.waiting ==> ReplyOk(svc, shared, c.waiting[i], c.replies[i])
  }

  /** The data key of a suspended `encrypt` is due to be wiped. */
  ghost predicate KeyOk(svc: EnvelopeCryptoService, pending: map<array<Byte>, Randomness>, k: DataKey, r: Randomness) {
    k.dek in pending && pending[k.dek] == r && svc.Wrapped(r, k.wrapped)
  }

  ghost predicate KeysOk(svc: EnvelopeCryptoService, pending: map<array<Byte>, Randomness>, c: Calls) {
    && c.keys.Keys == c.sealing.Keys
    && (forall i :: i in c.keys ==> KeyOk(svc, pending, c.keys[i], c.sealing[i]))
    && (forall i, j :: i in c.keys && j in c.keys && c.keys[i].dek == c.keys[j].dek ==> i == j)
  }

  /** Every buffer is where the suspended calls expect it. */
  ghost predicate Valid(svc: EnvelopeCryptoService, c: Calls)
    reads svc, svc.shared.Keys, svc.pending.Keys
  {
    svc.Valid() && RepliesOk(svc, svc.shared, c) && KeysOk(svc, svc.pending, c)
  }

  lemma MoreShared(svc: EnvelopeCryptoService, shared: map<array<Byte>, string>, c: Calls, b: array<Byte>, dekId: string)
    requires RepliesOk(svc, shared, c) && b !in shared
    ensures RepliesOk(svc, shared[b := dekId], c)
  {
  }

  lemma OneMoreReply(svc: EnvelopeCryptoService, shared: map<array<Byte>, string>, c: Calls, call: nat, dekId: string, reply: Result<array<Byte>>)
    requires RepliesOk(svc, shared, c) && ReplyOk(svc, shared, dekId, reply)
    ensures RepliesOk(svc, shared, c.(waiting := c.waiting[call := dekId], replies := c.replies[call := reply]))
  {
  }

  lemma OneMoreKey(svc: EnvelopeCryptoService, pending: map<array<Byte>, Randomness>, c: Calls, call: nat, k: DataKey, r: Randomness)
    requires KeysOk(svc, pending, c) && k.dek !in pending && svc.Wrapped(r, k.wrapped) && call !in c.keys
    ensures KeysOk(svc, pending[k.dek := r], c.(sealing := c.sealing[call := r], keys := c.keys[call := k]))
  {
  }

  lemma OneKeyLess(svc: EnvelopeCryptoService, pending: map<array<Byte>, Randomness>, c: Calls, call: nat)
    requires KeysOk(svc, pending, c) && call in c.keys
    ensures KeysOk(svc, pending - {c.keys[call].dek}, c.(sealing := c.sealing - {call}, keys := c.keys - {call}))
  {
  }

  ghost function Model(svc: EnvelopeCryptoService, c: Calls): Service
    reads svc`contents
  {
    Service(svc.contents, c.waiting, c.sealing, c.clock, c.answers, c.written)
  }

  lemma OneReplyLess(svc: EnvelopeCryptoService, shared: map<array<Byte>, string>, c: Calls, call: nat)
    requires RepliesOk(svc, shared, c)
    ensures RepliesOk(svc, shared, c.(waiting := c.waiting - {call}, replies := c.replies - {call}))
  {
  }

  lemma SealerSeals(svc: EnvelopeCryptoService, r: Randomness, text: string, m: Payload)
    requires svc.seal == SealerOf(svc.p, svc.ring) && Encrypt(svc.p, svc.ring, r, text) == Ok(m)
    ensures svc.seal(r, text) == Ok(m)
  {
  }

  /** The record of unwrapped buffers only grows. */
  ghost predicate Grows(before: map<array<Byte>, string>, after: map<array<Byte>, string>) {
    forall b :: b in before ==> b in after && after[b] == before[b]
  }

  method TryCache(svc: EnvelopeCryptoService, c: Calls, dekId: string) returns (next: Option<Calls>)
    requires Valid(svc, c)
    ensures next.None? <==> Lookup(svc.contents, dekId, c.clock).None?
    ensures next.Some? ==>
              && next.value == c.(answers := c.answers + [Answer(dekId, Ok(Lookup(svc.contents, dekId, c.clock).value))])
              && Valid(svc, next.value)
  {
    var hit := svc.CheckCache(dekId, c.clock);
    if hit.None? { return None; }
    next := Some(c.(answers := c.answers + [Answer(dekId, Ok(hit.value[..]))]));
  }

  method Suspend(svc: EnvelopeCryptoService, c: Calls, call: nat, dekId: string, answer: Result<Bytes>) returns (next: Calls)
    requires Valid(svc, c) && answer == svc.Reply(dekId)
    modifies svc`shared
    ensures Valid(svc, next) && Grows(old(svc.shared), svc.shared)
    ensures next.waiting == c.waiting[call := dekId] && next == c.(waiting := next.waiting, replies := next.replies)
  {
    ghost var shared := svc.shared;
    var reply: Result<array<Byte>>;
    if answer.Ok? {
      var dek := svc.Adopt(dekId, answer.value);
      reply := Ok(dek);
      MoreShared(svc, shared, c, dek, dekId);
    } else {
      reply := Err(answer.error);
    }
    OneMoreReply(svc, svc.shared, c, call, dekId, reply);
    next := c.(waiting := c.waiting[call := dekId], replies := c.replies[call := reply]);
  }

  /** `unwrap` up to the point where it waits for the KMS. */
  method BeginUnwrap(svc: EnvelopeCryptoService, c: Calls, call: nat, dekId: string) returns (next: Calls)
    requires Valid(svc, c) && svc.kms == KmsOf(svc.p, svc.ring)
    modifies svc`shared
    ensures Valid(svc, next) && Grows(old(svc.shared), svc.shared)
    ensures Model(svc, next) == Serve(svc.kms, svc.seal, old(Model(svc, c)), Start(call, dekId))
  {
    if call in c.waiting { return c; }
    var found := TryCache(svc, c, dekId);
    if found.Some? { return found.value; }
    var answer := svc.DecryptDataKey(dekId);
    next := Suspend(svc, c, call, dekId, answer);
  }

  method EndUnwrap(svc: EnvelopeCryptoService, c: Calls, call: nat) returns (next: Calls)
    requires Valid(svc, c)
    modifies svc`dekCache, svc`contents
    ensures Valid(svc, next)
    ensures Model(svc, next) == Serve(svc.kms, svc.seal, old(Model(svc, c)), Finish(call))
  {
    if call !in c.waiting { return c; }
    var dekId, reply := c.waiting[call], c.replies[call];
    OneReplyLess(svc, svc.shared, c, call);
    next := c.(waiting := c.waiting - {call}, replies := c.replies - {call});
    if reply.Err? {
      return next.(answers := c.answers + [Answer(dekId, Err(reply.error))]);
    }
    svc.Remember(dekId, reply.value, c.clock);
    next := next.(answers := c.answers + [Answer(dekId, Ok(reply.value[..]))]);
  }

  method BeginEncrypt(svc: EnvelopeCryptoService, c: Calls, call: nat, random: Randomness) returns (next: Calls)
    requires Valid(svc, c) && Lawful(svc.p) && WellFormed(svc.ring)
    modifies svc`pending
    ensures Valid(svc, next) && fresh(svc.pending.Keys - old(svc.pending.Keys))
    ensures Model(svc, next) == Serve(svc.kms, svc.seal, old(Model(svc, c)), Generate(call, random))
  {
    if call in c.sealing || !Sized(random) { return c; }
    ghost var pending := svc.pending;
    var dek, wrapped := svc.GenerateDataKey(random);
    OneMoreKey(svc, pending, c, call, DataKey(dek, wrapped), random);
    next := c.(sealing := c.sealing[call := random], keys := c.keys[call := DataKey(dek, wrapped)]);
  }

  method SealKey(svc: EnvelopeCryptoService, c: Calls, call: nat, text: string) returns (next: Calls, m: Payload)
    requires Valid(svc, c) && call in c.sealing
    modifies svc`pending, svc.pending.Keys
    ensures Valid(svc, next) && svc.pending.Keys <= old(svc.pending.Keys) && Encrypt(svc.p, svc.ring, c.sealing[call], text) == Ok(m)
    ensures next.sealing == c.sealing - {call}
    ensures next == c.(sealing := next.sealing, keys := next.keys, written := c.written + [Written(c.sealing[call], text, m)])
  {
    var k := c.keys[call];
    OneKeyLess(svc, svc.pending, c, call);
    m := svc.SealAndWipe(k.dek, k.wrapped, c.sealing[call].bodyIv, text);
    next := c.(sealing := c.sealing - {call}, keys := c.keys - {call}, written := c.written + [Written(c.sealing[call], text, m)]);
  }

  method EndEncrypt(svc: EnvelopeCryptoService, c: Calls, call: nat, text: string) returns (next: Calls)
    requires Valid(svc, c) && svc.seal == SealerOf(svc.p, svc.ring)
    modifies svc`pending, svc.pending.Keys
    ensures Valid(svc, next) && svc.pending.Keys <= old(svc.pending.Keys)
    ensures Model(svc, next) == Serve(svc.kms, svc.seal, old(Model(svc, c)), Seal(call, text))
  {
    if call !in c.sealing { return c; }
    var m;
    next, m := SealKey(svc, c, call, text);
    SealerSeals(svc, c.sealing[call], text, m);
  }

  method StepUnwrap(svc: EnvelopeCryptoService, c: Calls, e: Event) returns (next: Calls)
    requires Valid(svc, c) && svc.kms == KmsOf(svc.p, svc.ring) && (e.Start? || e.Finish?)
    modifies svc`shared, svc`dekCache, svc`contents
    ensures Valid(svc, next) && Grows(old(svc.shared), svc.shared)
    ensures Model(svc, next) == Serve(svc.kms, svc.seal, old(Model(svc, c)), e)
  {
    if e.Start? {
      next := BeginUnwrap(svc, c, e.call, e.dekId);
    } else {
      next := EndUnwrap(svc, c, e.call);
    }
  }

  method StepEncrypt(svc: EnvelopeCryptoService, c: Calls, e: Event) returns (next: Calls)
    requires Valid(svc, c) && (e.Generate? || e.Seal?)
    requires svc.seal == SealerOf(svc.p, svc.ring) && Lawful(svc.p) && WellFormed(svc.ring)
    modifies svc`pending, svc.pending.Keys
    ensures Valid(svc, next) && fresh(svc.pending.Keys - old(svc.pending.Keys))
    ensures Model(svc, next) == Serve(svc.kms, svc.seal, old(Model(svc, c)), e)
  {
    if e.Generate? {
      next := BeginEncrypt(svc, c, e.call, e.random);
    } else {
      next := EndEncrypt(svc, c, e.call, e.text);
    }
  }

  method Step(svc: EnvelopeCryptoService, c: Calls, e: Event) returns (next: Calls)
    requires Valid(svc, c) && Lawful(svc.p) && WellFormed(svc.ring)
    requires svc.kms == KmsOf(svc.p, svc.ring) && svc.seal == SealerOf(svc.p, svc.ring)
    modifies svc, svc.pending.Keys
    ensures Valid(svc, next) && Grows(old(svc.shared), svc.shared) && fresh(svc.pending.Keys - old(svc.pending.Keys))
    ensures Model(svc, next) == Serve(svc.kms, svc.seal, old(Model(svc, c)), e)
  {
    if e.Advance? {
      next := c.(clock := c.clock + e.ms);
    } else if e.Start? || e.Finish? {
      next := StepUnwrap(svc, c, e);
    } else {
      next := StepEncrypt(svc, c, e);
    }
  }

  lemma ServeOneMore(kms: Kms, seal: Sealer, s: Service, events: seq<Event>, i: nat)
    requires i < |events|
    ensures ServeAll(kms, seal, s, events[..i + 1]) == Serve(kms, seal, ServeAll(kms, seal, s, events[..i]), events[i])
  {
    assert events[..i + 1][..i] == events[..i];
  }

  method StepAll(svc: EnvelopeCryptoService, start: Calls, events: seq<Event>) returns (c: Calls)
    requires Valid(svc, start) && svc.pending == map[] && Lawful(svc.p) && WellFormed(svc.ring)
    requires svc.kms == KmsOf(svc.p, svc.ring) && svc.seal == SealerOf(svc.p, svc.ring)
    modifies svc
    ensures Valid(svc, c) && Grows(old(svc.shared), svc.shared)
    ensures Model(svc, c) == ServeAll(svc.kms, svc.seal, old(Model(svc, start)), events)
  {
    c := start;
    for i := 0 to |events|
      invariant Valid(svc, c) && Grows(old(svc.shared), svc.shared) && fresh(svc.pending.Keys)
      invariant Model(svc, c) == ServeAll(svc.kms, svc.seal, old(Model(svc, start)), events[..i])
    {
      ServeOneMore(svc.kms, svc.seal, old(Model(svc, start)), events, i);
      c := Step(svc, c, events[i]);
    }
    assert events[..|events|] == events;
  }

  /** Every interleaving of the halves of `unwrap` and `encrypt`, on real buffers, keeps the cache and the
      suspended calls in order and does what the cache as a value does; wiping a data key never changes a
      buffer that was unwrapped. */
  method Overlap(svc: EnvelopeCryptoService, clock: int, events: seq<Event>) returns (c: Calls)
    requires svc.Valid() && svc.contents == map[] && svc.pending == map[] && Lawful(svc.p) && WellFormed(svc.ring)
    requires svc.kms == KmsOf(svc.p, svc.ring) && svc.seal == SealerOf(svc.p, svc.ring)
    modifies svc
    ensures Valid(svc, c) && forall b :: b in old(svc.shared) ==> b in svc.shared && b[..] == old(b[..])
    ensures Model(svc, c) == ServeAll(svc.kms, svc.seal, Idle(clock), events)
  {
    c := StepAll(svc, Calls(map[], map[], map[], map[], clock, [], []), events);
  }
}
