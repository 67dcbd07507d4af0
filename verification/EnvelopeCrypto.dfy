/** Envelope encryption of message bodies, and the cache of unwrapped data keys. */
module EnvelopeCrypto {
  import opened Wrappers
  import opened Base64
  import opened LocalKms
  import Strings

  datatype Payload = Payload(ciphertext: Bytes, iv: Bytes, tag: Bytes, dekId: string)

  /** The random bytes that one encryption draws. */
  datatype Randomness = Randomness(dek: Bytes, wrapIv: Bytes, bodyIv: Bytes)

  predicate Sized(r: Randomness) {
    |r.dek| == 32 && |r.wrapIv| == 12 && |r.bodyIv| == 12
  }

  function DekId(keyId: string, wrapped: Bytes): string {
    keyId + "::" + Encode(wrapped)
  }

  /** `encrypt` */
  function Encrypt(p: Primitives, ring: KeyRing, r: Randomness, text: string): Result<Payload> {
    match WrapKey(p, ring, r.dek, r.wrapIv)
    case Err(e) => Err(e)
    case Ok(wrapped) =>
      var s := p.seal(r.dek, r.bodyIv, p.utf8(text));
      Ok(Payload(s.ciphertext, r.bodyIv, s.tag, DekId(ring.active, wrapped)))
  }

  /** What the KMS answers for `dekId`, with no cache in front of it. */
  function Unwrap(p: Primitives, ring: KeyRing, dekId: string): Result<Bytes> {
    var parts := Strings.Split(dekId, "::");
    if |parts| < 2 then Err("TypeError") else UnwrapKey(p, ring, parts[0], Decode(parts[1]))
  }

  function Open(p: Primitives, dek: Bytes, m: Payload): Result<string> {
    match p.open(dek, m.iv, Sealed(m.ciphertext, m.tag))
    case None => Err("Unsupported state or unable to authenticate data")
    case Some(b) => Ok(p.text(b))
  }

  /** `decrypt`, with no cache in front of the KMS. */
  function Decrypt(p: Primitives, ring: KeyRing, m: Payload): Result<string> {
    match Unwrap(p, ring, m.dekId)
    case Err(e) => Err(e)
    case Ok(dek) => Open(p, dek, m)
  }

  lemma UnwrapDekId(p: Primitives, ring: KeyRing, keyId: string, wrapped: Bytes)
    requires ':' !in keyId
    ensures Unwrap(p, ring, DekId(keyId, wrapped)) == UnwrapKey(p, ring, keyId, wrapped)
  {
    EncodedAvoidsColon(wrapped);
    RoundTrip(wrapped);
    assert seq(2, _ => ':') == "::";
    Strings.SplitOfTwo(keyId, ':', 2, Encode(wrapped));
  }

  /** A text encrypted under one key ring is read back under every later one that kept its keys,
      whichever key is active there. */
  lemma DecryptEncrypt(p: Primitives, ring: KeyRing, later: KeyRing, r: Randomness, text: string)
    requires Lawful(p) && WellFormed(ring) && Extends(later, ring) && Sized(r)
    ensures Encrypt(p, ring, r, text).Ok?
    ensures Decrypt(p, later, Encrypt(p, ring, r, text).value) == Ok(text)
  {
    UnwrapWrap(p, ring, later, r.dek, r.wrapIv);
    UnwrapDekId(p, later, ring.active, WrapKey(p, ring, r.dek, r.wrapIv).value);
  }

  /** What a payload holds: the body under the data key and the iv that were drawn for it, and the name of the
      active key with the data key wrapped under it. */
  lemma EncryptMeans(p: Primitives, ring: KeyRing, r: Randomness, text: string)
    requires Lawful(p) && WellFormed(ring) && Sized(r)
    ensures Encrypt(p, ring, r, text).Ok?
    ensures var m := Encrypt(p, ring, r, text).value;
            && m.iv == r.bodyIv && |m.tag| == 16
            && p.open(r.dek, r.bodyIv, Sealed(m.ciphertext, m.tag)) == Some(p.utf8(text))
            && WrapKey(p, ring, r.dek, r.wrapIv).Ok? && m.dekId == ring.active + "::" + Encode(WrapKey(p, ring, r.dek, r.wrapIv).value)
  {
    UnwrapWrap(p, ring, ring, r.dek, r.wrapIv);
  }

  lemma DecryptStable(p: Primitives, ring: KeyRing, later: KeyRing, m: Payload)
    requires Extends(later, ring) && Decrypt(p, ring, m).Ok?
    ensures Decrypt(p, later, m) == Decrypt(p, ring, m)
  {
  }

  /** The identifier fits its 128-character column exactly when the key's name has at most 42 letters. */
  lemma DekIdFitsColumn(p: Primitives, ring: KeyRing, r: Randomness, text: string)
    requires Lawful(p) && WellFormed(ring) && Sized(r)
    ensures Encrypt(p, ring, r, text).Ok?
    ensures |Encrypt(p, ring, r, text).value.dekId| <= 128 <==> |ring.active| <= 42
  {
    UnwrapWrap(p, ring, ring, r.dek, r.wrapIv);
    EncodedLength(WrapKey(p, ring, r.dek, r.wrapIv).value);
  }

  // ---- The cache, as a value ----

  const CACHE_TTL_MS := 60_000
  const CACHE_LIMIT := 5000

  datatype Entry = Entry(dek: Bytes, expires: int)
  type Cache = map<string, Entry>

  function Lookup(c: Cache, dekId: string, now: int): Option<Bytes> {
    if dekId in c && c[dekId].expires > now then Some(c[dekId].dek) else None
  }

  function Store(c: Cache, dekId: string, dek: Bytes, now: int): Cache {
    (if |c| > CACHE_LIMIT then map[] else c)[dekId := Entry(dek, now + CACHE_TTL_MS)]
  }

  /** The KMS as the cache sees it: one answer for each identifier. */
  type Kms = string -> Result<Bytes>

  function KmsOf(p: Primitives, ring: KeyRing): Kms {
    dekId => Unwrap(p, ring, dekId)
  }

  ghost predicate CacheAgrees(kms: Kms, c: Cache) {
    forall id :: id in c ==> kms(id) == Ok(c[id].dek)
  }

  /** More than 5000 entries are cleared away, and the new one is good for a minute. */
  lemma StoreMeans(c: Cache, dekId: string, dek: Bytes, now: int)
    ensures Store(c, dekId, dek, now) == (if |c| > 5000 then map[] else c)[dekId := Entry(dek, now + 60_000)]
  {
  }

  lemma StoreAgrees(kms: Kms, c: Cache, dekId: string, dek: Bytes, now: int)
    requires CacheAgrees(kms, c) && |c| <= CACHE_LIMIT + 1
    requires kms(dekId) == Ok(dek)
    ensures CacheAgrees(kms, Store(c, dekId, dek, now))
    ensures |Store(c, dekId, dek, now)| <= CACHE_LIMIT + 1
  {
    var kept: Cache := if |c| > CACHE_LIMIT then map[] else c;
    assert Store(c, dekId, dek, now).Keys == kept.Keys + {dekId};
  }

  /** Calls overlap: an `unwrap` that misses waits for the KMS, and an `encrypt` waits for its data key,
      while others start and finish. */
  datatype Service = Service(cache: Cache, waiting: map<nat, string>, sealing: map<nat, Randomness>, clock: int,
                             answers: seq<Answer>, written: seq<Written>)
  datatype Answer = Answer(dekId: string, result: Result<Bytes>)
  datatype Written = Written(random: Randomness, text: string, payload: Payload)
  datatype Event =
    | Start(call: nat, dekId: string)
    | Finish(call: nat)
    | Generate(call: nat, random: Randomness)
    | Seal(call: nat, text: string)
    | Advance(ms: nat)

  /** An encryption as the callers see it: one payload for each draw and text. */
  type Sealer = (Randomness, string) -> Result<Payload>

  function SealerOf(p: Primitives, ring: KeyRing): Sealer {
    (r, text) => Encrypt(p, ring, r, text)
  }

  function Idle(clock: int): Service { Service(map[], map[], map[], clock, [], []) }

  function Serve(kms: Kms, seal: Sealer, s: Service, e: Event): Service {
    match e
    case Start(call, dekId) =>
      if call in s.waiting then s
      else (match Lookup(s.cache, dekId, s.clock)
            case Some(dek) => s.(answers := s.answers + [Answer(dekId, Ok(dek))])
            case None => s.(waiting := s.waiting[call := dekId]))
    case Finish(call) =>
      if call !in s.waiting then s
      else
        var dekId := s.waiting[call];
        var r := kms(dekId);
        s.(waiting := s.waiting - {call},
           answers := s.answers + [Answer(dekId, r)],
           cache := if r.Ok? then Store(s.cache, dekId, r.value, s.clock) else s.cache)
    case Generate(call, random) =>
      if call in s.sealing || !Sized(random) then s else s.(sealing := s.sealing[call := random])
    case Seal(call, text) =>
      if call !in s.sealing then s
      else
        var random := s.sealing[call];
        var m := seal(random, text);
        s.(sealing := s.sealing - {call}, written := s.written + if m.Ok? then [Written(random, text, m.value)] else [])
    case Advance(ms) => s.(clock := s.clock + ms)
  }

  function ServeAll(kms: Kms, seal: Sealer, s: Service, events: seq<Event>): Service {
    if events == [] then s
    else Serve(kms, seal, ServeAll(kms, seal, s, events[..|events| - 1]), events[|events| - 1])
  }

  ghost predicate ServiceOk(kms: Kms, seal: Sealer, s: Service) {
    && CacheAgrees(kms, s.cache)
    && |s.cache| <= CACHE_LIMIT + 1
    && (forall i :: 0 <= i < |s.answers| ==> s.answers[i].result == kms(s.answers[i].dekId))
    && (forall call :: call in s.sealing ==> Sized(s.sealing[call]))
    && (forall i :: 0 <= i < |s.written| ==>
          Sized(s.written[i].random) && seal(s.written[i].random, s.written[i].text) == Ok(s.written[i].payload))
  }

  lemma ServeKeepsOk(kms: Kms, seal: Sealer, s: Service, e: Event)
    requires ServiceOk(kms, seal, s)
    ensures ServiceOk(kms, seal, Serve(kms, seal, s, e))
  {
    if e.Finish? && e.call in s.waiting && kms(s.waiting[e.call]).Ok? {
      StoreAgrees(kms, s.cache, s.waiting[e.call], kms(s.waiting[e.call]).value, s.clock);
    }
  }

  lemma {:induction false} ServeAllKeepsOk(kms: Kms, seal: Sealer, s: Service, events: seq<Event>)
    requires ServiceOk(kms, seal, s)
    ensures ServiceOk(kms, seal, ServeAll(kms, seal, s, events))
  {
    if events != [] {
      ServeAllKeepsOk(kms, seal, s, events[..|events| - 1]);
      ServeKeepsOk(kms, seal, ServeAll(kms, seal, s, events[..|events| - 1]), events[|events| - 1]);
    }
  }

  /** However calls overlap and however the clock moves, every answer is the KMS's own answer, every
      payload reads back as its text, and the cache never holds more than 5001 keys. */
  lemma CacheIsTransparent(p: Primitives, ring: KeyRing, clock: int, events: seq<Event>)
    requires Lawful(p) && WellFormed(ring)
    ensures var end := ServeAll(KmsOf(p, ring), SealerOf(p, ring), Idle(clock), events);
            && |end.cache| <= 5001
            && (forall i :: 0 <= i < |end.answers| ==> end.answers[i].result == Unwrap(p, ring, end.answers[i].dekId))
            && (forall i :: 0 <= i < |end.written| ==> Decrypt(p, ring, end.written[i].payload) == Ok(end.written[i].text))
  {
    ServeAllKeepsOk(KmsOf(p, ring), SealerOf(p, ring), Idle(clock), events);
    var end := ServeAll(KmsOf(p, ring), SealerOf(p, ring), Idle(clock), events);
    forall i | 0 <= i < |end.written| ensures Decrypt(p, ring, end.written[i].payload) == Ok(end.written[i].text) {
      DecryptEncrypt(p, ring, ring, end.written[i].random, end.written[i].text);
    }
  }

  // ---- The service object ----

  datatype CacheSlot = CacheSlot(dek: array<Byte>, expires: int)

  lemma SameSize(slots: map<string, CacheSlot>, c: Cache)
    requires slots.Keys == c.Keys
    ensures |slots| == |c|
  {
    assert |slots.Keys| == |c.Keys|;
  }

  class EnvelopeCryptoService {
    const p: Primitives
    const ring: KeyRing
    /** What `decryptDataKey` answers, and what `encrypt` produces. */
    ghost const kms: Kms
    ghost const seal: Sealer
    var dekCache: map<string, CacheSlot>

    /** The cache with the bytes in place of the buffers. */
    ghost var contents: Cache
    /** Every buffer that the KMS unwrapped for this service, with its identifier: cached, on its way into
        the cache, or only with a caller. */
    ghost var shared: map<array<Byte>, string>
    /** The data keys of the encryptions under way, which will be wiped, with the draws they came from. */
    ghost var pending: map<array<Byte>, Randomness>

    constructor (p: Primitives, ring: KeyRing)
      requires Lawful(p) && WellFormed(ring)
      ensures this.p == p && this.ring == ring && kms == KmsOf(p, ring) && seal == SealerOf(p, ring)
      ensures contents == map[] && shared == map[] && pending == map[] && Valid()
    {
      this.p, this.ring, kms, seal := p, ring, KmsOf(p, ring), SealerOf(p, ring);
      dekCache, contents, shared, pending := map[], map[], map[], map[];
    }

    /** What the KMS answers for an identifier. */
    ghost function Reply(dekId: string): Result<Bytes> { kms(dekId) }

    /** The slot's buffer was unwrapped for this identifier, and the entry has the bytes that it holds. */
    ghost predicate SlotOk(id: string, slot: CacheSlot, entry: Entry)
      reads this`shared
    {
      slot.dek in shared && shared[slot.dek] == id && slot.expires == entry.expires && Reply(id) == Ok(entry.dek)
    }

    /** Each unwrapped buffer still holds what the KMS answered, and none of them is a key to be wiped. */
    ghost predicate Valid()
      reads this, shared.Keys, pending.Keys
    {
      && contents.Keys == dekCache.Keys && |contents| <= CACHE_LIMIT + 1
      && (forall id :: id in dekCache ==> SlotOk(id, dekCache[id], contents[id]))
      && (forall b :: b in shared ==> Reply(shared[b]) == Ok(b[..]))
      && (forall b :: b in pending ==> Sized(pending[b]) && b[..] == pending[b].dek)
      && pending.Keys !! shared.Keys
    }

    /** The part of `unwrap` before it waits for the KMS. */
    method CheckCache(dekId: string, now: int) returns (hit: Option<array<Byte>>)
      requires Valid()
      ensures hit.Some? <==> dekId in contents && contents[dekId].expires > now
      ensures hit.Some? ==> hit.value in shared && shared[hit.value] == dekId && hit.value[..] == contents[dekId].dek
    {
      if dekId in dekCache && dekCache[dekId].expires > now {
        return Some(dekCache[dekId].dek);
      }
      return None;
    }

    /** `kms.decryptDataKey` on the two parts of the identifier. */
    method DecryptDataKey(dekId: string) returns (r: Result<Bytes>)
      requires kms == KmsOf(p, ring)
      ensures r == Reply(dekId)
    {
      var parts := Strings.Split(dekId, "::");
      if |parts| < 2 { return Err("TypeError"); }
      var keyId, wrapped := parts[0], Decode(parts[1]);
      if keyId !in ring.keys { return Err("Unknown KMS key"); }
      var frame := ReadFrame(wrapped);
      if frame.Err? { return Err(frame.error); }
      var plain := p.open(ring.keys[keyId], frame.value.iv, Sealed(frame.value.wrapped, frame.value.tag));
      if plain.None? { return Err("Unsupported state or unable to authenticate data"); }
      return Ok(plain.value);
    }

    /** It hands out a buffer of its own each time. */
    method AskKms(dekId: string) returns (r: Result<array<Byte>>)
      requires Valid() && kms == KmsOf(p, ring)
      modifies this`shared
      ensures Valid()
      ensures r.Ok? ==> fresh(r.value) && shared == old(shared)[r.value := dekId] && Reply(dekId) == Ok(r.value[..])
      ensures r.Err? ==> shared == old(shared) && Reply(dekId) == Err(r.error)
    {
      var answer := DecryptDataKey(dekId);
      if answer.Err? { return Err(answer.error); }
      var dek := Adopt(dekId, answer.value);
      return Ok(dek);
    }

    method Adopt(dekId: string, bytes: Bytes) returns (dek: array<Byte>)
      requires Valid() && Reply(dekId) == Ok(bytes)
      modifies this`shared
      ensures Valid() && fresh(dek) && dek[..] == bytes && shared == old(shared)[dek := dekId]
    {
      dek := new Byte[|bytes|](i requires 0 <= i < |bytes| => bytes[i]);
      assert dek[..] == bytes && dek !in shared && dek !in pending;
      shared := shared[dek := dekId];
    }

    /** The part of `unwrap` after the KMS answered. */
    method Remember(dekId: string, dek: array<Byte>, now: int)
      requires Valid() && dek in shared && shared[dek] == dekId
      modifies this`dekCache, this`contents
      ensures Valid()
      ensures contents == Store(old(contents), dekId, dek[..], now)
    {
      SameSize(dekCache, contents);
      if |dekCache| > CACHE_LIMIT {
        dekCache, contents := map[], map[];
      }
      AddSlot(dekId, CacheSlot(dek, now + CACHE_TTL_MS));
    }

    method AddSlot(dekId: string, slot: CacheSlot)
      requires Valid() && slot.dek in shared && shared[slot.dek] == dekId && |contents| <= CACHE_LIMIT
      modifies this`dekCache, this`contents
      ensures Valid()
      ensures contents == old(contents)[dekId := Entry(slot.dek[..], slot.expires)]
    {
      var bytes := slot.dek[..];
      assert Reply(dekId) == Ok(bytes);
      assert contents[dekId := Entry(bytes, slot.expires)].Keys == contents.Keys + {dekId};
      dekCache, contents := dekCache[dekId := slot], contents[dekId := Entry(bytes, slot.expires)];
    }

    method UnwrapKey(dekId: string, now: int, later: int) returns (r: Result<array<Byte>>)
      requires Valid() && kms == KmsOf(p, ring)
      modifies this`dekCache, this`contents, this`shared
      ensures Valid()
      ensures r.Ok? ==> r.value in shared && Reply(dekId) == Ok(r.value[..])
      ensures r.Err? ==> Reply(dekId) == Err(r.error)
    {
      var hit := CheckCache(dekId, now);
      if hit.Some? { return Ok(hit.value); }
      r := AskKms(dekId);
      if r.Ok? { Remember(dekId, r.value, later); }
    }

    method DecryptBody(m: Payload, now: int, later: int) returns (r: Result<string>)
      requires Valid() && kms == KmsOf(p, ring)
      modifies this`dekCache, this`contents, this`shared
      ensures Valid()
      ensures r == Decrypt(p, ring, m)
    {
      var dek := UnwrapKey(m.dekId, now, later);
      if dek.Err? { return Err(dek.error); }
      return Open(p, dek.value[..], m);
    }

    /** `wrapped` is the form in which the KMS stores the key of this draw. */
    ghost predicate Wrapped(r: Randomness, wrapped: Bytes) {
      WrapKey(p, ring, r.dek, r.wrapIv) == Ok(wrapped)
    }

    /** The part of `encrypt` that waits: `kms.generateDataKey` hands out the key in a buffer of its own. */
    method GenerateDataKey(r: Randomness) returns (dek: array<Byte>, wrapped: Bytes)
      requires Valid() && Sized(r) && Lawful(p) && WellFormed(ring)
      modifies this`pending
      ensures Valid()
      ensures fresh(dek) && Wrapped(r, wrapped) && pending == old(pending)[dek := r]
    {
      dek := new Byte[|r.dek|](i requires 0 <= i < |r.dek| => r.dek[i]);
      assert dek[..] == r.dek;
      UnwrapWrap(p, ring, ring, r.dek, r.wrapIv);
      wrapped := WrapKey(p, ring, dek[..], r.wrapIv).value;
      pending := pending[dek := r];
    }

    /** The rest of `encrypt`: the key ends up all zero, and no buffer that was ever unwrapped changes. */
    method SealAndWipe(dek: array<Byte>, wrapped: Bytes, bodyIv: Bytes, text: string) returns (m: Payload)
      requires Valid() && dek in pending && bodyIv == pending[dek].bodyIv && Wrapped(pending[dek], wrapped)
      modifies this`pending, dek
      ensures Valid() && Encrypt(p, ring, old(pending)[dek], text) == Ok(m)
      ensures pending == old(pending) - {dek} && forall i :: 0 <= i < dek.Length ==> dek[i] == 0
      ensures forall b :: b in shared ==> b[..] == old(b[..])
    {
      var s := p.seal(dek[..], bodyIv, p.utf8(text));
      for i := 0 to dek.Length
        modifies dek
        invariant forall j :: 0 <= j < i ==> dek[j] == 0
      {
        dek[i] := 0;
      }
      pending := pending - {dek};
      m := Payload(s.ciphertext, bodyIv, s.tag, DekId(ring.active, wrapped));
    }

    /** `encrypt` without interruption. */
    method EncryptBody(r: Randomness, text: string) returns (m: Payload)
      requires Valid() && Sized(r) && Lawful(p) && WellFormed(ring)
      modifies this`pending
      ensures Valid() && pending == old(pending)
      ensures Encrypt(p, ring, r, text) == Ok(m)
    {
      var dek, wrapped := GenerateDataKey(r);
      assert dek !in old(pending);
      m := SealAndWipe(dek, wrapped, r.bodyIv, text);
    }
  }
}
