/** The local key-management provider: its key list, and the layout of a wrapped data key. */
module LocalKms {
  import opened Wrappers
  import opened Base64
  import Strings

  /** What the cipher returns for one message: the ciphertext and the authentication tag. */
  datatype Sealed = Sealed(ciphertext: Bytes, tag: Bytes)

  /** The foreign primitives: AES-256-GCM and UTF-8. */
  datatype Primitives = Primitives(
    seal: (Bytes, Bytes, Bytes) -> Sealed,
    open: (Bytes, Bytes, Sealed) -> Option<Bytes>,
    utf8: string -> Bytes,
    text: Bytes -> string)

  /** All that is assumed of them: opening undoes sealing, and the lengths of AES-GCM. */
  ghost predicate Lawful(p: Primitives) {
    && (forall k, iv, m :: p.open(k, iv, p.seal(k, iv, m)) == Some(m))
    && (forall k, iv, m :: |p.seal(k, iv, m).tag| == 16 && |p.seal(k, iv, m).ciphertext| == |m|)
    && (forall s :: p.text(p.utf8(s)) == s)
  }

  /** The provider's keys, and the identifier of the one that wraps new data keys. */
  datatype KeyRing = KeyRing(keys: map<string, Bytes>, active: string)

  predicate WellFormed(r: KeyRing) {
    && r.active in r.keys
    && forall id :: id in r.keys ==> ':' !in id
  }

  // ---- Key list ----

  /** The keys read so far, with their identifiers in order of first insertion. */
  datatype Loaded = Loaded(keys: map<string, Bytes>, order: seq<string>)

  function AddPair(l: Loaded, pair: string): Result<Loaded> {
    var parts := Strings.Split(pair, ":");
    if |parts| < 2 then Err("TypeError")
    else
      var key := Decode(parts[1]);
      if |key| != 32 then Err("KMS key must be 32 bytes")
      else
        var id := Strings.Trim(parts[0]);
        Ok(Loaded(l.keys[id := key], if id in l.keys then l.order else l.order + [id]))
  }

  function AddPairs(pairs: seq<string>): Result<Loaded> {
    if pairs == [] then Ok(Loaded(map[], []))
    else match AddPairs(pairs[..|pairs| - 1])
      case Err(e) => Err(e)
      case Ok(l) => AddPair(l, pairs[|pairs| - 1])
  }

  ghost predicate LoadedOk(l: Loaded) {
    && (forall id :: id in l.keys ==> ':' !in id && |l.keys[id]| == 32)
    && (forall id :: id in l.keys <==> id in l.order)
  }

  lemma AddPairOk(l: Loaded, pair: string)
    requires LoadedOk(l)
    ensures AddPair(l, pair).Ok? ==> LoadedOk(AddPair(l, pair).value) && AddPair(l, pair).value.order != []
  {
    Strings.PiecesAvoidSeparator(pair, ':');
  }

  lemma {:induction false} AddPairsOk(pairs: seq<string>)
    ensures AddPairs(pairs).Ok? ==> LoadedOk(AddPairs(pairs).value)
    ensures AddPairs(pairs).Ok? && pairs != [] ==> AddPairs(pairs).value.order != []
  {
    if pairs != [] {
      AddPairsOk(pairs[..|pairs| - 1]);
      if AddPairs(pairs[..|pairs| - 1]).Ok? {
        AddPairOk(AddPairs(pairs[..|pairs| - 1]).value, pairs[|pairs| - 1]);
      }
    }
  }

  lemma {:induction false} AddPairsFailsOnPrefix(pairs: seq<string>, i: nat)
    requires i <= |pairs| && AddPairs(pairs[..i]).Err?
    ensures AddPairs(pairs) == AddPairs(pairs[..i])
    decreases |pairs|
  {
    if i == |pairs| {
      assert pairs[..i] == pairs;
    } else {
      assert pairs[..|pairs| - 1][..i] == pairs[..i];
      AddPairsFailsOnPrefix(pairs[..|pairs| - 1], i);
    }
  }

  /** A pair is read back as it was written: the decoded key under the identifier without white space around
      it, in place of an earlier key of that name; only 32-byte keys are taken. */
  lemma AddPairReads(l: Loaded, id: string, key: Bytes)
    requires ':' !in id
    ensures var r, name := AddPair(l, id + ":" + Encode(key)), Strings.Trim(id);
            if |key| != 32 then r.Err?
            else
              && r.Ok? && r.value.keys == l.keys[name := key]
              && r.value.order == (if name in l.keys then l.order else l.order + [name])
  {
    EncodedAvoidsColon(key);
    RoundTrip(key);
    assert seq(1, _ => ':') == ":";
    Strings.SplitOfTwo(id, ':', 1, Encode(key));
  }

  function Printed(ps: seq<(string, Bytes)>): seq<string> {
    seq(|ps|, i requires 0 <= i < |ps| => ps[i].0 + ":" + Encode(ps[i].1))
  }

  /** The last key that the list gives for an identifier. */
  function LastKey(ps: seq<(string, Bytes)>, id: string): Option<Bytes> {
    if ps == [] then None
    else if ps[|ps| - 1].0 == id then Some(ps[|ps| - 1].1)
    else LastKey(ps[..|ps| - 1], id)
  }

  /** The whole list: every identifier in it has the last key that was given for it, and no other has one. */
  lemma {:induction false} AddPairsRead(ps: seq<(string, Bytes)>, id: string)
    requires forall i :: 0 <= i < |ps| ==> ':' !in ps[i].0 && Strings.Trim(ps[i].0) == ps[i].0 && |ps[i].1| == 32
    ensures AddPairs(Printed(ps)).Ok?
    ensures var keys := AddPairs(Printed(ps)).value.keys;
            if LastKey(ps, id).None? then id !in keys else id in keys && keys[id] == LastKey(ps, id).value
  {
    if ps != [] {
      var init, last := ps[..|ps| - 1], ps[|ps| - 1];
      assert Printed(ps)[..|ps| - 1] == Printed(init);
      AddPairsRead(init, id);
      AddPairReads(AddPairs(Printed(init)).value, last.0, last.1);
    }
  }

  /** The active key is the configured one, or else the last identifier to have been inserted. */
  function Chosen(l: Result<Loaded>, active: Option<string>): Result<KeyRing> {
    if l.Err? then Err(l.error)
    else
      var id := if active.Some? then active.value
                else if l.value.order == [] then "" else l.value.order[|l.value.order| - 1];
      if id in l.value.keys then Ok(KeyRing(l.value.keys, id)) else Err("Active key not in KMS_LOCAL_KEYS")
  }

  /** The constructor: it either throws, or leaves a key ring whose identifiers hold no colon
      and whose active key exists. `devKey` is the random key of the development fallback. */
  method Load(raw: Option<string>, active: Option<string>, devKey: Bytes) returns (r: Result<KeyRing>)
    ensures r.Ok? ==> WellFormed(r.value) && (raw.Some? && raw.value != "" && active.Some? ==> r.value.active == active.value)
    ensures raw.None? || raw.value == "" ==> r == Ok(KeyRing(map["dev-key-1" := devKey], "dev-key-1"))
    ensures raw.Some? && raw.value != "" ==>
              r == Chosen(AddPairs(Strings.Split(raw.value, ",")), active)
  {
    if raw.None? || raw.value == "" {
      return Ok(KeyRing(map["dev-key-1" := devKey], "dev-key-1"));
    }
    r := LoadPairs(Strings.Split(raw.value, ","), active);
  }

  method LoadPairs(pairs: seq<string>, active: Option<string>) returns (r: Result<KeyRing>)
    requires pairs != []
    ensures r.Ok? ==> WellFormed(r.value)
    ensures r == Chosen(AddPairs(pairs), active)
  {
    var keys: map<string, Bytes>, order: seq<string> := map[], [];
    for i := 0 to |pairs|
      invariant AddPairs(pairs[..i]) == Ok(Loaded(keys, order))
    {
      assert pairs[..i + 1][..i] == pairs[..i];
      var next := AddPair(Loaded(keys, order), pairs[i]);
      if next.Err? {
        AddPairsFailsOnPrefix(pairs, i + 1);
        return Err(next.error);
      }
      keys, order := next.value.keys, next.value.order;
    }
    assert pairs[..|pairs|] == pairs;
    AddPairsOk(pairs);
    var chosen := if active.Some? then active.value else order[|order| - 1];
    if chosen !in keys {
      return Err("Active key not in KMS_LOCAL_KEYS");
    }
    return Ok(KeyRing(keys, chosen));
  }

  // ---- Wire format ----

  datatype Frame = Frame(iv: Bytes, tag: Bytes, wrapped: Bytes)

  /** One length byte and the iv, one length byte and the tag, then the wrapped key. */
  function Print(f: Frame): Bytes
    requires |f.iv| < 256 && |f.tag| < 256
  {
    [|f.iv|] + f.iv + [|f.tag|] + f.tag + f.wrapped
  }

  function Min(a: nat, b: nat): nat { if a <= b then a else b }

  /** `readUInt8` throws past the end of the buffer; `subarray` clamps to it. */
  function Parse(b: Bytes): Result<Frame> {
    if |b| == 0 then Err("RangeError")
    else
      var tagAt: int := b[0] as int + 1;
      if tagAt >= |b| then Err("RangeError")
      else
        var end := Min(tagAt + 1 + b[tagAt], |b|);
        Ok(Frame(b[1..tagAt], b[tagAt + 1..end], b[end..]))
  }

  lemma ParsePrint(f: Frame)
    requires |f.iv| < 256 && |f.tag| < 256
    ensures Parse(Print(f)) == Ok(f)
  {
    var b := Print(f);
    var n := |f.iv|;
    assert b[1..1 + n] == f.iv;
    assert b[1 + n] == |f.tag|;
    assert b[n + 2..n + 2 + |f.tag|] == f.tag;
    assert b[n + 2 + |f.tag|..] == f.wrapped;
  }

  /** The parser loses nothing: printing what was read gives the buffer back, unless the tag was cut short. */
  lemma PrintParse(b: Bytes)
    requires Parse(b).Ok?
    ensures |Parse(b).value.iv| < 256 && |Parse(b).value.tag| < 256
    ensures Print(Parse(b).value) == b <==> |Parse(b).value.tag| == b[1 + b[0]]
  {
    var f := Parse(b).value;
    var n := |f.iv|;
    assert Print(f)[1 + n] == |f.tag|;
    if |f.tag| == b[1 + n] {
      assert b == b[..1] + b[1..1 + n] + b[1 + n..n + 2] + b[n + 2..n + 2 + |f.tag|] + b[n + 2 + |f.tag|..];
    }
  }

  /** `decryptDataKey`'s cursor over the buffer. */
  method ReadFrame(b: Bytes) returns (r: Result<Frame>)
    ensures r == Parse(b)
  {
    var off := 0;
    if off >= |b| { return Err("RangeError"); }
    var ivLen := b[off];
    off := off + 1;
    var iv := b[Min(off, |b|)..Min(off + ivLen, |b|)];
    off := off + ivLen;
    if off >= |b| { return Err("RangeError"); }
    var tagLen := b[off];
    off := off + 1;
    var tag := b[off..Min(off + tagLen, |b|)];
    off := off + tagLen;
    return Ok(Frame(iv, tag, b[Min(off, |b|)..]));
  }

  // ---- Data keys ----

  /** `generateDataKey` for the random `dek` and `iv`. */
  function WrapKey(p: Primitives, r: KeyRing, dek: Bytes, iv: Bytes): Result<Bytes> {
    if r.active !in r.keys then Err("TypeError")
    else
      var s := p.seal(r.keys[r.active], iv, dek);
      if |iv| < 256 && |s.tag| < 256 then Ok(Print(Frame(iv, s.tag, s.ciphertext))) else Err("RangeError")
  }

  /** `decryptDataKey` */
  function UnwrapKey(p: Primitives, r: KeyRing, keyId: string, wrapped: Bytes): Result<Bytes> {
    if keyId !in r.keys then Err("Unknown KMS key")
    else match Parse(wrapped)
      case Err(e) => Err(e)
      case Ok(f) =>
        match p.open(r.keys[keyId], f.iv, Sealed(f.wrapped, f.tag))
        case None => Err("Unsupported state or unable to authenticate data")
        case Some(dek) => Ok(dek)
  }

  /** `later` still holds every key of `r`; it may hold more, and another may be active. */
  predicate Extends(later: KeyRing, r: KeyRing) {
    forall id :: id in r.keys ==> id in later.keys && later.keys[id] == r.keys[id]
  }

  lemma UnwrapWrap(p: Primitives, r: KeyRing, later: KeyRing, dek: Bytes, iv: Bytes)
    requires Lawful(p) && WellFormed(r) && Extends(later, r) && |iv| == 12
    ensures WrapKey(p, r, dek, iv).Ok?
    ensures UnwrapKey(p, later, r.active, WrapKey(p, r, dek, iv).value) == Ok(dek)
    ensures |WrapKey(p, r, dek, iv).value| == 30 + |dek|
  {
    var s := p.seal(r.keys[r.active], iv, dek);
    ParsePrint(Frame(iv, s.tag, s.ciphertext));
  }

  /** Adding keys never changes the answer for a key that could already be unwrapped. */
  lemma UnwrapStable(p: Primitives, r: KeyRing, later: KeyRing, keyId: string, wrapped: Bytes)
    requires Extends(later, r) && UnwrapKey(p, r, keyId, wrapped).Ok?
    ensures UnwrapKey(p, later, keyId, wrapped) == UnwrapKey(p, r, keyId, wrapped)
  {
  }

  /** The wrapped key: the iv as drawn and a tag of 16 bytes, around what the active key opens to the data key. */
  lemma WrapMeans(p: Primitives, r: KeyRing, dek: Bytes, iv: Bytes)
    requires Lawful(p) && r.active in r.keys && |iv| == 12
    ensures WrapKey(p, r, dek, iv).Ok? && Parse(WrapKey(p, r, dek, iv).value).Ok?
    ensures var f := Parse(WrapKey(p, r, dek, iv).value).value;
            f.iv == iv && |f.tag| == 16 && p.open(r.keys[r.active], iv, Sealed(f.wrapped, f.tag)) == Some(dek)
  {
    var s := p.seal(r.keys[r.active], iv, dek);
    ParsePrint(Frame(iv, s.tag, s.ciphertext));
  }

  /** Reading fails exactly when the buffer ends before the length of the tag. */
  lemma ParseFails(b: Bytes)
    ensures Parse(b).Err? <==> |b| == 0 || |b| - 1 <= b[0]
  {
  }

  /** An answer is what one key, the named one, opens, and nothing else. */
  lemma UnwrapMeans(p: Primitives, r: KeyRing, keyId: string, wrapped: Bytes, dek: Bytes)
    ensures UnwrapKey(p, r, keyId, wrapped) == Ok(dek) <==>
              && keyId in r.keys && Parse(wrapped).Ok?
              && var f := Parse(wrapped).value; p.open(r.keys[keyId], f.iv, Sealed(f.wrapped, f.tag)) == Some(dek)
  {
  }
}
