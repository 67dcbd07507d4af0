/** Base64 as Node's `Buffer` prints and reads it (section 4 of RFC 4648). */
module Base64 {
  import opened Wrappers

  type Byte = b: int | 0 <= b < 256
  type Bytes = seq<Byte>
  type Sextet = v: int | 0 <= v < 64

  function CharOf(v: Sextet): char {
    if v < 26 then ('A' as int + v) as char
    else if v < 52 then ('a' as int + v - 26) as char
    else if v < 62 then ('0' as int + v - 52) as char
    else if v == 62 then '+'
    else '/'
  }

  /** The reader also accepts the URL-safe letters; any other character has no value. */
  function ValueOf(c: char): Option<Sextet> {
    if 'A' <= c <= 'Z' then Some(c as int - 'A' as int)
    else if 'a' <= c <= 'z' then Some(c as int - 'a' as int + 26)
    else if '0' <= c <= '9' then Some(c as int - '0' as int + 52)
    else if c == '+' || c == '-' then Some(62)
    else if c == '/' || c == '_' then Some(63)
    else None
  }

  function Encode(b: Bytes): string
    decreases |b|
  {
    if |b| == 0 then ""
    else if |b| == 1 then
      [CharOf(b[0] / 4), CharOf(b[0] % 4 * 16), '=', '=']
    else if |b| == 2 then
      [CharOf(b[0] / 4), CharOf(b[0] % 4 * 16 + b[1] / 16), CharOf(b[1] % 16 * 4), '=']
    else
      [CharOf(b[0] / 4), CharOf(b[0] % 4 * 16 + b[1] / 16),
       CharOf(b[1] % 16 * 4 + b[2] / 64), CharOf(b[2] % 64)] + Encode(b[3..])
  }

  /** `Buffer.from(s, 'base64')` skips every character outside the alphabet, padding included. */
  function Sextets(s: string): seq<Sextet> {
    if s == "" then []
    else match ValueOf(s[0])
      case Some(v) => [v] + Sextets(s[1..])
      case None => Sextets(s[1..])
  }

  /** The three bytes that four sextets carry, one function each. */
  function First(v: int, w: int): int { v * 4 + w / 16 }
  function Second(w: int, x: int): int { w % 16 * 16 + x / 4 }
  function Third(x: int, y: int): int { x % 4 * 64 + y }

  function Pack(v: seq<Sextet>): Bytes
    decreases |v|
  {
    if |v| < 2 then []
    else if |v| == 2 then [First(v[0], v[1])]
    else if |v| == 3 then [First(v[0], v[1]), Second(v[1], v[2])]
    else [First(v[0], v[1]), Second(v[1], v[2]), Third(v[2], v[3])] + Pack(v[4..])
  }

  function Decode(s: string): Bytes {
    Pack(Sextets(s))
  }

  lemma {:induction false} SextetsAppend(s: string, t: string)
    ensures Sextets(s + t) == Sextets(s) + Sextets(t)
  {
    if s == "" {
      assert s + t == t;
    } else {
      assert (s + t)[1..] == s[1..] + t;
      SextetsAppend(s[1..], t);
    }
  }

  lemma SextetsOfOne(v: Sextet)
    ensures Sextets([CharOf(v)]) == [v]
  {
    assert [CharOf(v)][1..] == [];
  }

  lemma SextetsOfTwo(a: Sextet, b: Sextet)
    ensures Sextets([CharOf(a), CharOf(b)]) == [a, b]
  {
    SextetsOfOne(a);
    SextetsOfOne(b);
    assert [CharOf(a), CharOf(b)] == [CharOf(a)] + [CharOf(b)];
    SextetsAppend([CharOf(a)], [CharOf(b)]);
  }

  lemma SextetsOfFour(a: Sextet, b: Sextet, c: Sextet, d: Sextet, rest: string)
    ensures Sextets([CharOf(a), CharOf(b), CharOf(c), CharOf(d)] + rest) == [a, b, c, d] + Sextets(rest)
  {
    SextetsOfTwo(a, b);
    SextetsOfTwo(c, d);
    var s, t := [CharOf(a), CharOf(b)], [CharOf(c), CharOf(d)];
    assert [CharOf(a), CharOf(b), CharOf(c), CharOf(d)] + rest == s + (t + rest);
    SextetsAppend(s, t + rest);
    SextetsAppend(t, rest);
  }

  lemma SextetsOfTail(a: Sextet, b: Sextet, c: Sextet)
    ensures Sextets([CharOf(a), CharOf(b), '=', '=']) == [a, b]
    ensures Sextets([CharOf(a), CharOf(b), CharOf(c), '=']) == [a, b, c]
  {
    assert Sextets("=") == [] && Sextets("==") == [] by { assert "="[1..] == "" && "=="[1..] == "="; }
    SextetsOfTwo(a, b);
    SextetsOfOne(c);
    var s := [CharOf(a), CharOf(b)];
    assert [CharOf(a), CharOf(b), '=', '='] == s + "==";
    SextetsAppend(s, "==");
    assert [CharOf(a), CharOf(b), CharOf(c), '='] == s + ([CharOf(c)] + "=");
    SextetsAppend(s, [CharOf(c)] + "=");
    SextetsAppend([CharOf(c)], "=");
  }

  lemma SplitBytes(x: Byte, y: Byte, z: Byte)
    ensures First(x / 4, x % 4 * 16) == x
    ensures First(x / 4, x % 4 * 16 + y / 16) == x
    ensures Second(x % 4 * 16 + y / 16, y % 16 * 4) == y
    ensures Second(x % 4 * 16 + y / 16, y % 16 * 4 + z / 64) == y
    ensures Third(y % 16 * 4 + z / 64, z % 64) == z
  {
  }

  lemma PackOfFour(a: Sextet, b: Sextet, c: Sextet, d: Sextet, rest: seq<Sextet>)
    ensures Pack([a, b, c, d] + rest) == [First(a, b), Second(b, c), Third(c, d)] + Pack(rest)
  {
    assert ([a, b, c, d] + rest)[4..] == rest;
  }

  lemma RoundTripOne(x: Byte)
    ensures Decode([CharOf(x / 4), CharOf(x % 4 * 16), '=', '=']) == [x]
  {
    SplitBytes(x, 0, 0);
    SextetsOfTail(x / 4, x % 4 * 16, 0);
  }

  lemma RoundTripTwo(x: Byte, y: Byte)
    ensures Decode([CharOf(x / 4), CharOf(x % 4 * 16 + y / 16), CharOf(y % 16 * 4), '=']) == [x, y]
  {
    SplitBytes(x, y, 0);
    SextetsOfTail(x / 4, x % 4 * 16 + y / 16, y % 16 * 4);
  }

  lemma RoundTripGroup(x: Byte, y: Byte, z: Byte, rest: string)
    ensures Decode([CharOf(x / 4), CharOf(x % 4 * 16 + y / 16), CharOf(y % 16 * 4 + z / 64), CharOf(z % 64)] + rest)
            == [x, y, z] + Decode(rest)
  {
    SplitBytes(x, y, z);
    SextetsOfFour(x / 4, x % 4 * 16 + y / 16, y % 16 * 4 + z / 64, z % 64, rest);
    PackOfFour(x / 4, x % 4 * 16 + y / 16, y % 16 * 4 + z / 64, z % 64, Sextets(rest));
  }

  /** Reading undoes printing, for byte strings of every length. */
  lemma {:induction false} RoundTrip(b: Bytes)
    ensures Decode(Encode(b)) == b
    decreases |b|
  {
    if |b| == 0 {
    } else if |b| == 1 {
      RoundTripOne(b[0]);
    } else if |b| == 2 {
      RoundTripTwo(b[0], b[1]);
    } else {
      RoundTripGroup(b[0], b[1], b[2], Encode(b[3..]));
      RoundTrip(b[3..]);
      assert b == [b[0], b[1], b[2]] + b[3..];
    }
  }

  lemma {:induction false} EncodedLength(b: Bytes)
    ensures |Encode(b)| == (|b| + 2) / 3 * 4
    decreases |b|
  {
    if |b| > 2 {
      EncodedLength(b[3..]);
      assert (|b| + 2) / 3 == (|b| - 3 + 2) / 3 + 1;
    }
  }

  lemma NotColon(v: Sextet)
    ensures CharOf(v) != ':'
  {
  }

  lemma {:induction false} EncodedAvoidsColon(b: Bytes)
    ensures ':' !in Encode(b)
    decreases |b|
  {
    forall v: Sextet ensures CharOf(v) != ':' { NotColon(v); }
    if |b| > 2 {
      EncodedAvoidsColon(b[3..]);
    }
  }

  // ---- The alphabet and the order of the bits ----

  /** The alphabet: capitals, small letters, digits, plus and slash, each run in its own order. */
  lemma AlphabetRuns(v: Sextet)
    ensures CharOf(0) == 'A' && CharOf(26) == 'a' && CharOf(52) == '0' && CharOf(62) == '+' && CharOf(63) == '/'
    ensures v < 61 && v != 25 && v != 51 ==> CharOf(v + 1) as int == CharOf(v) as int + 1
  {
  }

  /** The reader takes the letters of the alphabet, and the two URL-safe ones for the last two. */
  lemma ValueMeans(c: char, v: Sextet)
    ensures ValueOf(c) == Some(v) <==> c == CharOf(v) || (c == '-' && v == 62) || (c == '_' && v == 63)
  {
  }

  /** Three bytes are one number of 24 bits, read six bits at a time from the top. */
  function Letter(n: nat, shift: nat): char
    requires shift > 0
  {
    CharOf(n / shift % 64)
  }

  lemma FourDigits(a: Sextet, b: Sextet, c: Sextet, d: Sextet)
    ensures var n := ((a * 64 + b) * 64 + c) * 64 + d;
            n / 262144 % 64 == a && n / 4096 % 64 == b && n / 64 % 64 == c && n / 1 % 64 == d
  {
    var n := ((a * 64 + b) * 64 + c) * 64 + d;
    assert n / 64 == (a * 64 + b) * 64 + c;
    assert n / 4096 == a * 64 + b;
    assert n / 262144 == a;
  }

  lemma GroupBits(x: Byte, y: Byte, z: Byte)
    ensures var n := x * 65536 + y * 256 + z;
            n == (((x / 4) * 64 + (x % 4 * 16 + y / 16)) * 64 + (y % 16 * 4 + z / 64)) * 64 + z % 64
  {
  }

  lemma GroupReads(x: Byte, y: Byte, z: Byte, rest: Bytes)
    ensures var n := x * 65536 + y * 256 + z;
            Encode([x, y, z] + rest) == [Letter(n, 262144), Letter(n, 4096), Letter(n, 64), Letter(n, 1)] + Encode(rest)
  {
    var b := [x, y, z] + rest;
    assert b[3..] == rest;
    GroupBits(x, y, z);
    FourDigits(x / 4, x % 4 * 16 + y / 16, y % 16 * 4 + z / 64, z % 64);
  }

  /** One or two bytes at the end are padded with zero bits, and the letters with equals signs. */
  lemma TailReads(x: Byte, y: Byte)
    ensures var n := x * 65536; Encode([x]) == [Letter(n, 262144), Letter(n, 4096), '=', '=']
    ensures var n := x * 65536 + y * 256; Encode([x, y]) == [Letter(n, 262144), Letter(n, 4096), Letter(n, 64), '=']
  {
    GroupBits(x, 0, 0);
    FourDigits(x / 4, x % 4 * 16, 0, 0);
    GroupBits(x, y, 0);
    FourDigits(x / 4, x % 4 * 16 + y / 16, y % 16 * 4, 0);
  }
}
