/** The moderation scanner: five redaction passes, each over the text that the one before it left. */
module ContentScanner {
  import opened Wrappers
  import opened Luhn
  import opened Patterns

  datatype Span = Span(lo: nat, hi: nat)

  /** The regular-expression engine: the next match of a pattern at or after a position. */
  type Engine = (Kind, string, nat) -> Option<Span>

  /** A match lies ahead and is not empty. */
  ghost predicate InRange(e: Engine) {
    forall k, s, i: nat :: i <= |s| && e(k, s, i).Some? ==> i <= e(k, s, i).value.lo < e(k, s, i).value.hi <= |s|
  }

  /** And what it finds belongs to the pattern. Nothing else is assumed of the engine. */
  ghost predicate Sound(e: Engine) {
    && InRange(e)
    && forall k, s, i: nat :: i <= |s| && e(k, s, i).Some? ==>
         Matches(PatternOf(k), s[e(k, s, i).value.lo..e(k, s, i).value.hi])
  }

  /** Whether the pass replaces this match, or leaves it as it is. */
  predicate Redacts(k: Kind, text: string) {
    var d := OnlyDigits(text);
    match k
    case Pan => 13 <= |d| <= 19 && Valid(d)
    case Phone => 8 <= |d| <= 15
    case _ => true
  }

  function Marker(k: Kind): string {
    match k
    case Pan => "[REDACTED_PAN]"
    case Iban => "[REDACTED_IBAN]"
    case Cvv => "[REDACTED_CVV]"
    case Email => "[REDACTED_EMAIL]"
    case Phone => "[REDACTED_PHONE]"
  }

  /** The markers, letter by letter. */
  function MarkerText(k: Kind): string {
    "[REDACTED_" + (match k case Pan => "PAN" case Iban => "IBAN" case Cvv => "CVV" case Email => "EMAIL" case Phone => "PHONE") + "]"
  }

  lemma MarkersRead(k: Kind)
    ensures Marker(k) == MarkerText(k)
  {
  }

  // ---- One pass ----

  datatype Piece = Kept(text: string) | Removed(text: string)

  /** How a pass cuts the text from position `i` on. */
  function Pieces(e: Engine, k: Kind, s: string, i: nat): seq<Piece>
    requires InRange(e) && i <= |s|
    decreases |s| - i
  {
    match e(k, s, i)
    case None => [Kept(s[i..])]
    case Some(m) =>
      var text := s[m.lo..m.hi];
      [Kept(s[i..m.lo]), if Redacts(k, text) then Removed(text) else Kept(text)] + Pieces(e, k, s, m.hi)
  }

  function Render(k: Kind, ps: seq<Piece>): string {
    if ps == [] then ""
    else (if ps[0].Kept? then ps[0].text else Marker(k)) + Render(k, ps[1..])
  }

  function Source(ps: seq<Piece>): string {
    if ps == [] then "" else ps[0].text + Source(ps[1..])
  }

  predicate Found(ps: seq<Piece>) {
    exists i :: 0 <= i < |ps| && ps[i].Removed?
  }

  /** Nothing is lost or moved: the pieces, put back together, are the text. */
  lemma {:induction false} PiecesCoverText(e: Engine, k: Kind, s: string, i: nat)
    requires InRange(e) && i <= |s|
    ensures Source(Pieces(e, k, s, i)) == s[i..]
    decreases |s| - i
  {
    match e(k, s, i)
    case None =>
    case Some(m) =>
      PiecesCoverText(e, k, s, m.hi);
      var ps := Pieces(e, k, s, i);
      assert ps[1..][1..] == Pieces(e, k, s, m.hi);
      assert Source(ps[1..]) == s[m.lo..m.hi] + s[m.hi..];
      assert s[i..] == s[i..m.lo] + (s[m.lo..m.hi] + s[m.hi..]);
  }

  /** Which matches are to be replaced: cards of 13 to 19 digits that pass the Luhn check, phone numbers of
      8 to 15 digits, and whatever else was matched. */
  predicate Qualifies(k: Kind, text: string) {
    && (k == Pan ==> 13 <= |OnlyDigits(text)| <= 19 && Luhn.Valid(OnlyDigits(text)))
    && (k == Phone ==> 8 <= |OnlyDigits(text)| <= 15)
  }

  lemma RedactsMeans(k: Kind, text: string)
    ensures Redacts(k, text) <==> Qualifies(k, text)
  {
  }

  /** What the engine reports from position `i` on, each match from the end of the one before. */
  function Hits(e: Engine, k: Kind, s: string, i: nat): (r: seq<Span>)
    requires InRange(e) && i <= |s|
    ensures InOrder(r, i, |s|)
    decreases |s| - i
  {
    match e(k, s, i)
    case None => []
    case Some(m) => [m] + Hits(e, k, s, m.hi)
  }

  /** Matches one after the other between two positions. */
  predicate InOrder(hits: seq<Span>, i: nat, end: nat) {
    && (forall x :: 0 <= x < |hits| ==> i <= hits[x].lo < hits[x].hi <= end)
    && (forall x, y :: 0 <= x < y < |hits| ==> hits[x].hi <= hits[y].lo)
  }

  /** The text cut at these matches. */
  function Cut(k: Kind, s: string, i: nat, hits: seq<Span>): seq<Piece>
    requires i <= |s| && InOrder(hits, i, |s|)
    decreases |hits|
  {
    if hits == [] then [Kept(s[i..])]
    else
      var text := s[hits[0].lo..hits[0].hi];
      [Kept(s[i..hits[0].lo]), if Redacts(k, text) then Removed(text) else Kept(text)] + Cut(k, s, hits[0].hi, hits[1..])
  }

  lemma {:induction false} PiecesAreCut(e: Engine, k: Kind, s: string, i: nat)
    requires InRange(e) && i <= |s|
    ensures Pieces(e, k, s, i) == Cut(k, s, i, Hits(e, k, s, i))
    decreases |s| - i
  {
    if e(k, s, i).Some? {
      var m := e(k, s, i).value;
      PiecesAreCut(e, k, s, m.hi);
      assert Hits(e, k, s, i)[1..] == Hits(e, k, s, m.hi);
    }
  }

  /** Between the matches, what lies around them is kept. */
  lemma {:induction false} CutShape(k: Kind, s: string, i: nat, hits: seq<Span>)
    requires i <= |s| && InOrder(hits, i, |s|)
    ensures var ps := Cut(k, s, i, hits);
            |ps| == 2 * |hits| + 1 && forall x :: 0 <= x <= |hits| ==> ps[2 * x].Kept?
    decreases |hits|
  {
    if hits != [] {
      var ps, rest := Cut(k, s, i, hits), Cut(k, s, hits[0].hi, hits[1..]);
      CutShape(k, s, hits[0].hi, hits[1..]);
      forall x | 0 < x <= |hits| ensures ps[2 * x].Kept? {
        assert rest[2 * (x - 1)].Kept? && ps[2 * x] == rest[2 * (x - 1)];
      }
    }
  }

  /** Every match becomes a piece of its own, and it is removed exactly if it qualifies. */
  lemma {:induction false} CutMeans(k: Kind, s: string, i: nat, hits: seq<Span>, x: nat)
    requires i <= |s| && InOrder(hits, i, |s|) && x < |hits|
    ensures 2 * x + 1 < |Cut(k, s, i, hits)| && PieceOf(k, s, hits[x], Cut(k, s, i, hits)[2 * x + 1])
    decreases |hits|
  {
    if x == 0 {
      RedactsMeans(k, s[hits[0].lo..hits[0].hi]);
    } else {
      CutMeans(k, s, hits[0].hi, hits[1..], x - 1);
      assert Cut(k, s, i, hits)[2 * x + 1] == Cut(k, s, hits[0].hi, hits[1..])[2 * (x - 1) + 1];
    }
  }

  predicate PieceOf(k: Kind, s: string, h: Span, piece: Piece)
    requires h.lo <= h.hi <= |s|
  {
    piece.text == s[h.lo..h.hi] && (piece.Removed? <==> Qualifies(k, s[h.lo..h.hi]))
  }

  /** Every reported match becomes a piece of its own, and it is removed exactly if it qualifies. */
  lemma HitsArePieces(e: Engine, k: Kind, s: string, i: nat, x: nat)
    requires InRange(e) && i <= |s| && x < |Hits(e, k, s, i)|
    ensures var ps, h := Pieces(e, k, s, i), Hits(e, k, s, i)[x];
            && |ps| == 2 * |Hits(e, k, s, i)| + 1
            && ps[2 * x + 1].text == s[h.lo..h.hi]
            && (ps[2 * x + 1].Removed? <==> Qualifies(k, s[h.lo..h.hi]))
  {
    PiecesAreCut(e, k, s, i);
    CutShape(k, s, i, Hits(e, k, s, i));
    CutMeans(k, s, i, Hits(e, k, s, i), x);
  }

  /** And no other piece is removed. */
  lemma RemovedIsCut(k: Kind, s: string, i: nat, hits: seq<Span>, j: nat)
    requires i <= |s| && InOrder(hits, i, |s|) && j < |Cut(k, s, i, hits)| && Cut(k, s, i, hits)[j].Removed?
    ensures j / 2 < |hits| && PieceOf(k, s, hits[j / 2], Cut(k, s, i, hits)[j])
  {
    CutShape(k, s, i, hits);
    var ps, x := Cut(k, s, i, hits), j / 2;
    assert ps[2 * x].Kept?;
    assert j == 2 * x + 1;
    CutMeans(k, s, i, hits, x);
  }

  lemma RemovedIsHit(e: Engine, k: Kind, s: string, i: nat, j: nat)
    requires InRange(e) && i <= |s| && j < |Pieces(e, k, s, i)| && Pieces(e, k, s, i)[j].Removed?
    ensures j / 2 < |Hits(e, k, s, i)| && PieceOf(k, s, Hits(e, k, s, i)[j / 2], Pieces(e, k, s, i)[j])
  {
    PiecesAreCut(e, k, s, i);
    RemovedIsCut(k, s, i, Hits(e, k, s, i), j);
  }

  lemma {:induction false} HitsBelong(e: Engine, k: Kind, s: string, i: nat, x: nat)
    requires Sound(e) && i <= |s| && x < |Hits(e, k, s, i)|
    ensures var h := Hits(e, k, s, i)[x]; Matches(PatternOf(k), s[h.lo..h.hi])
    decreases |s| - i
  {
    if x > 0 {
      var m := e(k, s, i).value;
      assert Hits(e, k, s, i)[x] == Hits(e, k, s, m.hi)[x - 1];
      HitsBelong(e, k, s, m.hi, x - 1);
    }
  }

  /** Whatever a pass removes belongs to its pattern and qualifies; for card numbers, that is a run of
      13 to 19 digits with a valid Luhn sum. */
  lemma RemovedBelongs(e: Engine, k: Kind, s: string, i: nat, j: nat)
    requires Sound(e) && i <= |s| && j < |Pieces(e, k, s, i)| && Pieces(e, k, s, i)[j].Removed?
    ensures Matches(PatternOf(k), Pieces(e, k, s, i)[j].text)
    ensures Qualifies(k, Pieces(e, k, s, i)[j].text)
  {
    RemovedIsHit(e, k, s, i, j);
    HitsBelong(e, k, s, i, j / 2);
  }

  /** Some match qualifies. */
  predicate SomeQualifies(k: Kind, s: string, hits: seq<Span>)
    requires InOrder(hits, 0, |s|)
  {
    exists x :: 0 <= x < |hits| && Qualifies(k, s[hits[x].lo..hits[x].hi])
  }

  /** Some match that the engine reports in the text qualifies. */
  predicate Hit(e: Engine, k: Kind, s: string)
    requires InRange(e)
  {
    SomeQualifies(k, s, Hits(e, k, s, 0))
  }

  lemma CutFinds(k: Kind, s: string, hits: seq<Span>)
    requires InOrder(hits, 0, |s|)
    ensures Found(Cut(k, s, 0, hits)) <==> SomeQualifies(k, s, hits)
  {
    var ps := Cut(k, s, 0, hits);
    if SomeQualifies(k, s, hits) {
      var x :| 0 <= x < |hits| && Qualifies(k, s[hits[x].lo..hits[x].hi]);
      CutMeans(k, s, 0, hits, x);
      assert PieceOf(k, s, hits[x], ps[2 * x + 1]);
    }
    if Found(ps) {
      var j :| 0 <= j < |ps| && ps[j].Removed?;
      RemovedIsCut(k, s, 0, hits, j);
    }
  }

  /** A pass finds something exactly if the engine reports a match that qualifies. */
  lemma FoundMeansHit(e: Engine, k: Kind, s: string)
    requires InRange(e)
    ensures Found(Pieces(e, k, s, 0)) <==> Hit(e, k, s)
  {
    PiecesAreCut(e, k, s, 0);
    CutFinds(k, s, Hits(e, k, s, 0));
  }

  lemma {:induction false} NothingFound(k: Kind, ps: seq<Piece>)
    requires !Found(ps)
    ensures Render(k, ps) == Source(ps)
  {
    if ps != [] {
      assert forall i :: 0 <= i < |ps[1..]| ==> ps[1..][i] == ps[i + 1];
      NothingFound(k, ps[1..]);
    }
  }

  /** Read from the left, a pass copies what it keeps and writes one marker for each piece that it removes. */
  lemma {:induction false} RenderReads(k: Kind, ps: seq<Piece>, q: Piece)
    ensures Render(k, []) == ""
    ensures Render(k, ps + [q]) == Render(k, ps) + if q.Kept? then q.text else MarkerText(k)
  {
    if ps == [] {
      assert ps + [q] == [q] && [q][1..] == [];
    } else {
      assert (ps + [q])[1..] == ps[1..] + [q];
      RenderReads(k, ps[1..], q);
    }
  }

  predicate OccursAt(t: string, m: string, j: nat) {
    j + |m| <= |t| && t[j..j + |m|] == m
  }

  predicate Occurs(t: string, m: string) {
    exists j :: 0 <= j <= |t| && OccursAt(t, m, j)
  }

  lemma OccursInside(a: string, t: string, b: string, m: string)
    requires Occurs(t, m)
    ensures Occurs(a + t + b, m)
  {
    var j :| 0 <= j <= |t| && OccursAt(t, m, j);
    assert (a + t + b)[|a| + j..|a| + j + |m|] == t[j..j + |m|];
    assert OccursAt(a + t + b, m, |a| + j);
  }

  lemma {:induction false} FoundLeavesMarker(k: Kind, ps: seq<Piece>)
    requires Found(ps)
    ensures Occurs(Render(k, ps), Marker(k))
  {
    if ps[0].Removed? {
      assert OccursAt(Render(k, ps), Marker(k), 0);
    } else {
      var i :| 0 <= i < |ps| && ps[i].Removed?;
      assert ps[1..][i - 1] == ps[i];
      FoundLeavesMarker(k, ps[1..]);
      assert Render(k, ps) == ps[0].text + Render(k, ps[1..]) + "";
      OccursInside(ps[0].text, Render(k, ps[1..]), "", Marker(k));
    }
  }

  /** Square brackets around text without a digit or an at sign. */
  ghost predicate Bracketed(w: string) {
    |w| >= 2 && w[0] == '[' && w[|w| - 1] == ']' && forall x :: 0 <= x < |w| ==> !DigitOrAt(w[x])
  }

  lemma MarkersAreBracketed(k: Kind)
    ensures Bracketed(Marker(k))
  {
  }

  /** A match and a marker never share a character. */
  lemma MatchMissesMarker(s: string, lo: nat, hi: nat, k: Kind, j: nat, w: string)
    requires lo < hi <= |s| && Matches(PatternOf(k), s[lo..hi]) && Bracketed(w) && OccursAt(s, w, j)
    ensures hi <= j || j + |w| <= lo
  {
    MatchShape(k, s[lo..hi]);
    SpanMissesMarker(s, lo, hi, j, w);
  }

  lemma SpanMissesMarker(s: string, lo: nat, hi: nat, j: nat, w: string)
    requires lo < hi <= |s| && Bracketed(w) && OccursAt(s, w, j)
    requires '[' !in s[lo..hi] && ']' !in s[lo..hi] && Has(s[lo..hi], DigitOrAt)
    ensures hi <= j || j + |w| <= lo
  {
    var end := j + |w| - 1;
    assert s[j] == s[j..j + |w|][0] == '[';
    assert s[end] == s[j..j + |w|][|w| - 1] == ']';
    forall y | lo <= y < hi ensures NotBracket(s[y]) {
      assert s[lo..hi][y - lo] == s[y];
    }
    forall y | j <= y <= end ensures !DigitOrAt(s[y]) {
      assert s[y] == s[j..j + |w|][y - j];
    }
    var x :| 0 <= x < hi - lo && DigitOrAt(s[lo..hi][x]);
    assert s[lo + x] == s[lo..hi][x];
    assert lo + x < j || end < lo + x;
  }

  /** So a marker that an earlier pass left is still there after a later pass. */
  lemma {:induction false} PassKeepsMarker(e: Engine, k: Kind, s: string, i: nat, j: nat, w: string)
    requires Sound(e) && i <= j && Bracketed(w) && OccursAt(s, w, j)
    ensures Occurs(Render(k, Pieces(e, k, s, i)), w)
    decreases |s| - i
  {
    match e(k, s, i)
    case None =>
      OccursInSlice(s, i, |s|, j, w);
      assert s[i..|s|] == s[i..];
      LastPiece(e, k, s, i);
    case Some(m) =>
      MatchMissesMarker(s, m.lo, m.hi, k, j, w);
      if m.hi <= j {
        PassKeepsMarker(e, k, s, m.hi, j, w);
      } else {
        OccursInSlice(s, i, m.lo, j, w);
      }
      PassStep(e, k, s, i);
      var text := s[m.lo..m.hi];
      OccursInEither(s[i..m.lo], if Redacts(k, text) then Marker(k) else text, Render(k, Pieces(e, k, s, m.hi)), w);
  }

  lemma OccursInSlice(s: string, i: nat, end: nat, j: nat, w: string)
    requires i <= j && j + |w| <= end <= |s| && OccursAt(s, w, j)
    ensures Occurs(s[i..end], w)
  {
    var t := s[i..end];
    forall x | 0 <= x < |w| ensures t[j - i + x] == w[x] {
      assert s[j..j + |w|][x] == s[j + x];
    }
    assert t[j - i..j - i + |w|] == w;
    assert OccursAt(t, w, j - i);
  }

  lemma OccursInEither(a: string, mid: string, rest: string, w: string)
    requires Occurs(a, w) || Occurs(rest, w)
    ensures Occurs(a + (mid + rest), w)
  {
    if Occurs(rest, w) {
      assert a + (mid + rest) == (a + mid) + rest + "";
      OccursInside(a + mid, rest, "", w);
    } else {
      assert a + (mid + rest) == "" + a + (mid + rest);
      OccursInside("", a, mid + rest, w);
    }
  }

  lemma RenderTwo(k: Kind, ps: seq<Piece>)
    requires |ps| >= 2 && ps[0].Kept?
    ensures Render(k, ps) == ps[0].text + ((if ps[1].Kept? then ps[1].text else Marker(k)) + Render(k, ps[2..]))
  {
    assert ps[1..][1..] == ps[2..];
  }

  // ---- The five passes ----

  const ORDER: seq<Kind> := [Pan, Iban, Cvv, Email, Phone]

  /** Where a kind stands in the order of the passes. */
  function Turn(k: Kind): nat {
    match k case Pan => 0 case Iban => 1 case Cvv => 2 case Email => 3 case Phone => 4
  }

  datatype Scanned = Scanned(cleaned: string, flags: seq<Kind>)

  /** One pass, on the text and the flags that the earlier ones left. */
  function OnePass(e: Engine, k: Kind, before: Scanned): Scanned
    requires InRange(e)
  {
    var ps := Pieces(e, k, before.cleaned, 0);
    Scanned(Render(k, ps), before.flags + if Found(ps) then [k] else [])
  }

  /** The text and the flags after the first `n` passes. */
  function Passes(e: Engine, input: string, n: nat): Scanned
    requires InRange(e) && n <= 5
  {
    if n == 0 then Scanned(input, []) else OnePass(e, ORDER[n - 1], Passes(e, input, n - 1))
  }

  lemma OnePassKeepsMarker(e: Engine, k: Kind, s: string, mark: Kind)
    requires Sound(e) && Occurs(s, Marker(mark))
    ensures Occurs(Render(k, Pieces(e, k, s, 0)), Marker(mark))
  {
    var w := Marker(mark);
    MarkersAreBracketed(mark);
    var j :| 0 <= j <= |s| && OccursAt(s, w, j);
    PassKeepsMarker(e, k, s, 0, j, w);
  }

  lemma PassLeavesMarkers(e: Engine, last: Kind, before: Scanned, k: Kind)
    requires Sound(e) && k in OnePass(e, last, before).flags
    requires k in before.flags ==> Occurs(before.cleaned, Marker(k))
    ensures Occurs(OnePass(e, last, before).cleaned, Marker(k))
  {
    if k in before.flags {
      OnePassKeepsMarker(e, last, before.cleaned, k);
    } else {
      FoundLeavesMarker(last, Pieces(e, last, before.cleaned, 0));
    }
  }

  /** Every reported flag has its marker in the text: no later pass can reach into it. */
  lemma {:induction false} FlagsHaveMarkers(e: Engine, input: string, n: nat, k: Kind)
    requires Sound(e) && n <= 5 && k in Passes(e, input, n).flags
    ensures Occurs(Passes(e, input, n).cleaned, Marker(k))
  {
    var before := Passes(e, input, n - 1);
    if k in before.flags { FlagsHaveMarkers(e, input, n - 1, k); }
    PassLeavesMarkers(e, ORDER[n - 1], before, k);
  }

  /** With nothing to report, the text is untouched. */
  lemma {:induction false} NoFlagsNoChange(e: Engine, input: string, n: nat)
    requires InRange(e) && n <= 5 && Passes(e, input, n).flags == []
    ensures Passes(e, input, n).cleaned == input
  {
    if n > 0 {
      NoFlagsNoChange(e, input, n - 1);
      NothingFound(ORDER[n - 1], Pieces(e, ORDER[n - 1], input, 0));
      PiecesCoverText(e, ORDER[n - 1], input, 0);
    }
  }

  /** Distinct kinds, in the order of their passes, all of the first `n`. */
  predicate InTurn(f: seq<Kind>, n: nat) {
    && |f| <= n
    && (forall i :: 0 <= i < |f| ==> Turn(f[i]) < n)
    && (forall i, j :: 0 <= i < j < |f| ==> Turn(f[i]) < Turn(f[j]))
  }

  lemma PassKeepsTurn(e: Engine, last: Kind, before: Scanned)
    requires InRange(e) && InTurn(before.flags, Turn(last))
    ensures InTurn(OnePass(e, last, before).flags, Turn(last) + 1)
  {
  }

  /** Flags come in the order of the passes, each kind at most once. */
  lemma {:induction false} FlagsAreDistinct(e: Engine, input: string, n: nat)
    requires InRange(e) && n <= 5
    ensures InTurn(Passes(e, input, n).flags, n)
  {
    if n > 0 {
      FlagsAreDistinct(e, input, n - 1);
      TurnOfPass(n - 1, ORDER[n - 1]);
      PassKeepsTurn(e, ORDER[n - 1], Passes(e, input, n - 1));
    }
  }

  lemma PassFlags(e: Engine, last: Kind, before: Scanned, k: Kind)
    requires InRange(e)
    ensures k in OnePass(e, last, before).flags <==> k in before.flags || (k == last && Hit(e, k, before.cleaned))
  {
    FoundMeansHit(e, last, before.cleaned);
  }

  /** A kind is flagged exactly if its own pass had something to replace in the text that the earlier passes
      left: cards in the input itself, the other kinds after them. */
  lemma {:induction false} FlagMeansHit(e: Engine, input: string, n: nat, k: Kind)
    requires InRange(e) && n <= 5
    ensures k in Passes(e, input, n).flags <==> Turn(k) < n && Hit(e, k, Passes(e, input, Turn(k)).cleaned)
  {
    if n > 0 {
      FlagMeansHit(e, input, n - 1, k);
      PassFlags(e, ORDER[n - 1], Passes(e, input, n - 1), k);
      TurnOfPass(n - 1, k);
    }
  }

  lemma TurnOfPass(n: nat, k: Kind)
    requires n < 5
    ensures k == ORDER[n] <==> Turn(k) == n
  {
  }

  function Score(flags: seq<Kind>): real {
    var x := |flags| as real * 0.3;
    if x < 1.0 then x else 1.0
  }

  lemma ScoreMeans(flags: seq<Kind>)
    ensures Score(flags) == if |flags| >= 4 then 1.0 else 0.3 * |flags| as real
  {
  }

  /** A message is stored as flagged exactly when at least two kinds were found. */
  lemma FlaggedMeansTwoKinds(flags: seq<Kind>)
    ensures Score(flags) >= 0.6 <==> |flags| >= 2
  {
  }

  lemma PassStep(e: Engine, k: Kind, s: string, i: nat)
    requires InRange(e) && i <= |s| && e(k, s, i).Some?
    ensures var m := e(k, s, i).value;
            var text, rest := s[m.lo..m.hi], Pieces(e, k, s, m.hi);
            && Render(k, Pieces(e, k, s, i)) == s[i..m.lo] + ((if Redacts(k, text) then Marker(k) else text) + Render(k, rest))
            && (Found(Pieces(e, k, s, i)) <==> Redacts(k, text) || Found(rest))
  {
    var ps := Pieces(e, k, s, i);
    RenderTwo(k, ps);
    FoundTwo(ps);
    assert ps[2..] == Pieces(e, k, s, e(k, s, i).value.hi);
  }

  lemma LastPiece(e: Engine, k: Kind, s: string, i: nat)
    requires InRange(e) && i <= |s| && e(k, s, i).None?
    ensures Render(k, Pieces(e, k, s, i)) == s[i..] && !Found(Pieces(e, k, s, i))
  {
    assert Render(k, [Kept(s[i..])]) == s[i..] + "";
  }

  lemma Regroup(a: string, b: string, c: string, d: string)
    ensures a + (b + (c + d)) == (a + (b + c)) + d
  {
  }

  /** The callbacks' test; card numbers go through the Luhn loop. */
  method ShouldRedact(k: Kind, text: string) returns (hit: bool)
    ensures hit <==>
              && (k == Pan ==> 13 <= |OnlyDigits(text)| <= 19 && Luhn.Valid(OnlyDigits(text)))
              && (k == Phone ==> 8 <= |OnlyDigits(text)| <= 15)
    ensures hit == Redacts(k, text)
  {
    var digits := OnlyDigits(text);
    match k
    case Pan =>
      hit := false;
      if 13 <= |digits| <= 19 { hit := Check(digits); }
    case Phone => hit := 8 <= |digits| <= 15;
    case _ => hit := true;
  }

  /** `replace` with a callback, as one pass runs it. */
  method Replace(e: Engine, k: Kind, s: string) returns (out: string, found: bool)
    requires InRange(e)
    ensures out == Render(k, Pieces(e, k, s, 0))
    ensures found == Found(Pieces(e, k, s, 0))
  {
    var i := 0;
    out, found := "", false;
    var m := e(k, s, i);
    ghost var whole, any := Render(k, Pieces(e, k, s, 0)), Found(Pieces(e, k, s, 0));
    while m.Some?
      invariant 0 <= i <= |s| && m == e(k, s, i)
      invariant out + Render(k, Pieces(e, k, s, i)) == whole
      invariant (found || Found(Pieces(e, k, s, i))) == any
      decreases |s| - i
    {
      PassStep(e, k, s, i);
      var text := s[m.value.lo..m.value.hi];
      var hit := ShouldRedact(k, text);
      var next := if hit then Marker(k) else text;
      Regroup(out, s[i..m.value.lo], next, Render(k, Pieces(e, k, s, m.value.hi)));
      out := out + (s[i..m.value.lo] + next);
      found := found || hit;
      i := m.value.hi;
      m := e(k, s, i);
    }
    LastPiece(e, k, s, i);
    out := out + s[i..];
  }

  lemma FoundTwo(ps: seq<Piece>)
    requires |ps| >= 2 && ps[0].Kept?
    ensures Found(ps) <==> ps[1].Removed? || Found(ps[2..])
  {
    if Found(ps) {
      var i :| 0 <= i < |ps| && ps[i].Removed?;
      assert i >= 2 ==> ps[2..][i - 2] == ps[i];
    } else {
      assert forall i :: 0 <= i < |ps[2..]| ==> ps[2..][i] == ps[i + 2];
    }
  }

  /** `scan` */
  method Scan(e: Engine, input: string) returns (r: Scanned, score: real)
    requires Sound(e)
    ensures r == Passes(e, input, 5)
    ensures score == if |r.flags| >= 4 then 1.0 else 0.3 * |r.flags| as real
    ensures forall k :: k in r.flags ==> Occurs(r.cleaned, MarkerText(k))
    ensures r.flags == [] ==> r.cleaned == input
    ensures forall k :: k in r.flags <==> Hit(e, k, Passes(e, input, Turn(k)).cleaned)
    ensures Pan in r.flags <==>
              exists x :: 0 <= x < |Hits(e, Pan, input, 0)| && CardIn(input, Hits(e, Pan, input, 0)[x])
  {
    r := RunPasses(e, input);
    score := Score(r.flags);
    ScoreMeans(r.flags);
    FlagsAreDistinct(e, input, 5);
    forall k ensures k in r.flags <==> Hit(e, k, Passes(e, input, Turn(k)).cleaned) { FlagMeansHit(e, input, 5, k); }
    forall k | k in r.flags ensures Occurs(r.cleaned, MarkerText(k)) { FlagLeavesMarker(e, input, k); }
    if r.flags == [] { NoFlagsNoChange(e, input, 5); }
    CardFlagMeans(e, input);
  }

  lemma FlagLeavesMarker(e: Engine, input: string, k: Kind)
    requires Sound(e) && k in Passes(e, input, 5).flags
    ensures Occurs(Passes(e, input, 5).cleaned, MarkerText(k))
  {
    FlagsHaveMarkers(e, input, 5, k);
    MarkersRead(k);
  }

  /** Cards are flagged exactly if the engine reports, in the input itself, a match with 13 to 19 digits that
      pass the Luhn check. */
  lemma CardFlagMeans(e: Engine, input: string)
    requires InRange(e)
    ensures Pan in Passes(e, input, 5).flags <==>
              exists x :: 0 <= x < |Hits(e, Pan, input, 0)| && CardIn(input, Hits(e, Pan, input, 0)[x])
  {
    FlagMeansHit(e, input, 5, Pan);
    CardsQualify(input, Hits(e, Pan, input, 0));
  }

  lemma CardsQualify(s: string, hits: seq<Span>)
    requires InOrder(hits, 0, |s|)
    ensures SomeQualifies(Pan, s, hits) <==> exists x :: 0 <= x < |hits| && CardIn(s, hits[x])
  {
    if SomeQualifies(Pan, s, hits) {
      var x :| 0 <= x < |hits| && Qualifies(Pan, s[hits[x].lo..hits[x].hi]);
      assert CardIn(s, hits[x]);
    }
    if exists x :: 0 <= x < |hits| && CardIn(s, hits[x]) {
      var x :| 0 <= x < |hits| && CardIn(s, hits[x]);
      assert Qualifies(Pan, s[hits[x].lo..hits[x].hi]);
    }
  }

  predicate CardIn(s: string, h: Span)
    requires h.lo <= h.hi <= |s|
  {
    13 <= |OnlyDigits(s[h.lo..h.hi])| <= 19 && Luhn.Valid(OnlyDigits(s[h.lo..h.hi]))
  }

  method RunPasses(e: Engine, input: string) returns (r: Scanned)
    requires InRange(e)
    ensures r == Passes(e, input, 5)
  {
    var cleaned, flags: seq<Kind> := input, [];
    for n := 0 to 5
      invariant Scanned(cleaned, flags) == Passes(e, input, n)
    {
      var found;
      cleaned, found := Replace(e, ORDER[n], cleaned);
      if found { flags := flags + [ORDER[n]]; }
    }
    r := Scanned(cleaned, flags);
  }
}
