/** The scanner's regular expressions, as the sets of strings they can match. */
module Patterns {
  import opened Wrappers
  import opened Luhn
  import Strings

  /** Character classes, concatenation and bounded or unbounded repetition. */
  datatype Pattern =
    | Class(accepts: char -> bool)
    | Then(first: Pattern, second: Pattern)
    | Repeat(body: Pattern, least: nat, most: Option<nat>)

  ghost predicate Matches(r: Pattern, s: string)
    decreases r, 0
  {
    match r
    case Class(accepts) => |s| == 1 && accepts(s[0])
    case Then(a, b) => exists i :: 0 <= i <= |s| && Matches(a, s[..i]) && Matches(b, s[i..])
    case Repeat(body, least, most) => exists n: nat :: least <= n && (most.Some? ==> n <= most.value) && Times(body, n, s)
  }

  ghost predicate Times(r: Pattern, n: nat, s: string)
    decreases r, n + 1
  {
    if n == 0 then s == "" else exists i :: 0 <= i <= |s| && Matches(r, s[..i]) && Times(r, n - 1, s[i..])
  }

  /** Every character of every match is acceptable to `ok`. */
  ghost predicate Only(r: Pattern, ok: char -> bool) {
    match r
    case Class(accepts) => forall c :: accepts(c) ==> ok(c)
    case Then(a, b) => Only(a, ok) && Only(b, ok)
    case Repeat(body, _, _) => Only(body, ok)
  }

  /** Every match contains a character that `mark` accepts. */
  ghost predicate Needs(r: Pattern, mark: char -> bool) {
    match r
    case Class(accepts) => forall c :: accepts(c) ==> mark(c)
    case Then(a, b) => Needs(a, mark) || Needs(b, mark)
    case Repeat(body, least, _) => least > 0 && Needs(body, mark)
  }

  lemma {:induction false} OnlySound(r: Pattern, ok: char -> bool, s: string)
    requires Only(r, ok) && Matches(r, s)
    ensures forall i :: 0 <= i < |s| ==> ok(s[i])
    decreases r, 0
  {
    match r
    case Class(_) =>
    case Then(a, b) =>
      var k :| 0 <= k <= |s| && Matches(a, s[..k]) && Matches(b, s[k..]);
      OnlySound(a, ok, s[..k]);
      OnlySound(b, ok, s[k..]);
      forall i | 0 <= i < |s| ensures ok(s[i]) {
        if i < k { assert s[..k][i] == s[i]; } else { assert s[k..][i - k] == s[i]; }
      }
    case Repeat(body, least, most) =>
      var n: nat :| least <= n && (most.Some? ==> n <= most.value) && Times(body, n, s);
      OnlySoundTimes(body, n, ok, s);
  }

  lemma {:induction false} OnlySoundTimes(r: Pattern, n: nat, ok: char -> bool, s: string)
    requires Only(r, ok) && Times(r, n, s)
    ensures forall i :: 0 <= i < |s| ==> ok(s[i])
    decreases r, n + 1
  {
    if n > 0 {
      var k :| 0 <= k <= |s| && Matches(r, s[..k]) && Times(r, n - 1, s[k..]);
      OnlySound(r, ok, s[..k]);
      OnlySoundTimes(r, n - 1, ok, s[k..]);
      forall i | 0 <= i < |s| ensures ok(s[i]) {
        if i < k { assert s[..k][i] == s[i]; } else { assert s[k..][i - k] == s[i]; }
      }
    }
  }

  ghost predicate Has(s: string, mark: char -> bool) {
    exists i :: 0 <= i < |s| && mark(s[i])
  }

  lemma HasInSlice(s: string, k: nat, mark: char -> bool)
    requires k <= |s| && (Has(s[..k], mark) || Has(s[k..], mark))
    ensures Has(s, mark)
  {
    if Has(s[..k], mark) {
      var i :| 0 <= i < k && mark(s[..k][i]);
      assert s[i] == s[..k][i];
    } else {
      var i :| 0 <= i < |s| - k && mark(s[k..][i]);
      assert s[k + i] == s[k..][i];
    }
  }

  lemma {:induction false} NeedsSound(r: Pattern, mark: char -> bool, s: string)
    requires Needs(r, mark) && Matches(r, s)
    ensures Has(s, mark)
  {
    match r
    case Class(_) =>
      assert mark(s[0]);
    case Then(a, b) =>
      var k :| 0 <= k <= |s| && Matches(a, s[..k]) && Matches(b, s[k..]);
      if Needs(a, mark) { NeedsSound(a, mark, s[..k]); } else { NeedsSound(b, mark, s[k..]); }
      HasInSlice(s, k, mark);
    case Repeat(body, least, most) =>
      var n: nat :| least <= n && (most.Some? ==> n <= most.value) && Times(body, n, s);
      var k :| 0 <= k <= |s| && Matches(body, s[..k]) && Times(body, n - 1, s[k..]);
      NeedsSound(body, mark, s[..k]);
      HasInSlice(s, k, mark);
  }

  // ---- Digits ----

  /** `replace(/\D/g, '')` */
  function OnlyDigits(s: string): (r: string)
    ensures AllDigits(r)
  {
    if s == "" then "" else (if IsDigit(s[0]) then [s[0]] else "") + OnlyDigits(s[1..])
  }

  lemma {:induction false} OnlyDigitsSplits(s: string, t: string)
    ensures OnlyDigits(s + t) == OnlyDigits(s) + OnlyDigits(t)
  {
    if s == "" {
      assert s + t == t;
    } else {
      assert (s + t)[1..] == s[1..] + t;
      OnlyDigitsSplits(s[1..], t);
    }
  }

  /** Read from the left, each digit is kept in its place and every other letter is dropped. */
  lemma OnlyDigitsReads(s: string, c: char)
    ensures OnlyDigits("") == ""
    ensures OnlyDigits(s + [c]) == OnlyDigits(s) + if '0' <= c <= '9' then [c] else ""
  {
    OnlyDigitsSplits(s, [c]);
    assert OnlyDigits([c][1..]) == "";
  }

  // ---- The five patterns; word boundaries only narrow them ----

  predicate Letter(c: char) { 'A' <= c <= 'Z' || 'a' <= c <= 'z' }
  predicate LetterOrDigit(c: char) { Letter(c) || IsDigit(c) }
  predicate WordChar(c: char) { Letter(c) || IsDigit(c) || c == '_' }

  function Opt(r: Pattern): Pattern { Repeat(r, 0, Some(1)) }
  function Chars(s: string): Pattern { Class((c: char) => c in s) }
  function Digits(least: nat, most: nat): Pattern { Repeat(Class(IsDigit), least, Some(most)) }

  datatype Kind = Pan | Iban | Cvv | Email | Phone

  function PatternOf(k: Kind): Pattern {
    match k
    case Pan => Repeat(Then(Class(IsDigit), Opt(Chars(" -"))), 13, Some(19))
    case Iban =>
      Then(Repeat(Class(Letter), 2, Some(2)),
           Then(Digits(2, 2), Repeat(Class(LetterOrDigit), 10, Some(30))))
    case Cvv =>
      Then(Chars("cC"), Then(Chars("vV"), Then(Chars("vVcC2"),
           Then(Repeat(Class(Strings.IsSpace), 0, None), Then(Opt(Chars(":=")),
                Then(Repeat(Class(Strings.IsSpace), 0, None), Digits(3, 4)))))))
    case Email =>
      Then(Repeat(Class((c: char) => WordChar(c) || c in ".+-"), 1, None), Then(Chars("@"),
           Then(Repeat(Class((c: char) => WordChar(c) || c == '-'), 1, None), Then(Chars("."),
                Repeat(Class((c: char) => WordChar(c) || c in ".-"), 1, None)))))
    case Phone =>
      Then(Opt(Then(Opt(Chars("+")), Then(Digits(1, 3), Opt(Chars(" .-"))))),
           Then(Repeat(Then(Opt(Chars("(")), Then(Digits(2, 4), Then(Opt(Chars(")")), Opt(Chars(" .-"))))), 2, Some(5)),
                Digits(2, 4)))
  }

  predicate NotBracket(c: char) { c != '[' && c != ']' }
  predicate DigitOrAt(c: char) { IsDigit(c) || c == '@' }

  lemma ClassFacts()
    ensures Only(Class(IsDigit), NotBracket) && Only(Class(Letter), NotBracket)
    ensures Only(Class(LetterOrDigit), NotBracket) && Only(Class(Strings.IsSpace), NotBracket)
    ensures Needs(Class(IsDigit), DigitOrAt)
  {
  }

  lemma PatternAvoidsBrackets(k: Kind)
    ensures Only(PatternOf(k), NotBracket)
  {
    ClassFacts();
    if k.Cvv? {
      CvvAvoidsBrackets();
    } else if k.Phone? {
      PhoneAvoidsBrackets();
    }
  }

  lemma CvvAvoidsBrackets()
    ensures Only(PatternOf(Cvv), NotBracket)
  {
    ClassFacts();
  }

  lemma PhoneAvoidsBrackets()
    ensures Only(PatternOf(Phone), NotBracket)
  {
    ClassFacts();
  }

  lemma PatternNeedsDigitOrAt(k: Kind)
    ensures Needs(PatternOf(k), DigitOrAt)
  {
    ClassFacts();
    match k
    case Pan => assert Needs(PatternOf(Pan), DigitOrAt);
    case Iban => assert Needs(Digits(2, 2), DigitOrAt);
    case Cvv => CvvNeedsDigit();
    case Email => assert Needs(Chars("@"), DigitOrAt);
    case Phone => assert Needs(Digits(2, 4), DigitOrAt);
  }

  lemma CvvNeedsDigit()
    ensures Needs(PatternOf(Cvv), DigitOrAt)
  {
    ClassFacts();
    assert Needs(Digits(3, 4), DigitOrAt);
  }

  /** No match of any pattern holds a square bracket, and each holds a digit or an at sign. */
  lemma MatchShape(k: Kind, s: string)
    requires Matches(PatternOf(k), s)
    ensures '[' !in s && ']' !in s
    ensures Has(s, DigitOrAt)
  {
    PatternAvoidsBrackets(k);
    PatternNeedsDigitOrAt(k);
    OnlySound(PatternOf(k), NotBracket, s);
    NeedsSound(PatternOf(k), DigitOrAt, s);
  }

  // ---- What the patterns describe ----

  predicate CardLetter(c: char) { '0' <= c <= '9' || c == ' ' || c == '-' }

  /** One step of the card pattern holds exactly one digit. */
  lemma CardStepHasOneDigit(s: string)
    requires Matches(Then(Class(IsDigit), Opt(Chars(" -"))), s)
    ensures |OnlyDigits(s)| == 1 && forall x :: 0 <= x < |s| ==> CardLetter(s[x])
  {
    var i :| 0 <= i <= |s| && Matches(Class(IsDigit), s[..i]) && Matches(Opt(Chars(" -")), s[i..]);
    assert i == 1 && s[..1] == [s[0]] && IsDigit(s[0]);
    var rest := s[1..];
    OptLetter(" -", rest);
    OnlyDigitsSplits(s[..1], rest);
    assert s == s[..1] + rest;
    OnlyDigitsReads("", s[0]);
    assert "" + [s[0]] == s[..1];
    if rest != "" {
      assert rest == "" + [rest[0]];
      OnlyDigitsReads("", rest[0]);
      assert forall x :: 0 < x < |s| ==> s[x] == rest[x - 1];
    }
  }

  lemma OptLetter(letters: string, s: string)
    requires Matches(Opt(Chars(letters)), s)
    ensures s == "" || (|s| == 1 && s[0] in letters)
  {
    var n: nat :| n <= 1 && Times(Chars(letters), n, s);
    if n == 1 {
      var i :| 0 <= i <= |s| && Matches(Chars(letters), s[..i]) && Times(Chars(letters), 0, s[i..]);
      assert s[i..] == "" && i == |s| && s[..i] == s;
    }
  }

  lemma {:induction false} CardTimes(n: nat, s: string)
    requires Times(Then(Class(IsDigit), Opt(Chars(" -"))), n, s)
    ensures |OnlyDigits(s)| == n && forall x :: 0 <= x < |s| ==> CardLetter(s[x])
  {
    if n > 0 {
      var step := Then(Class(IsDigit), Opt(Chars(" -")));
      var i :| 0 <= i <= |s| && Matches(step, s[..i]) && Times(step, n - 1, s[i..]);
      CardStepHasOneDigit(s[..i]);
      CardTimes(n - 1, s[i..]);
      assert s == s[..i] + s[i..];
      OnlyDigitsSplits(s[..i], s[i..]);
      forall x | 0 <= x < |s| ensures CardLetter(s[x]) {
        if x < i { assert s[..i][x] == s[x]; } else { assert s[i..][x - i] == s[x]; }
      }
    }
  }

  /** The card pattern matches only 13 to 19 digits, with spaces and hyphens among them. */
  lemma CardMatches(s: string)
    requires Matches(PatternOf(Pan), s)
    ensures 13 <= |OnlyDigits(s)| <= 19 && forall x :: 0 <= x < |s| ==> CardLetter(s[x])
  {
    var n: nat :| 13 <= n && n <= 19 && Times(Then(Class(IsDigit), Opt(Chars(" -"))), n, s);
    CardTimes(n, s);
  }

  lemma {:induction false} DigitsTimes(s: string)
    requires AllDigits(s)
    ensures Times(Then(Class(IsDigit), Opt(Chars(" -"))), |s|, s)
  {
    if s != "" {
      var digit, opt := Class(IsDigit), Opt(Chars(" -"));
      var one := s[..1];
      assert one[..1] == one && one[1..] == "";
      assert Times(Chars(" -"), 0, "");
      assert Matches(opt, one[1..]);
      assert Matches(digit, one[..1]);
      assert Matches(Then(digit, opt), s[..1]);
      DigitsTimes(s[1..]);
    }
  }

  /** And every run of 13 to 19 digits matches it. */
  lemma PlainCardsMatch(s: string)
    requires AllDigits(s) && 13 <= |s| <= 19
    ensures Matches(PatternOf(Pan), s)
  {
    DigitsTimes(s);
  }

  lemma {:induction false} ClassTimes(accepts: char -> bool, n: nat, s: string)
    ensures Times(Class(accepts), n, s) <==> |s| == n && forall x :: 0 <= x < |s| ==> accepts(s[x])
  {
    if n > 0 {
      if Times(Class(accepts), n, s) {
        var i :| 0 <= i <= |s| && Matches(Class(accepts), s[..i]) && Times(Class(accepts), n - 1, s[i..]);
        assert i == 1;
        ClassTimes(accepts, n - 1, s[1..]);
        assert forall x :: 0 < x < |s| ==> s[x] == s[1..][x - 1];
      }
      if |s| == n && forall x :: 0 <= x < |s| ==> accepts(s[x]) {
        ClassTimes(accepts, n - 1, s[1..]);
        assert Matches(Class(accepts), s[..1]);
      }
    }
  }

  lemma ClassRepeat(accepts: char -> bool, least: nat, most: Option<nat>, s: string)
    ensures Matches(Repeat(Class(accepts), least, most), s) <==>
              least <= |s| && (most.Some? ==> |s| <= most.value) && forall x :: 0 <= x < |s| ==> accepts(s[x])
  {
    ClassTimes(accepts, |s|, s);
    forall n: nat | Times(Class(accepts), n, s) ensures n == |s| { ClassTimes(accepts, n, s); }
  }

  /** A fixed number of letters of a class, and then the rest. */
  lemma FixedThen(accepts: char -> bool, n: nat, rest: Pattern, s: string)
    ensures Matches(Then(Repeat(Class(accepts), n, Some(n)), rest), s) <==>
              n <= |s| && (forall x :: 0 <= x < n ==> accepts(s[x])) && Matches(rest, s[n..])
  {
    var first := Repeat(Class(accepts), n, Some(n));
    forall i | 0 <= i <= |s| ensures Matches(first, s[..i]) <==> i == n && forall x :: 0 <= x < n ==> accepts(s[x]) {
      ClassRepeat(accepts, n, Some(n), s[..i]);
      assert forall x :: 0 <= x < i ==> s[..i][x] == s[x];
    }
    if n <= |s| && (forall x :: 0 <= x < n ==> accepts(s[x])) && Matches(rest, s[n..]) {
      assert Matches(first, s[..n]);
    }
  }

  predicate AllLetterOrDigit(s: string) { forall x :: 0 <= x < |s| ==> Letter(s[x]) || IsDigit(s[x]) }

  lemma AccountEnd(s: string)
    ensures Matches(Repeat(Class(LetterOrDigit), 10, Some(30)), s) <==> 10 <= |s| <= 30 && AllLetterOrDigit(s)
  {
    ClassRepeat(LetterOrDigit, 10, Some(30), s);
  }

  lemma FixedTwice(a: char -> bool, n: nat, b: char -> bool, m: nat, rest: Pattern, s: string)
    ensures Matches(Then(Repeat(Class(a), n, Some(n)), Then(Repeat(Class(b), m, Some(m)), rest)), s) <==>
              && n + m <= |s| && (forall x :: 0 <= x < n ==> a(s[x])) && (forall x :: n <= x < n + m ==> b(s[x]))
              && Matches(rest, s[n + m..])
  {
    FixedThen(a, n, Then(Repeat(Class(b), m, Some(m)), rest), s);
    if n <= |s| {
      var t := s[n..];
      FixedThen(b, m, rest, t);
      if n + m <= |s| {
        assert t[m..] == s[n + m..];
        assert forall x :: 0 <= x < m ==> t[x] == s[n + x];
        assert forall x :: n <= x < n + m ==> s[x] == t[x - n];
      }
    }
  }

  /** The account pattern matches exactly two letters, two digits and 10 to 30 letters or digits. */
  lemma AccountMatches(s: string)
    ensures Matches(PatternOf(Iban), s) <==>
              14 <= |s| <= 34 && Letter(s[0]) && Letter(s[1]) && IsDigit(s[2]) && IsDigit(s[3]) && AllLetterOrDigit(s[4..])
  {
    FixedTwice(Letter, 2, IsDigit, 2, Repeat(Class(LetterOrDigit), 10, Some(30)), s);
    if |s| >= 4 { AccountEnd(s[4..]); }
  }
}
