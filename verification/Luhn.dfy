/** The Luhn check of ISO/IEC 7812-1, as the content scanner runs it on card-like numbers. */
module Luhn {

  predicate IsDigit(c: char) { '0' <= c <= '9' }

  predicate AllDigits(s: string) { forall i :: 0 <= i < |s| ==> IsDigit(s[i]) }

  function ValueOf(c: char): (n: int)
    requires IsDigit(c)
    ensures 0 <= n <= 9
  {
    c as int - '0' as int
  }

  /** What a digit adds to the sum: itself, or its double with nines cast out. */
  function Weight(n: int, doubled: bool): int {
    if !doubled then n else if 2 * n > 9 then 2 * n - 9 else 2 * n
  }

  /** Counting from the right, every second digit is doubled; `doubled` says whether the last one is. */
  function Sum(s: string, doubled: bool): int
    requires AllDigits(s)
  {
    if s == "" then 0
    else Weight(ValueOf(s[|s| - 1]), doubled) + Sum(s[..|s| - 1], !doubled)
  }

  predicate Valid(s: string)
    requires AllDigits(s)
  {
    Sum(s, false) % 10 == 0
  }

  /** The sum, digit by digit from the right: the last digit counts once, the one before it as the digit sum
      of its double, and so on in turn. */
  lemma SumReads(s: string, c: char)
    requires AllDigits(s) && IsDigit(c)
    ensures AllDigits(s + [c]) && Sum("", false) == 0 && Sum("", true) == 0
    ensures Sum(s + [c], false) == (c as int - '0' as int) + Sum(s, true)
    ensures var d := 2 * (c as int - '0' as int); Sum(s + [c], true) == d / 10 + d % 10 + Sum(s, false)
    ensures Valid("") && (Valid(s + [c]) <==> ((c as int - '0' as int) + Sum(s, true)) % 10 == 0)
  {
    assert (s + [c])[..|s|] == s;
  }

  /** The scanner's loop, from the last digit down. */
  method Check(num: string) returns (ok: bool)
    requires AllDigits(num)
    ensures ok == Valid(num)
  {
    var sum, alt := 0, false;
    var i := |num| - 1;
    assert num[..i + 1] == num;
    while i >= 0
      invariant -1 <= i < |num|
      invariant sum + Sum(num[..i + 1], alt) == Sum(num, false)
    {
      assert num[..i + 1][..i] == num[..i];
      var n := ValueOf(num[i]);
      if alt {
        n := n * 2;
        if n > 9 { n := n - 9; }
      }
      sum := sum + n;
      alt := !alt;
      i := i - 1;
    }
    ok := sum % 10 == 0;
  }

  /** Whether the digit at `i` is doubled in a number of this length. */
  predicate DoubledAt(length: nat, i: int) { (length - 1 - i) % 2 == 1 }

  function Flip(b: bool, odd: bool): bool { b != odd }

  lemma {:induction false} SumOfUpdate(s: string, i: nat, c: char, doubled: bool)
    requires AllDigits(s) && i < |s| && IsDigit(c)
    ensures var d := Flip(doubled, DoubledAt(|s|, i));
            Sum(s[i := c], doubled) == Sum(s, doubled) - Weight(ValueOf(s[i]), d) + Weight(ValueOf(c), d)
  {
    var t := s[i := c];
    if i == |s| - 1 {
      assert t[..|s| - 1] == s[..|s| - 1];
    } else {
      assert t[..|s| - 1] == s[..|s| - 1][i := c];
      SumOfUpdate(s[..|s| - 1], i, c, !doubled);
    }
  }

  /** Each position tells all ten digits apart. */
  lemma WeightsDiffer(a: int, b: int, doubled: bool)
    requires 0 <= a <= 9 && 0 <= b <= 9 && a != b
    ensures 0 < Weight(a, doubled) - Weight(b, doubled) < 10 || -10 < Weight(a, doubled) - Weight(b, doubled) < 0
  {
  }

  lemma ShiftedSum(x: int, d: int)
    requires x % 10 == 0
    ensures (x + d) % 10 == 0 <==> d % 10 == 0
    ensures (x - d) % 10 == 0 <==> d % 10 == 0
  {
  }

  /** Changing any one digit of a valid number makes it invalid. */
  lemma SingleErrorIsCaught(s: string, i: nat, c: char)
    requires AllDigits(s) && i < |s| && IsDigit(c) && c != s[i]
    requires Valid(s)
    ensures AllDigits(s[i := c]) && !Valid(s[i := c])
  {
    var d := DoubledAt(|s|, i);
    SumOfUpdate(s, i, c, false);
    WeightsDiffer(ValueOf(c), ValueOf(s[i]), d);
    ShiftedSum(Sum(s, false), Weight(ValueOf(c), d) - Weight(ValueOf(s[i]), d));
  }

  function Swapped(s: string, i: nat): string
    requires i + 1 < |s|
  {
    s[i := s[i + 1]][i + 1 := s[i]]
  }

  /** Only equal digits, or a 0 next to a 9, weigh the same both ways round, modulo ten. */
  lemma SwapWeights(a: int, b: int)
    requires 0 <= a <= 9 && 0 <= b <= 9
    ensures ((Weight(a, true) + b) - (Weight(b, true) + a)) % 10 == 0 <==> a == b || (a == 0 && b == 9) || (a == 9 && b == 0)
  {
  }

  lemma NeighboursAlternate(n: nat, i: int)
    ensures DoubledAt(n, i + 1) == !DoubledAt(n, i)
  {
  }

  lemma SwapSum(s: string, i: nat)
    requires AllDigits(s) && i + 1 < |s|
    ensures AllDigits(Swapped(s, i))
    ensures var a, b, d := ValueOf(s[i]), ValueOf(s[i + 1]), DoubledAt(|s|, i);
            Sum(Swapped(s, i), false) == Sum(s, false) - Weight(a, d) + Weight(b, d) - Weight(b, !d) + Weight(a, !d)
  {
    var t := s[i := s[i + 1]];
    NeighboursAlternate(|s|, i);
    SumOfUpdate(s, i, s[i + 1], false);
    SumOfUpdate(t, i + 1, s[i], false);
    assert t[i + 1] == s[i + 1] && Swapped(s, i) == t[i + 1 := s[i]];
  }

  predicate ZeroAndNine(a: char, b: char) {
    (a == '0' && b == '9') || (a == '9' && b == '0')
  }

  /** Swapping two neighbours of a valid number makes it invalid, unless they are equal, or 0 and 9. */
  lemma SwapIsCaught(s: string, i: nat)
    requires AllDigits(s) && i + 1 < |s| && Valid(s)
    ensures AllDigits(Swapped(s, i))
    ensures Valid(Swapped(s, i)) <==> s[i] == s[i + 1] || ZeroAndNine(s[i], s[i + 1])
  {
    var a, b, d := ValueOf(s[i]), ValueOf(s[i + 1]), DoubledAt(|s|, i);
    var delta := (Weight(a, true) + b) - (Weight(b, true) + a);
    SwapSum(s, i);
    SwapWeights(a, b);
    ShiftedSum(Sum(s, false), delta);
    assert Sum(Swapped(s, i), false) == if d then Sum(s, false) - delta else Sum(s, false) + delta;
    assert a == b <==> s[i] == s[i + 1];
  }

  function DigitOf(n: int): (c: char)
    requires 0 <= n <= 9
    ensures IsDigit(c) && ValueOf(c) == n
  {
    (n + '0' as int) as char
  }

  function CheckDigit(s: string): char
    requires AllDigits(s)
  {
    DigitOf((10 - Sum(s, true) % 10) % 10)
  }

  /** Every prefix has exactly one check digit. */
  lemma CheckDigitIsUnique(s: string, c: char)
    requires AllDigits(s) && IsDigit(c)
    ensures AllDigits(s + [c])
    ensures Valid(s + [c]) <==> c == CheckDigit(s)
  {
    assert (s + [c])[..|s|] == s;
    var v, t := ValueOf(c), Sum(s, true);
    assert Sum(s + [c], false) == v + t;
    assert c == CheckDigit(s) <==> v == (10 - t % 10) % 10;
  }
}
