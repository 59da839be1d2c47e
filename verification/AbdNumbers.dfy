/** What the client makes of a value: the number that `atoi` reads at its start. */
module AbdNumbers {
  import opened Abd

  predicate IsDigit(c: char) {
    '0' <= c <= '9'
  }

  /** A number in decimal notation. */
  function Dec(n: nat): (s: string)
    ensures s != [] && forall i :: 0 <= i < |s| ==> IsDigit(s[i])
  {
    (if n < 10 then [] else Dec(n / 10)) + ['0' + (n % 10) as char]
  }

  /** Nothing that would prolong a number. */
  predicate NoDigit(rest: string) {
    rest == [] || !IsDigit(rest[0])
  }

  lemma OneDigit(d: nat, rest: string, high: nat)
    requires d < 10
    ensures Digits(['0' + d as char] + rest, high) == Digits(rest, 10 * high + d)
  {
    assert (['0' + d as char] + rest)[1..] == rest;
  }

  lemma {:induction false} DigitsOfDec(n: nat, rest: string)
    ensures Digits(Dec(n) + rest, 0) == Digits(rest, n)
  {
    var d := n % 10;
    if n < 10 {
      assert Dec(n) == ['0' + d as char];
      OneDigit(d, rest, 0);
    } else {
      DigitsOfDec(n / 10, ['0' + d as char] + rest);
      assert Dec(n) + rest == Dec(n / 10) + (['0' + d as char] + rest);
      OneDigit(d, rest, n / 10);
    }
  }

  predicate Blanks(s: string) {
    forall i :: 0 <= i < |s| ==> s[i] in {' ', '\t', '\n', '\r', 0x0B as char, 0x0C as char}
  }

  lemma {:induction false} AtoiSkipsBlanks(blanks: string, s: string)
    requires Blanks(blanks)
    ensures Atoi(blanks + s) == Atoi(s)
  {
    if blanks == [] {
      assert blanks + s == s;
    } else {
      assert (blanks + s)[1..] == blanks[1..] + s;
      AtoiSkipsBlanks(blanks[1..], s);
    }
  }

  lemma AtoiUnsigned(s: string)
    requires s != [] && IsDigit(s[0])
    ensures Atoi(s) == Digits(s, 0) % 0x1_0000_0000
  {}

  lemma AtoiSigned(s: string, digits: string)
    requires s != [] && s[0] in {'+', '-'} && s[1..] == digits
    ensures Atoi(s) == (if s[0] == '+' then Digits(digits, 0) else 0 - Digits(digits, 0)) % 0x1_0000_0000
  {}

  lemma NumberAtStart(n: nat, rest: string)
    requires NoDigit(rest)
    ensures Digits(Dec(n) + rest, 0) == n && IsDigit((Dec(n) + rest)[0])
  {
    DigitsOfDec(n, rest);
  }

  lemma AtoiBehindBlanks(blanks: string, s: string, n: nat)
    requires Blanks(blanks) && s != [] && IsDigit(s[0]) && Digits(s, 0) == n < 0x1_0000_0000
    ensures Atoi(blanks + s) == n && Atoi(blanks + (['+'] + s)) == n
    ensures Atoi(blanks + (['-'] + s)) == if n == 0 then 0 else 0x1_0000_0000 - n
  {
    AtoiUnsigned(s);
    AtoiSigned(['+'] + s, s);
    AtoiSigned(['-'] + s, s);
    AtoiSkipsBlanks(blanks, s);
    AtoiSkipsBlanks(blanks, ['+'] + s);
    AtoiSkipsBlanks(blanks, ['-'] + s);
  }

  /** A number of 32 bits, behind blanks, is read as far as its digits go; behind `+` too; behind `-`
      its negative is, in 32 bits. */
  lemma AtoiReadsNumber(blanks: string, n: nat, rest: string)
    requires Blanks(blanks) && NoDigit(rest) && n < 0x1_0000_0000
    ensures Atoi(blanks + (Dec(n) + rest)) == n
    ensures Atoi(blanks + (['+'] + (Dec(n) + rest))) == n
    ensures Atoi(blanks + (['-'] + (Dec(n) + rest))) == if n == 0 then 0 else 0x1_0000_0000 - n
  {
    NumberAtStart(n, rest);
    AtoiBehindBlanks(blanks, Dec(n) + rest, n);
  }

  /** Without a digit, there is no number. */
  lemma AtoiWithoutDigit(blanks: string, sign: string, rest: string)
    requires Blanks(blanks) && sign in {"", "+", "-"} && NoDigit(rest)
    requires sign == "" ==> rest == [] || !(rest[0] in {'+', '-'} || Blanks(rest[..1]))
    ensures Atoi(blanks + (sign + rest)) == 0
  {
    AtoiSkipsBlanks(blanks, sign + rest);
    if sign == "" {
      assert sign + rest == rest;
      assert rest != [] ==> rest[..1] == [rest[0]];
    } else {
      assert (sign + rest)[1..] == rest;
    }
  }

  /** Different numbers give different tags. */
  lemma NumberTagOfDec(n: nat, rest: string)
    requires NoDigit(rest) && n < 0x1_0000_0000
    ensures NumberTag(Dec(n) + rest) == Tag(n, n)
  {
    AtoiReadsNumber([], n, rest);
    assert [] + (Dec(n) + rest) == Dec(n) + rest;
  }
}
