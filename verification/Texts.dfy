/** Strings as Python sees them: white space, stripping and decimal numbers. */
module Texts {
  /** `str.isspace` of one character. */
  predicate IsSpace(c: char) {
    var n := c as int;
    || 9 <= n <= 13 || 28 <= n <= 32 || n == 0x85 || n == 0xA0 || n == 0x1680 || 0x2000 <= n <= 0x200A
    || 0x2028 <= n <= 0x2029 || n == 0x202F || n == 0x205F || n == 0x3000
  }

  predicate Blank(s: string) {
    forall i :: 0 <= i < |s| ==> IsSpace(s[i])
  }

  function StripLeft(s: string): string {
    if |s| > 0 && IsSpace(s[0]) then StripLeft(s[1..]) else s
  }

  function StripRight(s: string): (r: string)
    ensures |r| > 0 ==> !IsSpace(r[|r| - 1])
  {
    if |s| > 0 && IsSpace(s[|s| - 1]) then StripRight(s[..|s| - 1]) else s
  }

  function Strip(s: string): (r: string)
    ensures r == "" || Shows(r)
  {
    StripRight(StripLeft(s))
  }

  /** Stripping takes white space off both ends, and no more: what is left has none there. */
  lemma StripExactly(s: string) returns (left: string, right: string)
    ensures s == left + Strip(s) + right && Blank(left) && Blank(right)
    ensures Strip(s) != "" ==> !IsSpace(Strip(s)[0]) && !IsSpace(Strip(s)[|Strip(s)| - 1])
  {
    left := StripLeftExactly(s);
    right := StripRightExactly(StripLeft(s));
    assert s == left + (Strip(s) + right) == left + Strip(s) + right;
    if Strip(s) != "" {
      assert StripLeft(s)[0] == Strip(s)[0];
    }
  }

  lemma {:induction false} StripLeftExactly(s: string) returns (left: string)
    ensures s == left + StripLeft(s) && Blank(left)
    ensures StripLeft(s) != "" ==> !IsSpace(StripLeft(s)[0])
  {
    left := "";
    if |s| > 0 && IsSpace(s[0]) {
      var rest := StripLeftExactly(s[1..]);
      left := [s[0]] + rest;
      assert s == [s[0]] + (rest + StripLeft(s[1..])) == left + StripLeft(s);
    }
  }

  lemma {:induction false} StripRightExactly(s: string) returns (right: string)
    ensures s == StripRight(s) + right && Blank(right)
  {
    right := "";
    if |s| > 0 && IsSpace(s[|s| - 1]) {
      var front := s[..|s| - 1];
      var rest := StripRightExactly(front);
      right := rest + [s[|s| - 1]];
      assert s == front + [s[|s| - 1]] == (StripRight(front) + rest) + [s[|s| - 1]] == StripRight(s) + right;
    }
  }

  /** A string that does not end in white space, and so is not blank. */
  predicate Shows(s: string) {
    |s| > 0 && !IsSpace(s[|s| - 1])
  }

  lemma NotBlank(s: string)
    requires Shows(s)
    ensures !Blank(s)
  {
  }

  lemma StillNotBlank(s: string, t: string)
    requires !Blank(s)
    ensures !Blank(s + t)
  {
    var i :| 0 <= i < |s| && !IsSpace(s[i]);
    assert (s + t)[i] == s[i];
  }

  function Digits(n: nat): (s: string)
    ensures |s| > 0
  {
    var last := ['0' + (n % 10) as char];
    if n < 10 then last else Digits(n / 10) + last
  }

  function Decimal(n: int): string {
    if n < 0 then "-" + Digits(-n) else Digits(n)
  }

  // ----- texts joined by bars -----

  predicate NoBar(s: string) {
    forall i :: 0 <= i < |s| ==> s[i] != '|'
  }

  lemma ShorterDiffers(a: string, b: string, x: string, y: string)
    requires NoBar(b) && |a| < |b|
    ensures a + ("|" + x) != b + ("|" + y)
  {
    var left, right := a + ("|" + x), b + ("|" + y);
    assert left[|a|] == '|';
    assert right[|a|] == b[|a|];
  }

  /** A text without a bar is told apart from what follows the bar behind it. */
  lemma SplitAtBar(a: string, b: string, x: string, y: string)
    requires NoBar(a) && NoBar(b)
    ensures a + ("|" + x) == b + ("|" + y) <==> a == b && x == y
  {
    var left, right := a + ("|" + x), b + ("|" + y);
    if |a| < |b| {
      ShorterDiffers(a, b, x, y);
    } else if |b| < |a| {
      ShorterDiffers(b, a, y, x);
    } else {
      assert left[..|a|] == a && right[..|b|] == b;
      assert left[|a| + 1..] == x && right[|b| + 1..] == y;
    }
  }

  /** The number that a row of digits stands for. */
  function Read(s: string): int {
    if s == [] then 0 else 10 * Read(s[..|s| - 1]) + (s[|s| - 1] as int - '0' as int)
  }

  /** A number is written in digits that read as the number. */
  lemma {:induction false} DigitsRead(n: nat)
    ensures Read(Digits(n)) == n
    ensures forall i :: 0 <= i < |Digits(n)| ==> '0' <= Digits(n)[i] <= '9'
  {
    var last := ['0' + (n % 10) as char];
    if n < 10 {
      assert last[..0] == [];
    } else {
      DigitsRead(n / 10);
      assert (Digits(n / 10) + last)[..|Digits(n / 10)|] == Digits(n / 10);
    }
  }

  lemma DecimalHasNoBar(n: int)
    ensures NoBar(Decimal(n))
  {
    DigitsRead(if n < 0 then -n else n);
  }

  /** Different numbers are written differently: a number reads as itself, behind a sign if it is negative. */
  lemma DecimalDiffers(m: int, n: int)
    ensures n >= 0 ==> Read(Decimal(n)) == n
    ensures n < 0 ==> Decimal(n)[0] == '-' && Read(Decimal(n)[1..]) == -n
    ensures Decimal(m) == Decimal(n) <==> m == n
  {
    DigitsRead(if m < 0 then -m else m);
    DigitsRead(if n < 0 then -n else n);
    assert m < 0 ==> Decimal(m)[0] == '-' && Decimal(m)[1..] == Digits(-m);
    assert n < 0 ==> Decimal(n)[0] == '-' && Decimal(n)[1..] == Digits(-n);
    assert m >= 0 ==> Decimal(m)[0] == Digits(m)[0];
    assert n >= 0 ==> Decimal(n)[0] == Digits(n)[0];
  }
}
