/** The few string operations the code relies on: splitting at a character, and decimal numbers. */
module Text {
  import opened Common

  /** Position of the first `c` in `s`, or the length of `s`. */
  function IndexOf(s: string, c: char): (i: nat)
    ensures i <= |s| && c !in s[..i] && (i < |s| ==> s[i] == c)
  {
    if s == [] || s[0] == c then 0
    else
      var i := IndexOf(s[1..], c);
      assert s[..i + 1] == [s[0]] + s[1..][..i];
      i + 1
  }

  lemma IndexOfPrefix(a: string, c: char, b: string)
    requires c !in a
    ensures IndexOf(a + [c] + b, c) == |a|
  {
    var s := a + [c] + b;
    assert s[..|a|] == a && s[|a|] == c;
    assert forall i :: |a| < i <= |s| ==> s[..i][|a|] == c;
  }

  lemma IndexOfAbsent(a: string, c: char)
    requires c !in a
    ensures IndexOf(a, c) == |a|
  {
  }

  function Split(s: string, c: char): (parts: seq<string>)
    ensures |parts| >= 1
    decreases |s|
  {
    var i := IndexOf(s, c);
    if i == |s| then [s] else [s[..i]] + Split(s[i + 1..], c)
  }

  /** At most `limit` parts; the last one keeps the rest of the string. */
  function SplitLimit(s: string, c: char, limit: nat): (parts: seq<string>)
    requires limit >= 1
    ensures 1 <= |parts| <= limit
  {
    var i := IndexOf(s, c);
    if i == |s| || limit == 1 then [s] else [s[..i]] + SplitLimit(s[i + 1..], c, limit - 1)
  }

  /** Java's `split` without a limit drops trailing empty strings. */
  function DropTrailingEmpty(parts: seq<string>): seq<string> {
    if parts != [] && parts[|parts| - 1] == [] then DropTrailingEmpty(parts[..|parts| - 1]) else parts
  }

  lemma {:induction false} SplitFirst(a: string, c: char, b: string)
    requires c !in a
    ensures Split(a + [c] + b, c) == [a] + Split(b, c)
    ensures forall n: nat :: n >= 2 ==> SplitLimit(a + [c] + b, c, n) == [a] + SplitLimit(b, c, n - 1)
  {
    var s := a + [c] + b;
    IndexOfPrefix(a, c, b);
    assert s[..|a|] == a && s[|a| + 1..] == b;
  }

  predicate IsDigit(c: char) { '0' <= c <= '9' }

  predicate AllDigits(s: string) { forall i :: 0 <= i < |s| ==> IsDigit(s[i]) }

  function Digit(d: nat): (c: char)
    requires d < 10
    ensures IsDigit(c)
  {
    '0' + d as char
  }

  function Decimal(n: nat): (s: string)
    ensures s != [] && AllDigits(s)
  {
    if n < 10 then [Digit(n)] else Decimal(n / 10) + [Digit(n % 10)]
  }

  function DigitsValue(s: string): nat
    requires AllDigits(s)
  {
    if s == [] then 0 else 10 * DigitsValue(s[..|s| - 1]) + (s[|s| - 1] - '0') as nat
  }

  /** `Long.parseLong`: an optional sign and at least one digit; anything else throws. */
  function ParseLong(s: string): Option<int> {
    if s != [] && AllDigits(s) then Some(DigitsValue(s))
    else if |s| > 1 && AllDigits(s[1..]) && s[0] == '-' then (var v: int := DigitsValue(s[1..]); Some(-v))
    else if |s| > 1 && AllDigits(s[1..]) && s[0] == '+' then Some(DigitsValue(s[1..]))
    else None
  }

  lemma {:induction false} DecimalValue(n: nat)
    ensures DigitsValue(Decimal(n)) == n
  {
    if n >= 10 {
      DecimalValue(n / 10);
      assert Decimal(n)[..|Decimal(n)| - 1] == Decimal(n / 10);
    }
  }

  /** A decimal number cut short is smaller, and not zero. */
  lemma {:induction false} CutDecimal(n: nat, j: nat)
    requires 0 < j < |Decimal(n)|
    ensures AllDigits(Decimal(n)[..j]) && 0 < DigitsValue(Decimal(n)[..j]) < n
  {
    var s := Decimal(n);
    assert s == Decimal(n / 10) + [Digit(n % 10)];
    if j == |s| - 1 {
      assert s[..j] == Decimal(n / 10);
      DecimalValue(n / 10);
    } else {
      assert s[..j] == Decimal(n / 10)[..j];
      CutDecimal(n / 10, j);
    }
  }

  lemma ParseDecimal(n: nat)
    ensures ParseLong(Decimal(n)) == Some(n)
  {
    DecimalValue(n);
  }

  /** `BufferedReader.readLine` on text without carriage returns: the first line, if there is any text. */
  function FirstLine(s: string): Option<string> {
    if s == [] then None else Some(s[..IndexOf(s, '\n')])
  }

  lemma FirstLineOf(line: string, rest: string)
    requires '\n' !in line
    ensures FirstLine(line + "\n" + rest) == Some(line)
  {
    IndexOfPrefix(line, '\n', rest);
    assert (line + ['\n'] + rest)[..|line|] == line;
  }

  lemma ThreeParts(x: string, y: string, z: string, c: char)
    ensures x + [c] + y + [c] + z == x + [c] + (y + [c] + z)
  {
  }

  lemma {:induction false} SplitThree(x: string, y: string, z: string, c: char)
    requires c !in x && c !in y && c !in z && z != []
    ensures DropTrailingEmpty(Split(x + [c] + y + [c] + z, c)) == [x, y, z]
  {
    var rest := y + [c] + z;
    ThreeParts(x, y, z, c);
    SplitFirst(x, c, rest);
    SplitFirst(y, c, z);
    IndexOfAbsent(z, c);
    assert [x] + ([y] + [z]) == [x, y, z];
  }

  lemma OnePart(x: string, c: char)
    requires c !in x
    ensures Split(x, c) == [x]
  {
    IndexOfAbsent(x, c);
  }

  lemma {:induction false} TwoParts(x: string, y: string, c: char)
    requires c !in x && c !in y
    ensures Split(x + [c] + y, c) == [x, y]
  {
    SplitFirst(x, c, y);
    OnePart(y, c);
    assert [x] + [y] == [x, y];
  }

  lemma {:induction false} TwoPartsAndNothing(x: string, y: string, c: char)
    requires c !in x && c !in y
    ensures Split(x + [c] + y + [c], c) == [x, y, []]
  {
    var nothing: string := [];
    assert x + [c] + y + [c] == x + [c] + (y + [c]) && y + [c] == y + [c] + nothing;
    SplitFirst(x, c, y + [c]);
    TwoParts(y, nothing, c);
    assert [x] + [y, nothing] == [x, y, nothing];
  }

  /** With the second separator missing, or nothing behind it, there are not three parts. */
  lemma {:induction false} FewerThanThree(x: string, y: string, c: char)
    requires c !in x && c !in y
    ensures |DropTrailingEmpty(Split(x, c))| < 3
    ensures |DropTrailingEmpty(Split(x + [c] + y, c))| < 3
    ensures |DropTrailingEmpty(Split(x + [c] + y + [c], c))| < 3
  {
    OnePart(x, c);
    TwoParts(x, y, c);
    TwoPartsAndNothing(x, y, c);
    DropShortens([x]);
    DropShortens([x, y]);
    assert [x, y, []][..2] == [x, y];
  }

  lemma {:induction false} DropShortens(parts: seq<string>)
    ensures |DropTrailingEmpty(parts)| <= |parts|
  {
    if parts != [] && parts[|parts| - 1] == [] { DropShortens(parts[..|parts| - 1]); }
  }

  lemma SplitInThree(x: string, y: string, z: string, c: char)
    requires c !in x && c !in y
    ensures SplitLimit(x + [c] + y + [c] + z, c, 3) == [x, y, z]
  {
    var rest := y + [c] + z;
    ThreeParts(x, y, z, c);
    SplitFirst(x, c, rest);
    SplitFirst(y, c, z);
    assert SplitLimit(rest, c, 2) == [y] + SplitLimit(z, c, 1);
    assert [x] + ([y] + [z]) == [x, y, z];
  }
}
