/** The string operations the tunnel relies on: decimal printing and parsing, and searching for a character. */
module Text {

  // ---------- decimal numbers ----------

  predicate IsDigit(c: char) { '0' <= c <= '9' }

  predicate AllDigits(s: string) { forall i :: 0 <= i < |s| ==> IsDigit(s[i]) }

  function Digit(d: nat): (c: char)
    requires d < 10
    ensures IsDigit(c) && DigitValue(c) == d
  {
    (48 + d) as char
  }

  function DigitValue(c: char): int { c as int - 48 }

  /** Decimal digits of a natural number, as printed by std::to_string. */
  function Natural(n: nat): (s: string)
    ensures |s| > 0 && AllDigits(s) && Value(s) == n
    ensures |s| > 1 ==> s[0] != '0'
  {
    if n < 10 then [Digit(n)] else Natural(n / 10) + [Digit(n % 10)]
  }

  /** The notation is decimal: appending a digit multiplies by ten and adds it. */
  lemma DecimalNotation(n: nat, d: nat)
    requires 0 < n && d < 10
    ensures Natural(10 * n + d) == Natural(n) + Natural(d)
    ensures |Natural(d)| == 1 && Natural(d)[0] == "0123456789"[d]
  {
    Decimals(10 * n + d, n, d);
  }

  lemma Decimals(m: nat, n: nat, d: nat)
    requires m == 10 * n + d && d < 10
    ensures m / 10 == n && m % 10 == d
  {
  }

  /** std::to_string of a signed number. */
  function Decimal(n: int): string {
    if n < 0 then "-" + Natural(-n) else Natural(n)
  }

  /** The number a string of digits denotes. */
  function Value(s: string): (n: int)
    requires AllDigits(s)
    ensures n >= 0
  {
    if s == [] then 0 else 10 * Value(s[..|s| - 1]) + DigitValue(s[|s| - 1])
  }

  lemma DecimalInjective(m: int, n: int)
    requires Decimal(m) == Decimal(n)
    ensures m == n
  {
    assert m < 0 <==> Decimal(m)[0] == '-';
    assert n < 0 <==> Decimal(n)[0] == '-';
    if m < 0 {
      assert Decimal(m)[1..] == Natural(-m) && Decimal(n)[1..] == Natural(-n);
    }
  }

  /** A decimal number contains no character that is neither a digit nor the minus sign. */
  lemma DecimalAvoids(n: int, c: char)
    requires !IsDigit(c) && c != '-'
    ensures c !in Decimal(n)
  {
  }

  // ---------- std::stoi ----------

  const INT_MAX := 2147483647
  const INT_MIN := -2147483648

  datatype Stoi = Parsed(number: int) | NotANumber | OutOfRange

  predicate IsSpace(c: char) { c == ' ' || '\t' <= c <= '\r' }

  function SkipSpace(s: string): string {
    if s != [] && IsSpace(s[0]) then SkipSpace(s[1..]) else s
  }

  function DigitPrefix(s: string): (p: string)
    ensures AllDigits(p) && p <= s
    ensures |p| < |s| ==> !IsDigit(s[|p|])
  {
    if s != [] && IsDigit(s[0]) then [s[0]] + DigitPrefix(s[1..]) else []
  }

  /** std::stoi: white space, an optional sign, then the longest run of digits; the rest is ignored. */
  function StringToInt(s: string): Stoi {
    var t := SkipSpace(s);
    var negative := t != [] && t[0] == '-';
    var body := if t != [] && (t[0] == '-' || t[0] == '+') then t[1..] else t;
    var digits := DigitPrefix(body);
    if digits == [] then NotANumber
    else
      var n := if negative then -Value(digits) else Value(digits);
      if INT_MIN <= n <= INT_MAX then Parsed(n) else OutOfRange
  }

  lemma {:induction false} DigitPrefixOfDigits(s: string)
    requires AllDigits(s)
    ensures DigitPrefix(s) == s
  {
    if s != [] {
      assert AllDigits(s[1..]);
      DigitPrefixOfDigits(s[1..]);
    }
  }

  /** Printing a number and reading it back with std::stoi gives the number. */
  lemma {:induction false} StoiOfNatural(n: nat)
    requires n <= INT_MAX
    ensures StringToInt(Natural(n)) == Parsed(n)
  {
    var s := Natural(n);
    assert IsDigit(s[0]);
    DigitPrefixOfDigits(s);
  }

  lemma {:induction false} DigitPrefixThenRest(digits: string, rest: string)
    requires AllDigits(digits) && (rest == "" || !IsDigit(rest[0]))
    ensures DigitPrefix(digits + rest) == digits
  {
    if digits == "" {
      assert digits + rest == rest;
    } else {
      assert (digits + rest)[1..] == digits[1..] + rest && AllDigits(digits[1..]);
      DigitPrefixThenRest(digits[1..], rest);
    }
  }

  lemma {:induction false} StoiDigits(t: string, body: string, digits: string)
    requires t != "" && !IsSpace(t[0]) && body == (if t[0] == '-' || t[0] == '+' then t[1..] else t)
    requires digits != "" && DigitPrefix(body) == digits
    ensures var n := if t[0] == '-' then -Value(digits) else Value(digits);
            StringToInt(t) == if INT_MIN <= n <= INT_MAX then Parsed(n) else OutOfRange
  {
    assert SkipSpace(t) == t;
  }

  lemma {:induction false} StoiSigned(sign: string, digits: string, rest: string)
    requires sign in {"", "+", "-"} && digits != "" && AllDigits(digits) && (rest == "" || !IsDigit(rest[0]))
    ensures var n := if sign == "-" then -Value(digits) else Value(digits);
            StringToInt(sign + (digits + rest)) == if INT_MIN <= n <= INT_MAX then Parsed(n) else OutOfRange
  {
    var body := digits + rest;
    var t := sign + body;
    DigitPrefixThenRest(digits, rest);
    assert IsDigit(body[0]);
    if sign == "" {
      assert t == body;
    } else {
      assert t[0] == sign[0] && t[1..] == body;
    }
    StoiDigits(t, body, digits);
  }

  lemma {:induction false} StoiIgnoresSpaces(spaces: string, s: string)
    requires forall i :: 0 <= i < |spaces| ==> IsSpace(spaces[i])
    ensures StringToInt(spaces + s) == StringToInt(s)
  {
    if spaces == "" {
      assert spaces + s == s;
    } else {
      assert (spaces + s)[1..] == spaces[1..] + s;
      StoiIgnoresSpaces(spaces[1..], s);
    }
  }

  /** std::stoi skips white space before the number, takes an optional sign and ignores what follows the digits; the
      number has to fit 32 bits. */
  lemma StoiReads(spaces: string, sign: string, n: nat, rest: string)
    requires (forall i :: 0 <= i < |spaces| ==> spaces[i] == ' ') && sign in {"", "+", "-"}
    requires rest == "" || !IsDigit(rest[0])
    ensures StringToInt(spaces + (sign + (Natural(n) + rest)))
            == if sign == "-" then if n <= 2147483648 then Parsed(-(n as int)) else OutOfRange
               else if n <= 2147483647 then Parsed(n) else OutOfRange
  {
    StoiIgnoresSpaces(spaces, sign + (Natural(n) + rest));
    StoiSigned(sign, Natural(n), rest);
  }

  /** Where no digit follows the sign there is no number. */
  lemma StoiFindsNone(sign: string, rest: string)
    requires sign in {"+", "-"} && (rest == "" || !IsDigit(rest[0]))
    ensures StringToInt(sign + rest) == NotANumber
    ensures (rest == "" || !(IsSpace(rest[0]) || rest[0] in "+-")) ==> StringToInt(rest) == NotANumber
  {
    assert (sign + rest)[0] == sign[0] && (sign + rest)[1..] == rest;
  }

  // ---------- searching ----------

  /** std::string::rfind of one character; -1 stands for npos. */
  function RFind(s: string, c: char): (r: int)
    ensures -1 <= r < |s|
    ensures r >= 0 ==> s[r] == c
    ensures forall i :: r < i < |s| ==> s[i] != c
  {
    if s == [] then -1
    else if s[|s| - 1] == c then |s| - 1
    else RFind(s[..|s| - 1], c)
  }

  /** std::string::find of one character from a position on; -1 stands for npos. */
  function Find(s: string, c: char, from: nat): (r: int)
    ensures r == -1 || from <= r < |s|
    ensures r >= 0 ==> s[r] == c && forall i :: from <= i < r ==> s[i] != c
    ensures r == -1 ==> forall i :: from <= i < |s| ==> s[i] != c
    decreases |s| - from
  {
    if from >= |s| then -1
    else if s[from] == c then from
    else Find(s, c, from + 1)
  }

  /** The pieces of a string between the occurrences of a separator. */
  function Split(s: string, c: char): (r: seq<string>)
    ensures |r| >= 1
  {
    if s == [] then [""]
    else
      var rest := Split(s[1..], c);
      if s[0] == c then [""] + rest else [[s[0]] + rest[0]] + rest[1..]
  }

  lemma {:induction false} SplitWhole(s: string, c: char)
    requires c !in s
    ensures Split(s, c) == [s]
  {
    if s != [] {
      assert c !in s[1..] && s[0] in s;
      SplitWhole(s[1..], c);
      assert [s[0]] + s[1..] == s;
    }
  }

  lemma {:induction false} SplitFirst(a: string, c: char, b: string)
    requires c !in a
    ensures Split(a + [c] + b, c) == [a] + Split(b, c)
  {
    var s := a + [c] + b;
    if a == [] {
      assert s[1..] == b;
    } else {
      assert s[1..] == a[1..] + [c] + b;
      assert c !in a[1..];
      SplitFirst(a[1..], c, b);
      assert [a[0]] + a[1..] == a;
    }
  }
}
