/** Amounts as text (internal/money/format.go) and back
    (internal/agent/eval/grade.go, toMinor, with exact arithmetic). */
module Money {
  import opened Common

  // ------------------------------------------------------------ digit strings

  predicate IsDigit(c: char) { '0' <= c <= '9' }

  predicate AllDigits(s: string) { forall i | 0 <= i < |s| :: IsDigit(s[i]) }

  function Worth(c: char): nat
    requires IsDigit(c)
  {
    (c - '0') as nat
  }

  function Decimal(n: nat): string {
    if n < 10 then ['0' + n as char] else Decimal(n / 10) + ['0' + (n % 10) as char]
  }

  /** The number the first n characters stand for. */
  function NumberTo(s: string, n: nat): nat
    requires n <= |s| && AllDigits(s)
  {
    if n == 0 then 0 else NumberTo(s, n - 1) * 10 + Worth(s[n - 1])
  }

  function Number(s: string): nat
    requires AllDigits(s)
  {
    NumberTo(s, |s|)
  }

  lemma {:induction false} SameNumber(s: string, t: string, n: nat)
    requires AllDigits(s) && AllDigits(t) && n <= |s| && n <= |t|
    requires forall i | 0 <= i < n :: s[i] == t[i]
    ensures NumberTo(s, n) == NumberTo(t, n)
  {
    if n > 0 {
      SameNumber(s, t, n - 1);
    }
  }

  function Pow10(k: nat): (p: nat)
    ensures p > 0
  {
    if k == 0 then 1 else 10 * Pow10(k - 1)
  }

  lemma {:induction false} NumberOfDecimal(n: nat)
    ensures Decimal(n) != "" && AllDigits(Decimal(n)) && Number(Decimal(n)) == n
  {
    if n >= 10 {
      NumberOfDecimal(n / 10);
      NumberSnoc(Decimal(n / 10), '0' + (n % 10) as char);
    } else {
      NumberSnoc("", '0' + n as char);
      assert Decimal(n) == "" + ['0' + n as char];
    }
  }

  lemma NumberSnoc(s: string, c: char)
    requires AllDigits(s) && IsDigit(c)
    ensures AllDigits(s + [c]) && Number(s + [c]) == Number(s) * 10 + Worth(c)
  {
    SameNumber(s + [c], s, |s|);
  }

  /** "%0*d": padded with zeros on the left. */
  function Padded(n: nat, width: nat): string { Zeros(width - |Decimal(n)|) + Decimal(n) }

  function Zeros(k: int): string { if k <= 0 then "" else "0" + Zeros(k - 1) }

  function Cents(n: nat): string
    requires n < 100
  {
    ['0' + (n / 10) as char, '0' + (n % 10) as char]
  }

  lemma TwoPlaces(n: nat)
    requires n < 100
    ensures Padded(n, 2) == Cents(n)
  {
    if n < 10 {
      assert Decimal(n) == ['0' + n as char];
      assert Zeros(1) == "0" + Zeros(0) == "0";
    } else {
      assert Decimal(n / 10) == ['0' + (n / 10) as char];
      assert Decimal(n) == Cents(n);
    }
  }

  lemma NumberThenCents(s: string, n: nat)
    requires AllDigits(s) && n < 100
    ensures AllDigits(s + Cents(n)) && Number(s + Cents(n)) == Number(s) * 100 + n
  {
    NumberSnoc(s, Cents(n)[0]);
    NumberSnoc(s + [Cents(n)[0]], Cents(n)[1]);
    assert s + Cents(n) == s + [Cents(n)[0]] + [Cents(n)[1]];
  }

  // -------------------------------------------------------------------- grouping

  /** The first n digits with thousands separators counted from the right,
      three digits at a time. */
  function CommasTo(digits: string, n: nat): string
    requires n <= |digits|
  {
    if n <= 3 then digits[..n] else CommasTo(digits, n - 3) + [',', digits[n - 3], digits[n - 2], digits[n - 1]]
  }

  function Commas(digits: string): string { CommasTo(digits, |digits|) }

  /** What the loop has written after i of n digits, going left to right. */
  function Written(digits: string, i: nat, n: int): string
    requires i <= |digits|
  {
    if i == 0 then ""
    else Written(digits, i - 1, n) + if i > 1 && (n - (i - 1)) % 3 == 0 then [',', digits[i - 1]] else [digits[i - 1]]
  }

  lemma {:induction false} WrittenEarlier(digits: string, i: nat, n: int)
    requires i <= |digits|
    ensures Written(digits, i, n) == Written(digits, i, n - 3)
  {
    if i > 0 {
      WrittenEarlier(digits, i - 1, n);
      assert (n - 3 - (i - 1)) % 3 == (n - (i - 1)) % 3;
    }
  }

  /** Going left to right puts the separators where counting from the right does. */
  lemma {:induction false} WrittenIsCommas(digits: string, n: nat)
    requires n <= |digits|
    ensures Written(digits, n, n) == CommasTo(digits, n)
  {
    if n > 3 {
      WrittenIsCommas(digits, n - 3);
      WrittenEarlier(digits, n - 3, n);
      assert Written(digits, n - 2, n) == CommasTo(digits, n - 3) + [',', digits[n - 3]];
      assert Written(digits, n - 1, n) == CommasTo(digits, n - 3) + [',', digits[n - 3], digits[n - 2]];
    } else if n > 0 {
      WrittenShort(digits, n, n);
    }
  }

  lemma {:induction false} WrittenShort(digits: string, i: nat, n: nat)
    requires i <= n <= |digits| && n <= 3
    ensures Written(digits, i, n) == digits[..i]
  {
    if i > 0 {
      WrittenShort(digits, i - 1, n);
    }
  }

  function Grouped(n: int): string {
    if n < 0 then "-" + Commas(Decimal(-n)) else Commas(Decimal(n))
  }

  method Group(n: int) returns (text: string)
    ensures text == Grouped(n)
  {
    var sign, m := "", n;
    if n < 0 { sign, m := "-", -n; }
    var digits := Decimal(m);
    var b := "";
    for i := 0 to |digits|
      invariant b == Written(digits, i, |digits|)
    {
      if i > 0 && (|digits| - i) % 3 == 0 { b := b + [',']; }
      b := b + [digits[i]];
    }
    WrittenIsCommas(digits, |digits|);
    text := sign + b;
  }

  /** A comma stands exactly after every third digit from the right. */
  lemma {:induction false} CommaPositions(digits: string, n: nat, k: nat)
    requires AllDigits(digits) && n <= |digits| && k < |CommasTo(digits, n)|
    ensures var s := CommasTo(digits, n);
            if k % 4 == 3 then s[|s| - 1 - k] == ',' else IsDigit(s[|s| - 1 - k])
  {
    if n > 3 && k > 3 {
      CommaPositions(digits, n - 3, k - 4);
      assert CommasTo(digits, n) == CommasTo(digits, n - 3) + [',', digits[n - 3], digits[n - 2], digits[n - 1]];
    }
  }

  // ------------------------------------------------------------------ the printer

  function Upper(s: string): string {
    seq(|s|, i requires 0 <= i < |s| => if 'a' <= s[i] <= 'z' then s[i] - 'a' + 'A' else s[i])
  }

  function Digits(currency: string): (d: nat)
    ensures d == 0 || d == 2
  {
    if Upper(currency) in {"JPY", "KRW", "ISK"} then 0 else 2
  }

  /** Go's division and remainder, which truncate toward zero. */
  function Quotient(a: int, b: int): int
    requires b > 0
  {
    if a >= 0 then a / b else -(-a / b)
  }

  function Amount(minor: int, digits: nat): string {
    if digits == 0 then Grouped(minor)
    else
      var whole := Quotient(minor, Pow10(digits));
      var rest := minor - whole * Pow10(digits);
      Grouped(whole) + "." + Padded(if rest < 0 then -rest else rest, digits)
  }

  method FormatMinor(minor: int, currency: string) returns (text: string)
    ensures text == Amount(minor, Digits(currency)) + (" " + Upper(currency))
  {
    var digits := Digits(currency);
    if digits == 0 {
      var grouped := Group(minor);
      return grouped + (" " + Upper(currency));
    }
    var scale := 1;
    for i := 0 to digits
      invariant scale == Pow10(i)
    {
      scale := scale * 10;
    }
    var whole := Quotient(minor, scale);
    var frac := minor - whole * scale;
    if frac < 0 { frac := -frac; }
    var grouped := Group(whole);
    text := grouped + "." + Padded(frac, digits) + (" " + Upper(currency));
  }

  lemma DecimalSnoc(n: nat, d: nat, text: string)
    requires d < 10 && n > 0 && Decimal(n) == text
    ensures Decimal(n * 10 + d) == text + ['0' + d as char]
  {
  }

  lemma FourDigits(a: nat, b: nat, c: nat, d: nat)
    requires 0 < a < 10 && b < 10 && c < 10 && d < 10
    ensures Decimal(a * 10 + b) == ['0' + a as char, '0' + b as char]
    ensures Decimal(a * 1000 + b * 100 + c * 10 + d) ==
            ['0' + a as char, '0' + b as char, '0' + c as char, '0' + d as char]
  {
    DecimalSnoc(a, b, ['0' + a as char]);
    DecimalSnoc(a * 10 + b, c, ['0' + a as char, '0' + b as char]);
    DecimalSnoc(a * 100 + b * 10 + c, d, ['0' + a as char, '0' + b as char, '0' + c as char]);
  }

  lemma GroupsFour(n: nat, text: string)
    requires |text| == 4 && Decimal(n) == text && n > 0
    ensures Grouped(n) == [text[0], ',', text[1], text[2], text[3]]
    ensures Grouped(0 - n) == "-" + [text[0], ',', text[1], text[2], text[3]]
  {
    assert CommasTo(text, 1) == [text[0]];
    assert CommasTo(text, 4) == CommasTo(text, 1) + [',', text[1], text[2], text[3]];
  }

  /** The amount the formatter's own documentation begins with. */
  lemma PrintsDollars()
    ensures Amount(5799, Digits("USD")) + (" " + Upper("USD")) == "57.99 USD"
  {
    Hundreds(0);
    FourDigits(5, 7, 0, 0);
    TwoPlaces(99);
    assert Upper("USD") == "USD";
    assert Grouped(57) == "57";
    assert Amount(5799, 2) == "57" + "." + Cents(99);
  }

  /** A yen has no smaller unit, and neither has a won or a krona, however the
      code is written. */
  lemma PrintsYen()
    ensures Amount(5000, Digits("jpy")) + (" " + Upper("jpy")) == "5,000 JPY"
    ensures Digits("KRW") == 0 && Digits("Isk") == 0
    ensures forall c :: Digits(c) == 0 ==> Upper(c) == "JPY" || Upper(c) == "KRW" || Upper(c) == "ISK"
  {
    FourDigits(5, 0, 0, 0);
    GroupsFour(5000, "5000");
    assert Upper("jpy") == "JPY" && Upper("KRW") == "KRW" && Upper("Isk") == "ISK";
  }

  /** A debt is written with its sign, and its cents with two digits. */
  lemma PrintsDebts(minor: int)
    requires minor == -123405
    ensures Amount(minor, 2) == "-1,234.05"
  {
    Hundreds(0);
    assert Quotient(minor, 100) == -1234;
    FourDigits(1, 2, 3, 4);
    GroupsFour(1234, "1234");
    TwoPlaces(5);
  }

  // ------------------------------------------------------------------- the parser

  /** The first n characters but for those that are c. */
  function WithoutTo(s: string, n: nat, c: char): string
    requires n <= |s|
  {
    if n == 0 then "" else if s[n - 1] == c then WithoutTo(s, n - 1, c) else WithoutTo(s, n - 1, c) + [s[n - 1]]
  }

  function Without(s: string, c: char): string { WithoutTo(s, |s|, c) }

  /** The first place at or after `from` that holds c, or the end. */
  function Find(s: string, c: char, from: nat): (i: nat)
    requires from <= |s|
    ensures from <= i <= |s| && (i < |s| ==> s[i] == c)
    ensures forall k | from <= k < i :: s[k] != c
    decreases |s| - from
  {
    if from == |s| || s[from] == c then from else Find(s, c, from + 1)
  }

  /** Half away from zero, of the non-negative n / d. */
  function Round(n: nat, d: nat): nat
    requires d > 0
  {
    (2 * n + d) / (2 * d)
  }

  /** To the nearest whole number, and up from the middle. */
  lemma RoundIsNearest(n: nat, d: nat)
    requires d > 0
    ensures 2 * n - d < 2 * (Round(n, d) * d) <= 2 * n + d
  {
    var q := (2 * n + d) / (2 * d);
    assert (2 * n + d) == q * (2 * d) + (2 * n + d) % (2 * d);
    assert q * (2 * d) == 2 * (q * d);
  }

  /** Digits, at most one point, digits; scaled and rounded. */
  function Scaled(body: string, scale: nat): Option<int> {
    var dot := Find(body, '.', 0);
    var frac := if dot < |body| then body[dot + 1..] else "";
    var digits := body[..dot] + frac;
    if digits == "" || !AllDigits(digits) then None
    else Some(Round(Number(digits) * Pow10(scale), Pow10(|frac|)))
  }

  function ToMinor(raw: string, scale: nat): Option<int> {
    var cleaned := Without(raw, ',');
    if cleaned != "" && cleaned[0] == '-' then
      match Scaled(cleaned[1..], scale)
      case None => None
      case Some(v) => Some(-v)
    else Scaled(cleaned, scale)
  }

  // -------------------------------------------------------------- the round trip

  lemma {:induction false} WithoutPrefix(s: string, t: string, n: nat, c: char)
    requires n <= |s|
    ensures WithoutTo(s + t, n, c) == WithoutTo(s, n, c)
  {
    if n > 0 {
      WithoutPrefix(s, t, n - 1, c);
    }
  }

  lemma {:induction false} WithoutJoin(s: string, t: string, n: nat, c: char)
    requires n <= |t|
    ensures WithoutTo(s + t, |s| + n, c) == WithoutTo(s, |s|, c) + WithoutTo(t, n, c)
  {
    if n == 0 {
      WithoutPrefix(s, t, |s|, c);
    } else {
      WithoutJoin(s, t, n - 1, c);
      assert (s + t)[|s| + n - 1] == t[n - 1];
    }
  }

  lemma {:induction false} WithoutNothing(s: string, n: nat, c: char)
    requires n <= |s| && forall i | 0 <= i < n :: s[i] != c
    ensures WithoutTo(s, n, c) == s[..n]
  {
    if n > 0 {
      WithoutNothing(s, n - 1, c);
    }
  }

  lemma OneGroup(c: char, x: char, y: char, z: char)
    requires x != c && y != c && z != c
    ensures WithoutTo([c, x, y, z], 4, c) == [x, y, z]
  {
    var s := [c, x, y, z];
    assert WithoutTo(s, 1, c) == "";
    assert WithoutTo(s, 2, c) == [x];
    assert WithoutTo(s, 3, c) == [x, y];
  }

  lemma {:induction false} CommasComeOff(digits: string, n: nat)
    requires AllDigits(digits) && n <= |digits|
    ensures Without(CommasTo(digits, n), ',') == digits[..n]
  {
    if n <= 3 {
      WithoutNothing(digits[..n], n, ',');
    } else {
      CommasComeOff(digits, n - 3);
      OneGroup(',', digits[n - 3], digits[n - 2], digits[n - 1]);
      WithoutJoin(CommasTo(digits, n - 3), [',', digits[n - 3], digits[n - 2], digits[n - 1]], 4, ',');
    }
  }

  lemma GroupedCleaned(n: int)
    ensures var size := Decimal(Size(n));
            Without(Grouped(n), ',') == if n < 0 then "-" + size else size
  {
    var size := Size(n);
    NumberOfDecimal(size);
    CommasComeOff(Decimal(size), |Decimal(size)|);
    MinusStays(Commas(Decimal(size)));
  }

  lemma MinusStays(s: string)
    ensures Without("-" + s, ',') == "-" + Without(s, ',')
  {
    WithoutJoin("-", s, |s|, ',');
    WithoutNothing("-", 1, ',');
  }

  function Signed(negative: bool, size: nat): int { if negative then 0 - size else size }

  lemma ReadsSigned(raw: string, negative: bool, body: string, scale: nat, size: nat)
    requires body != "" && body[0] != '-' && Scaled(body, scale) == Some(size)
    requires Without(raw, ',') == if negative then "-" + body else body
    ensures ToMinor(raw, scale) == Some(Signed(negative, size))
  {
    assert ("-" + body)[1..] == body;
  }

  lemma ReadsDecimal(whole: string, cents: nat)
    requires AllDigits(whole) && whole != "" && cents < 100
    ensures Scaled(whole + ("." + Cents(cents)), 2) == Some(Number(whole) * 100 + cents)
  {
    var body := whole + ("." + Cents(cents));
    FindAt(whole, "." + Cents(cents), '.');
    assert body[..|whole|] == whole;
    assert body[|whole| + 1..] == Cents(cents);
    NumberThenCents(whole, cents);
    Hundreds(Number(whole + Cents(cents)));
  }

  lemma ReadsSignedDecimal(raw: string, negative: bool, whole: string, cents: nat)
    requires AllDigits(whole) && whole != "" && cents < 100
    requires var body := whole + ("." + Cents(cents)); Without(raw, ',') == if negative then "-" + body else body
    ensures ToMinor(raw, 2) == Some(Signed(negative, Number(whole) * 100 + cents))
  {
    ReadsDecimal(whole, cents);
    ReadsSigned(raw, negative, whole + ("." + Cents(cents)), 2, Number(whole) * 100 + cents);
  }

  lemma ReadsWhole(whole: string)
    requires AllDigits(whole) && whole != ""
    ensures Scaled(whole, 0) == Some(Number(whole))
  {
    FindAt(whole, "", '.');
    assert whole + "" == whole;
    assert whole[..|whole|] == whole;
    assert Pow10(0) == 1;
  }

  lemma Hundreds(n: nat)
    ensures Pow10(2) == 100 && Round(n * 100, 100) == n
  {
    assert Pow10(0) == 1 && Pow10(1) == 10;
  }

  lemma FindAt(s: string, t: string, c: char)
    requires (forall i | 0 <= i < |s| :: s[i] != c) && (t == "" || t[0] == c)
    ensures Find(s + t, c, 0) == |s|
  {
    var i := Find(s + t, c, 0);
    assert i >= |s|;
    assert t != "" ==> (s + t)[|s|] == c;
  }

  lemma WholeReadsBack(minor: int)
    ensures ToMinor(Amount(minor, 0), 0) == Some(minor)
  {
    var size := Size(minor);
    NumberOfDecimal(size);
    GroupedCleaned(minor);
    ReadsWhole(Decimal(size));
    ReadsSigned(Amount(minor, 0), minor < 0, Decimal(size), 0, size);
  }

  lemma AmountCleaned(whole: int, cents: nat)
    requires cents < 100
    ensures var body := Decimal(Size(whole)) + ("." + Cents(cents));
            Without(Grouped(whole) + ("." + Cents(cents)), ',') == if whole < 0 then "-" + body else body
  {
    GroupedCleaned(whole);
    WithoutJoin(Grouped(whole), "." + Cents(cents), 3, ',');
    WithoutNothing("." + Cents(cents), 3, ',');
  }

  function Size(n: int): nat { if n < 0 then 0 - n else n }

  lemma AmountIs(minor: int) returns (whole: int, cents: nat)
    ensures cents < 100 && Amount(minor, 2) == Grouped(whole) + ("." + Cents(cents))
    ensures Signed(whole < 0, Size(whole) * 100 + cents) == if -100 < minor < 0 then 0 - minor else minor
  {
    Hundreds(0);
    whole := Quotient(minor, 100);
    cents := Size(minor - whole * 100);
    TwoPlaces(cents);
    assert Grouped(whole) + "." + Cents(cents) == Grouped(whole) + ("." + Cents(cents));
  }

  /** A sign survives only on the whole part. */
  lemma CentsReadBack(minor: int)
    ensures ToMinor(Amount(minor, 2), 2) == Some(if -100 < minor < 0 then 0 - minor else minor)
  {
    var whole, cents := AmountIs(minor);
    ReadsAmount(Amount(minor, 2), whole, cents);
  }

  lemma ReadsAmount(text: string, whole: int, cents: nat)
    requires cents < 100 && text == Grouped(whole) + ("." + Cents(cents))
    ensures ToMinor(text, 2) == Some(Signed(whole < 0, Size(whole) * 100 + cents))
  {
    AmountCleaned(whole, cents);
    NumberOfDecimal(Size(whole));
    ReadsSignedDecimal(text, whole < 0, Decimal(Size(whole)), cents);
  }

  /** Reading a printed amount gives the amount back if and only if it is not a
      negative amount of less than one major unit, which prints without its
      sign. */
  lemma RoundTripIff(minor: int, currency: string)
    ensures var digits := Digits(currency);
            ToMinor(Amount(minor, digits), digits) == Some(minor) <==>
              (digits == 0 || minor >= 0 || -minor >= Pow10(digits))
  {
    Hundreds(0);
    if Digits(currency) == 0 {
      WholeReadsBack(minor);
    } else {
      CentsReadBack(minor);
    }
  }

  lemma GroupedHasNoSpace(n: nat)
    ensures forall i | 0 <= i < |Grouped(n)| :: Grouped(n)[i] != ' '
  {
    NumberOfDecimal(n);
    var s := Grouped(n);
    forall i | 0 <= i < |s|
      ensures s[i] != ' '
    {
      CommaPositions(Decimal(n), |Decimal(n)|, |s| - 1 - i);
    }
  }

  lemma AmountHasNoSpace(minor: int, digits: nat)
    requires minor >= 0 && (digits == 0 || digits == 2)
    ensures forall i | 0 <= i < |Amount(minor, digits)| :: Amount(minor, digits)[i] != ' '
  {
    Hundreds(0);
    if digits == 0 {
      GroupedHasNoSpace(minor);
    } else {
      GroupedHasNoSpace(minor / 100);
      TwoPlaces(minor % 100);
    }
  }

  /** A printed text tells both the amount and the currency. */
  lemma PrintingIsInjective(a: int, c: string, b: int, d: string)
    requires a >= 0 && b >= 0
    requires Amount(a, Digits(c)) + (" " + Upper(c)) == Amount(b, Digits(d)) + (" " + Upper(d))
    ensures a == b && Upper(c) == Upper(d)
  {
    AmountHasNoSpace(a, Digits(c));
    AmountHasNoSpace(b, Digits(d));
    FindAt(Amount(a, Digits(c)), " " + Upper(c), ' ');
    FindAt(Amount(b, Digits(d)), " " + Upper(d), ' ');
    SameSplit(Amount(a, Digits(c)), " " + Upper(c), Amount(b, Digits(d)), " " + Upper(d));
    assert Upper(c) == (" " + Upper(c))[1..];
    assert Upper(d) == (" " + Upper(d))[1..];
    RoundTripIff(a, c);
    RoundTripIff(b, d);
  }

  lemma SameSplit(x: string, u: string, y: string, v: string)
    requires x + u == y + v && |x| == |y|
    ensures x == y && u == v
  {
    assert x == (x + u)[..|x|] && y == (y + v)[..|y|];
    assert u == (x + u)[|x|..] && v == (y + v)[|y|..];
  }
}
