/**
 * Money as text: the server's formatter of minor-unit amounts with thousands
 * separators, and the browser's parser of typed amounts. The parser's numbers
 * are doubles, so every arithmetic result goes through a rounding function.
 */
module Money {
  import opened Outcomes

  const TWO_63: int := 0x8000_0000_0000_0000
  const MAX_SAFE: int := 0x1F_FFFF_FFFF_FFFF

  newtype int64 = x: int | -TWO_63 <= x < TWO_63

  // ---------------------------------------------------------------- decimal digits

  predicate IsDigit(c: char) { '0' <= c <= '9' }

  predicate AllDigits(s: string) { forall i :: 0 <= i < |s| ==> IsDigit(s[i]) }

  function Digits(n: nat): (s: string)
    ensures |s| > 0
  {
    if n < 10 then [('0' as int + n) as char] else Digits(n / 10) + [('0' as int + n % 10) as char]
  }

  lemma {:induction false} DigitsAreDigits(n: nat)
    ensures AllDigits(Digits(n))
  {
    if n >= 10 {
      DigitsAreDigits(n / 10);
    }
  }

  function Value(s: string): int {
    if |s| == 0 then 0 else 10 * Value(s[..|s| - 1]) + (s[|s| - 1] as int - '0' as int)
  }

  lemma {:induction false} ValueOfDigits(n: nat)
    ensures Value(Digits(n)) == n
  {
    if n >= 10 {
      ValueOfDigits(n / 10);
      assert Digits(n)[..|Digits(n)| - 1] == Digits(n / 10);
    }
  }

  lemma {:induction false} ValueIsNatural(s: string)
    requires AllDigits(s)
    ensures Value(s) >= 0
  {
    if |s| > 0 {
      ValueIsNatural(s[..|s| - 1]);
    }
  }

  /** n × 10^k. */
  function Scale(n: int, k: nat): int {
    if k == 0 then n else 10 * Scale(n, k - 1)
  }

  // ---------------------------------------------------------------- the formatter

  /** strconv.FormatInt in base 10. */
  function FormatInt(n: int): string { if n < 0 then "-" + Digits(-n) else Digits(n) }

  /** A comma before every third character from the right. */
  function Separated(s: string): string {
    if |s| <= 3 then s else Separated(s[..|s| - 3]) + "," + s[|s| - 3..]
  }

  function TwoDigits(remainder: int): string {
    if remainder < 10 then "0" + FormatInt(remainder) else FormatInt(remainder)
  }

  /** What the loop has written when i digits are done. */
  function Written(digits: string, i: nat): string
    requires i <= |digits|
  {
    Separated(digits[..i]) + if 0 < i < |digits| then "," else ""
  }

  lemma WrittenNext(digits: string, i: nat)
    requires i + 3 <= |digits|
    ensures Written(digits, i + 3) == Written(digits, i) + digits[i..i + 3] + if i + 3 < |digits| then "," else ""
  {
    assert digits[..i + 3][..i] == digits[..i];
    assert digits[..i + 3][i..] == digits[i..i + 3];
  }

  method WithThousandsSeparators(n: int) returns (text: string)
    ensures text == Separated(FormatInt(n))
  {
    var digits := FormatInt(n);
    text := GroupByThree(digits);
  }

  method GroupByThree(digits: string) returns (text: string)
    ensures text == Separated(digits)
  {
    if |digits| <= 3 {
      return digits;
    }
    text := "";
    var lead := |digits| % 3;
    if lead > 0 {
      text := text + digits[..lead];
      text := text + ",";
    }
    var i := lead;
    ghost var groups := |digits| / 3;
    assert |digits| == i + 3 * groups;
    while i < |digits|
      invariant 0 <= i && |digits| == i + 3 * groups
      invariant i <= |digits| && text == Written(digits, i)
    {
      WrittenNext(digits, i);
      text := text + digits[i..i + 3];
      if i + 3 < |digits| {
        text := text + ",";
      }
      i := i + 3;
      groups := groups - 1;
    }
    assert digits[..i] == digits;
  }

  /** Two's complement negation: the most negative amount is its own. */
  function Negated(cents: int64): int64 {
    if cents as int == -TWO_63 then cents else (-(cents as int)) as int64
  }

  /** Division and remainder that truncate towards zero. */
  function Quotient(a: int, b: int): int
    requires b > 0
  {
    if a < 0 then -(-a / b) else a / b
  }

  function Remainder(a: int, b: int): int
    requires b > 0
  {
    a - b * Quotient(a, b)
  }

  /** Symbol and grouped dollars, then the cents if there are any. */
  function Unsigned(magnitude: int, symbol: string): string {
    var whole := symbol + Separated(FormatInt(Quotient(magnitude, 100)));
    var remainder := Remainder(magnitude, 100);
    if remainder != 0 then whole + ("." + TwoDigits(remainder)) else whole
  }

  function Formatted(cents: int64, symbol: string): string {
    if cents < 0 then "-" + Unsigned(Negated(cents) as int, symbol) else Unsigned(cents as int, symbol)
  }

  method FormatMoney(cents: int64, symbol: string) returns (text: string)
    ensures text == Formatted(cents, symbol)
  {
    var negative := cents < 0;
    var magnitude := cents;
    if negative {
      magnitude := Negated(cents);
    }
    var dollars := Quotient(magnitude as int, 100);
    var remainder := Remainder(magnitude as int, 100);
    var grouped := WithThousandsSeparators(dollars);
    text := symbol + grouped;
    if remainder != 0 {
      text := text + ("." + TwoDigits(remainder));
    }
    if negative {
      text := "-" + text;
    }
  }

  // ---------------------------------------------------------------- commas

  function Kept(c: char): string { if c == ',' then "" else [c] }

  function NoCommas(s: string): string {
    if |s| == 0 then "" else Kept(s[0]) + NoCommas(s[1..])
  }

  lemma {:induction false} NoCommasJoins(a: string, b: string)
    ensures NoCommas(a + b) == NoCommas(a) + NoCommas(b)
  {
    if |a| == 0 {
      assert a + b == b;
    } else {
      NoCommasJoins(a[1..], b);
      assert (a + b)[1..] == a[1..] + b;
      Associates(Kept(a[0]), NoCommas(a[1..]), NoCommas(b));
    }
  }

  lemma Associates(a: string, b: string, c: string)
    ensures a + b + c == a + (b + c)
  {
  }

  lemma {:induction false} NoCommasKeeps(s: string)
    requires ',' !in s
    ensures NoCommas(s) == s
  {
    if |s| > 0 {
      NoCommasKeeps(s[1..]);
      assert s == [s[0]] + s[1..];
    }
  }

  /** Place j from the right holds a comma exactly when it is one of 3, 7, 11, … */
  predicate CommaRule(t: string, j: nat)
    requires j < |t|
  {
    t[|t| - 1 - j] == ',' <==> j % 4 == 3
  }

  /**
   * Counted from the right, exactly the characters at places 3, 7, 11, … are
   * commas, and the text never starts with one.
   */
  lemma {:induction false} CommasEveryThirdDigit(s: string)
    requires ',' !in s && |s| > 0
    ensures |Separated(s)| == |s| + (|s| - 1) / 3 && Separated(s)[0] == s[0]
    ensures forall j :: 0 <= j < |Separated(s)| ==> CommaRule(Separated(s), j)
  {
    if |s| > 3 {
      CommasEveryThirdDigit(s[..|s| - 3]);
      CommasShift(Separated(s[..|s| - 3]), s[|s| - 3..]);
    }
  }

  lemma CommasShift(front: string, back: string)
    requires |back| == 3 && ',' !in back
    requires forall j :: 0 <= j < |front| ==> CommaRule(front, j)
    ensures forall j :: 0 <= j < |front| + 4 ==> CommaRule(front + "," + back, j)
  {
    var t := front + "," + back;
    forall j | 0 <= j < |t| ensures CommaRule(t, j) {
      if j > 3 {
        assert CommaRule(front, j - 4);
        assert t[|t| - 1 - j] == front[|front| - 1 - (j - 4)];
      } else if j < 3 {
        assert t[|t| - 1 - j] == back[2 - j];
      }
    }
  }

  /** Taking the commas out gives the digits back. */
  lemma {:induction false} SeparatedKeepsDigits(s: string)
    requires ',' !in s
    ensures NoCommas(Separated(s)) == s
  {
    if |s| <= 3 {
      NoCommasKeeps(s);
    } else {
      var front, back := s[..|s| - 3], s[|s| - 3..];
      SeparatedKeepsDigits(front);
      SeparatedOnce(Separated(front), front, back);
      assert front + back == s;
    }
  }

  lemma SeparatedOnce(grouped: string, front: string, back: string)
    requires NoCommas(grouped) == front && ',' !in back
    ensures NoCommas(grouped + "," + back) == front + back
  {
    CommaVanishes(grouped, back);
    NoCommasKeeps(back);
  }

  lemma CommaVanishes(front: string, back: string)
    ensures NoCommas(front + "," + back) == NoCommas(front) + NoCommas(back)
  {
    Associates(front, ",", back);
    NoCommasJoins(front, "," + back);
  }

  // ---------------------------------------------------------------- the parser

  predicate IsSpace(c: char) { c == ' ' || '\t' <= c <= '\r' }

  function TrimStart(s: string): string {
    if |s| > 0 && IsSpace(s[0]) then TrimStart(s[1..]) else s
  }

  function TrimEnd(s: string): string {
    if |s| > 0 && IsSpace(s[|s| - 1]) then TrimEnd(s[..|s| - 1]) else s
  }

  function Trim(s: string): string { TrimEnd(TrimStart(s)) }

  /** How many digits the text starts with. */
  function LeadingDigits(s: string): (n: nat)
    ensures n <= |s|
  {
    if |s| == 0 || !IsDigit(s[0]) then 0 else LeadingDigits(s[1..]) + 1
  }

  datatype Amount = Amount(sign: string, whole: string, fraction: string)

  function Sign(s: string): string { if |s| > 0 && (s[0] == '+' || s[0] == '-') then s[..1] else "" }

  /** Digits with an optional fraction, or a bare fraction. */
  function MatchUnsigned(body: string): Option<(string, string)> {
    var n := LeadingDigits(body);
    if n == |body| then if n > 0 then Some((body, "")) else None
    else if body[n] != '.' || !AllDigits(body[n + 1..]) then None
    else if n > 0 then Some((body[..n], body[n + 1..]))
    else if |body| > 1 then Some(("0", body[1..]))
    else None
  }

  /** The regular expression's match. */
  function Match(s: string): Option<Amount> {
    match MatchUnsigned(s[|Sign(s)|..])
    case None => None
    case Some(m) => Some(Amount(Sign(s), m.0, m.1))
  }

  datatype Parsed = Minor(value: int) | TooPrecise

  function PadEnd(s: string, width: nat): string
    decreases width - |s|
  {
    if |s| >= width then s else PadEnd(s + "0", width)
  }

  function Signed(sign: string, n: int): int { if sign == "-" then -n else n }

  function ParseAmount(m: Amount, digits: nat, round: int -> int): Parsed {
    if |m.fraction| > digits then TooPrecise
    else
      var whole := round(Scale(round(Value(m.whole)), digits));
      Minor(Signed(m.sign, round(whole + round(Value(PadEnd(m.fraction, digits))))))
  }

  /** parseInput for a currency of this many minor digits, with doubles rounded by `round`. */
  function ParseInput(text: string, digits: nat, round: int -> int): Parsed {
    match Match(Trim(text))
    case None => Minor(0)
    case Some(m) => ParseAmount(m, digits, round)
  }

  /** No integer up to this magnitude is rounded; for doubles that is MAX_SAFE. */
  ghost predicate ExactUpTo(round: int -> int, bound: int) {
    forall x :: -bound <= x <= bound ==> round(x) == x
  }

  /** The text between the first point and the next. */
  function AfterPoint(s: string): string {
    if |s| == 0 then "" else if s[0] == '.' then BeforePoint(s[1..]) else AfterPoint(s[1..])
  }

  function BeforePoint(s: string): string {
    if |s| == 0 || s[0] == '.' then "" else [s[0]] + BeforePoint(s[1..])
  }

  /** validateInputPrecision, given which texts denote a finite number. */
  predicate PrecisionIsValid(text: string, digits: nat, finite: string -> bool) {
    var trimmed := Trim(text);
    trimmed == "" || !finite(trimmed) || |AfterPoint(trimmed)| <= digits
  }

  /** Blanks, and the five control characters from tab to carriage return. */
  predicate AllSpaces(s: string) { forall i :: 0 <= i < |s| ==> s[i] as int in {32, 9, 10, 11, 12, 13} }

  lemma {:induction false} TrimStartDrops(front: string, s: string)
    requires AllSpaces(front)
    ensures TrimStart(front + s) == TrimStart(s)
  {
    if |front| == 0 {
      assert front + s == s;
    } else {
      assert (front + s)[1..] == front[1..] + s;
      TrimStartDrops(front[1..], s);
    }
  }

  lemma {:induction false} TrimEndDrops(s: string, back: string)
    requires AllSpaces(back)
    ensures TrimEnd(s + back) == TrimEnd(s)
  {
    if |back| == 0 {
      assert s + back == s;
    } else {
      assert (s + back)[..|s + back| - 1] == s + back[..|back| - 1];
      TrimEndDrops(s, back[..|back| - 1]);
    }
  }

  /** White space behind stays behind, unless there is nothing else. */
  lemma {:induction false} TrimStartKeepsEnd(s: string, back: string)
    requires AllSpaces(back)
    ensures TrimEnd(TrimStart(s + back)) == TrimEnd(TrimStart(s))
  {
    if |s| == 0 {
      assert s + back == back;
      TrimStartDrops(back, "");
      assert back + "" == back;
    } else if IsSpace(s[0]) {
      assert (s + back)[1..] == s[1..] + back;
      TrimStartKeepsEnd(s[1..], back);
    } else {
      TrimEndDrops(s, back);
    }
  }

  /** White space around an amount changes neither what is read nor whether the precision check objects. */
  lemma OuterSpaceIsIgnored(front: string, s: string, back: string, digits: nat,
                            round: int -> int, finite: string -> bool)
    requires AllSpaces(front) && AllSpaces(back)
    ensures ParseInput(front + s + back, digits, round) == ParseInput(s, digits, round)
    ensures PrecisionIsValid(front + s + back, digits, finite) == PrecisionIsValid(s, digits, finite)
  {
    assert front + s + back == front + (s + back);
    TrimStartDrops(front, s + back);
    TrimStartKeepsEnd(s, back);
  }

  /** The check objects to a number with more decimals than the currency has, and to nothing else. */
  lemma OnlyPrecisionIsRefused(text: string, digits: nat, finite: string -> bool)
    ensures !PrecisionIsValid(text, digits, finite) <==>
      Trim(text) != "" && finite(Trim(text)) && digits < |AfterPoint(Trim(text))|
  {
  }

  // ---------------------------------------------------------------- the grammar

  predicate IsSign(s: string) { s == "" || s == "+" || s == "-" }

  lemma {:induction false} LeadingDigitsStop(whole: string, rest: string)
    requires AllDigits(whole) && (|rest| > 0 ==> !IsDigit(rest[0]))
    ensures LeadingDigits(whole + rest) == |whole|
  {
    if |whole| == 0 {
      assert whole + rest == rest;
    } else {
      LeadingDigitsStop(whole[1..], rest);
      assert (whole + rest)[1..] == whole[1..] + rest;
    }
  }

  /** Digits; digits, point and digits; point and digits. */
  ghost predicate SpellsUnsigned(body: string, whole: string, fraction: string) {
    && AllDigits(whole) && AllDigits(fraction) && whole != ""
    && (|| (body == whole && fraction == "")
        || body == whole + ("." + fraction)
        || (body == "." + fraction && whole == "0" && fraction != ""))
  }

  /** The texts the parser reads, and as what. */
  ghost predicate Spells(s: string, m: Amount) {
    IsSign(m.sign) && m.sign <= s && SpellsUnsigned(s[|m.sign|..], m.whole, m.fraction)
  }

  lemma {:induction false} LeadingDigitsAreDigits(s: string)
    ensures AllDigits(s[..LeadingDigits(s)])
  {
    if |s| > 0 && IsDigit(s[0]) {
      LeadingDigitsAreDigits(s[1..]);
      var n := LeadingDigits(s[1..]);
      assert s[..n + 1] == [s[0]] + s[1..][..n];
    }
  }

  lemma MatchUnsignedIsSound(body: string)
    requires MatchUnsigned(body).Some?
    ensures SpellsUnsigned(body, MatchUnsigned(body).value.0, MatchUnsigned(body).value.1)
  {
    var n := LeadingDigits(body);
    LeadingDigitsAreDigits(body);
    if n < |body| {
      assert body == body[..n] + ("." + body[n + 1..]);
    } else {
      assert body[..n] == body;
    }
  }

  lemma MatchUnsignedIsComplete(body: string, whole: string, fraction: string)
    requires SpellsUnsigned(body, whole, fraction)
    ensures MatchUnsigned(body) == Some((whole, fraction))
  {
    if body == whole && fraction == "" {
      assert body == whole + "";
      LeadingDigitsStop(whole, "");
    } else if body == whole + ("." + fraction) {
      LeadingDigitsStop(whole, "." + fraction);
      assert body[|whole|] == '.';
      assert body[..|whole|] == whole && body[|whole| + 1..] == fraction;
    } else {
      assert body == "" + ("." + fraction);
      LeadingDigitsStop("", "." + fraction);
      assert body[1..] == fraction;
    }
  }

  /** The matcher accepts exactly the grammar, and reads each text in one way. */
  lemma MatchIsGrammar(s: string, m: Amount)
    ensures Match(s) == Some(m) <==> Spells(s, m)
  {
    if Match(s).Some? {
      MatchUnsignedIsSound(s[|Sign(s)|..]);
    }
    if Spells(s, m) {
      MatchUnsignedIsComplete(s[|m.sign|..], m.whole, m.fraction);
      assert m.sign == Sign(s);
    }
  }

  // ---------------------------------------------------------------- round trip

  /** The text without its currency symbol and commas. */
  function Bare(text: string, symbol: string): string {
    if symbol <= text then NoCommas(text[|symbol|..])
    else if |text| > 0 && symbol <= text[1..] then [text[0]] + NoCommas(text[1 + |symbol|..])
    else text
  }

  predicate IsSymbol(symbol: string) { |symbol| > 0 ==> symbol[0] != '-' }

  function Abs(c: int): nat { if c < 0 then -c else c }

  function FractionDigits(cents: nat): string { if cents != 0 then TwoDigits(cents) else "" }

  function Fraction(cents: nat): string { if cents != 0 then "." + TwoDigits(cents) else "" }

  /** What the formatter writes after the symbol, without commas. */
  function Plain(dollars: nat, cents: nat): string { Digits(dollars) + Fraction(cents) }

  lemma UnsignedParts(magnitude: nat, symbol: string)
    ensures Unsigned(magnitude, symbol) == symbol + (Separated(Digits(magnitude / 100)) + Fraction(magnitude % 100))
  {
    var grouped := Separated(Digits(magnitude / 100));
    assert Quotient(magnitude, 100) == magnitude / 100 && Remainder(magnitude, 100) == magnitude % 100;
    Associates(symbol, grouped, Fraction(magnitude % 100));
    if magnitude % 100 == 0 {
      assert symbol + grouped + "" == symbol + grouped;
    }
  }

  lemma WithoutCommas(dollars: nat, cents: nat)
    requires cents < 100
    ensures NoCommas(Separated(Digits(dollars)) + Fraction(cents)) == Plain(dollars, cents)
  {
    DigitsAreDigits(dollars);
    SeparatedKeepsDigits(Digits(dollars));
    NoCommasJoins(Separated(Digits(dollars)), Fraction(cents));
    TwoDigitsValue(cents);
    NoCommasKeeps(Fraction(cents));
  }

  lemma BareNegative(symbol: string, amount: string)
    requires IsSymbol(symbol)
    ensures Bare("-" + (symbol + amount), symbol) == "-" + NoCommas(amount)
  {
    var text := "-" + (symbol + amount);
    assert text[1..] == symbol + amount;
    assert text[1 + |symbol|..] == amount;
    if |symbol| > 0 {
      assert text[0] != symbol[0];
    } else {
      assert text == "-" + amount;
      assert text[|symbol|..] == text;
    }
  }

  function SignOf(c: int): string { if c < 0 then "-" else "" }

  lemma BareFormatted(cents: int64, symbol: string)
    requires IsSymbol(symbol) && cents as int > -TWO_63
    ensures Bare(Formatted(cents, symbol), symbol)
         == SignOf(cents as int) + Plain(Abs(cents as int) / 100, Abs(cents as int) % 100)
  {
    var magnitude := Abs(cents as int);
    var amount := Separated(Digits(magnitude / 100)) + Fraction(magnitude % 100);
    UnsignedParts(magnitude, symbol);
    WithoutCommas(magnitude / 100, magnitude % 100);
    if cents < 0 {
      BareNegative(symbol, amount);
    }
  }

  lemma {:induction false} PadValue(s: string, width: nat)
    requires |s| <= width
    ensures Value(PadEnd(s, width)) == Scale(Value(s), width - |s|)
    decreases width - |s|
  {
    if |s| < width {
      var t, k := s + "0", width - |s| - 1;
      PadValue(t, width);
      assert t[..|t| - 1] == s && t[|t| - 1] == '0';
      ScaleOnce(Value(s), k);
    }
  }

  lemma {:induction false} ScaleOnce(n: int, k: nat)
    ensures Scale(10 * n, k) == Scale(n, k + 1)
  {
    if k > 0 {
      ScaleOnce(n, k - 1);
    }
  }

  lemma PlainEnds(dollars: nat, cents: nat, sign: string)
    requires IsSign(sign) && cents < 100
    ensures Trim(sign + Plain(dollars, cents)) == sign + Plain(dollars, cents)
  {
    var s := sign + Plain(dollars, cents);
    DigitsAreDigits(dollars);
    TwoDigitsValue(cents);
    assert IsDigit(s[|s| - 1]);
  }

  lemma PlainSpells(dollars: nat, cents: nat)
    requires cents < 100
    ensures SpellsUnsigned(Plain(dollars, cents), Digits(dollars), FractionDigits(cents))
  {
    DigitsAreDigits(dollars);
    TwoDigitsValue(cents);
  }

  lemma PlainMatches(dollars: nat, cents: nat, sign: string)
    requires IsSign(sign) && cents < 100
    ensures Match(Trim(sign + Plain(dollars, cents))) == Some(Amount(sign, Digits(dollars), FractionDigits(cents)))
  {
    var s := sign + Plain(dollars, cents);
    PlainEnds(dollars, cents, sign);
    PlainSpells(dollars, cents);
    assert s[|sign|..] == Plain(dollars, cents);
    MatchIsGrammar(s, Amount(sign, Digits(dollars), FractionDigits(cents)));
  }

  lemma FractionValue(cents: nat)
    requires cents < 100
    ensures |FractionDigits(cents)| <= 2
    ensures Value(PadEnd(FractionDigits(cents), 2)) == cents
  {
    TwoDigitsValue(cents);
    PadValue(FractionDigits(cents), 2);
  }

  lemma TwoDigitsValue(remainder: nat)
    requires remainder < 100
    ensures AllDigits(TwoDigits(remainder)) && |TwoDigits(remainder)| == 2 && Value(TwoDigits(remainder)) == remainder
  {
    DigitsAreDigits(remainder);
    ValueOfDigits(remainder);
    if remainder < 10 {
      var d := Digits(remainder);
      assert ("0" + d)[..1] == "0" && d[..0] == "" && "0"[..0] == "";
    } else {
      assert |Digits(remainder / 10)| == 1;
    }
  }

  lemma ParseExactly(m: Amount, digits: nat, round: int -> int, whole: nat, scaled: nat, cents: nat)
    requires |m.fraction| <= digits
    requires whole == Value(m.whole) && scaled == Scale(whole, digits) && cents == Value(PadEnd(m.fraction, digits))
    requires whole <= scaled && ExactUpTo(round, scaled + cents)
    ensures ParseAmount(m, digits, round) == Minor(Signed(m.sign, scaled + cents))
  {
  }

  lemma ParsePlain(dollars: nat, cents: nat, sign: string, round: int -> int)
    requires cents < 100 && ExactUpTo(round, Scale(dollars, 2) + cents)
    ensures ParseAmount(Amount(sign, Digits(dollars), FractionDigits(cents)), 2, round)
         == Minor(Signed(sign, Scale(dollars, 2) + cents))
  {
    ValueOfDigits(dollars);
    FractionValue(cents);
    ScaleTwo(dollars);
    ParseExactly(Amount(sign, Digits(dollars), FractionDigits(cents)), 2, round, dollars, Scale(dollars, 2), cents);
  }

  lemma ScaleTwo(n: int)
    ensures Scale(n, 2) == 100 * n
  {
    assert Scale(n, 2) == 10 * Scale(n, 1);
  }

  lemma ParseSigned(c: int, round: int -> int)
    requires ExactUpTo(round, Abs(c))
    ensures ParseAmount(Amount(SignOf(c), Digits(Abs(c) / 100), FractionDigits(Abs(c) % 100)), 2, round) == Minor(c)
  {
    var dollars, cents := Abs(c) / 100, Abs(c) % 100;
    ScaleTwo(dollars);
    assert Scale(dollars, 2) + cents == Abs(c);
    ParsePlain(dollars, cents, SignOf(c), round);
  }

  /** Formatting and parsing again gives the amount back, for every amount that the parser's numbers hold exactly. */
  lemma FormatThenParse(cents: int64, symbol: string, round: int -> int)
    requires IsSymbol(symbol) && ExactUpTo(round, Abs(cents as int)) && cents as int > -TWO_63
    ensures ParseInput(Bare(Formatted(cents, symbol), symbol), 2, round) == Minor(cents as int)
  {
    var c := cents as int;
    BareFormatted(cents, symbol);
    PlainMatches(Abs(c) / 100, Abs(c) % 100, SignOf(c));
    ParseSigned(c, round);
  }

  /** With doubles: every amount up to 2^53 - 1 minor units either way. */
  lemma FormatThenParseDoubles(cents: int64, symbol: string, round: int -> int)
    requires IsSymbol(symbol) && ExactUpTo(round, MAX_SAFE) && -MAX_SAFE <= cents as int <= MAX_SAFE
    ensures ParseInput(Bare(Formatted(cents, symbol), symbol), 2, round) == Minor(cents as int)
  {
    FormatThenParse(cents, symbol, round);
  }

  /** A text with two signs in front is no amount. */
  lemma TwoSignsAreNoAmount(amount: string)
    requires |amount| > 0 && amount[0] == '-' && !IsSpace(amount[|amount| - 1])
    ensures Match(Trim("-" + amount)) == None
  {
  }

  lemma GarbledAmount(whole: string)
    requires |whole| > 0 && whole[0] == '-' && ',' !in whole
    ensures var amount := NoCommas(Separated(whole) + ".0-8");
            |amount| > 0 && amount[0] == '-' && amount[|amount| - 1] == '8'
  {
    CommasEveryThirdDigit(whole);
    SeparatedKeepsDigits(whole);
    NoCommasJoins(Separated(whole), ".0-8");
    NoCommasKeeps(".0-8");
  }

  lemma NegativeText(n: int)
    requires n < 0
    ensures |FormatInt(n)| > 0 && FormatInt(n)[0] == '-' && ',' !in FormatInt(n)
  {
    DigitsAreDigits(-n);
  }

  lemma GarbledReads(whole: string, symbol: string, round: int -> int)
    requires IsSymbol(symbol) && |whole| > 0 && whole[0] == '-' && ',' !in whole
    ensures ParseInput(Bare("-" + (symbol + (Separated(whole) + ".0-8")), symbol), 2, round) == Minor(0)
  {
    BareNegative(symbol, Separated(whole) + ".0-8");
    GarbledAmount(whole);
    TwoSignsAreNoAmount(NoCommas(Separated(whole) + ".0-8"));
  }

  lemma GarbledText(dollars: int, symbol: string)
    requires Quotient(-TWO_63, 100) == dollars
    ensures Formatted((-TWO_63) as int64, symbol) == "-" + (symbol + (Separated(FormatInt(dollars)) + ".0-8"))
  {
    assert Remainder(-TWO_63, 100) == -8;
    assert Digits(8) == "8" && FormatInt(-8) == "-8";
    assert TwoDigits(-8) == "0-8" && "." + "0-8" == ".0-8";
    Associates(symbol, Separated(FormatInt(dollars)), ".0-8");
  }

  /** The most negative amount has no magnitude in 64 bits: it is written with a second sign and read as zero. */
  lemma MostNegativeIsGarbled(symbol: string, round: int -> int, dollars: int)
    requires IsSymbol(symbol) && dollars == Quotient(-TWO_63, 100)
    ensures Formatted((-TWO_63) as int64, symbol) == "-" + (symbol + (Separated(FormatInt(dollars)) + ".0-8"))
    ensures FormatInt(dollars)[0] == '-'
    ensures ParseInput(Bare(Formatted((-TWO_63) as int64, symbol), symbol), 2, round) == Minor(0)
  {
    GarbledText(dollars, symbol);
    NegativeText(dollars);
    GarbledReads(FormatInt(dollars), symbol, round);
  }

  /** Rounding aside, the round trip fails for one amount alone. */
  lemma RoundTripIff(cents: int64, symbol: string)
    requires IsSymbol(symbol)
    ensures ParseInput(Bare(Formatted(cents, symbol), symbol), 2, x => x) == Minor(cents as int)
       <==> cents as int != -TWO_63
  {
    if cents as int == -TWO_63 {
      MostNegativeIsGarbled(symbol, x => x, Quotient(-TWO_63, 100));
    } else {
      FormatThenParse(cents, symbol, x => x);
    }
  }

  // ---------------------------------------------------------------- what the parser computes

  /** Whole and fraction digits read together and scaled to minor units. */
  function MinorUnits(m: Amount, digits: nat): int
    requires |m.fraction| <= digits
  {
    Scale(Value(m.whole + m.fraction), digits - |m.fraction|)
  }

  lemma {:induction false} ValueJoins(a: string, b: string)
    ensures Value(a + b) == Scale(Value(a), |b|) + Value(b)
  {
    if |b| == 0 {
      assert a + b == a;
    } else {
      var t, n := a + b, |b| - 1;
      assert t[..|t| - 1] == a + b[..n] && t[|t| - 1] == b[n];
      ValueJoins(a, b[..n]);
    }
  }

  lemma {:induction false} ScaleSum(x: nat, y: nat, a: nat, b: nat)
    ensures Scale(Scale(x, a) + y, b) == Scale(x, a + b) + Scale(y, b)
    ensures 0 <= x <= Scale(x, a + b) && 0 <= Scale(y, b)
  {
    if b > 0 {
      ScaleSum(x, y, a, b - 1);
    } else if a > 0 {
      ScaleSum(x, y, a - 1, 0);
    }
  }

  /** Padding the fraction with zeros reads the same number as scaling whole and fraction together. */
  lemma ParseIsExact(text: string, digits: nat, round: int -> int, m: Amount)
    requires Match(Trim(text)) == Some(m) && |m.fraction| <= digits
    requires ExactUpTo(round, MinorUnits(m, digits))
    ensures ParseInput(text, digits, round) == Minor(Signed(m.sign, MinorUnits(m, digits)))
  {
    MatchIsGrammar(Trim(text), m);
    MatchedIsExact(m, digits, round);
  }

  lemma MatchedIsExact(m: Amount, digits: nat, round: int -> int)
    requires AllDigits(m.whole) && AllDigits(m.fraction) && |m.fraction| <= digits
    requires ExactUpTo(round, MinorUnits(m, digits))
    ensures ParseAmount(m, digits, round) == Minor(Signed(m.sign, MinorUnits(m, digits)))
  {
    var k := digits - |m.fraction|;
    ValueIsNatural(m.whole);
    ValueIsNatural(m.fraction);
    ValueJoins(m.whole, m.fraction);
    PadValue(m.fraction, digits);
    ScaleSum(Value(m.whole), Value(m.fraction), |m.fraction|, k);
    ParseExactly(m, digits, round, Value(m.whole), Scale(Value(m.whole), digits), Scale(Value(m.fraction), k));
  }

  lemma {:induction false} PointSplits(whole: string, fraction: string)
    requires AllDigits(fraction) && '.' !in whole
    ensures AfterPoint(whole) == "" && AfterPoint(whole + ("." + fraction)) == fraction
  {
    if |whole| == 0 {
      assert whole + ("." + fraction) == "." + fraction;
      assert ("." + fraction)[1..] == fraction;
      BeforePointKeeps(fraction);
    } else {
      PointSplits(whole[1..], fraction);
      assert (whole + ("." + fraction))[1..] == whole[1..] + ("." + fraction);
    }
  }

  lemma {:induction false} BeforePointKeeps(fraction: string)
    requires AllDigits(fraction)
    ensures BeforePoint(fraction) == fraction
  {
    if |fraction| > 0 {
      BeforePointKeeps(fraction[1..]);
    }
  }

  lemma FractionIsAfterPoint(s: string, m: Amount)
    requires Spells(s, m)
    ensures AfterPoint(s) == m.fraction
  {
    var body := s[|m.sign|..];
    assert s == m.sign + body;
    if body == m.whole && m.fraction == "" {
      PointSplits(s, "");
    } else if body == m.whole + ("." + m.fraction) {
      PointSplits(m.sign + m.whole, m.fraction);
      Associates(m.sign, m.whole, "." + m.fraction);
    } else {
      PointSplits(m.sign, m.fraction);
    }
  }

  /** The parser throws exactly when the validator objects, for every amount it reads that is finite. */
  lemma ThrowsIffInvalid(text: string, digits: nat, round: int -> int, finite: string -> bool)
    requires Match(Trim(text)).Some? && finite(Trim(text))
    ensures ParseInput(text, digits, round) == TooPrecise <==> !PrecisionIsValid(text, digits, finite)
  {
    var m := Match(Trim(text)).value;
    MatchIsGrammar(Trim(text), m);
    FractionIsAfterPoint(Trim(text), m);
  }
}
