/**
 * What `fmt.Sscanf(line, "%d. %s - %f", &n, &name, &score)` accepts, following
 * the scanning rules of Go's `fmt` package:
 *  - a verb first skips blanks (white space other than a newline) and must not
 *    then meet a newline or the end of the input;
 *  - a blank in the format needs at least one blank in the input (or the end
 *    of the input) and swallows the whole run;
 *  - a literal character must be the next input character;
 *  - `%d` reads an optional sign and a run of digits and underscores, which
 *    must then form an int64;
 *  - `%s` reads a run of non-space characters;
 *  - `%f` reads an optional sign, digits, an optional fraction and an optional
 *    exponent after `e`, `E`, `p` or `P`, which together must form a decimal
 *    number in float64 range; a `p` exponent is a power of two.
 * Whatever follows the last verb is ignored.
 */
module Scanf {
  import opened Wrappers
  import opened Text

  /** A value read by one verb, and the input left after it. */
  datatype Scanned<T> = Scanned(value: T, rest: string)

  /** The three values a header line carries. */
  datatype Header = Header(index: int, name: string, score: real)

  const Int64Min: int := -0x8000_0000_0000_0000
  const Int64Max: int := 0x7FFF_FFFF_FFFF_FFFF

  /** White space the scanner may skip: everything `unicode.IsSpace` accepts but a newline. */
  predicate IsBlank(c: char)
  {
    IsSpace(c) && c != '\n'
  }

  /** `s` without its leading blanks. */
  function DropBlanks(s: string): (r: string)
    ensures |r| <= |s|
    ensures r == [] || !IsBlank(r[0])
  {
    if s != [] && IsBlank(s[0]) then DropBlanks(s[1..]) else s
  }

  /** The blank-skipping every verb starts with; a newline there is an error. */
  function SkipVerbSpace(s: string): (r: Option<string>)
    ensures r.Some? ==> r.value == DropBlanks(s)
  {
    var t := DropBlanks(s);
    if t != [] && t[0] == '\n' then None else Some(t)
  }

  /** A blank in the format: one or more blanks in the input, or its end. */
  function FormatSpace(s: string): (r: Option<string>)
    ensures r.Some? ==> r.value == DropBlanks(s)
  {
    if s == [] then Some(s)
    else if !IsBlank(s[0]) then None
    else Some(DropBlanks(s))
  }

  /** A literal character of the format. */
  function Literal(c: char, s: string): (r: Option<string>)
    ensures r.Some? <==> s != [] && s[0] == c
    ensures r.Some? ==> r.value == s[1..]
  {
    if s != [] && s[0] == c then Some(s[1..]) else None
  }

  /** The characters the number scanner collects as digits: `0`..`9` and `_`. */
  predicate IsScanDigit(c: char)
  {
    IsDigit(c) || c == '_'
  }

  /** The longest prefix of scan digits. */
  function DigitRun(s: string): (r: string)
    ensures |r| <= |s|
  {
    if s != [] && IsScanDigit(s[0]) then [s[0]] + DigitRun(s[1..]) else []
  }

  /** The longest prefix of non-space characters: the word `%s` reads. */
  function Word(s: string): (r: string)
    ensures |r| <= |s|
    ensures forall i :: 0 <= i < |r| ==> !IsSpace(r[i])
  {
    if s != [] && !IsSpace(s[0]) then [s[0]] + Word(s[1..]) else []
  }

  /** An optional `+` or `-`: whether the number is negative, and what follows the sign. */
  function Sign(s: string): (r: (bool, string))
    ensures |r.1| <= |s|
  {
    if s != [] && (s[0] == '+' || s[0] == '-') then (s[0] == '-', s[1..]) else (false, s)
  }

  /** `%d` into an `int`. */
  function ScanInt(s: string): (r: Option<Scanned<int>>)
    ensures r.Some? ==> Int64Min <= r.value.value <= Int64Max && |r.value.rest| <= |s|
  {
    match SkipVerbSpace(s)
    case None => None
    case Some(t) =>
      var (negative, u) := Sign(t);
      ScanDigits(negative, u)
  }

  /** The digits after the sign, which must form an int64. */
  function ScanDigits(negative: bool, u: string): (r: Option<Scanned<int>>)
    ensures r.Some? ==> Int64Min <= r.value.value <= Int64Max && |r.value.rest| <= |u|
  {
    var digits := DigitRun(u);
    if digits == [] || !AllDigits(digits) then None
    else
      var n: int := if negative then -(DigitsValue(digits) as int) else DigitsValue(digits);
      if n < Int64Min || Int64Max < n then None
      else Some(Scanned(n, u[|digits|..]))
  }

  /** `%s` into a `string`: a non-empty word. */
  function ScanWord(s: string): (r: Option<Scanned<string>>)
    ensures r.Some? ==> r.value.value != [] && forall i :: 0 <= i < |r.value.value| ==> !IsSpace(r.value.value[i])
    ensures r.Some? ==> |r.value.rest| <= |s|
  {
    match SkipVerbSpace(s)
    case None => None
    case Some(t) =>
      if t == [] then None
      else Some(Scanned(Word(t), t[|Word(t)|..]))
  }

  function Pow10(n: nat): (r: nat)
    ensures r >= 1
  {
    if n == 0 then 1 else 10 * Pow10(n - 1)
  }

  /** The exponent of a float token: none, or its letter (`e`, `E`, `p` or `P`), sign and digits. */
  datatype Exponent = NoExponent | Exponent(mark: char, negative: bool, digits: string)

  /** The pieces of a decimal float token: digits, an optional fraction after a point, an optional exponent. */
  datatype Numeral = Numeral(intPart: string, fracPart: string, exp: Exponent)

  /** The fraction and the exponent that follow the integer digits, as `floatToken` collects them. */
  function FractionAndExponent(intPart: string, s: string): (r: Scanned<Numeral>)
    ensures |r.rest| <= |s|
  {
    var hasPoint := s != [] && s[0] == '.';
    var fracPart := if hasPoint then DigitRun(s[1..]) else [];
    var afterFrac := if hasPoint then s[1 + |fracPart|..] else s;
    if afterFrac != [] && (afterFrac[0] == 'e' || afterFrac[0] == 'E' || afterFrac[0] == 'p' || afterFrac[0] == 'P') then
      var (expNegative, expText) := Sign(afterFrac[1..]);
      var expDigits := DigitRun(expText);
      Scanned(Numeral(intPart, fracPart, Exponent(afterFrac[0], expNegative, expDigits)), expText[|expDigits|..])
    else
      Scanned(Numeral(intPart, fracPart, NoExponent), afterFrac)
  }

  /** The float token at the start of `s` (after the sign), split into its pieces. */
  function NumeralToken(s: string): (r: Scanned<Numeral>)
    ensures |r.rest| <= |s|
  {
    var intPart := DigitRun(s);
    FractionAndExponent(intPart, s[|intPart|..])
  }

  /** The exponent's digits with its sign. */
  function ExponentValue(x: Exponent): int
    requires x.Exponent? && AllDigits(x.digits)
  {
    var e := DigitsValue(x.digits);
    if x.negative then -(e as int) else e
  }

  /** A lower-case `p` exponent: a power of two that `convertFloat` applies itself. */
  predicate IsBinary(x: Exponent)
  {
    x.Exponent? && x.mark == 'p'
  }

  /**
   * What `convertFloat` accepts of a token. The part `strconv.ParseFloat`
   * reads needs a digit and no underscores; an `e` or `E` exponent needs
   * digits; what follows a `p` must be an `int` for `strconv.Atoi`; and an
   * upper-case `P` always fails, since a decimal number cannot carry one.
   */
  predicate WellFormed(n: Numeral)
  {
    |n.intPart| + |n.fracPart| > 0 && AllDigits(n.intPart) && AllDigits(n.fracPart)
    && match n.exp
       case NoExponent => true
       case Exponent(mark, _, digits) =>
         (mark == 'e' || mark == 'E' || mark == 'p') && digits != [] && AllDigits(digits)
         && (mark == 'p' ==> Int64Min <= ExponentValue(n.exp) <= Int64Max)
  }

  /** `x` times ten to the power `e`, for either sign of `e`. */
  function Scale(x: real, e: int): real
    decreases if e < 0 then -e else e
  {
    if e == 0 then x else if e > 0 then Scale(x, e - 1) * 10.0 else Scale(x, e + 1) / 10.0
  }

  /** `x` times two to the power `m`, for either sign of `m`: `math.Ldexp` without rounding. */
  function Ldexp(x: real, m: int): real
    decreases if m < 0 then -m else m
  {
    if m == 0 then x else if m > 0 then Ldexp(x, m - 1) * 2.0 else Ldexp(x, m + 1) / 2.0
  }

  /**
   * The magnitude `strconv.ParseFloat` reads: `intPart.fracPart`, scaled by
   * ten to the decimal exponent when there is one. For a `p` token it reads
   * only the part before the `p`.
   */
  function ParsedValue(n: Numeral): real
    requires WellFormed(n)
  {
    var e := if n.exp.Exponent? && !IsBinary(n.exp) then ExponentValue(n.exp) else 0;
    Scale(DigitsValue(n.intPart + n.fracPart) as real, e - |n.fracPart|)
  }

  /** The magnitude a well-formed token denotes: a `p` exponent multiplies by that power of two. */
  function NumeralValue(n: Numeral): real
    requires WellFormed(n)
  {
    if IsBinary(n.exp) then Ldexp(ParsedValue(n), ExponentValue(n.exp)) else ParsedValue(n)
  }

  /**
   * 2^1024 - 2^970: half a unit in the last place above the largest float64.
   * `strconv.ParseFloat` rounds every magnitude from here on to infinity and
   * reports `ErrRange`, which makes the scan fail.
   */
  const Float64Overflow: real := 179769313486231580793728971405303415079934132710037826936173778980444968292764750946649017977587207096330286416692887910946555547851940402630657488671505820681908902000708383676273854845817711531764475730270069855571366959622842914819860834936475292719074168444365510704342711559699508093042880177904174497792.0

  /**
   * `%f` into a `float64`, for decimal numerals. The token is collected as
   * `floatToken` does and must then be one `convertFloat` accepts. The NaN,
   * Inf and hexadecimal spellings are not read.
   */
  function ScanFloat(s: string): (r: Option<Scanned<real>>)
    ensures r.Some? ==> |r.value.rest| <= |s|
  {
    match SkipVerbSpace(s)
    case None => None
    case Some(t) =>
      if t == [] then None
      else
        var (negative, u) := Sign(t);
        if u != [] && (u[0] == 'n' || u[0] == 'N' || u[0] == 'i' || u[0] == 'I') then None
        else if |u| >= 2 && u[0] == '0' && (u[1] == 'x' || u[1] == 'X') then None
        else ScanDecimal(negative, u)
  }

  /** The decimal token after the sign, and its value; a parse that overflows fails. */
  function ScanDecimal(negative: bool, u: string): (r: Option<Scanned<real>>)
    ensures r.Some? ==> |r.value.rest| <= |u|
  {
    var token := NumeralToken(u);
    if !WellFormed(token.value) || ParsedValue(token.value) >= Float64Overflow then None
    else
      var v := NumeralValue(token.value);
      Some(Scanned(if negative then -v else v, token.rest))
  }

  /** A value one verb stores. */
  datatype Value = IntValue(i: int) | WordValue(w: string) | FloatValue(f: real)

  /** What a verb can store: an int64 for `%d`, a non-empty word without white space for `%s`. */
  predicate Storable(v: Value)
  {
    (v.IntValue? ==> Int64Min <= v.i <= Int64Max)
    && (v.WordValue? ==> v.w != [] && forall i :: 0 <= i < |v.w| ==> !IsSpace(v.w[i]))
  }

  predicate AllStorable(r: Option<seq<Value>>)
  {
    r.Some? ==> forall k :: 0 <= k < |r.value| ==> Storable(r.value[k])
  }

  /** `v` in front of the values `r` the rest of the format reads, if it reads any. */
  function Prepend(v: Value, r: Option<seq<Value>>): (r': Option<seq<Value>>)
    ensures r'.Some? <==> r.Some?
    ensures r'.Some? ==> r'.value == [v] + r.value
  {
    match r
    case None => None
    case Some(values) => Some([v] + values)
  }

  /**
   * `doScanf`: the format is read from left to right. A run of blanks in it is
   * one format blank, `%%` is a literal percent sign, `%d`, `%s` and `%f` are
   * verbs, and any other character is a literal. The result is the values the
   * verbs read, in order, or None at the first mismatch. Input left over when
   * the format is exhausted is ignored.
   */
  function ScanFormat(format: string, input: string): (r: Option<seq<Value>>)
    ensures AllStorable(r)
    decreases |format|, |input|, 0
  {
    if format == [] then Some([])
    else if IsBlank(format[0]) then ScanBlank(format[1..], input)
    else if format[0] == '%' then
      if |format| < 2 then None
      else if format[1] == '%' then ScanLiteral('%', format[2..], input)
      else ScanVerb(format[1], format[2..], input)
    else if format[0] == '\n' then None
    else ScanLiteral(format[0], format[1..], input)
  }

  /** A format blank, then the rest of the format (after the rest of its run of blanks). */
  function ScanBlank(rest: string, input: string): (r: Option<seq<Value>>)
    ensures AllStorable(r)
    decreases |rest|, |input|, 1
  {
    match FormatSpace(input)
    case None => None
    case Some(after) => ScanFormat(DropBlanks(rest), after)
  }

  /** A literal character of the format, then the rest of the format. */
  function ScanLiteral(c: char, rest: string, input: string): (r: Option<seq<Value>>)
    ensures AllStorable(r)
    decreases |rest|, |input|, 1
  {
    match Literal(c, input)
    case None => None
    case Some(after) => ScanFormat(rest, after)
  }

  /** A verb, then the rest of the format; only `%d`, `%s` and `%f` are read. */
  function ScanVerb(verb: char, rest: string, input: string): (r: Option<seq<Value>>)
    ensures AllStorable(r)
    decreases |rest|, |input|, 3
  {
    if verb == 'd' then ScanIntVerb(rest, input)
    else if verb == 's' then ScanWordVerb(rest, input)
    else if verb == 'f' then ScanFloatVerb(rest, input)
    else None
  }

  /** `%d`, then the rest of the format. */
  function ScanIntVerb(rest: string, input: string): (r: Option<seq<Value>>)
    ensures AllStorable(r)
    decreases |rest|, |input|, 1
  {
    match ScanInt(input)
    case None => None
    case Some(n) => Prepend(IntValue(n.value), ScanFormat(rest, n.rest))
  }

  /** `%s`, then the rest of the format. */
  function ScanWordVerb(rest: string, input: string): (r: Option<seq<Value>>)
    ensures AllStorable(r)
    decreases |rest|, |input|, 1
  {
    match ScanWord(input)
    case None => None
    case Some(w) => Prepend(WordValue(w.value), ScanFormat(rest, w.rest))
  }

  /** `%f`, then the rest of the format. */
  function ScanFloatVerb(rest: string, input: string): (r: Option<seq<Value>>)
    ensures AllStorable(r)
    decreases |rest|, |input|, 1
  {
    match ScanFloat(input)
    case None => None
    case Some(f) => Prepend(FloatValue(f.value), ScanFormat(rest, f.rest))
  }

  /** The format the parser reads header lines with. */
  const HeaderFormat := "%d. %s - %f"

  /**
   * `fmt.Sscanf(line, "%d. %s - %f", &n, &name, &score)` without an error: the
   * format reads exactly the three values.
   */
  function ScanHeader(line: string): (r: Option<Header>)
    ensures r.Some? ==> Int64Min <= r.value.index <= Int64Max
    ensures r.Some? ==> r.value.name != [] && forall i :: 0 <= i < |r.value.name| ==> !IsSpace(r.value.name[i])
  {
    var values := ScanFormat(HeaderFormat, line);
    if values.Some? && |values.value| == 3
       && values.value[0].IntValue? && values.value[1].WordValue? && values.value[2].FloatValue?
    then
      assert Storable(values.value[0]) && Storable(values.value[1]);
      Some(Header(values.value[0].i, values.value[1].w, values.value[2].f))
    else None
  }

  // ---------------------------------------------------------------------------
  // Reading back what a renderer writes.

  /** A score written as a decimal numeral `whole.frac`, as in `0.85`. */
  function DecimalText(whole: nat, frac: string): (s: string)
    requires AllDigits(frac)
    ensures s != [] && IsDigit(s[0])
  {
    NatToString(whole) + "." + frac
  }

  /** The number `DecimalText(whole, frac)` denotes: its digits as one integer, over ten to the length of `frac`. */
  function DecimalTextValue(whole: nat, frac: string): real
    requires AllDigits(frac)
  {
    Scale(DigitsValue(NatToString(whole) + frac) as real, -|frac|)
  }

  /** A header line `n. name - whole.frac`. */
  function HeaderLine(n: nat, name: string, whole: nat, frac: string): string
    requires AllDigits(frac)
  {
    NatToString(n) + ". " + name + " - " + DecimalText(whole, frac)
  }

  lemma {:induction false} DigitRunOfDigits(d: string, rest: string)
    requires AllDigits(d)
    requires rest == [] || !IsScanDigit(rest[0])
    ensures DigitRun(d + rest) == d
    decreases |d|
  {
    if d == [] {
      assert d + rest == rest;
    } else {
      assert (d + rest)[1..] == d[1..] + rest;
      DigitRunOfDigits(d[1..], rest);
      assert [d[0]] + d[1..] == d;
    }
  }

  lemma {:induction false} WordOfWord(w: string, rest: string)
    requires forall i :: 0 <= i < |w| ==> !IsSpace(w[i])
    requires rest == [] || IsSpace(rest[0])
    ensures Word(w + rest) == w
    decreases |w|
  {
    if w == [] {
      assert w + rest == rest;
    } else {
      assert (w + rest)[1..] == w[1..] + rest;
      WordOfWord(w[1..], rest);
      assert [w[0]] + w[1..] == w;
    }
  }

  lemma {:induction false} DigitsValueAppend(a: string, b: string)
    requires AllDigits(a) && AllDigits(b)
    ensures AllDigits(a + b)
    ensures DigitsValue(a + b) == DigitsValue(a) * Pow10(|b|) + DigitsValue(b)
    decreases |b|
  {
    if b == [] {
      assert a + b == a;
    } else {
      var b' := b[..|b| - 1];
      DigitsValueAppend(a, b');
      DigitsValueSnoc(a + b', b[|b| - 1]);
      DigitsValueSnoc(b', b[|b| - 1]);
      assert a + b == (a + b') + [b[|b| - 1]];
      assert b == b' + [b[|b| - 1]];
      assert Pow10(|b|) == 10 * Pow10(|b'|);
      ShiftDigit(DigitsValue(a), Pow10(|b'|), DigitsValue(b'), b[|b| - 1] as int - '0' as int);
    }
  }

  lemma ShiftDigit(x: int, p: int, y: int, d: int)
    ensures (x * p + y) * 10 + d == x * (10 * p) + (y * 10 + d)
  {
  }

  /** One more digit at the end multiplies by ten and adds that digit. */
  lemma DigitsValueSnoc(a: string, c: char)
    requires AllDigits(a) && IsDigit(c)
    ensures AllDigits(a + [c])
    ensures DigitsValue(a + [c]) == DigitsValue(a) * 10 + (c as int - '0' as int)
  {
    assert (a + [c])[..|a|] == a;
  }

  /** A verb or a format blank finds nothing to skip before a character that is not blank. */
  lemma NothingToSkip(s: string)
    requires s != [] && !IsSpace(s[0])
    ensures DropBlanks(s) == s && SkipVerbSpace(s) == Some(s)
  {
  }

  /** A single blank before a character that is not blank matches a format blank. */
  lemma OneBlank(s: string)
    requires s != [] && !IsSpace(s[0])
    ensures FormatSpace(" " + s) == Some(s)
  {
    assert (" " + s)[1..] == s;
    NothingToSkip(s);
  }

  /** `%d` reads a decimal numeral back as its value. */
  lemma ScanIntOfNumeral(n: nat, rest: string)
    requires n <= Int64Max
    requires rest == [] || !IsScanDigit(rest[0])
    ensures ScanInt(NatToString(n) + rest) == Some(Scanned(n as int, rest))
  {
    var t := NatToString(n) + rest;
    NothingToSkip(t);
    assert Sign(t) == (false, t);
    ScanDigitsOfNumeral(n, rest);
  }

  lemma ScanDigitsOfNumeral(n: nat, rest: string)
    requires n <= Int64Max
    requires rest == [] || !IsScanDigit(rest[0])
    ensures ScanDigits(false, NatToString(n) + rest) == Some(Scanned(n as int, rest))
  {
    var d := NatToString(n);
    DigitRunOfDigits(d, rest);
    DigitsValueOfNatToString(n);
    assert (d + rest)[|d|..] == rest;
  }

  /** `%s` reads a word up to the blank after it. */
  lemma ScanWordOfWord(w: string, rest: string)
    requires w != [] && forall i :: 0 <= i < |w| ==> !IsSpace(w[i])
    requires rest == [] || IsSpace(rest[0])
    ensures ScanWord(w + rest) == Some(Scanned(w, rest))
  {
    NothingToSkip(w + rest);
    WordOfWord(w, rest);
    assert (w + rest)[|w|..] == rest;
  }

  /** `DecimalText(whole, frac)` is one float token with no exponent. */
  lemma DecimalTextToken(whole: nat, frac: string)
    requires AllDigits(frac)
    ensures NumeralToken(DecimalText(whole, frac)) == Scanned(Numeral(NatToString(whole), frac, NoExponent), [])
  {
    var w := NatToString(whole);
    var s := DecimalText(whole, frac);
    assert s == w + ("." + frac);
    DigitRunOfDigits(w, "." + frac);
    assert s[|w|..] == "." + frac;
    FractionOfDigits(w, frac);
  }

  /** A point and digits, with nothing after them, are a fraction without an exponent. */
  lemma FractionOfDigits(intPart: string, frac: string)
    requires AllDigits(frac)
    ensures FractionAndExponent(intPart, "." + frac) == Scanned(Numeral(intPart, frac, NoExponent), [])
  {
    assert ("." + frac)[1..] == frac + [];
    DigitRunOfDigits(frac, []);
    assert ("." + frac)[1 + |frac|..] == [];
  }

  /** The token of `DecimalText(whole, frac)` is well formed and denotes its value. */
  lemma DecimalNumeralValue(whole: nat, frac: string)
    requires AllDigits(frac)
    ensures WellFormed(Numeral(NatToString(whole), frac, NoExponent))
    ensures NumeralValue(Numeral(NatToString(whole), frac, NoExponent)) == DecimalTextValue(whole, frac)
  {
    DigitsValueAppend(NatToString(whole), frac);
  }

  /** Scaling down by `n` places and multiplying by ten to the `n` gives the number back. */
  lemma {:induction false} ScaleDown(x: real, n: nat)
    ensures Scale(x, -(n as int)) * Pow10(n) as real == x
    decreases n
  {
    if n > 0 {
      ScaleDown(x, n - 1);
      assert Scale(x, -(n as int)) == Scale(x, -(n as int) + 1) / 10.0;
    }
  }

  /** `whole.frac` denotes `whole * 10^|frac| + frac` scaled down by `|frac|` places. */
  lemma DecimalTextMeaning(whole: nat, frac: string)
    requires AllDigits(frac)
    ensures DecimalTextValue(whole, frac) == Scale((whole * Pow10(|frac|) + DigitsValue(frac)) as real, -|frac|)
  {
    DigitsValueAppend(NatToString(whole), frac);
    DigitsValueOfNatToString(whole);
  }

  /**
   * The numeral `DecimalText(whole, frac)` reads back as its value, with
   * nothing left over, exactly when that value does not overflow a float64.
   */
  lemma ScanDecimalText(whole: nat, frac: string)
    requires AllDigits(frac)
    ensures ScanFloat(DecimalText(whole, frac))
      == if DecimalTextValue(whole, frac) < Float64Overflow then Some(Scanned(DecimalTextValue(whole, frac), [])) else None
  {
    var s := DecimalText(whole, frac);
    NothingToSkip(s);
    assert Sign(s) == (false, s);
    DecimalTextToken(whole, frac);
    DecimalNumeralValue(whole, frac);
  }

  /** `whole.frac` followed by an exponent letter and the digits of `m` is one float token. */
  lemma ExponentToken(whole: nat, frac: string, mark: char, m: nat)
    requires AllDigits(frac) && (mark == 'e' || mark == 'E' || mark == 'p' || mark == 'P')
    ensures NumeralToken(DecimalText(whole, frac) + [mark] + NatToString(m))
      == Scanned(Numeral(NatToString(whole), frac, Exponent(mark, false, NatToString(m))), [])
  {
    var w, d := NatToString(whole), NatToString(m);
    var t := "." + frac + [mark] + d;
    var s := DecimalText(whole, frac) + [mark] + d;
    assert DecimalText(whole, frac) == w + "." + frac;
    RegroupToken(w, frac, mark, d);
    assert t[0] == '.';
    DigitRunOfDigits(w, t);
    assert DigitRun(s) == w;
    assert s[|w|..] == t;
    FractionWithExponent(w, frac, mark, d);
    assert NumeralToken(s) == FractionAndExponent(w, t);
  }

  lemma RegroupToken(w: string, frac: string, mark: char, d: string)
    ensures (w + "." + frac) + [mark] + d == w + ("." + frac + [mark] + d)
  {
  }

  /** A point, digits, an exponent letter and unsigned digits are a fraction and an exponent. */
  lemma FractionWithExponent(intPart: string, frac: string, mark: char, d: string)
    requires AllDigits(frac) && AllDigits(d) && d != [] && (mark == 'e' || mark == 'E' || mark == 'p' || mark == 'P')
    ensures FractionAndExponent(intPart, "." + frac + [mark] + d) == Scanned(Numeral(intPart, frac, Exponent(mark, false, d)), [])
  {
    var t := "." + frac + [mark] + d;
    assert t[1..] == frac + ([mark] + d);
    DigitRunOfDigits(frac, [mark] + d);
    var afterFrac := t[1 + |frac|..];
    assert afterFrac == [mark] + d;
    assert afterFrac[1..] == d;
    assert Sign(d) == (false, d);
    DigitRunOfDigits(d, []);
    assert d + [] == d;
    assert d[|d|..] == [];
  }

  /** A numeral `whole.frac` with anything after it is read as a decimal token: no sign, no NaN, Inf or `0x`. */
  lemma DecimalTextStart(whole: nat, frac: string, x: string)
    requires AllDigits(frac)
    ensures ScanFloat(DecimalText(whole, frac) + x) == ScanDecimal(false, DecimalText(whole, frac) + x)
  {
    var t := DecimalText(whole, frac);
    DecimalTextHead(whole, frac);
    var s := t + x;
    assert s[0] == t[0] && s[1] == t[1];
    DigitStart(s);
  }

  /** `whole.frac` starts with a digit, followed by a digit or the point. */
  lemma DecimalTextHead(whole: nat, frac: string)
    requires AllDigits(frac)
    ensures |DecimalText(whole, frac)| >= 2 && IsDigit(DecimalText(whole, frac)[0])
    ensures IsDigit(DecimalText(whole, frac)[1]) || DecimalText(whole, frac)[1] == '.'
  {
    var w := NatToString(whole);
    assert DecimalText(whole, frac) == w + ("." + frac);
  }

  /** Input that starts with a digit not followed by `x` is a decimal token without a sign. */
  lemma DigitStart(s: string)
    requires |s| >= 2 && IsDigit(s[0]) && s[1] != 'x' && s[1] != 'X'
    ensures ScanFloat(s) == ScanDecimal(false, s)
  {
    NothingToSkip(s);
    assert Sign(s) == (false, s);
    assert !(s[0] == 'n' || s[0] == 'N' || s[0] == 'i' || s[0] == 'I');
  }

  /**
   * A lower-case `p` exponent is a power of two: `whole.frac p m` reads as
   * `whole.frac` times two to the `m`, when `m` is an `int` and `whole.frac`
   * does not overflow.
   */
  lemma ScanBinaryExponent(whole: nat, frac: string, m: nat)
    requires AllDigits(frac) && m <= Int64Max
    ensures ScanFloat(DecimalText(whole, frac) + "p" + NatToString(m))
      == if DecimalTextValue(whole, frac) < Float64Overflow then Some(Scanned(Ldexp(DecimalTextValue(whole, frac), m), [])) else None
  {
    DecimalTextStart(whole, frac, "p" + NatToString(m));
    assert DecimalText(whole, frac) + "p" + NatToString(m) == DecimalText(whole, frac) + ("p" + NatToString(m));
    ExponentToken(whole, frac, 'p', m);
    BinaryNumeralValue(whole, frac, m);
  }

  /** The token `whole.frac p m` is well formed; `strconv.ParseFloat` reads `whole.frac`, and the `p` doubles it `m` times. */
  lemma BinaryNumeralValue(whole: nat, frac: string, m: nat)
    requires AllDigits(frac) && m <= Int64Max
    ensures var n := Numeral(NatToString(whole), frac, Exponent('p', false, NatToString(m)));
            WellFormed(n) && ParsedValue(n) == DecimalTextValue(whole, frac)
            && NumeralValue(n) == Ldexp(DecimalTextValue(whole, frac), m)
  {
    DigitsValueOfNatToString(m);
  }

  /** An upper-case `P` exponent, which `floatToken` collects, always fails the scan. */
  lemma ScanUpperBinaryExponent(whole: nat, frac: string, m: nat)
    requires AllDigits(frac)
    ensures ScanFloat(DecimalText(whole, frac) + "P" + NatToString(m)) == None
  {
    DecimalTextStart(whole, frac, "P" + NatToString(m));
    assert DecimalText(whole, frac) + "P" + NatToString(m) == DecimalText(whole, frac) + ("P" + NatToString(m));
    ExponentToken(whole, frac, 'P', m);
  }

  /** The verbs at the head of the format. */
  lemma FormatInt(rest: string, input: string)
    ensures ScanFormat("%d" + rest, input) == ScanIntVerb(rest, input)
  {
    assert ("%d" + rest)[2..] == rest;
  }

  lemma FormatWord(rest: string, input: string)
    ensures ScanFormat("%s" + rest, input) == ScanWordVerb(rest, input)
  {
    assert ("%s" + rest)[2..] == rest;
  }

  lemma FormatFloat(rest: string, input: string)
    ensures ScanFormat("%f" + rest, input) == ScanFloatVerb(rest, input)
  {
    assert ("%f" + rest)[2..] == rest;
  }

  /** A literal character at the head of the format is read by `ScanLiteral`. */
  lemma FormatLiteral(c: char, rest: string, input: string)
    requires c != '%' && c != '\n' && !IsBlank(c)
    ensures ScanFormat([c] + rest, input) == ScanLiteral(c, rest, input)
  {
    assert ([c] + rest)[1..] == rest;
  }

  /** A blank at the head of the format, followed by a non-blank, is one format blank. */
  lemma FormatBlank(rest: string, input: string)
    requires rest != [] && !IsSpace(rest[0])
    ensures ScanFormat([' '] + rest, input) == ScanBlank(rest, input)
    ensures DropBlanks(rest) == rest
  {
    assert ([' '] + rest)[1..] == rest;
    NothingToSkip(rest);
  }

  /** `%f` reads a whole float numeral as its value. */
  lemma ScanFloatVerbOfScore(score: string, v: real)
    requires ScanFloat(score) == Some(Scanned(v, []))
    ensures ScanFormat("%f", score) == Some([FloatValue(v)])
  {
    FormatFloat("", score);
    assert "%f" + "" == "%f";
    assert ScanFormat("", []) == Some([]);
    assert [FloatValue(v)] + [] == [FloatValue(v)];
  }

  /** One blank in the format against one blank in the input, before a character that is not blank. */
  lemma BlankStep(rest: string, s: string)
    requires rest != [] && !IsSpace(rest[0])
    requires s != [] && !IsSpace(s[0])
    ensures ScanFormat([' '] + rest, [' '] + s) == ScanFormat(rest, s)
  {
    FormatBlank(rest, [' '] + s);
    OneBlank(s);
  }

  /** A literal character of the format against the same character in the input. */
  lemma LiteralStep(c: char, rest: string, s: string)
    requires c != '%' && c != '\n' && !IsBlank(c)
    ensures ScanFormat([c] + rest, [c] + s) == ScanFormat(rest, s)
  {
    FormatLiteral(c, rest, [c] + s);
    assert ([c] + s)[1..] == s;
  }

  /** `%d` against a decimal numeral. */
  lemma IntStep(n: nat, rest: string, s: string)
    requires n <= Int64Max
    requires s == [] || !IsScanDigit(s[0])
    ensures ScanFormat("%d" + rest, NatToString(n) + s) == Prepend(IntValue(n), ScanFormat(rest, s))
  {
    FormatInt(rest, NatToString(n) + s);
    ScanIntOfNumeral(n, s);
  }

  /** `%s` against a word that ends at a blank. */
  lemma WordStep(w: string, rest: string, s: string)
    requires w != [] && forall i :: 0 <= i < |w| ==> !IsSpace(w[i])
    requires s == [] || IsSpace(s[0])
    ensures ScanFormat("%s" + rest, w + s) == Prepend(WordValue(w), ScanFormat(rest, s))
  {
    FormatWord(rest, w + s);
    ScanWordOfWord(w, s);
  }

  /** A literal character of the format against any other character ends the match. */
  lemma LiteralMismatch(c: char, rest: string, s: string)
    requires c != '%' && c != '\n' && !IsBlank(c)
    requires s == [] || s[0] != c
    ensures ScanFormat([c] + rest, s) == None
  {
    FormatLiteral(c, rest, s);
  }

  // The header format, one piece at a time from its end: ` %f`, `- %f`,
  // ` - %f`, `%s - %f`, ` %s - %f`, `. %s - %f` and `%d. %s - %f`.

  lemma ScanBlankScore(score: string, v: real)
    requires score != [] && !IsSpace(score[0])
    requires ScanFormat("%f", score) == Some([FloatValue(v)])
    ensures ScanFormat(" %f", " " + score) == Some([FloatValue(v)])
  {
    BlankStep("%f", score);
    assert [' '] + "%f" == " %f";
  }

  lemma ScanDashScore(score: string, v: real)
    requires score != [] && !IsSpace(score[0])
    requires ScanFormat("%f", score) == Some([FloatValue(v)])
    ensures ScanFormat("- %f", "-" + (" " + score)) == Some([FloatValue(v)])
  {
    ScanBlankScore(score, v);
    LiteralStep('-', " %f", " " + score);
    assert ['-'] + " %f" == "- %f";
  }

  /** ` - %f` reads ` - score` as the score's value. */
  lemma ScanScoreTail(score: string, v: real)
    requires score != [] && !IsSpace(score[0])
    requires ScanFormat("%f", score) == Some([FloatValue(v)])
    ensures ScanFormat(" - %f", " - " + score) == Some([FloatValue(v)])
  {
    ScanDashScore(score, v);
    BlankStep("- %f", "-" + (" " + score));
    assert [' '] + "- %f" == " - %f";
    assert [' '] + ("-" + (" " + score)) == " - " + score;
  }

  /** `%s - %f` reads `name - score` as the name and the score's value. */
  lemma ScanWordTail(name: string, score: string, v: real)
    requires score != [] && !IsSpace(score[0])
    requires ScanFormat("%f", score) == Some([FloatValue(v)])
    requires name != [] && forall i :: 0 <= i < |name| ==> !IsSpace(name[i])
    ensures ScanFormat("%s - %f", name + (" - " + score)) == Some([WordValue(name), FloatValue(v)])
  {
    ScanScoreTail(score, v);
    WordStep(name, " - %f", " - " + score);
    assert "%s" + " - %f" == "%s - %f";
    assert [WordValue(name)] + [FloatValue(v)] == [WordValue(name), FloatValue(v)];
  }

  /** ` %s - %f` reads ` name - score` as the name and the score's value. */
  lemma ScanNameTail(name: string, score: string, v: real)
    requires score != [] && !IsSpace(score[0])
    requires ScanFormat("%f", score) == Some([FloatValue(v)])
    requires name != [] && forall i :: 0 <= i < |name| ==> !IsSpace(name[i])
    ensures ScanFormat(" %s - %f", " " + (name + (" - " + score))) == Some([WordValue(name), FloatValue(v)])
  {
    ScanWordTail(name, score, v);
    BlankStep("%s - %f", name + (" - " + score));
    assert [' '] + "%s - %f" == " %s - %f";
  }

  /** `. %s - %f` reads `. name - score` as the name and the score's value. */
  lemma ScanPointTail(name: string, score: string, v: real)
    requires score != [] && !IsSpace(score[0])
    requires ScanFormat("%f", score) == Some([FloatValue(v)])
    requires name != [] && forall i :: 0 <= i < |name| ==> !IsSpace(name[i])
    ensures ScanFormat(". %s - %f", "." + (" " + (name + (" - " + score)))) == Some([WordValue(name), FloatValue(v)])
  {
    ScanNameTail(name, score, v);
    LiteralStep('.', " %s - %f", " " + (name + (" - " + score)));
    assert ['.'] + " %s - %f" == ". %s - %f";
  }

  /** The whole format reads `n. name - score`, written without regard to grouping. */
  lemma ScanIndexTail(n: nat, name: string, score: string, v: real)
    requires n <= Int64Max
    requires score != [] && !IsSpace(score[0])
    requires ScanFormat("%f", score) == Some([FloatValue(v)])
    requires name != [] && forall i :: 0 <= i < |name| ==> !IsSpace(name[i])
    ensures ScanFormat(HeaderFormat, NatToString(n) + ("." + (" " + (name + (" - " + score)))))
      == Some([IntValue(n), WordValue(name), FloatValue(v)])
  {
    ScanPointTail(name, score, v);
    IntStep(n, ". %s - %f", "." + (" " + (name + (" - " + score))));
    assert "%d" + ". %s - %f" == HeaderFormat;
    assert [IntValue(n)] + [WordValue(name), FloatValue(v)] == [IntValue(n), WordValue(name), FloatValue(v)];
  }

  lemma HeaderShape(d: string, name: string, score: string)
    ensures d + ". " + name + " - " + score == d + ("." + (" " + (name + (" - " + score))))
  {
  }

  /** A line `n. name - score` reads back as its index, name and score. */
  lemma ScanHeaderText(n: nat, name: string, score: string, v: real)
    requires n <= Int64Max
    requires score != [] && !IsSpace(score[0])
    requires ScanFormat("%f", score) == Some([FloatValue(v)])
    requires name != [] && forall i :: 0 <= i < |name| ==> !IsSpace(name[i])
    ensures ScanHeader(NatToString(n) + ". " + name + " - " + score) == Some(Header(n, name, v))
  {
    ScanIndexTail(n, name, score, v);
    HeaderShape(NatToString(n), name, score);
  }

  /** A header line reads back as its index, name and score. */
  lemma ScanHeaderLine(n: nat, name: string, whole: nat, frac: string)
    requires n <= Int64Max && AllDigits(frac) && DecimalTextValue(whole, frac) < Float64Overflow
    requires name != [] && forall i :: 0 <= i < |name| ==> !IsSpace(name[i])
    ensures ScanHeader(HeaderLine(n, name, whole, frac)) == Some(Header(n, name, DecimalTextValue(whole, frac)))
  {
    ScanDecimalVerb(whole, frac);
    ScanHeaderText(n, name, DecimalText(whole, frac), DecimalTextValue(whole, frac));
  }

  /** `%f` reads `whole.frac` as its value. */
  lemma ScanDecimalVerb(whole: nat, frac: string)
    requires AllDigits(frac) && DecimalTextValue(whole, frac) < Float64Overflow
    ensures ScanFormat("%f", DecimalText(whole, frac)) == Some([FloatValue(DecimalTextValue(whole, frac))])
  {
    ScanDecimalText(whole, frac);
    ScanFloatVerbOfScore(DecimalText(whole, frac), DecimalTextValue(whole, frac));
  }

  /** After the name, a format blank followed by anything but `-` ends the match. */
  lemma NoDashTail(s: string)
    requires s != [] && s[0] != '-' && !IsSpace(s[0])
    ensures ScanFormat(" - %f", " " + s) == None
  {
    LiteralMismatch('-', " %f", s);
    BlankStep("- %f", s);
    assert ['-'] + " %f" == "- %f";
    assert [' '] + "- %f" == " - %f";
  }

  /** ` %s - %f` fails on ` word rest` when `rest` does not start with a dash. */
  lemma NumberThenNameIsNoHeader(k: string, tail: string)
    requires k != [] && forall i :: 0 <= i < |k| ==> !IsSpace(k[i])
    requires tail != [] && tail[0] != '-' && !IsSpace(tail[0])
    ensures ScanFormat(" %s - %f", " " + (k + (" " + tail))) == None
  {
    NoDashTail(tail);
    WordStep(k, " - %f", " " + tail);
    assert "%s" + " - %f" == "%s - %f";
    BlankStep("%s - %f", k + (" " + tail));
    assert [' '] + "%s - %f" == " %s - %f";
  }

  /** `. %s - %f` fails the same way after the point. */
  lemma PointThenNumberIsNoHeader(k: string, tail: string)
    requires k != [] && forall i :: 0 <= i < |k| ==> !IsSpace(k[i])
    requires tail != [] && tail[0] != '-' && !IsSpace(tail[0])
    ensures ScanFormat(". %s - %f", "." + (" " + (k + (" " + tail)))) == None
  {
    NumberThenNameIsNoHeader(k, tail);
    LiteralStep('.', " %s - %f", " " + (k + (" " + tail)));
    assert ['.'] + " %s - %f" == ". %s - %f";
  }

  /** The whole format fails on `rank. k tail` with `k` free of blanks and `tail` not starting with `-`. */
  lemma IndexThenNumberIsNoHeader(rank: nat, k: string, tail: string)
    requires rank <= Int64Max
    requires k != [] && forall i :: 0 <= i < |k| ==> !IsSpace(k[i])
    requires tail != [] && tail[0] != '-' && !IsSpace(tail[0])
    ensures ScanFormat(HeaderFormat, NatToString(rank) + ("." + (" " + (k + (" " + tail))))) == None
  {
    PointThenNumberIsNoHeader(k, tail);
    IntStep(rank, ". %s - %f", "." + (" " + (k + (" " + tail))));
    assert "%d" + ". %s - %f" == HeaderFormat;
  }

  /**
   * The layout the prompt asks the model for, `rank. number. name - score`, is
   * not a header: `%s` takes `number.` as the name and the `-` then meets the
   * plant's name instead.
   */
  lemma PromptLayoutIsNotAHeader(rank: nat, number: nat, name: string, score: string)
    requires rank <= Int64Max
    requires name != [] && name[0] != '-' && forall i :: 0 <= i < |name| ==> !IsSpace(name[i])
    ensures ScanHeader(NatToString(rank) + ". " + NatToString(number) + ". " + name + " - " + score) == None
  {
    NumeralWithPointHasNoSpace(NatToString(number));
    IndexThenNumberIsNoHeader(rank, NatToString(number) + ".", name + " - " + score);
    PromptLayoutShape(NatToString(rank), NatToString(number), name, score);
  }

  lemma PromptLayoutShape(r: string, d: string, name: string, score: string)
    ensures r + ". " + d + ". " + name + " - " + score
      == r + ("." + (" " + ((d + ".") + (" " + (name + " - " + score)))))
  {
  }

  lemma NumeralWithPointHasNoSpace(d: string)
    requires AllDigits(d)
    ensures forall i :: 0 <= i < |d + "."| ==> !IsSpace((d + ".")[i])
  {
  }
}
