/**
 * The slice of Go's `strings`, `bytes`, `unicode` and `strconv` packages that the
 * services use, over Dafny strings (sequences of Unicode code points).
 */
module Text {
  import opened Wrappers

  /** Go's `unicode.IsSpace`: the Latin-1 spaces and the Unicode White_Space runes. */
  predicate IsSpace(c: char)
  {
    c == ' ' || ('\t' <= c <= '\r')
    || c == '\U{0085}' || c == '\U{00A0}' || c == '\U{1680}'
    || ('\U{2000}' <= c <= '\U{200A}')
    || c == '\U{2028}' || c == '\U{2029}' || c == '\U{202F}' || c == '\U{205F}' || c == '\U{3000}'
  }

  /** `s` with its leading white space removed. */
  function TrimLeft(s: string): (r: string)
    ensures |r| <= |s| && r == s[|s| - |r|..]
    ensures r == [] || !IsSpace(r[0])
  {
    if |s| > 0 && IsSpace(s[0]) then TrimLeft(s[1..]) else s
  }

  /** `s` with its trailing white space removed. */
  function TrimRight(s: string): (r: string)
    ensures |r| <= |s| && r == s[..|r|]
    ensures r == [] || !IsSpace(r[|r| - 1])
  {
    if |s| > 0 && IsSpace(s[|s| - 1]) then TrimRight(s[..|s| - 1]) else s
  }

  /** Go's `strings.TrimSpace`. */
  function TrimSpace(s: string): string
  {
    TrimRight(TrimLeft(s))
  }

  /**
   * A string that starts with a non-space character and ends in exactly one
   * space loses precisely that space under `TrimSpace`.
   */
  lemma TrimSpaceDropsOneTrailingSpace(s: string)
    requires |s| >= 2 && !IsSpace(s[0]) && IsSpace(s[|s| - 1]) && !IsSpace(s[|s| - 2])
    ensures TrimSpace(s) == s[..|s| - 1]
  {
    assert TrimLeft(s) == s;
    assert TrimRight(s) == TrimRight(s[..|s| - 1]);
    assert TrimRight(s[..|s| - 1]) == s[..|s| - 1];
  }

  /**
   * Go's `unicode.ToLower` for the scripts the catalog and the questionnaires are
   * written in: ASCII, Latin-1 and Cyrillic capitals map to their small letters,
   * every other rune is left alone.
   */
  function Lower(c: char): (r: char)
    ensures 'a' <= r <= 'z' ==> 'a' <= c <= 'z' || 'A' <= c <= 'Z'
  {
    if 'A' <= c <= 'Z' then (c as int + 32) as char
    else if 'À' <= c <= 'Þ' && c != '×' then (c as int + 0x20) as char
    else if 'А' <= c <= 'Я' then (c as int + 0x20) as char
    else if 'Ѐ' <= c <= 'Џ' then (c as int + 0x50) as char
    else c
  }

  /** Go's `strings.ToLower`, rune by rune. */
  function ToLower(s: string): (r: string)
    ensures |r| == |s|
    ensures forall i :: 0 <= i < |s| ==> r[i] == Lower(s[i])
  {
    if s == [] then [] else [Lower(s[0])] + ToLower(s[1..])
  }

  predicate HasPrefix(s: string, p: string)
  {
    |p| <= |s| && s[..|p|] == p
  }

  /** Go's `strings.Contains`: `sub` occurs somewhere in `s` (the empty string always does). */
  predicate Contains(s: string, sub: string)
    decreases |s|
  {
    HasPrefix(s, sub) || (|s| > 0 && Contains(s[1..], sub))
  }

  lemma ToLowerAppend(a: string, b: string)
    ensures ToLower(a + b) == ToLower(a) + ToLower(b)
  {
    assert forall i :: 0 <= i < |a + b| ==> ToLower(a + b)[i] == (ToLower(a) + ToLower(b))[i];
  }

  /** A string contains each of its suffixes. */
  lemma {:induction false} ContainsSuffix(pre: string, sub: string)
    ensures Contains(pre + sub, sub)
    decreases |pre|
  {
    if pre == [] {
      assert pre + sub == sub;
    } else {
      ContainsSuffix(pre[1..], sub);
      assert (pre + sub)[1..] == pre[1..] + sub;
    }
  }

  /** Go's `strings.Split(s, sep)` and `bytes.Split` for a one-character separator. */
  function Split(s: string, sep: char): (parts: seq<string>)
    ensures |parts| >= 1
    decreases |s|
  {
    if s == [] then [""]
    else
      var rest := Split(s[1..], sep);
      if s[0] == sep then [""] + rest
      else [[s[0]] + rest[0]] + rest[1..]
  }

  /** Go's `strings.Join`. */
  function Join(parts: seq<string>, sep: string): string
  {
    if |parts| == 0 then ""
    else if |parts| == 1 then parts[0]
    else parts[0] + sep + Join(parts[1..], sep)
  }

  lemma {:induction false} SplitPrefix(p: string, rest: string, sep: char)
    requires sep !in p
    ensures Split(p + rest, sep) == [p + Split(rest, sep)[0]] + Split(rest, sep)[1..]
    decreases |p|
  {
    if p != [] {
      assert (p + rest)[1..] == p[1..] + rest;
      SplitPrefix(p[1..], rest, sep);
      assert [p[0]] + (p[1..] + Split(rest, sep)[0]) == p + Split(rest, sep)[0];
    } else {
      assert p + rest == rest;
      assert p + Split(rest, sep)[0] == Split(rest, sep)[0];
      assert [Split(rest, sep)[0]] + Split(rest, sep)[1..] == Split(rest, sep);
    }
  }

  /** No piece produced by `Split` contains the separator. */
  lemma {:induction false} SplitPartsAvoidSeparator(s: string, sep: char)
    ensures forall i :: 0 <= i < |Split(s, sep)| ==> sep !in Split(s, sep)[i]
    decreases |s|
  {
    if s != [] {
      SplitPartsAvoidSeparator(s[1..], sep);
    }
  }

  /** Splitting undoes joining, when no piece contains the separator. */
  lemma {:induction false} SplitJoin(parts: seq<string>, sep: char)
    requires |parts| >= 1
    requires forall i :: 0 <= i < |parts| ==> sep !in parts[i]
    ensures Split(Join(parts, [sep]), sep) == parts
  {
    if |parts| == 1 {
      SplitPrefix(parts[0], "", sep);
      assert parts[0] + "" == parts[0];
    } else {
      var tail := Join(parts[1..], [sep]);
      SplitJoin(parts[1..], sep);
      assert Join(parts, [sep]) == parts[0] + ([sep] + tail);
      SplitPrefix(parts[0], [sep] + tail, sep);
      assert ([sep] + tail)[1..] == tail;
      assert Split([sep] + tail, sep) == [""] + parts[1..];
      assert parts[0] + "" == parts[0];
      assert [parts[0]] + parts[1..] == parts;
    }
  }

  /** A string with no separator splits into itself alone. */
  lemma SplitSingle(s: string, sep: char)
    requires sep !in s
    ensures Split(s, sep) == [s]
  {
    SplitPrefix(s, "", sep);
    assert s + "" == s;
  }

  /** Splitting at a separator splits both sides independently. */
  lemma {:induction false} SplitAtSeparator(a: string, b: string, sep: char)
    ensures Split(a + [sep] + b, sep) == Split(a, sep) + Split(b, sep)
    decreases |a|
  {
    if a == [] {
      assert a + [sep] + b == [sep] + b;
      SplitSeparatorFirst(b, sep);
    } else {
      SplitAtSeparator(a[1..], b, sep);
      assert a + [sep] + b == [a[0]] + (a[1..] + [sep] + b);
      assert a == [a[0]] + a[1..];
      SplitAtSeparatorCons(a[0], a[1..], b, sep);
    }
  }

  lemma SplitSeparatorFirst(b: string, sep: char)
    ensures Split([sep] + b, sep) == [""] + Split(b, sep)
  {
    assert ([sep] + b)[1..] == b;
  }

  lemma SplitAtSeparatorCons(c: char, t: string, b: string, sep: char)
    requires Split(t + [sep] + b, sep) == Split(t, sep) + Split(b, sep)
    ensures Split([c] + (t + [sep] + b), sep) == Split([c] + t, sep) + Split(b, sep)
  {
    assert ([c] + (t + [sep] + b))[1..] == t + [sep] + b;
    assert ([c] + t)[1..] == t;
    if c != sep {
      ExtendFirst([c], Split(t, sep), Split(b, sep));
    } else {
      assert [""] + (Split(t, sep) + Split(b, sep)) == ([""] + Split(t, sep)) + Split(b, sep);
    }
  }

  /** Extending the first piece of a list commutes with appending more pieces. */
  lemma ExtendFirst(pre: string, left: seq<string>, right: seq<string>)
    requires |left| >= 1
    ensures [pre + (left + right)[0]] + (left + right)[1..] == [pre + left[0]] + left[1..] + right
  {
    assert (left + right)[0] == left[0];
    assert (left + right)[1..] == left[1..] + right;
  }

  /**
   * Joining lines around one piece `x` that may itself hold separators, then
   * splitting, gives back the lines with `x` split in place.
   */
  lemma {:induction false} SplitJoinAround(a: seq<string>, x: string, b: seq<string>, sep: char)
    requires forall i :: 0 <= i < |a| ==> sep !in a[i]
    requires forall i :: 0 <= i < |b| ==> sep !in b[i]
    ensures Split(Join(a + [x] + b, [sep]), sep) == a + Split(x, sep) + b
    decreases |a|
  {
    if a == [] {
      assert a + [x] + b == [x] + b;
      SplitJoinFirst(x, b, sep);
    } else {
      var rest := a[1..] + [x] + b;
      assert a + [x] + b == [a[0]] + rest;
      SplitJoinAround(a[1..], x, b, sep);
      SplitJoinCons(a[0], rest, sep);
      ConsAppend(a, Split(x, sep), b);
    }
  }

  lemma ConsAppend(a: seq<string>, m: seq<string>, b: seq<string>)
    requires |a| >= 1
    ensures [a[0]] + (a[1..] + m + b) == a + m + b
  {
    assert a == [a[0]] + a[1..];
  }

  lemma SplitJoinFirst(x: string, b: seq<string>, sep: char)
    requires forall i :: 0 <= i < |b| ==> sep !in b[i]
    ensures Split(Join([x] + b, [sep]), sep) == Split(x, sep) + b
  {
    if b != [] {
      assert ([x] + b)[1..] == b;
      SplitAtSeparator(x, Join(b, [sep]), sep);
      SplitJoin(b, sep);
    } else {
      assert [x] + b == [x];
    }
  }

  lemma SplitJoinCons(p: string, rest: seq<string>, sep: char)
    requires sep !in p && |rest| >= 1
    ensures Split(Join([p] + rest, [sep]), sep) == [p] + Split(Join(rest, [sep]), sep)
  {
    assert ([p] + rest)[1..] == rest;
    SplitAtSeparator(p, Join(rest, [sep]), sep);
    SplitSingle(p, sep);
  }

  /** `parts` after the first, each with one leading space. */
  function Spaced(parts: seq<string>): (r: seq<string>)
    requires |parts| >= 1
    ensures |r| == |parts|
  {
    [parts[0]] + seq(|parts| - 1, i requires 0 <= i < |parts| - 1 => " " + parts[i + 1])
  }

  /** Joining with a separator followed by a blank is joining the spaced pieces. */
  lemma {:induction false} JoinSpaced(parts: seq<string>, sep: char)
    requires |parts| >= 1
    ensures Join(parts, [sep, ' ']) == Join(Spaced(parts), [sep])
  {
    if |parts| > 1 {
      JoinSpaced(parts[1..], sep);
      var inner := Spaced(parts[1..]);
      assert Spaced(parts)[1..] == [" " + inner[0]] + inner[1..];
      JoinPrefixFirst(" ", inner, [sep]);
      var j := Join(parts[1..], [sep, ' ']);
      assert parts[0] + [sep, ' '] + j == parts[0] + [sep] + (" " + j);
    }
  }

  /**
   * Splitting a text joined with a separator and a blank at the separator
   * gives the pieces back, each after the first with its leading blank.
   */
  lemma SplitJoinSpaced(parts: seq<string>, sep: char)
    requires |parts| >= 1 && sep != ' '
    requires forall i :: 0 <= i < |parts| ==> sep !in parts[i]
    ensures Split(Join(parts, [sep, ' ']), sep) == Spaced(parts)
  {
    JoinSpaced(parts, sep);
    var spaced := Spaced(parts);
    assert forall i :: 1 <= i < |spaced| ==> spaced[i] == " " + parts[i];
    SplitJoin(spaced, sep);
  }

  /** Joining undoes splitting. */
  lemma {:induction false} JoinSplit(s: string, sep: char)
    ensures Join(Split(s, sep), [sep]) == s
    decreases |s|
  {
    if s != [] {
      JoinSplit(s[1..], sep);
      if s[0] == sep {
        JoinSplitSeparator(s[1..], sep);
      } else {
        JoinSplitOther(s[0], s[1..], sep);
      }
      assert [s[0]] + s[1..] == s;
    }
  }

  lemma JoinSplitSeparator(t: string, sep: char)
    requires Join(Split(t, sep), [sep]) == t
    ensures Join(Split([sep] + t, sep), [sep]) == [sep] + t
  {
    assert ([sep] + t)[1..] == t;
    var rest := Split(t, sep);
    assert Split([sep] + t, sep) == [""] + rest;
    assert ([""] + rest)[1..] == rest;
  }

  lemma JoinSplitOther(c: char, t: string, sep: char)
    requires c != sep
    requires Join(Split(t, sep), [sep]) == t
    ensures Join(Split([c] + t, sep), [sep]) == [c] + t
  {
    assert ([c] + t)[1..] == t;
    var rest := Split(t, sep);
    assert Split([c] + t, sep) == [[c] + rest[0]] + rest[1..];
    JoinPrefixFirst([c], rest, [sep]);
  }

  /** Text in front of the first piece is text in front of the joined whole. */
  lemma JoinPrefixFirst(pre: string, parts: seq<string>, sep: string)
    requires |parts| >= 1
    ensures Join([pre + parts[0]] + parts[1..], sep) == pre + Join(parts, sep)
  {
    var moved := [pre + parts[0]] + parts[1..];
    assert moved[0] == pre + parts[0];
    if |parts| > 1 {
      assert moved[1..] == parts[1..];
      assert pre + parts[0] + sep + Join(parts[1..], sep) == pre + (parts[0] + sep + Join(parts[1..], sep));
    }
  }

  /** Joining one more piece adds the separator and that piece at the end. */
  lemma {:induction false} JoinSnoc(parts: seq<string>, x: string, sep: string)
    requires |parts| >= 1
    ensures Join(parts + [x], sep) == Join(parts, sep) + sep + x
  {
    if |parts| > 1 {
      assert (parts + [x])[1..] == parts[1..] + [x];
      JoinSnoc(parts[1..], x, sep);
    }
  }

  predicate IsDigit(c: char)
  {
    '0' <= c <= '9'
  }

  predicate AllDigits(s: string)
  {
    forall i :: 0 <= i < |s| ==> IsDigit(s[i])
  }

  function DigitChar(d: nat): (c: char)
    requires d < 10
    ensures IsDigit(c) && c as int - '0' as int == d
  {
    ('0' as int + d) as char
  }

  /** The number a run of decimal digits denotes. */
  function DigitsValue(s: string): nat
    requires AllDigits(s)
  {
    if s == [] then 0 else DigitsValue(s[..|s| - 1]) * 10 + (s[|s| - 1] as int - '0' as int)
  }

  /** Go's `strconv.Itoa` (and `%d`) for a natural number. */
  function NatToString(n: nat): (s: string)
    ensures |s| >= 1 && AllDigits(s)
    decreases n
  {
    if n < 10 then [DigitChar(n)] else NatToString(n / 10) + [DigitChar(n % 10)]
  }

  /** Reading back the decimal rendering of `n` gives `n`. */
  lemma {:induction false} DigitsValueOfNatToString(n: nat)
    ensures DigitsValue(NatToString(n)) == n
    decreases n
  {
    var s := NatToString(n);
    if n >= 10 {
      DigitsValueOfNatToString(n / 10);
      assert s[..|s| - 1] == NatToString(n / 10);
    } else {
      assert s[..|s| - 1] == [];
    }
  }

  /** Go's `%t`. */
  function BoolToString(b: bool): string
  {
    if b then "true" else "false"
  }

  /** Go's `strconv.Itoa` (and `%d`) for any integer. */
  function IntToString(i: int): (s: string)
    ensures |s| >= 1
    ensures i >= 0 <==> IsDigit(s[0])
  {
    if i < 0 then "-" + NatToString(-i) else NatToString(i)
  }

  /**
   * The decimal numeral syntax of Go's `strconv.Atoi`, without its range limit:
   * an optional `+` or `-`, then one or more decimal digits and nothing else.
   */
  function ParseDecimal(s: string): (r: Option<int>)
    ensures r.Some? ==> |s| >= 1
  {
    var signed := |s| >= 1 && (s[0] == '+' || s[0] == '-');
    var digits := if signed then s[1..] else s;
    if |digits| == 0 || !AllDigits(digits) then None
    else if signed && s[0] == '-' then Some(-(DigitsValue(digits) as int))
    else Some(DigitsValue(digits))
  }

  /** Every integer's rendering reads back as that integer. */
  lemma ParseIntToString(i: int)
    ensures ParseDecimal(IntToString(i)) == Some(i)
  {
    if i < 0 {
      ParseNegative(-i);
    } else {
      ParseNatural(i);
    }
  }

  lemma ParseNatural(n: nat)
    ensures ParseDecimal(NatToString(n)) == Some(n)
  {
    var s := NatToString(n);
    assert IsDigit(s[0]);
    DigitsValueOfNatToString(n);
  }

  lemma ParseNegative(n: nat)
    requires n > 0
    ensures ParseDecimal("-" + NatToString(n)) == Some(-(n as int))
  {
    var s := "-" + NatToString(n);
    assert s[0] == '-';
    assert s[1..] == NatToString(n);
    DigitsValueOfNatToString(n);
  }

  /** Distinct integers have distinct renderings. */
  lemma IntToStringInjective(a: int, b: int)
    requires IntToString(a) == IntToString(b)
    ensures a == b
  {
    ParseIntToString(a);
    ParseIntToString(b);
  }
}
