/** The string operations the views and the data layer use: ASCII lower-casing, the
    `includes` substring test, `split`/`join`, the UTF-16 `length` of a string, decimal
    rendering of numbers, `parseInt` with radix 10 and the `<`/`>=` string comparison.
    A `char` here is a Unicode code point, so `|s|` counts code points, while
    JavaScript's `length` counts UTF-16 code units; `CodeUnits` gives the latter. */
module Text {
  import opened Wrappers

  // ---------------------------------------------------------------------------
  // Lower-casing (`toLowerCase`, restricted to ASCII letters)

  function LowerChar(c: char): (r: char)
    ensures 'A' <= c <= 'Z' ==> r as int == c as int + 32
    ensures !('A' <= c <= 'Z') ==> r == c
  {
    if 'A' <= c <= 'Z' then (c as int + 32) as char else c
  }

  function Lower(s: string): (r: string)
    ensures |r| == |s|
    ensures forall i :: 0 <= i < |s| ==> r[i] == LowerChar(s[i])
  {
    if s == [] then [] else [LowerChar(s[0])] + Lower(s[1..])
  }

  /** Lower-casing twice is lower-casing once. */
  lemma LowerIdempotent(s: string)
    ensures Lower(Lower(s)) == Lower(s)
  {
    assert forall i :: 0 <= i < |s| ==> LowerChar(LowerChar(s[i])) == LowerChar(s[i]);
  }

  // ---------------------------------------------------------------------------
  // Prefix and substring tests (`startsWith`, `includes`)

  predicate StartsWith(s: string, prefix: string) {
    |prefix| <= |s| && s[..|prefix|] == prefix
  }

  /** `t` occurs in `s` at offset `i`. */
  ghost predicate OccursAt(s: string, t: string, i: int) {
    0 <= i && i + |t| <= |s| && s[i..i + |t|] == t
  }

  /** `s.includes(t)`: scans the offsets of `s` from the left. */
  function Includes(s: string, t: string): (r: bool)
    decreases |s|
  {
    if StartsWith(s, t) then true
    else if |s| == 0 then false
    else Includes(s[1..], t)
  }

  /** `Includes` holds exactly when the needle occurs at some offset. */
  lemma {:induction false} IncludesIsOccurrence(s: string, t: string)
    ensures Includes(s, t) <==> exists i :: OccursAt(s, t, i)
    decreases |s|
  {
    if StartsWith(s, t) {
      assert OccursAt(s, t, 0);
    } else if |s| == 0 {
    } else {
      IncludesIsOccurrence(s[1..], t);
      if exists i :: OccursAt(s[1..], t, i) {
        var i :| OccursAt(s[1..], t, i);
        assert s[i + 1..i + 1 + |t|] == s[1..][i..i + |t|];
        assert OccursAt(s, t, i + 1);
      }
      if exists i :: OccursAt(s, t, i) {
        var i :| OccursAt(s, t, i);
        if i != 0 {
          assert s[1..][i - 1..i - 1 + |t|] == s[i..i + |t|];
          assert OccursAt(s[1..], t, i - 1);
        }
      }
    }
  }

  /** Every string includes the empty string, so an empty search term keeps every row. */
  lemma IncludesEmpty(s: string)
    ensures Includes(s, "")
  {
    assert StartsWith(s, "");
  }

  /** The case-insensitive search used by every table and suggestion list. */
  predicate MatchesTerm(text: string, term: string) {
    Includes(Lower(text), Lower(term))
  }

  lemma MatchesEmptyTerm(text: string)
    ensures MatchesTerm(text, "")
  {
    IncludesEmpty(Lower(text));
  }

  // ---------------------------------------------------------------------------
  // `split` on one separator character and `join`

  /** `s.split(sep)`: the pieces between occurrences of `sep`; never empty. */
  function Split(s: string, sep: char): (parts: seq<string>)
    ensures |parts| >= 1
    ensures forall k :: 0 <= k < |parts| ==> sep !in parts[k]
  {
    if s == [] then [[]]
    else
      var rest := Split(s[1..], sep);
      if s[0] == sep then [[]] + rest
      else [[s[0]] + rest[0]] + rest[1..]
  }

  /** `parts.join(glue)`. */
  function Join(parts: seq<string>, glue: string): string {
    if |parts| == 0 then []
    else if |parts| == 1 then parts[0]
    else parts[0] + glue + Join(parts[1..], glue)
  }

  /** Replaces every `from` by `to`. */
  function ReplaceChar(s: string, from: char, to: char): (r: string)
    ensures |r| == |s|
    ensures forall i :: 0 <= i < |s| ==> r[i] == if s[i] == from then to else s[i]
  {
    if s == [] then [] else [if s[0] == from then to else s[0]] + ReplaceChar(s[1..], from, to)
  }

  /** `s.split(sep).join(to)` with a one-character glue replaces each separator. */
  lemma {:induction false} SplitJoinReplaces(s: string, sep: char, to: char)
    ensures Join(Split(s, sep), [to]) == ReplaceChar(s, sep, to)
  {
    if s != [] {
      SplitJoinReplaces(s[1..], sep, to);
      var rest := Split(s[1..], sep);
      if s[0] == sep {
        assert Split(s, sep) == [[]] + rest;
        assert ([[]] + rest)[1..] == rest;
      } else {
        var parts := [[s[0]] + rest[0]] + rest[1..];
        assert Split(s, sep) == parts;
        if |rest| == 1 {
          assert Join(parts, [to]) == [s[0]] + rest[0];
        } else {
          assert parts[1..] == rest[1..];
          assert Join(rest, [to]) == rest[0] + [to] + Join(rest[1..], [to]);
        }
      }
    }
  }

  /** Splitting on `-` and joining with a space: the cinema label of an event row. */
  function HyphensToSpaces(s: string): (r: string)
    ensures r == ReplaceChar(s, '-', ' ')
    ensures '-' !in r
  {
    SplitJoinReplaces(s, '-', ' ');
    Join(Split(s, '-'), " ")
  }

  // ---------------------------------------------------------------------------
  // String length (`length`, in UTF-16 code units)

  /** The code units of one character: two, a surrogate pair, above U+FFFF. */
  function CharUnits(c: char): nat
  {
    if c as int <= 0xFFFF then 1 else 2
  }

  /** `s.length`: the number of UTF-16 code units of `s`. */
  function CodeUnits(s: string): (n: nat)
    ensures |s| <= n <= 2 * |s|
    ensures n == 0 <==> s == []
  {
    if s == [] then 0 else CharUnits(s[0]) + CodeUnits(s[1..])
  }

  /** The length of a concatenation is the sum of the lengths. */
  lemma {:induction false} CodeUnitsConcat(a: string, b: string)
    ensures CodeUnits(a + b) == CodeUnits(a) + CodeUnits(b)
  {
    if a != [] {
      assert (a + b)[0] == a[0];
      assert (a + b)[1..] == a[1..] + b;
      CodeUnitsConcat(a[1..], b);
    } else {
      assert a + b == b;
    }
  }

  /** Text without characters above U+FFFF has as many code units as characters,
      and one character above U+FFFF stands for two. */
  lemma {:induction false} CodeUnitsOfBasic(s: string)
    ensures (forall i :: 0 <= i < |s| ==> s[i] as int <= 0xFFFF) <==> CodeUnits(s) == |s|
  {
    if s != [] {
      CodeUnitsOfBasic(s[1..]);
      if forall i :: 0 <= i < |s| ==> s[i] as int <= 0xFFFF {
        assert forall i :: 0 <= i < |s| - 1 ==> s[1..][i] == s[i + 1];
      } else {
        var i :| 0 <= i < |s| && s[i] as int > 0xFFFF;
        if i > 0 {
          assert s[1..][i - 1] == s[i];
        }
      }
    }
  }

  /** An astral character, such as U+1F600, is two code units long: as JavaScript
      counts it, a one-character name of it has length 2. */
  lemma AstralCharIsTwoUnits(c: char)
    requires c as int > 0xFFFF
    ensures CodeUnits([c]) == 2 && |[c]| == 1
  {
    assert [c][1..] == [];
  }

  // ---------------------------------------------------------------------------
  // Decimal numbers: template-literal rendering, `parseInt(s, 10)` and `Number(s)`

  predicate IsDigit(c: char) {
    '0' <= c <= '9'
  }

  predicate AllDigits(s: string) {
    forall k :: 0 <= k < |s| ==> IsDigit(s[k])
  }

  function DigitChar(d: nat): char
    requires d < 10
  {
    ('0' as int + d) as char
  }

  function DigitValue(c: char): nat
    requires IsDigit(c)
  {
    c as int - '0' as int
  }

  /** The decimal digits of a natural number, without leading zeros. */
  function NatToString(n: nat): (r: string)
    ensures |r| >= 1 && AllDigits(r)
  {
    if n < 10 then [DigitChar(n)] else NatToString(n / 10) + [DigitChar(n % 10)]
  }

  /** `${n}` for an integer. */
  function IntToString(n: int): string {
    if n < 0 then "-" + NatToString(-n) else NatToString(n)
  }

  /** The value of a run of digits, most significant first. */
  function DigitsValue(s: string): nat
    requires AllDigits(s)
  {
    if s == [] then 0 else DigitsValue(s[..|s| - 1]) * 10 + DigitValue(s[|s| - 1])
  }

  /** The longest prefix of `s` made of digits. */
  function LeadingDigits(s: string): (r: string)
    ensures |r| <= |s| && r == s[..|r|]
    ensures AllDigits(r)
    ensures |r| < |s| ==> !IsDigit(s[|r|])
  {
    if s == [] || !IsDigit(s[0]) then [] else [s[0]] + LeadingDigits(s[1..])
  }

  /** The white space `parseInt` and `Number` skip, the WhiteSpace and LineTerminator
      characters of ECMAScript: tab, vertical tab, form feed, space, no-break space,
      the byte-order mark, the other space separators of Unicode 15, line feed,
      carriage return, and the line and paragraph separators. */
  predicate IsWhitespace(c: char) {
    c == '\t' || c == '\U{000B}' || c == '\U{000C}' || c == ' ' || c == '\U{00A0}' || c == '\U{FEFF}' ||
    c == '\U{1680}' || ('\U{2000}' <= c <= '\U{200A}') || c == '\U{202F}' || c == '\U{205F}' ||
    c == '\U{3000}' || c == '\n' || c == '\r' || c == '\U{2028}' || c == '\U{2029}'
  }

  predicate AllWhitespace(s: string) {
    forall k :: 0 <= k < |s| ==> IsWhitespace(s[k])
  }

  /** `s` without its leading white space. */
  function TrimStart(s: string): (r: string)
    ensures |r| <= |s| && r == s[|s| - |r|..]
    ensures AllWhitespace(s[..|s| - |r|])
    ensures r != [] ==> !IsWhitespace(r[0])
  {
    if s != [] && IsWhitespace(s[0]) then TrimStart(s[1..]) else s
  }

  /** `s` without its trailing white space. */
  function TrimEnd(s: string): (r: string)
    ensures |r| <= |s| && r == s[..|r|]
    ensures AllWhitespace(s[|r|..])
    ensures r != [] ==> !IsWhitespace(r[|r| - 1])
  {
    if s != [] && IsWhitespace(s[|s| - 1]) then TrimEnd(s[..|s| - 1]) else s
  }

  function Trim(s: string): string {
    TrimEnd(TrimStart(s))
  }

  /** The text after an optional leading sign. */
  function Unsigned(t: string): string {
    if t != [] && (t[0] == '-' || t[0] == '+') then t[1..] else t
  }

  /** The factor of an optional leading sign. */
  function SignOf(t: string): int {
    if t != [] && t[0] == '-' then -1 else 1
  }

  /** `parseInt(s, 10)`: leading white space, an optional sign, then the longest run of
      digits, whatever follows; `None` stands for `NaN`, when no digit follows the
      sign. */
  function ParseInt(s: string): (r: Option<int>)
    ensures var t := TrimStart(s);
            var u := Unsigned(t);
            (r.None? <==> u == [] || !IsDigit(u[0])) &&
            (r.Some? ==> r.value == SignOf(t) * DigitsValue(LeadingDigits(u)))
  {
    var t := TrimStart(s);
    var digits := LeadingDigits(Unsigned(t));
    if digits == [] then None else Some(SignOf(t) * DigitsValue(digits))
  }

  lemma {:induction false} DigitsValueOfNatToString(n: nat)
    ensures DigitsValue(NatToString(n)) == n
  {
    var s := NatToString(n);
    if n >= 10 {
      DigitsValueOfNatToString(n / 10);
      assert s[..|s| - 1] == NatToString(n / 10);
    }
  }

  /** The digits of a run followed by text that does not start with a digit. */
  lemma {:induction false} LeadingDigitsOfDigits(s: string, rest: string)
    requires AllDigits(s)
    requires rest == [] || !IsDigit(rest[0])
    ensures LeadingDigits(s + rest) == s
    decreases |s|
  {
    if s == [] {
    } else {
      assert (s + rest)[1..] == s[1..] + rest;
      LeadingDigitsOfDigits(s[1..], rest);
      assert s == [s[0]] + s[1..];
    }
  }

  /** White space in front of the text makes no difference to what is trimmed. */
  lemma {:induction false} TrimStartSkips(w: string, s: string)
    requires AllWhitespace(w)
    ensures TrimStart(w + s) == TrimStart(s)
    decreases |w|
  {
    if w != [] {
      assert (w + s)[0] == w[0] && IsWhitespace(w[0]);
      assert (w + s)[1..] == w[1..] + s;
      TrimStartSkips(w[1..], s);
    } else {
      assert w + s == s;
    }
  }

  /** `parseInt` reads the decimal rendering of an integer back, after any white space
      and up to the first character that is not a digit (`parseInt("25 years")` is
      25). */
  lemma ParseIntReadsRendering(w: string, n: int, rest: string)
    requires AllWhitespace(w)
    requires rest == [] || !IsDigit(rest[0])
    ensures ParseInt(w + IntToString(n) + rest) == Some(n)
  {
    var t := IntToString(n) + rest;
    var m: nat := if n < 0 then -n else n;
    var d := NatToString(m);
    assert w + IntToString(n) + rest == w + t;
    TrimStartSkips(w, t);
    RenderingUntrimmed(n, rest);
    LeadingDigitsOfDigits(d, rest);
    DigitsValueOfNatToString(m);
    ParseIntOfTrimmed(w + t, t, d);
  }

  /** Parsing the decimal rendering of an integer gives the integer back. */
  lemma ParseIntOfIntToString(n: int)
    ensures ParseInt(IntToString(n)) == Some(n)
  {
    ParseIntReadsRendering([], n, []);
    assert [] + IntToString(n) + [] == IntToString(n);
  }

  /** `parseInt` of text that, trimmed, is `t`, whose unsigned part starts with the
      digits `d`. */
  lemma ParseIntOfTrimmed(s: string, t: string, d: string)
    requires TrimStart(s) == t && AllDigits(d) && d != []
    requires LeadingDigits(Unsigned(t)) == d
    ensures ParseInt(s) == Some(SignOf(t) * DigitsValue(d))
  {
  }

  /** The rendering of an integer followed by other text starts with no white space,
      and its sign, if any, is followed by the digits. */
  lemma RenderingUntrimmed(n: int, rest: string)
    ensures var t := IntToString(n) + rest;
            TrimStart(t) == t && SignOf(t) == (if n < 0 then -1 else 1) &&
            Unsigned(t) == NatToString(if n < 0 then -n else n) + rest
  {
    var d := NatToString(if n < 0 then -n else n);
    if n < 0 {
      SignedUntrimmed(d, rest);
      assert IntToString(n) + rest == "-" + (d + rest);
    } else {
      UnsignedUntrimmed(d, rest);
    }
  }

  lemma SignedUntrimmed(d: string, rest: string)
    requires d != [] && IsDigit(d[0])
    ensures var t := "-" + (d + rest);
            TrimStart(t) == t && SignOf(t) == -1 && Unsigned(t) == d + rest
  {
    var t := "-" + (d + rest);
    assert t[0] == '-';
    assert !IsWhitespace('-');
    assert TrimStart(t) == t;
    assert t[1..] == d + rest;
  }

  lemma UnsignedUntrimmed(d: string, rest: string)
    requires d != [] && IsDigit(d[0])
    ensures var t := d + rest;
            TrimStart(t) == t && SignOf(t) == 1 && Unsigned(t) == t
  {
    var t := d + rest;
    assert t[0] == d[0];
    DigitIsNoSign(t[0]);
    assert TrimStart(t) == t;
  }

  /** A digit is neither white space nor a sign. */
  lemma DigitIsNoSign(c: char)
    requires IsDigit(c)
    ensures !IsWhitespace(c) && c != '-' && c != '+'
  {
  }

  /** `Number(s)` on a query parameter: surrounding white space is ignored, blank text
      is 0, and an optionally signed run of decimal digits is its value; any other text
      is `None`, which stands for `NaN` (fractions, exponents, other radixes and
      `Infinity` are read as `NaN` too). */
  function ToNumber(s: string): (r: Option<int>)
    ensures Trim(s) == [] ==> r == Some(0)
    ensures s != [] && AllDigits(s) ==> r == Some(DigitsValue(s))
    ensures var t := Trim(s);
            t != [] ==>
              (r.None? <==> Unsigned(t) == [] || !AllDigits(Unsigned(t))) &&
              (r.Some? ==> r.value == SignOf(t) * DigitsValue(Unsigned(t)))
  {
    var t := Trim(s);
    var u := Unsigned(t);
    DigitsUntrimmed(s);
    if t == [] then Some(0)
    else if u != [] && AllDigits(u) then Some(SignOf(t) * DigitsValue(u))
    else None
  }

  /** Text of digits has no white space to trim. */
  lemma DigitsUntrimmed(s: string)
    ensures s != [] && AllDigits(s) ==> Trim(s) == s
  {
    if s != [] && AllDigits(s) {
      assert !IsWhitespace(s[0]) && !IsWhitespace(s[|s| - 1]);
      assert TrimStart(s) == s;
    }
  }

  /** White space around the text makes no difference to `Number`. */
  lemma ToNumberSkipsSpace(w: string, s: string, v: string)
    requires AllWhitespace(w) && AllWhitespace(v)
    ensures ToNumber(w + s + v) == ToNumber(s)
  {
    var x := w + s + v;
    assert x == w + (s + v);
    TrimStartSkips(w, s + v);
    TrimStartOfPadded(s, v);
    if TrimStart(s) != [] {
      TrimEndSkips(TrimStart(s), v);
    }
    assert Trim(x) == Trim(s);
    ToNumberOfSameTrim(x, s);
  }

  /** `Number` looks only at the trimmed text. */
  lemma ToNumberOfSameTrim(s: string, s': string)
    requires Trim(s) == Trim(s')
    ensures ToNumber(s) == ToNumber(s')
  {
  }

  /** White space after the text makes no difference to what is trimmed at its end. */
  lemma {:induction false} TrimEndSkips(s: string, v: string)
    requires AllWhitespace(v)
    ensures TrimEnd(s + v) == TrimEnd(s)
    decreases |v|
  {
    if v != [] {
      var init := v[..|v| - 1];
      assert (s + v)[|s + v| - 1] == v[|v| - 1] && IsWhitespace(v[|v| - 1]);
      assert (s + v)[..|s + v| - 1] == s + init;
      assert AllWhitespace(init);
      TrimEndSkips(s, init);
    } else {
      assert s + v == s;
    }
  }

  /** Trimming the start of text followed by white space: the trailing white space
      stays, unless the text is all white space. */
  lemma {:induction false} TrimStartOfPadded(s: string, v: string)
    requires AllWhitespace(v)
    ensures TrimStart(s) != [] ==> TrimStart(s + v) == TrimStart(s) + v
    ensures TrimStart(s) == [] ==> TrimStart(s + v) == []
    decreases |s|
  {
    if s == [] {
      AllWhitespaceTrims(v);
    } else if IsWhitespace(s[0]) {
      assert (s + v)[1..] == s[1..] + v;
      TrimStartOfPadded(s[1..], v);
    }
  }

  lemma {:induction false} AllWhitespaceTrims(v: string)
    requires AllWhitespace(v)
    ensures TrimStart(v) == []
    decreases |v|
  {
    if v != [] {
      AllWhitespaceTrims(v[1..]);
    }
  }

  /** The rendering of an integer reads back as the integer. */
  lemma ToNumberOfIntToString(n: int)
    ensures ToNumber(IntToString(n)) == Some(n)
  {
    var m: nat := if n < 0 then -n else n;
    var d := NatToString(m);
    var t := IntToString(n);
    DigitsValueOfNatToString(m);
    RenderingUntrimmed(n, []);
    assert t + [] == t;
    assert t[|t| - 1] == d[|d| - 1] && IsDigit(d[|d| - 1]);
    assert TrimEnd(t) == t;
    ToNumberOfTrimmed(t, t, d);
  }

  /** `Number` of text that, trimmed, is `t`, a sign followed by the digits `d`. */
  lemma ToNumberOfTrimmed(s: string, t: string, d: string)
    requires Trim(s) == t && t != [] && Unsigned(t) == d && d != [] && AllDigits(d)
    ensures ToNumber(s) == Some(SignOf(t) * DigitsValue(d))
  {
  }

  // ---------------------------------------------------------------------------
  // String order of the `<`, `<=`, `>=` operators (element by element)
  //
  // JavaScript compares UTF-16 code units; `LexLe` compares code points.  The two
  // orders agree unless, at the first difference, one string has a character above
  // U+FFFF and the other one from U+E000 to U+FFFF.  The order is used on ISO
  // timestamps, which are ASCII, and on customer names, where it stands for
  // `localeCompare`.

  /** `a <= b` on strings: `a` is a prefix of `b` or is smaller at the first difference. */
  predicate LexLe(a: string, b: string) {
    if a == [] then true
    else if b == [] then false
    else if a[0] != b[0] then a[0] < b[0]
    else LexLe(a[1..], b[1..])
  }

  lemma {:induction false} LexLeReflexive(a: string)
    ensures LexLe(a, a)
  {
    if a != [] {
      LexLeReflexive(a[1..]);
    }
  }

  lemma {:induction false} LexLeTotal(a: string, b: string)
    ensures LexLe(a, b) || LexLe(b, a)
  {
    if a != [] && b != [] && a[0] == b[0] {
      LexLeTotal(a[1..], b[1..]);
    }
  }

  lemma {:induction false} LexLeTransitive(a: string, b: string, c: string)
    requires LexLe(a, b) && LexLe(b, c)
    ensures LexLe(a, c)
  {
    if a != [] && b != [] && c != [] && a[0] == b[0] && b[0] == c[0] {
      LexLeTransitive(a[1..], b[1..], c[1..]);
    }
  }

  lemma {:induction false} LexLeAntisymmetric(a: string, b: string)
    requires LexLe(a, b) && LexLe(b, a)
    ensures a == b
  {
    if a != [] && b != [] {
      LexLeAntisymmetric(a[1..], b[1..]);
      assert a == [a[0]] + a[1..];
      assert b == [b[0]] + b[1..];
    }
  }
}
