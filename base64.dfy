/** The browser's `btoa` and `atob`, which the session store uses to encode the bearer
    token: standard Base64 with padding over the alphabet of section 4 of RFC 4648,
    applied to "binary strings" whose characters are all below 256.  `atob` is the
    forgiving decoder of the HTML standard: it drops ASCII whitespace, accepts missing
    padding and ignores the bits left over in the final group. */
module Base64 {
  import opened Wrappers

  /** Every character fits in one byte (what `btoa` accepts). */
  predicate IsLatin1(s: string) {
    forall i :: 0 <= i < |s| ==> s[i] as int < 256
  }

  predicate IsAlphabetChar(c: char) {
    ('A' <= c <= 'Z') || ('a' <= c <= 'z') || ('0' <= c <= '9') || c == '+' || c == '/'
  }

  predicate IsAlphabetString(s: string) {
    forall i :: 0 <= i < |s| ==> IsAlphabetChar(s[i])
  }

  /** The character of the alphabet with index `v`. */
  function SextetChar(v: nat): (c: char)
    requires v < 64
    ensures IsAlphabetChar(c)
  {
    if v < 26 then ('A' as int + v) as char
    else if v < 52 then ('a' as int + (v - 26)) as char
    else if v < 62 then ('0' as int + (v - 52)) as char
    else if v == 62 then '+'
    else '/'
  }

  /** The index of an alphabet character. */
  function SextetValue(c: char): (v: nat)
    requires IsAlphabetChar(c)
    ensures v < 64
  {
    if 'A' <= c <= 'Z' then c as int - 'A' as int
    else if 'a' <= c <= 'z' then c as int - 'a' as int + 26
    else if '0' <= c <= '9' then c as int - '0' as int + 52
    else if c == '+' then 62
    else 63
  }

  lemma SextetRoundTrip(v: nat)
    requires v < 64
    ensures SextetValue(SextetChar(v)) == v
  {
  }

  predicate AreSextets(v: seq<nat>) {
    forall i :: 0 <= i < |v| ==> v[i] < 64
  }

  // ---------------------------------------------------------------------------
  // Encoding (`btoa`)

  /** The sextets of the bytes: four per full group of three bytes, then two or three
      for a final group of one or two bytes, the missing low bits set to zero. */
  function SextetsOf(s: string): (v: seq<nat>)
    requires IsLatin1(s)
    ensures AreSextets(v)
    ensures |v| == EncodedLength(|s|)
  {
    if |s| == 0 then []
    else
      var x := s[0] as int;
      if |s| == 1 then [x / 4, (x % 4) * 16]
      else
        var y := s[1] as int;
        if |s| == 2 then [x / 4, (x % 4) * 16 + y / 16, (y % 16) * 4]
        else GroupSextets(s[0], s[1], s[2]) + SextetsOf(s[3..])
  }

  /** The four sextets of a full group of three bytes. */
  function GroupSextets(a: char, b: char, c: char): (g: seq<nat>)
    requires a as int < 256 && b as int < 256 && c as int < 256
    ensures |g| == 4 && AreSextets(g)
  {
    var x, y, z := a as int, b as int, c as int;
    [x / 4, (x % 4) * 16 + y / 16, (y % 16) * 4 + z / 64, z % 64]
  }

  /** The number of sextets that encode `n` bytes. */
  function EncodedLength(n: nat): nat {
    if n == 0 then 0 else if n == 1 then 2 else if n == 2 then 3 else 4 + EncodedLength(n - 3)
  }

  lemma {:induction false} EncodedLengthResidue(n: nat)
    ensures EncodedLength(n) % 4 == (if n % 3 == 0 then 0 else n % 3 + 1)
  {
    if n >= 3 {
      EncodedLengthResidue(n - 3);
    }
  }

  /** The alphabet characters of a run of sextets. */
  function Chars(v: seq<nat>): (r: string)
    requires AreSextets(v)
    ensures |r| == |v| && IsAlphabetString(r)
  {
    seq(|v|, i requires 0 <= i < |v| => SextetChar(v[i]))
  }

  /** The alphabet characters of the encoding, before padding. */
  function Unpadded(s: string): (r: string)
    requires IsLatin1(s)
    ensures IsAlphabetString(r)
    ensures |r| == EncodedLength(|s|)
  {
    Chars(SextetsOf(s))
  }

  /** The `=` characters that complete the last group of four. */
  function Padding(n: nat): string {
    if n % 3 == 1 then "==" else if n % 3 == 2 then "=" else ""
  }

  /** `btoa(s)`: fails with `InvalidCharacterError` when a character is above 255. */
  function Btoa(s: string): (r: Result<string>)
    ensures r.Ok? <==> IsLatin1(s)
  {
    if IsLatin1(s) then Ok(Unpadded(s) + Padding(|s|)) else Err("InvalidCharacterError")
  }

  // ---------------------------------------------------------------------------
  // Decoding (`atob`, the forgiving decoder)

  /** ASCII whitespace as the HTML standard defines it: tab, line feed, form feed,
      carriage return and space. */
  predicate IsAsciiWhitespace(c: char) {
    c == '\t' || c == '\n' || c == '\U{000C}' || c == '\r' || c == ' '
  }

  function RemoveWhitespace(s: string): (r: string)
    ensures |r| <= |s|
    ensures forall i :: 0 <= i < |r| ==> !IsAsciiWhitespace(r[i])
  {
    if s == [] then []
    else if IsAsciiWhitespace(s[0]) then RemoveWhitespace(s[1..])
    else [s[0]] + RemoveWhitespace(s[1..])
  }

  /** Removes a trailing `==`, or else a trailing `=`. */
  function StripPadding(s: string): (r: string)
    ensures |r| <= |s| && r == s[..|r|]
  {
    if |s| >= 2 && s[|s| - 2] == '=' && s[|s| - 1] == '=' then s[..|s| - 2]
    else if |s| >= 1 && s[|s| - 1] == '=' then s[..|s| - 1]
    else s
  }

  /** The sextet values of alphabet characters. */
  function Values(d: string): (v: seq<nat>)
    requires IsAlphabetString(d)
    ensures |v| == |d| && AreSextets(v)
  {
    seq(|d|, i requires 0 <= i < |d| => SextetValue(d[i]))
  }

  /** The bytes carried by two, three or four sextets, high bits first. */
  function Byte0(v0: nat, v1: nat): (b: char)
    requires v0 < 64 && v1 < 64
    ensures b as int < 256
  {
    (v0 * 4 + v1 / 16) as char
  }

  function Byte1(v1: nat, v2: nat): (b: char)
    requires v1 < 64 && v2 < 64
    ensures b as int < 256
  {
    ((v1 % 16) * 16 + v2 / 4) as char
  }

  function Byte2(v2: nat, v3: nat): (b: char)
    requires v2 < 64 && v3 < 64
    ensures b as int < 256
  {
    ((v2 % 4) * 64 + v3) as char
  }

  /** Decodes groups of four sextets into three bytes, and a final group of two or
      three sextets into one or two bytes, dropping the leftover bits.  A lone final
      sextet carries no whole byte; `atob` rejects that input before decoding. */
  function BytesOf(v: seq<nat>): (r: string)
    requires AreSextets(v)
    ensures IsLatin1(r)
    ensures |r| == DecodedLength(|v|)
  {
    if |v| <= 1 then []
    else if |v| == 2 then [Byte0(v[0], v[1])]
    else if |v| == 3 then [Byte0(v[0], v[1]), Byte1(v[1], v[2])]
    else [Byte0(v[0], v[1]), Byte1(v[1], v[2]), Byte2(v[2], v[3])] + BytesOf(v[4..])
  }

  /** The bytes that `n` sextets carry whole: three per group of four, and one fewer
      than the sextets of a final group of two or three. */
  function DecodedLength(n: nat): nat {
    (n / 4) * 3 + (if n % 4 <= 1 then 0 else n % 4 - 1)
  }

  function DecodeSextets(d: string): (r: string)
    requires IsAlphabetString(d)
    ensures IsLatin1(r)
  {
    BytesOf(Values(d))
  }

  /** The characters `atob` decodes: the input without its ASCII whitespace, and
      without one or two final `=` when that leaves whole groups of four. */
  function Cleaned(data: string): (e: string)
    ensures forall i :: 0 <= i < |e| ==> !IsAsciiWhitespace(e[i])
    ensures |RemoveWhitespace(data)| % 4 != 0 ==> e == RemoveWhitespace(data)
    ensures |RemoveWhitespace(data)| % 4 == 0 ==> e == StripPadding(RemoveWhitespace(data))
  {
    var d := RemoveWhitespace(data);
    if |d| % 4 == 0 then StripPadding(d) else d
  }

  /** `atob(data)`: fails with `InvalidCharacterError` exactly when the cleaned input
      leaves one character in its last group or holds a character outside the
      alphabet; otherwise gives the bytes of its sextets, three for every four
      characters and one fewer than the characters of a final partial group. */
  function Atob(data: string): (r: Result<string>)
    ensures var e := Cleaned(data);
            (r.Err? <==> |e| % 4 == 1 || exists i :: 0 <= i < |e| && !IsAlphabetChar(e[i])) &&
            (r.Err? ==> r.error == "InvalidCharacterError") &&
            (r.Ok? ==> IsLatin1(r.value) && r.value == BytesOf(Values(e)) &&
                       |r.value| == DecodedLength(|e|))
  {
    var e := Cleaned(data);
    if |e| % 4 == 1 || !IsAlphabetString(e) then Err("InvalidCharacterError")
    else Ok(DecodeSextets(e))
  }

  // ---------------------------------------------------------------------------
  // Round trip

  lemma ByteGroupRoundTrip(a: int, b: int, c: int)
    requires 0 <= a < 256 && 0 <= b < 256 && 0 <= c < 256
    ensures (a / 4) * 4 + ((a % 4) * 16 + b / 16) / 16 == a
    ensures (((a % 4) * 16 + b / 16) % 16) * 16 + ((b % 16) * 4 + c / 64) / 4 == b
    ensures (((b % 16) * 4 + c / 64) % 4) * 64 + c % 64 == c
  {
  }

  /** The values of the characters of a run of sextets are the sextets. */
  lemma ValuesOfChars(v: seq<nat>)
    requires AreSextets(v)
    ensures Values(Chars(v)) == v
  {
    forall i | 0 <= i < |v|
      ensures Values(Chars(v))[i] == v[i]
    {
      SextetRoundTrip(v[i]);
    }
  }

  /** Regrouping the sextets of the bytes gives the bytes back. */
  lemma {:induction false} BytesOfSextetsOf(s: string)
    requires IsLatin1(s)
    ensures BytesOf(SextetsOf(s)) == s
    decreases |s|
  {
    if |s| == 1 {
      ByteGroupRoundTrip(s[0] as int, 0, 0);
    } else if |s| == 2 {
      ByteGroupRoundTrip(s[0] as int, s[1] as int, 0);
      assert s == [s[0], s[1]];
    } else if |s| >= 3 {
      assert IsLatin1(s[3..]);
      BytesOfSextetsOf(s[3..]);
      BytesOfFirstGroup(s);
    }
  }

  /** The induction step: the sextets of a full leading group give its three bytes. */
  lemma BytesOfFirstGroup(s: string)
    requires IsLatin1(s) && |s| >= 3
    requires BytesOf(SextetsOf(s[3..])) == s[3..]
    ensures BytesOf(SextetsOf(s)) == s
  {
    var g, w := GroupSextets(s[0], s[1], s[2]), SextetsOf(s[3..]);
    GroupBytes(s[0], s[1], s[2]);
    BytesOfGroup(g, w);
    calc {
      BytesOf(SextetsOf(s));
      BytesOf(g + w);
      [s[0], s[1], s[2]] + BytesOf(w);
      s;
    }
  }

  /** The three bytes of a group come back from its four sextets. */
  lemma GroupBytes(a: char, b: char, c: char)
    requires a as int < 256 && b as int < 256 && c as int < 256
    ensures var g := GroupSextets(a, b, c);
            Byte0(g[0], g[1]) == a && Byte1(g[1], g[2]) == b && Byte2(g[2], g[3]) == c
  {
    ByteGroupRoundTrip(a as int, b as int, c as int);
  }

  /** Four leading sextets decode to three bytes ahead of the rest. */
  lemma BytesOfGroup(g: seq<nat>, w: seq<nat>)
    requires |g| == 4 && AreSextets(g) && AreSextets(w)
    ensures AreSextets(g + w)
    ensures BytesOf(g + w) == [Byte0(g[0], g[1]), Byte1(g[1], g[2]), Byte2(g[2], g[3])] + BytesOf(w)
  {
    assert (g + w)[4..] == w;
  }

  lemma DecodeUnpadded(s: string)
    requires IsLatin1(s)
    ensures DecodeSextets(Unpadded(s)) == s
  {
    ValuesOfChars(SextetsOf(s));
    BytesOfSextetsOf(s);
  }

  lemma {:induction false} RemoveWhitespaceKeeps(s: string)
    requires forall i :: 0 <= i < |s| ==> !IsAsciiWhitespace(s[i])
    ensures RemoveWhitespace(s) == s
  {
    if s != [] {
      RemoveWhitespaceKeeps(s[1..]);
      assert s == [s[0]] + s[1..];
    }
  }

  /** The output of `btoa` comes in whole groups of four characters. */
  lemma BtoaLength(s: string)
    requires IsLatin1(s)
    ensures |Btoa(s).value| % 4 == 0
  {
    var u := Unpadded(s);
    EncodedLengthResidue(|s|);
    PaddingCompletes(|u|, |Padding(|s|)|);
  }

  lemma PaddingCompletes(m: nat, p: nat)
    requires m % 4 + p == 4 || (m % 4 == 0 && p == 0)
    ensures (m + p) % 4 == 0
  {
  }

  /** Removing the padding of `btoa`'s output leaves the alphabet characters. */
  lemma StripPaddingOfEncoding(s: string)
    requires IsLatin1(s)
    ensures StripPadding(Unpadded(s) + Padding(|s|)) == Unpadded(s)
  {
    var u := Unpadded(s);
    var e := u + Padding(|s|);
    EncodedLengthResidue(|s|);
    if |s| % 3 == 0 {
      assert e == u;
      if |u| >= 1 {
        assert IsAlphabetChar(u[|u| - 1]);
      }
    } else if |s| % 3 == 1 {
      assert e[..|e| - 2] == u;
    } else {
      assert |u| >= 1;
      assert e[|e| - 2] == u[|u| - 1] && IsAlphabetChar(u[|u| - 1]);
      assert e[..|e| - 1] == u;
    }
  }

  /** `atob(btoa(t))` gives back every token `btoa` accepts. */
  lemma DecodeEncode(s: string)
    requires IsLatin1(s)
    ensures Btoa(s).Ok? && Atob(Btoa(s).value) == Ok(s)
  {
    var u := Unpadded(s);
    var e := Btoa(s).value;
    assert e == u + Padding(|s|);
    assert forall i :: 0 <= i < |e| ==> IsAlphabetChar(e[i]) || e[i] == '=';
    RemoveWhitespaceKeeps(e);
    BtoaLength(s);
    StripPaddingOfEncoding(s);
    EncodedLengthResidue(|s|);
    DecodeUnpadded(s);
  }
}
