/**
 The base64url pair of the push helpers. `btoa` is base64 of RFC 4648 section 4 with padding, `atob`
 the forgiving decoder of browsers; URL-safe text is section 5 of RFC 4648. A string from `atob` has
 one character per byte, so it is modelled by its bytes.
 */
module Base64Url {
  import opened Options

  type Byte = x: int | 0 <= x < 256
  type Sextet = x: int | 0 <= x < 64

  // ------------------------------------------------------------ the alphabet

  function CharOf(x: Sextet): char {
    if x < 26 then 'A' + x as char
    else if x < 52 then 'a' + (x - 26) as char
    else if x < 62 then '0' + (x - 52) as char
    else if x == 62 then '+' else '/'
  }

  function SextetOf(c: char): Option<Sextet> {
    if 'A' <= c <= 'Z' then Some(c as int - 'A' as int)
    else if 'a' <= c <= 'z' then Some(c as int - 'a' as int + 26)
    else if '0' <= c <= '9' then Some(c as int - '0' as int + 52)
    else if c == '+' then Some(62)
    else if c == '/' then Some(63) else None
  }

  lemma AlphabetRoundTrip(x: Sextet, c: char)
    ensures SextetOf(CharOf(x)) == Some(x)
    ensures SextetOf(c).Some? ==> CharOf(SextetOf(c).value) == c
    ensures CharOf(x) != '='
  {
  }

  // ------------------------------------------------------------ bytes and sextets

  /** Three bytes as four groups of six bits. */
  function SextetsOf(a: Byte, b: Byte, c: Byte): (group: seq<Sextet>)
    ensures |group| == 4
  {
    [a / 4, a % 4 * 16 + b / 16, b % 16 * 4 + c / 64, c % 64]
  }

  /** A short last group is filled up with zero bytes; the sextets made of filling alone are left out. */
  function ToSextets(bs: seq<Byte>): seq<Sextet> {
    if |bs| == 0 then []
    else if |bs| == 1 then SextetsOf(bs[0], 0, 0)[..2]
    else if |bs| == 2 then SextetsOf(bs[0], bs[1], 0)[..3]
    else SextetsOf(bs[0], bs[1], bs[2]) + ToSextets(bs[3..])
  }

  function BytesOf(a: Sextet, b: Sextet, c: Sextet, d: Sextet): (group: seq<Byte>)
    ensures |group| == 3
  {
    [a * 4 + b / 16, b % 16 * 16 + c / 4, c % 4 * 64 + d]
  }

  /** Leftover bits are dropped; a single leftover sextet stands for nothing. */
  function ToBytes(xs: seq<Sextet>): seq<Byte> {
    if |xs| < 2 then []
    else if |xs| == 2 then BytesOf(xs[0], xs[1], 0, 0)[..1]
    else if |xs| == 3 then BytesOf(xs[0], xs[1], xs[2], 0)[..2]
    else BytesOf(xs[0], xs[1], xs[2], xs[3]) + ToBytes(xs[4..])
  }

  /** No single leftover sextet, and no bits left over in the last one. */
  predicate Whole(xs: seq<Sextet>) {
    && |xs| % 4 != 1
    && (|xs| % 4 == 2 ==> xs[|xs| - 1] % 16 == 0)
    && (|xs| % 4 == 3 ==> xs[|xs| - 1] % 4 == 0)
  }

  lemma GroupRoundTrip(a: Byte, b: Byte, c: Byte)
    ensures var g := SextetsOf(a, b, c); BytesOf(g[0], g[1], g[2], g[3]) == [a, b, c]
  {
  }

  lemma ShortGroups(a: Byte, b: Byte)
    ensures var g := SextetsOf(a, 0, 0); g[1] % 16 == 0 && BytesOf(g[0], g[1], 0, 0)[0] == a
    ensures var g := SextetsOf(a, b, 0); g[2] % 4 == 0 && BytesOf(g[0], g[1], g[2], 0)[..2] == [a, b]
  {
  }

  lemma Joined4(a: int, r: int)
    requires 0 <= r < 4
    ensures (a * 4 + r) / 4 == a && (a * 4 + r) % 4 == r
  {
  }

  lemma Joined16(a: int, r: int)
    requires 0 <= r < 16
    ensures (a * 16 + r) / 16 == a && (a * 16 + r) % 16 == r
  {
  }

  lemma Joined64(a: int, r: int)
    requires 0 <= r < 64
    ensures (a * 64 + r) / 64 == a && (a * 64 + r) % 64 == r
  {
  }

  lemma GroupOfSextets(a: Sextet, b: Sextet, c: Sextet, d: Sextet)
    ensures var g := BytesOf(a, b, c, d); SextetsOf(g[0], g[1], g[2]) == [a, b, c, d]
  {
    Joined4(a, b / 16);
    Joined16(b % 16, c / 4);
    Joined64(c % 4, d);
  }

  lemma ShortGroupsOfSextets(a: Sextet, b: Sextet, c: Sextet)
    ensures b % 16 == 0 ==> SextetsOf(BytesOf(a, b, 0, 0)[0], 0, 0)[..2] == [a, b]
    ensures var g := BytesOf(a, b, c, 0); c % 4 == 0 ==> SextetsOf(g[0], g[1], 0)[..3] == [a, b, c]
  {
    Joined4(a, b / 16);
    Joined16(b % 16, c / 4);
  }

  lemma BytesAfterGroup(g: seq<Sextet>, rest: seq<Sextet>)
    requires |g| == 4
    ensures ToBytes(g + rest) == BytesOf(g[0], g[1], g[2], g[3]) + ToBytes(rest)
    ensures Whole(rest) ==> Whole(g + rest)
  {
    assert (g + rest)[4..] == rest;
  }

  lemma SextetsAfterGroup(g: seq<Byte>, rest: seq<Byte>)
    requires |g| == 3
    ensures ToSextets(g + rest) == SextetsOf(g[0], g[1], g[2]) + ToSextets(rest)
  {
    assert (g + rest)[3..] == rest;
  }

  lemma {:induction false} BytesRoundTrip(bs: seq<Byte>)
    ensures ToBytes(ToSextets(bs)) == bs && Whole(ToSextets(bs))
    decreases |bs|
  {
    if |bs| >= 3 {
      BytesRoundTrip(bs[3..]);
      BytesAfterGroup(SextetsOf(bs[0], bs[1], bs[2]), ToSextets(bs[3..]));
      GroupRoundTrip(bs[0], bs[1], bs[2]);
    } else if |bs| == 2 {
      ShortGroups(bs[0], bs[1]);
    } else if |bs| == 1 {
      ShortGroups(bs[0], 0);
    }
  }

  lemma ThreeSextetsRoundTrip(xs: seq<Sextet>)
    requires |xs| == 3 && xs[2] % 4 == 0
    ensures ToSextets(ToBytes(xs)) == xs
  {
    var g, bs := BytesOf(xs[0], xs[1], xs[2], 0), ToBytes(xs);
    assert bs == [g[0], g[1]];
    ShortGroupsOfSextets(xs[0], xs[1], xs[2]);
    assert ToSextets(bs) == SextetsOf(g[0], g[1], 0)[..3] == [xs[0], xs[1], xs[2]];
  }

  lemma TwoSextetsRoundTrip(xs: seq<Sextet>)
    requires |xs| == 2 && xs[1] % 16 == 0
    ensures ToSextets(ToBytes(xs)) == xs
  {
    var g, bs := BytesOf(xs[0], xs[1], 0, 0), ToBytes(xs);
    assert bs == [g[0]];
    ShortGroupsOfSextets(xs[0], xs[1], 0);
    assert ToSextets(bs) == SextetsOf(g[0], 0, 0)[..2] == [xs[0], xs[1]];
  }

  lemma {:induction false} SextetsRoundTrip(xs: seq<Sextet>)
    requires Whole(xs)
    ensures ToSextets(ToBytes(xs)) == xs
    decreases |xs|
  {
    if |xs| == 0 {
    } else if |xs| == 2 {
      TwoSextetsRoundTrip(xs);
    } else if |xs| == 3 {
      ThreeSextetsRoundTrip(xs);
    } else {
      SextetsRoundTrip(xs[4..]);
      SextetsAfterGroup(BytesOf(xs[0], xs[1], xs[2], xs[3]), ToBytes(xs[4..]));
      GroupOfSextets(xs[0], xs[1], xs[2], xs[3]);
      assert xs == [xs[0], xs[1], xs[2], xs[3]] + xs[4..];
    }
  }

  // ------------------------------------------------------------ the encoding of RFC 4648, stated apart from the code

  const UPPER := "ABCDEFGHIJKLMNOPQRSTUVWXYZ"
  const LOWER := "abcdefghijklmnopqrstuvwxyz"

  lemma UpperTable(x: int)
    requires 0 <= x < 26
    ensures 'A' + x as char == UPPER[x]
  {
  }

  lemma LowerTable(x: int)
    requires 0 <= x < 26
    ensures 'a' + x as char == LOWER[x]
  {
  }

  /** The characters of section 4 in the order of their values. */
  lemma AlphabetTable(x: Sextet)
    ensures CharOf(x) == (UPPER + LOWER + "0123456789+/")[x]
  {
    if x < 26 {
      UpperTable(x);
    } else if x < 52 {
      LowerTable(x - 26);
    }
  }

  /** The same three bytes read as one number are the four sextets read as one number. */
  lemma GroupIsOneNumber(a: Byte, b: Byte, c: Byte)
    ensures var g := SextetsOf(a, b, c); ((g[0] as int * 64 + g[1]) * 64 + g[2]) * 64 + g[3] == (a as int * 256 + b) * 256 + c
  {
  }

  /** Short last groups: one byte and four zero bits, two bytes and two zero bits. */
  lemma ShortGroupsAreNumbers(a: Byte, b: Byte)
    ensures var xs := ToSextets([a]); |xs| == 2 && xs[0] as int * 64 + xs[1] == a as int * 16
    ensures var xs := ToSextets([a, b]); |xs| == 3 && (xs[0] as int * 64 + xs[1]) * 64 + xs[2] == (a as int * 256 + b) * 4
  {
  }

  /** Three bytes take four characters, one takes two and two take three. */
  lemma {:induction false} TextLength(bs: seq<Byte>)
    ensures |ToSextets(bs)| == (4 * |bs| + 2) / 3
    decreases |bs|
  {
    if |bs| < 3 {
    } else {
      TextLength(bs[3..]);
    }
  }

  // ------------------------------------------------------------ btoa and atob

  function Padding(n: nat): string {
    seq((4 - n % 4) % 4, _ => '=')
  }

  function Chars(xs: seq<Sextet>): string {
    seq(|xs|, i requires 0 <= i < |xs| => CharOf(xs[i]))
  }

  function Btoa(binary: seq<Byte>): string {
    Chars(ToSextets(binary)) + Padding(|ToSextets(binary)|)
  }

  predicate IsSpace(c: char) {
    c in {'\t', '\n', '\r', ' '} || c as int == 12
  }

  function WithoutSpaces(s: string): string {
    if s == [] then [] else WithoutSpaces(s[..|s| - 1]) + (if IsSpace(s[|s| - 1]) then [] else [s[|s| - 1]])
  }

  /** Removes one or two padding characters. */
  function Unpadded(s: string): string {
    if |s| >= 1 && s[|s| - 1] == '=' then
      if |s| >= 2 && s[|s| - 2] == '=' then s[..|s| - 2] else s[..|s| - 1]
    else s
  }

  predicate InAlphabet(s: string) {
    forall i :: 0 <= i < |s| ==> SextetOf(s[i]).Some?
  }

  function Sextets(s: string): seq<Sextet>
    requires InAlphabet(s)
  {
    seq(|s|, i requires 0 <= i < |s| => SextetOf(s[i]).value)
  }

  function Atob(s: string): Option<seq<Byte>> {
    var t := WithoutSpaces(s);
    var u := if |t| % 4 == 0 then Unpadded(t) else t;
    if |u| % 4 == 1 || !InAlphabet(u) then None else Some(ToBytes(Sextets(u)))
  }

  // ------------------------------------------------------------ the URL-safe pair

  function ReplaceAll(s: string, a: char, b: char): string {
    seq(|s|, i requires 0 <= i < |s| => if s[i] == a then b else s[i])
  }

  function ToUrl(s: string): string {
    ReplaceAll(ReplaceAll(s, '+', '-'), '/', '_')
  }

  function FromUrl(s: string): string {
    ReplaceAll(ReplaceAll(s, '-', '+'), '_', '/')
  }

  function WithoutTrailingEquals(s: string): string {
    if s != [] && s[|s| - 1] == '=' then WithoutTrailingEquals(s[..|s| - 1]) else s
  }

  function Encode(bs: seq<Byte>): string {
    WithoutTrailingEquals(ToUrl(Btoa(bs)))
  }

  function Decode(s: string): Option<seq<Byte>> {
    Atob(FromUrl(s + Padding(|s|)))
  }

  /** The null buffer encodes to nothing; otherwise the bytes become the characters `btoa` reads. */
  method ArrayBufferToBase64Url(buffer: Option<seq<Byte>>) returns (text: string)
    ensures text == if buffer.Some? then Encode(buffer.value) else ""
  {
    if buffer.None? {
      return "";
    }
    var binary: seq<Byte> := [];
    for i := 0 to |buffer.value|
      invariant binary == buffer.value[..i]
    {
      binary := binary + [buffer.value[i]];
    }
    assert binary == buffer.value;
    text := Btoa(binary);
    text := ReplaceAll(text, '+', '-');
    text := ReplaceAll(text, '/', '_');
    text := WithoutTrailingEquals(text);
  }

  /** Fills a new array by index; a text `atob` rejects has no array. */
  method UrlBase64ToUint8Array(text: string) returns (bytes: array?<Byte>)
    ensures if Decode(text).None? then bytes == null else bytes != null && fresh(bytes) && bytes[..] == Decode(text).value
  {
    var padding := Padding(|text|);
    var base64 := ReplaceAll(text + padding, '-', '+');
    base64 := ReplaceAll(base64, '_', '/');
    var raw := Atob(base64);
    if raw.None? {
      return null;
    }
    bytes := FilledArray(raw.value);
  }

  method FilledArray(raw: seq<Byte>) returns (output: array<Byte>)
    ensures fresh(output) && output[..] == raw
  {
    output := new Byte[|raw|](_ => 0);
    for i := 0 to |raw|
      invariant output[..i] == raw[..i]
    {
      output[i] := raw[i];
    }
  }

  // ------------------------------------------------------------ round trips

  function UrlChars(xs: seq<Sextet>): string {
    ToUrl(Chars(xs))
  }

  lemma {:induction false} EqualsAreStripped(s: string, n: nat)
    requires s == [] || s[|s| - 1] != '='
    ensures WithoutTrailingEquals(s + seq(n, _ => '=')) == s
  {
    var padded := s + seq(n, _ => '=');
    if n == 0 {
      assert padded == s;
    } else {
      EqualsAreStripped(s, n - 1);
      assert padded[..|padded| - 1] == s + seq(n - 1, _ => '=');
    }
  }

  /** Encoding is the URL-safe characters of the sextets. */
  lemma EncodeIsUrlChars(bs: seq<Byte>)
    ensures Encode(bs) == UrlChars(ToSextets(bs))
  {
    var xs := ToSextets(bs);
    var n := (4 - |xs| % 4) % 4;
    assert ToUrl(Btoa(bs)) == UrlChars(xs) + seq(n, _ => '=');
    EqualsAreStripped(UrlChars(xs), n);
  }

  lemma {:induction false} NoSpaces(s: string)
    requires forall i :: 0 <= i < |s| ==> !IsSpace(s[i])
    ensures WithoutSpaces(s) == s
  {
    if s == [] {
    } else {
      NoSpaces(s[..|s| - 1]);
    }
  }

  lemma CharsOfSextets(xs: seq<Sextet>)
    ensures InAlphabet(Chars(xs)) && Sextets(Chars(xs)) == xs
    ensures forall i :: 0 <= i < |xs| ==> !IsSpace(Chars(xs)[i]) && Chars(xs)[i] != '='
    ensures FromUrl(UrlChars(xs)) == Chars(xs)
  {
    forall i | 0 <= i < |xs|
      ensures SextetOf(Chars(xs)[i]) == Some(xs[i]) && !IsSpace(Chars(xs)[i]) && Chars(xs)[i] != '='
      ensures FromUrl(UrlChars(xs))[i] == Chars(xs)[i]
    {
      AlphabetRoundTrip(xs[i], '=');
    }
  }

  lemma PaddingText(n: nat)
    requires n % 4 != 1
    ensures (n + |Padding(n)|) % 4 == 0
    ensures Padding(n) == "" || Padding(n) == "=" || Padding(n) == "=="
  {
  }

  lemma UnpaddedOf(text: string, padding: string)
    requires (text == [] || text[|text| - 1] != '=') && (padding == "" || padding == "=" || padding == "==")
    ensures Unpadded(text + padding) == text
  {
    assert (text + padding)[..|text|] == text;
  }

  lemma PaddingComesOff(text: string)
    requires |text| % 4 != 1 && (text == [] || text[|text| - 1] != '=')
    ensures var padded := text + Padding(|text|); |padded| % 4 == 0 && Unpadded(padded) == text
  {
    PaddingText(|text|);
    UnpaddedOf(text, Padding(|text|));
  }

  lemma AtobOfPadded(xs: seq<Sextet>)
    requires |xs| % 4 != 1
    ensures Atob(Chars(xs) + Padding(|xs|)) == Some(ToBytes(xs))
  {
    CharsOfSextets(xs);
    NoSpaces(Chars(xs) + Padding(|xs|));
    PaddingComesOff(Chars(xs));
  }

  lemma PaddingSurvives(text: string, padding: string)
    requires forall i :: 0 <= i < |padding| ==> padding[i] == '='
    ensures FromUrl(text + padding) == FromUrl(text) + padding
  {
  }

  lemma DecodeUrlChars(xs: seq<Sextet>)
    requires |xs| % 4 != 1
    ensures Decode(UrlChars(xs)) == Some(ToBytes(xs))
  {
    CharsOfSextets(xs);
    AtobOfPadded(xs);
    PaddingSurvives(UrlChars(xs), Padding(|xs|));
  }

  /** Decoding the encoding of any bytes gives the bytes back. */
  lemma DecodeOfEncode(bs: seq<Byte>)
    ensures Decode(Encode(bs)) == Some(bs)
  {
    BytesRoundTrip(bs);
    EncodeIsUrlChars(bs);
    DecodeUrlChars(ToSextets(bs));
  }

  /** Unpadded text of the URL-safe alphabet whose last character leaves no bits over. */
  predicate Canonical(s: string) {
    && InAlphabet(FromUrl(s)) && (forall i :: 0 <= i < |s| ==> s[i] != '+' && s[i] != '/')
    && Whole(Sextets(FromUrl(s)))
  }

  lemma CanonicalIsUrlChars(s: string)
    requires Canonical(s)
    ensures s == UrlChars(Sextets(FromUrl(s)))
  {
    var xs := Sextets(FromUrl(s));
    forall i | 0 <= i < |s|
      ensures s[i] == UrlChars(xs)[i]
    {
      AlphabetRoundTrip(xs[i], FromUrl(s)[i]);
    }
  }

  lemma UrlCharsAreCanonical(xs: seq<Sextet>)
    requires Whole(xs)
    ensures Canonical(UrlChars(xs))
  {
    var s := UrlChars(xs);
    forall i | 0 <= i < |xs|
      ensures SextetOf(FromUrl(s)[i]) == Some(xs[i]) && s[i] != '+' && s[i] != '/'
    {
      AlphabetRoundTrip(xs[i], '=');
    }
    assert Sextets(FromUrl(s)) == xs;
  }

  /** Re-encoding what a text decodes to gives the text back exactly for canonical texts. */
  lemma EncodeOfDecodeExactly(s: string)
    ensures Decode(s).Some? && Encode(Decode(s).value) == s <==> Canonical(s)
  {
    if Canonical(s) {
      var xs := Sextets(FromUrl(s));
      CanonicalIsUrlChars(s);
      DecodeUrlChars(xs);
      SextetsRoundTrip(xs);
      EncodeIsUrlChars(ToBytes(xs));
    }
    if Decode(s).Some? && Encode(Decode(s).value) == s {
      var bs := Decode(s).value;
      EncodeIsUrlChars(bs);
      BytesRoundTrip(bs);
      UrlCharsAreCanonical(ToSextets(bs));
    }
  }

  lemma BrokenTextsChange(xs: seq<Sextet>)
    requires |xs| % 4 != 1 && !Whole(xs)
    ensures Decode(UrlChars(xs)).Some? && Encode(Decode(UrlChars(xs)).value) != UrlChars(xs)
  {
    CharsOfSextets(xs);
    DecodeUrlChars(xs);
    EncodeOfDecodeExactly(UrlChars(xs));
  }

  /** Leftover bits that are not zero get lost: the text decodes to one zero byte, whose own text is another. */
  lemma LeftoverBitsAreLost()
    ensures Decode("AB").Some? && Encode(Decode("AB").value) != "AB"
  {
    var xs: seq<Sextet> := [0, 1];
    ShortText(xs);
    BrokenTextsChange(xs);
  }

  lemma ShortText(xs: seq<Sextet>)
    requires |xs| == 2 && xs[0] == 0 && xs[1] == 1
    ensures UrlChars(xs) == "AB" && !Whole(xs)
  {
    var text := UrlChars(xs);
    assert |text| == 2 && text[0] == 'A' && text[1] == 'B';
  }

  /** The characters of section 5 in the order of their values. */
  lemma UrlAlphabetTable(xs: seq<Sextet>, i: nat)
    requires i < |xs|
    ensures |UrlChars(xs)| == |xs|
    ensures UrlChars(xs)[i] == (UPPER + LOWER + "0123456789-_")[xs[i]]
  {
    AlphabetTable(xs[i]);
  }

  /** A letter, a digit, or one of the two characters in which the alphabets of sections 4 and 5 differ. */
  predicate IsTextChar(c: char) {
    'A' <= c <= 'Z' || 'a' <= c <= 'z' || '0' <= c <= '9' || c in {'+', '/', '-', '_'}
  }

  lemma CharsFromUrl(s: string)
    ensures InAlphabet(FromUrl(s)) <==> forall i :: 0 <= i < |s| ==> IsTextChar(s[i])
    ensures forall i :: 0 <= i < |s| && !IsSpace(s[i]) && s[i] != '=' ==> !IsSpace(FromUrl(s)[i]) && FromUrl(s)[i] != '='
  {
    forall i | 0 <= i < |s|
      ensures SextetOf(FromUrl(s)[i]).Some? <==> IsTextChar(s[i])
      ensures !IsSpace(s[i]) && s[i] != '=' ==> !IsSpace(FromUrl(s)[i]) && FromUrl(s)[i] != '='
    {
      assert FromUrl(s)[i] == if s[i] == '-' then '+' else if s[i] == '_' then '/' else s[i];
    }
  }

  lemma OddPaddingStays(text: string)
    requires |text| % 4 == 1 && text[|text| - 1] != '='
    ensures Atob(text + Padding(|text|)) == None || exists i :: 0 <= i < |text| && IsSpace(text[i])
  {
    var padded := text + "===";
    assert Padding(|text|) == "===";
    if forall i :: 0 <= i < |text| ==> !IsSpace(text[i]) {
      NoSpaces(padded);
      var rest := Unpadded(padded);
      assert rest == text + "=" && rest[|text|] == '=';
    }
  }

  /**
   Of texts without white space and padding, those with a stray character or one character too many are
   rejected, and no others.
   */
  lemma DecodeRejectsExactly(s: string)
    requires forall i :: 0 <= i < |s| ==> !IsSpace(s[i]) && s[i] != '='
    ensures Decode(s) == None <==> |s| % 4 == 1 || exists i :: 0 <= i < |s| && !IsTextChar(s[i])
  {
    var text := FromUrl(s);
    CharsFromUrl(s);
    PaddingSurvives(s, Padding(|s|));
    if |s| % 4 == 1 {
      OddPaddingStays(text);
    } else {
      PaddingComesOff(text);
      NoSpaces(text + Padding(|s|));
    }
  }
}
