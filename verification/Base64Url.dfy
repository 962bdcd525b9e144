/** `base64url_encode` and `base64url_decode` (`backend/src/auth/crypto.cpp`) over the block
    coder of section 4 of RFC 4648 with the alphabet of its section 5. */
module Base64Url {
  import opened Bits
  import opened Text

  // ---------------------------------------------------------------------------------
  // Alphabets
  // ---------------------------------------------------------------------------------

  function StdLetter(d: Sextet): char {
    if d < 26 then ('A' as int + d) as char
    else if d < 52 then ('a' as int + d - 26) as char
    else if d < 62 then ('0' as int + d - 52) as char
    else if d == 62 then '+'
    else '/'
  }

  function UrlLetter(d: Sextet): char {
    if d == 62 then '-' else if d == 63 then '_' else StdLetter(d)
  }

  /** Table 2 of section 5 of RFC 4648: three runs of letters and digits, each in order, and the two
      characters that make it safe in a url. */
  lemma UrlLettersInOrder()
    ensures UrlLetter(0) == 'A' && UrlLetter(25) == 'Z' && UrlLetter(26) == 'a' && UrlLetter(51) == 'z'
    ensures UrlLetter(52) == '0' && UrlLetter(61) == '9' && UrlLetter(62) == '-' && UrlLetter(63) == '_'
    ensures forall d: Sextet | d < 61 && d !in {25, 51} :: UrlLetter(d + 1) as int == UrlLetter(d) as int + 1
  {
  }

  /** The value of a character of the standard alphabet; padding counts as zero bits. */
  function StdValue(c: char): Option<Sextet> {
    if 'A' <= c <= 'Z' then Some(c as int - 'A' as int)
    else if 'a' <= c <= 'z' then Some(c as int - 'a' as int + 26)
    else if '0' <= c <= '9' then Some(c as int - '0' as int + 52)
    else if c == '+' then Some(62)
    else if c == '/' then Some(63)
    else if c == '=' then Some(0)
    else None
  }

  predicate IsUrlChar(c: char) {
    'A' <= c <= 'Z' || 'a' <= c <= 'z' || '0' <= c <= '9' || c == '-' || c == '_'
  }

  function ToUrl(c: char): char {
    if c == '+' then '-' else if c == '/' then '_' else c
  }

  function ToStd(c: char): char {
    if c == '-' then '+' else if c == '_' then '/' else c
  }

  function Swap(s: string, f: char -> char): string {
    seq(|s|, i requires 0 <= i < |s| => f(s[i]))
  }

  // ---------------------------------------------------------------------------------
  // Three bytes as four sextets
  // ---------------------------------------------------------------------------------

  function S0(x: Byte): Sextet { x / 4 }
  function S1(x: Byte, y: Byte): Sextet { x % 4 * 16 + y / 16 }
  function S2(y: Byte, z: Byte): Sextet { y % 16 * 4 + z / 64 }
  function S3(z: Byte): Sextet { z % 64 }

  function O0(a: Sextet, b: Sextet): Byte { a * 4 + b / 16 }
  function O1(b: Sextet, c: Sextet): Byte { b % 16 * 16 + c / 4 }
  function O2(c: Sextet, d: Sextet): Byte { c % 4 * 64 + d }

  lemma GroupBytes(x: Byte, y: Byte, z: Byte)
    ensures O0(S0(x), S1(x, y)) == x && O1(S1(x, y), S2(y, z)) == y && O2(S2(y, z), S3(z)) == z
  {
  }

  lemma GroupSextets(a: Sextet, b: Sextet, c: Sextet, d: Sextet)
    ensures S0(O0(a, b)) == a && S1(O0(a, b), O1(b, c)) == b && S2(O1(b, c), O2(c, d)) == c && S3(O2(c, d)) == d
    ensures S1(O0(a, b), 0) == b <==> b % 16 == 0
    ensures S2(O1(b, c), 0) == c <==> c % 4 == 0
  {
  }

  // ---------------------------------------------------------------------------------
  // Block coding
  // ---------------------------------------------------------------------------------

  /** The block encoder: three bytes to four letters, the last group padded. */
  function EncodeBlock(b: seq<Byte>): string {
    if b == [] then ""
    else if |b| == 1 then [StdLetter(S0(b[0])), StdLetter(S1(b[0], 0)), '=', '=']
    else if |b| == 2 then [StdLetter(S0(b[0])), StdLetter(S1(b[0], b[1])), StdLetter(S2(b[1], 0)), '=']
    else
      [StdLetter(S0(b[0])), StdLetter(S1(b[0], b[1])), StdLetter(S2(b[1], b[2])), StdLetter(S3(b[2]))] +
      EncodeBlock(b[3..])
  }

  /** The block decoder: four characters to three bytes, whatever padding they hold. */
  function DecodeBlock(s: string): Option<seq<Byte>>
    requires |s| % 4 == 0
  {
    if s == "" then Some([])
    else
      match (StdValue(s[0]), StdValue(s[1]), StdValue(s[2]), StdValue(s[3]))
      case (Some(a), Some(b), Some(c), Some(d)) =>
        (match DecodeBlock(s[4..])
         case Some(rest) => Some([O0(a, b), O1(b, c), O2(c, d)] + rest)
         case None => None)
      case _ => None
  }

  // ---------------------------------------------------------------------------------
  // The two functions as bit regrouping
  // ---------------------------------------------------------------------------------

  /** The bytes cut into groups of six bits, the last group filled up with zero bits. */
  function Sextets(b: seq<Byte>): seq<Sextet> {
    if b == [] then []
    else if |b| == 1 then [S0(b[0]), S1(b[0], 0)]
    else if |b| == 2 then [S0(b[0]), S1(b[0], b[1]), S2(b[1], 0)]
    else [S0(b[0]), S1(b[0], b[1]), S2(b[1], b[2]), S3(b[2])] + Sextets(b[3..])
  }

  function Encoded(b: seq<Byte>): string {
    var d := Sextets(b);
    seq(|d|, i requires 0 <= i < |d| => UrlLetter(d[i]))
  }

  /** The whole bytes in a sequence of sextets. */
  function Octets(d: seq<Sextet>): seq<Byte> {
    if |d| < 2 then []
    else if |d| == 2 then [O0(d[0], d[1])]
    else if |d| == 3 then [O0(d[0], d[1]), O1(d[1], d[2])]
    else [O0(d[0], d[1]), O1(d[1], d[2]), O2(d[2], d[3])] + Octets(d[4..])
  }

  function UrlValue(c: char): Sextet
    requires IsUrlChar(c)
  {
    if c == '-' then 62 else if c == '_' then 63 else StdValue(c).value
  }

  function UrlValues(s: string): seq<Sextet>
    requires forall i | 0 <= i < |s| :: IsUrlChar(s[i])
  {
    seq(|s|, i requires 0 <= i < |s| => UrlValue(s[i]))
  }

  // ---------------------------------------------------------------------------------
  // The code
  // ---------------------------------------------------------------------------------

  method SwapChars(s: string, f: char -> char) returns (out: string)
    ensures out == Swap(s, f)
  {
    out := s;
    for i := 0 to |s|
      invariant |out| == |s|
      invariant forall k | 0 <= k < |s| :: out[k] == if k < i then f(s[k]) else s[k]
    {
      out := out[i := f(out[i])];
    }
  }

  function StripPadding(s: string): (t: string)
    ensures |t| <= |s|
  {
    if s != "" && s[|s| - 1] == '=' then StripPadding(s[..|s| - 1]) else s
  }

  method Encode(input: seq<Byte>) returns (out: string)
    ensures out == Encoded(input)
  {
    if input == [] {
      return "";
    }
    out := EncodeBlock(input);
    out := SwapChars(out, ToUrl);
    ghost var padded := out;
    while out != "" && out[|out| - 1] == '='
      invariant StripPadding(out) == StripPadding(padded)
      decreases |out|
    {
      out := out[..|out| - 1];
    }
    StrippedBlock(input);
  }

  /** `None` is the rejected length or a rejected character. */
  function Decoded(input: string): Option<seq<Byte>> {
    var s := Swap(input, ToStd);
    if |s| % 4 == 1 then None
    else
      var padded := s + (if |s| % 4 == 2 then "==" else if |s| % 4 == 3 then "=" else "");
      match DecodeBlock(padded)
      case None => None
      case Some(out) =>
        var pads := |padded| - |StripPadding(padded)|;
        Some(if pads <= |out| then out[..|out| - pads] else [])
  }

  method Decode(input: string) returns (out: Option<seq<Byte>>)
    ensures out == Decoded(input)
  {
    hide DecodeBlock, ToStd, StripPadding;
    var padded := SwapChars(input, ToStd);
    var rest := |padded| % 4;
    if rest == 2 {
      padded := padded + "==";
    } else if rest == 3 {
      padded := padded + "=";
    } else if rest == 1 {
      return None;
    } else {
      assert padded + "" == padded;
    }
    var block := DecodeBlock(padded);
    if block.None? {
      return None;
    }
    var bytes := block.value;
    ghost var n, all := |padded|, padded;
    while padded != "" && padded[|padded| - 1] == '='
      invariant |padded| <= n && StripPadding(padded) == StripPadding(all)
      invariant bytes == if n - |padded| <= |block.value| then block.value[..|block.value| - (n - |padded|)] else []
      decreases |padded|
    {
      StripOnce(padded);
      padded := padded[..|padded| - 1];
      if bytes != [] {
        bytes := bytes[..|bytes| - 1];
      }
    }
    StripOnce(padded);
    return Some(bytes);
  }

  lemma StripOnce(s: string)
    ensures StripPadding(s) == if s != "" && s[|s| - 1] == '=' then StripPadding(s[..|s| - 1]) else s
  {
  }

  // ---------------------------------------------------------------------------------
  // Encoding
  // ---------------------------------------------------------------------------------

  function Padding(b: seq<Byte>): string {
    if |b| % 3 == 0 then "" else if |b| % 3 == 1 then "==" else "="
  }

  function StdText(d: seq<Sextet>): string {
    seq(|d|, i requires 0 <= i < |d| => StdLetter(d[i]))
  }

  lemma {:induction false} BlockIsSextets(b: seq<Byte>)
    ensures EncodeBlock(b) == StdText(Sextets(b)) + Padding(b)
  {
    hide StdLetter, S0, S1, S2, S3;
    if |b| >= 3 {
      BlockIsSextets(b[3..]);
      var head := [S0(b[0]), S1(b[0], b[1]), S2(b[1], b[2]), S3(b[2])];
      assert Sextets(b) == head + Sextets(b[3..]);
      StdTextAppend(head, Sextets(b[3..]));
    }
  }

  lemma StdTextAppend(a: seq<Sextet>, b: seq<Sextet>)
    ensures StdText(a + b) == StdText(a) + StdText(b)
  {
    hide StdLetter;
  }

  /** The block form is the url form with the letters swapped and the padding added. */
  lemma BlockForm(b: seq<Byte>)
    ensures Swap(EncodeBlock(b), ToUrl) == Encoded(b) + Padding(b)
  {
    hide Sextets, EncodeBlock;
    BlockIsSextets(b);
    var d, swapped := Sextets(b), Swap(EncodeBlock(b), ToUrl);
    forall i | 0 <= i < |d| ensures swapped[i] == Encoded(b)[i] {
      assert swapped[i] == ToUrl(EncodeBlock(b)[i]);
      assert EncodeBlock(b)[i] == StdText(d)[i] == StdLetter(d[i]);
    }
    forall i | |d| <= i < |swapped| ensures swapped[i] == Padding(b)[i - |d|] {
      assert swapped[i] == ToUrl(EncodeBlock(b)[i]);
      assert EncodeBlock(b)[i] == Padding(b)[i - |d|] == '=';
    }
  }

  lemma {:induction false} StripStops(s: string, pad: string)
    requires s == "" || s[|s| - 1] != '='
    requires forall i | 0 <= i < |pad| :: pad[i] == '='
    ensures StripPadding(s + pad) == s
  {
    if pad == "" {
      assert s + pad == s;
    } else {
      assert (s + pad)[..|s + pad| - 1] == s + pad[..|pad| - 1];
      StripStops(s, pad[..|pad| - 1]);
    }
  }

  lemma StrippedBlock(b: seq<Byte>)
    ensures StripPadding(Swap(EncodeBlock(b), ToUrl)) == Encoded(b)
  {
    BlockForm(b);
    EncodedShape(b);
    StripStops(Encoded(b), Padding(b));
  }

  /** Unpadded, in the url alphabet, with ceil(4n/3) characters: never one more than a
      multiple of four. */
  lemma {:induction false} EncodedShape(b: seq<Byte>)
    ensures forall i | 0 <= i < |Encoded(b)| :: IsUrlChar(Encoded(b)[i])
    ensures |Encoded(b)| == (4 * |b| + 2) / 3 && |Encoded(b)| % 4 != 1
    ensures UrlValues(Encoded(b)) == Sextets(b)
  {
    SextetCount(b);
  }

  lemma {:induction false} SextetCount(b: seq<Byte>)
    ensures |Sextets(b)| == (4 * |b| + 2) / 3 && |Sextets(b)| % 4 != 1
  {
    if |b| >= 3 {
      SextetCount(b[3..]);
    }
  }

  // ---------------------------------------------------------------------------------
  // A change of base
  // ---------------------------------------------------------------------------------

  /** The bytes as a number, most significant first. */
  function ByteNumber(b: seq<Byte>): nat {
    if b == [] then 0 else b[0] * Pow2(8 * (|b| - 1)) + ByteNumber(b[1..])
  }

  /** The sextets as a number, most significant first. */
  function SextetNumber(d: seq<Sextet>): nat {
    if d == [] then 0 else d[0] * Pow2(6 * (|d| - 1)) + SextetNumber(d[1..])
  }

  /** The sextets spell the number the bytes spell, shifted past the bits that fill up the last one. */
  lemma {:induction false} SextetsAreNumber(b: seq<Byte>)
    ensures var spare := 6 * |Sextets(b)| - 8 * |b|;
            && 0 <= spare <= 4
            && SextetNumber(Sextets(b)) == ByteNumber(b) * Pow2(spare)
  {
    SextetCount(b);
    if |b| >= 3 {
      SextetCount(b[3..]);
      SextetsAreNumber(b[3..]);
      OneGroup(b[0], b[1], b[2], b[3..]);
      assert b == [b[0], b[1], b[2]] + b[3..];
    } else if |b| == 2 {
      TwoBytesLeft(b[0], b[1]);
      assert b == [b[0], b[1]];
    } else if |b| == 1 {
      OneByteLeft(b[0]);
      assert b == [b[0]];
    }
  }

  lemma OneGroup(x: Byte, y: Byte, z: Byte, more: seq<Byte>)
    requires var spare := 6 * |Sextets(more)| - 8 * |more|;
             spare >= 0 && SextetNumber(Sextets(more)) == ByteNumber(more) * Pow2(spare)
    ensures var b := [x, y, z] + more;
            && 6 * |Sextets(b)| - 8 * |b| == 6 * |Sextets(more)| - 8 * |more|
            && SextetNumber(Sextets(b)) == ByteNumber(b) * Pow2(6 * |Sextets(b)| - 8 * |b|)
  {
    hide Sextets, Pow2, ByteNumber, SextetNumber, S0, S1, S2, S3;
    var rest, n, spare := Sextets(more), 8 * |more|, 6 * |Sextets(more)| - 8 * |more|;
    SextetsAppend([x, y, z], more);
    GroupNumber(x, y, z);
    FourSextets(S0(x), S1(x, y), S2(y, z), S3(z), rest);
    ThreeBytes(x, y, z, more);
    Pow2Add(n, spare);
    Shifted((x * 256 + y) * 256 + z, Pow2(n), Pow2(spare), ByteNumber(more));
  }

  lemma GroupNumber(x: Byte, y: Byte, z: Byte)
    ensures ((S0(x) * 64 + S1(x, y)) * 64 + S2(y, z)) * 64 + S3(z) == (x * 256 + y) * 256 + z
  {
  }

  lemma Shifted(group: nat, p: nat, q: nat, rest: nat)
    ensures group * (p * q) + rest * q == (group * p + rest) * q
  {
  }

  lemma OneByteLeft(x: Byte)
    ensures SextetNumber(Sextets([x])) == ByteNumber([x]) * 16 && Pow2(4) == 16
  {
    GroupNumber(x, 0, 0);
    assert Sextets([x]) == [S0(x), S1(x, 0)];
    assert Pow2(0) == 1 && Pow2(6) == 64;
    hide S0, S1, S2, S3;
    FewSextets(S0(x), S1(x, 0), 0);
    FewBytes(x, 0);
  }

  lemma TwoBytesLeft(x: Byte, y: Byte)
    ensures SextetNumber(Sextets([x, y])) == ByteNumber([x, y]) * 4 && Pow2(2) == 4
  {
    GroupNumber(x, y, 0);
    assert Sextets([x, y]) == [S0(x), S1(x, y), S2(y, 0)];
    assert Pow2(0) == 1;
    hide S0, S1, S2, S3;
    FewSextets(S0(x), S1(x, y), S2(y, 0));
    FewBytes(x, y);
  }

  lemma FewSextets(a: Sextet, b: Sextet, c: Sextet)
    ensures SextetNumber([a, b]) == a * 64 + b && SextetNumber([a, b, c]) == (a * 64 + b) * 64 + c
  {
    var none: seq<Sextet> := [];
    assert SextetNumber(none) == 0 && Pow2(0) == 1;
    hide SextetNumber, Pow2;
    PowSteps(0);
    assert [b] + none == [b] && [c] + none == [c];
    SextetCons(b, none);
    SextetCons(c, none);
    assert SextetNumber([b]) == b && SextetNumber([c]) == c;
    assert [a] + [b] == [a, b] && [b] + [c] == [b, c];
    SextetCons(a, [b]);
    SextetCons(b, [c]);
    assert [a] + [b, c] == [a, b, c];
    SextetCons(a, [b, c]);
  }

  lemma FewBytes(x: Byte, y: Byte)
    ensures ByteNumber([x]) == x && ByteNumber([x, y]) == x * 256 + y
  {
    var none: seq<Byte> := [];
    assert ByteNumber(none) == 0 && Pow2(0) == 1;
    hide ByteNumber, Pow2;
    PowSteps(0);
    ByteCons(x, none);
    ByteCons(y, none);
    ByteCons(x, [y]);
    assert [x] + none == [x] && [y] + none == [y] && [x] + [y] == [x, y];
  }

  lemma SextetCons(x: Sextet, rest: seq<Sextet>)
    ensures SextetNumber([x] + rest) == x * Pow2(6 * |rest|) + SextetNumber(rest)
  {
    assert ([x] + rest)[1..] == rest;
  }

  lemma ByteCons(x: Byte, rest: seq<Byte>)
    ensures ByteNumber([x] + rest) == x * Pow2(8 * |rest|) + ByteNumber(rest)
  {
    assert ([x] + rest)[1..] == rest;
  }

  lemma PowSteps(k: nat)
    ensures Pow2(k + 6) == 64 * Pow2(k) && Pow2(k + 12) == 64 * Pow2(k + 6) && Pow2(k + 18) == 64 * Pow2(k + 12)
    ensures Pow2(k + 8) == 256 * Pow2(k) && Pow2(k + 16) == 256 * Pow2(k + 8)
  {
    assert Pow2(6) == 64 && Pow2(8) == 256;
    hide Pow2;
    Pow2Add(k, 6);
    Pow2Add(k + 6, 6);
    Pow2Add(k + 12, 6);
    Pow2Add(k, 8);
    Pow2Add(k + 8, 8);
  }

  lemma FourSextets(a: Sextet, b: Sextet, c: Sextet, d: Sextet, rest: seq<Sextet>)
    ensures SextetNumber([a, b, c, d] + rest) ==
              (((a * 64 + b) * 64 + c) * 64 + d) * Pow2(6 * |rest|) + SextetNumber(rest)
  {
    hide Pow2, SextetNumber;
    var k := 6 * |rest|;
    PowSteps(k);
    var s1 := [d] + rest;
    var s2 := [c] + s1;
    var s3 := [b] + s2;
    SextetCons(d, rest);
    SextetCons(c, s1);
    SextetCons(b, s2);
    SextetCons(a, s3);
    assert [a, b, c, d] + rest == [a] + s3;
    assert 6 * |s1| == k + 6 && 6 * |s2| == k + 12 && 6 * |s3| == k + 18;
    Horner(a, b, c, d, 64, Pow2(k), Pow2(k + 6), Pow2(k + 12), Pow2(k + 18));
  }

  lemma ThreeBytes(x: Byte, y: Byte, z: Byte, rest: seq<Byte>)
    ensures ByteNumber([x, y, z] + rest) == ((x * 256 + y) * 256 + z) * Pow2(8 * |rest|) + ByteNumber(rest)
  {
    hide Pow2, ByteNumber;
    var k := 8 * |rest|;
    PowSteps(k);
    var s1 := [z] + rest;
    var s2 := [y] + s1;
    ByteCons(z, rest);
    ByteCons(y, s1);
    ByteCons(x, s2);
    assert [x, y, z] + rest == [x] + s2;
    assert 8 * |s1| == k + 8 && 8 * |s2| == k + 16;
    Horner(0, x, y, z, 256, Pow2(k), Pow2(k + 8), Pow2(k + 16), 256 * Pow2(k + 16));
  }

  lemma Horner(a: nat, b: nat, c: nat, d: nat, base: nat, p: nat, p1: nat, p2: nat, p3: nat)
    requires p1 == base * p && p2 == base * p1 && p3 == base * p2
    ensures a * p3 + b * p2 + c * p1 + d * p == (((a * base + b) * base + c) * base + d) * p
  {
    Move(a, base, p2);
    Move(a * base + b, base, p1);
    Move((a * base + b) * base + c, base, p);
    Join(a * base, b, p2);
    Join((a * base + b) * base, c, p1);
    Join(((a * base + b) * base + c) * base, d, p);
  }

  lemma Move(a: nat, base: nat, p: nat)
    ensures a * (base * p) == a * base * p
  {
  }

  lemma Join(a: nat, b: nat, p: nat)
    ensures a * p + b * p == (a + b) * p
  {
  }

  // ---------------------------------------------------------------------------------
  // Decoding
  // ---------------------------------------------------------------------------------

  lemma {:induction false} DecodeValues(t: string, d: seq<Sextet>)
    requires |t| == |d| && |t| % 4 == 0
    requires forall i | 0 <= i < |t| :: StdValue(t[i]) == Some(d[i])
    ensures DecodeBlock(t) == Some(Octets(d))
  {
    hide StdValue, O0, O1, O2;
    if t != "" {
      DecodeValues(t[4..], d[4..]);
    }
  }

  function Zeros(n: nat): seq<Sextet> {
    seq(n, _ => 0)
  }

  /** Dropping as many bytes as there is padding leaves exactly the whole bytes. */
  lemma {:induction false} OctetsPad(d: seq<Sextet>, n: nat)
    requires (|d| + n) % 4 == 0 && n <= 2
    ensures var out := Octets(d + Zeros(n)); |out| >= n && out[..|out| - n] == Octets(d)
  {
    hide O0, O1, O2;
    if |d| >= 4 {
      assert (d + Zeros(n))[4..] == d[4..] + Zeros(n);
      OctetsPad(d[4..], n);
    } else if |d| > 0 {
      assert (d + Zeros(n))[4..] == [];
    }
  }

  lemma DecodedOctets(s: string)
    requires forall i | 0 <= i < |s| :: IsUrlChar(s[i])
    ensures Decoded(s) == if |s| % 4 == 1 then None else Some(Octets(UrlValues(s)))
  {
    hide Octets, DecodeBlock, StripPadding;
    if |s| % 4 != 1 {
      var t := Swap(s, ToStd);
      var pad := if |s| % 4 == 2 then "==" else if |s| % 4 == 3 then "=" else "";
      var values := UrlValues(s) + Zeros(|pad|);
      forall i | 0 <= i < |t + pad| ensures StdValue((t + pad)[i]) == Some(values[i]) {
        if i < |s| {
          assert (t + pad)[i] == ToStd(s[i]) && values[i] == UrlValue(s[i]);
        } else {
          assert (t + pad)[i] == pad[i - |s|] == '=';
        }
      }
      assert s != "" ==> t[|t| - 1] == ToStd(s[|s| - 1]) != '=';
      DecodeValues(t + pad, values);
      OctetsPad(UrlValues(s), |pad|);
      StripStops(t, pad);
    }
  }

  lemma {:induction false} OctetsSextets(b: seq<Byte>)
    ensures Octets(Sextets(b)) == b
  {
    hide S0, S1, S2, S3, O0, O1, O2;
    if |b| >= 3 {
      GroupBytes(b[0], b[1], b[2]);
      OctetsSextets(b[3..]);
      assert Sextets(b)[4..] == Sextets(b[3..]);
      assert b == b[..3] + b[3..];
    } else if |b| == 2 {
      GroupBytes(b[0], b[1], 0);
    } else if |b| == 1 {
      GroupBytes(b[0], 0, 0);
    }
  }

  /** Decoding an encoding gives the bytes back, for every byte string. */
  lemma RoundTrip(b: seq<Byte>)
    ensures Decoded(Encoded(b)) == Some(b)
  {
    EncodedShape(b);
    DecodedOctets(Encoded(b));
    OctetsSextets(b);
  }

  /** The bits of the last character that no byte uses are zero. */
  predicate Canonical(s: string)
    requires forall i | 0 <= i < |s| :: IsUrlChar(s[i])
  {
    && (|s| % 4 == 2 ==> UrlValue(s[|s| - 1]) % 16 == 0)
    && (|s| % 4 == 3 ==> UrlValue(s[|s| - 1]) % 4 == 0)
  }

  lemma {:induction false} SextetsOctets(d: seq<Sextet>)
    requires |d| % 4 != 1
    ensures Sextets(Octets(d)) == d <==>
              (|d| % 4 == 2 ==> d[|d| - 1] % 16 == 0) && (|d| % 4 == 3 ==> d[|d| - 1] % 4 == 0)
  {
    if |d| >= 4 {
      hide Octets, Sextets;
      var rest := d[4..];
      assert |rest| % 4 == |d| % 4;
      assert rest != [] ==> rest[|rest| - 1] == d[|d| - 1];
      SextetsOctets(rest);
      FirstGroup(d);
      SameTail(d[..4], Sextets(Octets(rest)), rest);
      assert d[..4] + rest == d;
    } else {
      LastGroup(d);
    }
  }

  lemma SameTail<T>(head: seq<T>, a: seq<T>, b: seq<T>)
    ensures head + a == head + b <==> a == b
  {
    assert (head + a)[|head|..] == a && (head + b)[|head|..] == b;
  }

  lemma FirstGroup(d: seq<Sextet>)
    requires |d| >= 4
    ensures Sextets(Octets(d)) == d[..4] + Sextets(Octets(d[4..]))
  {
    GroupSextets(d[0], d[1], d[2], d[3]);
    hide S0, S1, S2, S3, O0, O1, O2;
    var head := [O0(d[0], d[1]), O1(d[1], d[2]), O2(d[2], d[3])];
    assert Octets(d) == head + Octets(d[4..]);
    SextetsAppend(head, Octets(d[4..]));
  }

  lemma SextetsAppend(head: seq<Byte>, rest: seq<Byte>)
    requires |head| == 3
    ensures Sextets(head + rest) ==
              [S0(head[0]), S1(head[0], head[1]), S2(head[1], head[2]), S3(head[2])] + Sextets(rest)
  {
    hide S0, S1, S2, S3;
    assert (head + rest)[3..] == rest;
  }

  lemma LastGroup(d: seq<Sextet>)
    requires |d| < 4 && |d| != 1
    ensures Sextets(Octets(d)) == d <==>
              (|d| == 2 ==> d[1] % 16 == 0) && (|d| == 3 ==> d[2] % 4 == 0)
  {
    hide S0, S1, S2, S3, O0, O1, O2;
    if |d| == 3 {
      GroupSextets(d[0], d[1], d[2], 0);
    } else if |d| == 2 {
      GroupSextets(d[0], d[1], 0, 0);
    }
  }

  lemma UrlLetterValue(d: Sextet, c: char)
    ensures IsUrlChar(UrlLetter(d)) && UrlValue(UrlLetter(d)) == d
    ensures IsUrlChar(c) ==> UrlLetter(UrlValue(c)) == c
  {
  }

  /** The other direction holds exactly for canonical text: a decodable url string is the
      encoding of what it decodes to if and only if its unused bits are zero. */
  lemma ReencodesExactly(s: string)
    requires forall i | 0 <= i < |s| :: IsUrlChar(s[i])
    requires |s| % 4 != 1
    ensures Decoded(s).Some?
    ensures Encoded(Decoded(s).value) == s <==> Canonical(s)
  {
    hide Decoded, Sextets, Octets, UrlLetter, UrlValue;
    DecodedOctets(s);
    var d := UrlValues(s);
    SextetsOctets(d);
    var e := Encoded(Octets(d));
    if Sextets(Octets(d)) == d {
      forall i | 0 <= i < |s| ensures e[i] == s[i] {
        UrlLetterValue(d[i], s[i]);
      }
    }
    if e == s {
      EncodedShape(Octets(d));
    }
  }
}
