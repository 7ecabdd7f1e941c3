/**
 Base64url without padding (sections 3.2 and 5 of RFC 4648): encoding strips the padding that
 decoding puts back. The decoder is as forgiving as the one behind Python's urlsafe_b64decode.
 */
module Base64Url {
  import opened Wrappers

  type Byte = x: int | 0 <= x < 256

  // ----- The alphabet -----

  function Digit(v: nat): char
    requires v < 64
  {
    if v < 26 then 'A' + v as char
    else if v < 52 then 'a' + (v - 26) as char
    else if v < 62 then '0' + (v - 52) as char
    else if v == 62 then '-'
    else '_'
  }

  /** Both the URL-safe characters and the ordinary two are read. */
  function Value(c: char): Option<nat> {
    if 'A' <= c <= 'Z' then Some((c - 'A') as nat)
    else if 'a' <= c <= 'z' then Some((c - 'a') as nat + 26)
    else if '0' <= c <= '9' then Some((c - '0') as nat + 52)
    else if c == '-' || c == '+' then Some(62)
    else if c == '_' || c == '/' then Some(63)
    else None
  }

  lemma DigitValue(v: nat)
    requires v < 64
    ensures Value(Digit(v)) == Some(v) && PlainChar(Digit(v))
  {
  }

  /** The alphabet is that of table 2 of RFC 4648: capitals, small letters, digits, and two more. */
  lemma DigitsAreTheAlphabet(v: nat)
    requires v < 64
    ensures v == 0 ==> Digit(v) == 'A'
    ensures v == 26 ==> Digit(v) == 'a'
    ensures v == 52 ==> Digit(v) == '0'
    ensures v == 62 ==> Digit(v) == '-'
    ensures v == 63 ==> Digit(v) == '_'
    ensures v !in {0, 26, 52, 62, 63} ==> Digit(v) as int == Digit(v - 1) as int + 1
  {
  }

  // ----- Encoding -----

  /** In groups of three bytes; the last one is padded. */
  function Padded(b: seq<Byte>): string {
    if |b| == 0 then ""
    else if |b| == 1 then [Digit(b[0] / 4), Digit(b[0] % 4 * 16)] + "=="
    else if |b| == 2 then [Digit(b[0] / 4), Digit(b[0] % 4 * 16 + b[1] / 16), Digit(b[1] % 16 * 4)] + "="
    else Group(b[0], b[1], b[2]) + Padded(b[3..])
  }

  function Group(x: Byte, y: Byte, z: Byte): string {
    [Digit(x / 4), Digit(x % 4 * 16 + y / 16), Digit(y % 16 * 4 + z / 64), Digit(z % 64)]
  }

  function StripPadding(s: string): string {
    if s != "" && s[|s| - 1] == '=' then StripPadding(s[..|s| - 1]) else s
  }

  function Encode(b: seq<Byte>): string {
    StripPadding(Padded(b))
  }

  // ----- Decoding -----

  predicate IsAscii(s: string) {
    forall i :: 0 <= i < |s| ==> s[i] < 128 as char
  }

  function Prepend(x: Byte, rest: Option<seq<Byte>>): Option<seq<Byte>> {
    if rest.None? then None else Some([x] + rest.value)
  }

  /** What can be left over after `quad` characters of a group. */
  predicate Fits(quad: nat, left: nat) {
    quad < 4 && left < (if quad == 1 then 64 else if quad == 2 then 16 else if quad == 3 then 4 else 1)
  }

  /** `quad` characters of the current group are read, `left` are the bits they leave over, and
      `pads` counts the padding since. Anything else is skipped; padding that completes a group
      ends the reading; a group left open is an error. */
  function Scan(s: string, quad: nat, left: nat, pads: nat): Option<seq<Byte>>
    requires Fits(quad, left)
  {
    if s == "" then if quad == 0 then Some([]) else None
    else if s[0] == '=' then
      if quad >= 2 && quad + pads + 1 >= 4 then Some([])
      else Scan(s[1..], quad, left, if quad >= 2 then pads + 1 else pads)
    else
      match Value(s[0])
      case None => Scan(s[1..], quad, left, pads)
      case Some(v) =>
        if quad == 0 then Scan(s[1..], 1, v, 0)
        else if quad == 1 then Prepend(left * 4 + v / 16, Scan(s[1..], 2, v % 16, 0))
        else if quad == 2 then Prepend(left * 16 + v / 4, Scan(s[1..], 3, v % 4, 0))
        else Prepend(left * 64 + v, Scan(s[1..], 0, 0, 0))
  }

  function Equals(n: nat): string
    requires n < 4
  {
    if n == 0 then "" else if n == 1 then "=" else if n == 2 then "==" else "==="
  }

  /** None where Python raises ValueError. */
  function Decode(s: string): Option<seq<Byte>> {
    if IsAscii(s) then Scan(s + Equals(-|s| % 4), 0, 0, 0) else None
  }

  // ----- The shape of an encoding -----

  function PadOf(n: nat): string {
    if n % 3 == 1 then "==" else if n % 3 == 2 then "=" else ""
  }

  predicate PlainChar(c: char) {
    'A' <= c <= 'Z' || 'a' <= c <= 'z' || '0' <= c <= '9' || c == '-' || c == '_'
  }

  predicate Plain(s: string) {
    forall i :: 0 <= i < |s| ==> PlainChar(s[i])
  }

  lemma PlainValue(c: char)
    requires PlainChar(c)
    ensures c != '=' && Value(c).Some? && Value(c).value < 64
  {
  }

  lemma StripOf(s: string, pad: string)
    requires Plain(s) && (pad == "" || pad == "=" || pad == "==")
    ensures StripPadding(s + pad) == s
  {
    StripPlain(s);
    assert s + "" == s;
    assert (s + "=")[..|s|] == s;
    assert (s + "==")[..|s| + 1] == s + "=";
  }

  lemma StripPlain(s: string)
    requires Plain(s)
    ensures StripPadding(s) == s
  {
    if s != "" { assert PlainChar(s[|s| - 1]); }
  }

  /** A group is the three bytes as one number, most significant byte first, in four digits of six
      bits, most significant digit first. */
  lemma GroupIsOneNumber(x: Byte, y: Byte, z: Byte) returns (a: nat, b: nat, c: nat, d: nat)
    ensures a < 64 && b < 64 && c < 64 && d < 64
    ensures Group(x, y, z) == [Digit(a), Digit(b), Digit(c), Digit(d)]
    ensures x * 0x10000 + y * 0x100 + z == a * 0x40000 + b * 0x1000 + c * 0x40 + d
  {
    a, b, c, d := x / 4, x % 4 * 16 + y / 16, y % 16 * 4 + z / 64, z % 64;
  }

  lemma GroupPlain(x: Byte, y: Byte, z: Byte)
    ensures Plain(Group(x, y, z))
  {
  }

  lemma TailShape(b: seq<Byte>)
    requires |b| < 3
    ensures Padded(b) == Encode(b) + PadOf(|b|) && Plain(Encode(b))
    ensures |Encode(b)| == (4 * |b| + 2) / 3
  {
    var s := if |b| == 0 then "" else if |b| == 1 then [Digit(b[0] / 4), Digit(b[0] % 4 * 16)]
             else [Digit(b[0] / 4), Digit(b[0] % 4 * 16 + b[1] / 16), Digit(b[1] % 16 * 4)];
    assert Plain(s);
    assert Padded(b) == s + PadOf(|b|);
    StripOf(s, PadOf(|b|));
  }

  lemma {:induction false} PaddedShape(b: seq<Byte>)
    ensures Padded(b) == Encode(b) + PadOf(|b|) && Plain(Encode(b))
    ensures |Encode(b)| == (4 * |b| + 2) / 3
  {
    if |b| < 3 {
      TailShape(b);
    } else {
      PaddedShape(b[3..]);
      GroupPlain(b[0], b[1], b[2]);
      JoinShape(Group(b[0], b[1], b[2]), Encode(b[3..]), PadOf(|b| - 3));
      assert PadOf(|b|) == PadOf(|b| - 3);
    }
  }

  lemma JoinShape(a: string, b: string, pad: string)
    requires Plain(a) && Plain(b) && (pad == "" || pad == "=" || pad == "==")
    ensures a + (b + pad) == a + b + pad && Plain(a + b) && StripPadding(a + b + pad) == a + b
  {
    StripOf(a + b, pad);
  }

  // ----- The round trip -----

  lemma ScanOne(c: char, rest: string, quad: nat, left: nat, pads: nat)
    requires Fits(quad, left) && PlainChar(c)
    ensures Value(c).Some? && Value(c).value < 64
    ensures var v := Value(c).value;
            Scan([c] + rest, quad, left, pads) ==
              if quad == 0 then Scan(rest, 1, v, 0)
              else if quad == 1 then Prepend(left * 4 + v / 16, Scan(rest, 2, v % 16, 0))
              else if quad == 2 then Prepend(left * 16 + v / 4, Scan(rest, 3, v % 4, 0))
              else Prepend(left * 64 + v, Scan(rest, 0, 0, 0))
  {
    PlainValue(c);
    assert ([c] + rest)[1..] == rest;
  }

  lemma ScanPads(left: nat)
    requires left < 4
    ensures Scan("=", 3, left, 0) == Some([])
    ensures Scan("==", 2, left, 0) == Some([])
  {
    assert "=="[1..] == "=";
  }

  lemma ScanTwo(a: nat, b: nat, rest: string)
    requires a < 64 && b < 64
    ensures Scan([Digit(a)] + ([Digit(b)] + rest), 0, 0, 0) == Prepend(a * 4 + b / 16, Scan(rest, 2, b % 16, 0))
  {
    DigitValue(a);
    DigitValue(b);
    ScanOne(Digit(a), [Digit(b)] + rest, 0, 0, 0);
    ScanOne(Digit(b), rest, 1, a, 0);
  }

  lemma ScanThird(left: nat, c: nat, rest: string)
    requires left < 16 && c < 64
    ensures Scan([Digit(c)] + rest, 2, left, 0) == Prepend(left * 16 + c / 4, Scan(rest, 3, c % 4, 0))
  {
    DigitValue(c);
    ScanOne(Digit(c), rest, 2, left, 0);
  }

  lemma ScanFourth(left: nat, d: nat, rest: string)
    requires left < 4 && d < 64
    ensures Scan([Digit(d)] + rest, 3, left, 0) == Prepend(left * 64 + d, Scan(rest, 0, 0, 0))
  {
    DigitValue(d);
    ScanOne(Digit(d), rest, 3, left, 0);
  }

  lemma Bits(x: Byte, y: Byte, z: Byte)
    ensures var a, b, c, d := x / 4, x % 4 * 16 + y / 16, y % 16 * 4 + z / 64, z % 64;
            a * 4 + b / 16 == x && b % 16 * 16 + c / 4 == y && c % 4 * 64 + d == z
  {
  }

  lemma FourFirst(a: char, b: char, c: char, d: char, rest: string)
    ensures [a, b, c, d] + rest == [a] + ([b] + ([c] + ([d] + rest)))
  {
  }

  lemma ScanRest(left: nat, c: nat, d: nat, rest: string)
    requires left < 16 && c < 64 && d < 64
    ensures Scan([Digit(c)] + ([Digit(d)] + rest), 2, left, 0) ==
            Prepend(left * 16 + c / 4, Prepend(c % 4 * 64 + d, Scan(rest, 0, 0, 0)))
  {
    ScanThird(left, c, [Digit(d)] + rest);
    ScanFourth(c % 4, d, rest);
  }

  lemma ScanFour(a: nat, b: nat, c: nat, d: nat, rest: string)
    requires a < 64 && b < 64 && c < 64 && d < 64
    ensures Scan([Digit(a), Digit(b), Digit(c), Digit(d)] + rest, 0, 0, 0) ==
            Prepend(a * 4 + b / 16, Prepend(b % 16 * 16 + c / 4, Prepend(c % 4 * 64 + d, Scan(rest, 0, 0, 0))))
  {
    FourFirst(Digit(a), Digit(b), Digit(c), Digit(d), rest);
    ScanTwo(a, b, [Digit(c)] + ([Digit(d)] + rest));
    ScanRest(b % 16, c, d, rest);
  }

  lemma ScanGroup(x: Byte, y: Byte, z: Byte, rest: string)
    ensures Scan(Group(x, y, z) + rest, 0, 0, 0) == Prepend(x, Prepend(y, Prepend(z, Scan(rest, 0, 0, 0))))
  {
    ScanFour(x / 4, x % 4 * 16 + y / 16, y % 16 * 4 + z / 64, z % 64, rest);
    Bits(x, y, z);
  }

  lemma ScanOneLeft(x: Byte)
    ensures Scan(Padded([x]), 0, 0, 0) == Some([x])
  {
    var a, b := x / 4, x % 4 * 16;
    assert Padded([x]) == [Digit(a)] + ([Digit(b)] + "==");
    ScanTwo(a, b, "==");
    assert b / 16 == x % 4 && b % 16 == 0;
    ScanPads(0);
    assert [x] + [] == [x];
  }

  lemma ScanTwoLeft(x: Byte, y: Byte)
    ensures Scan(Padded([x, y]), 0, 0, 0) == Some([x, y])
  {
    var a, b, c := x / 4, x % 4 * 16 + y / 16, y % 16 * 4;
    var third := [Digit(c)] + "=";
    assert Padded([x, y]) == [Digit(a)] + ([Digit(b)] + third);
    ScanTwo(a, b, third);
    assert b / 16 == x % 4 && b % 16 == y / 16;
    ScanThird(b % 16, c, "=");
    assert c / 4 == y % 16 && c % 4 == 0;
    ScanPads(0);
    assert [x] + ([y] + []) == [x, y];
  }

  lemma {:induction false} ScanPadded(b: seq<Byte>)
    ensures Scan(Padded(b), 0, 0, 0) == Some(b)
  {
    if |b| >= 3 {
      ScanPadded(b[3..]);
      ScanGroup(b[0], b[1], b[2], Padded(b[3..]));
      assert b == [b[0]] + ([b[1]] + ([b[2]] + b[3..]));
    } else if |b| == 2 {
      assert b == [b[0], b[1]];
      ScanTwoLeft(b[0], b[1]);
    } else if |b| == 1 {
      assert b == [b[0]];
      ScanOneLeft(b[0]);
    }
  }

  lemma PadLength(n: nat)
    ensures Equals(-((4 * n + 2) / 3) % 4) == PadOf(n)
  {
    assert n == 3 * (n / 3) + n % 3;
    assert (4 * n + 2) / 3 == 4 * (n / 3) + (4 * (n % 3) + 2) / 3;
  }

  lemma SamePadding(s: string, n: nat)
    requires |s| == (4 * n + 2) / 3
    ensures s + Equals(-|s| % 4) == s + PadOf(n)
  {
    PadLength(n);
  }

  /** The padding that was stripped is exactly the padding that is put back. */
  lemma PaddingRestored(b: seq<Byte>)
    ensures Encode(b) + Equals(-|Encode(b)| % 4) == Padded(b)
  {
    PaddedShape(b);
    SamePadding(Encode(b), |b|);
  }

  lemma RoundTrip(b: seq<Byte>)
    ensures Decode(Encode(b)) == Some(b)
  {
    PaddedShape(b);
    PaddingRestored(b);
    ScanPadded(b);
  }

  /** Different bytes are encoded differently, and always in plain characters. */
  lemma EncodeInjective(a: seq<Byte>, b: seq<Byte>)
    requires Encode(a) == Encode(b)
    ensures a == b && Plain(Encode(a))
  {
    RoundTrip(a);
    RoundTrip(b);
    PaddedShape(a);
  }

  // ----- What else is decoded -----

  lemma {:induction false} ScanStuck(n: nat, left: nat)
    requires n < 4 && left < 64
    ensures Scan(Equals(n), 1, left, 0).None?
  {
    if n > 0 {
      assert Equals(n)[1..] == Equals(n - 1);
      ScanStuck(n - 1, left);
    }
  }

  lemma ScanEnd(quad: nat, left: nat, pad: nat)
    requires Fits(quad, left) && pad == (4 - quad) % 4
    ensures Scan(Equals(pad), quad, left, 0).Some? <==> quad != 1
  {
    if quad == 1 { ScanStuck(pad, left); }
    if quad == 2 || quad == 3 { ScanPads(if quad == 2 then 0 else left); }
    if quad == 2 { assert "=="[1..] == "="; }
  }

  lemma Round(quad: nat, n: nat, phase: nat)
    requires quad < 4 && n > 0 && phase == (quad + n) % 4
    ensures phase == ((quad + 1) % 4 + (n - 1)) % 4
  {
  }

  lemma {:induction false} ScanOpen(s: string, quad: nat, left: nat, phase: nat, pad: nat)
    requires Fits(quad, left) && Plain(s) && phase == (quad + |s|) % 4 && pad == (4 - phase) % 4
    ensures Scan(s + Equals(pad), quad, left, 0).Some? <==> phase != 1
  {
    if s == "" {
      assert s + Equals(pad) == Equals(pad);
      ScanEnd(quad, left, pad);
    } else {
      var rest := s[1..] + Equals(pad);
      assert s + Equals(pad) == [s[0]] + rest;
      ScanOne(s[0], rest, quad, left, 0);
      var v := Value(s[0]).value;
      Round(quad, |s|, phase);
      ScanOpen(s[1..], (quad + 1) % 4,
               if quad == 0 then v else if quad == 1 then v % 16 else if quad == 2 then v % 4 else 0, phase, pad);
    }
  }

  /** A text of plain characters decodes exactly if its length is not one more than a multiple
      of four. */
  lemma DecodesIff(s: string)
    requires Plain(s)
    ensures Decode(s).Some? <==> |s| % 4 != 1
  {
    ScanOpen(s, 0, 0, |s| % 4, -|s| % 4);
  }

  /** Text as the encoder writes it: plain characters, no group of a single one, and no surplus
      bits in the last character. */
  predicate Canonical(s: string) {
    && Plain(s) && |s| % 4 != 1
    && (|s| % 4 == 2 ==> Value(s[|s| - 1]).value % 16 == 0)
    && (|s| % 4 == 3 ==> Value(s[|s| - 1]).value % 4 == 0)
  }

  lemma ValueDigit(c: char)
    requires PlainChar(c)
    ensures Value(c).Some? && Value(c).value < 64 && Digit(Value(c).value) == c
  {
  }

  lemma EncodeGroup(x: Byte, y: Byte, z: Byte, rest: seq<Byte>)
    ensures Encode([x, y, z] + rest) == Group(x, y, z) + Encode(rest)
  {
    var b := [x, y, z] + rest;
    assert b[3..] == rest;
    PaddedShape(rest);
    GroupPlain(x, y, z);
    JoinShape(Group(x, y, z), Encode(rest), PadOf(|rest|));
  }

  lemma EncodeOne(x: Byte)
    ensures Encode([x]) == [Digit(x / 4), Digit(x % 4 * 16)]
  {
    PaddedShape([x]);
    assert Padded([x])[..2] == [Digit(x / 4), Digit(x % 4 * 16)];
  }

  lemma EncodeTwo(x: Byte, y: Byte)
    ensures Encode([x, y]) == [Digit(x / 4), Digit(x % 4 * 16 + y / 16), Digit(y % 16 * 4)]
  {
    PaddedShape([x, y]);
    assert Padded([x, y])[..3] == [Digit(x / 4), Digit(x % 4 * 16 + y / 16), Digit(y % 16 * 4)];
  }

  lemma CanonicalGroup(g: string, s: string)
    requires Plain(g) && |g| == 4
    ensures Canonical(g + s) <==> Canonical(s)
  {
    if Plain(g + s) {
      forall i | 0 <= i < |s| ensures PlainChar(s[i]) { assert s[i] == (g + s)[4 + i]; }
    }
    assert |g + s| % 4 == |s| % 4;
    assert s != "" ==> (g + s)[|g + s| - 1] == s[|s| - 1];
  }

  lemma {:induction false} EncodingIsCanonical(b: seq<Byte>)
    ensures Canonical(Encode(b))
  {
    if |b| >= 3 {
      EncodingIsCanonical(b[3..]);
      GroupPlain(b[0], b[1], b[2]);
      assert b == [b[0], b[1], b[2]] + b[3..];
      EncodeGroup(b[0], b[1], b[2], b[3..]);
      CanonicalGroup(Group(b[0], b[1], b[2]), Encode(b[3..]));
    } else {
      PaddedShape(b);
      if |b| == 1 {
        assert b == [b[0]];
        EncodeOne(b[0]);
        DigitValue(b[0] % 4 * 16);
      } else if |b| == 2 {
        assert b == [b[0], b[1]];
        EncodeTwo(b[0], b[1]);
        DigitValue(b[1] % 16 * 4);
      }
    }
  }

  /** Four digits, put together from the three bytes that they stand for. */
  lemma BytesOf(a: nat, b: nat, c: nat, d: nat) returns (x: Byte, y: Byte, z: Byte)
    requires a < 64 && b < 64 && c < 64 && d < 64
    ensures Group(x, y, z) == [Digit(a), Digit(b), Digit(c), Digit(d)]
  {
    x, y, z := a * 4 + b / 16, b % 16 * 16 + c / 4, c % 4 * 64 + d;
    assert x / 4 == a && x % 4 == b / 16 && y / 16 == b % 16 && y % 16 == c / 4;
    assert z / 64 == c % 4 && z % 64 == d;
  }

  lemma {:induction false} CanonicalIsEncoding(s: string) returns (b: seq<Byte>)
    requires Canonical(s)
    ensures Encode(b) == s
  {
    if |s| >= 4 {
      var g, rest := s[..4], s[4..];
      assert s == g + rest;
      assert forall i :: 0 <= i < 4 ==> g[i] == s[i];
      CanonicalGroup(g, rest);
      var more := CanonicalIsEncoding(rest);
      var x, y, z := FourToThree(g);
      b := [x, y, z] + more;
      EncodeGroup(x, y, z, more);
    } else if |s| == 0 {
      b := [];
    } else if |s| == 2 {
      b := TwoToOne(s);
    } else {
      b := ThreeToTwo(s);
    }
  }

  lemma FourToThree(g: string) returns (x: Byte, y: Byte, z: Byte)
    requires |g| == 4 && Plain(g)
    ensures Group(x, y, z) == g
  {
    var a := ValueOf(g[0]);
    var b := ValueOf(g[1]);
    var c := ValueOf(g[2]);
    var d := ValueOf(g[3]);
    assert g == [Digit(a), Digit(b), Digit(c), Digit(d)];
    x, y, z := BytesOf(a, b, c, d);
  }

  lemma ValueOf(c: char) returns (v: nat)
    requires PlainChar(c)
    ensures v < 64 && Digit(v) == c
  {
    ValueDigit(c);
    v := Value(c).value;
  }

  lemma TwoToOne(s: string) returns (b: seq<Byte>)
    requires |s| == 2 && Canonical(s)
    ensures Encode(b) == s
  {
    ValueDigit(s[0]);
    ValueDigit(s[1]);
    var u, v := Value(s[0]).value, Value(s[1]).value;
    var x := u * 4 + v / 16;
    b := [x];
    EncodeOne(x);
    assert x / 4 == u && x % 4 * 16 == v;
  }

  lemma ThreeToTwo(s: string) returns (b: seq<Byte>)
    requires |s| == 3 && Canonical(s)
    ensures Encode(b) == s
  {
    ValueDigit(s[0]);
    ValueDigit(s[1]);
    ValueDigit(s[2]);
    var u, v, w := Value(s[0]).value, Value(s[1]).value, Value(s[2]).value;
    var x, y := u * 4 + v / 16, v % 16 * 16 + w / 4;
    b := [x, y];
    EncodeTwo(x, y);
    assert x / 4 == u && x % 4 == v / 16 && y / 16 == v % 16 && y % 16 * 4 == w;
  }

  /** Decoding is lenient: it also takes surplus bits, so "AB" is decoded like "AA". Encoding what
      was decoded gives back the text exactly if the text is canonical, and only canonical texts
      are encodings of anything. */
  lemma EncodingIff(s: string)
    ensures (exists b: seq<Byte> :: Encode(b) == s) <==> Canonical(s)
    ensures Decode(s).Some? && Encode(Decode(s).value) == s <==> Canonical(s)
  {
    forall b: seq<Byte> | Encode(b) == s ensures Canonical(s) {
      EncodingIsCanonical(b);
    }
    if Canonical(s) {
      var b := CanonicalIsEncoding(s);
      RoundTrip(b);
    }
  }
}
