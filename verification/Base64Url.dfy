/** Integers as unpadded base64url texts, and the decoder of the other module that reads them. */
module Base64Url {
  import opened Wrappers

  type Octet = n: nat | n < 256
  type Sextet = n: nat | n < 64

  // ----------------------------------------------------------------- octets

  function BitLength(n: nat): nat {
    if n == 0 then 0 else 1 + BitLength(n / 2)
  }

  function OctetCount(n: nat): nat {
    (BitLength(n) + 7) / 8
  }

  /** n.to_bytes(length, "big"); None is OverflowError. */
  function ToBytes(n: nat, length: nat): Option<seq<Octet>> {
    if length == 0 then (if n == 0 then Some([]) else None)
    else
      match ToBytes(n / 256, length - 1)
      case None => None
      case Some(high) => Some(high + [n % 256])
  }

  /** int.from_bytes(bytes, "big") */
  function FromBytes(bytes: seq<Octet>): nat {
    if bytes == [] then 0 else FromBytes(bytes[..|bytes| - 1]) * 256 + bytes[|bytes| - 1]
  }

  lemma BitLengthByOctet(n: nat)
    ensures n >= 256 ==> BitLength(n) == 8 + BitLength(n / 256)
    ensures 0 < n < 256 ==> 1 <= BitLength(n) <= 8
  {
    var a := n / 2;
    var b := a / 2;
    var c := b / 2;
    var d := c / 2;
    var e := d / 2;
    var f := e / 2;
    var g := f / 2;
    assert g / 2 == n / 256;
    assert BitLength(n) == (if n == 0 then 0 else 1 + BitLength(a));
    assert BitLength(a) == (if a == 0 then 0 else 1 + BitLength(b));
    assert BitLength(b) == (if b == 0 then 0 else 1 + BitLength(c));
    assert BitLength(c) == (if c == 0 then 0 else 1 + BitLength(d));
    assert BitLength(d) == (if d == 0 then 0 else 1 + BitLength(e));
    assert BitLength(e) == (if e == 0 then 0 else 1 + BitLength(f));
    assert BitLength(f) == (if f == 0 then 0 else 1 + BitLength(g));
    assert BitLength(g) == (if g == 0 then 0 else 1 + BitLength(g / 2));
  }

  /** The octets chosen by the encoder never overflow, are as few as possible, and give the
      integer back. */
  lemma {:induction false} OctetsExact(n: nat)
    ensures var b := ToBytes(n, OctetCount(n));
            && b.Some? && |b.value| == OctetCount(n) && FromBytes(b.value) == n
            && (n > 0 ==> b.value != [] && b.value[0] != 0)
  {
    BitLengthByOctet(n);
    if n >= 256 {
      OctetsExact(n / 256);
    } else if n > 0 {
      assert ToBytes(n / 256, 0) == Some([]);
    }
  }

  // --------------------------------------------------------------- encoding

  function Digit(v: Sextet): char {
    if v < 26 then 'A' + v as char
    else if v < 52 then 'a' + (v - 26) as char
    else if v < 62 then '0' + (v - 52) as char
    else if v == 62 then '-' else '_'
  }

  /** Three octets as four digits. */
  function Group(x: Octet, y: Octet, z: Octet): string {
    [Digit(x / 4), Digit(x % 4 * 16 + y / 16), Digit(y % 16 * 4 + z / 64), Digit(z % 64)]
  }

  /** base64.urlsafe_b64encode */
  function Encode(b: seq<Octet>): string {
    if b == [] then ""
    else if |b| == 1 then Group(b[0], 0, 0)[..2] + ['=', '=']
    else if |b| == 2 then Group(b[0], b[1], 0)[..3] + ['=']
    else Group(b[0], b[1], b[2]) + Encode(b[3..])
  }

  /** .rstrip(b"=") */
  function Unpad(s: string): string {
    if s != "" && s[|s| - 1] == '=' then Unpad(s[..|s| - 1]) else s
  }

  function IntToBase64Url(n: nat): Option<string> {
    match ToBytes(n, OctetCount(n))
    case None => None
    case Some(b) => Some(Unpad(Encode(b)))
  }

  // --------------------------------------------------------------- decoding

  /** The value of a character for the lenient decoder, which knows both alphabets. */
  function Value(c: char): Option<Sextet> {
    if 'A' <= c <= 'Z' then Some(c as int - 'A' as int)
    else if 'a' <= c <= 'z' then Some(c as int - 'a' as int + 26)
    else if '0' <= c <= '9' then Some(c as int - '0' as int + 52)
    else if c == '-' || c == '+' then Some(62)
    else if c == '_' || c == '/' then Some(63)
    else None
  }

  /** The decoder between two characters: place in the group of four, bits left over, padding
      seen, octets so far, and whether a padding sequence has ended the input. */
  datatype Scan = Scan(quad: nat, left: nat, pads: nat, out: seq<nat>, done: bool)

  const START := Scan(0, 0, 0, [], false)

  function Feed(s: Scan, c: char): Scan {
    if s.done then s
    else if c == '=' then
      if s.quad >= 2
      then (if s.quad + s.pads + 1 >= 4 then s.(done := true) else s.(pads := s.pads + 1))
      else s
    else
      match Value(c)
      case None => s
      case Some(v) =>
        if s.quad == 0 then s.(quad := 1, left := v, pads := 0)
        else if s.quad == 1 then s.(quad := 2, left := v % 16, pads := 0, out := s.out + [s.left * 4 + v / 16])
        else if s.quad == 2 then s.(quad := 3, left := v % 4, pads := 0, out := s.out + [s.left * 16 + v / 4])
        else Scan(0, 0, 0, s.out + [s.left * 64 + v], false)
  }

  function FeedAll(s: Scan, text: string): Scan
    decreases |text|
  {
    if text == "" then s else FeedAll(Feed(s, text[0]), text[1..])
  }

  function Pads(n: nat): string {
    seq(n, _ => '=')
  }

  function Repad(text: string): string {
    text + Pads((4 - |text| % 4) % 4)
  }

  function FromOctets(out: seq<nat>): nat {
    if out == [] then 0 else FromOctets(out[..|out| - 1]) * 256 + out[|out| - 1]
  }

  /** None stands for the ValueError of a non-ASCII text and the error of a broken last group. */
  function Base64UrlToInt(text: string): Option<nat> {
    if exists i | 0 <= i < |text| :: text[i] as int >= 128 then None
    else
      var s := FeedAll(START, Repad(text));
      if s.done || s.quad == 0 then Some(FromOctets(s.out)) else None
  }

  // -------------------------------------------------------------- round trip

  predicate UrlSafe(c: char) {
    'A' <= c <= 'Z' || 'a' <= c <= 'z' || '0' <= c <= '9' || c == '-' || c == '_'
  }

  lemma DigitValue(v: Sextet)
    ensures Value(Digit(v)) == Some(v) && Digit(v) != '=' && Digit(v) as int < 128
  {
  }

  lemma DigitSafe(v: Sextet)
    ensures UrlSafe(Digit(v))
  {
  }

  lemma {:induction false} FeedConcat(s: Scan, a: string, b: string)
    ensures FeedAll(s, a + b) == FeedAll(FeedAll(s, a), b)
    decreases |a|
  {
    if a == "" {
      assert a + b == b;
    } else {
      assert (a + b)[1..] == a[1..] + b;
      FeedConcat(Feed(s, a[0]), a[1..], b);
    }
  }

  function Fresh(out: seq<nat>): Scan { Scan(0, 0, 0, out, false) }

  ghost predicate Reads(c: char, v: Sextet) {
    c != '=' && Value(c) == Some(v)
  }

  /** Three characters of digits, then four. */
  lemma FeedDigits(out: seq<nat>, a: char, b: char, c: char, p: Sextet, q: Sextet, r: Sextet)
    requires Reads(a, p) && Reads(b, q) && Reads(c, r)
    ensures Feed(Feed(Fresh(out), a), b) == Scan(2, q % 16, 0, out + [p * 4 + q / 16], false)
    ensures Feed(Feed(Feed(Fresh(out), a), b), c)
            == Scan(3, r % 4, 0, out + [p * 4 + q / 16] + [q % 16 * 16 + r / 4], false)
  {
  }

  /** Regrouping three octets as four sextets and back. */
  lemma Regroup(x: Octet, y: Octet, z: Octet)
    ensures x / 4 * 4 + (x % 4 * 16 + y / 16) / 16 == x
    ensures (x % 4 * 16 + y / 16) % 16 * 16 + (y % 16 * 4 + z / 64) / 4 == y
    ensures (y % 16 * 4 + z / 64) % 4 * 64 + z % 64 == z
  {
  }

  /** One whole group of four digits decodes to its three octets. */
  lemma FeedGroup(out: seq<nat>, x: Octet, y: Octet, z: Octet)
    ensures FeedAll(Fresh(out), Group(x, y, z)) == Fresh(out + [x, y, z])
  {
    var p, q, r, s := x / 4, x % 4 * 16 + y / 16, y % 16 * 4 + z / 64, z % 64;
    DigitValue(p);
    DigitValue(q);
    DigitValue(r);
    DigitValue(s);
    Regroup(x, y, z);
    FeedDigits(out, Digit(p), Digit(q), Digit(r), p, q, r);
    FeedFour(Fresh(out), Digit(p), Digit(q), Digit(r), Digit(s));
    assert out + [x] + [y] + [z] == out + [x, y, z];
  }

  lemma FeedTailOne(out: seq<nat>, x: Octet, text: string)
    requires text == Group(x, 0, 0)[..2] + ['=', '=']
    ensures FeedAll(Fresh(out), text) == Scan(2, 0, 1, out + [x], true)
  {
    var p, q := x / 4, x % 4 * 16;
    DigitValue(p);
    DigitValue(q);
    Regroup(x, 0, 0);
    FeedDigits(out, Digit(p), Digit(q), Digit(0), p, q, 0);
    FeedFour(Fresh(out), Digit(p), Digit(q), '=', '=');
    assert text == [Digit(p), Digit(q), '=', '='];
  }

  lemma FeedTailTwo(out: seq<nat>, x: Octet, y: Octet, text: string)
    requires text == Group(x, y, 0)[..3] + ['=']
    ensures FeedAll(Fresh(out), text) == Scan(3, 0, 0, out + [x, y], true)
  {
    var p, q, r := x / 4, x % 4 * 16 + y / 16, y % 16 * 4;
    DigitValue(p);
    DigitValue(q);
    DigitValue(r);
    Regroup(x, y, 0);
    FeedDigits(out, Digit(p), Digit(q), Digit(r), p, q, r);
    FeedFour(Fresh(out), Digit(p), Digit(q), Digit(r), '=');
    assert text == [Digit(p), Digit(q), Digit(r), '='];
    assert out + [x] + [y] == out + [x, y];
  }

  lemma FeedFour(s: Scan, a: char, b: char, c: char, d: char)
    ensures FeedAll(s, [a, b, c, d]) == Feed(Feed(Feed(Feed(s, a), b), c), d)
  {
    assert [a, b, c, d][1..] == [b, c, d] && [b, c, d][1..] == [c, d] && [c, d][1..] == [d] && [d][1..] == "";
    assert FeedAll(s, [a, b, c, d]) == FeedAll(Feed(s, a), [b, c, d]);
    assert FeedAll(Feed(s, a), [b, c, d]) == FeedAll(Feed(Feed(s, a), b), [c, d]);
    assert FeedAll(Feed(Feed(s, a), b), [c, d]) == FeedAll(Feed(Feed(Feed(s, a), b), c), [d]);
  }

  lemma EncodeLong(b: seq<Octet>)
    requires |b| >= 3
    ensures Encode(b) == Group(b[0], b[1], b[2]) + Encode(b[3..])
  {
  }

  lemma FeedLong(out: seq<nat>, x: Octet, y: Octet, z: Octet, rest: string)
    ensures FeedAll(Fresh(out), Group(x, y, z) + rest) == FeedAll(Fresh(out + [x, y, z]), rest)
  {
    FeedConcat(Fresh(out), Group(x, y, z), rest);
    FeedGroup(out, x, y, z);
  }

  lemma FeedShort(out: seq<nat>, b: seq<Octet>, text: string)
    requires 1 <= |b| <= 2 && text == Encode(b)
    ensures FeedAll(Fresh(out), text).out == out + b && FeedAll(Fresh(out), text).done
  {
    EncodeShort(b);
    if |b| == 1 {
      FeedTailOne(out, b[0], text);
      assert out + [b[0]] == out + b;
    } else {
      FeedTailTwo(out, b[0], b[1], text);
      assert out + [b[0], b[1]] == out + b;
    }
  }

  lemma EncodeShort(b: seq<Octet>)
    requires 1 <= |b| <= 2
    ensures Encode(b) == if |b| == 1 then Group(b[0], 0, 0)[..2] + ['=', '='] else Group(b[0], b[1], 0)[..3] + ['=']
  {
  }

  /** Decoding what was encoded, with its padding, gives the octets and ends cleanly. */
  lemma {:induction false} FeedEncoded(out: seq<nat>, b: seq<Octet>)
    ensures var s := FeedAll(Fresh(out), Encode(b));
            s.out == out + b && (s.done || s.quad == 0)
    decreases |b|
  {
    if b == [] {
      assert out + b == out;
    } else if |b| < 3 {
      FeedShort(out, b, Encode(b));
    } else {
      EncodeLong(b);
      FeedLong(out, b[0], b[1], b[2], Encode(b[3..]));
      FeedEncoded(out + [b[0], b[1], b[2]], b[3..]);
      assert out + [b[0], b[1], b[2]] + b[3..] == out + b;
    }
  }

  // -------------------------------------------------------------- the padding

  /** The padding that the encoder writes for this many octets. */
  function Padding(octets: nat): nat {
    if octets % 3 == 0 then 0 else 3 - octets % 3
  }

  /** Only characters of the URL-safe alphabet. */
  ghost predicate Plain(s: string) {
    forall i | 0 <= i < |s| :: UrlSafe(s[i])
  }

  lemma GroupPlain(x: Octet, y: Octet, z: Octet)
    ensures |Group(x, y, z)| == 4 && Plain(Group(x, y, z))
  {
    DigitSafe(x / 4);
    DigitSafe(x % 4 * 16 + y / 16);
    DigitSafe(y % 16 * 4 + z / 64);
    DigitSafe(z % 64);
  }

  lemma PlainConcat(s: string, t: string, pad: string)
    requires Plain(s) && Plain(t) && |s| == 4
    ensures Plain(s + t) && s + (t + pad) == s + t + pad && |s + t| % 4 == |t| % 4
  {
  }

  lemma ShortBody(b: seq<Octet>) returns (body: string)
    requires |b| < 3
    ensures Encode(b) == body + Pads(Padding(|b|)) && Plain(body)
    ensures |body| == if |b| == 0 then 0 else |b| + 1
  {
    if b == [] {
      body := "";
    } else if |b| == 1 {
      GroupPlain(b[0], 0, 0);
      body := Group(b[0], 0, 0)[..2];
      assert Pads(2) == ['=', '='];
    } else {
      GroupPlain(b[0], b[1], 0);
      body := Group(b[0], b[1], 0)[..3];
      assert Pads(1) == ['='];
    }
  }

  lemma Prepend(b: seq<Octet>, rest: string, n: nat) returns (body: string)
    requires |b| >= 3 && Plain(rest) && Encode(b[3..]) == rest + Pads(n)
    ensures Encode(b) == body + Pads(n) && Plain(body) && |body| == |rest| + 4
  {
    EncodeLong(b);
    GroupPlain(b[0], b[1], b[2]);
    body := Group(b[0], b[1], b[2]) + rest;
    PlainConcat(Group(b[0], b[1], b[2]), rest, Pads(n));
  }

  /** Three octets more and four digits more. */
  lemma LengthsFit(octets: nat, digits: nat)
    requires digits % 4 != 1 && Padding(octets) == (4 - digits % 4) % 4
    ensures (digits + 4) % 4 != 1 && Padding(octets + 3) == Padding(octets) == (4 - (digits + 4) % 4) % 4
  {
  }

  /** The text before its padding: digits only, of a length that is never one more than a multiple of four. */
  lemma {:induction false} EncodedBody(b: seq<Octet>) returns (body: string)
    ensures Encode(b) == body + Pads(Padding(|b|)) && Plain(body)
    ensures |body| % 4 != 1 && Padding(|b|) == (4 - |body| % 4) % 4
    decreases |b|
  {
    if |b| < 3 {
      body := ShortBody(b);
    } else {
      var rest := EncodedBody(b[3..]);
      LengthsFit(|b[3..]|, |rest|);
      body := Prepend(b, rest, Padding(|b|));
    }
  }

  lemma {:induction false} UnpadPadded(body: string, n: nat)
    requires Plain(body)
    ensures Unpad(body + Pads(n)) == body
    decreases n
  {
    var s := body + Pads(n);
    if n == 0 {
      assert s == body;
    } else {
      assert s[..|s| - 1] == body + Pads(n - 1);
      UnpadPadded(body, n - 1);
    }
  }

  lemma {:induction false} SameValue(b: seq<Octet>, out: seq<nat>)
    requires out == b
    ensures FromOctets(out) == FromBytes(b)
    decreases |b|
  {
    if b != [] {
      SameValue(b[..|b| - 1], out[..|out| - 1]);
    }
  }

  /** For every integer: the text exists, has no padding character and no length of the form
      4k + 1, re-padding restores what was stripped, the octets are the fewest that hold the
      integer, and decoding the text gives the integer back. */
  lemma RoundTrip(n: nat)
    ensures var octets := ToBytes(n, OctetCount(n));
            var text := IntToBase64Url(n);
            && octets.Some? && text.Some?
            && (n > 0 ==> octets.value != [] && octets.value[0] != 0)
            && Plain(text.value) && '=' !in text.value && |text.value| % 4 != 1
            && Repad(text.value) == Encode(octets.value)
            && Base64UrlToInt(text.value) == Some(n)
  {
    OctetsExact(n);
    var b := ToBytes(n, OctetCount(n)).value;
    var body := EncodedBody(b);
    UnpadPadded(body, Padding(|b|));
    FeedEncoded([], b);
    assert [] + b == b;
    SameValue(b, FeedAll(START, Encode(b)).out);
  }

  /** Distinct integers have distinct texts. */
  lemma Injective(m: nat, n: nat)
    requires IntToBase64Url(m) == IntToBase64Url(n)
    ensures m == n
  {
    RoundTrip(m);
    RoundTrip(n);
  }

  /** The alphabet of section 5 of RFC 4648: where its five runs begin, and that they are runs. */
  lemma DigitTells(v: Sextet)
    ensures Digit(0) == 'A' && Digit(26) == 'a' && Digit(52) == '0' && Digit(62) == '-' && Digit(63) == '_'
    ensures v !in {25, 51, 61, 62, 63} ==> Digit(v + 1) as int == Digit(v) as int + 1
  {
  }

  // --------------------------------------------------- texts of other origin

  /** Both alphabets are read, and nothing else. */
  lemma ValueTells(c: char)
    ensures Value(c) == None <==> !UrlSafe(c) && c !in {'+', '/'}
    ensures Value('+') == Value('-') == Some(62) && Value('/') == Value('_') == Some(63)
  {
    DigitValue(62);
    DigitValue(63);
  }

  /** A character of neither alphabet changes nothing, wherever it stands, and a padding character
      nothing before the second digit of a group. */
  lemma JunkIgnored(s: Scan, a: string, c: char, b: string)
    requires !UrlSafe(c) && c !in {'+', '/'} && (c == '=' ==> FeedAll(s, a).quad < 2)
    ensures FeedAll(s, a + [c] + b) == FeedAll(s, a + b)
  {
    ValueTells(c);
    FeedConcat(s, a + [c], b);
    FeedConcat(s, a, [c]);
    FeedConcat(s, a, b);
    assert FeedAll(FeedAll(s, a), [c]) == Feed(FeedAll(s, a), c) by {
      assert [c][1..] == "";
    }
  }

  lemma {:induction false} FeedPlain(s: Scan, text: string)
    requires Plain(text) && !s.done && s.quad < 4 && s.pads == 0
    ensures var t := FeedAll(s, text); !t.done && t.quad == (s.quad + |text|) % 4 && t.pads == 0
    decreases |text|
  {
    if text != "" {
      ValueTells(text[0]);
      FeedPlain(Feed(s, text[0]), text[1..]);
    }
  }

  /** A text of the alphabet is refused exactly when its length is one more than a multiple of four. */
  lemma DecodableIff(text: string)
    requires Plain(text)
    ensures Base64UrlToInt(text).Some? <==> |text| % 4 != 1
  {
    var n := (4 - |text| % 4) % 4;
    FeedConcat(START, text, Pads(n));
    FeedPlain(START, text);
    var s := FeedAll(START, text);
    if n == 1 {
      assert Pads(1) == ['='] && Pads(1)[1..] == "";
    } else if n == 2 {
      assert Pads(2) == ['=', '='] && Pads(2)[1..] == ['='] && ['='][1..] == "";
    } else if n == 3 {
      assert Pads(3) == ['=', '=', '='] && Pads(3)[1..] == ['=', '='] && ['=', '='][1..] == ['='] && ['='][1..] == "";
    }
  }
}
