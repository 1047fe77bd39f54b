/** Percent-decoding of texts through UTF-8, as urllib.parse.unquote does it. */
module Percent {
  type Byte = n: nat | n < 256

  const REPLACEMENT: char := 0xFFFD as char

  // ------------------------------------------------------------------- UTF-8

  function EncodeChar(c: char): seq<Byte> {
    var n := c as int;
    if n < 0x80 then [n]
    else if n < 0x800 then [0xC0 + n / 64, 0x80 + n % 64]
    else if n < 0x10000 then [0xE0 + n / 4096, 0x80 + n / 64 % 64, 0x80 + n % 64]
    else [0xF0 + n / 262144, 0x80 + n / 4096 % 64, 0x80 + n / 64 % 64, 0x80 + n % 64]
  }

  /** The bytes that may follow this first byte. */
  predicate Second(first: Byte, b: Byte) {
    if first == 0xE0 then 0xA0 <= b < 0xC0
    else if first == 0xED then 0x80 <= b < 0xA0
    else if first == 0xF0 then 0x90 <= b < 0xC0
    else if first == 0xF4 then 0x80 <= b < 0x90
    else 0x80 <= b < 0xC0
  }

  predicate Trail(b: Byte) {
    0x80 <= b < 0xC0
  }

  /** How many bytes a character with this first byte takes; 0 when none starts so. */
  function Width(first: Byte): nat {
    if first < 0x80 then 1
    else if 0xC2 <= first < 0xE0 then 2
    else if 0xE0 <= first < 0xF0 then 3
    else if 0xF0 <= first < 0xF5 then 4
    else 0
  }

  /** The first character of some bytes and the bytes that it takes; an ill-formed start is
      replaced, as far as it could have been the start of a character. */
  function FirstChar(b: seq<Byte>): (r: (char, nat))
    requires b != []
    ensures 1 <= r.1 <= |b|
  {
    var w := Width(b[0]);
    var lead: int := b[0];
    if w == 1 then (lead as char, 1)
    else if w == 0 || |b| == 1 || !Second(b[0], b[1]) then (REPLACEMENT, 1)
    else
      var high: int := b[1] - 0x80;
      if w == 2 then (((lead - 0xC0) * 64 + high) as char, 2)
      else if |b| == 2 || !Trail(b[2]) then (REPLACEMENT, 2)
      else
        var mid: int := b[2] - 0x80;
        if w == 3 then (((lead - 0xE0) * 4096 + high * 64 + mid) as char, 3)
        else if |b| == 3 || !Trail(b[3]) then (REPLACEMENT, 3)
        else (((lead - 0xF0) * 262144 + high * 4096 + mid * 64 + (b[3] - 0x80)) as char, 4)
  }

  /** bytes.decode("utf-8", "replace") */
  function Decode(b: seq<Byte>): (s: string)
    ensures |s| <= |b|
  {
    if b == [] then "" else [FirstChar(b).0] + Decode(b[FirstChar(b).1..])
  }

  lemma TwoBytes(c: char, rest: seq<Byte>)
    requires 0x80 <= c as int < 0x800
    ensures FirstChar(EncodeChar(c) + rest) == (c, 2)
  {
    var n := c as int;
    var b := EncodeChar(c) + rest;
    assert b[0] == 0xC0 + n / 64 && b[1] == 0x80 + n % 64;
  }

  lemma ThreeBytes(c: char, rest: seq<Byte>)
    requires 0x800 <= c as int < 0x10000
    ensures FirstChar(EncodeChar(c) + rest) == (c, 3)
  {
    var n := c as int;
    var b := EncodeChar(c) + rest;
    var h, m, l := n / 4096, n / 64 % 64, n % 64;
    assert n == h * 4096 + m * 64 + l;
    assert b[0] == 0xE0 + h && b[1] == 0x80 + m && b[2] == 0x80 + l;
    assert Second(b[0], b[1]) && Trail(b[2]);
  }

  lemma Sextets(n: nat)
    requires n < 0x110000
    ensures n == n / 262144 * 262144 + n / 4096 % 64 * 4096 + n / 64 % 64 * 64 + n % 64
    ensures n / 262144 <= 4 && (n >= 0x10000 && n / 262144 == 0 ==> n / 4096 % 64 >= 0x10)
    ensures n / 262144 == 4 ==> n / 4096 % 64 < 0x10
  {
  }

  lemma FourBytes(c: char, rest: seq<Byte>)
    requires 0x10000 <= c as int
    ensures FirstChar(EncodeChar(c) + rest) == (c, 4)
  {
    var n := c as int;
    var b := EncodeChar(c) + rest;
    var t, h, m, l := n / 262144, n / 4096 % 64, n / 64 % 64, n % 64;
    Sextets(n);
    assert b[0] == 0xF0 + t && b[1] == 0x80 + h && b[2] == 0x80 + m && b[3] == 0x80 + l;
    assert Second(b[0], b[1]) && Trail(b[2]) && Trail(b[3]);
  }

  /** A character that is cut off is replaced as a whole. */
  lemma TruncatedTells(c: char, k: nat)
    requires 0 < k < |EncodeChar(c)|
    ensures FirstChar(EncodeChar(c)[..k]) == (0xFFFD as char, k)
  {
    var n := c as int;
    var b := EncodeChar(c)[..k];
    if n >= 0x10000 {
      Sextets(n);
      assert k > 1 ==> Second(b[0], b[1]);
    } else if n >= 0x800 {
      assert k > 1 ==> b[1] == 0x80 + n / 64 % 64 && Second(b[0], b[1]);
    }
  }

  /** A byte that starts no character is replaced by itself. */
  lemma StrayTells(b: Byte, rest: seq<Byte>)
    requires 0x80 <= b < 0xC2 || b >= 0xF5
    ensures FirstChar([b] + rest) == (0xFFFD as char, 1)
  {
  }

  lemma DecodeEncoded(c: char, rest: seq<Byte>)
    ensures Decode(EncodeChar(c) + rest) == [c] + Decode(rest)
  {
    var n := c as int;
    if n >= 0x10000 {
      FourBytes(c, rest);
    } else if n >= 0x800 {
      ThreeBytes(c, rest);
    } else if n >= 0x80 {
      TwoBytes(c, rest);
    }
    assert (EncodeChar(c) + rest)[|EncodeChar(c)|..] == rest;
  }

  // ------------------------------------------------------------- percent signs

  predicate IsHex(c: char) {
    '0' <= c <= '9' || 'a' <= c <= 'f' || 'A' <= c <= 'F'
  }

  function HexValue(c: char): (v: nat)
    requires IsHex(c)
    ensures v < 16
  {
    if '0' <= c <= '9' then c as int - '0' as int
    else if 'a' <= c <= 'f' then c as int - 'a' as int + 10
    else c as int - 'A' as int + 10
  }

  function HexDigit(v: nat): (c: char)
    requires v < 16
    ensures IsHex(c) && HexValue(c) == v
  {
    if v < 10 then ('0' as int + v) as char else ('A' as int + v - 10) as char
  }

  /** The digits are the usual ones, in either case. */
  lemma HexTells(c: char)
    ensures IsHex(c) <==> c in "0123456789abcdefABCDEF"
    ensures 'a' <= c <= 'f' ==> HexValue(c) == HexValue((c as int - 32) as char)
    ensures HexValue('0') == 0 && HexValue('9') == 9 && HexValue('A') == 10 && HexValue('F') == 15
    ensures IsHex(c) && c !in "9fF" ==> IsHex((c as int + 1) as char) && HexValue((c as int + 1) as char) == HexValue(c) + 1
  {
  }

  predicate Escaped(s: string) {
    |s| >= 3 && s[0] == '%' && IsHex(s[1]) && IsHex(s[2])
  }

  predicate HasEscape(s: string) {
    s != "" && (Escaped(s) || HasEscape(s[1..]))
  }

  /** unquote(s): the bytes of a run of ASCII characters are decoded together. */
  function Unquote(s: string): string {
    Runs(s, [])
  }

  function Runs(s: string, held: seq<Byte>): string
    decreases |s|
  {
    if s == "" then Decode(held)
    else if s[0] as int >= 0x80 then Decode(held) + [s[0]] + Runs(s[1..], [])
    else if Escaped(s) then Runs(s[3..], held + [HexValue(s[1]) * 16 + HexValue(s[2])])
    else Runs(s[1..], held + [s[0] as int])
  }

  /** Every character that is not safe as the percent-encoded bytes of its UTF-8 form. */
  function Quote(safe: char -> bool, s: string): string {
    if s == "" then ""
    else (if safe(s[0]) then [s[0]] else PercentAll(EncodeChar(s[0]))) + Quote(safe, s[1..])
  }

  function PercentAll(b: seq<Byte>): string {
    if b == [] then "" else ['%', HexDigit(b[0] / 16), HexDigit(b[0] % 16)] + PercentAll(b[1..])
  }

  function EncodeAll(s: string): seq<Byte> {
    if s == "" then [] else EncodeAll(s[..|s| - 1]) + EncodeChar(s[|s| - 1])
  }

  lemma Regroup<T>(a: seq<T>, b: seq<T>, c: seq<T>)
    ensures (a + b) + c == a + (b + c)
  {
  }

  lemma {:induction false} DecodeAll(s: string, rest: seq<Byte>)
    ensures Decode(EncodeAll(s) + rest) == s + Decode(rest)
    decreases |s|
  {
    if s == "" {
      assert EncodeAll(s) + rest == rest;
    } else {
      var front, c := s[..|s| - 1], s[|s| - 1];
      Regroup(EncodeAll(front), EncodeChar(c), rest);
      DecodeAll(front, EncodeChar(c) + rest);
      DecodeEncoded(c, rest);
      Regroup(front, [c], Decode(rest));
      assert s == front + [c];
    }
  }

  lemma DecodeHeld(s: string)
    ensures Decode(EncodeAll(s)) == s
  {
    DecodeAll(s, []);
    assert EncodeAll(s) + [] == EncodeAll(s);
  }

  lemma EncodeMore(s: string, c: char)
    ensures EncodeAll(s + [c]) == EncodeAll(s) + EncodeChar(c)
  {
    assert (s + [c])[..|s + [c]| - 1] == s;
  }

  lemma {:induction false} RunsPercent(b: seq<Byte>, rest: string, held: seq<Byte>)
    ensures Runs(PercentAll(b) + rest, held) == Runs(rest, held + b)
    decreases |b|
  {
    if b == [] {
      assert PercentAll(b) + rest == rest && held + b == held;
    } else {
      var s := PercentAll(b) + rest;
      assert s[3..] == PercentAll(b[1..]) + rest;
      RunsPercent(b[1..], rest, held + [b[0]]);
      assert held + [b[0]] + b[1..] == held + b;
    }
  }

  lemma HighRuns(c: char, rest: string, before: string, after: string)
    requires c as int >= 0x80 && Runs(rest, []) == after
    ensures Runs([c] + rest, EncodeAll(before)) == before + ([c] + after)
  {
    assert ([c] + rest)[1..] == rest;
    DecodeHeld(before);
  }

  lemma LowRuns(c: char, rest: string, before: string, after: string)
    requires c as int < 0x80 && !Escaped([c] + rest)
    requires Runs(rest, EncodeAll(before + [c])) == before + [c] + after
    ensures Runs([c] + rest, EncodeAll(before)) == before + ([c] + after)
  {
    assert ([c] + rest)[1..] == rest;
    EncodeMore(before, c);
    assert before + [c] + after == before + ([c] + after);
  }

  lemma CodedRuns(c: char, rest: string, before: string, after: string)
    requires Runs(rest, EncodeAll(before + [c])) == before + [c] + after
    ensures Runs(PercentAll(EncodeChar(c)) + rest, EncodeAll(before)) == before + ([c] + after)
  {
    RunsPercent(EncodeChar(c), rest, EncodeAll(before));
    EncodeMore(before, c);
    assert before + [c] + after == before + ([c] + after);
  }

  /** Decoding undoes the encoding, whatever is left unencoded apart from the percent sign. */
  lemma {:induction false} RunsQuoted(safe: char -> bool, s: string, before: string)
    requires !safe('%')
    ensures Runs(Quote(safe, s), EncodeAll(before)) == before + s
    decreases |s|
  {
    if s == "" {
      DecodeHeld(before);
    } else {
      var c, tail := s[0], s[1..];
      assert [c] + tail == s;
      if safe(c) {
        if c as int >= 0x80 {
          RunsQuoted(safe, tail, "");
          HighRuns(c, Quote(safe, tail), before, tail);
        } else {
          RunsQuoted(safe, tail, before + [c]);
          LowRuns(c, Quote(safe, tail), before, tail);
        }
      } else {
        RunsQuoted(safe, tail, before + [c]);
        CodedRuns(c, Quote(safe, tail), before, tail);
      }
    }
  }

  lemma QuoteRoundTrip(safe: char -> bool, s: string)
    requires !safe('%')
    ensures Unquote(Quote(safe, s)) == s
  {
    RunsQuoted(safe, s, "");
    assert "" + s == s;
  }

  lemma {:induction false} RunsPlain(s: string, before: string)
    requires !HasEscape(s)
    ensures Runs(s, EncodeAll(before)) == before + s
    decreases |s|
  {
    if s == "" {
      DecodeHeld(before);
    } else {
      var c, tail := s[0], s[1..];
      assert [c] + tail == s;
      if c as int >= 0x80 {
        RunsPlain(tail, "");
        HighRuns(c, tail, before, tail);
      } else {
        RunsPlain(tail, before + [c]);
        LowRuns(c, tail, before, tail);
      }
    }
  }

  lemma {:induction false} RunsShorter(s: string, held: seq<Byte>)
    ensures |Runs(s, held)| <= |held| + |s|
    ensures HasEscape(s) ==> |Runs(s, held)| < |held| + |s|
    decreases |s|
  {
    if s != "" {
      if s[0] as int >= 0x80 {
        RunsShorter(s[1..], []);
      } else if Escaped(s) {
        RunsShorter(s[3..], held + [HexValue(s[1]) * 16 + HexValue(s[2])]);
      } else {
        RunsShorter(s[1..], held + [s[0] as int]);
      }
    }
  }

  /** A text stands for itself exactly when it holds no percent sign with two hexadecimal digits. */
  lemma StandsForItself(s: string)
    ensures Unquote(s) == s <==> !HasEscape(s)
  {
    if HasEscape(s) {
      RunsShorter(s, []);
    } else {
      RunsPlain(s, "");
      assert "" + s == s;
    }
  }
}

/** JSON pointers as URI fragments, resolved through nested objects. */
module JsonPointer {
  import opened Wrappers
  import opened Texts
  import opened Percent

  /** An object, or any other value; the resolver does not look into arrays. */
  datatype Document = Dict(members: map<string, Document>) | Value(text: string)

  datatype Resolved = Found(value: Document) | UnsupportedFragment | KeyError(token: string)

  /** token.replace("~1", "/").replace("~0", "~") */
  function Unescape(token: string): string {
    Replace(Replace(token, "~1", "/"), "~0", "~")
  }

  function DecodeToken(token: string): string {
    Unescape(Unquote(token))
  }

  /** The value at a path, or the first key that is not there. */
  function ValueAt(document: Document, path: seq<string>): Resolved
    decreases |path|
  {
    if path == [] then Found(document)
    else if document.Dict? && path[0] in document.members then ValueAt(document.members[path[0]], path[1..])
    else KeyError(path[0])
  }

  /** One object after the other, each the member of the one before under the next key. */
  ghost predicate Leads(document: Document, keys: seq<string>, chain: seq<Document>) {
    && |chain| == |keys| + 1 && chain[0] == document
    && forall i | 0 <= i < |keys| :: chain[i].Dict? && keys[i] in chain[i].members && chain[i + 1] == chain[i].members[keys[i]]
  }

  lemma LeadsOn(document: Document, keys: seq<string>, chain: seq<Document>)
    requires document.Dict? && keys != [] && keys[0] in document.members
    requires Leads(document.members[keys[0]], keys[1..], chain)
    ensures Leads(document, keys, [document] + chain)
  {
  }

  /** What a path leads to: the value at the end of its chain, or the first key that leads nowhere. */
  lemma {:induction false} ValueAtTells(document: Document, path: seq<string>) returns (n: nat, chain: seq<Document>)
    ensures n <= |path| && Leads(document, path[..n], chain)
    ensures ValueAt(document, path)
            == if n == |path| then Found(chain[n]) else KeyError(path[n])
    ensures n < |path| ==> !(chain[n].Dict? && path[n] in chain[n].members)
    decreases |path|
  {
    if path == [] || !document.Dict? || path[0] !in document.members {
      n, chain := 0, [document];
    } else {
      var m, rest := ValueAtTells(document.members[path[0]], path[1..]);
      n, chain := m + 1, [document] + rest;
      assert path[1..][..m] == path[..n][1..];
      LeadsOn(document, path[..n], rest);
    }
  }

  function DecodeTokens(tokens: seq<string>): seq<string> {
    if tokens == [] then [] else [DecodeToken(tokens[0])] + DecodeTokens(tokens[1..])
  }

  /** The path that a fragment names, if any. */
  function PathOf(fragment: string): Option<seq<string>> {
    if fragment == "" then Some([])
    else if fragment[0] != '/' then None
    else Some(DecodeTokens(Split(fragment[1..], '/')))
  }

  function Resolve(document: Document, fragment: string): Resolved {
    match PathOf(fragment)
    case Some(path) => ValueAt(document, path)
    case None => UnsupportedFragment
  }

  /** A fragment is refused as such exactly when it is neither empty nor begins with a slash. */
  lemma UnsupportedTells(document: Document, fragment: string)
    ensures Resolve(document, fragment) == UnsupportedFragment <==> fragment != "" && fragment[0] != '/'
    ensures Resolve(document, "") == Found(document)
  {
    if fragment != "" && fragment[0] == '/' {
      var n, chain := ValueAtTells(document, DecodeTokens(Split(fragment[1..], '/')));
    }
  }

  method ResolvePointer(document: Document, fragment: string) returns (r: Resolved)
    ensures r == Resolve(document, fragment)
  {
    var value := document;
    if fragment == "" {
      return Found(value);
    }
    if fragment[0] != '/' {
      return UnsupportedFragment;
    }
    var tokens := Split(fragment[1..], '/');
    ghost var path := DecodeTokens(tokens);
    var i := 0;
    while i < |tokens|
      invariant i <= |tokens|
      invariant ValueAt(document, path) == ValueAt(value, DecodeTokens(tokens[i..]))
    {
      var token := DecodeToken(tokens[i]);
      assert tokens[i..][1..] == tokens[i + 1..];
      if !value.Dict? || token !in value.members {
        return KeyError(token);
      }
      value := value.members[token];
      i := i + 1;
    }
    return Found(value);
  }

  // ---------------------------------------------------------------- printing

  /** "~" as "~0" and "/" as "~1" */
  function Escape(key: string): string {
    if key == "" then ""
    else (if key[0] == '~' then "~0" else if key[0] == '/' then "~1" else [key[0]]) + Escape(key[1..])
  }

  /** A path as a fragment; `safe` says which characters are not percent-encoded. */
  function Print(safe: char -> bool, path: seq<string>): string {
    if path == [] then "" else "/" + Quote(safe, Escape(path[0])) + Print(safe, path[1..])
  }

  function Half(key: string): string {
    if key == "" then "" else (if key[0] == '~' then "~0" else [key[0]]) + Half(key[1..])
  }

  lemma {:induction false} UnescapeSlash(key: string)
    ensures Replace(Escape(key), "~1", "/") == Half(key)
    decreases |key|
  {
    if key != "" {
      UnescapeSlash(key[1..]);
      var rest := Escape(key[1..]);
      if key[0] == '~' {
        var s := "~0" + rest;
        assert s[1..] == "0" + rest && s[1..][1..] == rest;
        assert !StartsWith(s, "~1") by { assert s[..2] == "~0"; }
        assert !StartsWith(s[1..], "~1") by { assert s[1..][0] == '0'; }
        assert Replace(s, "~1", "/") == ['~'] + (['0'] + Replace(rest, "~1", "/"));
      } else if key[0] == '/' {
        var s := "~1" + rest;
        assert s[..2] == "~1" && s[2..] == rest;
      } else {
        var s := [key[0]] + rest;
        assert s[1..] == rest;
        assert !StartsWith(s, "~1") by { assert s[0] != '~'; }
      }
    }
  }

  lemma {:induction false} UnescapeTilde(key: string)
    ensures Replace(Half(key), "~0", "~") == key
    decreases |key|
  {
    if key != "" {
      UnescapeTilde(key[1..]);
      var rest := Half(key[1..]);
      assert key == [key[0]] + key[1..];
      if key[0] == '~' {
        var s := "~0" + rest;
        assert s[..2] == "~0" && s[2..] == rest;
      } else {
        var s := [key[0]] + rest;
        assert s[1..] == rest;
        assert !StartsWith(s, "~0") by { assert s[0] != '~'; }
      }
    }
  }

  /** Decoding "~1" and then "~0" undoes the escape of every key. */
  lemma EscapeRoundTrip(key: string)
    ensures Unescape(Escape(key)) == key
  {
    UnescapeSlash(key);
    UnescapeTilde(key);
  }

  lemma TokenRoundTrip(safe: char -> bool, key: string)
    requires !safe('%')
    ensures DecodeToken(Quote(safe, Escape(key))) == key
  {
    QuoteRoundTrip(safe, Escape(key));
    EscapeRoundTrip(key);
  }

  lemma {:induction false} EscapedHasNoSlash(key: string)
    ensures '/' !in Escape(key)
    decreases |key|
  {
    if key != "" {
      EscapedHasNoSlash(key[1..]);
    }
  }

  lemma {:induction false} PercentHasNoSlash(b: seq<Byte>)
    ensures '/' !in PercentAll(b)
    decreases |b|
  {
    if b != [] {
      PercentHasNoSlash(b[1..]);
    }
  }

  lemma {:induction false} QuotedHasNoSlash(safe: char -> bool, s: string)
    requires '/' !in s
    ensures '/' !in Quote(safe, s)
    decreases |s|
  {
    if s != "" {
      PercentHasNoSlash(EncodeChar(s[0]));
      QuotedHasNoSlash(safe, s[1..]);
    }
  }

  lemma TokenHasNoSlash(safe: char -> bool, key: string)
    ensures '/' !in Quote(safe, Escape(key))
  {
    EscapedHasNoSlash(key);
    QuotedHasNoSlash(safe, Escape(key));
  }

  lemma DecodeFirst(token: string, tokens: seq<string>)
    ensures DecodeTokens([token] + tokens) == [DecodeToken(token)] + DecodeTokens(tokens)
  {
    assert ([token] + tokens)[1..] == tokens;
  }

  /** A fragment of one token, or of one token before another fragment. */
  lemma SplitFirst(token: string, rest: string)
    requires '/' !in token && (rest == "" || rest[0] == '/')
    ensures Split(token + rest, '/') == [token] + if rest == "" then [] else Split(rest[1..], '/')
  {
    if rest == "" {
      assert token + rest == token;
      SplitPart(token, "", '/');
    } else {
      assert token + rest == token + ['/'] + rest[1..];
      SplitPart(token, rest[1..], '/');
    }
  }

  lemma {:induction false} PrintedTokens(safe: char -> bool, path: seq<string>)
    requires !safe('%') && path != []
    ensures Print(safe, path)[0] == '/' && DecodeTokens(Split(Print(safe, path)[1..], '/')) == path
    decreases |path|
  {
    var token, rest := Quote(safe, Escape(path[0])), Print(safe, path[1..]);
    assert Print(safe, path) == "/" + (token + rest);
    TokenHasNoSlash(safe, path[0]);
    TokenRoundTrip(safe, path[0]);
    if |path| > 1 {
      PrintedTokens(safe, path[1..]);
    }
    FirstToken(token, rest);
    assert path == [path[0]] + path[1..];
  }

  lemma FirstToken(token: string, rest: string)
    requires '/' !in token && (rest == "" || rest[0] == '/')
    ensures DecodeTokens(Split(token + rest, '/'))
            == [DecodeToken(token)] + if rest == "" then [] else DecodeTokens(Split(rest[1..], '/'))
  {
    var tokens := if rest == "" then [] else Split(rest[1..], '/');
    SplitFirst(token, rest);
    DecodeFirst(token, tokens);
  }

  /** For every document and every path of keys, however it is percent-encoded: resolving the
      printed pointer gives the value at the path, or the first key on it that is missing. */
  lemma PrintedPathResolves(safe: char -> bool, path: seq<string>, document: Document)
    requires !safe('%')
    ensures Resolve(document, Print(safe, path)) == ValueAt(document, path)
  {
    if path != [] {
      PrintedTokens(safe, path);
    }
  }

  // ------------------------------------------------- keys printed as they are

  predicate Pair(s: string) {
    |s| >= 2 && s[0] == '~' && (s[1] == '0' || s[1] == '1')
  }

  /** How many escape sequences of two characters a text holds. */
  function PairsIn(s: string): nat {
    if s == "" then 0 else (if Pair(s) then 1 else 0) + PairsIn(s[1..])
  }

  lemma {:induction false} PairsJoin(a: string, b: string)
    ensures PairsIn(a + b) >= PairsIn(a) + PairsIn(b)
    decreases |a|
  {
    if a == "" {
      assert a + b == b;
    } else {
      assert (a + b)[1..] == a[1..] + b;
      PairsJoin(a[1..], b);
    }
  }

  /** A character that is in no escape sequence separates. */
  lemma {:induction false} PairsApart(a: string, c: char, b: string)
    requires c != '~' && c != '0' && c != '1'
    ensures PairsIn(a + [c] + b) == PairsIn(a) + PairsIn(b)
    decreases |a|
  {
    var s := a + [c] + b;
    if a == "" {
      assert s[1..] == b;
    } else {
      assert s[1..] == a[1..] + [c] + b;
      PairsApart(a[1..], c, b);
      assert |a| == 1 ==> s[1] == c;
    }
  }

  function Chars(b: seq<Byte>): string {
    seq(|b|, i requires 0 <= i < |b| => (b[i] as int) as char)
  }

  lemma {:induction false} HighPairs(b: seq<Byte>, k: nat)
    requires k <= |b| && forall i | 0 <= i < k :: b[i] >= 0x80
    ensures PairsIn(Chars(b)) == PairsIn(Chars(b[k..]))
    decreases k
  {
    if k == 0 {
      assert b[0..] == b;
    } else {
      assert Chars(b)[1..] == Chars(b[1..]) && b[1..][k - 1..] == b[k..];
      HighPairs(b[1..], k - 1);
    }
  }

  /** Only bytes above the ASCII range are decoded together. */
  lemma FirstCharHigh(b: seq<Byte>)
    requires b != []
    ensures b[0] < 0x80 ==> FirstChar(b) == ((b[0] as int) as char, 1)
    ensures b[0] >= 0x80 ==> FirstChar(b).0 as int >= 0x80 || FirstChar(b).0 != '~'
    ensures b[0] >= 0x80 ==> forall i | 0 <= i < FirstChar(b).1 :: b[i] >= 0x80
  {
  }

  lemma {:induction false} PairsDecode(b: seq<Byte>)
    ensures PairsIn(Decode(b)) >= PairsIn(Chars(b))
    decreases |b|
  {
    if b != [] {
      var k := FirstChar(b).1;
      FirstCharHigh(b);
      PairsDecode(b[k..]);
      assert Decode(b)[1..] == Decode(b[k..]);
      if b[0] < 0x80 {
        assert Chars(b)[1..] == Chars(b[1..]);
        if Pair(Chars(b)) {
          FirstCharHigh(b[1..]);
          assert b[1] == 0x30 || b[1] == 0x31;
        }
      } else {
        HighPairs(b, k);
      }
    }
  }

  /** A percent escape in the middle holds no part of an escape sequence. */
  lemma PairsAcross(a: string, s: string, c: char)
    requires Escaped(s)
    ensures PairsIn(a + ([c] + s[3..])) >= PairsIn(a + s)
  {
    var one, two, three := s[1..], s[2..], s[3..];
    assert a + s == a + ['%'] + one;
    PairsApart(a, '%', one);
    assert one[1..] == two && two[1..] == three && one[0] != '~' && two[0] != '~';
    PairsJoin([c], three);
    PairsJoin(a, [c] + three);
  }

  lemma PairsHigh(decoded: string, held: string, c: char, after: string, rest: string)
    requires c as int >= 0x80 && PairsIn(decoded) >= PairsIn(held) && PairsIn(after) >= PairsIn(rest)
    ensures PairsIn(decoded + [c] + after) >= PairsIn(held + ([c] + rest))
  {
    PairsApart(decoded, c, after);
    PairsApart(held, c, rest);
    assert held + ([c] + rest) == held + [c] + rest;
  }

  lemma CharsMore(held: seq<Byte>, v: Byte, rest: string)
    ensures Chars(held + [v]) + rest == Chars(held) + ([(v as int) as char] + rest)
  {
  }

  /** Percent-decoding keeps every escape sequence. */
  lemma {:induction false} PairsRuns(s: string, held: seq<Byte>)
    ensures PairsIn(Runs(s, held)) >= PairsIn(Chars(held) + s)
    decreases |s|
  {
    if s == "" {
      PairsDecode(held);
      assert Chars(held) + s == Chars(held);
    } else if s[0] as int >= 0x80 {
      PairsRuns(s[1..], []);
      PairsDecode(held);
      assert Chars([]) + s[1..] == s[1..] && [s[0]] + s[1..] == s;
      PairsHigh(Decode(held), Chars(held), s[0], Runs(s[1..], []), s[1..]);
    } else if Escaped(s) {
      var v: Byte := HexValue(s[1]) * 16 + HexValue(s[2]);
      PairsRuns(s[3..], held + [v]);
      CharsMore(held, v, s[3..]);
      PairsAcross(Chars(held), s, (v as int) as char);
    } else {
      PairsRuns(s[1..], held + [s[0] as int]);
      CharsMore(held, s[0] as int, s[1..]);
      assert [s[0]] + s[1..] == s;
    }
  }

  function CountOf(s: string, p: string): nat {
    if s == "" then 0 else (if StartsWith(s, p) then 1 else 0) + CountOf(s[1..], p)
  }

  lemma {:induction false} CountPairs(s: string)
    ensures PairsIn(s) == CountOf(s, "~0") + CountOf(s, "~1")
  {
    if s != "" {
      CountPairs(s[1..]);
      if |s| >= 2 {
        assert s[..2] == [s[0], s[1]];
      }
    }
  }

  lemma {:induction false} ReplaceLength(s: string, a: char, b: char, put: char)
    requires a != b
    ensures |Replace(s, [a, b], [put])| + CountOf(s, [a, b]) == |s|
    decreases |s|
  {
    if s != "" {
      if StartsWith(s, [a, b]) {
        ReplaceLength(s[2..], a, b, put);
        assert s[..2][0] == a && s[..2][1] == b;
        assert s[1..][1..] == s[2..] && s[1..][0] == b;
        assert !StartsWith(s[1..], [a, b]) by { if |s| >= 3 { assert s[1..][..2][0] == b; } }
      } else {
        ReplaceLength(s[1..], a, b, put);
      }
    }
  }

  lemma {:induction false} TildesStay(s: string)
    ensures CountOf(Replace(s, "~1", "/"), "~0") >= CountOf(s, "~0")
    decreases |s|
  {
    if s != "" {
      if StartsWith(s, "~1") {
        TildesStay(s[2..]);
        var r := Replace(s[2..], "~1", "/");
        assert s[..2][0] == '~' && s[..2][1] == '1' && s[1..][1..] == s[2..] && s[1..][0] == '1';
        assert !StartsWith(s, "~0") && !StartsWith(s[1..], "~0");
        assert ("/" + r)[1..] == r;
      } else {
        TildesStay(s[1..]);
        var r := Replace(s[1..], "~1", "/");
        assert ([s[0]] + r)[1..] == r;
        if StartsWith(s, "~0") {
          assert s[..2][0] == '~' && s[..2][1] == '0' && s[1..][0] == '0';
          assert !StartsWith(s[1..], "~1");
          assert r[0] == '0';
          assert ([s[0]] + r)[..2] == "~0";
        }
      }
    }
  }

  lemma UnescapedLength(s: string)
    ensures |Unescape(s)| + PairsIn(s) <= |s|
  {
    ReplaceLength(s, '~', '1', '/');
    ReplaceLength(Replace(s, "~1", "/"), '~', '0', '~');
    TildesStay(s);
    CountPairs(s);
    assert "~1" == ['~', '1'] && "~0" == ['~', '0'] && "/" == ['/'] && "~" == ['~'];
  }

  lemma {:induction false} EscapedLength(key: string)
    ensures |Escape(key)| == |key| + PairsIn(Escape(key))
    decreases |key|
  {
    if key != "" {
      EscapedLength(key[1..]);
      var rest := Escape(key[1..]);
      if key[0] == '~' || key[0] == '/' {
        var s := (if key[0] == '~' then "~0" else "~1") + rest;
        assert Escape(key) == s && s[1..][1..] == rest && s[0] == '~' && (s[1] == '0' || s[1] == '1');
        assert PairsIn(s[1..]) == PairsIn(rest);
      } else {
        assert ([key[0]] + rest)[1..] == rest;
      }
    }
  }

  /** A key that is printed without percent-encoding comes back exactly when its escaped form holds
      no percent sign with two hexadecimal digits. */
  lemma RawTokenExact(key: string)
    ensures DecodeToken(Escape(key)) == key <==> !HasEscape(Escape(key))
  {
    var e := Escape(key);
    if HasEscape(e) {
      RunsShorter(e, []);
      PairsRuns(e, []);
      assert Chars([]) + e == e;
      UnescapedLength(Unquote(e));
      EscapedLength(key);
    } else {
      StandsForItself(e);
      EscapeRoundTrip(key);
    }
  }
}
