/** Quoting a string as an XPath 1.0 expression, and reading such expressions back. */
module XPathLiteral {
  import opened Wrappers
  import opened Texts

  /** The text between two quotes. */
  function Quoted(part: string): string {
    "'" + part + "'"
  }

  const GLUE := ", \"'\", "

  function Literal(value: string): string {
    if '\'' !in value then Quoted(value)
    else if '"' !in value then "\"" + value + "\""
    else "concat(" + Join(QuoteAll(Split(value, '\'')), GLUE) + ")"
  }

  function QuoteAll(parts: seq<string>): seq<string> {
    if parts == [] then [] else [Quoted(parts[0])] + QuoteAll(parts[1..])
  }

  // -------------------------------------------- reading, after XPath 1.0 3.7

  datatype Token = Lit(value: string) | Name(name: string) | Open | Comma | Close

  function IndexOf(s: string, c: char): (i: nat)
    ensures i <= |s| && (i < |s| ==> s[i] == c) && forall j | 0 <= j < i :: s[j] != c
  {
    if s == "" || s[0] == c then 0 else 1 + IndexOf(s[1..], c)
  }

  predicate IsLetter(c: char) {
    'a' <= c <= 'z' || 'A' <= c <= 'Z'
  }

  function Letters(s: string): (n: nat)
    ensures n <= |s|
  {
    if s == "" || !IsLetter(s[0]) then 0 else 1 + Letters(s[1..])
  }

  predicate IsBlank(c: char) {
    c == ' ' || c == '\t' || c == '\n' || c == '\r'
  }

  /** A literal runs to the next quote of its own kind, a name over all its letters. */
  function Lex(s: string): Option<seq<Token>>
    decreases |s|
  {
    if s == "" then Some([])
    else if IsBlank(s[0]) then Lex(s[1..])
    else if s[0] == '\'' || s[0] == '"' then
      var n := IndexOf(s[1..], s[0]);
      if n == |s| - 1 then None else Before([Lit(s[1..n + 1])], Lex(s[n + 2..]))
    else if s[0] == '(' then Before([Open], Lex(s[1..]))
    else if s[0] == ',' then Before([Comma], Lex(s[1..]))
    else if s[0] == ')' then Before([Close], Lex(s[1..]))
    else if IsLetter(s[0]) then Before([Name(s[..Letters(s)])], Lex(s[Letters(s)..]))
    else None
  }

  function Before(first: seq<Token>, rest: Option<seq<Token>>): Option<seq<Token>> {
    match rest
    case Some(ts) => Some(first + ts)
    case None => None
  }

  /** Literals separated by commas up to the final bracket. */
  function Arguments(ts: seq<Token>): Option<seq<string>> {
    if |ts| < 2 || !ts[0].Lit? then None
    else if ts[1].Close? then (if |ts| == 2 then Some([ts[0].value]) else None)
    else if !ts[1].Comma? then None
    else
      match Arguments(ts[2..])
      case Some(rest) => Some([ts[0].value] + rest)
      case None => None
  }

  /** The arguments of a call of concat, which takes at least two. */
  function ConcatArguments(s: string): Option<seq<string>> {
    match Lex(s)
    case None => None
    case Some(ts) =>
      if |ts| < 2 || ts[0] != Name("concat") || ts[1] != Open then None
      else
        match Arguments(ts[2..])
        case Some(args) => if |args| >= 2 then Some(args) else None
        case None => None
  }

  /** The string that a literal or a call of concat on literals stands for. */
  function Evaluate(s: string): Option<string> {
    match Lex(s)
    case None => None
    case Some(ts) =>
      if |ts| == 1 && ts[0].Lit? then Some(ts[0].value)
      else
        match ConcatArguments(s)
        case Some(args) => Some(Join(args, ""))
        case None => None
  }

  // ------------------------------------------------------------ lexing facts

  lemma IndexOfIs(body: string, q: char, rest: string)
    requires q !in body
    ensures IndexOf(body + [q] + rest, q) == |body|
  {
    var s := body + [q] + rest;
    assert s[|body|] == q && forall j | 0 <= j < |body| :: s[j] == body[j];
  }

  lemma LexQuote(q: char, body: string, rest: string)
    requires (q == '\'' || q == '"') && q !in body
    ensures Lex([q] + body + [q] + rest) == Before([Lit(body)], Lex(rest))
  {
    var s := [q] + body + [q] + rest;
    assert s[1..] == body + [q] + rest;
    IndexOfIs(body, q, rest);
    assert s[1..|body| + 1] == body && s[|body| + 2..] == rest;
  }

  lemma BeforeBefore(a: seq<Token>, b: seq<Token>, rest: Option<seq<Token>>)
    ensures Before(a, Before(b, rest)) == Before(a + b, rest)
  {
    if rest.Some? {
      assert a + (b + rest.value) == a + b + rest.value;
    }
  }

  lemma LexComma(rest: string)
    ensures Lex([',', ' '] + rest) == Before([Comma], Lex(rest))
  {
    var s := [',', ' '] + rest;
    assert s[1..] == [' '] + rest && ([' '] + rest)[1..] == rest;
  }

  const BETWEEN: seq<Token> := [Comma, Lit("'"), Comma]

  lemma LexGlue(rest: string)
    ensures Lex(GLUE + rest) == Before(BETWEEN, Lex(rest))
  {
    var more := [',', ' '] + rest;
    var quote := ['"'] + "'" + ['"'] + more;
    assert GLUE + rest == [',', ' '] + quote;
    LexComma(quote);
    LexQuote('"', "'", more);
    LexComma(rest);
    BeforeBefore([Lit("'")], [Comma], Lex(rest));
    BeforeBefore([Comma], [Lit("'")] + [Comma], Lex(rest));
    assert [Comma] + ([Lit("'")] + [Comma]) == BETWEEN;
  }

  lemma LexPart(part: string, tail: string)
    requires '\'' !in part
    ensures Lex(Quoted(part) + (GLUE + tail)) == Before([Lit(part)] + BETWEEN, Lex(tail))
  {
    assert Quoted(part) + (GLUE + tail) == ['\''] + part + ['\''] + (GLUE + tail);
    LexQuote('\'', part, GLUE + tail);
    LexGlue(tail);
    BeforeBefore([Lit(part)], BETWEEN, Lex(tail));
  }

  lemma LexLast(part: string)
    requires '\'' !in part
    ensures Lex(Quoted(part) + ")") == Some([Lit(part), Close])
  {
    assert Quoted(part) + ")" == ['\''] + part + ['\''] + ")";
    LexQuote('\'', part, ")");
    assert [')'][1..] == "" && [Close] + [] == [Close];
    assert Lex(")") == Some([Close]);
    assert [Lit(part)] + [Close] == [Lit(part), Close];
  }

  lemma {:induction false} LettersIs(word: string, rest: string)
    requires forall i | 0 <= i < |word| :: IsLetter(word[i])
    requires rest != "" && !IsLetter(rest[0])
    ensures Letters(word + rest) == |word|
  {
    if word == "" {
      assert word + rest == rest;
    } else {
      assert (word + rest)[1..] == word[1..] + rest;
      LettersIs(word[1..], rest);
    }
  }

  lemma LexWord(word: string, rest: string)
    requires word != "" && forall i | 0 <= i < |word| :: IsLetter(word[i])
    requires rest != "" && !IsLetter(rest[0])
    ensures Lex(word + rest) == Before([Name(word)], Lex(rest))
  {
    var s := word + rest;
    LettersIs(word, rest);
    assert s[..|word|] == word && s[|word|..] == rest && s[0] == word[0];
  }

  lemma LexOpen(rest: string)
    ensures Lex(['('] + rest) == Before([Open], Lex(rest))
  {
    assert (['('] + rest)[1..] == rest;
  }

  // -------------------------------------------------------------- round trip

  /** The arguments that the parts become: themselves, with a quote between any two. */
  function Interleave(parts: seq<string>): seq<string> {
    if |parts| <= 1 then parts else [parts[0], "'"] + Interleave(parts[1..])
  }

  function ArgumentTokens(parts: seq<string>): seq<Token>
    requires parts != []
  {
    if |parts| == 1 then [Lit(parts[0]), Close]
    else [Lit(parts[0])] + BETWEEN + ArgumentTokens(parts[1..])
  }

  lemma JoinQuoted(parts: seq<string>)
    requires |parts| > 1
    ensures Join(QuoteAll(parts), GLUE) + ")" == Quoted(parts[0]) + (GLUE + (Join(QuoteAll(parts[1..]), GLUE) + ")"))
  {
    var quoted := QuoteAll(parts);
    assert quoted[1..] == QuoteAll(parts[1..]) && |quoted| > 1;
  }

  lemma {:induction false} LexArguments(parts: seq<string>)
    requires parts != [] && forall i | 0 <= i < |parts| :: '\'' !in parts[i]
    ensures Lex(Join(QuoteAll(parts), GLUE) + ")") == Some(ArgumentTokens(parts))
    decreases |parts|
  {
    if |parts| == 1 {
      assert QuoteAll(parts) == [Quoted(parts[0])];
      LexLast(parts[0]);
    } else {
      LexArguments(parts[1..]);
      JoinQuoted(parts);
      LexPart(parts[0], Join(QuoteAll(parts[1..]), GLUE) + ")");
    }
  }

  lemma ArgumentsStep(part: string, rest: seq<Token>, args: seq<string>)
    requires Arguments(rest) == Some(args)
    ensures Arguments([Lit(part)] + BETWEEN + rest) == Some([part, "'"] + args)
  {
    var ts := [Lit(part)] + BETWEEN + rest;
    assert ts[2..] == [Lit("'"), Comma] + rest && ts[2..][2..] == rest;
    assert Arguments(ts[2..]) == Some(["'"] + args);
    assert [part] + (["'"] + args) == [part, "'"] + args;
  }

  lemma JoinTwo(a: string, b: string, rest: seq<string>)
    requires rest != []
    ensures Join([a, b] + rest, "") == a + b + Join(rest, "")
  {
    var all := [a, b] + rest;
    assert all[1..] == [b] + rest && all[1..][1..] == rest;
    assert Join(all[1..], "") == b + "" + Join(rest, "");
  }

  lemma {:induction false} ArgumentsRead(parts: seq<string>)
    requires parts != []
    ensures Arguments(ArgumentTokens(parts)) == Some(Interleave(parts))
    ensures |Interleave(parts)| == 2 * |parts| - 1
    ensures Join(Interleave(parts), "") == Join(parts, "'")
    decreases |parts|
  {
    if |parts| == 1 {
      assert parts == [parts[0]];
    } else {
      ArgumentsRead(parts[1..]);
      ArgumentsStep(parts[0], ArgumentTokens(parts[1..]), Interleave(parts[1..]));
      JoinTwo(parts[0], "'", Interleave(parts[1..]));
    }
  }

  lemma LexCall(rest: string, ts: seq<Token>)
    requires Lex(rest) == Some(ts)
    ensures Lex("concat" + (['('] + rest)) == Some([Name("concat"), Open] + ts)
  {
    LexWord("concat", ['('] + rest);
    LexOpen(rest);
    BeforeBefore([Name("concat")], [Open], Lex(rest));
    assert [Name("concat")] + [Open] == [Name("concat"), Open];
  }

  lemma CallRead(s: string, ts: seq<Token>, args: seq<string>)
    requires Lex(s) == Some([Name("concat"), Open] + ts) && Arguments(ts) == Some(args) && |args| >= 2
    ensures ConcatArguments(s) == Some(args)
  {
    assert ([Name("concat"), Open] + ts)[2..] == ts;
  }

  lemma LiteralIs(value: string)
    requires '\'' in value && '"' in value
    ensures Literal(value) == "concat" + (['('] + (Join(QuoteAll(Split(value, '\'')), GLUE) + ")"))
  {
  }

  lemma ConcatRead(value: string)
    requires '\'' in value && '"' in value
    ensures ConcatArguments(Literal(value)) == Some(Interleave(Split(value, '\'')))
    ensures Lex(Literal(value)).Some? && |Lex(Literal(value)).value| > 1
    ensures |Interleave(Split(value, '\''))| >= 3
  {
    var parts := Split(value, '\'');
    var rest := Join(QuoteAll(parts), GLUE) + ")";
    SplitCount(value, '\'');
    LexArguments(parts);
    ArgumentsRead(parts);
    LexCall(rest, ArgumentTokens(parts));
    LiteralIs(value);
    CallRead("concat" + (['('] + rest), ArgumentTokens(parts), Interleave(parts));
  }

  /** Whatever the string, reading its literal as an XPath expression gives it back. */
  lemma RoundTrip(value: string)
    ensures Evaluate(Literal(value)) == Some(value)
  {
    if '\'' !in value {
      LexQuote('\'', value, "");
      assert Quoted(value) == ['\''] + value + ['\''] + "";
    } else if '"' !in value {
      LexQuote('"', value, "");
      assert Literal(value) == ['"'] + value + ['"'] + "";
    } else {
      ConcatRead(value);
      ArgumentsRead(Split(value, '\''));
      JoinSplit(value, '\'');
    }
  }

  /** A value with both quotes becomes a call of concat with at least three arguments: the parts
      between apostrophes, which hold none, and the apostrophes. */
  lemma ConcatShape(value: string)
    requires '\'' in value && '"' in value
    ensures var args := ConcatArguments(Literal(value));
            && args.Some? && |args.value| >= 3 && |args.value| == 2 * |Split(value, '\'')| - 1
            && forall i | 0 <= i < |args.value| :: '\'' !in args.value[i] || args.value[i] == "'"
  {
    ConcatRead(value);
    ArgumentsRead(Split(value, '\''));
    InterleaveParts(Split(value, '\''));
  }

  lemma {:induction false} InterleaveParts(parts: seq<string>)
    requires forall i | 0 <= i < |parts| :: '\'' !in parts[i]
    ensures forall i | 0 <= i < |Interleave(parts)| :: '\'' !in Interleave(parts)[i] || Interleave(parts)[i] == "'"
    decreases |parts|
  {
    if |parts| > 1 {
      InterleaveParts(parts[1..]);
    }
  }

  /** Distinct strings have distinct literals. */
  lemma Injective(a: string, b: string)
    requires Literal(a) == Literal(b)
    ensures a == b
  {
    RoundTrip(a);
    RoundTrip(b);
  }

  /** Apostrophes where they will do, then double quotes, and a call of concat only for a value that
      holds both. */
  lemma LiteralTells(value: string)
    ensures Literal(value) != ""
    ensures Literal(value)[0] == '\'' <==> '\'' !in value
    ensures Literal(value)[0] == '"' <==> '\'' in value && '"' !in value
    ensures Literal(value)[0] == 'c' <==> '\'' in value && '"' in value
  {
    if '\'' in value && '"' in value {
      assert Literal(value)[..7] == "concat(";
      assert Literal(value)[..7][0] == 'c';
    }
  }
}
