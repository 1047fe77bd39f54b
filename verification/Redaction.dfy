/** Hiding the names of environment variables in the report of a command that was run. */
module Redaction {
  import opened Texts

  const MARK := "<env-name>"

  // ------------------------------------------------------------- the command

  /** The item that follows a flag is hidden, unless the flag itself is a hidden item. */
  predicate Hidden(flags: set<string>, command: seq<string>, i: nat)
    requires i < |command|
  {
    i > 0 && !Hidden(flags, command, i - 1) && command[i - 1] in flags
  }

  /** How many items immediately before this one are flags. */
  function FlagsBefore(flags: set<string>, command: seq<string>, i: nat): (n: nat)
    requires i < |command|
    ensures n <= i && forall j | i - n <= j < i :: command[j] in flags
    ensures n < i ==> command[i - n - 1] !in flags
  {
    if i == 0 || command[i - 1] !in flags then 0 else 1 + FlagsBefore(flags, command, i - 1)
  }

  /** In a run of flags every second one is itself hidden: an item is hidden exactly when the flags
      immediately before it are odd in number. */
  lemma {:induction false} HiddenTells(flags: set<string>, command: seq<string>, i: nat)
    requires i < |command|
    ensures Hidden(flags, command, i) <==> FlagsBefore(flags, command, i) % 2 == 1
  {
    if i > 0 {
      HiddenTells(flags, command, i - 1);
    }
  }

  method RedactedCommand(flags: set<string>, command: seq<string>) returns (redacted: seq<string>)
    ensures |redacted| == |command|
    ensures forall i | 0 <= i < |command| :: redacted[i] == if Hidden(flags, command, i) then MARK else command[i]
  {
    redacted := [];
    var redactNext := false;
    for k := 0 to |command|
      invariant |redacted| == k
      invariant redactNext == (k > 0 && !Hidden(flags, command, k - 1) && command[k - 1] in flags)
      invariant forall i | 0 <= i < k :: redacted[i] == if Hidden(flags, command, i) then MARK else command[i]
    {
      if redactNext {
        redacted := redacted + [MARK];
        redactNext := false;
      } else {
        redacted := redacted + [command[k]];
        if command[k] in flags {
          redactNext := true;
        }
      }
    }
  }

  ghost predicate HidesName(flags: set<string>, command: seq<string>, name: string) {
    name != "" && exists i | 0 <= i < |command| :: Hidden(flags, command, i) && command[i] == name
  }

  /** The names are exactly the non-empty items that the redacted command hides. */
  method SecretEnvNames(flags: set<string>, command: seq<string>) returns (names: set<string>)
    ensures forall name :: name in names <==> HidesName(flags, command, name)
  {
    names := {};
    var captureNext := false;
    for k := 0 to |command|
      invariant captureNext == (k > 0 && !Hidden(flags, command, k - 1) && command[k - 1] in flags)
      invariant forall name :: name in names <==> HidesName(flags, command[..k], name)
    {
      HiddenPrefix(flags, command, k);
      if captureNext {
        if command[k] != "" {
          names := names + {command[k]};
        }
        captureNext := false;
      } else if command[k] in flags {
        captureNext := true;
      }
    }
    assert command[..|command|] == command;
  }

  lemma {:induction false} HiddenSame(flags: set<string>, a: seq<string>, b: seq<string>, i: nat)
    requires i < |a| <= |b| && b[..|a|] == a
    ensures Hidden(flags, a, i) == Hidden(flags, b, i)
  {
    assert forall j | 0 <= j < |a| :: a[j] == b[..|a|][j] == b[j];
    if i > 0 {
      HiddenSame(flags, a, b, i - 1);
    }
  }

  lemma HiddenPrefix(flags: set<string>, command: seq<string>, k: nat)
    requires k < |command|
    ensures forall name :: HidesName(flags, command[..k + 1], name) <==>
              HidesName(flags, command[..k], name) || (name != "" && name == command[k] && Hidden(flags, command, k))
  {
    var now, next := command[..k], command[..k + 1];
    forall i | 0 <= i < k
      ensures Hidden(flags, now, i) == Hidden(flags, next, i) && now[i] == next[i]
    {
      assert next[..|now|] == now;
      HiddenSame(flags, now, next, i);
    }
    HiddenSame(flags, next, command, k);
    forall name
      ensures HidesName(flags, next, name) <==>
                HidesName(flags, now, name) || (name != "" && name == command[k] && Hidden(flags, command, k))
    {
      if HidesName(flags, now, name) {
        var i :| 0 <= i < k && Hidden(flags, now, i) && now[i] == name;
        assert Hidden(flags, next, i) && next[i] == name;
      }
      if HidesName(flags, next, name) {
        var i :| 0 <= i < k + 1 && Hidden(flags, next, i) && next[i] == name;
        if i < k {
          assert Hidden(flags, now, i) && now[i] == name;
        }
      }
      if name != "" && name == command[k] && Hidden(flags, command, k) {
        assert Hidden(flags, next, k) && next[k] == name;
      }
    }
  }

  // ---------------------------------------------------------------- the text

  /** sorted(names, key=len, reverse=True), whatever the order among names of one length */
  ghost predicate LongestFirst(order: seq<string>, names: set<string>) {
    && (forall n :: n in order <==> n in names)
    && (forall i, j | 0 <= i < j < |order| :: order[i] != order[j] && |order[i]| >= |order[j]|)
  }

  function Redacted(text: string, order: seq<string>): string
    requires "" !in order
  {
    if order == [] then text
    else Replace(Redacted(text, order[..|order| - 1]), order[|order| - 1], MARK)
  }

  method RedactEnvNamesInText(text: string, ghost names: set<string>, order: seq<string>) returns (redacted: string)
    requires LongestFirst(order, names) && "" !in names
    ensures redacted == Redacted(text, order)
  {
    redacted := text;
    for k := 0 to |order|
      invariant redacted == Redacted(text, order[..k])
    {
      assert order[..k + 1][..k] == order[..k];
      redacted := Replace(redacted, order[k], MARK);
    }
    assert order[..|order|] == order;
  }

  /** The name and a mark that begins d places after it cannot stand in one text. */
  ghost predicate Clash(name: string, d: int) {
    exists j :: 0 <= j < |name| && 0 <= j - d < |MARK| && name[j] != MARK[j - d]
  }

  /** No mark can begin within the name. */
  ghost predicate ClearAhead(name: string) {
    forall d | 0 <= d < |name| :: Clash(name, d)
  }

  /** The name cannot begin within a mark. */
  ghost predicate ClearBehind(name: string) {
    forall d | -|MARK| < d < 0 :: Clash(name, d)
  }

  /** A name that cannot overlap a mark in any text: it neither contains the mark nor lies in it nor
      runs over either of its ends. */
  ghost predicate Clean(name: string) {
    name != "" && ClearAhead(name) && ClearBehind(name)
  }

  lemma {:induction false} OccursAt(p: string, s: string) returns (k: nat)
    requires Occurs(p, s)
    ensures k <= |s| && StartsWith(s[k..], p)
    decreases |s|
  {
    if StartsWith(s, p) {
      k := 0;
    } else {
      var m := OccursAt(p, s[1..]);
      k := m + 1;
      assert s[1..][m..] == s[k..];
    }
  }

  /** Without the two brackets of the mark it is enough not to lie in it. */
  lemma BracketFreeClean(name: string)
    requires '<' !in name && '>' !in name
    ensures Clean(name) <==> !Occurs(name, MARK)
  {
    if Occurs(name, MARK) {
      var k: int := OccursAt(name, MARK);
      assert forall j | 0 <= j < |name| :: name[j] == MARK[k..][j] == MARK[j + k];
      assert !Clash(name, -k);
    } else {
      assert name != "" && MARK[0] == '<' && MARK[|MARK| - 1] == '>';
      forall d | 0 <= d < |name|
        ensures Clash(name, d)
      {
        assert name[d] != MARK[d - d];
      }
      forall d | -|MARK| < d < 0
        ensures Clash(name, d)
      {
        BeginsWithin(name, -d);
      }
    }
  }

  lemma BeginsWithin(name: string, k: int)
    requires '>' !in name && !Occurs(name, MARK) && 0 < k < |MARK|
    ensures Clash(name, -k)
  {
    if |name| >= |MARK| - k {
      var j := |MARK| - 1 - k;
      assert name[j] != MARK[j + k];
    } else if !Clash(name, -k) {
      assert forall j | 0 <= j < |name| :: name[j] == MARK[j + k];
      assert MARK[k..][..|name|] == name;
      OccursLater(name, MARK, k);
    }
  }

  ghost predicate AllClean(order: seq<string>) {
    forall i | 0 <= i < |order| :: Clean(order[i])
  }

  lemma {:induction false} OccursLetters(name: string, s: string, i: nat)
    requires Occurs(name, s) && i < |name|
    ensures name[i] in s
    decreases |s|
  {
    if StartsWith(s, name) {
      assert s[..|name|][i] == s[i];
    } else {
      OccursLetters(name, s[1..], i);
    }
  }

  /** One character that is not the mark's is enough. */
  lemma ForeignLetterIsClean(name: string, i: nat)
    requires '<' !in name && '>' !in name && i < |name| && name[i] !in MARK
    ensures Clean(name)
  {
    if Occurs(name, MARK) {
      OccursLetters(name, MARK, i);
    }
    BracketFreeClean(name);
  }

  lemma CapitalsAreClean(name: string)
    requires name != ""
    requires forall i | 0 <= i < |name| :: 'A' <= name[i] <= 'Z' || '0' <= name[i] <= '9' || name[i] == '_'
    ensures Clean(name)
  {
    assert MARK == ['<', 'e', 'n', 'v', '-', 'n', 'a', 'm', 'e', '>'];
    ForeignLetterIsClean(name, 0);
  }

  lemma StartsShift(c: char, s: string, p: string)
    requires p != ""
    ensures StartsWith([c] + s, p) <==> c == p[0] && StartsWith(s, p[1..])
  {
    assert p == [p[0]] + p[1..];
    if |p| <= |s| + 1 {
      assert ([c] + s)[..|p|] == [c] + s[..|p| - 1];
    }
  }

  lemma StartsAt(s: string, p: string, i: nat)
    requires i < |p|
    ensures StartsWith(s, p) ==> s[i] == p[i]
  {
  }

  /** A clean name begins nowhere in the mark. */
  lemma MarkNeverStarts(k: int, rest: string, name: string)
    requires 0 <= k < |MARK| && Clean(name)
    ensures !StartsWith(MARK[k..] + rest, name)
  {
    assert Clash(name, -k);
    var j :| 0 <= j < |name| && 0 <= j + k < |MARK| && name[j] != MARK[j + k];
    StartsAt(MARK[k..] + rest, name, j);
  }

  lemma ClearAheadRest(name: string)
    requires name != "" && ClearAhead(name)
    ensures ClearAhead(name[1..])
  {
    forall d | 0 <= d < |name[1..]|
      ensures Clash(name[1..], d)
    {
      assert Clash(name, d + 1);
      var j :| 0 <= j < |name| && 0 <= j - (d + 1) < |MARK| && name[j] != MARK[j - (d + 1)];
      assert name[1..][j - 1] != MARK[j - 1 - d];
    }
  }

  /** Nothing that no mark can begin within reaches into a replacement. */
  lemma {:induction false} PrefixSurvives(s: string, find: string, name: string)
    requires find != "" && ClearAhead(name) && StartsWith(Replace(s, find, MARK), name)
    ensures StartsWith(s, name)
    decreases |name|
  {
    if name != "" && s != "" {
      if StartsWith(s, find) {
        NotAtMark(Replace(s[|find|..], find, MARK), name);
      } else {
        assert [s[0]] + s[1..] == s;
        ClearAheadRest(name);
        StartsShift(s[0], Replace(s[1..], find, MARK), name);
        PrefixSurvives(s[1..], find, name[1..]);
        StartsShift(s[0], s[1..], name);
      }
    }
  }

  lemma NotAtMark(rest: string, name: string)
    requires name != "" && ClearAhead(name)
    ensures !StartsWith(MARK + rest, name)
  {
    assert Clash(name, 0);
    var j :| 0 <= j < |name| && 0 <= j < |MARK| && name[j] != MARK[j];
    StartsAt(MARK + rest, name, j);
  }

  lemma {:induction false} OccursLater(p: string, s: string, k: nat)
    requires k <= |s| && Occurs(p, s[k..])
    ensures Occurs(p, s)
  {
    if k == 0 {
      assert s[0..] == s;
    } else {
      assert s[1..][k - 1..] == s[k..];
      OccursLater(p, s[1..], k - 1);
    }
  }

  /** A clean name occurs neither in the mark nor across its end. */
  lemma {:induction false} MarkHides(k: nat, rest: string, name: string)
    requires k <= |MARK| && Clean(name) && !Occurs(name, rest)
    ensures !Occurs(name, MARK[k..] + rest)
    decreases |MARK| - k
  {
    if k == |MARK| {
      assert MARK[k..] + rest == rest;
    } else {
      MarkNeverStarts(k, rest, name);
      MarkHides(k + 1, rest, name);
      assert (MARK[k..] + rest)[1..] == MARK[k + 1..] + rest;
    }
  }

  /** Replacing one name leaves no occurrence of it, and brings none of another. */
  lemma {:induction false} ReplaceClears(s: string, find: string, name: string)
    requires Clean(find) && Clean(name) && (name == find || !Occurs(name, s))
    ensures !Occurs(name, Replace(s, find, MARK))
    decreases |s|
  {
    if s != "" {
      if StartsWith(s, find) {
        if Occurs(name, s[|find|..]) { OccursLater(name, s, |find|); }
        ReplaceClears(s[|find|..], find, name);
        MarkHides(0, Replace(s[|find|..], find, MARK), name);
        assert MARK[0..] == MARK;
      } else {
        ReplaceClears(s[1..], find, name);
        var rest := Replace(s[1..], find, MARK);
        assert ([s[0]] + rest)[1..] == rest;
        if StartsWith([s[0]] + rest, name) {
          PrefixSurvives(s, find, name);
        }
      }
    }
  }

  /** No name is left in the text. */
  lemma {:induction false} NoNameLeft(text: string, order: seq<string>, name: string)
    requires AllClean(order) && name in order && "" !in order
    ensures !Occurs(name, Redacted(text, order))
    decreases |order|
  {
    var n := |order| - 1;
    if name != order[n] {
      NoNameLeft(text, order[..n], name);
    }
    ReplaceClears(Redacted(text, order[..n]), order[n], name);
  }

  // ----------------------------------------------- what the redaction changes

  /** The second text is the first with some names replaced by the mark, and nothing else. */
  ghost predicate OnlyHides(order: seq<string>, s: string, t: string)
    decreases |t|
  {
    || (s == "" && t == "")
    || (s != "" && t != "" && s[0] == t[0] && OnlyHides(order, s[1..], t[1..]))
    || exists i | 0 <= i < |order| :: StartsWith(s, order[i]) && StartsWith(t, MARK)
                                      && OnlyHides(order, s[|order[i]|..], t[|MARK|..])
  }

  lemma {:induction false} Untouched(order: seq<string>, s: string)
    ensures OnlyHides(order, s, s)
    decreases |s|
  {
    if s != "" {
      Untouched(order, s[1..]);
    }
  }

  /** A name that stands in the partly redacted text stands in the original. */
  lemma {:induction false} NameWasThere(order: seq<string>, s: string, t: string, name: string)
    requires OnlyHides(order, s, t) && ClearAhead(name) && StartsWith(t, name)
    ensures StartsWith(s, name) && OnlyHides(order, s[|name|..], t[|name|..])
    decreases |name|
  {
    if name != "" {
      if StartsWith(t, MARK) {
        assert MARK + t[|MARK|..] == t;
        NotAtMark(t[|MARK|..], name);
      } else {
        ClearAheadRest(name);
        assert [t[0]] + t[1..] == t && [s[0]] + s[1..] == s;
        StartsShift(t[0], t[1..], name);
        NameWasThere(order, s[1..], t[1..], name[1..]);
        StartsShift(s[0], s[1..], name);
        assert s[1..][|name| - 1..] == s[|name|..] && t[1..][|name| - 1..] == t[|name|..];
      }
    }
  }

  lemma ReplaceSkips(c: char, rest: string, find: string)
    requires find != "" && !StartsWith([c] + rest, find)
    ensures Replace([c] + rest, find, MARK) == [c] + Replace(rest, find, MARK)
  {
    assert ([c] + rest)[1..] == rest;
  }

  ghost predicate NeverStarts(m: string, rest: string, find: string) {
    forall k: nat | k < |m| :: !StartsWith(m[k..] + rest, find)
  }

  lemma {:induction false} ReplacePasses(m: string, rest: string, find: string)
    requires find != "" && NeverStarts(m, rest, find)
    ensures Replace(m + rest, find, MARK) == m + Replace(rest, find, MARK)
    decreases |m|
  {
    if m == "" {
      assert m + rest == rest;
    } else {
      var tail := m[1..];
      assert m[0..] == m && [m[0]] + (tail + rest) == m + rest;
      forall k: nat | k < |tail|
        ensures !StartsWith(tail[k..] + rest, find)
      {
        assert tail[k..] == m[k + 1..];
      }
      ReplacePasses(tail, rest, find);
      ReplaceSkips(m[0], tail + rest, find);
    }
  }

  /** Replacing a clean name passes over a mark. */
  lemma ReplaceMark(rest: string, find: string)
    requires Clean(find)
    ensures Replace(MARK + rest, find, MARK) == MARK + Replace(rest, find, MARK)
  {
    forall k: nat | k < |MARK|
      ensures !StartsWith(MARK[k..] + rest, find)
    {
      MarkNeverStarts(k, rest, find);
    }
    ReplacePasses(MARK, rest, find);
  }

  lemma {:induction false} ReplaceOnlyHides(order: seq<string>, s: string, t: string, k: nat)
    requires OnlyHides(order, s, t) && k < |order| && Clean(order[k])
    ensures OnlyHides(order, s, Replace(t, order[k], MARK))
    decreases |t|
  {
    var name := order[k];
    if t != "" {
      if StartsWith(t, name) {
        NameWasThere(order, s, t, name);
        ReplaceOnlyHides(order, s[|name|..], t[|name|..], k);
        HidesOne(order, s, Replace(t[|name|..], name, MARK), k);
      } else if s != "" && s[0] == t[0] && OnlyHides(order, s[1..], t[1..]) {
        ReplaceOnlyHides(order, s[1..], t[1..], k);
        var u := [t[0]] + Replace(t[1..], name, MARK);
        assert u[1..] == Replace(t[1..], name, MARK);
      } else {
        var i :| 0 <= i < |order| && StartsWith(s, order[i]) && StartsWith(t, MARK)
                 && OnlyHides(order, s[|order[i]|..], t[|MARK|..]);
        assert MARK + t[|MARK|..] == t;
        ReplaceMark(t[|MARK|..], name);
        ReplaceOnlyHides(order, s[|order[i]|..], t[|MARK|..], k);
        HidesOne(order, s, Replace(t[|MARK|..], name, MARK), i);
      }
    }
  }

  lemma HidesOne(order: seq<string>, s: string, rest: string, i: nat)
    requires i < |order| && StartsWith(s, order[i]) && OnlyHides(order, s[|order[i]|..], rest)
    ensures OnlyHides(order, s, MARK + rest)
  {
    assert (MARK + rest)[|MARK|..] == rest && (MARK + rest)[..|MARK|] == MARK;
  }

  /** Apart from names that become the mark, the text is kept as it was. */
  lemma {:induction false} RestIsKept(text: string, order: seq<string>, done: nat)
    requires AllClean(order) && "" !in order && done <= |order|
    ensures OnlyHides(order, text, Redacted(text, order[..done]))
  {
    if done == 0 {
      Untouched(order, text);
    } else {
      RestIsKept(text, order, done - 1);
      assert order[..done][..done - 1] == order[..done - 1];
      ReplaceOnlyHides(order, text, Redacted(text, order[..done - 1]), done - 1);
    }
  }

  // ------------------------------------------------------------- whole words

  ghost predicate Separates(c: char, order: seq<string>) {
    forall i | 0 <= i < |order| :: c !in order[i]
  }

  lemma {:induction false} ReplaceSplits(x: string, c: char, y: string, find: string)
    requires find != "" && c !in find
    ensures Replace(x + [c] + y, find, MARK) == Replace(x, find, MARK) + [c] + Replace(y, find, MARK)
    decreases |x|
  {
    var s := x + [c] + y;
    if x == "" {
      assert s == [c] + y && s[1..] == y;
      StartsShift(c, y, find);
    } else {
      StaysLeft(x, c, y, find);
      if StartsWith(s, find) {
        assert s[|find|..] == x[|find|..] + [c] + y;
        ReplaceSplits(x[|find|..], c, y, find);
      } else {
        assert s[1..] == x[1..] + [c] + y;
        ReplaceSplits(x[1..], c, y, find);
      }
    }
  }

  lemma StaysLeft(x: string, c: char, y: string, find: string)
    requires c !in find
    ensures StartsWith(x + [c] + y, find) <==> StartsWith(x, find)
  {
    var s := x + [c] + y;
    assert s[|x|] == c;
    assert |find| <= |x| ==> s[..|find|] == x[..|find|];
  }

  /** A character that is in no name splits the work. */
  lemma {:induction false} RedactedSplits(x: string, c: char, y: string, order: seq<string>)
    requires "" !in order && Separates(c, order)
    ensures Redacted(x + [c] + y, order) == Redacted(x, order) + [c] + Redacted(y, order)
    decreases |order|
  {
    if order != [] {
      var n := |order| - 1;
      RedactedSplits(x, c, y, order[..n]);
      ReplaceSplits(Redacted(x, order[..n]), c, Redacted(y, order[..n]), order[n]);
    }
  }

  lemma {:induction false} ReplaceLonger(s: string, find: string)
    requires find != "" && (|find| > |s| || (|find| == |s| && find != s))
    ensures Replace(s, find, MARK) == s
    decreases |s|
  {
    if s != "" {
      ReplaceLonger(s[1..], find);
      assert s == [s[0]] + s[1..];
    }
  }

  lemma ReplaceSelf(s: string)
    requires s != ""
    ensures Replace(s, s, MARK) == MARK
  {
    assert s[..|s|] == s && s[|s|..] == "";
    assert Replace("", s, MARK) == "" && MARK + "" == MARK;
  }

  lemma {:induction false} ReplaceAbsent(s: string, find: string)
    requires find != "" && !Occurs(find, s)
    ensures Replace(s, find, MARK) == s
    decreases |s|
  {
    if s != "" {
      ReplaceAbsent(s[1..], find);
      assert s == [s[0]] + s[1..];
    }
  }

  /** One replacement on a word that is a name, or already the mark. */
  lemma WholeStep(word: string, find: string, hidden: bool)
    requires Clean(find) && word != ""
    requires !hidden ==> find == word || |find| > |word| || (|find| == |word| && find != word)
    ensures Replace(if hidden then MARK else word, find, MARK) == if hidden || find == word then MARK else word
  {
    if hidden {
      ReplaceMark("", find);
      assert MARK + "" == MARK;
    } else if find == word {
      ReplaceSelf(word);
    } else {
      ReplaceLonger(word, find);
    }
  }

  lemma NamesBefore(order: seq<string>, names: set<string>, k: nat, n: nat)
    requires LongestFirst(order, names) && k < |order| && n < |order|
    ensures order[n] == order[k] <==> n == k
    ensures n <= k ==> |order[n]| >= |order[k]|
  {
  }

  /** Longest first, a word that is itself a name becomes the mark and leaves nothing behind, even
      when shorter names are parts of it. */
  lemma {:induction false} WholeName(order: seq<string>, names: set<string>, k: nat, done: nat)
    requires LongestFirst(order, names) && "" !in order && AllClean(order) && k < |order| && done <= |order|
    ensures Redacted(order[k], order[..done]) == if done <= k then order[k] else MARK
  {
    if done > 0 {
      var n := done - 1;
      WholeName(order, names, k, n);
      assert order[..done][..n] == order[..n];
      NamesBefore(order, names, k, n);
      WholeStep(order[k], order[n], n > k);
    }
  }

  lemma {:induction false} NothingToHide(text: string, order: seq<string>)
    requires "" !in order && forall i | 0 <= i < |order| :: !Occurs(order[i], text)
    ensures Redacted(text, order) == text
    decreases |order|
  {
    if order != [] {
      var n := |order| - 1;
      NothingToHide(text, order[..n]);
      ReplaceAbsent(text, order[n]);
    }
  }

  /** For every text and every set of clean names: no name occurs in the output, and the output is
      the text with some names replaced by the mark and nothing else changed. */
  lemma TextTheorem(text: string, names: set<string>, order: seq<string>)
    requires LongestFirst(order, names) && forall n | n in names :: Clean(n)
    ensures "" !in order
    ensures forall n | n in names :: !Occurs(n, Redacted(text, order))
    ensures OnlyHides(order, text, Redacted(text, order))
  {
    forall i | 0 <= i < |order|
      ensures Clean(order[i]) && order[i] != ""
    {
      assert order[i] in order;
    }
    forall n | n in names
      ensures !Occurs(n, Redacted(text, order))
    {
      NoNameLeft(text, order, n);
    }
    RestIsKept(text, order, |order|);
    assert order[..|order|] == order;
  }

  /** A name between two characters that are in no name becomes exactly the mark: longest first,
      no shorter name can spoil it and leave a part behind. */
  lemma WholeWord(x: string, c: char, k: nat, d: char, y: string, names: set<string>, order: seq<string>)
    requires LongestFirst(order, names) && k < |order| && forall n | n in names :: Clean(n)
    requires Separates(c, order) && Separates(d, order)
    ensures "" !in order
    ensures Redacted(x + [c] + (order[k] + [d] + y), order) == Redacted(x, order) + [c] + (MARK + [d] + Redacted(y, order))
  {
    forall i | 0 <= i < |order|
      ensures Clean(order[i]) && order[i] != ""
    {
      assert order[i] in order;
    }
    RedactedSplits(x, c, order[k] + [d] + y, order);
    RedactedSplits(order[k], d, y, order);
    WholeName(order, names, k, |order|);
    assert order[..|order|] == order;
  }

  /** An intact mark outlives the replacement of anything without brackets: either the text holds
      what is replaced, and gets a new mark, or nothing happens to it. */
  lemma {:induction false} ReplaceMarks(s: string, find: string)
    requires find != "" && Occurs(find, s)
    ensures Occurs(MARK, Replace(s, find, MARK))
    decreases |s|
  {
    if StartsWith(s, find) {
      assert (MARK + Replace(s[|find|..], find, MARK))[..|MARK|] == MARK;
    } else {
      ReplaceMarks(s[1..], find);
      OccursLater(MARK, [s[0]] + Replace(s[1..], find, MARK), 1);
    }
  }

  lemma MarkOutlives(s: string, find: string)
    requires find != "" && Occurs(MARK, s)
    ensures Occurs(MARK, Replace(s, find, MARK))
  {
    if Occurs(find, s) {
      ReplaceMarks(s, find);
    } else {
      ReplaceAbsent(s, find);
    }
  }

  lemma {:induction false} SomeMarkStays(text: string, order: seq<string>)
    requires "" !in order && Occurs(MARK, text)
    ensures Occurs(MARK, Redacted(text, order))
    decreases |order|
  {
    if order != [] {
      var n := |order| - 1;
      SomeMarkStays(text, order[..n]);
      MarkOutlives(Redacted(text, order[..n]), order[n]);
    }
  }

  lemma {:induction false} OccursWithin(a: string, b: string, c: string)
    requires Occurs(a, b) && Occurs(b, c)
    ensures Occurs(a, c)
    decreases |c|
  {
    if StartsWith(c, b) {
      OccursInFront(a, b, c);
    } else {
      OccursWithin(a, b, c[1..]);
    }
  }

  lemma {:induction false} OccursInFront(a: string, b: string, c: string)
    requires Occurs(a, b) && StartsWith(c, b)
    ensures Occurs(a, c)
    decreases |b|
  {
    if StartsWith(b, a) {
      assert c[..|a|] == b[..|a|];
    } else {
      assert c[1..][..|b| - 1] == b[1..];
      OccursInFront(a, b[1..], c[1..]);
    }
  }

  ghost predicate Survives(name: string, text: string, order: seq<string>)
    requires "" !in order
  {
    Occurs(name, Redacted(text, order))
  }

  /** For names without the mark's brackets, exactly when a name can survive its own redaction: no
      name occurs in the redaction of any text if and only if no name occurs in the mark. */
  lemma NoNameSurvivesIff(names: set<string>, order: seq<string>)
    requires LongestFirst(order, names) && "" !in order
    requires forall n | n in names :: '<' !in n && '>' !in n
    ensures (forall text, n | n in names :: !Survives(n, text, order)) <==> forall n | n in names :: !Occurs(n, MARK)
  {
    if forall n | n in names :: !Occurs(n, MARK) {
      forall n | n in names
        ensures Clean(n)
      {
        assert n in order;
        BracketFreeClean(n);
      }
      forall text, n | n in names
        ensures !Survives(n, text, order)
      {
        TextTheorem(text, names, order);
      }
    } else {
      var n :| n in names && Occurs(n, MARK);
      assert MARK[..|MARK|] == MARK;
      SomeMarkStays(MARK, order);
      OccursWithin(n, MARK, Redacted(MARK, order));
      assert Survives(n, MARK, order);
    }
  }

  /** Whatever a command hides in its report, its captured output does not show either. */
  lemma OutputHidesWhatCommandHides(flags: set<string>, command: seq<string>, names: set<string>, order: seq<string>, text: string, i: nat)
    requires forall name :: name in names <==> HidesName(flags, command, name)
    requires LongestFirst(order, names) && forall n | n in names :: Clean(n)
    requires i < |command| && Hidden(flags, command, i) && command[i] != ""
    ensures "" !in order && !Occurs(command[i], Redacted(text, order))
  {
    assert HidesName(flags, command, command[i]);
    TextTheorem(text, names, order);
  }

  // ----------------------------------------------------------- the JSON output

  datatype Value = Text(s: string) | Dict(members: seq<Member>) | List(items: seq<Value>) | Other(n: int)
  datatype Member = Member(key: string, value: Value)

  function RedactedJson(j: Value, order: seq<string>): Value
    requires "" !in order
  {
    match j
    case Text(s) => Text(Redacted(s, order))
    case Dict(members) =>
      Dict(seq(|members|, i requires 0 <= i < |members| => Member(members[i].key, RedactedJson(members[i].value, order))))
    case List(items) => List(seq(|items|, i requires 0 <= i < |items| => RedactedJson(items[i], order)))
    case Other(n) => Other(n)
  }

  /** A name occurs in some string value. */
  predicate Shows(j: Value, name: string) {
    match j
    case Text(s) => Occurs(name, s)
    case Dict(members) => exists i | 0 <= i < |members| :: Shows(members[i].value, name)
    case List(items) => exists i | 0 <= i < |items| :: Shows(items[i], name)
    case Other(_) => false
  }

  predicate KeyShows(j: Value, name: string) {
    match j
    case Text(_) => false
    case Dict(members) => exists i | 0 <= i < |members| :: Occurs(name, members[i].key) || KeyShows(members[i].value, name)
    case List(items) => exists i | 0 <= i < |items| :: KeyShows(items[i], name)
    case Other(_) => false
  }

  /** In a JSON value no name is left in any string value; in the keys, which are not redacted, a
      name is left exactly when it was there. */
  lemma {:induction false} JsonTheorem(j: Value, names: set<string>, order: seq<string>, name: string)
    requires LongestFirst(order, names) && (forall n | n in names :: Clean(n)) && "" !in order && name in names
    ensures !Shows(RedactedJson(j, order), name)
    ensures KeyShows(RedactedJson(j, order), name) <==> KeyShows(j, name)
  {
    match j {
      case Text(s) => TextTheorem(s, names, order);
      case Dict(members) =>
        forall i | 0 <= i < |members|
          ensures !Shows(RedactedJson(members[i].value, order), name)
          ensures KeyShows(RedactedJson(members[i].value, order), name) <==> KeyShows(members[i].value, name)
        {
          JsonTheorem(members[i].value, names, order, name);
        }
        var out := RedactedJson(j, order).members;
        assert forall i | 0 <= i < |members| :: out[i].key == members[i].key && out[i].value == RedactedJson(members[i].value, order);
      case List(items) =>
        forall i | 0 <= i < |items|
          ensures !Shows(RedactedJson(items[i], order), name)
          ensures KeyShows(RedactedJson(items[i], order), name) <==> KeyShows(items[i], name)
        {
          JsonTheorem(items[i], names, order, name);
        }
        var out := RedactedJson(j, order).items;
        assert forall i | 0 <= i < |items| :: out[i] == RedactedJson(items[i], order);
      case Other(_) =>
    }
  }

  /** The second value has the shape, the keys and the other values of the first, and its texts are
      those of the first with some names replaced by the mark and nothing else changed. */
  ghost predicate SameButNames(order: seq<string>, j: Value, k: Value) {
    match j
    case Text(s) => k.Text? && OnlyHides(order, s, k.s)
    case Dict(members) =>
      k.Dict? && |k.members| == |members|
      && forall i | 0 <= i < |members| ::
           k.members[i].key == members[i].key && SameButNames(order, members[i].value, k.members[i].value)
    case List(items) =>
      k.List? && |k.items| == |items| && forall i | 0 <= i < |items| :: SameButNames(order, items[i], k.items[i])
    case Other(n) => k == j
  }

  lemma {:induction false} JsonKeepsTheRest(j: Value, names: set<string>, order: seq<string>)
    requires LongestFirst(order, names) && (forall n | n in names :: Clean(n)) && "" !in order
    ensures SameButNames(order, j, RedactedJson(j, order))
  {
    match j {
      case Text(s) => TextTheorem(s, names, order);
      case Dict(members) =>
        forall i | 0 <= i < |members|
          ensures SameButNames(order, members[i].value, RedactedJson(members[i].value, order))
        {
          JsonKeepsTheRest(members[i].value, names, order);
        }
      case List(items) =>
        forall i | 0 <= i < |items|
          ensures SameButNames(order, items[i], RedactedJson(items[i], order))
        {
          JsonKeepsTheRest(items[i], names, order);
        }
      case Other(_) =>
    }
  }
}
