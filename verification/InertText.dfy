/** Text that the splitter passes over: it starts and ends in plain text and holds no cut, whatever
    stands around it. Most of it is recognized by a small reader without lookahead, whose verdict on
    a concatenation is found piece by piece. */
module InertText {
  import opened Wrappers
  import opened SqlText
  import opened SqlStatements
  import opened SplitterLaws
  import opened SqlBuild

  // ---- Inert text ---------------------------------------------------------------------------------------------

  /** Read from plain text inside a longer text, t holds no cut and ends in plain text. */
  ghost predicate PassesOver(before: string, t: string, rest: string) {
    var s := before + t + rest;
    ModeAt(s, |before|) == Plain ==>
      NoCut(s, |before|, |before| + |t|) && ModeAt(s, |before| + |t|) == Plain
  }

  ghost predicate Inert(t: string) {
    forall before: string, rest: string :: PassesOver(before, t, rest)
  }

  lemma InertConcat(a: string, b: string)
    requires Inert(a) && Inert(b)
    ensures Inert(a + b)
  {
    forall before: string, rest: string ensures PassesOver(before, a + b, rest) {
      assert before + (a + b) + rest == before + a + (b + rest) == (before + a) + b + rest;
      assert PassesOver(before, a, b + rest) && PassesOver(before + a, b, rest);
    }
  }

  lemma {:induction false} InertJoin(parts: seq<string>, sep: string)
    requires forall i :: 0 <= i < |parts| ==> Inert(parts[i])
    requires Inert(sep)
    ensures Inert(Join(parts, sep))
  {
    hide Inert;
    if |parts| == 0 {
      EmptyIsInert();
    } else if |parts| > 1 {
      InertJoin(parts[1..], sep);
      InertConcat(parts[0], sep);
      InertConcat(parts[0] + sep, Join(parts[1..], sep));
    }
  }

  lemma EmptyIsInert()
    ensures Inert("")
  {
  }

  lemma InertHoldsNoCut(s: string)
    requires Inert(s)
    ensures NoCut(s, 0, |s|)
  {
    assert PassesOver("", s, "");
    assert "" + s + "" == s;
  }

  // ---- The small reader -----------------------------------------------------------------------------------------

  /** Outside quotes (behind a hyphen, behind a slash, or behind neither), inside a quoted text, or
      past a character that could open a comment or a dollar quote or end the statement. */
  datatype Lex = Out | Dash | Slash | In(quote: char) | Bad

  function Step(m: Lex, c: char): Lex {
    match m
    case Bad => Bad
    case In(q) => if c == q then Out else m
    case _ =>
      if c == '\'' || c == '"' then In(c)
      else if c == ';' || c == '$' then Bad
      else if c == '-' then (if m == Dash then Bad else Dash)
      else if c == '/' then Slash
      else if c == '*' then (if m == Slash then Bad else Out)
      else Out
  }

  function Run(m: Lex, t: string): Lex
    decreases |t|
  {
    if t == "" then m else Run(Step(m, t[0]), t[1..])
  }

  /** Starts and ends outside quotes and holds nothing the splitter could cut at or jump over. */
  predicate Tame(t: string) {
    Run(Out, t) == Out
  }

  lemma {:induction false} RunConcat(m: Lex, a: string, b: string)
    ensures Run(m, a + b) == Run(Run(m, a), b)
    decreases |a|
  {
    if a == "" {
      assert a + b == b;
    } else {
      assert (a + b)[1..] == a[1..] + b;
      RunConcat(Step(m, a[0]), a[1..], b);
    }
  }

  lemma {:induction false} BadStaysBad(t: string)
    ensures Run(Bad, t) == Bad
    decreases |t|
  {
    if t != "" {
      BadStaysBad(t[1..]);
    }
  }

  lemma RunPrefix(s: string, i: nat)
    requires i < |s|
    ensures Run(Out, s[..i + 1]) == Step(Run(Out, s[..i]), s[i])
  {
    assert s[..i + 1] == s[..i] + [s[i]];
    RunConcat(Out, s[..i], [s[i]]);
    assert [s[i]][1..] == "";
    assert forall m :: Run(m, [s[i]]) == Run(Step(m, s[i]), "");
  }

  lemma RunSplit(s: string, i: nat)
    requires i <= |s|
    ensures Run(Run(Out, s[..i]), s[i..]) == Run(Out, s)
  {
    assert s == s[..i] + s[i..];
    RunConcat(Out, s[..i], s[i..]);
  }

  predicate Corresponds(l: Lex, m: Mode) {
    match l
    case Bad => false
    case In(q) => m == Quoted(q)
    case _ => m == Plain
  }

  /** A tame text is plain or quoted everywhere, in step with the reader, whatever stands around it. */
  lemma {:induction false} TameModes(before: string, t: string, rest: string, i: nat)
    requires Tame(t) && i <= |t| && ModeAt(before + t + rest, |before|) == Plain
    ensures Corresponds(Run(Out, t[..i]), ModeAt(before + t + rest, |before| + i))
  {
    if i == 0 {
      assert t[..0] == "";
    } else {
      hide Next;
      TameModes(before, t, rest, i - 1);
      RunPrefix(t, i - 1);
      RunSplit(t, i);
      BadStaysBad(t[i..]);
      if Run(Out, t[..i]).Dash? || Run(Out, t[..i]).Slash? {
        PairsAreNotBad(t, i);
        assert (before + t + rest)[|before| + i] == t[i];
      }
      TameStep(before + t + rest, |before| + i - 1, Run(Out, t[..i - 1]), ModeAt(before + t + rest, |before| + i - 1));
    }
  }

  /** Behind a hyphen or slash outside quotes a tame text goes on, and not with a pair. */
  lemma PairsAreNotBad(t: string, i: nat)
    requires Tame(t) && 0 < i <= |t| && (Run(Out, t[..i]).Dash? || Run(Out, t[..i]).Slash?)
    ensures i < |t| && Step(Run(Out, t[..i]), t[i]) != Bad
  {
    RunSplit(t, i);
    assert t[..|t|] == t;
    if i < |t| {
      RunPrefix(t, i);
      RunSplit(t, i + 1);
      BadStaysBad(t[i + 1..]);
    }
  }

  lemma TameStep(s: string, i: nat, l: Lex, m: Mode)
    requires i < |s| && Corresponds(l, m) && Step(l, s[i]) != Bad
    requires Step(l, s[i]).Dash? ==> !At(s, i + 1, '-')
    requires Step(l, s[i]).Slash? ==> !At(s, i + 1, '*')
    ensures Corresponds(Step(l, s[i]), Next(s, i, m))
  {
    hide WordEnd, OccursAt;
  }

  lemma TameIsInert(t: string)
    requires Tame(t)
    ensures Inert(t)
  {
    hide ModeAt, Tame;
    forall before: string, rest: string ensures PassesOver(before, t, rest) {
      if ModeAt(before + t + rest, |before|) == Plain {
        TameTextPasses(before, t, rest);
      }
    }
  }

  lemma TameTextPasses(before: string, t: string, rest: string)
    requires Tame(t) && ModeAt(before + t + rest, |before|) == Plain
    ensures NoCut(before + t + rest, |before|, |before| + |t|) && ModeAt(before + t + rest, |before| + |t|) == Plain
  {
    hide ModeAt;
    var s := before + t + rest;
    forall k | |before| <= k < |before| + |t| ensures !IsCut(s, k) {
      var i := k - |before|;
      TameModes(before, t, rest, i);
      RunPrefix(t, i);
      RunSplit(t, i + 1);
      BadStaysBad(t[i + 1..]);
      assert s[k] == t[i];
    }
    TameModes(before, t, rest, |t|);
    assert t[..|t|] == t;
  }

  predicate BareChar(c: char) {
    c != '\'' && c != '"' && c != ';' && c != '/' && c != '$' && c != '-'
  }

  predicate BareText(t: string) {
    forall i :: 0 <= i < |t| ==> BareChar(t[i])
  }

  lemma {:induction false} BareIsTame(t: string)
    requires BareText(t)
    ensures Tame(t)
    decreases |t|
  {
    if t != "" {
      BareIsTame(t[1..]);
    }
  }

  /** Doubling keeps a quoted text closed: inside quotes it ends inside quotes. */
  lemma {:induction false} DoubledStaysIn(v: string, q: char)
    requires q == '\'' || q == '"'
    ensures Run(In(q), Doubled(v, q)) == In(q)
    decreases |v|
  {
    if v != "" {
      var head := if v[0] == q then [q, q] else [v[0]];
      RunConcat(In(q), head, Doubled(v[1..], q));
      if v[0] == q {
        assert head[1..] == [q] && [q][1..] == "";
        assert Run(In(q), head) == Run(Out, [q]) == Run(In(q), "");
      } else {
        assert head[1..] == "";
        assert Run(In(q), head) == Run(In(q), "");
      }
      DoubledStaysIn(v[1..], q);
    }
  }

  lemma QuotedIsTame(v: string, q: char)
    requires q == '\'' || q == '"'
    ensures Tame([q] + Doubled(v, q) + [q])
  {
    var body := Doubled(v, q) + [q];
    assert [q] + Doubled(v, q) + [q] == [q] + body;
    assert ([q] + body)[1..] == body;
    DoubledStaysIn(v, q);
    RunConcat(In(q), Doubled(v, q), [q]);
    assert [q][1..] == "";
    assert Run(In(q), [q]) == Run(Out, "");
  }

  lemma BareIsInert(t: string)
    requires BareText(t)
    ensures Inert(t)
  {
    hide Inert, Tame;
    BareIsTame(t);
    TameIsInert(t);
  }

  /** Characters of a number, with every hyphen directly before a digit. */
  predicate NumberShape(t: string) {
    && (forall i :: 0 <= i < |t| ==> Digit(t[i]) || t[i] in {'-', '+', '.', 'e', 'E'})
    && (forall i :: 0 <= i < |t| && t[i] == '-' ==> i + 1 < |t| && Digit(t[i + 1]))
  }

  lemma ExponentShape(s: string, k: nat)
    requires k < |s| && HasExponent(s, k)
    ensures forall i :: k <= i < |s| ==> Digit(s[i]) || s[i] in {'-', '+', '.', 'e', 'E'}
    ensures forall i :: k <= i < |s| && s[i] == '-' ==> i + 1 < |s| && Digit(s[i + 1])
    ensures Digit(s[|s| - 1])
  {
  }

  lemma NumbersHaveShape(s: string)
    requires IsNumber(s)
    ensures NumberShape(s) && s != "" && Digit(s[|s| - 1])
  {
    var i := if s != "" && s[0] == '-' then 1 else 0;
    var j := DigitsEnd(s, i);
    var k := if j < |s| && s[j] == '.' && DigitsEnd(s, j + 1) > j + 1 then DigitsEnd(s, j + 1) else j;
    if k < |s| {
      ExponentShape(s, k);
    }
  }

  lemma {:induction false} NumberIsTame(t: string)
    requires NumberShape(t)
    ensures Tame(t)
    decreases |t|
  {
    if t != "" {
      if t[0] == '-' {
        assert t[1..][1..] == t[2..];
        NumberTail(t, 2);
        NumberIsTame(t[2..]);
        assert Run(Out, t) == Run(Dash, t[1..]) == Run(Out, t[1..][1..]);
      } else {
        NumberTail(t, 1);
        NumberIsTame(t[1..]);
      }
    }
  }

  lemma NumberTail(t: string, k: nat)
    requires NumberShape(t) && k <= |t|
    ensures NumberShape(t[k..])
  {
    forall i | 0 <= i < |t[k..]|
      ensures Digit(t[k..][i]) || t[k..][i] in {'-', '+', '.', 'e', 'E'}
      ensures t[k..][i] == '-' ==> i + 1 < |t[k..]| && Digit(t[k..][i + 1])
    {
      assert t[k..][i] == t[i + k];
    }
  }

  // ---- MySQL names ------------------------------------------------------------------------------------------------

  /** Read by the splitter, which knows no backticks, the name as it stands between them holds no cut
      and leaves no quote or comment open. */
  ghost predicate ClosedName(name: string) {
    var d := Doubled(name, '`');
    NoCut(d, 0, |d|) && ModeAt(d, |d|) == Plain
  }

  lemma BacktickNeutral(before: string, rest: string)
    requires ModeAt(before + "`" + rest, |before|) == Plain
    ensures NoCut(before + "`" + rest, |before|, |before| + 1) && ModeAt(before + "`" + rest, |before| + 1) == Plain
  {
    assert (before + "`" + rest)[|before|] == '`';
  }

  lemma ClosedIdentIsInert(name: string)
    requires ClosedName(name)
    ensures Inert(QuoteIdent(MySql, name))
  {
    hide ModeAt, Doubled;
    var d := Doubled(name, '`');
    forall before: string, rest: string ensures PassesOver(before, QuoteIdent(MySql, name), rest) {
      if ModeAt(before + QuoteIdent(MySql, name) + rest, |before|) == Plain {
        ClosedIdentPasses(before, d, rest);
        assert QuoteIdent(MySql, name) == "`" + d + "`";
      }
    }
  }

  lemma ClosedIdentPasses(before: string, d: string, rest: string)
    requires NoCut(d, 0, |d|) && ModeAt(d, |d|) == Plain && ModeAt(before + ("`" + d + "`") + rest, |before|) == Plain
    ensures var s, n := before + ("`" + d + "`") + rest, |before|;
            NoCut(s, n, n + |d| + 2) && ModeAt(s, n + |d| + 2) == Plain
  {
    hide ModeAt;
    var s := before + ("`" + d + "`") + rest;
    assert s == before + "`" + (d + "`" + rest);
    BacktickNeutral(before, d + "`" + rest);
    var open, close := before + "`", "`" + rest;
    assert s == open + d + close;
    CutsAreLocal(open, d, close);
    forall k | |open| <= k < |open| + |d| ensures !IsCut(s, k) {
      assert !IsCut(d, k - |open|);
    }
    assert s == (open + d) + "`" + rest;
    BacktickNeutral(open + d, rest);
    NoCutTogether(s, |before|, |open|, |open| + |d|);
    NoCutTogether(s, |before|, |open| + |d|, |open| + |d| + 1);
  }

  predicate HoldsPair(name: string, a: char, b: char) {
    exists i :: 0 <= i < |name| - 1 && name[i] == a && name[i + 1] == b
  }

  /** A name anyone can see to be harmless: no quotes, semicolons or dollars, no two hyphens in a row
      and no slash before an asterisk. */
  predicate PlainName(name: string) {
    && (forall i :: 0 <= i < |name| ==> name[i] != '\'' && name[i] != '"' && name[i] != ';' && name[i] != '$')
    && !HoldsPair(name, '-', '-') && !HoldsPair(name, '/', '*')
  }

  lemma PlainTail(name: string)
    requires PlainName(name) && name != ""
    ensures PlainName(name[1..])
    ensures |name| > 1 ==> !(name[0] == '-' && name[1] == '-') && !(name[0] == '/' && name[1] == '*')
  {
    var t := name[1..];
    forall i | 0 <= i < |t| - 1
      ensures !(t[i] == '-' && t[i + 1] == '-') && !(t[i] == '/' && t[i + 1] == '*')
    {
      assert t[i] == name[i + 1] && t[i + 1] == name[i + 2];
    }
  }

  lemma {:induction false} PlainNameRuns(m: Lex, name: string)
    requires PlainName(name) && (m.Out? || m.Dash? || m.Slash?)
    requires name != "" ==> !(m.Dash? && name[0] == '-') && !(m.Slash? && name[0] == '*')
    ensures var r := Run(m, Doubled(name, '`')); r.Out? || r.Dash? || r.Slash?
    decreases |name|
  {
    if name != "" {
      PlainTail(name);
      var head := if name[0] == '`' then ['`', '`'] else [name[0]];
      RunConcat(m, head, Doubled(name[1..], '`'));
      assert head[1..] == (if name[0] == '`' then ['`'] else "");
      assert name[0] == '`' ==> ['`'][1..] == "" && Run(m, head) == Run(Out, ['`']) == Run(Out, "");
      assert name[0] != '`' ==> Run(m, head) == Run(Step(m, name[0]), "");
      PlainNameRuns(Run(m, head), name[1..]);
    }
  }

  lemma PlainNameIsClosed(name: string)
    requires PlainName(name)
    ensures ClosedName(name)
  {
    hide ModeAt;
    var d := Doubled(name, '`');
    PlainNameRuns(Out, name);
    RunConcat(Out, d, "`");
    assert "`"[1..] == "";
    assert Run(Out, d + "`") == Step(Run(Out, d), '`') == Out;
    StartIsPlain("" + (d + "`") + "");
    TameModes("", d + "`", "", |d|);
    TameTextPasses("", d + "`", "");
    assert (d + "`")[..|d|] == d && "" + (d + "`") + "" == d + "`" == "" + d + "`";
    CutsAreLocal("", d, "`");
    forall i | 0 <= i < |d| ensures !IsCut(d, i) {
      assert !IsCut(d + "`", i);
    }
  }

  lemma StartIsPlain(s: string)
    ensures ModeAt(s, 0) == Plain
  {
  }
}
