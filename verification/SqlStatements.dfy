/** The client-side statement splitter: a scanner that jumps over quotes, dollar quotes and
    comments, proved against a character-by-character automaton. */
module SqlStatements {
  import opened Wrappers
  import opened SqlText

  // ---- The jumping scanner -------------------------------------------------------------------

  predicate OccursAt(s: string, t: string, h: nat) {
    h + |t| <= |s| && s[h..h + |t|] == t
  }

  function IndexFrom(s: string, t: string, from: nat): (r: Option<nat>)
    ensures r.Some? ==> from <= r.value && OccursAt(s, t, r.value)
    decreases |s| - from
  {
    if OccursAt(s, t, from) then Some(from)
    else if from < |s| then IndexFrom(s, t, from + 1)
    else None
  }

  function WordEnd(s: string, i: nat): (j: nat)
    requires i <= |s|
    ensures i <= j <= |s|
    ensures forall k :: i <= k < j ==> WordChar(s[k])
    ensures j < |s| ==> !WordChar(s[j])
    decreases |s| - i
  {
    if i < |s| && WordChar(s[i]) then WordEnd(s, i + 1) else i
  }

  /** A dollar quote opener at i: a dollar sign, word characters, a dollar sign. */
  function DollarTag(s: string, i: nat): (r: Option<string>)
    requires i < |s|
    ensures r.Some? ==> 2 <= |r.value| && OccursAt(s, r.value, i)
  {
    if s[i] != '$' then None
    else var j := WordEnd(s, i + 1);
         if j < |s| && s[j] == '$' then Some(s[i..j + 1]) else None
  }

  /** A dollar quote opener is a dollar sign, letters, digits or underscores, and a dollar sign. */
  predicate IsTag(tag: string) {
    && |tag| >= 2 && tag[0] == '$' && tag[|tag| - 1] == '$'
    && forall k :: 0 < k < |tag| - 1 ==>
         'a' <= tag[k] <= 'z' || 'A' <= tag[k] <= 'Z' || '0' <= tag[k] <= '9' || tag[k] == '_'
  }

  /** An opener is recognized exactly where one stands, and it is the whole of it. */
  lemma DollarTagExactly(s: string, i: nat, tag: string)
    requires i < |s|
    ensures DollarTag(s, i) == Some(tag) <==> IsTag(tag) && OccursAt(s, tag, i)
  {
    if s[i] == '$' {
      var j := WordEnd(s, i + 1);
      if IsTag(tag) && OccursAt(s, tag, i) {
        var n := i + |tag| - 1;
        forall k | i < k < n ensures WordChar(s[k]) {
          assert s[k] == tag[k - i];
        }
        assert s[n] == '$';
        assert j == n;
        assert s[i..j + 1] == tag;
      }
      if j < |s| && s[j] == '$' && tag == s[i..j + 1] {
        forall k | 0 < k < |tag| - 1 ensures WordChar(tag[k]) {
          assert tag[k] == s[i + k];
        }
      }
    } else if OccursAt(s, tag, i) && |tag| > 0 {
      assert tag[0] == s[i];
    }
  }

  /** From inside a quoted text to just behind its closing quote; a doubled quote does not close. */
  function QuoteEnd(s: string, q: char, i: nat): (j: nat)
    requires i <= |s|
    ensures i <= j <= |s|
    decreases |s| - i
  {
    if i == |s| then i
    else if s[i] != q then QuoteEnd(s, q, i + 1)
    else if i + 1 < |s| && s[i + 1] == q then QuoteEnd(s, q, i + 2)
    else i + 1
  }

  function LineEnd(s: string, i: nat): (j: nat)
    requires i <= |s|
    ensures i <= j <= |s|
    decreases |s| - i
  {
    if i < |s| && s[i] != '\n' then LineEnd(s, i + 1) else i
  }

  function BlockEnd(s: string, i: nat): (j: nat)
    requires i <= |s|
    ensures i <= j <= |s|
    decreases |s| - i
  {
    if i + 1 < |s| && !(s[i] == '*' && s[i + 1] == '/') then BlockEnd(s, i + 1)
    else if i + 2 <= |s| then i + 2 else |s|
  }

  predicate At(s: string, i: int, c: char) {
    0 <= i < |s| && s[i] == c
  }

  /** The end of the token that starts at i in plain text. */
  function TokenEnd(s: string, i: nat): (j: nat)
    requires i < |s|
    ensures i < j <= |s|
  {
    if s[i] == '\'' || s[i] == '"' then QuoteEnd(s, s[i], i + 1)
    else if s[i] == '-' && At(s, i + 1, '-') then LineEnd(s, i + 2)
    else if s[i] == '/' && At(s, i + 1, '*') then BlockEnd(s, i + 2)
    else if s[i] == '$' then
      match DollarTag(s, i)
      case None => i + 1
      case Some(tag) => (match IndexFrom(s, tag, i + |tag|)
                         case None => |s|
                         case Some(end) => end + |tag|)
    else i + 1
  }

  lemma {:induction false} IndexIsFirst(s: string, t: string, from: nat, h: nat)
    requires from <= h && OccursAt(s, t, h)
    ensures IndexFrom(s, t, from).Some? && IndexFrom(s, t, from).value <= h
    decreases |s| - from
  {
    if from < h {
      IndexIsFirst(s, t, from + 1, h);
    }
  }

  /** The raw pieces between top-level semicolons. */
  function Segments(s: string, start: nat, i: nat): seq<string>
    requires start <= i <= |s|
    decreases |s| - i
  {
    if i == |s| then [s[start..]]
    else if s[i] == ';' then [s[start..i]] + Segments(s, i + 1, i + 1)
    else Segments(s, start, TokenEnd(s, i))
  }

  // ---- Comment-only pieces -----------------------------------------------------------------------

  function StripBlocks(s: string): string
    decreases |s|
  {
    if |s| < 2 then s
    else if s[0] == '/' && s[1] == '*' then
      (match IndexFrom(s, "*/", 2)
       case Some(end) => " " + StripBlocks(s[end + 2..])
       case None => [s[0]] + StripBlocks(s[1..]))
    else [s[0]] + StripBlocks(s[1..])
  }

  function StripLines(s: string): string
    decreases |s|
  {
    if |s| < 2 then s
    else if s[0] == '-' && s[1] == '-' then " " + StripLines(s[LineEnd(s, 2)..])
    else [s[0]] + StripLines(s[1..])
  }

  function StripComments(s: string): string {
    StripLines(StripBlocks(s))
  }

  /** Worth executing: not empty, and more than comments. */
  predicate Effective(s: string) {
    s != "" && Trim(StripComments(s)) != ""
  }

  function Push(out: seq<string>, raw: string): seq<string> {
    if Effective(Trim(raw)) then out + [Trim(raw)] else out
  }

  function PushAll(out: seq<string>, raws: seq<string>): seq<string>
    decreases |raws|
  {
    if raws == [] then out else PushAll(Push(out, raws[0]), raws[1..])
  }

  function Split(s: string): seq<string> {
    PushAll([], Segments(s, 0, 0))
  }

  // ---- Which pieces are dropped ------------------------------------------------------------------

  /** t is in s from some place before n on. */
  ghost predicate Contains(s: string, t: string, n: nat) {
    exists h: nat :: h < n && OccursAt(s, t, h)
  }

  lemma {:induction false} FirstIndex(s: string, t: string, from: nat, h: nat)
    requires from <= h && OccursAt(s, t, h) && forall g: nat :: from <= g < h ==> !OccursAt(s, t, g)
    ensures IndexFrom(s, t, from) == Some(h)
    decreases h - from
  {
    if from < h {
      FirstIndex(s, t, from + 1, h);
    }
  }

  lemma TwoCharacters(s: string, t: string, h: nat)
    requires |t| == 2
    ensures OccursAt(s, t, h) <==> h + 1 < |s| && s[h] == t[0] && s[h + 1] == t[1]
  {
    if h + 1 < |s| {
      assert s[h..h + 2] == [s[h], s[h + 1]] && t == [t[0], t[1]];
    }
  }

  lemma PlainStep(s: string)
    requires |s| >= 2 && !(s[0] == '/' && s[1] == '*')
    ensures StripBlocks(s) == [s[0]] + StripBlocks(s[1..])
  {
    hide IndexFrom, OccursAt;
  }

  lemma CommentStep(s: string, end: nat)
    requires |s| >= 2 && s[0] == '/' && s[1] == '*' && end + 2 <= |s| && IndexFrom(s, "*/", 2) == Some(end)
    ensures StripBlocks(s) == " " + StripBlocks(s[end + 2..])
  {
    hide IndexFrom, OccursAt;
  }

  /** A block comment: the text before it is kept, it becomes a blank, and the rest goes on from there. */
  lemma {:induction false} BlockIsStripped(before: string, comment: string, rest: string)
    requires !Contains(before + "/*", "/*", |before|)
    requires !Contains(comment + "*/", "*/", |comment|)
    ensures StripBlocks(before + "/*" + comment + "*/" + rest) == before + " " + StripBlocks(rest)
    decreases |before|
  {
    hide StripBlocks, Contains, IndexFrom;
    var s := before + "/*" + comment + "*/" + rest;
    if before == "" {
      CommentEndsFirst(comment, rest);
      assert s == "/*" + comment + "*/" + rest;
      assert s[|comment| + 4..] == rest;
      CommentStep(s, |comment| + 2);
    } else {
      BeforeBlocks(before);
      BlockIsStripped(before[1..], comment, rest);
      assert s[1..] == before[1..] + "/*" + comment + "*/" + rest;
      assert s[0] == before[0] && s[1] == (before + "/*")[1];
      PlainStep(s);
      assert [before[0]] + (before[1..] + " " + StripBlocks(rest)) == before + " " + StripBlocks(rest);
    }
  }

  lemma CommentEndsFirst(comment: string, rest: string)
    requires !Contains(comment + "*/", "*/", |comment|)
    ensures IndexFrom("/*" + comment + "*/" + rest, "*/", 2) == Some(|comment| + 2)
  {
    var s, c := "/*" + comment + "*/" + rest, comment + "*/";
    TwoCharacters(s, "*/", |comment| + 2);
    forall g: nat | 2 <= g < |comment| + 2 ensures !OccursAt(s, "*/", g) {
      TwoCharacters(s, "*/", g);
      TwoCharacters(c, "*/", g - 2);
      assert !OccursAt(c, "*/", g - 2);
      assert s[g] == c[g - 2] && s[g + 1] == c[g - 1];
    }
    FirstIndex(s, "*/", 2, |comment| + 2);
  }

  lemma BeforeBlocks(before: string)
    requires before != "" && !Contains(before + "/*", "/*", |before|)
    ensures !(before[0] == '/' && (before + "/*")[1] == '*')
    ensures !Contains(before[1..] + "/*", "/*", |before| - 1)
  {
    var s := before + "/*";
    TwoCharacters(s, "/*", 0);
    assert !OccursAt(s, "/*", 0);
    forall h: nat | h < |before| - 1 ensures !OccursAt(before[1..] + "/*", "/*", h) {
      TwoCharacters(before[1..] + "/*", "/*", h);
      TwoCharacters(s, "/*", h + 1);
      assert !OccursAt(s, "/*", h + 1);
    }
  }

  /** Without a comment that is closed nothing changes. */
  lemma {:induction false} NoBlocksNothingStripped(s: string)
    requires forall h: nat, e: nat :: OccursAt(s, "/*", h) && h + 2 <= e ==> !OccursAt(s, "*/", e)
    ensures StripBlocks(s) == s
  {
    if |s| >= 2 {
      TwoCharacters(s, "/*", 0);
      if s[0] == '/' && s[1] == '*' {
        assert OccursAt(s, "/*", 0);
        assert IndexFrom(s, "*/", 2).None?;
      }
      forall h: nat, e: nat | OccursAt(s[1..], "/*", h) && h + 2 <= e ensures !OccursAt(s[1..], "*/", e) {
        TwoCharacters(s[1..], "/*", h);
        TwoCharacters(s, "/*", h + 1);
        TwoCharacters(s[1..], "*/", e);
        TwoCharacters(s, "*/", e + 1);
        assert OccursAt(s, "/*", h + 1);
      }
      NoBlocksNothingStripped(s[1..]);
    }
  }

  /** A line comment: the text before it is kept, it becomes a blank, and the line break stays. */
  lemma {:induction false} LineIsStripped(before: string, note: string, rest: string)
    requires !Contains(before + "--", "--", |before|)
    requires (forall i :: 0 <= i < |note| ==> note[i] != '\n') && (rest == "" || rest[0] == '\n')
    ensures StripLines(before + "--" + note + rest) == before + " " + StripLines(rest)
    decreases |before|
  {
    var s := before + "--" + note + rest;
    if before == "" {
      assert s == "--" + note + rest;
      LineEndsAt(s, 2, |note| + 2);
      assert s[|note| + 2..] == rest;
    } else {
      BeforeLines(before);
      LineIsStripped(before[1..], note, rest);
      assert s[1..] == before[1..] + "--" + note + rest;
      assert s[0] == before[0] && s[1] == (before + "--")[1];
      assert [before[0]] + (before[1..] + " " + StripLines(rest)) == before + " " + StripLines(rest);
    }
  }

  lemma {:induction false} LineEndsAt(s: string, i: nat, j: nat)
    requires i <= j <= |s| && (forall k :: i <= k < j ==> s[k] != '\n') && (j < |s| ==> s[j] == '\n')
    ensures LineEnd(s, i) == j
    decreases j - i
  {
    if i < j {
      LineEndsAt(s, i + 1, j);
    }
  }

  lemma BeforeLines(before: string)
    requires before != "" && !Contains(before + "--", "--", |before|)
    ensures !(before[0] == '-' && (before + "--")[1] == '-')
    ensures !Contains(before[1..] + "--", "--", |before| - 1)
  {
    var s := before + "--";
    TwoCharacters(s, "--", 0);
    assert !OccursAt(s, "--", 0);
    forall h: nat | h < |before| - 1 ensures !OccursAt(before[1..] + "--", "--", h) {
      TwoCharacters(before[1..] + "--", "--", h);
      TwoCharacters(s, "--", h + 1);
      assert !OccursAt(s, "--", h + 1);
    }
  }

  lemma {:induction false} NoLinesNothingStripped(s: string)
    requires forall h: nat :: !OccursAt(s, "--", h)
    ensures StripLines(s) == s
  {
    if |s| >= 2 {
      TwoCharacters(s, "--", 0);
      forall h: nat ensures !OccursAt(s[1..], "--", h) {
        TwoCharacters(s[1..], "--", h);
        TwoCharacters(s, "--", h + 1);
      }
      NoLinesNothingStripped(s[1..]);
    }
  }

  /** A note alone is dropped; with a statement on the next line the piece is kept. */
  lemma NotesAreDropped(note: string, rest: string)
    requires forall i :: 0 <= i < |note| ==> note[i] != '\n' && note[i] != '*'
    requires rest == "" || rest[0] == '\n'
    requires forall i :: 0 <= i < |rest| ==> rest[i] != '-' && rest[i] != '*'
    ensures Effective("--" + note + rest) <==> !AllSpace(rest)
  {
    var s := "--" + note + rest;
    forall e: nat ensures !OccursAt(s, "*/", e) {
      TwoCharacters(s, "*/", e);
    }
    NoBlocksNothingStripped(s);
    forall h: nat ensures !OccursAt(rest, "--", h) {
      TwoCharacters(rest, "--", h);
    }
    NoLinesNothingStripped(rest);
    assert !Contains("" + "--", "--", 0);
    assert "" + "--" + note + rest == s;
    LineIsStripped("", note, rest);
    assert StripComments(s) == "" + " " + rest == " " + rest;
    BlankExactly(" " + rest);
    BlankBefore(rest);
  }

  lemma BlankBefore(rest: string)
    ensures AllSpace(" " + rest) <==> AllSpace(rest)
  {
    var s := " " + rest;
    if AllSpace(s) {
      forall i | 0 <= i < |rest| ensures IsSpace(rest[i]) {
        assert rest[i] == s[i + 1];
      }
    }
  }

  lemma BlankExactly(s: string)
    ensures Trim(s) == "" <==> AllSpace(s)
  {
    if AllSpace(s) {
      TrimOfSpace(s);
    }
    if Trim(s) == "" {
      var before, after := TrimMeaning(s);
      assert s == before + after;
    }
  }

  // ---- Where quoted texts and block comments end -------------------------------------------------

  /** A quoted text from i ends at j: some text with its quotes doubled fills it, and then comes a
      closing quote that is not doubled, or the end of the input. */
  ghost predicate EndsQuoted(s: string, q: char, i: nat, j: nat) {
    && i <= j <= |s|
    && ((j == |s| && exists v :: s[i..j] == Doubled(v, q))
        || (!At(s, j, q) && exists v :: s[i..j] == Doubled(v, q) + [q]))
  }

  lemma {:induction false} QuoteEndEnds(s: string, q: char, i: nat)
    requires i <= |s|
    ensures EndsQuoted(s, q, i, QuoteEnd(s, q, i))
    decreases |s| - i
  {
    var j := QuoteEnd(s, q, i);
    if i == |s| {
      assert s[i..j] == Doubled("", q);
    } else if s[i] != q {
      QuoteEndEnds(s, q, i + 1);
      OneMoreQuoted(s, q, i, i + 1, j);
    } else if At(s, i + 1, q) {
      QuoteEndEnds(s, q, i + 2);
      OneMoreQuoted(s, q, i, i + 2, j);
    } else {
      assert s[i..j] == Doubled("", q) + [q];
    }
  }

  lemma OneMoreQuoted(s: string, q: char, i: nat, n: nat, j: nat)
    requires i < n <= |s| && s[i..n] == (if s[i] == q then [q, q] else [s[i]]) && EndsQuoted(s, q, n, j)
    ensures EndsQuoted(s, q, i, j)
  {
    hide Doubled;
    assert s[i..j] == s[i..n] + s[n..j];
    if v :| j == |s| && s[n..j] == Doubled(v, q) {
      OneMoreDoubled(s[i], v, q);
      assert s[i..j] == Doubled([s[i]] + v, q);
    } else {
      var v :| s[n..j] == Doubled(v, q) + [q];
      OneMoreDoubled(s[i], v, q);
      assert s[i..n] + (Doubled(v, q) + [q]) == s[i..n] + Doubled(v, q) + [q];
      assert s[i..j] == Doubled([s[i]] + v, q) + [q];
    }
  }

  lemma OneMoreDoubled(c: char, v: string, q: char)
    ensures Doubled([c] + v, q) == (if c == q then [q, q] else [c]) + Doubled(v, q)
  {
    assert ([c] + v)[1..] == v;
  }

  /** A doubled text is read to its end, and a closing quote behind it once more. */
  lemma {:induction false} DoubledIsSkipped(s: string, q: char, i: nat, v: string, j: nat)
    requires i <= j <= |s| && s[i..j] == Doubled(v, q)
    ensures j == |s| ==> QuoteEnd(s, q, i) == j
    ensures At(s, j, q) && !At(s, j + 1, q) ==> QuoteEnd(s, q, i) == j + 1
    decreases |v|
  {
    if v != "" {
      var n := if v[0] == q then 2 else 1;
      assert s[i] == s[i..j][0] && (n == 2 ==> s[i + 1] == s[i..j][1]);
      assert s[i + n..j] == s[i..j][n..] == Doubled(v[1..], q);
      DoubledIsSkipped(s, q, i + n, v[1..], j);
    }
  }

  /** There is one such place, and it is where the scanner goes. */
  lemma QuoteEndExactly(s: string, q: char, i: nat, j: nat)
    requires i <= |s|
    ensures j == QuoteEnd(s, q, i) <==> EndsQuoted(s, q, i, j)
  {
    QuoteEndEnds(s, q, i);
    hide QuoteEnd, Doubled;
    if EndsQuoted(s, q, i, j) {
      if v :| j == |s| && s[i..j] == Doubled(v, q) {
        DoubledIsSkipped(s, q, i, v, j);
      } else {
        var v :| s[i..j] == Doubled(v, q) + [q];
        assert s[i..j - 1] == s[i..j][..j - 1 - i] == Doubled(v, q);
        assert s[j - 1] == s[i..j][j - 1 - i];
        DoubledIsSkipped(s, q, i, v, j - 1);
      }
    }
  }

  /** A block comment from i ends at j: just behind its first closer, or at the end of the input. */
  ghost predicate EndsBlock(s: string, i: nat, j: nat) {
    || (j == |s| && forall h: nat :: i <= h ==> !OccursAt(s, "*/", h))
    || (i + 2 <= j && OccursAt(s, "*/", j - 2) && forall h: nat :: i <= h < j - 2 ==> !OccursAt(s, "*/", h))
  }

  lemma {:induction false} BlockEndEnds(s: string, i: nat)
    requires i <= |s|
    ensures EndsBlock(s, i, BlockEnd(s, i))
    decreases |s| - i
  {
    if i + 1 < |s| {
      assert OccursAt(s, "*/", i) <==> s[i] == '*' && s[i + 1] == '/';
      if !OccursAt(s, "*/", i) {
        BlockEndEnds(s, i + 1);
      }
    }
  }

  /** There is one such place, and it is where the scanner goes. */
  lemma BlockEndExactly(s: string, i: nat, j: nat)
    requires i <= |s|
    ensures j == BlockEnd(s, i) <==> EndsBlock(s, i, j)
  {
    BlockEndEnds(s, i);
    hide BlockEnd;
  }

  // ---- The scanner as it runs ----------------------------------------------------------------------

  method SkipQuoted(sql: string, c: char, from: nat) returns (i: nat)
    requires from <= |sql|
    ensures i == QuoteEnd(sql, c, from)
    ensures EndsQuoted(sql, c, from, i)
  {
    QuoteEndEnds(sql, c, from);
    var n := |sql|;
    i := from;
    while i < n
      invariant from <= i <= n && QuoteEnd(sql, c, i) == QuoteEnd(sql, c, from)
    {
      if sql[i] == c {
        if i + 1 < n && sql[i + 1] == c {
          i := i + 2;
          continue;
        }
        i := i + 1;
        return;
      }
      i := i + 1;
    }
  }

  method SkipLine(sql: string, from: nat) returns (i: nat)
    requires from + 1 < |sql| && sql[from] == '-' && sql[from + 1] == '-'
    ensures i == LineEnd(sql, from + 2)
    ensures from + 2 <= i <= |sql| && (i < |sql| ==> sql[i] == '\n')
    ensures forall k :: from <= k < i ==> sql[k] != '\n'
  {
    i := from;
    while i < |sql| && sql[i] != '\n'
      invariant from <= i <= |sql| && (i >= from + 2 ==> LineEnd(sql, i) == LineEnd(sql, from + 2))
      invariant forall k :: from <= k < i ==> sql[k] != '\n'
    {
      i := i + 1;
    }
  }

  method SkipBlock(sql: string, from: nat) returns (i: nat)
    requires from + 1 < |sql|
    ensures i == BlockEnd(sql, from + 2)
    ensures EndsBlock(sql, from + 2, i)
  {
    BlockEndEnds(sql, from + 2);
    var n := |sql|;
    i := from + 2;
    while i + 1 < n && !(sql[i] == '*' && sql[i + 1] == '/')
      invariant from + 2 <= i <= n && BlockEnd(sql, i) == BlockEnd(sql, from + 2)
    {
      i := i + 1;
    }
    i := if i + 2 <= n then i + 2 else n;
  }

  /** One pass over the text, with two indices and an output list. */
  method SplitStatements(sql: string) returns (out: seq<string>)
    ensures out == Split(sql)
  {
    hide Trim, StripComments, IndexFrom, WordEnd, Effective, Push, QuoteEnd, LineEnd, BlockEnd;
    out := [];
    var n := |sql|;
    var start, i := 0, 0;
    while i < n
      invariant 0 <= start <= i <= n
      invariant PushAll(out, Segments(sql, start, i)) == Split(sql)
    {
      var c := sql[i];
      if c == '\'' || c == '"' {
        i := SkipQuoted(sql, c, i + 1);
      } else if c == '-' && i + 1 < n && sql[i + 1] == '-' {
        i := SkipLine(sql, i);
      } else if c == '/' && i + 1 < n && sql[i + 1] == '*' {
        i := SkipBlock(sql, i);
      } else if c == '$' {
        var tag := DollarTag(sql, i);
        if tag.Some? {
          var end := IndexFrom(sql, tag.value, i + |tag.value|);
          i := if end.Some? then end.value + |tag.value| else n;
        } else {
          i := i + 1;
        }
      } else if c == ';' {
        out := Push(out, sql[start..i]);
        i := i + 1;
        start := i;
      } else {
        i := i + 1;
      }
    }
    out := Push(out, sql[start..]);
  }
}
