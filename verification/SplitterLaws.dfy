/** What the splitter does, stated without its jumps: a lexical mode for every position, cuts at
    plain semicolons, and the laws of splitting and rejoining. */
module SplitterLaws {
  import opened Wrappers
  import opened SqlText
  import opened SqlStatements

  /** The mode in which a position is read. Opening and Closing count down the rest of a token
      that has already been recognized. */
  datatype Mode =
    | Plain
    | Quoted(quote: char)
    | LineComment
    | BlockOpening
    | Block
    | BlockClosing
    | Opening(tag: string, left: nat)
    | Dollar(tag: string)
    | Closing(left: nat)

  function Next(s: string, i: nat, m: Mode): Mode
    requires i < |s|
  {
    match m
    case Plain =>
      if s[i] == '\'' || s[i] == '"' then Quoted(s[i])
      else if s[i] == '-' && At(s, i + 1, '-') then LineComment
      else if s[i] == '/' && At(s, i + 1, '*') then BlockOpening
      else (match DollarTag(s, i)
            case Some(tag) => Opening(tag, |tag| - 1)
            case None => Plain)
    case Quoted(q) => if s[i] == q then Plain else m
    case LineComment => if s[i] == '\n' then Plain else m
    case BlockOpening => Block
    case Block => if s[i] == '*' && At(s, i + 1, '/') then BlockClosing else Block
    case BlockClosing => Plain
    case Opening(tag, left) => if left > 1 then Opening(tag, left - 1) else Dollar(tag)
    case Dollar(tag) => if OccursAt(s, tag, i) && |tag| >= 2 then Closing(|tag| - 1) else m
    case Closing(left) => if left > 1 then Closing(left - 1) else Plain
  }

  function ModeAt(s: string, i: nat): Mode
    requires i <= |s|
  {
    if i == 0 then Plain else Next(s, i - 1, ModeAt(s, i - 1))
  }

  /** A top-level semicolon. */
  predicate IsCut(s: string, i: nat) {
    i < |s| && s[i] == ';' && ModeAt(s, i) == Plain
  }

  function CutSegments(s: string, start: nat, i: nat): seq<string>
    requires start <= i <= |s|
    decreases |s| - i
  {
    if i == |s| then [s[start..]]
    else if IsCut(s, i) then [s[start..i]] + CutSegments(s, i + 1, i + 1)
    else CutSegments(s, start, i + 1)
  }

  predicate NoCut(s: string, i: nat, j: nat) {
    forall k :: i <= k < j ==> !IsCut(s, k)
  }

  // ---- The scanner cuts exactly at top-level semicolons ------------------------------------------

  lemma {:induction false} SkipUncut(s: string, start: nat, i: nat, j: nat)
    requires start <= i <= j <= |s| && NoCut(s, i, j)
    ensures CutSegments(s, start, i) == CutSegments(s, start, j)
    decreases j - i
  {
    if i < j {
      SkipUncut(s, start, i + 1, j);
    }
  }

  lemma {:induction false} QuoteTokens(s: string, q: char, i: nat)
    requires i <= |s| && ModeAt(s, i) == Quoted(q) && (q == '\'' || q == '"')
    ensures NoCut(s, i, QuoteEnd(s, q, i))
    ensures QuoteEnd(s, q, i) < |s| ==> ModeAt(s, QuoteEnd(s, q, i)) == Plain
    decreases |s| - i
  {
    if i < |s| {
      if s[i] != q {
        QuoteTokens(s, q, i + 1);
      } else if i + 1 < |s| && s[i + 1] == q {
        assert ModeAt(s, i + 1) == Plain && ModeAt(s, i + 2) == Quoted(q);
        QuoteTokens(s, q, i + 2);
      } else {
        assert ModeAt(s, i + 1) == Plain;
      }
    }
  }

  lemma {:induction false} LineTokens(s: string, i: nat)
    requires i <= |s| && ModeAt(s, i) == LineComment
    ensures NoCut(s, i, LineEnd(s, i))
    ensures LineEnd(s, i) < |s| ==> s[LineEnd(s, i)] == '\n' && ModeAt(s, LineEnd(s, i)) == LineComment
    decreases |s| - i
  {
    if i < |s| && s[i] != '\n' {
      LineTokens(s, i + 1);
    }
  }

  lemma {:induction false} BlockTokens(s: string, i: nat)
    requires i <= |s| && ModeAt(s, i) == Block
    ensures NoCut(s, i, BlockEnd(s, i))
    ensures BlockEnd(s, i) < |s| ==> ModeAt(s, BlockEnd(s, i)) == Plain
    decreases |s| - i
  {
    if i + 1 < |s| && !(s[i] == '*' && s[i + 1] == '/') {
      BlockTokens(s, i + 1);
    } else if i + 2 <= |s| {
      assert ModeAt(s, i + 1) == BlockClosing && ModeAt(s, i + 2) == Plain;
    }
  }

  lemma {:induction false} OpeningTokens(s: string, tag: string, i: nat, left: nat)
    requires i + left <= |s| && left >= 1 && ModeAt(s, i) == Opening(tag, left)
    ensures NoCut(s, i, i + left) && ModeAt(s, i + left) == Dollar(tag)
    decreases left
  {
    if left > 1 {
      assert ModeAt(s, i + 1) == Opening(tag, left - 1);
      OpeningTokens(s, tag, i + 1, left - 1);
    }
  }

  lemma {:induction false} ClosingTokens(s: string, i: nat, left: nat)
    requires i + left <= |s| && left >= 1 && ModeAt(s, i) == Closing(left)
    ensures NoCut(s, i, i + left) && ModeAt(s, i + left) == Plain
    decreases left
  {
    if left > 1 {
      assert ModeAt(s, i + 1) == Closing(left - 1);
      ClosingTokens(s, i + 1, left - 1);
    }
  }

  function DollarEnd(s: string, tag: string, i: nat): (j: nat)
    requires i <= |s|
    ensures i <= j <= |s|
  {
    match IndexFrom(s, tag, i)
    case None => |s|
    case Some(end) => end + |tag|
  }

  lemma {:induction false} DollarTokens(s: string, tag: string, i: nat)
    requires i <= |s| && |tag| >= 2 && ModeAt(s, i) == Dollar(tag)
    ensures NoCut(s, i, DollarEnd(s, tag, i))
    ensures DollarEnd(s, tag, i) < |s| ==> ModeAt(s, DollarEnd(s, tag, i)) == Plain
    decreases |s| - i
  {
    if OccursAt(s, tag, i) {
      assert ModeAt(s, i + 1) == Closing(|tag| - 1);
      ClosingTokens(s, i + 1, |tag| - 1);
    } else if i < |s| {
      assert ModeAt(s, i + 1) == Dollar(tag);
      DollarTokens(s, tag, i + 1);
    }
  }

  lemma DollarTokenEnd(s: string, i: nat, tag: string)
    requires i < |s| && DollarTag(s, i) == Some(tag)
    ensures i + |tag| <= |s| && TokenEnd(s, i) == DollarEnd(s, tag, i + |tag|)
  {
    hide IndexFrom, WordEnd;
  }

  lemma DollarQuoteHoldsNoCut(s: string, i: nat, tag: string)
    requires i < |s| && ModeAt(s, i) == Plain && DollarTag(s, i) == Some(tag)
    ensures i + |tag| <= |s| && NoCut(s, i, DollarEnd(s, tag, i + |tag|))
    ensures DollarEnd(s, tag, i + |tag|) < |s| ==> ModeAt(s, DollarEnd(s, tag, i + |tag|)) == Plain
  {
    hide *;
    OpensDollar(s, i, tag);
    OpeningTokens(s, tag, i + 1, |tag| - 1);
    DollarTokens(s, tag, i + |tag|);
    NoCutTogether(s, i, i + 1, i + |tag|);
    NoCutTogether(s, i, i + |tag|, DollarEnd(s, tag, i + |tag|));
  }

  lemma NoCutTogether(s: string, i: nat, j: nat, k: nat)
    requires i <= j <= k && NoCut(s, i, j) && NoCut(s, j, k)
    ensures NoCut(s, i, k)
  {
  }

  lemma OpensDollar(s: string, i: nat, tag: string)
    requires i < |s| && ModeAt(s, i) == Plain && DollarTag(s, i) == Some(tag)
    ensures i + |tag| <= |s| && ModeAt(s, i + 1) == Opening(tag, |tag| - 1) && NoCut(s, i, i + 1)
  {
    hide IndexFrom, WordEnd;
  }

  /** A token other than a plain semicolon holds no cut, and plain text goes on behind it; only a
      line comment ends before its newline, which is then read as part of the comment. */
  lemma TokenHoldsNoCut(s: string, i: nat)
    requires i < |s| && ModeAt(s, i) == Plain && s[i] != ';'
    ensures NoCut(s, i, TokenEnd(s, i))
    ensures TokenEnd(s, i) < |s| ==>
              || ModeAt(s, TokenEnd(s, i)) == Plain
              || (ModeAt(s, TokenEnd(s, i)) == LineComment && s[TokenEnd(s, i)] == '\n')
  {
    hide IndexFrom, WordEnd;
    if s[i] == '\'' || s[i] == '"' {
      assert ModeAt(s, i + 1) == Quoted(s[i]);
      QuoteTokens(s, s[i], i + 1);
    } else if s[i] == '-' && At(s, i + 1, '-') {
      assert ModeAt(s, i + 1) == LineComment && ModeAt(s, i + 2) == LineComment;
      LineTokens(s, i + 2);
    } else if s[i] == '/' && At(s, i + 1, '*') {
      assert ModeAt(s, i + 1) == BlockOpening && ModeAt(s, i + 2) == Block;
      BlockTokens(s, i + 2);
    } else if DollarTag(s, i).Some? {
      DollarTokenEnd(s, i, DollarTag(s, i).value);
      DollarQuoteHoldsNoCut(s, i, DollarTag(s, i).value);
    } else {
      assert ModeAt(s, i + 1) == Plain;
    }
  }

  /** The jumping scanner cuts where the automaton sees a semicolon in plain text, and nowhere else. */
  lemma {:induction false} ScannerMatchesAutomaton(s: string, start: nat, i: nat)
    requires start <= i <= |s|
    requires i < |s| ==> ModeAt(s, i) == Plain || (ModeAt(s, i) == LineComment && s[i] == '\n')
    ensures Segments(s, start, i) == CutSegments(s, start, i)
    decreases |s| - i
  {
    if i < |s| {
      if ModeAt(s, i) == LineComment {
        assert TokenEnd(s, i) == i + 1;
        ScannerMatchesAutomaton(s, start, i + 1);
      } else if s[i] == ';' {
        assert ModeAt(s, i + 1) == Plain;
        ScannerMatchesAutomaton(s, i + 1, i + 1);
      } else {
        TokenHoldsNoCut(s, i);
        ScannerMatchesAutomaton(s, start, TokenEnd(s, i));
        SkipUncut(s, start, i, TokenEnd(s, i));
      }
    }
  }

  // ---- Nothing is lost -----------------------------------------------------------------------------

  /** The raw pieces joined by semicolons are the input. */
  lemma {:induction false} SegmentsJoinBack(s: string, start: nat, i: nat)
    requires start <= i <= |s|
    ensures Segments(s, start, i) != [] && Join(Segments(s, start, i), ";") == s[start..]
    decreases |s| - i
  {
    if i < |s| {
      if s[i] == ';' {
        SegmentsJoinBack(s, i + 1, i + 1);
        assert Segments(s, start, i)[1..] == Segments(s, i + 1, i + 1);
        assert s[start..] == s[start..i] + ";" + s[i + 1..];
      } else {
        SegmentsJoinBack(s, start, TokenEnd(s, i));
      }
    }
  }

  // ---- Locality: the mode of a piece does not depend on what stands around it -------------------------

  /** A character that can neither complete nor extend a token begun before it. */
  predicate Neutral(c: char) {
    c != '-' && c != '*' && c != '/' && c != '$' && !WordChar(c)
  }

  predicate Fits(rest: string) {
    rest == "" || Neutral(rest[0])
  }

  predicate TagText(tag: string) {
    |tag| >= 2 && forall i :: 0 <= i < |tag| ==> tag[i] == '$' || WordChar(tag[i])
  }

  /** Tags carried by a mode consist of dollar signs and word characters; the rest of a token that
      was recognized is still ahead. */
  predicate Sane(s: string, i: nat, m: Mode) {
    match m
    case Quoted(q) => q == '\'' || q == '"'
    case Opening(tag, left) => TagText(tag) && left >= 1 && i + left <= |s|
    case Dollar(tag) => TagText(tag)
    case Closing(left) => left >= 1 && i + left <= |s|
    case BlockOpening => i < |s|
    case BlockClosing => i < |s|
    case _ => true
  }

  lemma TagsAreTagText(s: string, i: nat)
    requires i < |s| && DollarTag(s, i).Some?
    ensures TagText(DollarTag(s, i).value)
  {
  }

  lemma {:induction false} ModesAreSane(s: string, i: nat)
    requires i <= |s|
    ensures Sane(s, i, ModeAt(s, i))
  {
    if i > 0 {
      ModesAreSane(s, i - 1);
      if DollarTag(s, i - 1).Some? {
        TagsAreTagText(s, i - 1);
      }
    }
  }

  lemma {:induction false} WordEndLocal(before: string, t: string, rest: string, i: nat)
    requires i <= |t| && Fits(rest)
    ensures WordEnd(before + t + rest, |before| + i) == |before| + WordEnd(t, i)
    decreases |t| - i
  {
    var s := before + t + rest;
    if i < |t| {
      assert s[|before| + i] == t[i];
      if WordChar(t[i]) {
        WordEndLocal(before, t, rest, i + 1);
      }
    } else if rest != "" {
      assert s[|before| + i] == rest[0];
    }
  }

  lemma DollarTagLocal(before: string, t: string, rest: string, i: nat)
    requires i < |t| && Fits(rest)
    ensures DollarTag(before + t + rest, |before| + i) == DollarTag(t, i)
  {
    hide WordEnd;
    var s := before + t + rest;
    assert s[|before| + i] == t[i];
    if t[i] == '$' {
      WordEndLocal(before, t, rest, i + 1);
      var j := WordEnd(t, i + 1);
      if j < |t| {
        assert s[|before| + j] == t[j];
        assert s[|before| + i..|before| + j + 1] == t[i..j + 1];
      } else if rest != "" {
        assert s[|before| + j] == rest[0];
      }
    }
  }

  lemma OccursLocal(before: string, t: string, rest: string, tag: string, i: nat)
    requires i < |t| && Fits(rest) && TagText(tag)
    ensures OccursAt(before + t + rest, tag, |before| + i) == OccursAt(t, tag, i)
  {
    var s := before + t + rest;
    if i + |tag| <= |t| {
      assert s[|before| + i..|before| + i + |tag|] == t[i..i + |tag|];
    } else if rest != "" && |before| + i + |tag| <= |s| {
      var k := |t| - i;
      assert s[|before| + i..|before| + i + |tag|][k] == rest[0];
      assert tag[k] != rest[0];
    }
  }

  lemma NextLocal(before: string, t: string, rest: string, i: nat, m: Mode)
    requires i < |t| && Fits(rest) && (m.Dollar? ==> TagText(m.tag))
    ensures Next(before + t + rest, |before| + i, m) == Next(t, i, m)
  {
    hide DollarTag, OccursAt;
    var s := before + t + rest;
    assert s[|before| + i] == t[i];
    if i + 1 < |t| {
      assert s[|before| + i + 1] == t[i + 1];
    } else if rest != "" {
      assert s[|before| + i + 1] == rest[0];
    }
    DollarTagLocal(before, t, rest, i);
    if m.Dollar? {
      OccursLocal(before, t, rest, m.tag, i);
    }
  }

  /** A piece that starts in plain text and is followed by a neutral character or nothing is read
      inside the whole exactly as it is read alone. */
  lemma {:induction false} Locality(before: string, t: string, rest: string, i: nat)
    requires ModeAt(before + t + rest, |before|) == Plain && Fits(rest) && i <= |t|
    ensures ModeAt(before + t + rest, |before| + i) == ModeAt(t, i)
  {
    hide Next, Fits;
    if i > 0 {
      Locality(before, t, rest, i - 1);
      ModesAreSane(t, i - 1);
      NextLocal(before, t, rest, i - 1, ModeAt(t, i - 1));
    }
  }

  lemma CutsAreLocal(before: string, t: string, rest: string)
    requires ModeAt(before + t + rest, |before|) == Plain && Fits(rest)
    ensures forall i: nat :: i < |t| ==> (IsCut(before + t + rest, |before| + i) <==> IsCut(t, i))
    ensures ModeAt(before + t + rest, |before| + |t|) == ModeAt(t, |t|)
  {
    hide ModeAt, Fits;
    forall i: nat | i <= |t| ensures ModeAt(before + t + rest, |before| + i) == ModeAt(t, i) {
      Locality(before, t, rest, i);
    }
  }

  lemma {:induction false} SpaceStaysPlain(s: string, n: nat)
    requires n <= |s| && AllSpace(s[..n])
    ensures ModeAt(s, n) == Plain && NoCut(s, 0, n)
  {
    if n > 0 {
      assert s[..n][..n - 1] == s[..n - 1] && s[..n][n - 1] == s[n - 1];
      SpaceStaysPlain(s, n - 1);
    }
  }

  // ---- Splitting again ------------------------------------------------------------------------------------

  /** A statement as the splitter returns it. */
  predicate Whole(x: string) {
    Trimmed(x) && Effective(x) && NoCut(x, 0, |x|)
  }

  /** Nothing is left open at the end but possibly a line comment. */
  predicate Sealed(x: string) {
    ModeAt(x, |x|) == Plain || ModeAt(x, |x|) == LineComment
  }

  lemma SpaceFits(w: string)
    requires AllSpace(w)
    ensures Fits(w)
  {
  }

  /** White space cannot close a quote, a block comment or a dollar quote. */
  lemma {:induction false} OpenStaysOpen(s: string, p: nat, j: nat)
    requires p <= j <= |s| && AllSpace(s[p..])
    requires var m := ModeAt(s, p); m.Quoted? || m.Block? || m.Dollar?
    ensures ModeAt(s, j) == ModeAt(s, p)
    decreases j
  {
    if p < j {
      OpenStaysOpen(s, p, j - 1);
      ModesAreSane(s, p);
      assert s[j - 1] == s[p..][j - 1 - p];
      if ModeAt(s, p).Dollar? {
        SpaceStartsNoTag(s, ModeAt(s, p).tag, j - 1);
      }
    }
  }

  lemma SpaceStartsNoTag(s: string, tag: string, i: nat)
    requires i < |s| && IsSpace(s[i]) && TagText(tag)
    ensures !OccursAt(s, tag, i)
  {
    assert i + |tag| <= |s| ==> s[i..i + |tag|][0] == s[i];
    assert tag[0] != s[i];
  }

  lemma PiecesAreWhole(s: string, a: nat, b: nat)
    requires a <= b <= |s| && ModeAt(s, a) == Plain && NoCut(s, a, b) && (b < |s| ==> IsCut(s, b))
    ensures NoCut(Trim(s[a..b]), 0, |Trim(s[a..b])|)
    ensures b < |s| ==> Sealed(Trim(s[a..b]))
  {
    hide *;
    var t := s[a..b];
    LocalPiece(s, a, b);
    var before, after := TrimMeaning(t);
    TrimmedPiece(t, before, Trim(t), after);
  }

  lemma LocalPiece(s: string, a: nat, b: nat)
    requires a <= b <= |s| && ModeAt(s, a) == Plain && NoCut(s, a, b) && (b < |s| ==> IsCut(s, b))
    ensures NoCut(s[a..b], 0, b - a)
    ensures b < |s| ==> ModeAt(s[a..b], b - a) == Plain
  {
    hide ModeAt, Trim;
    assert s[..a] + s[a..b] + s[b..] == s;
    CutsAreLocal(s[..a], s[a..b], s[b..]);
    forall i | 0 <= i < b - a ensures !IsCut(s[a..b], i) {
      assert !IsCut(s, a + i);
    }
  }

  lemma TrimmedPiece(t: string, before: string, x: string, after: string)
    requires t == before + x + after && AllSpace(before) && AllSpace(after) && NoCut(t, 0, |t|)
    ensures NoCut(x, 0, |x|)
    ensures ModeAt(t, |t|) == Plain ==> Sealed(x)
  {
    assert t[..|before|] == before;
    SpaceStaysPlain(t, |before|);
    SpaceFits(after);
    CutsAreLocal(before, x, after);
    hide ModeAt;
    forall i | 0 <= i < |x| ensures !IsCut(x, i) {
      assert !IsCut(t, |before| + i);
    }
    ModesAreSane(x, |x|);
    var p := |before| + |x|;
    assert t[p..] == after;
    if !Sealed(x) {
      OpenStaysOpen(t, p, |t|);
    }
  }

  ghost predicate AllWhole(xs: seq<string>) {
    forall k :: 0 <= k < |xs| ==> Whole(xs[k])
  }

  ghost predicate AllSealed(xs: seq<string>) {
    forall k :: 0 <= k < |xs| ==> Sealed(xs[k])
  }

  /** What one piece adds to the output. */
  lemma PushedPiece(s: string, a: nat, b: nat, out: seq<string>)
    requires a <= b <= |s| && ModeAt(s, a) == Plain && NoCut(s, a, b) && (b < |s| ==> IsCut(s, b))
    requires AllWhole(out) && AllSealed(out)
    ensures var r := Push(out, s[a..b]);
            AllWhole(r) && AllSealed(r[..if |r| > 0 then |r| - 1 else 0]) && (b < |s| ==> AllSealed(r))
  {
    hide Trim, Effective, Sealed, ModeAt, NoCut, IsCut;
    PiecesAreWhole(s, a, b);
    var before, after := TrimMeaning(s[a..b]);
  }

  lemma {:induction false} ReturnedPieces(s: string, start: nat, i: nat, out: seq<string>)
    requires start <= i <= |s| && ModeAt(s, start) == Plain && NoCut(s, start, i)
    requires AllWhole(out) && AllSealed(out)
    ensures var r := PushAll(out, CutSegments(s, start, i));
            AllWhole(r) && AllSealed(r[..if |r| > 0 then |r| - 1 else 0])
    decreases |s| - i
  {
    hide Push, Whole, Sealed, ModeAt;
    if i == |s| {
      PushedPiece(s, start, i, out);
      assert s[start..] == s[start..i];
    } else if IsCut(s, i) {
      PushedPiece(s, start, i, out);
      PlainAfterCut(s, i);
      ReturnedPieces(s, i + 1, i + 1, Push(out, s[start..i]));
      assert CutSegments(s, start, i)[1..] == CutSegments(s, i + 1, i + 1);
    } else {
      ReturnedPieces(s, start, i + 1, out);
    }
  }

  lemma PlainAfterCut(s: string, i: nat)
    requires IsCut(s, i)
    ensures ModeAt(s, i + 1) == Plain
  {
  }

  lemma ReturnedStatements(s: string)
    ensures AllWhole(Split(s))
    ensures forall k :: 0 <= k < |Split(s)| - 1 ==> Sealed(Split(s)[k])
  {
    hide Push, Whole, Sealed, CutSegments, Segments, Next;
    ScannerMatchesAutomaton(s, 0, 0);
    ReturnedPieces(s, 0, 0, []);
    var r := Split(s);
    forall k | 0 <= k < |r| - 1 ensures Sealed(r[k]) {
      assert r[k] == r[..|r| - 1][k];
    }
  }

  lemma WholeSplitsToItself(x: string)
    requires Whole(x)
    ensures Split(x) == [x]
  {
    hide Trim, Effective, ModeAt;
    ScannerMatchesAutomatonFromStart(x);
    SkipUncut(x, 0, 0, |x|);
    TrimOfTrimmed(x);
    assert x[0..] == x;
    assert CutSegments(x, 0, |x|) == [x];
    assert Push([], x) == [x];
    assert Segments(x, 0, 0) == [x] && [x][1..] == [];
    assert PushAll([], [x]) == PushAll([x], []);
  }

  lemma ScannerMatchesAutomatonFromStart(s: string)
    ensures Segments(s, 0, 0) == CutSegments(s, 0, 0)
  {
    ScannerMatchesAutomaton(s, 0, 0);
  }

  /** Splitting any returned statement returns just that statement. */
  lemma StatementSplitsToItself(s: string, k: nat)
    requires k < |Split(s)|
    ensures Split(Split(s)[k]) == [Split(s)[k]]
  {
    ReturnedStatements(s);
    WholeSplitsToItself(Split(s)[k]);
  }

  lemma {:induction false} ShiftSegments(before: string, t: string, start: nat, i: nat)
    requires ModeAt(before + t, |before|) == Plain && start <= i <= |t|
    ensures CutSegments(before + t, |before| + start, |before| + i) == CutSegments(t, start, i)
    decreases |t| - i
  {
    hide ModeAt, IsCut;
    var s := before + t;
    assert s == before + t + "";
    CutsAreLocal(before, t, "");
    assert s[|before| + start..|before| + i] == t[start..i];
    if i == |t| {
      assert s[|before| + start..] == t[start..];
    } else if IsCut(t, i) {
      ShiftSegments(before, t, i + 1, i + 1);
    } else {
      ShiftSegments(before, t, start, i + 1);
    }
  }

  /** A sealed statement followed by a newline is back in plain text. */
  lemma SealedHead(w: string, x: string, rest: string)
    requires AllSpace(w) && NoCut(x, 0, |x|) && Sealed(x)
    ensures var s := w + x + ("\n;" + rest);
            NoCut(s, 0, |w| + |x| + 1) && IsCut(s, |w| + |x| + 1)
  {
    var tail := "\n;" + rest;
    var s := w + x + tail;
    var p := |w| + |x|;
    assert s[..|w|] == w;
    SpaceStaysPlain(s, |w|);
    CutsAreLocal(w, x, tail);
    forall k | |w| <= k < p ensures !IsCut(s, k) {
      assert !IsCut(x, k - |w|);
    }
    assert s[p] == '\n' && s[p + 1] == ';';
    assert ModeAt(s, p + 1) == Plain;
  }

  lemma {:induction false} RejoinedPieces(w: string, xs: seq<string>, out: seq<string>)
    requires AllSpace(w)
    requires forall k :: 0 <= k < |xs| ==> Whole(xs[k])
    requires forall k :: 0 <= k < |xs| - 1 ==> Sealed(xs[k])
    ensures PushAll(out, CutSegments(w + Join(xs, "\n;\n"), 0, 0)) == out + xs
    decreases |xs|
  {
    hide Push, Whole, Sealed, CutSegments, PushAll, ModeAt;
    if |xs| == 0 {
      NothingIn(w, out);
      assert w + Join(xs, "\n;\n") == w;
      assert out + xs == out;
    } else if |xs| == 1 {
      LastPiece(w, xs[0], out);
      assert xs == [xs[0]];
    } else {
      var tail := Join(xs[1..], "\n;\n");
      assert w + Join(xs, "\n;\n") == w + xs[0] + ("\n;" + ("\n" + tail));
      FirstPiece(w, xs[0], "\n" + tail, out);
      RejoinedPieces("\n", xs[1..], out + [xs[0]]);
      assert out + [xs[0]] + xs[1..] == out + xs;
    }
  }

  lemma NothingIn(w: string, out: seq<string>)
    requires AllSpace(w)
    ensures PushAll(out, CutSegments(w, 0, 0)) == out
  {
    assert w[..|w|] == w;
    SpaceStaysPlain(w, |w|);
    SkipUncut(w, 0, 0, |w|);
    TrimOfSpace(w);
    assert w[0..] == w;
  }

  lemma LastPiece(w: string, x: string, out: seq<string>)
    requires AllSpace(w) && Whole(x)
    ensures PushAll(out, CutSegments(w + x, 0, 0)) == out + [x]
  {
    var s := w + x;
    assert s == w + x + "" && s[..|w|] == w;
    SpaceStaysPlain(s, |w|);
    CutsAreLocal(w, x, "");
    forall k | |w| <= k < |s| ensures !IsCut(s, k) {
      assert !IsCut(x, k - |w|);
    }
    SkipUncut(s, 0, 0, |s|);
    TrimAround(w, x, "");
    assert s[0..] == s;
  }

  lemma FirstPiece(w: string, x: string, rest: string, out: seq<string>)
    requires AllSpace(w) && Whole(x) && Sealed(x)
    ensures PushAll(out, CutSegments(w + x + ("\n;" + rest), 0, 0)) == PushAll(out + [x], CutSegments(rest, 0, 0))
  {
    hide ModeAt, Effective, Trim, Sealed;
    var s := w + x + ("\n;" + rest);
    var p := |w| + |x| + 1;
    SealedHead(w, x, rest);
    SkipUncut(s, 0, 0, p);
    assert s[0..p] == w + x + "\n";
    assert AllSpace("\n");
    EffectiveIsNotEmpty(x);
    TrimAround(w, x, "\n");
    PlainAfterCut(s, p);
    assert s == s[..p + 1] + rest;
    ShiftSegments(s[..p + 1], rest, 0, 0);
    assert CutSegments(s, 0, p)[1..] == CutSegments(s, p + 1, p + 1);
  }

  lemma EffectiveIsNotEmpty(x: string)
    requires Effective(x)
    ensures x != ""
  {
  }

  /** Joining the returned statements with newline, semicolon, newline and splitting again returns
      the same list: the newline closes a line comment at a statement's end. */
  lemma RejoinedSplitsBack(s: string)
    ensures Split(Join(Split(s), "\n;\n")) == Split(s)
  {
    var xs := Split(s);
    ReturnedStatements(s);
    RejoinedPieces("", xs, []);
    var j := Join(xs, "\n;\n");
    assert "" + j == j;
    ScannerMatchesAutomaton(j, 0, 0);
  }
}
