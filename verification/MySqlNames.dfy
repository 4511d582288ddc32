/** Which MySQL names the splitter copes with. It knows no backticks, so the condition is what it
    makes of the name itself, and it is exact: names outside it break some statement. */
module MySqlNames {
  import opened Wrappers
  import opened SqlText
  import opened SqlStatements
  import opened SplitterLaws
  import opened SqlBuild
  import opened InertText
  import opened BuilderSplitter

  function Named(name: string): Table {
    Table(None, name, [])
  }

  // ---- A cut anywhere means more than one statement --------------------------------------------------------

  lemma CutMeansSplit(s: string, i: nat)
    requires IsCut(s, i)
    ensures Split(s) != [s]
  {
    hide Split, Trimmed, Effective, IsCut, ModeAt;
    assert i < |s| by { CutInRange(s, i); }
    ReturnedStatements(s);
    assert Split(s) == [s] ==> Whole(Split(s)[0]);
  }

  lemma CutInRange(s: string, i: nat)
    requires IsCut(s, i)
    ensures i < |s|
  {
  }

  /** A tame head is read in plain text to its end, whatever follows it. */
  lemma HeadIsPlain(head: string, tail: string)
    requires Inert(head)
    ensures ModeAt(head + tail, |head|) == Plain && NoCut(head + tail, 0, |head|)
  {
    assert PassesOver("", head, tail);
    assert "" + head + tail == head + tail;
    StartIsPlain(head + tail);
  }

  // ---- The count query of a table ------------------------------------------------------------------------------

  const COUNT_HEAD := "SELECT COUNT(*) AS n FROM "

  lemma CountText(name: string)
    ensures BuildCountQuery(MySql, Named(name), map[]) == (COUNT_HEAD + "`") + Doubled(name, '`') + "`"
  {
    hide Join, Doubled;
    JoinOfNone(" AND ");
    var d := Doubled(name, '`');
    assert BuildCountQuery(MySql, Named(name), map[]) == COUNT_HEAD + ("`" + d + "`") + "";
  }

  lemma CountHeadIsInert()
    ensures Inert(COUNT_HEAD + "`")
  {
    hide Inert;
    BareIsInert(COUNT_HEAD + "`");
  }

  lemma CutsOfCount(name: string)
    ensures var q, d := BuildCountQuery(MySql, Named(name), map[]), Doubled(name, '`');
            NoCut(q, 0, |q|) <==> NoCut(d, 0, |d|)
  {
    hide ModeAt, Doubled, BuildCountQuery, Inert;
    var q, d, head := BuildCountQuery(MySql, Named(name), map[]), Doubled(name, '`'), COUNT_HEAD + "`";
    CountText(name);
    CountHeadIsInert();
    assert q == head + d + "`" == head + (d + "`");
    HeadIsPlain(head, d + "`");
    CutsAreLocal(head, d, "`");
    if NoCut(d, 0, |d|) {
      forall k | |head| <= k < |q| ensures !IsCut(q, k) {
        if k < |head| + |d| {
          assert !IsCut(d, k - |head|);
        } else {
          assert q[k] == '`';
        }
      }
    }
    if NoCut(q, 0, |q|) {
      forall i | 0 <= i < |d| ensures !IsCut(d, i) {
        assert !IsCut(q, |head| + i);
      }
    }
  }

  /** The count query of a MySQL table is one statement exactly when the name, read as the splitter
      reads it, holds no cut. */
  lemma CountIsOneStatementExactly(name: string)
    ensures var q, d := BuildCountQuery(MySql, Named(name), map[]), Doubled(name, '`');
            Split(q) == [q] <==> NoCut(d, 0, |d|)
  {
    hide Split, ModeAt, BuildCountQuery, IsCut, Effective, Inert;
    var q := BuildCountQuery(MySql, Named(name), map[]);
    CutsOfCount(name);
    if NoCut(q, 0, |q|) {
      CountText(name);
      assert q[0] == 'S' && q[|q| - 1] == '`';
      KeywordSurvives(q);
      WholeSplitsToItself(q);
    } else {
      var k :| 0 <= k < |q| && IsCut(q, k);
      CutMeansSplit(q, k);
    }
  }

  /** So a name that ends in a semicolon is cut if the rest of it is harmless. */
  lemma BacktickNamesCanBeCut(name: string)
    requires ClosedName(name)
    ensures var q := BuildCountQuery(MySql, Named(name + ";"), map[]); Split(q) != [q]
  {
    hide Split, BuildCountQuery;
    CountIsOneStatementExactly(name + ";");
    DoubledConcat(name, ";", '`');
    assert Doubled(";", '`') == ";" + Doubled("", '`') == ";";
    hide Doubled, ModeAt;
    var d := Doubled(name, '`');
    assert "" + d + ";" == d + ";" == Doubled(name + ";", '`');
    StartIsPlain(d + ";");
    CutsAreLocal("", d, ";");
    assert IsCut(d + ";", |d|);
    assert !NoCut(d + ";", 0, |d + ";"|);
  }

  lemma {:induction false} DoubledConcat(a: string, b: string, q: char)
    ensures Doubled(a + b, q) == Doubled(a, q) + Doubled(b, q)
    decreases |a|
  {
    if a == "" {
      assert a + b == b;
    } else {
      assert (a + b)[1..] == a[1..] + b;
      DoubledConcat(a[1..], b, q);
    }
  }

  // ---- A statement with a value ---------------------------------------------------------------------------------

  /** Delete by a text key. */
  function DeleteBy(name: string, v: string): string {
    "DELETE FROM " + TableRef(MySql, Named(name)) + " WHERE " + PairText(MySql, Pair("id", false, Some(v)))
  }

  lemma DeleteByIsBuilt(name: string, v: string)
    ensures BuildDelete(MySql, Named(name), [("id", Some(v))]) == Ok(DeleteBy(name, v))
  {
    hide TableRef, PairText;
    var ps := KeyPairs(Named(name), [("id", Some(v))]);
    assert ps == [Pair("id", false, Some(v))];
    assert PairTexts(MySql, ps) == [PairText(MySql, ps[0])];
  }

  const DELETE_HEAD := "DELETE FROM `"

  const MIDDLE := "` WHERE `id` = "

  lemma DeleteText(name: string, v: string)
    ensures DeleteBy(name, v) == DELETE_HEAD + Doubled(name, '`') + (MIDDLE + SqlLiteral(MySql, Some(v)))
  {
    hide SqlLiteral;
    var d, lit := Doubled(name, '`'), SqlLiteral(MySql, Some(v));
    IdIdent();
    assert TableRef(MySql, Named(name)) == "`" + d + "`";
    hide Doubled, TableRef;
    assert PairText(MySql, Pair("id", false, Some(v))) == "`id`" + " = " + lit;
    assert DELETE_HEAD == "DELETE FROM " + "`" && MIDDLE == "`" + " WHERE " + "`id`" + " = ";
    Regroup("DELETE FROM ", "`", d, " WHERE ", "`id`", " = ", lit);
  }

  lemma IdIdent()
    ensures QuoteIdent(MySql, "id") == "`id`"
  {
    assert Doubled("id", '`') == ['i'] + Doubled("id"[1..], '`');
    assert "id"[1..] == "d" && "d"[1..] == "";
    assert Doubled("d", '`') == "d";
  }

  lemma Regroup(a: string, t: string, d: string, w: string, i: string, e: string, l: string)
    ensures a + (t + d + t) + w + (i + e + l) == a + t + d + (t + w + i + e + l)
  {
  }

  // ---- What a name leaves open, a value can close ---------------------------------------------------------------

  /** Characters that neither close anything nor begin to. */
  predicate Idle(c: char) {
    c != '\'' && c != '"' && c != '\n' && c != '*' && c != '$'
  }

  predicate LeftOpen(m: Mode) {
    m.Quoted? || m.LineComment? || m.Block? || m.Dollar?
  }

  lemma {:induction false} StaysOpen(s: string, p: nat, j: nat)
    requires p <= j <= |s| && LeftOpen(ModeAt(s, p))
    requires TagStarts(ModeAt(s, p))
    requires forall k :: p <= k < j ==> Idle(s[k]) || (s[k] == '\'' && ModeAt(s, p) != Quoted('\''))
    ensures ModeAt(s, j) == ModeAt(s, p)
    decreases j
  {
    if p < j {
      StaysOpen(s, p, j - 1);
      ModesAreSane(s, p);
      ModesAreSane(s, j - 1);
      OpenCharStays(s, j - 1, ModeAt(s, p));
    }
  }

  /** A tag begins with a dollar sign. */
  predicate TagStarts(m: Mode) {
    m.Dollar? || m.Opening? ==> |m.tag| >= 2 && m.tag[0] == '$'
  }

  lemma OpenCharStays(s: string, i: nat, m: Mode)
    requires i < |s| && LeftOpen(m) && TagStarts(m)
    requires Idle(s[i]) || (s[i] == '\'' && m != Quoted('\''))
    requires m.Quoted? ==> m.quote == '\'' || m.quote == '"'
    ensures Next(s, i, m) == m
  {
    hide DollarTag, WordEnd;
    if m.Dollar? {
      assert i + |m.tag| <= |s| ==> s[i..i + |m.tag|][0] == s[i];
    }
  }

  lemma {:induction false} TagsStart(s: string, i: nat)
    requires i <= |s|
    ensures TagStarts(ModeAt(s, i))
  {
    if i > 0 {
      TagsStart(s, i - 1);
      OpeningStarts(s, i - 1);
    }
  }

  lemma OpeningStarts(s: string, i: nat)
    requires i < |s|
    ensures DollarTag(s, i).Some? ==> DollarTag(s, i).value[0] == '$'
  {
    hide WordEnd;
  }

  /** What closes a mode, written so that a text literal holds it unchanged. */
  function Closer(m: Mode): string {
    match m
    case Quoted(_) => "\""
    case LineComment => "\n"
    case Block => "*/"
    case Dollar(tag) => tag
    case _ => ""
  }

  lemma CloserCloses(s: string, i: nat, m: Mode)
    requires LeftOpen(m) && m != Quoted('\'') && TagStarts(m) && (m.Quoted? ==> m.quote == '"')
    requires i <= |s| && ModeAt(s, i) == m && OccursAt(s, Closer(m), i)
    ensures i + |Closer(m)| <= |s| && ModeAt(s, i + |Closer(m)|) == Plain
  {
    var c := Closer(m);
    assert s[i..i + |c|][0] == s[i];
    match m
    case Quoted(_) => assert s[i] == '"';
    case LineComment => assert s[i] == '\n';
    case Block =>
      assert s[i..i + 2][1] == s[i + 1];
      assert ModeAt(s, i + 1) == BlockClosing;
    case Dollar(tag) =>
      assert ModeAt(s, i + 1) == Closing(|tag| - 1);
      ClosingTokens(s, i + 1, |tag| - 1);
  }

  /** A value that closes what the name left open and then ends the statement. */
  function Poison(m: Mode): string {
    (if m == Quoted('\'') then "" else Closer(m)) + ";"
  }

  predicate NoQuotes(v: string) {
    forall i :: 0 <= i < |v| ==> v[i] != '\'' && v[i] != '\\'
  }

  lemma {:induction false} NothingDoubled(v: string, q: char)
    requires forall i :: 0 <= i < |v| ==> v[i] != q
    ensures Doubled(v, q) == v
    decreases |v|
  {
    if v != "" {
      assert forall i :: 0 <= i < |v[1..]| ==> v[1..][i] == v[i + 1];
      NothingDoubled(v[1..], q);
      assert v == [v[0]] + v[1..];
    }
  }

  lemma PlainLiteral(v: string)
    requires NoQuotes(v)
    ensures SqlLiteral(MySql, Some(v)) == "'" + v + "'"
  {
    NothingDoubled(v, '\\');
    NothingDoubled(v, '\'');
  }

  lemma PoisonIsPlain(s: string, i: nat)
    requires i <= |s| && LeftOpen(ModeAt(s, i))
    ensures NoQuotes(Poison(ModeAt(s, i)))
  {
    hide ModeAt;
    ModesAreSane(s, i);
    var m := ModeAt(s, i);
    if m.Dollar? {
      assert forall k :: 0 <= k < |m.tag| ==> m.tag[k] == '$' || WordChar(m.tag[k]);
    }
  }

  /** At the end of a text nothing is half recognized. */
  lemma EndModes(s: string)
    ensures ModeAt(s, |s|) == Plain || LeftOpen(ModeAt(s, |s|))
  {
    ModesAreSane(s, |s|);
  }

  lemma MiddleIsIdle()
    ensures forall i :: 0 <= i < |MIDDLE| ==> Idle(MIDDLE[i])
  {
  }

  /** Inside the literal the poison ends the statement. */
  lemma PoisonCuts(before: string, v: string, after: string, m: Mode)
    requires LeftOpen(m) && TagStarts(m) && (m.Quoted? ==> m.quote == '\'' || m.quote == '"')
    requires v == Poison(m) && ModeAt(before + "'" + v + after, |before|) == m
    ensures var i := |before| + |v|; IsCut(before + "'" + v + after, i)
  {
    hide ModeAt;
    var s := before + "'" + v + after;
    var p := |before|;
    assert s[p] == '\'';
    assert s[p + 1..p + 1 + |v|] == v;
    assert v[|v| - 1] == ';' && s[p + |v|] == v[|v| - 1];
    if m == Quoted('\'') {
      NextMode(s, p);
      assert |v| == 1;
    } else {
      var c := Closer(m);
      OpenCharStays(s, p, m);
      NextMode(s, p);
      assert v == c + ";";
      assert s[p + 1..p + 1 + |c|] == v[..|c|] == c;
      CloserCloses(s, p + 1, m);
    }
  }

  lemma NextMode(s: string, i: nat)
    requires i < |s|
    ensures ModeAt(s, i + 1) == Next(s, i, ModeAt(s, i))
  {
  }

  lemma UnclosedNameBreaks(name: string)
    requires var d := Doubled(name, '`'); NoCut(d, 0, |d|) && ModeAt(d, |d|) != Plain
    ensures var q := DeleteBy(name, Poison(ModeAt(Doubled(name, '`'), |Doubled(name, '`')|))); Split(q) != [q]
  {
    hide ModeAt, Doubled, DeleteBy, Split, Inert, SqlLiteral;
    var d := Doubled(name, '`');
    var m := ModeAt(d, |d|);
    var v := Poison(m);
    EndModes(d);
    TagsStart(d, |d|);
    ModesAreSane(d, |d|);
    PoisonIsPlain(d, |d|);
    PlainLiteral(v);
    DeleteText(name, v);
    var rest := MIDDLE + SqlLiteral(MySql, Some(v));
    var q := DELETE_HEAD + d + rest;
    DeleteHeadIsInert();
    HeadIsPlain(DELETE_HEAD, d + rest);
    assert q == DELETE_HEAD + (d + rest);
    assert rest[0] == '`';
    CutsAreLocal(DELETE_HEAD, d, rest);
    var before := DELETE_HEAD + d + MIDDLE;
    assert q == before + "'" + v + "'";
    MiddleIsIdle();
    forall k | |DELETE_HEAD| + |d| <= k < |before| ensures Idle(q[k]) {
      assert q[k] == MIDDLE[k - |DELETE_HEAD| - |d|];
    }
    StaysOpen(q, |DELETE_HEAD| + |d|, |before|);
    PoisonCuts(before, v, "'", m);
    CutMeansSplit(q, |before| + |v|);
  }

  lemma DeleteHeadIsInert()
    ensures Inert(DELETE_HEAD)
  {
    hide Inert;
    BareIsInert(DELETE_HEAD);
  }

  lemma CutNameBreaks(name: string, v: string)
    requires var d := Doubled(name, '`'); !NoCut(d, 0, |d|)
    ensures var q := DeleteBy(name, v); Split(q) != [q]
  {
    hide ModeAt, Doubled, DeleteBy, Split, Inert, SqlLiteral;
    var d := Doubled(name, '`');
    var i :| 0 <= i < |d| && IsCut(d, i);
    DeleteText(name, v);
    var rest := MIDDLE + SqlLiteral(MySql, Some(v));
    var q := DELETE_HEAD + d + rest;
    DeleteHeadIsInert();
    HeadIsPlain(DELETE_HEAD, d + rest);
    assert q == DELETE_HEAD + (d + rest);
    assert rest[0] == '`';
    CutsAreLocal(DELETE_HEAD, d, rest);
    CutMeansSplit(q, |DELETE_HEAD| + i);
  }

  /** The table's deletes are one statement each, whatever the value. */
  ghost predicate DeletesAreOneStatement(name: string) {
    forall v: string :: Split(DeleteBy(name, v)) == [DeleteBy(name, v)]
  }

  lemma ClosedNameDeletes(name: string, v: string)
    requires ClosedName(name)
    ensures Split(DeleteBy(name, v)) == [DeleteBy(name, v)]
  {
    hide ClosedName, Split, DeleteBy;
    DeleteByIsBuilt(name, v);
    IdIsClosed();
    DeleteIsOneStatement(MySql, Named(name), [("id", Some(v))]);
  }

  lemma IdIsClosed()
    ensures ClosedName("id")
  {
    hide ClosedName;
    assert PlainName("id");
    PlainNameIsClosed("id");
  }

  /** A MySQL table name is safe for every value exactly when it is closed: with a closed name every
      built statement is one statement, and for any other name some delete by a text key is cut. */
  lemma SafeNamesExactly(name: string)
    ensures DeletesAreOneStatement(name) <==> ClosedName(name)
  {
    hide DeleteBy, Split, ModeAt, Doubled;
    if ClosedName(name) {
      forall v: string ensures Split(DeleteBy(name, v)) == [DeleteBy(name, v)] {
        ClosedNameDeletes(name, v);
      }
    } else {
      var d := Doubled(name, '`');
      if NoCut(d, 0, |d|) {
        UnclosedNameBreaks(name);
        assert Split(DeleteBy(name, Poison(ModeAt(d, |d|)))) != [DeleteBy(name, Poison(ModeAt(d, |d|)))];
      } else {
        CutNameBreaks(name, "");
        assert Split(DeleteBy(name, "")) != [DeleteBy(name, "")];
      }
    }
  }
}
