/** A reader for the statements the builders print, written from the SQL lexical rules (ISO/IEC
    9075-2, sections 5.2 and 5.3, and MySQL's backslash escapes), and proofs that every row edit
    reads back to the table, names and values it was built from. */
module SqlReadBack {
  import opened Wrappers
  import opened SqlText
  import opened SqlBuild

  datatype Read<+T> = Read(value: T, rest: string)

  /** A value as the database sees it. */
  datatype Token = Null | Number(text: string) | Text(value: string)

  datatype Ref = Ref(schema: Option<string>, name: string)

  datatype Statement =
    | Insert(into: Ref, names: seq<string>, values: seq<Token>)
    | Update(table: Ref, edits: seq<(string, Token)>, key: seq<(string, Token)>)
    | Delete(from: Ref, key: seq<(string, Token)>)

  predicate Starts(s: string, t: string) {
    |t| <= |s| && s[..|t|] == t
  }

  /** What a backslash and the next character stand for. */
  function Escaped(c: char): string {
    if c == '0' then "\0" else if c == 'b' then [8 as char] else if c == 'n' then "\n" else if c == 'r' then "\r"
    else if c == 't' then "\t" else if c == 'Z' then [26 as char]
    else if c == '%' || c == '_' then ['\\', c]
    else [c]
  }

  function Before(text: string, r: Option<Read<string>>): Option<Read<string>> {
    match r
    case Some(Read(v, rest)) => Some(Read(text + v, rest))
    case None => None
  }

  /** From behind the opening quote to behind the closing one. */
  function ReadQuoted(s: string, q: char, backslash: bool): (r: Option<Read<string>>)
    ensures r.Some? ==> |r.value.rest| < |s|
    decreases |s|
  {
    if s == "" then None
    else if backslash && s[0] == '\\' then
      if |s| < 2 then None else Before(Escaped(s[1]), ReadQuoted(s[2..], q, backslash))
    else if s[0] != q then Before([s[0]], ReadQuoted(s[1..], q, backslash))
    else if |s| > 1 && s[1] == q then Before([q], ReadQuoted(s[2..], q, backslash))
    else Some(Read("", s[1..]))
  }

  /** What delimits an identifier: a backtick in MySQL, a double quote elsewhere. */
  function Delimiter(engine: Engine): char {
    match engine
    case MySql => '`'
    case Postgres => '"'
    case Sqlite => '"'
    case MongoDb => '"'
  }

  function ReadIdent(engine: Engine, s: string): Option<Read<string>> {
    if s != "" && s[0] == Delimiter(engine) then ReadQuoted(s[1..], Delimiter(engine), false) else None
  }

  function ReadRef(engine: Engine, s: string): Option<Read<Ref>> {
    match ReadIdent(engine, s)
    case None => None
    case Some(Read(a, rest)) =>
      if !Starts(rest, ".") then Some(Read(Ref(None, a), rest))
      else (match ReadIdent(engine, rest[1..])
            case Some(Read(b, end)) => Some(Read(Ref(Some(a), b), end))
            case None => None)
  }

  predicate NumberChar(c: char) {
    Digit(c) || c == '-' || c == '+' || c == '.' || c == 'e' || c == 'E'
  }

  function NumberEnd(s: string): (n: nat)
    ensures n <= |s|
  {
    if s != "" && NumberChar(s[0]) then 1 + NumberEnd(s[1..]) else 0
  }

  function ReadValue(engine: Engine, s: string): Option<Read<Token>> {
    if Starts(s, "'") then
      (match ReadQuoted(s[1..], '\'', engine == MySql)
       case Some(Read(v, rest)) => Some(Read(Text(v), rest))
       case None => None)
    else if Starts(s, "NULL") then Some(Read(Null, s[4..]))
    else if NumberEnd(s) > 0 then Some(Read(Number(s[..NumberEnd(s)]), s[NumberEnd(s)..]))
    else None
  }

  function ReadPair(engine: Engine, s: string): Option<Read<(string, Token)>> {
    match ReadIdent(engine, s)
    case None => None
    case Some(Read(name, rest)) =>
      if !Starts(rest, " = ") then None
      else (match ReadValue(engine, rest[3..])
            case Some(Read(v, end)) => Some(Read((name, v), end))
            case None => None)
  }

  /** One or more items with a separator between them; an item must take at least one character. */
  function ReadList<T>(item: string -> Option<Read<T>>, sep: string, s: string): Option<Read<seq<T>>>
    decreases |s|
  {
    match item(s)
    case None => None
    case Some(Read(x, rest)) =>
      if !Starts(rest, sep) || |rest[|sep|..]| >= |s| then Some(Read([x], rest))
      else (match ReadList(item, sep, rest[|sep|..])
            case Some(Read(xs, end)) => Some(Read([x] + xs, end))
            case None => None)
  }

  /** Take a keyword, then go on reading. */
  function Skip(s: string, word: string): Option<string> {
    if Starts(s, word) then Some(s[|word|..]) else None
  }

  function ReadEnd(statement: Statement, rest: string): Option<Statement> {
    if rest == "" then Some(statement) else None
  }

  function ReadInsert(engine: Engine, s: string): Option<Statement> {
    match Skip(s, "INSERT INTO ") case None => None case Some(s1) => (
    match ReadRef(engine, s1) case None => None case Some(Read(ref, s2)) => (
    match Skip(s2, " (") case None => None case Some(s3) => (
    match ReadList(x => ReadIdent(engine, x), ", ", s3) case None => None case Some(Read(names, s4)) => (
    match Skip(s4, ") VALUES (") case None => None case Some(s5) => (
    match ReadList(x => ReadValue(engine, x), ", ", s5) case None => None case Some(Read(values, s6)) => (
    match Skip(s6, ")") case None => None case Some(s7) => ReadEnd(Insert(ref, names, values), s7)))))))
  }

  function ReadUpdate(engine: Engine, s: string): Option<Statement> {
    match Skip(s, "UPDATE ") case None => None case Some(s1) => (
    match ReadRef(engine, s1) case None => None case Some(Read(ref, s2)) => (
    match Skip(s2, " SET ") case None => None case Some(s3) => (
    match ReadList(x => ReadPair(engine, x), ", ", s3) case None => None case Some(Read(edits, s4)) => (
    match Skip(s4, " WHERE ") case None => None case Some(s5) => (
    match ReadList(x => ReadPair(engine, x), " AND ", s5) case None => None
    case Some(Read(key, s6)) => ReadEnd(Update(ref, edits, key), s6))))))
  }

  function ReadDelete(engine: Engine, s: string): Option<Statement> {
    match Skip(s, "DELETE FROM ") case None => None case Some(s1) => (
    match ReadRef(engine, s1) case None => None case Some(Read(ref, s2)) => (
    match Skip(s2, " WHERE ") case None => None case Some(s3) => (
    match ReadList(x => ReadPair(engine, x), " AND ", s3) case None => None
    case Some(Read(key, s4)) => ReadEnd(Delete(ref, key), s4))))
  }

  // ---- Quoted texts ------------------------------------------------------------------------------------------

  predicate Ends(rest: string, q: char) {
    rest == "" || rest[0] != q
  }

  /** Doubling and reading are inverse, whatever follows the closing quote. */
  lemma {:induction false} DoubledReadsBack(v: string, q: char, rest: string)
    requires Ends(rest, q)
    ensures ReadQuoted(Doubled(v, q) + [q] + rest, q, false) == Some(Read(v, rest))
    decreases |v|
  {
    if v == "" {
      assert Doubled(v, q) + [q] + rest == [q] + rest;
      assert ([q] + rest)[1..] == rest;
    } else {
      var tail := Doubled(v[1..], q) + [q] + rest;
      DoubledReadsBack(v[1..], q, rest);
      DoubledStep(v, q, rest);
      hide Doubled;
      ReadOne(v[0], q, tail);
      assert [v[0]] + v[1..] == v;
    }
  }

  function Twice(c: char, q: char): string {
    if c == q then [q, q] else [c]
  }

  lemma DoubledStep(v: string, q: char, rest: string)
    requires v != ""
    ensures Doubled(v, q) + [q] + rest == Twice(v[0], q) + (Doubled(v[1..], q) + [q] + rest)
  {
  }

  lemma ReadOne(c: char, q: char, tail: string)
    ensures ReadQuoted(Twice(c, q) + tail, q, false) == Before([c], ReadQuoted(tail, q, false))
  {
    var s := Twice(c, q) + tail;
    assert if c == q then s[2..] == tail else s[1..] == tail;
  }

  function MySqlText(v: string): string {
    Doubled(Doubled(v, '\\'), '\'')
  }

  function MySqlChar(c: char): string {
    if c == '\\' || c == '\'' then [c, c] else [c]
  }

  lemma MySqlTextStep(v: string)
    requires v != ""
    ensures MySqlText(v) == MySqlChar(v[0]) + MySqlText(v[1..])
  {
    var d := Doubled(v[1..], '\\');
    if v[0] == '\\' {
      assert Doubled(v, '\\') == ['\\', '\\'] + d;
      assert (['\\', '\\'] + d)[1..] == ['\\'] + d && (['\\'] + d)[1..] == d;
      assert Doubled(['\\'] + d, '\'') == ['\\'] + Doubled(d, '\'');
      assert Doubled(['\\', '\\'] + d, '\'') == ['\\'] + (['\\'] + Doubled(d, '\''));
      assert ['\\'] + (['\\'] + Doubled(d, '\'')) == ['\\', '\\'] + Doubled(d, '\'');
    } else {
      assert Doubled(v, '\\') == [v[0]] + d;
      assert ([v[0]] + d)[1..] == d;
    }
  }

  lemma NoTextReadsBack(rest: string)
    requires Ends(rest, '\'')
    ensures ReadQuoted(MySqlText("") + "'" + rest, '\'', true) == Some(Read("", rest))
  {
    assert MySqlText("") == "";
    assert MySqlText("") + "'" + rest == "'" + rest;
    assert ("'" + rest)[1..] == rest;
  }

  lemma {:induction false} MySqlTextReadsBack(v: string, rest: string)
    requires Ends(rest, '\'')
    ensures ReadQuoted(MySqlText(v) + "'" + rest, '\'', true) == Some(Read(v, rest))
    decreases |v|
  {
    hide MySqlText, MySqlChar, ReadQuoted;
    if v == "" {
      NoTextReadsBack(rest);
    } else {
      var tail := MySqlText(v[1..]) + "'" + rest;
      MySqlTextReadsBack(v[1..], rest);
      MySqlTextStep(v);
      assert MySqlText(v) + "'" + rest == MySqlChar(v[0]) + tail;
      ReadMySqlOne(v[0], tail);
      assert [v[0]] + v[1..] == v;
    }
  }

  lemma ReadMySqlOne(c: char, tail: string)
    ensures ReadQuoted(MySqlChar(c) + tail, '\'', true) == Before([c], ReadQuoted(tail, '\'', true))
  {
    var s := MySqlChar(c) + tail;
    assert Escaped('\\') == "\\";
    assert if |MySqlChar(c)| == 2 then s[2..] == tail else s[1..] == tail;
  }

  lemma IdentReadsBack(engine: Engine, name: string, rest: string)
    requires Ends(rest, IdentQuote(engine))
    ensures ReadIdent(engine, QuoteIdent(engine, name) + rest) == Some(Read(name, rest))
  {
    hide ReadQuoted;
    var q := IdentQuote(engine);
    var s := QuoteIdent(engine, name) + rest;
    DoubledReadsBack(name, q, rest);
    assert s == [q] + (Doubled(name, q) + [q] + rest);
    assert s[1..] == Doubled(name, q) + [q] + rest;
  }

  /** Behind a name or a value comes nothing, a space, a comma or a parenthesis. */
  predicate Follows(rest: string) {
    rest == "" || rest[0] == ' ' || rest[0] == ',' || rest[0] == ')'
  }

  /** The table meant: in Postgres the one in its schema, when it has a schema that is not empty. */
  function RefOf(engine: Engine, t: Table): Ref {
    match (engine, t.schema)
    case (Postgres, Some(schema)) => if schema == "" then Ref(None, t.name) else Ref(Some(schema), t.name)
    case _ => Ref(None, t.name)
  }

  /** A reference reads back to the table and, in Postgres, to its schema unless that is empty. */
  lemma RefReadsBack(engine: Engine, t: Table, rest: string)
    requires Follows(rest)
    ensures ReadRef(engine, TableRef(engine, t) + rest) == Some(Read(RefOf(engine, t), rest))
    ensures RefOf(engine, t) == Ref(if engine == Postgres && t.schema.Some? && t.schema.value != "" then t.schema else None, t.name)
  {
    hide ReadIdent, QuoteIdent;
    var s := TableRef(engine, t) + rest;
    match Qualifier(engine, t)
    case None =>
      IdentReadsBack(engine, t.name, rest);
    case Some(schema) =>
      var tail := "." + (QuoteIdent(engine, t.name) + rest);
      assert s == QuoteIdent(engine, schema) + tail;
      IdentReadsBack(engine, schema, tail);
      assert tail[1..] == QuoteIdent(engine, t.name) + rest;
      IdentReadsBack(engine, t.name, rest);
  }

  // ---- Values -----------------------------------------------------------------------------------------------

  predicate Digits(s: string) {
    s != "" && forall i :: 0 <= i < |s| ==> '0' <= s[i] <= '9'
  }

  predicate Fraction(s: string) {
    s == "" || (s[0] == '.' && Digits(s[1..]))
  }

  predicate Exponent(s: string) {
    || s == ""
    || ((s[0] == 'e' || s[0] == 'E')
        && (Digits(s[1..]) || (|s| > 1 && (s[1] == '+' || s[1] == '-') && Digits(s[2..]))))
  }

  predicate NumberParts(s: string, i: nat, j: nat, k: nat) {
    && i <= j <= k <= |s| && (i == 0 || (i == 1 && s[0] == '-'))
    && Digits(s[i..j]) && Fraction(s[j..k]) && Exponent(s[k..])
  }

  /** A number is an optional minus, digits, an optional fraction and an optional exponent. */
  ghost predicate NumberText(s: string) {
    exists i: nat, j: nat, k: nat :: NumberParts(s, i, j, k)
  }

  lemma {:induction false} DigitsStop(s: string, i: nat, j: nat)
    requires i <= j <= |s| && (forall k :: i <= k < j ==> '0' <= s[k] <= '9') && (j < |s| ==> !('0' <= s[j] <= '9'))
    ensures DigitsEnd(s, i) == j
    decreases j - i
  {
    if i < j {
      DigitsStop(s, i + 1, j);
    }
  }

  lemma {:induction false} DigitsEndStops(s: string, i: nat)
    requires i <= |s|
    ensures DigitsEnd(s, i) < |s| ==> !Digit(s[DigitsEnd(s, i)])
    decreases |s| - i
  {
    if i < |s| && Digit(s[i]) {
      DigitsEndStops(s, i + 1);
    }
  }

  lemma FractionDigits(s: string, j: nat) returns (k: nat)
    requires j <= |s| && HasFractionAndExponent(s, j)
    ensures j <= k <= |s| && Fraction(s[j..k]) && Exponent(s[k..])
  {
    k := if j < |s| && s[j] == '.' && DigitsEnd(s, j + 1) > j + 1 then DigitsEnd(s, j + 1) else j;
    if k < |s| {
      ExponentDigits(s, k);
    }
    if k > j {
      assert s[j..k][1..] == s[j + 1..k];
      assert Digits(s[j + 1..k]);
    }
  }

  lemma NumbersAreNumberTexts(s: string)
    requires IsNumber(s)
    ensures NumberText(s)
  {
    var i := if s != "" && s[0] == '-' then 1 else 0;
    var j := DigitsEnd(s, i);
    var k := FractionDigits(s, j);
    hide HasFractionAndExponent, Fraction, Exponent;
    assert NumberParts(s, i, j, k);
  }

  lemma ExponentDigits(s: string, k: nat)
    requires k < |s| && HasExponent(s, k)
    ensures Exponent(s[k..])
  {
    var m := if k + 1 < |s| && (s[k + 1] == '+' || s[k + 1] == '-') then k + 2 else k + 1;
    assert Digits(s[m..]);
    assert s[k..][m - k..] == s[m..];
  }

  lemma ExponentHas(s: string, k: nat)
    requires k < |s| && Exponent(s[k..])
    ensures HasExponent(s, k)
  {
    var e := s[k..];
    assert e[1..] == s[k + 1..];
    var m := if Digits(e[1..]) then k + 1 else k + 2;
    if m == k + 2 {
      assert e[2..] == s[m..];
    }
    assert Digits(s[m..]);
    DigitsStop(s, m, |s|);
    assert k + 1 < |s| ==> e[1] == s[k + 1];
    assert m == k + 1 ==> s[k + 1] == s[m..][0];
  }

  lemma DigitsBetween(s: string, i: nat, j: nat)
    requires i <= j <= |s| && Digits(s[i..j])
    ensures i < j && forall n :: i <= n < j ==> '0' <= s[n] <= '9'
  {
    forall n | i <= n < j ensures '0' <= s[n] <= '9' {
      assert s[n] == s[i..j][n - i];
    }
  }

  lemma FractionEnds(s: string, j: nat, k: nat)
    requires j <= k <= |s| && Fraction(s[j..k]) && Exponent(s[k..])
    ensures HasFractionAndExponent(s, j)
  {
    hide HasExponent, Exponent;
    AfterDigits(s, k);
    if j < k {
      assert s[j] == s[j..k][0] && s[j..k][1..] == s[j + 1..k];
      DigitsBetween(s, j + 1, k);
      DigitsStop(s, j + 1, k);
    }
    if k < |s| {
      ExponentHas(s, k);
    }
  }

  lemma AfterDigits(s: string, k: nat)
    requires k <= |s| && Exponent(s[k..])
    ensures k < |s| ==> s[k] == 'e' || s[k] == 'E'
  {
    assert k < |s| ==> s[k..][0] == s[k];
  }

  lemma NumberTextsAreNumbers(s: string, i: nat, j: nat, k: nat)
    requires NumberParts(s, i, j, k)
    ensures IsNumber(s)
  {
    FractionEnds(s, j, k);
    AfterDigits(s, k);
    DigitsBetween(s, i, j);
    hide HasFractionAndExponent, Exponent;
    assert j < k ==> s[j] == s[j..k][0];
    DigitsStop(s, i, j);
  }

  /** The texts that a numeric column prints bare are exactly the numbers. */
  lemma NumbersExactly(s: string)
    ensures IsNumber(s) <==> NumberText(s)
  {
    hide IsNumber;
    if IsNumber(s) {
      NumbersAreNumberTexts(s);
    }
    if NumberText(s) {
      var i: nat, j: nat, k: nat :| NumberParts(s, i, j, k);
      NumberTextsAreNumbers(s, i, j, k);
    }
  }

  /** What a cell means to the database: a cleared numeric cell is NULL, a number is that number,
      anything else is its text. */
  function Meaning(numeric: bool, cell: Cell): Token {
    match cell
    case None => Null
    case Some(v) =>
      if numeric && Trim(v) == "" then Null
      else if numeric && IsNumber(Trim(v)) then Number(Trim(v))
      else Text(v)
  }

  lemma LiteralReadsBack(engine: Engine, v: string, rest: string)
    requires Follows(rest)
    ensures ReadValue(engine, SqlLiteral(engine, Some(v)) + rest) == Some(Read(Text(v), rest))
  {
    hide ReadQuoted, Doubled;
    var w := if engine == MySql then Doubled(v, '\\') else v;
    var s := SqlLiteral(engine, Some(v)) + rest;
    assert s == "'" + (Doubled(w, '\'') + "'" + rest);
    assert s[1..] == Doubled(w, '\'') + "'" + rest && s[..1] == "'";
    if engine == MySql {
      MySqlTextReadsBack(v, rest);
    } else {
      DoubledReadsBack(v, '\'', rest);
    }
  }

  lemma NullReadsBack(engine: Engine, rest: string)
    ensures ReadValue(engine, "NULL" + rest) == Some(Read(Null, rest))
  {
    hide ReadQuoted;
    var s := "NULL" + rest;
    assert s[..1] == "N";
    assert s[..4] == "NULL" && s[4..] == rest;
  }

  lemma {:induction false} NumberEndAt(t: string, rest: string)
    requires Follows(rest) && forall i :: 0 <= i < |t| ==> NumberChar(t[i])
    ensures NumberEnd(t + rest) == |t|
    decreases |t|
  {
    if t == "" {
      assert t + rest == rest;
    } else {
      assert (t + rest)[1..] == t[1..] + rest;
      NumberEndAt(t[1..], rest);
    }
  }

  lemma NumbersAreNumberChars(t: string)
    requires IsNumber(t)
    ensures t != "" && forall i :: 0 <= i < |t| ==> NumberChar(t[i])
  {
    var i := if t != "" && t[0] == '-' then 1 else 0;
    var j := DigitsEnd(t, i);
    var k := if j < |t| && t[j] == '.' && DigitsEnd(t, j + 1) > j + 1 then DigitsEnd(t, j + 1) else j;
    if k < |t| {
      ExponentChars(t, k);
    }
  }

  lemma ExponentChars(t: string, k: nat)
    requires k < |t| && HasExponent(t, k)
    ensures forall i :: k <= i < |t| ==> NumberChar(t[i])
  {
  }

  lemma NumberReadsBack(engine: Engine, t: string, rest: string)
    requires IsNumber(t) && Follows(rest)
    ensures ReadValue(engine, t + rest) == Some(Read(Number(t), rest))
  {
    hide ReadQuoted, NumberEnd, IsNumber;
    var s := t + rest;
    NumbersAreNumberChars(t);
    NumberEndAt(t, rest);
    assert s[0] == t[0] && NumberChar(s[0]);
    assert |s| >= 4 ==> s[..4][0] == s[0];
    assert s[..1][0] == s[0];
    assert s[..|t|] == t && s[|t|..] == rest;
  }

  lemma ValueReadsBack(engine: Engine, numeric: bool, cell: Cell, rest: string)
    requires Follows(rest)
    ensures ReadValue(engine, SqlValue(engine, numeric, cell) + rest) == Some(Read(Meaning(numeric, cell), rest))
  {
    hide ReadValue, SqlLiteral, IsNumber, Trim;
    match cell
    case None => NullReadsBack(engine, rest);
    case Some(v) =>
      if numeric && Trim(v) == "" {
        NullReadsBack(engine, rest);
      } else if numeric && IsNumber(Trim(v)) {
        NumberReadsBack(engine, Trim(v), rest);
      } else {
        LiteralReadsBack(engine, v, rest);
      }
  }

  lemma PairReadsBack(engine: Engine, p: Pair, rest: string)
    requires Follows(rest)
    ensures ReadPair(engine, PairText(engine, p) + rest) == Some(Read((p.name, Meaning(p.numeric, p.cell)), rest))
  {
    hide ReadIdent, ReadValue, QuoteIdent, SqlValue, Meaning;
    var tail := SqlValue(engine, p.numeric, p.cell) + rest;
    var mid := " = " + tail;
    assert PairText(engine, p) + rest == QuoteIdent(engine, p.name) + mid;
    IdentReadsBack(engine, p.name, mid);
    assert mid[..3] == " = " && mid[3..] == tail;
    ValueReadsBack(engine, p.numeric, p.cell, rest);
  }

  // ---- Lists -----------------------------------------------------------------------------------------------------

  /** The text is read as x whatever acceptable text follows it. */
  ghost predicate Prints<T(!new)>(item: string -> Option<Read<T>>, follows: string -> bool, text: string, x: T) {
    text != "" && forall rest :: follows(rest) ==> item(text + rest) == Some(Read(x, rest))
  }

  lemma {:induction false} ListReadsBack<T(!new)>(item: string -> Option<Read<T>>, follows: string -> bool, sep: string,
                                                  texts: seq<string>, xs: seq<T>, rest: string)
    requires |texts| == |xs| > 0 && forall i :: 0 <= i < |xs| ==> Prints(item, follows, texts[i], xs[i])
    requires sep != "" && (forall x :: follows(sep + x)) && follows(rest) && !Starts(rest, sep)
    ensures ReadList(item, sep, Join(texts, sep) + rest) == Some(Read(xs, rest))
    decreases |xs|
  {
    assert Prints(item, follows, texts[0], xs[0]);
    if |xs| == 1 {
      assert xs == [xs[0]];
      assert item(texts[0] + rest) == Some(Read(xs[0], rest));
    } else {
      var tail := Join(texts[1..], sep) + rest;
      assert Join(texts, sep) + rest == texts[0] + (sep + tail);
      assert item(texts[0] + (sep + tail)) == Some(Read(xs[0], sep + tail));
      assert (sep + tail)[..|sep|] == sep && (sep + tail)[|sep|..] == tail;
      forall i | 0 <= i < |xs| - 1 ensures Prints(item, follows, texts[1..][i], xs[1..][i]) {
        assert Prints(item, follows, texts[i + 1], xs[i + 1]);
      }
      ListReadsBack(item, follows, sep, texts[1..], xs[1..], rest);
      assert [xs[0]] + xs[1..] == xs;
    }
  }

  function NamesOf(ps: seq<Pair>): seq<string> {
    seq(|ps|, i requires 0 <= i < |ps| => ps[i].name)
  }

  function ValuesOf(ps: seq<Pair>): seq<Token> {
    seq(|ps|, i requires 0 <= i < |ps| => Meaning(ps[i].numeric, ps[i].cell))
  }

  function PairsOf(ps: seq<Pair>): seq<(string, Token)> {
    seq(|ps|, i requires 0 <= i < |ps| => (ps[i].name, Meaning(ps[i].numeric, ps[i].cell)))
  }

  lemma NamesReadBack(engine: Engine, ps: seq<Pair>, rest: string)
    requires ps != [] && Follows(rest) && !Starts(rest, ", ")
    ensures ReadList(x => ReadIdent(engine, x), ", ", Join(Names(engine, ps), ", ") + rest)
            == Some(Read(NamesOf(ps), rest))
  {
    hide ReadIdent, QuoteIdent, ReadList, Join;
    var item := x => ReadIdent(engine, x);
    forall i | 0 <= i < |ps| ensures Prints(item, Follows, Names(engine, ps)[i], NamesOf(ps)[i]) {
      IdentNotEmpty(engine, ps[i].name);
      forall end | Follows(end) ensures item(QuoteIdent(engine, ps[i].name) + end) == Some(Read(ps[i].name, end)) {
        IdentReadsBack(engine, ps[i].name, end);
      }
    }
    ListReadsBack(item, Follows, ", ", Names(engine, ps), NamesOf(ps), rest);
  }

  lemma IdentNotEmpty(engine: Engine, name: string)
    ensures QuoteIdent(engine, name) != ""
  {
  }

  lemma ValueNotEmpty(engine: Engine, numeric: bool, cell: Cell)
    ensures SqlValue(engine, numeric, cell) != ""
  {
    hide IsNumber, Trim;
  }

  lemma ValuesReadBack(engine: Engine, ps: seq<Pair>, rest: string)
    requires ps != [] && Follows(rest) && !Starts(rest, ", ")
    ensures ReadList(x => ReadValue(engine, x), ", ", Join(Values(engine, ps), ", ") + rest)
            == Some(Read(ValuesOf(ps), rest))
  {
    hide ReadValue, SqlValue, ReadList, Join, Meaning;
    var item := x => ReadValue(engine, x);
    forall i | 0 <= i < |ps| ensures Prints(item, Follows, Values(engine, ps)[i], ValuesOf(ps)[i]) {
      var p := ps[i];
      ValueNotEmpty(engine, p.numeric, p.cell);
      forall end | Follows(end)
        ensures item(SqlValue(engine, p.numeric, p.cell) + end) == Some(Read(Meaning(p.numeric, p.cell), end))
      {
        ValueReadsBack(engine, p.numeric, p.cell, end);
      }
    }
    ListReadsBack(item, Follows, ", ", Values(engine, ps), ValuesOf(ps), rest);
  }

  lemma PairsReadBack(engine: Engine, ps: seq<Pair>, sep: string, rest: string)
    requires ps != [] && sep != "" && Follows(sep) && Follows(rest) && !Starts(rest, sep)
    ensures ReadList(x => ReadPair(engine, x), sep, Join(PairTexts(engine, ps), sep) + rest)
            == Some(Read(PairsOf(ps), rest))
  {
    hide ReadPair, PairText, ReadList, Join, Meaning;
    var item := x => ReadPair(engine, x);
    forall i | 0 <= i < |ps| ensures Prints(item, Follows, PairTexts(engine, ps)[i], PairsOf(ps)[i]) {
      var p := ps[i];
      PairNotEmpty(engine, p);
      forall end | Follows(end)
        ensures item(PairText(engine, p) + end) == Some(Read((p.name, Meaning(p.numeric, p.cell)), end))
      {
        PairReadsBack(engine, p, end);
      }
    }
    ListReadsBack(item, Follows, sep, PairTexts(engine, ps), PairsOf(ps), rest);
  }

  lemma PairNotEmpty(engine: Engine, p: Pair)
    ensures PairText(engine, p) != ""
  {
  }

  // ---- What a record means -------------------------------------------------------------------------------------

  /** One assignment for each column of the table that the record holds, in column order. */
  function Assignments(columns: seq<Column>, values: map<string, Cell>): seq<(string, Token)> {
    if columns == [] then []
    else
      var c := columns[|columns| - 1];
      Assignments(columns[..|columns| - 1], values)
      + (if c.name in values then [(c.name, Meaning(c.numeric, values[c.name]))] else [])
  }

  /** The first column of that name is numeric; a name the table does not have is text. */
  predicate NumericName(columns: seq<Column>, name: string) {
    exists i :: 0 <= i < |columns| && columns[i].name == name && columns[i].numeric
                && forall j :: 0 <= j < i ==> columns[j].name != name
  }

  /** One condition for each key, in the order of the keys. */
  function KeyConditions(columns: seq<Column>, keys: seq<(string, Cell)>): seq<(string, Token)> {
    seq(|keys|, i requires 0 <= i < |keys| => (keys[i].0, Meaning(NumericName(columns, keys[i].0), keys[i].1)))
  }

  function Firsts(ps: seq<(string, Token)>): seq<string> {
    seq(|ps|, i requires 0 <= i < |ps| => ps[i].0)
  }

  function Seconds(ps: seq<(string, Token)>): seq<Token> {
    seq(|ps|, i requires 0 <= i < |ps| => ps[i].1)
  }

  lemma {:induction false} NumericColumnMeans(columns: seq<Column>, name: string)
    ensures NumericColumn(columns, name) <==> NumericName(columns, name)
  {
    if columns != [] && columns[0].name != name {
      NumericColumnMeans(columns[1..], name);
      if NumericName(columns, name) {
        var i :| 0 <= i < |columns| && columns[i].name == name && columns[i].numeric
                 && forall j :: 0 <= j < i ==> columns[j].name != name;
        assert columns[1..][i - 1] == columns[i];
      }
      if NumericName(columns[1..], name) {
        var i :| 0 <= i < |columns[1..]| && columns[1..][i].name == name && columns[1..][i].numeric
                 && forall j :: 0 <= j < i ==> columns[1..][j].name != name;
        assert columns[i + 1] == columns[1..][i];
        forall j | 0 <= j < i + 1 ensures columns[j].name != name {
          assert j > 0 ==> columns[j] == columns[1..][j - 1];
        }
      }
    }
  }

  lemma PresentStep(columns: seq<Column>, values: map<string, Cell>)
    requires columns != []
    ensures Present(columns, values) == (if columns[0].name in values then [columns[0]] else []) + Present(columns[1..], values)
  {
  }

  lemma Regrouped<T>(a: seq<T>, b: seq<T>, c: seq<T>)
    ensures a + (b + c) == (a + b) + c
  {
  }

  lemma {:induction false} PresentAppends(columns: seq<Column>, c: Column, values: map<string, Cell>)
    ensures Present(columns + [c], values) == Present(columns, values) + (if c.name in values then [c] else [])
  {
    hide Present;
    var more := if c.name in values then [c] else [];
    PresentStep(columns + [c], values);
    if columns == [] {
      assert columns + [c] == [c];
      NothingPresent([], values);
      NothingPresent([c][1..], values);
      assert more + [] == more == [] + more;
    } else {
      assert (columns + [c])[1..] == columns[1..] + [c];
      PresentStep(columns, values);
      PresentAppends(columns[1..], c, values);
      Regrouped(if columns[0].name in values then [columns[0]] else [], Present(columns[1..], values), more);
    }
  }

  lemma {:induction false} PairsMean(t: Table, values: map<string, Cell>)
    ensures PairsOf(SetPairs(t, values)) == Assignments(t.columns, values)
    decreases |t.columns|
  {
    hide Meaning, Present;
    if t.columns == [] {
      NothingPresent([], values);
    } else {
      var n := |t.columns| - 1;
      var c := t.columns[n];
      var before := t.(columns := t.columns[..n]);
      PairsMean(before, values);
      PresentAppends(before.columns, c, values);
      assert before.columns + [c] == t.columns;
      var more := if c.name in values then [Pair(c.name, c.numeric, values[c.name])] else [];
      assert SetPairs(t, values) == SetPairs(before, values) + more;
    }
  }

  lemma SetPairsMean(t: Table, values: map<string, Cell>)
    ensures var ps := SetPairs(t, values);
            && PairsOf(ps) == Assignments(t.columns, values)
            && NamesOf(ps) == Firsts(Assignments(t.columns, values))
            && ValuesOf(ps) == Seconds(Assignments(t.columns, values))
  {
    hide Meaning, SetPairs, Assignments;
    PairsMean(t, values);
    var ps, all := SetPairs(t, values), Assignments(t.columns, values);
    assert forall i :: 0 <= i < |ps| ==> PairsOf(ps)[i] == all[i];
  }

  lemma KeyPairsMean(t: Table, keys: seq<(string, Cell)>)
    ensures PairsOf(KeyPairs(t, keys)) == KeyConditions(t.columns, keys)
  {
    hide Meaning, NumericColumn, NumericName;
    forall i | 0 <= i < |keys| ensures NumericColumn(t.columns, keys[i].0) == NumericName(t.columns, keys[i].0) {
      NumericColumnMeans(t.columns, keys[i].0);
    }
  }

  // ---- Statements ---------------------------------------------------------------------------------------------

  lemma SkipWord(word: string, rest: string)
    ensures Skip(word + rest, word) == Some(rest)
  {
    assert (word + rest)[..|word|] == word && (word + rest)[|word|..] == rest;
  }

  /** An INSERT reads back to its table, its column names and the meaning of its cells, in order. */
  lemma InsertReadsBack(engine: Engine, t: Table, values: map<string, Cell>)
    requires BuildInsert(engine, t, values).Ok?
    ensures var all := Assignments(t.columns, values);
            ReadInsert(engine, BuildInsert(engine, t, values).value)
            == Some(Insert(RefOf(engine, t), Firsts(all), Seconds(all)))
  {
    hide ReadRef, TableRef, ReadList, Join, SetPairs, Skip, NamesOf, ValuesOf, RefOf, Assignments, Firsts, Seconds;
    SetPairsMean(t, values);
    var ps := SetPairs(t, values);
    var vals := Join(Values(engine, ps), ", ") + ")";
    var names := Join(Names(engine, ps), ", ") + (") VALUES (" + vals);
    var table := TableRef(engine, t) + (" (" + names);
    assert BuildInsert(engine, t, values).value == "INSERT INTO " + table;
    SkipWord("INSERT INTO ", table);
    RefReadsBack(engine, t, " (" + names);
    SkipWord(" (", names);
    NamesReadBack(engine, ps, ") VALUES (" + vals);
    SkipWord(") VALUES (", vals);
    ValuesReadBack(engine, ps, ")");
    SkipWord(")", "");
    assert ")" + "" == ")";
  }

  /** An UPDATE reads back to its table, its assignments and its key conditions. */
  lemma UpdateReadsBack(engine: Engine, t: Table, keys: seq<(string, Cell)>, values: map<string, Cell>)
    requires BuildUpdate(engine, t, keys, values).Ok?
    ensures ReadUpdate(engine, BuildUpdate(engine, t, keys, values).value)
            == Some(Update(RefOf(engine, t), Assignments(t.columns, values), KeyConditions(t.columns, keys)))
  {
    hide ReadRef, TableRef, ReadList, Join, SetPairs, Skip, PairsOf, RefOf, Assignments, KeyConditions;
    SetPairsMean(t, values);
    KeyPairsMean(t, keys);
    var edits, key := SetPairs(t, values), KeyPairs(t, keys);
    var where := Join(PairTexts(engine, key), " AND ");
    var changes := Join(PairTexts(engine, edits), ", ") + (" WHERE " + where);
    var table := TableRef(engine, t) + (" SET " + changes);
    assert BuildUpdate(engine, t, keys, values).value == "UPDATE " + table;
    SkipWord("UPDATE ", table);
    RefReadsBack(engine, t, " SET " + changes);
    SkipWord(" SET ", changes);
    PairsReadBack(engine, edits, ", ", " WHERE " + where);
    SkipWord(" WHERE ", where);
    PairsReadBack(engine, key, " AND ", "");
    assert where + "" == where;
  }

  /** A DELETE reads back to its table and its key conditions. */
  lemma DeleteReadsBack(engine: Engine, t: Table, keys: seq<(string, Cell)>)
    requires BuildDelete(engine, t, keys).Ok?
    ensures ReadDelete(engine, BuildDelete(engine, t, keys).value)
            == Some(Delete(RefOf(engine, t), KeyConditions(t.columns, keys)))
  {
    hide ReadRef, TableRef, ReadList, Join, Skip, PairsOf, RefOf, KeyConditions;
    KeyPairsMean(t, keys);
    var key := KeyPairs(t, keys);
    var where := Join(PairTexts(engine, key), " AND ");
    var table := TableRef(engine, t) + (" WHERE " + where);
    assert BuildDelete(engine, t, keys).value == "DELETE FROM " + table;
    SkipWord("DELETE FROM ", table);
    RefReadsBack(engine, t, " WHERE " + where);
    SkipWord(" WHERE ", where);
    PairsReadBack(engine, key, " AND ", "");
    assert where + "" == where;
  }

  /** A write is refused exactly when it would name no column, no key or no change. */
  lemma {:induction false} RefusedExactly(engine: Engine, t: Table, keys: seq<(string, Cell)>, values: map<string, Cell>)
    ensures BuildInsert(engine, t, values) == Err(NoColumns)
            <==> forall i :: 0 <= i < |t.columns| ==> t.columns[i].name !in values
    ensures BuildUpdate(engine, t, keys, values) == Err(NoPrimaryKey) <==> keys == []
    ensures BuildUpdate(engine, t, keys, values) == Err(NoChanges)
            <==> keys != [] && BuildInsert(engine, t, values).Err?
    ensures BuildDelete(engine, t, keys).Err? <==> keys == []
  {
    NothingPresent(t.columns, values);
  }

  lemma {:induction false} NothingPresent(columns: seq<Column>, values: map<string, Cell>)
    ensures Present(columns, values) == [] <==> forall i :: 0 <= i < |columns| ==> columns[i].name !in values
  {
    if columns != [] {
      NothingPresent(columns[1..], values);
      assert forall i :: 1 <= i < |columns| ==> columns[i] == columns[1..][i - 1];
    }
  }
}
