/** Comparing two catalogs: keyed maps, foreign-key multisets, the listed differences and the
    counters kept beside them. */
module SchemaDiff {
  import opened Wrappers
  import opened SqlText
  import opened Sorting

  datatype Column = Column(name: string, dataType: string, nullable: bool, pk: bool)

  datatype ForeignKey = ForeignKey(column: string, referencesTable: string, referencesColumn: string,
                                   referencesSchema: Option<string>)

  datatype Index = Index(name: string, columns: seq<string>, unique: bool)

  datatype Table = Table(schema: Option<string>, name: string, kind: string, columns: seq<Column>,
                         foreignKeys: seq<ForeignKey>, indexes: seq<Index>)

  datatype Status = Added | Missing | Changed

  datatype Part = RelationPart | ColumnPart | IndexPart | ForeignKeyPart

  /** A listed difference: the table or view itself when the part is the relation, with an empty
      name, or one of its columns, indexes or foreign keys. */
  datatype Difference = Difference(tableKey: string, part: Part, name: string, status: Status,
                                   baselineValue: string, targetValue: string)

  datatype TableDiff = TableDiff(key: string, added: bool, missing: bool, relationChanged: bool,
                                 addedColumns: seq<string>, missingColumns: seq<string>,
                                 changedColumns: seq<string>, objectDiffs: seq<Difference>)

  datatype Summary = Summary(addedTables: seq<Table>, missingTables: seq<Table>, changedTables: seq<Table>,
                             addedColumns: nat, missingColumns: nat, changedColumns: nat,
                             relationChangedTables: nat, total: nat,
                             tableDiffs: map<string, TableDiff>, objects: seq<Difference>)

  const DASH := "\U{2014}"

  // ---- Rendered values -------------------------------------------------------------------------------------------

  function TableKey(t: Table): string {
    (if t.schema.Some? then t.schema.value else "") + "." + t.name
  }

  /** What decides whether a column changed; lower is the locale's lower-casing. */
  function ColumnSignature(lower: string -> string, c: Column): string {
    lower(Trim(c.dataType)) + "|" + (if c.nullable then "null" else "not-null") + "|" + (if c.pk then "pk" else "no-pk")
  }

  function ColumnValue(c: Column): string {
    Join((if c.dataType != "" then [c.dataType] else []) + [if c.nullable then "NULL" else "NOT NULL"]
         + (if c.pk then ["PK"] else []), " \U{B7} ")
  }

  function IndexValue(i: Index): string {
    (if i.unique then "UNIQUE " else "") + "(" + Join(i.columns, ", ") + ")"
  }

  function ForeignKeyValue(f: ForeignKey): string {
    f.column + " \U{2192} "
    + (if f.referencesSchema.Some? && f.referencesSchema.value != "" then f.referencesSchema.value + "." else "")
    + f.referencesTable + "." + f.referencesColumn
  }

  /** The type column of a listed difference: a relation shows the kind it has or had. */
  function ObjectType(d: Difference): string {
    match d.part
    case RelationPart =>
      if (if d.status == Missing then d.baselineValue else d.targetValue) == "view" then "view" else "table"
    case ColumnPart => "column"
    case IndexPart => "index"
    case ForeignKeyPart => "foreignKey"
  }

  function Path(d: Difference): string {
    if d.part == RelationPart then d.tableKey else d.tableKey + "." + d.name
  }

  // ---- Maps that remember insertion order -----------------------------------------------------------------------

  /** A map with its keys in the order in which they were first set. */
  datatype Dict<V> = Dict(keys: seq<string>, at: map<string, V>)

  ghost predicate Distinct(keys: seq<string>) {
    forall i, j :: 0 <= i < j < |keys| ==> keys[i] != keys[j]
  }

  ghost predicate Proper<V>(d: Dict<V>) {
    Distinct(d.keys) && forall k :: k in d.keys <==> k in d.at
  }

  function Put<V>(d: Dict<V>, k: string, v: V): (r: Dict<V>)
    ensures Proper(d) ==> Proper(r)
  {
    Dict(if k in d.at then d.keys else d.keys + [k], d.at[k := v])
  }

  /** The map of a list of pairs: a later pair replaces the value of an earlier one. */
  function DictOf<V>(pairs: seq<(string, V)>): (r: Dict<V>)
    ensures Proper(r)
  {
    if pairs == [] then Dict([], map[])
    else
      var last := |pairs| - 1;
      Put(DictOf(pairs[..last]), pairs[last].0, pairs[last].1)
  }

  /** A value compared by its signature and listed as it is shown. */
  datatype Item = Item(signature: string, shown: string)

  function ColumnItems(lower: string -> string, t: Table): Dict<Item> {
    DictOf(seq(|t.columns|, i requires 0 <= i < |t.columns| =>
      (t.columns[i].name, Item(ColumnSignature(lower, t.columns[i]), ColumnValue(t.columns[i])))))
  }

  function IndexItems(t: Table): Dict<Item> {
    DictOf(seq(|t.indexes|, i requires 0 <= i < |t.indexes| =>
      (t.indexes[i].name, Item(IndexValue(t.indexes[i]), IndexValue(t.indexes[i])))))
  }

  function Tables(tables: seq<Table>): Dict<Table> {
    DictOf(seq(|tables|, i requires 0 <= i < |tables| => (TableKey(tables[i]), tables[i])))
  }

  // ---- Named parts: columns and indexes ---------------------------------------------------------------------------

  /** The differences of each key, one key after the other. */
  function Flat(f: string -> seq<Difference>, keys: seq<string>): seq<Difference> {
    if keys == [] then [] else Flat(f, keys[..|keys| - 1]) + f(keys[|keys| - 1])
  }

  function FromCurrent(table: string, part: Part, current: Dict<Item>, baseline: Dict<Item>)
    : string -> seq<Difference>
  {
    (name: string) =>
      if name !in current.at then []
      else if name !in baseline.at then
        [Difference(table, part, name, Added, DASH, current.at[name].shown)]
      else if current.at[name].signature != baseline.at[name].signature then
        [Difference(table, part, name, Changed, baseline.at[name].shown, current.at[name].shown)]
      else []
  }

  function FromBaseline(table: string, part: Part, current: Dict<Item>, baseline: Dict<Item>)
    : string -> seq<Difference>
  {
    (name: string) =>
      if name in baseline.at && name !in current.at then
        [Difference(table, part, name, Missing, baseline.at[name].shown, DASH)]
      else []
  }

  function NamedDiffs(table: string, part: Part, current: Dict<Item>, baseline: Dict<Item>): seq<Difference> {
    Flat(FromCurrent(table, part, current, baseline), current.keys)
    + Flat(FromBaseline(table, part, current, baseline), baseline.keys)
  }

  lemma NextKey(f: string -> seq<Difference>, keys: seq<string>, i: nat)
    requires i < |keys|
    ensures Flat(f, keys[..i + 1]) == Flat(f, keys[..i]) + f(keys[i])
  {
    assert keys[..i + 1][..i] == keys[..i];
  }

  method AppendNamedObjectDiffs(objects: seq<Difference>, table: string, part: Part,
                                current: Dict<Item>, baseline: Dict<Item>) returns (r: seq<Difference>)
    requires Proper(current) && Proper(baseline)
    ensures r == objects + NamedDiffs(table, part, current, baseline)
  {
    hide Flat;
    r := objects;
    ghost var more: seq<Difference> := [];
    ghost var f, g := FromCurrent(table, part, current, baseline), FromBaseline(table, part, current, baseline);
    EmptyFlat(f);
    EmptyFlat(g);
    for i := 0 to |current.keys|
      invariant r == objects + more && more == Flat(f, current.keys[..i])
    {
      var name := current.keys[i];
      NextKey(f, current.keys, i);
      more := more + f(name);
      if name !in baseline.at {
        r := r + [Difference(table, part, name, Added, DASH, current.at[name].shown)];
      } else if baseline.at[name].signature != current.at[name].signature {
        r := r + [Difference(table, part, name, Changed, baseline.at[name].shown, current.at[name].shown)];
      }
    }
    assert current.keys[..|current.keys|] == current.keys;
    for i := 0 to |baseline.keys|
      invariant r == objects + more && more == Flat(f, current.keys) + Flat(g, baseline.keys[..i])
    {
      var name := baseline.keys[i];
      NextKey(g, baseline.keys, i);
      more := more + g(name);
      if name !in current.at {
        r := r + [Difference(table, part, name, Missing, baseline.at[name].shown, DASH)];
      }
    }
    assert baseline.keys[..|baseline.keys|] == baseline.keys;
  }

  lemma EmptyFlat(f: string -> seq<Difference>)
    ensures forall keys: seq<string> :: Flat(f, keys[..0]) == []
  {
  }

  // ---- Foreign keys --------------------------------------------------------------------------------------------------

  function Values(d: Dict<seq<string>>, column: string): seq<string> {
    if column in d.at then d.at[column] else []
  }

  function Grouped(foreignKeys: seq<ForeignKey>): (d: Dict<seq<string>>)
    ensures Proper(d)
  {
    if foreignKeys == [] then Dict([], map[])
    else
      var last := foreignKeys[|foreignKeys| - 1];
      var d := Grouped(foreignKeys[..|foreignKeys| - 1]);
      Put(d, last.column, Values(d, last.column) + [ForeignKeyValue(last)])
  }

  function SortedGroups(d: Dict<seq<string>>): Dict<seq<string>> {
    Dict(d.keys, map k | k in d.at :: SortBy(CompareText, d.at[k]))
  }

  method GroupForeignKeysByColumn(foreignKeys: seq<ForeignKey>) returns (grouped: Dict<seq<string>>)
    ensures grouped == SortedGroups(Grouped(foreignKeys)) && Proper(grouped)
  {
    hide SortBy;
    grouped := Dict([], map[]);
    for i := 0 to |foreignKeys|
      invariant grouped == Grouped(foreignKeys[..i])
    {
      var f := foreignKeys[i];
      assert foreignKeys[..i + 1][..i] == foreignKeys[..i];
      grouped := Put(grouped, f.column, Values(grouped, f.column) + [ForeignKeyValue(f)]);
    }
    assert foreignKeys[..|foreignKeys|] == foreignKeys;
    grouped := SortGroups(grouped);
  }

  method SortGroups(unsorted: Dict<seq<string>>) returns (grouped: Dict<seq<string>>)
    requires Proper(unsorted)
    ensures grouped == SortedGroups(unsorted) && Proper(grouped)
  {
    hide SortBy;
    grouped := unsorted;
    for i := 0 to |unsorted.keys|
      invariant grouped.keys == unsorted.keys && grouped.at.Keys == unsorted.at.Keys
      invariant forall j :: 0 <= j < |unsorted.keys| ==>
                  grouped.at[unsorted.keys[j]]
                  == if j < i then SortBy(CompareText, unsorted.at[unsorted.keys[j]]) else unsorted.at[unsorted.keys[j]]
    {
      var k := unsorted.keys[i];
      grouped := Dict(grouped.keys, grouped.at[k := SortBy(CompareText, grouped.at[k])]);
    }
    assert forall k :: k in unsorted.at ==> k in unsorted.keys;
  }

  function IndexOf(xs: seq<string>, x: string): (r: Option<nat>)
    ensures r.Some? ==> r.value < |xs| && xs[r.value] == x
    ensures r.None? ==> x !in xs
  {
    if xs == [] then None
    else if xs[0] == x then Some(0)
    else
      match IndexOf(xs[1..], x)
      case Some(i) => Some(i + 1)
      case None => None
  }

  function RemoveAt(xs: seq<string>, i: nat): seq<string>
    requires i < |xs|
  {
    xs[..i] + xs[i + 1..]
  }

  /** The source values that are left when each is paired off with an equal comparison value. */
  function Unmatched(source: seq<string>, remaining: seq<string>): seq<string> {
    if source == [] then []
    else
      match IndexOf(remaining, source[0])
      case Some(i) => Unmatched(source[1..], RemoveAt(remaining, i))
      case None => [source[0]] + Unmatched(source[1..], remaining)
  }

  method UnmatchedValues(source: seq<string>, comparison: seq<string>) returns (r: seq<string>)
    ensures r == Unmatched(source, comparison)
    ensures multiset(r) == multiset(source) - multiset(comparison)
  {
    hide IndexOf;
    r := [];
    var remaining := comparison;
    for i := 0 to |source|
      invariant r + Unmatched(source[i..], remaining) == Unmatched(source, comparison)
    {
      assert source[i..][1..] == source[i + 1..];
      var found := IndexOf(remaining, source[i]);
      if found.Some? {
        remaining := RemoveAt(remaining, found.value);
      } else {
        r := r + [source[i]];
      }
    }
    UnmatchedMeaning(source, comparison);
  }

  lemma {:induction false} UnmatchedMeaning(source: seq<string>, remaining: seq<string>)
    ensures multiset(Unmatched(source, remaining)) == multiset(source) - multiset(remaining)
  {
    if source != [] {
      assert source == [source[0]] + source[1..];
      match IndexOf(remaining, source[0])
      case Some(i) =>
        UnmatchedMeaning(source[1..], RemoveAt(remaining, i));
        WithoutOne(remaining, i);
      case None =>
        UnmatchedMeaning(source[1..], remaining);
    }
  }

  function Each(table: string, column: string, status: Status, values: seq<string>): seq<Difference>
    requires status != Changed
  {
    seq(|values|, i requires 0 <= i < |values| =>
      if status == Added then Difference(table, ForeignKeyPart, column, Added, DASH, values[i])
      else Difference(table, ForeignKeyPart, column, Missing, values[i], DASH))
  }

  function ColumnKeys(table: string, column: string, current: seq<string>, baseline: seq<string>): seq<Difference> {
    if |current| == 1 && |baseline| == 1 && current[0] != baseline[0] then
      [Difference(table, ForeignKeyPart, column, Changed, baseline[0], current[0])]
    else
      Each(table, column, Added, Unmatched(current, baseline)) + Each(table, column, Missing, Unmatched(baseline, current))
  }

  function FromForeignKeys(table: string, current: Dict<seq<string>>, baseline: Dict<seq<string>>)
    : string -> seq<Difference>
  {
    (column: string) => ColumnKeys(table, column, Values(current, column), Values(baseline, column))
  }

  /** The keys of both maps, those of the first first. */
  function AllKeys(current: Dict<seq<string>>, baseline: Dict<seq<string>>): seq<string> {
    current.keys + OnlyIn(baseline.keys, current)
  }

  function OnlyIn(keys: seq<string>, d: Dict<seq<string>>): seq<string> {
    if keys == [] then []
    else OnlyIn(keys[..|keys| - 1], d) + (if keys[|keys| - 1] in d.at then [] else [keys[|keys| - 1]])
  }

  function ForeignKeyDiffs(table: string, current: Table, baseline: Table): seq<Difference> {
    var c, b := SortedGroups(Grouped(current.foreignKeys)), SortedGroups(Grouped(baseline.foreignKeys));
    Flat(FromForeignKeys(table, c, b), AllKeys(c, b))
  }

  method DiffColumnKeys(table: string, column: string, currentValues: seq<string>, baselineValues: seq<string>)
    returns (objects: seq<Difference>)
    ensures objects == ColumnKeys(table, column, currentValues, baselineValues)
  {
    hide Unmatched;
    if |currentValues| == 1 && |baselineValues| == 1 && currentValues[0] != baselineValues[0] {
      return [Difference(table, ForeignKeyPart, column, Changed, baselineValues[0], currentValues[0])];
    }
    var added := UnmatchedValues(currentValues, baselineValues);
    var missing := UnmatchedValues(baselineValues, currentValues);
    objects := Each(table, column, Added, added);
    objects := objects + Each(table, column, Missing, missing);
  }

  method AppendForeignKeyDiffs(objects: seq<Difference>, table: string, currentTable: Table, baselineTable: Table)
    returns (r: seq<Difference>)
    ensures r == objects + ForeignKeyDiffs(table, currentTable, baselineTable)
  {
    hide Flat, Unmatched, SortBy, Grouped, ForeignKeyValue, ColumnKeys, AllKeys, SortedGroups;
    var current := GroupForeignKeysByColumn(currentTable.foreignKeys);
    var baseline := GroupForeignKeysByColumn(baselineTable.foreignKeys);
    var columns := AllKeys(current, baseline);
    ghost var f := FromForeignKeys(table, current, baseline);
    EmptyFlat(f);
    r := objects;
    for i := 0 to |columns|
      invariant r == objects + Flat(f, columns[..i])
    {
      var column := columns[i];
      NextKey(f, columns, i);
      var ds := DiffColumnKeys(table, column, Values(current, column), Values(baseline, column));
      r := r + ds;
    }
    assert columns[..|columns|] == columns;
  }

  // ---- One table ---------------------------------------------------------------------------------------------------------

  function KindDiff(key: string, current: Table, baseline: Table): seq<Difference> {
    if current.kind != baseline.kind then [Difference(key, RelationPart, "", Changed, baseline.kind, current.kind)] else []
  }

  function TableDiffs(lower: string -> string, current: Table, baseline: Table): seq<Difference> {
    var key := TableKey(current);
    KindDiff(key, current, baseline)
    + NamedDiffs(key, ColumnPart, ColumnItems(lower, current), ColumnItems(lower, baseline))
    + NamedDiffs(key, IndexPart, IndexItems(current), IndexItems(baseline))
    + ForeignKeyDiffs(key, current, baseline)
  }

  /** The names of the listed differences of one part with one status, in order. */
  function Named(ds: seq<Difference>, part: Part, status: Status): seq<string> {
    if ds == [] then []
    else
      var d := ds[|ds| - 1];
      Named(ds[..|ds| - 1], part, status) + (if d.part == part && d.status == status then [d.name] else [])
  }

  lemma {:induction false} NamedConcat(a: seq<Difference>, b: seq<Difference>, part: Part, status: Status)
    ensures Named(a + b, part, status) == Named(a, part, status) + Named(b, part, status)
    decreases |b|
  {
    if b == [] {
      assert a + b == a;
    } else {
      assert (a + b)[..|a + b| - 1] == a + b[..|b| - 1];
      NamedConcat(a, b[..|b| - 1], part, status);
    }
  }

  predicate TouchesRelations(ds: seq<Difference>) {
    exists i :: 0 <= i < |ds| && (ds[i].part == IndexPart || ds[i].part == ForeignKeyPart)
  }

  ghost predicate OfPart(ds: seq<Difference>, part: Part) {
    forall i :: 0 <= i < |ds| ==> ds[i].part == part
  }

  lemma {:induction false} FlatOfPart(f: string -> seq<Difference>, keys: seq<string>, part: Part)
    requires forall k :: OfPart(f(k), part)
    ensures OfPart(Flat(f, keys), part)
  {
    if keys != [] {
      FlatOfPart(f, keys[..|keys| - 1], part);
      assert OfPart(f(keys[|keys| - 1]), part);
    }
  }

  lemma PartsOfTable(lower: string -> string, current: Table, baseline: Table)
    ensures OfPart(KindDiff(TableKey(current), current, baseline), RelationPart)
    ensures OfPart(NamedDiffs(TableKey(current), ColumnPart, ColumnItems(lower, current), ColumnItems(lower, baseline)), ColumnPart)
    ensures OfPart(NamedDiffs(TableKey(current), IndexPart, IndexItems(current), IndexItems(baseline)), IndexPart)
    ensures OfPart(ForeignKeyDiffs(TableKey(current), current, baseline), ForeignKeyPart)
  {
    hide NamedDiffs, ForeignKeyDiffs, ColumnItems, IndexItems;
    var key := TableKey(current);
    NamedOfPart(key, ColumnPart, ColumnItems(lower, current), ColumnItems(lower, baseline));
    NamedOfPart(key, IndexPart, IndexItems(current), IndexItems(baseline));
    ForeignKeysOfPart(key, current, baseline);
  }

  lemma ForeignKeysOfPart(table: string, current: Table, baseline: Table)
    ensures OfPart(ForeignKeyDiffs(table, current, baseline), ForeignKeyPart)
  {
    hide Flat, Unmatched, SortedGroups, Grouped, AllKeys;
    var c, b := SortedGroups(Grouped(current.foreignKeys)), SortedGroups(Grouped(baseline.foreignKeys));
    FlatOfPart(FromForeignKeys(table, c, b), AllKeys(c, b), ForeignKeyPart);
  }

  lemma NamedOfPart(table: string, part: Part, current: Dict<Item>, baseline: Dict<Item>)
    ensures OfPart(NamedDiffs(table, part, current, baseline), part)
  {
    hide Flat;
    FlatOfPart(FromCurrent(table, part, current, baseline), current.keys, part);
    FlatOfPart(FromBaseline(table, part, current, baseline), baseline.keys, part);
  }

  lemma {:induction false} NoneNamed(ds: seq<Difference>, p: Part, part: Part, status: Status)
    requires OfPart(ds, p) && p != part
    ensures Named(ds, part, status) == []
  {
    if ds != [] {
      NoneNamed(ds[..|ds| - 1], p, part, status);
    }
  }

  /** The comparison of two tables under one key, with the column loops written out. */
  method DiffTable(lower: string -> string, current: Table, baseline: Table) returns (diff: TableDiff)
    ensures diff.key == TableKey(current) && !diff.added && !diff.missing
    ensures diff.objectDiffs == TableDiffs(lower, current, baseline)
    ensures diff.addedColumns == Named(diff.objectDiffs, ColumnPart, Added)
    ensures diff.missingColumns == Named(diff.objectDiffs, ColumnPart, Missing)
    ensures diff.changedColumns == Named(diff.objectDiffs, ColumnPart, Changed)
    ensures diff.relationChanged == TouchesRelations(diff.objectDiffs)
  {
    hide Flat, ColumnSignature, ColumnValue, IndexValue, ForeignKeyDiffs, ColumnItems, IndexItems;
    var key := TableKey(current);
    var currentColumns, baselineColumns := ColumnItems(lower, current), ColumnItems(lower, baseline);
    ItemsAreProper(lower, current);
    ItemsAreProper(lower, baseline);
    var objects := KindDiff(key, current, baseline);
    var added, missing, changed, columnDiffs := DiffColumns(key, currentColumns, baselineColumns);
    objects := objects + columnDiffs;
    ghost var head := objects;
    objects := AppendNamedObjectDiffs(objects, key, IndexPart, IndexItems(current), IndexItems(baseline));
    objects := AppendForeignKeyDiffs(objects, key, current, baseline);
    PartsOfTable(lower, current, baseline);
    ColumnNamesOfTable(lower, current, baseline, Added);
    ColumnNamesOfTable(lower, current, baseline, Missing);
    ColumnNamesOfTable(lower, current, baseline, Changed);
    diff := TableDiff(key, false, false, TouchesRelations(objects), added, missing, changed, objects);
  }

  lemma ItemsAreProper(lower: string -> string, t: Table)
    ensures Proper(ColumnItems(lower, t)) && Proper(IndexItems(t))
  {
    hide ColumnSignature, ColumnValue, IndexValue;
  }

  lemma ColumnNamesOfTable(lower: string -> string, current: Table, baseline: Table, status: Status)
    ensures Named(TableDiffs(lower, current, baseline), ColumnPart, status)
            == Named(NamedDiffs(TableKey(current), ColumnPart, ColumnItems(lower, current), ColumnItems(lower, baseline)),
                     ColumnPart, status)
  {
    hide Named, NamedDiffs, ForeignKeyDiffs, KindDiff, ColumnItems, IndexItems;
    var key := TableKey(current);
    var kinds := KindDiff(key, current, baseline);
    var columns := NamedDiffs(key, ColumnPart, ColumnItems(lower, current), ColumnItems(lower, baseline));
    var indexes := NamedDiffs(key, IndexPart, IndexItems(current), IndexItems(baseline));
    var keys := ForeignKeyDiffs(key, current, baseline);
    PartsOfTable(lower, current, baseline);
    NoneNamed(kinds, RelationPart, ColumnPart, status);
    NoneNamed(indexes, IndexPart, ColumnPart, status);
    NoneNamed(keys, ForeignKeyPart, ColumnPart, status);
    NamedConcat(kinds, columns, ColumnPart, status);
    NamedConcat(kinds + columns, indexes, ColumnPart, status);
    NamedConcat(kinds + columns + indexes, keys, ColumnPart, status);
  }

  /** One more difference is one more name under its own part and status. */
  lemma OneNamed(ds: seq<Difference>, d: Difference)
    ensures forall part, status ::
              Named(ds + [d], part, status)
              == Named(ds, part, status) + if d.part == part && d.status == status then [d.name] else []
  {
    assert (ds + [d])[..|ds|] == ds;
  }

  lemma NothingNamed()
    ensures forall part, status :: Named([], part, status) == []
  {
  }

  method DiffColumns(key: string, current: Dict<Item>, baseline: Dict<Item>)
    returns (added: seq<string>, missing: seq<string>, changed: seq<string>, objects: seq<Difference>)
    requires Proper(current) && Proper(baseline)
    ensures objects == NamedDiffs(key, ColumnPart, current, baseline)
    ensures added == Named(objects, ColumnPart, Added)
    ensures missing == Named(objects, ColumnPart, Missing)
    ensures changed == Named(objects, ColumnPart, Changed)
  {
    hide Flat, Named;
    ghost var first := Flat(FromCurrent(key, ColumnPart, current, baseline), current.keys);
    NothingNamed();
    added, missing, changed, objects := [], [], [], [];
    ghost var f, g := FromCurrent(key, ColumnPart, current, baseline), FromBaseline(key, ColumnPart, current, baseline);
    EmptyFlat(f);
    EmptyFlat(g);
    for i := 0 to |current.keys|
      invariant objects == Flat(f, current.keys[..i])
      invariant added == Named(objects, ColumnPart, Added) && missing == Named(objects, ColumnPart, Missing)
      invariant changed == Named(objects, ColumnPart, Changed)
    {
      var name := current.keys[i];
      NextKey(f, current.keys, i);
      if name !in baseline.at {
        var d := Difference(key, ColumnPart, name, Added, DASH, current.at[name].shown);
        OneNamed(objects, d);
        added := added + [name];
        objects := objects + [d];
      } else if current.at[name].signature != baseline.at[name].signature {
        var d := Difference(key, ColumnPart, name, Changed, baseline.at[name].shown, current.at[name].shown);
        OneNamed(objects, d);
        changed := changed + [name];
        objects := objects + [d];
      }
    }
    assert current.keys[..|current.keys|] == current.keys;
    for i := 0 to |baseline.keys|
      invariant objects == first + Flat(g, baseline.keys[..i])
      invariant added == Named(objects, ColumnPart, Added) && missing == Named(objects, ColumnPart, Missing)
      invariant changed == Named(objects, ColumnPart, Changed)
    {
      var name := baseline.keys[i];
      NextKey(g, baseline.keys, i);
      if name !in current.at {
        var d := Difference(key, ColumnPart, name, Missing, baseline.at[name].shown, DASH);
        OneNamed(objects, d);
        missing := missing + [name];
        objects := objects + [d];
      }
    }
    assert baseline.keys[..|baseline.keys|] == baseline.keys;
  }

  // ---- Two catalogs ---------------------------------------------------------------------------------------------------------

  function RelationDiff(key: string, kind: string, status: Status): Difference
    requires status != Changed
  {
    Difference(key, RelationPart, "", status, if status == Missing then kind else DASH, if status == Added then kind else DASH)
  }

  function FromCurrentTable(lower: string -> string, current: Dict<Table>, baseline: Dict<Table>)
    : string -> seq<Difference>
  {
    (key: string) =>
      if key !in current.at then []
      else if key !in baseline.at then [RelationDiff(key, current.at[key].kind, Added)]
      else TableDiffs(lower, current.at[key], baseline.at[key])
  }

  function FromBaselineTable(current: Dict<Table>, baseline: Dict<Table>): string -> seq<Difference> {
    (key: string) =>
      if key in baseline.at && key !in current.at then [RelationDiff(key, baseline.at[key].kind, Missing)] else []
  }

  /** Every difference between two catalogs, before the list is sorted for display. */
  function Differences(lower: string -> string, current: Dict<Table>, baseline: Dict<Table>): seq<Difference> {
    Flat(FromCurrentTable(lower, current, baseline), current.keys) + Flat(FromBaselineTable(current, baseline), baseline.keys)
  }

  /** The differences of one table, whichever catalog it is in. */
  function DifferencesOf(lower: string -> string, current: Dict<Table>, baseline: Dict<Table>, key: string): seq<Difference> {
    FromCurrentTable(lower, current, baseline)(key) + FromBaselineTable(current, baseline)(key)
  }

  /** How many listed differences have a part and a status. */
  function Count(ds: seq<Difference>, part: Part, status: Status): nat {
    |Named(ds, part, status)|
  }

  /** The display order: by path, then by type, in the locale's collation. */
  function Display(collate: (string, string) -> int): (Difference, Difference) -> int {
    (a: Difference, b: Difference) => Then(collate(Path(a), Path(b)), collate(ObjectType(a), ObjectType(b)))
  }

  /** The running totals of a comparison, in step with the differences listed so far. */
  ghost predicate InStep(s: Summary) {
    && s.addedColumns == Count(s.objects, ColumnPart, Added)
    && s.missingColumns == Count(s.objects, ColumnPart, Missing)
    && s.changedColumns == Count(s.objects, ColumnPart, Changed)
    && |s.addedTables| == Count(s.objects, RelationPart, Added)
    && |s.missingTables| == Count(s.objects, RelationPart, Missing)
  }

  function Keyed(t: Dict<Table>, keys: seq<string>, pick: string -> bool): seq<Table> {
    if keys == [] then []
    else
      var k := keys[|keys| - 1];
      Keyed(t, keys[..|keys| - 1], pick) + (if k in t.at && pick(k) then [t.at[k]] else [])
  }

  lemma NextTable(t: Dict<Table>, keys: seq<string>, i: nat, pick: string -> bool)
    requires i < |keys|
    ensures Keyed(t, keys[..i + 1], pick)
            == Keyed(t, keys[..i], pick) + (if keys[i] in t.at && pick(keys[i]) then [t.at[keys[i]]] else [])
  {
    assert keys[..i + 1][..i] == keys[..i];
  }

  function IsNotIn(t: Dict<Table>): string -> bool {
    (k: string) => k !in t.at
  }

  function IsChanged(lower: string -> string, current: Dict<Table>, baseline: Dict<Table>): string -> bool {
    (k: string) => k in current.at && k in baseline.at && TableDiffs(lower, current.at[k], baseline.at[k]) != []
  }

  function IsRelationChanged(lower: string -> string, current: Dict<Table>, baseline: Dict<Table>): string -> bool {
    (k: string) => k in current.at && k in baseline.at && TouchesRelations(TableDiffs(lower, current.at[k], baseline.at[k]))
  }

  /** A table is in the map exactly when something is listed for it, with just those differences. */
  ghost predicate Filed(diffs: map<string, TableDiff>, keys: seq<string>, f: string -> seq<Difference>) {
    && (forall k :: k in diffs <==> k in keys && f(k) != [])
    && (forall k :: k in diffs ==> diffs[k].objectDiffs == f(k))
  }

  /** The first loop: every table of the current catalog. */
  method ListCurrent(lower: string -> string, current: Dict<Table>, baseline: Dict<Table>) returns (s: Summary)
    requires Proper(current)
    ensures s.objects == Flat(FromCurrentTable(lower, current, baseline), current.keys) && InStep(s)
    ensures s.missingTables == [] && Filed(s.tableDiffs, current.keys, FromCurrentTable(lower, current, baseline))
    ensures s.addedTables == Keyed(current, current.keys, IsNotIn(baseline))
    ensures s.changedTables == Keyed(current, current.keys, IsChanged(lower, current, baseline))
    ensures s.relationChangedTables == |Keyed(current, current.keys, IsRelationChanged(lower, current, baseline))|
  {
    hide Flat, TableDiffs, Named, Keyed, TouchesRelations, Count, Filed;
    NothingFiled(FromCurrentTable(lower, current, baseline), current.keys);
    ghost var f := FromCurrentTable(lower, current, baseline);
    s := Summary([], [], [], 0, 0, 0, 0, 0, map[], []);
    EmptyFlat(f);
    EmptyKeyed(current);
    NothingCounted();
    for i := 0 to |current.keys|
      invariant s.objects == Flat(f, current.keys[..i]) && InStep(s) && s.missingTables == []
      invariant Filed(s.tableDiffs, current.keys[..i], f)
      invariant s.addedTables == Keyed(current, current.keys[..i], IsNotIn(baseline))
      invariant s.changedTables == Keyed(current, current.keys[..i], IsChanged(lower, current, baseline))
      invariant s.relationChangedTables
                == |Keyed(current, current.keys[..i], IsRelationChanged(lower, current, baseline))|
    {
      var key := current.keys[i];
      var table := current.at[key];
      NextKey(f, current.keys, i);
      NextTable(current, current.keys, i, IsNotIn(baseline));
      NextTable(current, current.keys, i, IsChanged(lower, current, baseline));
      NextTable(current, current.keys, i, IsRelationChanged(lower, current, baseline));
      if key !in baseline.at {
        var added := RelationDiff(key, table.kind, Added);
        OneCounted(s.objects, added);
        var diff := TableDiff(key, true, false, false, [], [], [], [added]);
        FileOne(s.tableDiffs, current.keys, i, f, diff);
        s := s.(addedTables := s.addedTables + [table], tableDiffs := s.tableDiffs[key := diff],
                objects := s.objects + [added]);
      } else {
        var diff := DiffTable(lower, table, baseline.at[key]);
        CountsOfTable(s.objects, lower, table, baseline.at[key]);
        CountsAreNames(diff.objectDiffs);
        if diff.objectDiffs != [] {
          FileOne(s.tableDiffs, current.keys, i, f, diff);
          s := s.(tableDiffs := s.tableDiffs[key := diff],
                  changedTables := s.changedTables + [table],
                  objects := s.objects + diff.objectDiffs,
                  addedColumns := s.addedColumns + |diff.addedColumns|,
                  missingColumns := s.missingColumns + |diff.missingColumns|,
                  changedColumns := s.changedColumns + |diff.changedColumns|,
                  relationChangedTables := s.relationChangedTables + if diff.relationChanged then 1 else 0);
        } else {
          NothingTouched();
          FileNone(s.tableDiffs, current.keys, i, f);
        }
      }
    }
    assert current.keys[..|current.keys|] == current.keys;
  }

  /** The map grows by the tables listed from the keys. */
  ghost predicate FiledToo(before: map<string, TableDiff>, diffs: map<string, TableDiff>, keys: seq<string>,
                           g: string -> seq<Difference>)
  {
    && (forall k :: k in diffs <==> k in before || (k in keys && g(k) != []))
    && (forall k :: k in diffs ==> if k in keys && g(k) != [] then diffs[k].objectDiffs == g(k)
                                   else k in before && diffs[k] == before[k])
  }

  /** The second loop: tables only the baseline has. */
  method ListMissing(before: Summary, current: Dict<Table>, baseline: Dict<Table>) returns (s: Summary)
    requires Proper(baseline) && InStep(before) && before.missingTables == []
    ensures InStep(s)
    ensures s == before.(objects := before.objects + Flat(FromBaselineTable(current, baseline), baseline.keys),
                         missingTables := Keyed(baseline, baseline.keys, IsNotIn(current)),
                         tableDiffs := s.tableDiffs)
    ensures FiledToo(before.tableDiffs, s.tableDiffs, baseline.keys, FromBaselineTable(current, baseline))
  {
    hide Flat, Named, Keyed, Count, FiledToo;
    NothingMore(before.tableDiffs, FromBaselineTable(current, baseline), baseline.keys);
    ghost var g := FromBaselineTable(current, baseline);
    s := before;
    EmptyFlat(g);
    EmptyKeyed(baseline);
    for i := 0 to |baseline.keys|
      invariant InStep(s)
      invariant s == before.(objects := before.objects + Flat(g, baseline.keys[..i]),
                             missingTables := Keyed(baseline, baseline.keys[..i], IsNotIn(current)),
                             tableDiffs := s.tableDiffs)
      invariant FiledToo(before.tableDiffs, s.tableDiffs, baseline.keys[..i], g)
    {
      var key := baseline.keys[i];
      NextKey(g, baseline.keys, i);
      NextTable(baseline, baseline.keys, i, IsNotIn(current));
      if key !in current.at {
        var missing := RelationDiff(key, baseline.at[key].kind, Missing);
        OneCounted(s.objects, missing);
        var diff := TableDiff(key, false, true, false, [], [], [], [missing]);
        FileOneMore(before.tableDiffs, s.tableDiffs, baseline.keys, i, g, diff);
        s := s.(missingTables := s.missingTables + [baseline.at[key]], tableDiffs := s.tableDiffs[key := diff],
                objects := s.objects + [missing]);
      } else {
        FileNoMore(before.tableDiffs, s.tableDiffs, baseline.keys, i, g);
      }
    }
    assert baseline.keys[..|baseline.keys|] == baseline.keys;
  }

  method CompareCatalogs(lower: string -> string, collate: (string, string) -> int,
                         currentTables: seq<Table>, baselineTables: seq<Table>) returns (s: Summary)
    ensures var current, baseline := Tables(currentTables), Tables(baselineTables);
            var ds := Differences(lower, current, baseline);
            && s.objects == SortBy(Display(collate), ds) && s.total == |ds|
            && InStep(s.(objects := ds))
            && s.addedTables == Keyed(current, current.keys, IsNotIn(baseline))
            && s.missingTables == Keyed(baseline, baseline.keys, IsNotIn(current))
            && s.changedTables == Keyed(current, current.keys, IsChanged(lower, current, baseline))
            && s.relationChangedTables == |Keyed(current, current.keys, IsRelationChanged(lower, current, baseline))|
            && (forall k :: k in s.tableDiffs <==> DifferencesOf(lower, current, baseline, k) != [])
            && (forall k :: k in s.tableDiffs ==> s.tableDiffs[k].objectDiffs == DifferencesOf(lower, current, baseline, k))
  {
    hide Flat, Keyed, SortBy, DictOf, Count, TableDiffs;
    var current, baseline := Tables(currentTables), Tables(baselineTables);
    s := ListCurrent(lower, current, baseline);
    s := ListMissing(s, current, baseline);
    SortPermutes(Display(collate), s.objects);
    s := s.(total := |s.objects|, objects := SortBy(Display(collate), s.objects));
  }

  lemma NextFiled(keys: seq<string>, i: nat)
    requires i < |keys| && Distinct(keys)
    ensures keys[i] !in keys[..i] && forall k :: k in keys[..i + 1] <==> k in keys[..i] || k == keys[i]
  {
    assert keys[..i + 1] == keys[..i] + [keys[i]];
  }

  lemma NothingFiled(f: string -> seq<Difference>, keys: seq<string>)
    ensures Filed(map[], keys[..0], f)
  {
  }

  lemma FileOne(diffs: map<string, TableDiff>, keys: seq<string>, i: nat, f: string -> seq<Difference>, diff: TableDiff)
    requires i < |keys| && Distinct(keys) && Filed(diffs, keys[..i], f)
    requires f(keys[i]) != [] && diff.objectDiffs == f(keys[i])
    ensures Filed(diffs[keys[i] := diff], keys[..i + 1], f)
  {
    NextFiled(keys, i);
  }

  lemma FileNone(diffs: map<string, TableDiff>, keys: seq<string>, i: nat, f: string -> seq<Difference>)
    requires i < |keys| && Distinct(keys) && Filed(diffs, keys[..i], f) && f(keys[i]) == []
    ensures Filed(diffs, keys[..i + 1], f)
  {
    NextFiled(keys, i);
  }

  lemma NothingMore(before: map<string, TableDiff>, g: string -> seq<Difference>, keys: seq<string>)
    ensures FiledToo(before, before, keys[..0], g)
  {
  }

  lemma FileOneMore(before: map<string, TableDiff>, diffs: map<string, TableDiff>, keys: seq<string>, i: nat,
                    g: string -> seq<Difference>, diff: TableDiff)
    requires i < |keys| && Distinct(keys) && FiledToo(before, diffs, keys[..i], g)
    requires g(keys[i]) != [] && diff.objectDiffs == g(keys[i])
    ensures FiledToo(before, diffs[keys[i] := diff], keys[..i + 1], g)
  {
    NextFiled(keys, i);
  }

  lemma FileNoMore(before: map<string, TableDiff>, diffs: map<string, TableDiff>, keys: seq<string>, i: nat,
                   g: string -> seq<Difference>)
    requires i < |keys| && Distinct(keys) && FiledToo(before, diffs, keys[..i], g) && g(keys[i]) == []
    ensures FiledToo(before, diffs, keys[..i + 1], g)
  {
    NextFiled(keys, i);
  }

  lemma EmptyKeyed(t: Dict<Table>)
    ensures forall keys: seq<string>, pick :: Keyed(t, keys[..0], pick) == []
  {
  }

  lemma NothingCounted()
    ensures forall part, status :: Count([], part, status) == 0
  {
  }

  lemma CountsAreNames(ds: seq<Difference>)
    ensures forall part, status :: Count(ds, part, status) == |Named(ds, part, status)|
  {
  }

  lemma NothingTouched()
    ensures !TouchesRelations([])
  {
  }

  lemma OneCounted(ds: seq<Difference>, d: Difference)
    ensures forall part, status ::
              Count(ds + [d], part, status) == Count(ds, part, status) + if d.part == part && d.status == status then 1 else 0
  {
    hide Named;
    OneNamed(ds, d);
  }

  /** A compared table adds its column differences to the counts, and no added or missing relation. */
  lemma CountsOfTable(ds: seq<Difference>, lower: string -> string, current: Table, baseline: Table)
    ensures var more := TableDiffs(lower, current, baseline);
            && (forall status :: Count(ds + more, ColumnPart, status)
                                 == Count(ds, ColumnPart, status) + Count(more, ColumnPart, status))
            && Count(ds + more, RelationPart, Added) == Count(ds, RelationPart, Added)
            && Count(ds + more, RelationPart, Missing) == Count(ds, RelationPart, Missing)
  {
    hide Named, TableDiffs;
    var more := TableDiffs(lower, current, baseline);
    forall status ensures Count(ds + more, ColumnPart, status)
                          == Count(ds, ColumnPart, status) + Count(more, ColumnPart, status)
    {
      NamedConcat(ds, more, ColumnPart, status);
    }
    NamedConcat(ds, more, RelationPart, Added);
    NamedConcat(ds, more, RelationPart, Missing);
    RelationsOfTable(lower, current, baseline, Added);
    RelationsOfTable(lower, current, baseline, Missing);
  }

  lemma RelationsOfTable(lower: string -> string, current: Table, baseline: Table, status: Status)
    requires status != Changed
    ensures Named(TableDiffs(lower, current, baseline), RelationPart, status) == []
  {
    hide Named, NamedDiffs, ForeignKeyDiffs, ColumnItems, IndexItems;
    var key := TableKey(current);
    var kinds := KindDiff(key, current, baseline);
    var columns := NamedDiffs(key, ColumnPart, ColumnItems(lower, current), ColumnItems(lower, baseline));
    var indexes := NamedDiffs(key, IndexPart, IndexItems(current), IndexItems(baseline));
    var keys := ForeignKeyDiffs(key, current, baseline);
    PartsOfTable(lower, current, baseline);
    KindsOnlyChange(key, current, baseline, status);
    NoneNamed(columns, ColumnPart, RelationPart, status);
    NoneNamed(indexes, IndexPart, RelationPart, status);
    NoneNamed(keys, ForeignKeyPart, RelationPart, status);
    NamedConcat(kinds, columns, RelationPart, status);
    NamedConcat(kinds + columns, indexes, RelationPart, status);
    NamedConcat(kinds + columns + indexes, keys, RelationPart, status);
  }

  lemma KindsOnlyChange(key: string, current: Table, baseline: Table, status: Status)
    requires status != Changed
    ensures Named(KindDiff(key, current, baseline), RelationPart, status) == []
  {
    assert forall d: Difference :: Named([d][..0], RelationPart, status) == [];
  }
}
