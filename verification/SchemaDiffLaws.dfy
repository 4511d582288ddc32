/** What the list of differences says: it is empty exactly when the catalogs agree, swapping the
    catalogs flips it, and applying it to the baseline gives the target. */
module SchemaDiffLaws {
  import opened Wrappers
  import opened SqlText
  import opened Sorting
  import opened SchemaDiff

  // ---- Every difference is found under its own table, part and name -----------------------------------------------

  ghost predicate Tagged(f: string -> seq<Difference>, tag: Difference -> string) {
    forall k, d :: d in f(k) ==> tag(d) == k
  }

  /** With distinct keys, a difference is listed as often as under its own key. */
  lemma {:induction false} FlatCount(f: string -> seq<Difference>, tag: Difference -> string, keys: seq<string>, d: Difference)
    requires Distinct(keys) && Tagged(f, tag)
    ensures multiset(Flat(f, keys))[d] == if tag(d) in keys then multiset(f(tag(d)))[d] else 0
  {
    if keys != [] {
      var rest, last := keys[..|keys| - 1], keys[|keys| - 1];
      FlatCount(f, tag, rest, d);
      assert keys == rest + [last];
      if tag(d) == last {
        assert last !in rest;
      } else {
        assert d !in f(last);
        assert multiset(f(last))[d] == 0;
      }
    }
  }

  function NamedAt(table: string, part: Part, current: Dict<Item>, baseline: Dict<Item>, name: string): seq<Difference> {
    FromCurrent(table, part, current, baseline)(name) + FromBaseline(table, part, current, baseline)(name)
  }

  lemma NamedCount(table: string, part: Part, current: Dict<Item>, baseline: Dict<Item>, d: Difference)
    requires Proper(current) && Proper(baseline)
    ensures multiset(NamedDiffs(table, part, current, baseline))[d]
            == multiset(NamedAt(table, part, current, baseline, d.name))[d]
  {
    hide Flat;
    var tag := NameTag();
    FlatCount(FromCurrent(table, part, current, baseline), tag, current.keys, d);
    FlatCount(FromBaseline(table, part, current, baseline), tag, baseline.keys, d);
  }

  lemma {:induction false} OnlyInMeaning(keys: seq<string>, d: Dict<seq<string>>)
    requires Distinct(keys)
    ensures Distinct(OnlyIn(keys, d)) && forall k :: k in OnlyIn(keys, d) <==> k in keys && k !in d.at
  {
    if keys != [] {
      var rest, last := keys[..|keys| - 1], keys[|keys| - 1];
      OnlyInMeaning(rest, d);
      assert keys == rest + [last];
      assert last !in rest;
    }
  }

  lemma AllKeysMeaning(current: Dict<seq<string>>, baseline: Dict<seq<string>>)
    requires Proper(current) && Proper(baseline)
    ensures Distinct(AllKeys(current, baseline))
    ensures forall k :: k in AllKeys(current, baseline) <==> k in current.at || k in baseline.at
  {
    OnlyInMeaning(baseline.keys, current);
    var more := OnlyIn(baseline.keys, current);
    forall i, j | 0 <= i < j < |current.keys + more| ensures (current.keys + more)[i] != (current.keys + more)[j] {
      if i < |current.keys| <= j {
        assert more[j - |current.keys|] in more;
        assert current.keys[i] in current.keys;
      }
    }
  }

  /** The foreign keys of one column, as they are shown. */
  function KeysOf(foreignKeys: seq<ForeignKey>, column: string): seq<string> {
    if foreignKeys == [] then []
    else
      var last := foreignKeys[|foreignKeys| - 1];
      KeysOf(foreignKeys[..|foreignKeys| - 1], column) + (if last.column == column then [ForeignKeyValue(last)] else [])
  }

  lemma {:induction false} GroupsAreKeys(foreignKeys: seq<ForeignKey>, column: string)
    ensures Values(Grouped(foreignKeys), column) == KeysOf(foreignKeys, column)
    ensures column in Grouped(foreignKeys).at <==> KeysOf(foreignKeys, column) != []
  {
    hide ForeignKeyValue;
    if foreignKeys != [] {
      GroupsAreKeys(foreignKeys[..|foreignKeys| - 1], column);
    }
  }

  /** A column's foreign keys in the order in which they are compared. */
  function SortedKeys(t: Table, column: string): seq<string> {
    SortBy(CompareText, KeysOf(t.foreignKeys, column))
  }

  lemma SortedGroupsAreKeys(t: Table, column: string)
    ensures Values(SortedGroups(Grouped(t.foreignKeys)), column) == SortedKeys(t, column)
    ensures Proper(SortedGroups(Grouped(t.foreignKeys)))
  {
    hide Grouped, KeysOf;
    GroupsAreKeys(t.foreignKeys, column);
    SortPermutes(CompareText, KeysOf(t.foreignKeys, column));
  }

  function NameTag(): Difference -> string {
    (d: Difference) => d.name
  }

  function TableTag(): Difference -> string {
    (d: Difference) => d.tableKey
  }

  lemma ForeignKeysTagged(table: string, current: Dict<seq<string>>, baseline: Dict<seq<string>>)
    ensures Tagged(FromForeignKeys(table, current, baseline), NameTag())
  {
    hide Unmatched;
  }

  lemma ForeignKeyCount(table: string, current: Table, baseline: Table, d: Difference)
    ensures multiset(ForeignKeyDiffs(table, current, baseline))[d]
            == multiset(ColumnKeys(table, d.name, SortedKeys(current, d.name), SortedKeys(baseline, d.name)))[d]
  {
    hide Flat, Grouped, SortedKeys, SortedGroups, AllKeys, ColumnKeys, Tagged, Distinct;
    var c, b := SortedGroups(Grouped(current.foreignKeys)), SortedGroups(Grouped(baseline.foreignKeys));
    SortedGroupsAreKeys(current, d.name);
    SortedGroupsAreKeys(baseline, d.name);
    AllKeysMeaning(c, b);
    ForeignKeysTagged(table, c, b);
    FlatCount(FromForeignKeys(table, c, b), NameTag(), AllKeys(c, b), d);
    if d.name !in AllKeys(c, b) {
      NothingToPair(table, d.name);
    }
  }

  lemma NothingToPair(table: string, column: string)
    ensures ColumnKeys(table, column, [], []) == []
  {
  }

  function KindOf(t: Dict<Table>, key: string): Option<string> {
    if key in t.at then Some(t.at[key].kind) else None
  }

  function KindHere(key: string, current: Option<string>, baseline: Option<string>): seq<Difference> {
    if current.Some? && baseline.None? then [RelationDiff(key, current.value, Added)]
    else if current.None? && baseline.Some? then [RelationDiff(key, baseline.value, Missing)]
    else if current != baseline then [Difference(key, RelationPart, "", Changed, baseline.value, current.value)]
    else []
  }

  /** What is listed for one part under one name of one table. */
  function Here(lower: string -> string, current: Dict<Table>, baseline: Dict<Table>,
                key: string, part: Part, name: string): seq<Difference>
  {
    if part == RelationPart then
      if name == "" then KindHere(key, KindOf(current, key), KindOf(baseline, key)) else []
    else if key !in current.at || key !in baseline.at then []
    else
      var c, b := current.at[key], baseline.at[key];
      match part
      case ColumnPart => NamedAt(key, ColumnPart, ColumnItems(lower, c), ColumnItems(lower, b), name)
      case IndexPart => NamedAt(key, IndexPart, IndexItems(c), IndexItems(b), name)
      case ForeignKeyPart => ColumnKeys(key, name, SortedKeys(c, name), SortedKeys(b, name))
      case RelationPart => []
  }

  /** Tables filed under their own key. */
  ghost predicate Keyed(t: Dict<Table>) {
    Proper(t) && forall k :: k in t.at ==> TableKey(t.at[k]) == k
  }

  lemma {:induction false} TablesAreKeyed(tables: seq<Table>)
    ensures Keyed(Tables(tables))
  {
    if tables != [] {
      var last := |tables| - 1;
      TablesAreKeyed(tables[..last]);
      var pairs := seq(|tables|, i requires 0 <= i < |tables| => (TableKey(tables[i]), tables[i]));
      var before := tables[..last];
      assert pairs[..last] == seq(|before|, i requires 0 <= i < |before| => (TableKey(before[i]), before[i]));
    }
  }

  lemma CountOfPart(ds: seq<Difference>, part: Part, d: Difference)
    requires OfPart(ds, part) && d.part != part
    ensures multiset(ds)[d] == 0
  {
    assert d !in ds;
  }

  lemma TableCount(lower: string -> string, current: Table, baseline: Table, d: Difference)
    ensures multiset(TableDiffs(lower, current, baseline))[d]
            == match d.part
               case RelationPart => multiset(KindDiff(TableKey(current), current, baseline))[d]
               case ColumnPart =>
                 multiset(NamedAt(TableKey(current), ColumnPart, ColumnItems(lower, current), ColumnItems(lower, baseline), d.name))[d]
               case IndexPart =>
                 multiset(NamedAt(TableKey(current), IndexPart, IndexItems(current), IndexItems(baseline), d.name))[d]
               case ForeignKeyPart =>
                 multiset(ColumnKeys(TableKey(current), d.name, SortedKeys(current, d.name), SortedKeys(baseline, d.name)))[d]
  {
    hide NamedDiffs, ForeignKeyDiffs, KindDiff, ColumnItems, IndexItems, NamedAt, ColumnKeys, SortedKeys, OfPart;
    var key := TableKey(current);
    var columns := NamedDiffs(key, ColumnPart, ColumnItems(lower, current), ColumnItems(lower, baseline));
    var indexes := NamedDiffs(key, IndexPart, IndexItems(current), IndexItems(baseline));
    var keys := ForeignKeyDiffs(key, current, baseline);
    PartsOfTable(lower, current, baseline);
    ItemsAreProper(lower, current);
    ItemsAreProper(lower, baseline);
    NamedCount(key, ColumnPart, ColumnItems(lower, current), ColumnItems(lower, baseline), d);
    NamedCount(key, IndexPart, IndexItems(current), IndexItems(baseline), d);
    ForeignKeyCount(key, current, baseline, d);
    if d.part != RelationPart { CountOfPart(KindDiff(key, current, baseline), RelationPart, d); }
    if d.part != ColumnPart { CountOfPart(columns, ColumnPart, d); }
    if d.part != IndexPart { CountOfPart(indexes, IndexPart, d); }
    if d.part != ForeignKeyPart { CountOfPart(keys, ForeignKeyPart, d); }
  }

  ghost predicate OfTable(ds: seq<Difference>, key: string) {
    forall d :: d in ds ==> d.tableKey == key
  }

  lemma {:induction false} FlatOfTable(f: string -> seq<Difference>, keys: seq<string>, key: string)
    requires forall k :: OfTable(f(k), key)
    ensures OfTable(Flat(f, keys), key)
  {
    if keys != [] {
      FlatOfTable(f, keys[..|keys| - 1], key);
      assert OfTable(f(keys[|keys| - 1]), key);
    }
  }

  lemma TableDiffsOfTable(lower: string -> string, current: Table, baseline: Table)
    ensures OfTable(TableDiffs(lower, current, baseline), TableKey(current))
  {
    hide Flat, Unmatched, SortBy, Grouped, ColumnItems, IndexItems, SortedGroups, AllKeys;
    var key := TableKey(current);
    NamedOfTable(key, ColumnPart, ColumnItems(lower, current), ColumnItems(lower, baseline));
    NamedOfTable(key, IndexPart, IndexItems(current), IndexItems(baseline));
    ForeignKeysOfTable(key, current, baseline);
    hide NamedDiffs, ForeignKeyDiffs;
  }

  lemma NamedOfTable(table: string, part: Part, current: Dict<Item>, baseline: Dict<Item>)
    ensures OfTable(NamedDiffs(table, part, current, baseline), table)
  {
    hide Flat;
    FlatOfTable(FromCurrent(table, part, current, baseline), current.keys, table);
    FlatOfTable(FromBaseline(table, part, current, baseline), baseline.keys, table);
  }

  lemma ForeignKeysOfTable(table: string, current: Table, baseline: Table)
    ensures OfTable(ForeignKeyDiffs(table, current, baseline), table)
  {
    hide Flat, Unmatched, SortedGroups, Grouped, AllKeys;
    var c, b := SortedGroups(Grouped(current.foreignKeys)), SortedGroups(Grouped(baseline.foreignKeys));
    FlatOfTable(FromForeignKeys(table, c, b), AllKeys(c, b), table);
  }

  lemma DifferencesOfCount(lower: string -> string, current: Dict<Table>, baseline: Dict<Table>, d: Difference)
    requires Keyed(current) && Keyed(baseline)
    ensures multiset(Differences(lower, current, baseline))[d]
            == multiset(DifferencesOf(lower, current, baseline, d.tableKey))[d]
  {
    hide Flat, TableDiffs;
    var tag := TableTag();
    var f, g := FromCurrentTable(lower, current, baseline), FromBaselineTable(current, baseline);
    FoundUnderItsKey(lower, current, baseline);
    FlatCount(f, tag, current.keys, d);
    FlatCount(g, tag, baseline.keys, d);
  }

  lemma FoundUnderItsKey(lower: string -> string, current: Dict<Table>, baseline: Dict<Table>)
    requires Keyed(current) && Keyed(baseline)
    ensures forall k, x :: x in FromCurrentTable(lower, current, baseline)(k) ==> TableTag()(x) == k
  {
    hide TableDiffs;
    forall k, x | x in FromCurrentTable(lower, current, baseline)(k)
      ensures TableTag()(x) == k
    {
      if k in current.at && k in baseline.at {
        TableDiffsOfTable(lower, current.at[k], baseline.at[k]);
      }
    }
  }

  /** A difference is listed as often as it is found under its own table, part and name. */
  lemma ListedWhereFound(lower: string -> string, current: Dict<Table>, baseline: Dict<Table>, d: Difference)
    requires Keyed(current) && Keyed(baseline)
    ensures multiset(Differences(lower, current, baseline))[d]
            == multiset(Here(lower, current, baseline, d.tableKey, d.part, d.name))[d]
  {
    hide Differences, DifferencesOf, Here;
    DifferencesOfCount(lower, current, baseline, d);
    if d.tableKey in current.at && d.tableKey in baseline.at {
      FoundInBoth(lower, current, baseline, d);
    } else {
      FoundInOne(lower, current, baseline, d);
    }
  }

  lemma FoundInOne(lower: string -> string, current: Dict<Table>, baseline: Dict<Table>, d: Difference)
    requires d.tableKey !in current.at || d.tableKey !in baseline.at
    ensures multiset(DifferencesOf(lower, current, baseline, d.tableKey))[d]
            == multiset(Here(lower, current, baseline, d.tableKey, d.part, d.name))[d]
  {
    hide TableDiffs;
    var key := d.tableKey;
    var kinds := KindHere(key, KindOf(current, key), KindOf(baseline, key));
    assert DifferencesOf(lower, current, baseline, key) == kinds;
    assert d in kinds ==> d.part == RelationPart && d.name == "";
  }

  lemma FoundInBoth(lower: string -> string, current: Dict<Table>, baseline: Dict<Table>, d: Difference)
    requires Keyed(current) && d.tableKey in current.at && d.tableKey in baseline.at
    ensures multiset(DifferencesOf(lower, current, baseline, d.tableKey))[d]
            == multiset(Here(lower, current, baseline, d.tableKey, d.part, d.name))[d]
  {
    hide TableDiffs, NamedAt, ColumnKeys, ColumnItems, IndexItems, SortedKeys;
    var key := d.tableKey;
    var c, b := current.at[key], baseline.at[key];
    TableCount(lower, c, b, d);
    assert DifferencesOf(lower, current, baseline, key) == TableDiffs(lower, c, b);
    if d.part == RelationPart {
      assert d in KindDiff(key, c, b) ==> d.name == "";
      assert KindHere(key, KindOf(current, key), KindOf(baseline, key)) == KindDiff(key, c, b);
    }
  }

  /** And what is found there carries that table, part and name. */
  lemma FoundWhereListed(lower: string -> string, current: Dict<Table>, baseline: Dict<Table>,
                         key: string, part: Part, name: string)
    ensures forall d :: d in Here(lower, current, baseline, key, part, name) ==>
              d.tableKey == key && d.part == part && d.name == name
  {
    hide Unmatched, SortedKeys, ColumnItems, IndexItems;
  }

  // ---- Nothing is listed exactly when the catalogs agree -----------------------------------------------------------

  ghost predicate SameItems(a: Dict<Item>, b: Dict<Item>) {
    a.at.Keys == b.at.Keys && forall k :: k in a.at && k in b.at ==> a.at[k].signature == b.at[k].signature
  }

  /** Same kind, same columns with equal signatures, same indexes, and for every column the same
      foreign keys, each as often. */
  ghost predicate TablesAgree(lower: string -> string, a: Table, b: Table) {
    && a.kind == b.kind
    && SameItems(ColumnItems(lower, a), ColumnItems(lower, b))
    && SameItems(IndexItems(a), IndexItems(b))
    && forall column :: multiset(KeysOf(a.foreignKeys, column)) == multiset(KeysOf(b.foreignKeys, column))
  }

  ghost predicate CatalogsAgree(lower: string -> string, a: Dict<Table>, b: Dict<Table>) {
    a.at.Keys == b.at.Keys && forall k :: k in a.at && k in b.at ==> TablesAgree(lower, a.at[k], b.at[k])
  }

  /** Equal signatures mean equal types up to case and surrounding blanks, and equal flags. */
  lemma SignatureMeaning(lower: string -> string, a: Column, b: Column)
    ensures ColumnSignature(lower, a) == ColumnSignature(lower, b)
            <==> lower(Trim(a.dataType)) == lower(Trim(b.dataType)) && a.nullable == b.nullable && a.pk == b.pk
  {
    hide Trim;
    var s, t := ColumnSignature(lower, a), ColumnSignature(lower, b);
    if s == t {
      assert s[|s| - 3] == (if a.pk then '|' else '-') && t[|t| - 3] == (if b.pk then '|' else '-');
      var m, n := if a.pk then |s| - 3 else |s| - 6, if b.pk then |t| - 3 else |t| - 6;
      assert s[m - 5] == (if a.nullable then '|' else '-') && t[n - 5] == (if b.nullable then '|' else '-');
      var x, y := lower(Trim(a.dataType)), lower(Trim(b.dataType));
      assert s[..|x|] == x && t[..|y|] == y;
    }
  }

  lemma NamedNothing(table: string, part: Part, a: Dict<Item>, b: Dict<Item>)
    ensures (forall name :: NamedAt(table, part, a, b, name) == []) <==> SameItems(a, b)
  {
    if forall name :: NamedAt(table, part, a, b, name) == [] {
      forall k ensures k in a.at <==> k in b.at {
        assert NamedAt(table, part, a, b, k) == [];
      }
      forall k | k in a.at && k in b.at ensures a.at[k].signature == b.at[k].signature {
        assert NamedAt(table, part, a, b, k) == [];
      }
    }
  }

  lemma NothingLeft(a: multiset<string>, b: multiset<string>)
    requires a - b == multiset{} && b - a == multiset{}
    ensures a == b
  {
    forall x ensures a[x] == b[x] {
      assert (a - b)[x] == 0 && (b - a)[x] == 0;
    }
  }

  lemma EmptyBag(xs: seq<string>)
    ensures xs == [] <==> multiset(xs) == multiset{}
  {
    assert |multiset(xs)| == |xs|;
  }

  /** Foreign keys of one column are listed unless the two multisets are equal. */
  lemma KeysNothing(table: string, column: string, a: seq<string>, b: seq<string>)
    ensures ColumnKeys(table, column, a, b) == [] <==> multiset(a) == multiset(b)
  {
    hide Unmatched;
    if |a| == 1 && |b| == 1 && a[0] != b[0] {
      assert a == [a[0]] && b == [b[0]];
      assert multiset(a)[a[0]] == 1 && multiset(b)[a[0]] == 0;
    } else {
      var u, v := Unmatched(a, b), Unmatched(b, a);
      UnmatchedMeaning(a, b);
      UnmatchedMeaning(b, a);
      EmptyBag(u);
      EmptyBag(v);
      assert |ColumnKeys(table, column, a, b)| == |u| + |v|;
      if u == [] && v == [] {
        NothingLeft(multiset(a), multiset(b));
      }
    }
  }

  ghost predicate NothingHere(lower: string -> string, a: Dict<Table>, b: Dict<Table>, key: string) {
    forall part, name :: Here(lower, a, b, key, part, name) == []
  }

  lemma TableNothing(lower: string -> string, a: Dict<Table>, b: Dict<Table>, key: string)
    ensures NothingHere(lower, a, b, key) <==>
            && (key in a.at <==> key in b.at)
            && (key in a.at && key in b.at ==> TablesAgree(lower, a.at[key], b.at[key]))
  {
    hide NamedAt, ColumnKeys, ColumnItems, IndexItems, KeysOf, SortedKeys, SameItems;
    var kind := Here(lower, a, b, key, RelationPart, "");
    if key in a.at && key in b.at {
      var s, t := a.at[key], b.at[key];
      NamedNothing(key, ColumnPart, ColumnItems(lower, s), ColumnItems(lower, t));
      NamedNothing(key, IndexPart, IndexItems(s), IndexItems(t));
      forall column ensures ColumnKeys(key, column, SortedKeys(s, column), SortedKeys(t, column)) == []
                            <==> multiset(KeysOf(s.foreignKeys, column)) == multiset(KeysOf(t.foreignKeys, column))
      {
        SortedKeysPermute(s, column);
        SortedKeysPermute(t, column);
        KeysNothing(key, column, SortedKeys(s, column), SortedKeys(t, column));
      }
      if NothingHere(lower, a, b, key) {
        forall name ensures NamedAt(key, ColumnPart, ColumnItems(lower, s), ColumnItems(lower, t), name) == []
                    ensures NamedAt(key, IndexPart, IndexItems(s), IndexItems(t), name) == []
                    ensures ColumnKeys(key, name, SortedKeys(s, name), SortedKeys(t, name)) == []
        {
          assert Here(lower, a, b, key, ColumnPart, name) == [];
          assert Here(lower, a, b, key, IndexPart, name) == [];
          assert Here(lower, a, b, key, ForeignKeyPart, name) == [];
        }
      }
    }
  }

  lemma SortedKeysPermute(t: Table, column: string)
    ensures multiset(SortedKeys(t, column)) == multiset(KeysOf(t.foreignKeys, column))
  {
    SortPermutes(CompareText, KeysOf(t.foreignKeys, column));
  }

  lemma EmptyWhenNothing(lower: string -> string, a: Dict<Table>, b: Dict<Table>)
    requires Keyed(a) && Keyed(b)
    ensures Differences(lower, a, b) == [] <==> forall key :: NothingHere(lower, a, b, key)
  {
    hide Differences, Here;
    var ds := Differences(lower, a, b);
    if ds == [] {
      forall key, part, name ensures Here(lower, a, b, key, part, name) == [] {
        var here := Here(lower, a, b, key, part, name);
        FoundWhereListed(lower, a, b, key, part, name);
        forall d: Difference ensures multiset(here)[d] == 0 {
          if d.tableKey == key && d.part == part && d.name == name {
            ListedWhereFound(lower, a, b, d);
          } else {
            assert d !in here;
          }
        }
        assert |here| == |multiset(here)|;
        assert multiset(here) == multiset{};
      }
    } else {
      var d := ds[0];
      ListedWhereFound(lower, a, b, d);
      assert multiset(ds)[d] > 0;
      assert Here(lower, a, b, d.tableKey, d.part, d.name) != [];
      assert !NothingHere(lower, a, b, d.tableKey);
    }
  }

  /** The total is zero exactly when the catalogs agree. */
  lemma TotalIsZeroExactly(lower: string -> string, currentTables: seq<Table>, baselineTables: seq<Table>)
    ensures var a, b := Tables(currentTables), Tables(baselineTables);
            |Differences(lower, a, b)| == 0 <==> CatalogsAgree(lower, a, b)
  {
    hide Differences, TablesAgree, NothingHere, Tables;
    var a, b := Tables(currentTables), Tables(baselineTables);
    TablesAreKeyed(currentTables);
    TablesAreKeyed(baselineTables);
    EmptyWhenNothing(lower, a, b);
    forall key ensures NothingHere(lower, a, b, key) <==>
                       && (key in a.at <==> key in b.at)
                       && (key in a.at && key in b.at ==> TablesAgree(lower, a.at[key], b.at[key]))
    {
      TableNothing(lower, a, b, key);
    }
  }

  // ---- Swapping the catalogs -----------------------------------------------------------------------------------------

  /** The same difference seen from the other side. */
  function Flip(d: Difference): Difference {
    d.(status := match d.status case Added => Missing case Missing => Added case Changed => Changed,
       baselineValue := d.targetValue, targetValue := d.baselineValue)
  }

  lemma FlipTwice(d: Difference)
    ensures Flip(Flip(d)) == d
  {
  }

  lemma {:induction false} FlippedCount(ds: seq<Difference>, d: Difference)
    ensures multiset(Map(Flip, ds))[d] == multiset(ds)[Flip(d)]
  {
    hide Flip;
    if ds != [] {
      FlippedCount(ds[1..], d);
      FlipTwice(d);
      FlipTwice(ds[0]);
      CountOfFirst(ds, Flip(d));
      assert Map(Flip, ds)[1..] == Map(Flip, ds[1..]);
      CountOfFirst(Map(Flip, ds), d);
    }
  }

  lemma CountOfFirst(ds: seq<Difference>, d: Difference)
    requires ds != []
    ensures multiset(ds)[d] == (if ds[0] == d then 1 else 0) + multiset(ds[1..])[d]
  {
    assert ds == [ds[0]] + ds[1..];
  }

  lemma {:induction false} FlippedEach(table: string, column: string, values: seq<string>)
    ensures Map(Flip, Each(table, column, Added, values)) == Each(table, column, Missing, values)
    ensures Map(Flip, Each(table, column, Missing, values)) == Each(table, column, Added, values)
  {
    hide Map;
  }

  lemma MapOfConcat(a: seq<Difference>, b: seq<Difference>)
    ensures Map(Flip, a + b) == Map(Flip, a) + Map(Flip, b)
  {
    hide Map;
  }

  lemma FlippedKeys(table: string, column: string, a: seq<string>, b: seq<string>)
    ensures multiset(Map(Flip, ColumnKeys(table, column, a, b))) == multiset(ColumnKeys(table, column, b, a))
  {
    hide Unmatched, Each;
    if |a| == 1 && |b| == 1 && a[0] != b[0] {
      assert Map(Flip, ColumnKeys(table, column, a, b)) == ColumnKeys(table, column, b, a);
    } else {
      hide Map;
      var u, v := Unmatched(a, b), Unmatched(b, a);
      MapOfConcat(Each(table, column, Added, u), Each(table, column, Missing, v));
      FlippedEach(table, column, u);
      FlippedEach(table, column, v);
    }
  }

  lemma FlippedHere(lower: string -> string, a: Dict<Table>, b: Dict<Table>, key: string, part: Part, name: string)
    ensures multiset(Map(Flip, Here(lower, a, b, key, part, name))) == multiset(Here(lower, b, a, key, part, name))
  {
    hide ColumnKeys, ColumnItems, IndexItems, SortedKeys;
    if part == ForeignKeyPart && key in a.at && key in b.at {
      FlippedKeys(key, name, SortedKeys(a.at[key], name), SortedKeys(b.at[key], name));
    } else {
      FlippedSequence(lower, a, b, key, part, name);
    }
  }

  lemma FlippedSequence(lower: string -> string, a: Dict<Table>, b: Dict<Table>, key: string, part: Part, name: string)
    requires !(part == ForeignKeyPart && key in a.at && key in b.at)
    ensures Map(Flip, Here(lower, a, b, key, part, name)) == Here(lower, b, a, key, part, name)
  {
    hide Map, ColumnItems, IndexItems;
  }

  /** Swapping the catalogs turns added into missing and back, keeps changed, and swaps the shown
      values; nothing else. */
  lemma SwappingFlips(lower: string -> string, currentTables: seq<Table>, baselineTables: seq<Table>)
    ensures var a, b := Tables(currentTables), Tables(baselineTables);
            multiset(Map(Flip, Differences(lower, a, b))) == multiset(Differences(lower, b, a))
  {
    hide Differences, Here, Map, Tables;
    var a, b := Tables(currentTables), Tables(baselineTables);
    TablesAreKeyed(currentTables);
    TablesAreKeyed(baselineTables);
    var flipped, swapped := Map(Flip, Differences(lower, a, b)), Differences(lower, b, a);
    forall d ensures multiset(flipped)[d] == multiset(swapped)[d] {
      FlippedCount(Differences(lower, a, b), d);
      ListedWhereFound(lower, a, b, Flip(d));
      FlippedCount(Here(lower, a, b, d.tableKey, d.part, d.name), d);
      FlippedHere(lower, a, b, d.tableKey, d.part, d.name);
      ListedWhereFound(lower, b, a, d);
    }
  }

  // ---- Applying the differences to the baseline ------------------------------------------------------------------

  function Those(ds: seq<Difference>, p: Difference -> bool): seq<Difference> {
    if ds == [] then [] else (if p(ds[0]) then [ds[0]] else []) + Those(ds[1..], p)
  }

  lemma {:induction false} ThoseCount(ds: seq<Difference>, p: Difference -> bool, d: Difference)
    ensures multiset(Those(ds, p))[d] == if p(d) then multiset(ds)[d] else 0
  {
    if ds != [] {
      ThoseCount(ds[1..], p, d);
      assert ds == [ds[0]] + ds[1..];
    }
  }

  function Matching(key: string, part: Part, name: string): Difference -> bool {
    (d: Difference) => d.tableKey == key && d.part == part && d.name == name
  }

  /** In whatever order the differences are listed, those of one table, part and name are the same. */
  lemma SelectedAre(lower: string -> string, a: Dict<Table>, b: Dict<Table>, objects: seq<Difference>,
                    key: string, part: Part, name: string)
    requires Keyed(a) && Keyed(b) && multiset(objects) == multiset(Differences(lower, a, b))
    ensures multiset(Those(objects, Matching(key, part, name))) == multiset(Here(lower, a, b, key, part, name))
  {
    hide Differences, Here, Those;
    var selected, here := Those(objects, Matching(key, part, name)), Here(lower, a, b, key, part, name);
    FoundWhereListed(lower, a, b, key, part, name);
    forall d ensures multiset(selected)[d] == multiset(here)[d] {
      ThoseCount(objects, Matching(key, part, name), d);
      if Matching(key, part, name)(d) {
        ListedWhereFound(lower, a, b, d);
      } else {
        assert d !in here;
        assert multiset(here)[d] == 0;
      }
    }
  }

  /** What a name stands for after the listed differences are applied to what it stood for before. */
  function After(objects: seq<Difference>, key: string, part: Part, name: string, before: Option<string>): Option<string> {
    var ds := Those(objects, Matching(key, part, name));
    if ds == [] then before
    else if ds[0].status == Missing then None
    else Some(ds[0].targetValue)
  }

  function Shown(items: Dict<Item>, name: string): Option<string> {
    if name in items.at then Some(items.at[name].shown) else None
  }

  lemma OneSelected(lower: string -> string, a: Dict<Table>, b: Dict<Table>, objects: seq<Difference>,
                    key: string, part: Part, name: string)
    requires Keyed(a) && Keyed(b) && multiset(objects) == multiset(Differences(lower, a, b))
    requires |Here(lower, a, b, key, part, name)| <= 1
    ensures Those(objects, Matching(key, part, name)) == Here(lower, a, b, key, part, name)
  {
    hide Differences, Here, Those;
    SelectedAre(lower, a, b, objects, key, part, name);
    var selected, here := Those(objects, Matching(key, part, name)), Here(lower, a, b, key, part, name);
    assert |selected| == |multiset(selected)| == |multiset(here)| == |here|;
    if |here| == 1 {
      assert here[0] in multiset(selected);
    }
  }

  /** Tables come, go and change kind as the target says. */
  lemma ApplyingGivesKinds(lower: string -> string, a: Dict<Table>, b: Dict<Table>, objects: seq<Difference>, key: string)
    requires Keyed(a) && Keyed(b) && multiset(objects) == multiset(Differences(lower, a, b))
    ensures After(objects, key, RelationPart, "", KindOf(b, key)) == KindOf(a, key)
  {
    hide Differences, Those, Keyed;
    OneSelected(lower, a, b, objects, key, RelationPart, "");
  }

  lemma AfterNamed(objects: seq<Difference>, table: string, part: Part, current: Dict<Item>, baseline: Dict<Item>, name: string)
    requires Those(objects, Matching(table, part, name)) == NamedAt(table, part, current, baseline, name)
    ensures var after := After(objects, table, part, name, Shown(baseline, name));
            after == Shown(current, name)
            || (after == Shown(baseline, name) && name in current.at && name in baseline.at
                && current.at[name].signature == baseline.at[name].signature)
  {
    hide Those;
  }

  /** In a table of both catalogs, every index becomes the target's, and every column the target's
      up to the case and the surrounding blanks of its type. */
  lemma ApplyingGivesTarget(lower: string -> string, a: Dict<Table>, b: Dict<Table>, objects: seq<Difference>,
                            key: string, name: string)
    requires Keyed(a) && Keyed(b) && multiset(objects) == multiset(Differences(lower, a, b))
    requires key in a.at && key in b.at
    ensures After(objects, key, IndexPart, name, Shown(IndexItems(b.at[key]), name)) == Shown(IndexItems(a.at[key]), name)
    ensures var target, base := ColumnItems(lower, a.at[key]), ColumnItems(lower, b.at[key]);
            var after := After(objects, key, ColumnPart, name, Shown(base, name));
            after == Shown(target, name)
            || (after == Shown(base, name) && name in target.at && name in base.at
                && target.at[name].signature == base.at[name].signature)
  {
    hide Differences, Those, Keyed, ColumnItems, IndexItems, NamedAt, After;
    var c, d := a.at[key], b.at[key];
    AtMostOne(key, IndexPart, IndexItems(c), IndexItems(d), name);
    AtMostOne(key, ColumnPart, ColumnItems(lower, c), ColumnItems(lower, d), name);
    OneSelected(lower, a, b, objects, key, IndexPart, name);
    OneSelected(lower, a, b, objects, key, ColumnPart, name);
    AfterNamed(objects, key, IndexPart, IndexItems(c), IndexItems(d), name);
    AfterNamed(objects, key, ColumnPart, ColumnItems(lower, c), ColumnItems(lower, d), name);
    SignaturesAreShown(c, name);
    SignaturesAreShown(d, name);
  }

  lemma AtMostOne(table: string, part: Part, current: Dict<Item>, baseline: Dict<Item>, name: string)
    ensures |NamedAt(table, part, current, baseline, name)| <= 1
  {
  }

  lemma SignaturesAreShown(t: Table, name: string)
    ensures name in IndexItems(t).at ==> IndexItems(t).at[name].signature == IndexItems(t).at[name].shown
  {
    hide IndexValue, DictOf;
    var pairs := seq(|t.indexes|, i requires 0 <= i < |t.indexes| =>
      (t.indexes[i].name, Item(IndexValue(t.indexes[i]), IndexValue(t.indexes[i]))));
    assert IndexItems(t) == DictOf(pairs);
    if name in DictOf(pairs).at {
      var i := ValueOfPair(pairs, name);
    }
  }

  /** A map's values are those of its pairs. */
  lemma {:induction false} ValueOfPair<V>(pairs: seq<(string, V)>, k: string) returns (i: nat)
    requires k in DictOf(pairs).at
    ensures i < |pairs| && pairs[i].0 == k && DictOf(pairs).at[k] == pairs[i].1
  {
    var last := |pairs| - 1;
    if pairs[last].0 == k {
      i := last;
    } else {
      i := ValueOfPair(pairs[..last], k);
    }
  }

  // ---- Foreign keys are applied as multisets -----------------------------------------------------------------------

  function Lost(key: string, column: string): Difference -> bool {
    (d: Difference) => d.tableKey == key && d.part == ForeignKeyPart && d.name == column && d.status != Added
  }

  function Gained(key: string, column: string): Difference -> bool {
    (d: Difference) => d.tableKey == key && d.part == ForeignKeyPart && d.name == column && d.status != Missing
  }

  function BaselineValue(): Difference -> string {
    (d: Difference) => d.baselineValue
  }

  function TargetValue(): Difference -> string {
    (d: Difference) => d.targetValue
  }

  /** A column's foreign keys after the listed differences are taken away and put in. */
  function AfterKeys(objects: seq<Difference>, key: string, column: string, before: multiset<string>): multiset<string> {
    before - multiset(Map(BaselineValue(), Those(objects, Lost(key, column))))
    + multiset(Map(TargetValue(), Those(objects, Gained(key, column))))
  }

  lemma SameThose(xs: seq<Difference>, ys: seq<Difference>, p: Difference -> bool, f: Difference -> string)
    requires forall d :: p(d) ==> multiset(xs)[d] == multiset(ys)[d]
    ensures multiset(Map(f, Those(xs, p))) == multiset(Map(f, Those(ys, p)))
  {
    hide Those, Map;
    var a, b := Those(xs, p), Those(ys, p);
    forall d ensures multiset(a)[d] == multiset(b)[d] {
      ThoseCount(xs, p, d);
      ThoseCount(ys, p, d);
    }
    assert multiset(a) == multiset(b);
    var same := (d: Difference) => d;
    assert Map(same, a) == a && Map(same, b) == b;
    SameBags(same, f, a, b);
  }

  lemma ThoseOfFirst(a: seq<Difference>, b: seq<Difference>, p: Difference -> bool)
    requires a != []
    ensures Those(a + b, p) == (if p(a[0]) then [a[0]] else []) + Those(a[1..] + b, p)
  {
    assert (a + b)[1..] == a[1..] + b && (a + b)[0] == a[0];
  }

  lemma {:induction false} ThoseOfConcat(a: seq<Difference>, b: seq<Difference>, p: Difference -> bool)
    ensures Those(a + b, p) == Those(a, p) + Those(b, p)
  {
    if a == [] {
      assert a + b == b;
    } else {
      ThoseOfFirst(a, b, p);
      ThoseOfFirst(a, [], p);
      assert a + [] == a && a[1..] + [] == a[1..];
      ThoseOfConcat(a[1..], b, p);
      hide Those;
      var head := if p(a[0]) then [a[0]] else [];
      assert head + (Those(a[1..], p) + Those(b, p)) == (head + Those(a[1..], p)) + Those(b, p);
    }
  }

  lemma {:induction false} AllOrNone(ds: seq<Difference>, p: Difference -> bool)
    ensures (forall d :: d in ds ==> p(d)) ==> Those(ds, p) == ds
    ensures (forall d :: d in ds ==> !p(d)) ==> Those(ds, p) == []
  {
    if ds != [] {
      AllOrNone(ds[1..], p);
      assert ds == [ds[0]] + ds[1..];
    }
  }

  lemma ValuesOfEach(table: string, column: string, values: seq<string>)
    ensures Map(BaselineValue(), Each(table, column, Missing, values)) == values
    ensures Map(TargetValue(), Each(table, column, Added, values)) == values
  {
    hide Map;
  }

  lemma AppliedHere(table: string, column: string, a: seq<string>, b: seq<string>)
    ensures AfterKeys(ColumnKeys(table, column, a, b), table, column, multiset(b)) == multiset(a)
  {
    hide Unmatched, Map, Those, AfterKeys, Each;
    if |a| == 1 && |b| == 1 && a[0] != b[0] {
      AppliedChange(table, column, a[0], b[0]);
      assert a == [a[0]] && b == [b[0]];
    } else {
      AppliedPairs(table, column, Unmatched(a, b), Unmatched(b, a), multiset(b));
      UnmatchedMeaning(a, b);
      UnmatchedMeaning(b, a);
      PairedOff(multiset(a), multiset(b));
    }
  }

  lemma AppliedChange(table: string, column: string, x: string, y: string)
    ensures AfterKeys([Difference(table, ForeignKeyPart, column, Changed, y, x)], table, column, multiset{y}) == multiset{x}
  {
    hide Map, Those;
    var ds := [Difference(table, ForeignKeyPart, column, Changed, y, x)];
    AllOrNone(ds, Lost(table, column));
    AllOrNone(ds, Gained(table, column));
    assert Map(BaselineValue(), ds) == [y] && Map(TargetValue(), ds) == [x];
  }

  lemma AppliedPairs(table: string, column: string, u: seq<string>, v: seq<string>, before: multiset<string>)
    ensures AfterKeys(Each(table, column, Added, u) + Each(table, column, Missing, v), table, column, before)
            == before - multiset(v) + multiset(u)
  {
    hide Map, Those;
    var added, missing := Each(table, column, Added, u), Each(table, column, Missing, v);
    LostAndGained(table, column, added, missing);
    ValuesOfEach(table, column, u);
    ValuesOfEach(table, column, v);
  }

  lemma LostAndGained(table: string, column: string, added: seq<Difference>, missing: seq<Difference>)
    requires forall d :: d in added ==> Gained(table, column)(d) && !Lost(table, column)(d)
    requires forall d :: d in missing ==> Lost(table, column)(d) && !Gained(table, column)(d)
    ensures Those(added + missing, Lost(table, column)) == missing
    ensures Those(added + missing, Gained(table, column)) == added
  {
    hide Those, Lost, Gained;
    ThoseOfConcat(added, missing, Lost(table, column));
    ThoseOfConcat(added, missing, Gained(table, column));
    AllOrNone(added, Lost(table, column));
    AllOrNone(added, Gained(table, column));
    AllOrNone(missing, Lost(table, column));
    AllOrNone(missing, Gained(table, column));
  }

  lemma PairedOff(a: multiset<string>, b: multiset<string>)
    ensures b - (b - a) + (a - b) == a
  {
  }

  /** In a table of both catalogs, the foreign keys of every column become the target's, each as often. */
  lemma ApplyingGivesForeignKeys(lower: string -> string, a: Dict<Table>, b: Dict<Table>, objects: seq<Difference>,
                                 key: string, column: string)
    requires Keyed(a) && Keyed(b) && multiset(objects) == multiset(Differences(lower, a, b))
    requires key in a.at && key in b.at
    ensures AfterKeys(objects, key, column, multiset(KeysOf(b.at[key].foreignKeys, column)))
            == multiset(KeysOf(a.at[key].foreignKeys, column))
  {
    hide Differences, Keyed, Those, Map, ColumnKeys, SortedKeys, KeysOf;
    var s, t := SortedKeys(a.at[key], column), SortedKeys(b.at[key], column);
    SortedKeysPermute(a.at[key], column);
    SortedKeysPermute(b.at[key], column);
    var here := ColumnKeys(key, column, s, t);
    forall d: Difference | d.tableKey == key && d.part == ForeignKeyPart && d.name == column
      ensures multiset(objects)[d] == multiset(here)[d]
    {
      ListedWhereFound(lower, a, b, d);
    }
    SameThose(objects, here, Lost(key, column), BaselineValue());
    SameThose(objects, here, Gained(key, column), TargetValue());
    AppliedHere(key, column, s, t);
  }

  // ---- What the list leaves out -----------------------------------------------------------------------------------

  /** Of a table that is only in the target its kind is listed and nothing else: whatever columns,
      indexes and foreign keys it has, the list is the same, so applying it cannot rebuild them. */
  lemma AddedTableHidesItsParts(lower: string -> string, a: Dict<Table>, b: Dict<Table>, key: string, t: Table)
    requires Keyed(a) && Keyed(b) && key in a.at && key !in b.at
    requires TableKey(t) == key && t.kind == a.at[key].kind
    ensures multiset(Differences(lower, a.(at := a.at[key := t]), b)) == multiset(Differences(lower, a, b))
  {
    hide Differences;
    var a' := a.(at := a.at[key := t]);
    assert a'.at.Keys == a.at.Keys;
    forall d ensures multiset(Differences(lower, a', b))[d] == multiset(Differences(lower, a, b))[d] {
      ListedWhereFound(lower, a, b, d);
      ListedWhereFound(lower, a', b, d);
      SameHere(lower, a, b, key, t, d);
    }
  }

  lemma SameHere(lower: string -> string, a: Dict<Table>, b: Dict<Table>, key: string, t: Table, d: Difference)
    requires key in a.at && key !in b.at && t.kind == a.at[key].kind
    ensures Here(lower, a.(at := a.at[key := t]), b, d.tableKey, d.part, d.name)
            == Here(lower, a, b, d.tableKey, d.part, d.name)
  {
    hide NamedAt, ColumnKeys, SortedKeys, ColumnItems, IndexItems;
  }
}
