/** What the screens make of a comparison: the tone of a table, the counts by status, and the tables
    with differences first. */
module SchemaDiffView {
  import opened Wrappers
  import opened Sorting
  import opened SchemaDiff
  import opened SchemaDiffLaws

  datatype Tone = AddedTone | MissingTone | ChangedTone | Mixed

  predicate HasStatus(ds: seq<Difference>, status: Status) {
    exists i :: 0 <= i < |ds| && ds[i].status == status
  }

  function TableDiffTone(diff: Option<TableDiff>): Option<Tone> {
    match diff
    case None => None
    case Some(d) =>
      var add, miss := HasStatus(d.objectDiffs, Added), HasStatus(d.objectDiffs, Missing);
      var change := HasStatus(d.objectDiffs, Changed);
      if d.added then Some(AddedTone)
      else if d.missing then Some(MissingTone)
      else if (add && miss) || (add && change) || (miss && change) then Some(Mixed)
      else if add then Some(AddedTone)
      else if miss then Some(MissingTone)
      else if change then Some(ChangedTone)
      else None
  }

  function DiffOf(diffs: map<string, TableDiff>, t: Table): Option<TableDiff> {
    if TableKey(t) in diffs then Some(diffs[TableKey(t)]) else None
  }

  /** A table with its position and whether it has a tone. */
  datatype Entry = Entry(table: Table, index: nat, changed: bool)

  function Entries(tables: seq<Table>, diffs: map<string, TableDiff>, from: nat): seq<Entry> {
    if tables == [] then []
    else [Entry(tables[0], from, TableDiffTone(DiffOf(diffs, tables[0])).Some?)] + Entries(tables[1..], diffs, from + 1)
  }

  function ByChange(): (Entry, Entry) -> int {
    (a: Entry, b: Entry) => Then((if b.changed then 1 else 0) - (if a.changed then 1 else 0), a.index - b.index)
  }

  function TablesOf(es: seq<Entry>): seq<Table> {
    if es == [] then [] else [es[0].table] + TablesOf(es[1..])
  }

  function OrderTables(tables: seq<Table>, diffs: Option<map<string, TableDiff>>): seq<Table> {
    match diffs
    case None => tables
    case Some(ds) => TablesOf(SortBy(ByChange(), Entries(tables, ds, 0)))
  }

  // ---- Tables with differences first -------------------------------------------------------------------------

  function Only(es: seq<Entry>, changed: bool): seq<Entry> {
    if es == [] then [] else (if es[0].changed == changed then [es[0]] else []) + Only(es[1..], changed)
  }

  ghost predicate Beyond(es: seq<Entry>, index: int) {
    forall i :: 0 <= i < |es| ==> index < es[i].index
  }

  lemma {:induction false} EntriesAfter(tables: seq<Table>, diffs: map<string, TableDiff>, from: nat)
    ensures Beyond(Entries(tables, diffs, from), from - 1)
  {
    hide TableDiffTone;
    if tables != [] {
      EntriesAfter(tables[1..], diffs, from + 1);
    }
  }

  lemma {:induction false} OnlyKeepsAfter(es: seq<Entry>, changed: bool, index: int)
    requires Beyond(es, index)
    ensures Beyond(Only(es, changed), index)
    ensures forall i :: 0 <= i < |Only(es, changed)| ==> Only(es, changed)[i].changed == changed
  {
    if es != [] {
      assert Beyond(es[1..], index);
      OnlyKeepsAfter(es[1..], changed, index);
    }
  }

  lemma {:induction false} InsertUnchanged(x: Entry, head: seq<Entry>, tail: seq<Entry>)
    requires !x.changed && (forall i :: 0 <= i < |head| ==> head[i].changed)
    requires Beyond(tail, x.index) && forall i :: 0 <= i < |tail| ==> !tail[i].changed
    ensures Insert(ByChange(), x, head + tail) == head + ([x] + tail)
  {
    if head == [] {
      assert head + tail == tail;
    } else {
      assert (head + tail)[0] == head[0] && (head + tail)[1..] == head[1..] + tail;
      InsertUnchanged(x, head[1..], tail);
      assert [head[0]] + (head[1..] + ([x] + tail)) == head + ([x] + tail);
    }
  }

  lemma InsertChanged(x: Entry, es: seq<Entry>)
    requires x.changed && Beyond(es, x.index)
    ensures Insert(ByChange(), x, es) == [x] + es
  {
  }

  lemma {:induction false} SortSeparates(tables: seq<Table>, diffs: map<string, TableDiff>, from: nat)
    ensures var es := Entries(tables, diffs, from); SortBy(ByChange(), es) == Only(es, true) + Only(es, false)
  {
    hide TableDiffTone, Insert;
    if tables != [] {
      var es := Entries(tables, diffs, from);
      var x, rest := es[0], es[1..];
      assert rest == Entries(tables[1..], diffs, from + 1);
      SortSeparates(tables[1..], diffs, from + 1);
      EntriesAfter(tables[1..], diffs, from + 1);
      OnlyKeepsAfter(rest, true, from);
      OnlyKeepsAfter(rest, false, from);
      if x.changed {
        InsertChanged(x, Only(rest, true) + Only(rest, false));
        assert [x] + (Only(rest, true) + Only(rest, false)) == ([x] + Only(rest, true)) + Only(rest, false);
      } else {
        InsertUnchanged(x, Only(rest, true), Only(rest, false));
      }
    }
  }

  /** The tables for which a difference is filed, or those for which none is, in their order. */
  function WithDiffs(tables: seq<Table>, diffs: map<string, TableDiff>, filed: bool): seq<Table> {
    if tables == [] then []
    else (if (TableKey(tables[0]) in diffs) == filed then [tables[0]] else []) + WithDiffs(tables[1..], diffs, filed)
  }

  /** A filed difference has a tone: something is listed for its table. */
  lemma FiledHasTone(diffs: map<string, TableDiff>, t: Table)
    requires TableKey(t) in diffs ==> diffs[TableKey(t)].objectDiffs != []
    ensures TableDiffTone(DiffOf(diffs, t)).Some? <==> TableKey(t) in diffs
  {
    if TableKey(t) in diffs {
      var ds := diffs[TableKey(t)].objectDiffs;
      assert ds[0].status == Added || ds[0].status == Missing || ds[0].status == Changed;
      assert HasStatus(ds, ds[0].status);
    }
  }

  lemma {:induction false} OnlyAreWithDiffs(tables: seq<Table>, diffs: map<string, TableDiff>, from: nat, changed: bool)
    requires forall k :: k in diffs ==> diffs[k].objectDiffs != []
    ensures TablesOf(Only(Entries(tables, diffs, from), changed)) == WithDiffs(tables, diffs, changed)
  {
    hide TableDiffTone, TableKey;
    if tables != [] {
      FiledHasTone(diffs, tables[0]);
      OnlyAreWithDiffs(tables[1..], diffs, from + 1, changed);
      var es := Entries(tables, diffs, from);
      assert es[1..] == Entries(tables[1..], diffs, from + 1);
      var head := if es[0].changed == changed then [es[0]] else [];
      assert Only(es, changed) == head + Only(es[1..], changed);
      TablesOfConcat(head, Only(es[1..], changed));
      assert [es[0]][1..] == [];
    }
  }

  lemma {:induction false} TablesOfConcat(a: seq<Entry>, b: seq<Entry>)
    ensures TablesOf(a + b) == TablesOf(a) + TablesOf(b)
  {
    if a == [] {
      assert a + b == b;
    } else {
      assert (a + b)[1..] == a[1..] + b && (a + b)[0] == a[0];
      TablesOfConcat(a[1..], b);
    }
  }

  /** Tables with differences come first, and both groups keep their order. A comparison files a
      table only with something listed for it. */
  lemma OrderSeparates(tables: seq<Table>, diffs: map<string, TableDiff>)
    requires forall k :: k in diffs ==> diffs[k].objectDiffs != []
    ensures OrderTables(tables, Some(diffs)) == WithDiffs(tables, diffs, true) + WithDiffs(tables, diffs, false)
  {
    hide TableDiffTone, SortBy, Only, WithDiffs;
    var es := Entries(tables, diffs, 0);
    SortSeparates(tables, diffs, 0);
    TablesOfConcat(Only(es, true), Only(es, false));
    OnlyAreWithDiffs(tables, diffs, 0, true);
    OnlyAreWithDiffs(tables, diffs, 0, false);
  }

  // ---- Counts by status ----------------------------------------------------------------------------------------

  function WithStatus(status: Status): Difference -> bool {
    (d: Difference) => d.status == status
  }

  function DiffCount(objects: seq<Difference>, status: Status): nat {
    |Those(objects, WithStatus(status))|
  }

  lemma {:induction false} CountIsSumOfParts(ds: seq<Difference>, status: Status)
    ensures DiffCount(ds, status)
            == Count(ds, RelationPart, status) + Count(ds, ColumnPart, status)
               + Count(ds, IndexPart, status) + Count(ds, ForeignKeyPart, status)
  {
    if ds == [] {
      NothingCounted();
    } else {
      CountIsSumOfParts(ds[1..], status);
      assert ds == [ds[0]] + ds[1..];
      NothingNamed();
      OneNamed([], ds[0]);
      assert [] + [ds[0]] == [ds[0]];
      hide Named;
      NamedConcat([ds[0]], ds[1..], RelationPart, status);
      NamedConcat([ds[0]], ds[1..], ColumnPart, status);
      NamedConcat([ds[0]], ds[1..], IndexPart, status);
      NamedConcat([ds[0]], ds[1..], ForeignKeyPart, status);
    }
  }

  lemma {:induction false} EveryStatusCounts(ds: seq<Difference>)
    ensures DiffCount(ds, Added) + DiffCount(ds, Missing) + DiffCount(ds, Changed) == |ds|
  {
    if ds != [] {
      EveryStatusCounts(ds[1..]);
    }
  }

  lemma ReorderingKeepsCount(xs: seq<Difference>, ys: seq<Difference>, status: Status)
    requires multiset(xs) == multiset(ys)
    ensures DiffCount(xs, status) == DiffCount(ys, status)
  {
    hide Those;
    var a, b := Those(xs, WithStatus(status)), Those(ys, WithStatus(status));
    forall d ensures multiset(a)[d] == multiset(b)[d] {
      ThoseCount(xs, WithStatus(status), d);
      ThoseCount(ys, WithStatus(status), d);
    }
    assert multiset(a) == multiset(b);
    assert |a| == |multiset(a)| && |b| == |multiset(b)|;
  }

  /** Of a comparison's objects, in display order, the three counts add up to the total, and each is
      the sum of the counts by part: tables and columns as the counters say, and a changed relation is
      a table whose kind changed. */
  lemma CountsAddUp(s: Summary, ds: seq<Difference>)
    requires multiset(s.objects) == multiset(ds) && InStep(s.(objects := ds)) && s.total == |ds|
    ensures DiffCount(s.objects, Added) + DiffCount(s.objects, Missing) + DiffCount(s.objects, Changed) == s.total
    ensures DiffCount(s.objects, Added)
            == |s.addedTables| + s.addedColumns + Count(ds, IndexPart, Added) + Count(ds, ForeignKeyPart, Added)
    ensures DiffCount(s.objects, Missing)
            == |s.missingTables| + s.missingColumns + Count(ds, IndexPart, Missing) + Count(ds, ForeignKeyPart, Missing)
    ensures DiffCount(s.objects, Changed)
            == s.changedColumns + Count(ds, RelationPart, Changed) + Count(ds, IndexPart, Changed)
               + Count(ds, ForeignKeyPart, Changed)
  {
    hide DiffCount, Count;
    ReorderingKeepsCount(s.objects, ds, Added);
    ReorderingKeepsCount(s.objects, ds, Missing);
    ReorderingKeepsCount(s.objects, ds, Changed);
    EveryStatusCounts(ds);
    CountIsSumOfParts(ds, Added);
    CountIsSumOfParts(ds, Missing);
    CountIsSumOfParts(ds, Changed);
  }

  // ---- Tone and display order ------------------------------------------------------------------------------------

  /** A table of both catalogs is mixed exactly when two of its differences have different statuses;
      otherwise it has the tone of them all, and none without differences. */
  lemma ToneMeans(d: TableDiff)
    requires !d.added && !d.missing
    ensures var ds := d.objectDiffs;
            && (TableDiffTone(Some(d)) == None <==> ds == [])
            && (TableDiffTone(Some(d)) == Some(Mixed) <==>
                exists i, j :: 0 <= i < |ds| && 0 <= j < |ds| && ds[i].status != ds[j].status)
            && (TableDiffTone(Some(d)) == Some(AddedTone) <==> ds != [] && forall i :: 0 <= i < |ds| ==> ds[i].status == Added)
            && (TableDiffTone(Some(d)) == Some(MissingTone) <==> ds != [] && forall i :: 0 <= i < |ds| ==> ds[i].status == Missing)
            && (TableDiffTone(Some(d)) == Some(ChangedTone) <==> ds != [] && forall i :: 0 <= i < |ds| ==> ds[i].status == Changed)
  {
    var ds := d.objectDiffs;
    if ds != [] {
      assert ds[0].status == Added || ds[0].status == Missing || ds[0].status == Changed;
      assert HasStatus(ds, ds[0].status);
      forall i | 0 <= i < |ds| ensures HasStatus(ds, ds[i].status) {
      }
    }
  }

  /** Where a difference is listed: under its table, or under its table and name. */
  function Where(d: Difference): string {
    match d.part
    case RelationPart => d.tableKey
    case ColumnPart => d.tableKey + "." + d.name
    case IndexPart => d.tableKey + "." + d.name
    case ForeignKeyPart => d.tableKey + "." + d.name
  }

  /** The kind a relation has, or had when it is missing. */
  function What(d: Difference): string {
    match d.part
    case ColumnPart => "column"
    case IndexPart => "index"
    case ForeignKeyPart => "foreignKey"
    case RelationPart =>
      match d.status
      case Missing => if d.baselineValue == "view" then "view" else "table"
      case _ => if d.targetValue == "view" then "view" else "table"
  }

  /** The list is shown by place and then by type, in the order of the locale. */
  lemma ShownInOrder(collate: (string, string) -> int, ds: seq<Difference>, i: nat, j: nat)
    requires Ordered(collate) && i < j < |ds|
    ensures |SortBy(Display(collate), ds)| == |ds|
    ensures var x, y := SortBy(Display(collate), ds)[i], SortBy(Display(collate), ds)[j];
            collate(Where(x), Where(y)) < 0 || (collate(Where(x), Where(y)) == 0 && collate(What(x), What(y)) <= 0)
  {
    hide SortBy, Ordered;
    SortPermutes(Display(collate), ds);
    DisplayIsOrdered(collate);
    SortSorts(Display(collate), ds);
    var x, y := SortBy(Display(collate), ds)[i], SortBy(Display(collate), ds)[j];
    assert Display(collate)(x, y) <= 0;
    ShownWords(x);
    ShownWords(y);
    assert Display(collate)(x, y) == Then(collate(Where(x), Where(y)), collate(What(x), What(y)));
  }

  lemma ShownWords(d: Difference)
    ensures Path(d) == Where(d) && ObjectType(d) == What(d)
  {
  }

  lemma DisplayIsOrdered(collate: (string, string) -> int)
    requires Ordered(collate)
    ensures Ordered(Display(collate))
  {
    hide Path, ObjectType;
    var cmp := Display(collate);
    forall a: Difference, b: Difference ensures cmp(a, b) < 0 <==> cmp(b, a) > 0 {
      assert collate(Path(a), Path(b)) < 0 <==> collate(Path(b), Path(a)) > 0;
      assert collate(Path(b), Path(a)) < 0 <==> collate(Path(a), Path(b)) > 0;
      assert collate(ObjectType(a), ObjectType(b)) < 0 <==> collate(ObjectType(b), ObjectType(a)) > 0;
    }
    forall a: Difference, b: Difference, c: Difference | cmp(a, b) <= 0 && cmp(b, c) <= 0 ensures cmp(a, c) <= 0 {
      ThenIsTransitive(collate, Path(a), Path(b), Path(c), ObjectType(a), ObjectType(b), ObjectType(c));
    }
  }

  lemma ThenIsTransitive(collate: (string, string) -> int, a: string, b: string, c: string, x: string, y: string, z: string)
    requires Ordered(collate)
    requires Then(collate(a, b), collate(x, y)) <= 0 && Then(collate(b, c), collate(y, z)) <= 0
    ensures Then(collate(a, c), collate(x, z)) <= 0
  {
    assert collate(a, b) <= 0 && collate(b, c) <= 0;
    assert collate(a, c) <= 0;
    if collate(a, c) == 0 {
      assert collate(c, a) == 0;
      assert collate(b, a) <= 0 by {
        assert collate(b, c) <= 0 && collate(c, a) <= 0;
      }
      assert collate(c, b) <= 0 by {
        assert collate(c, a) <= 0 && collate(a, b) <= 0;
      }
    }
  }
}
