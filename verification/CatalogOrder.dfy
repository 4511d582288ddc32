/** The canonical order itself: what comes before what in a captured catalog, when a snapshot is
    refused, and how its fingerprint spells the digest. */
module CatalogOrder {
  import opened Wrappers
  import opened Sorting
  import opened Catalog
  import opened CatalogLaws

  // ---- Texts and references --------------------------------------------------------------------------------------

  /** The texts agree before position k, and there the first ends or has the smaller character. */
  predicate DiffersAt(a: string, b: string, k: nat) {
    && k <= |a| && k < |b| && a[..k] == b[..k]
    && (k == |a| || a[k] < b[k])
  }

  /** Lexicographic order by code point; a proper prefix comes first. */
  ghost predicate TextBefore(a: string, b: string) {
    exists k: nat :: DiffersAt(a, b, k)
  }

  lemma FirstAgrees(a: string, b: string, k: nat)
    requires k > 0 && DiffersAt(a, b, k)
    ensures a != "" && b != "" && a[0] == b[0]
  {
    assert a[..k][0] == a[0] && b[..k][0] == b[0];
  }

  lemma {:induction false} CompareTextMeans(a: string, b: string)
    ensures CompareText(a, b) < 0 <==> TextBefore(a, b)
    decreases |a|
  {
    if a == "" || b == "" || a[0] != b[0] {
      assert CompareText(a, b) < 0 ==> DiffersAt(a, b, 0);
      forall k: nat | k > 0 ensures !DiffersAt(a, b, k) {
        if DiffersAt(a, b, k) {
          FirstAgrees(a, b, k);
        }
      }
    } else {
      CompareTextMeans(a[1..], b[1..]);
      if k: nat :| DiffersAt(a[1..], b[1..], k) {
        assert a[..k + 1] == [a[0]] + a[1..][..k] && b[..k + 1] == [b[0]] + b[1..][..k];
        assert DiffersAt(a, b, k + 1);
      }
      if k: nat :| DiffersAt(a, b, k) {
        assert a[1..][..k - 1] == a[..k][1..] && b[1..][..k - 1] == b[..k][1..];
        assert DiffersAt(a[1..], b[1..], k - 1);
      }
    }
  }

  /** None comes first. */
  ghost predicate OptionBefore(a: Option<string>, b: Option<string>) {
    match (a, b)
    case (None, Some(_)) => true
    case (Some(x), Some(y)) => TextBefore(x, y)
    case _ => false
  }

  lemma OptionMeans(a: Option<string>, b: Option<string>)
    ensures CompareOptional(a, b) < 0 <==> OptionBefore(a, b)
    ensures CompareOptional(a, b) == 0 <==> a == b
  {
    hide CompareText, TextBefore;
    OptionalLaws(a, b, b);
    if a.Some? && b.Some? {
      CompareTextMeans(a.value, b.value);
    }
  }

  const OBJECT_KINDS: seq<ObjectKind> := [Table, View, MaterializedView, Routine, Sequence, Type, Trigger, Other]

  const CONSTRAINT_KINDS: seq<ConstraintKind> := [Primary, Unique, Foreign, Check]

  /** a stands before b in the list. */
  ghost predicate StandsBefore<T>(list: seq<T>, a: T, b: T) {
    exists i, j :: 0 <= i < j < |list| && list[i] == a && list[j] == b
  }

  lemma RanksMean(a: ObjectKind, b: ObjectKind)
    ensures ObjectKindRank(a) < ObjectKindRank(b) <==> StandsBefore(OBJECT_KINDS, a, b)
  {
    assert OBJECT_KINDS[ObjectKindRank(a)] == a && OBJECT_KINDS[ObjectKindRank(b)] == b;
    assert forall i :: 0 <= i < |OBJECT_KINDS| ==> ObjectKindRank(OBJECT_KINDS[i]) == i;
  }

  lemma ConstraintRanksMean(a: ConstraintKind, b: ConstraintKind)
    ensures ConstraintKindRank(a) < ConstraintKindRank(b) <==> StandsBefore(CONSTRAINT_KINDS, a, b)
    ensures ConstraintKindRank(a) == ConstraintKindRank(b) <==> a == b
  {
    assert CONSTRAINT_KINDS[ConstraintKindRank(a)] == a && CONSTRAINT_KINDS[ConstraintKindRank(b)] == b;
    assert forall i :: 0 <= i < |CONSTRAINT_KINDS| ==> ConstraintKindRank(CONSTRAINT_KINDS[i]) == i;
  }

  /** By catalog, then namespace, then name, then kind, then native id. */
  ghost predicate RefBefore(a: ObjectRef, b: ObjectRef) {
    if a.catalog != b.catalog then OptionBefore(a.catalog, b.catalog)
    else if a.namespace != b.namespace then OptionBefore(a.namespace, b.namespace)
    else if a.name != b.name then TextBefore(a.name, b.name)
    else if a.kind != b.kind then StandsBefore(OBJECT_KINDS, a.kind, b.kind)
    else OptionBefore(a.nativeId, b.nativeId)
  }

  lemma RefMeans(a: ObjectRef, b: ObjectRef)
    ensures CompareObjectRef(a, b) < 0 <==> RefBefore(a, b)
  {
    hide CompareText, CompareOptional, OptionBefore, TextBefore, StandsBefore, ObjectKindRank, OBJECT_KINDS;
    OptionMeans(a.catalog, b.catalog);
    OptionMeans(a.namespace, b.namespace);
    CompareTextMeans(a.name, b.name);
    TextOrder(a.name, b.name, b.name);
    RanksMean(a.kind, b.kind);
    RankTellsKinds(a.kind, b.kind);
    OptionMeans(a.nativeId, b.nativeId);
  }

  // ---- Collections -----------------------------------------------------------------------------------------------

  ghost predicate RefsInOrder(refs: seq<ObjectRef>) {
    forall i, j :: 0 <= i < j < |refs| ==> !RefBefore(refs[j], refs[i])
  }

  /** By name, then by comment. */
  ghost predicate NamespacesInOrder(ns: seq<Namespace>) {
    forall i, j :: 0 <= i < j < |ns| ==>
      !TextBefore(ns[j].name, ns[i].name) && (ns[i].name == ns[j].name ==> !OptionBefore(ns[j].comment, ns[i].comment))
  }

  /** By ordinal, then by name. */
  ghost predicate ColumnsInOrder(cs: seq<Column>) {
    forall i, j :: 0 <= i < j < |cs| ==>
      cs[i].ordinal <= cs[j].ordinal && (cs[i].ordinal == cs[j].ordinal ==> !TextBefore(cs[j].name, cs[i].name))
  }

  /** Primary keys, then unique, foreign and check constraints, each by name. */
  ghost predicate ConstraintsInOrder(cs: seq<Constraint>) {
    forall i, j :: 0 <= i < j < |cs| ==>
      && !StandsBefore(CONSTRAINT_KINDS, cs[j].kind, cs[i].kind)
      && (cs[i].kind == cs[j].kind ==> !TextBefore(cs[j].name, cs[i].name))
  }

  ghost predicate IndexesInOrder(xs: seq<Index>) {
    forall i, j :: 0 <= i < j < |xs| ==> !TextBefore(xs[j].name, xs[i].name)
  }

  ghost predicate RelationInOrder(r: Relation) {
    ColumnsInOrder(r.columns) && ConstraintsInOrder(r.constraints) && IndexesInOrder(r.indexes) && RefsInOrder(r.partitionChildren)
  }

  lemma SortedRefs(xs: seq<ObjectRef>)
    ensures RefsInOrder(SortBy(CompareObjectRef, xs))
  {
    hide SortBy, RefBefore, CompareObjectRef;
    ObjectRefOrder();
    SortSorts(CompareObjectRef, xs);
    var s := SortBy(CompareObjectRef, xs);
    forall i, j | 0 <= i < j < |s| ensures !RefBefore(s[j], s[i]) {
      RefOrder(s[i], s[j], s[j]);
      RefMeans(s[j], s[i]);
    }
  }

  lemma SortedNamespaces(xs: seq<Namespace>)
    ensures NamespacesInOrder(SortBy(CompareNamespace, xs))
  {
    hide SortBy, TextBefore, OptionBefore, CompareText, CompareOptional;
    NamespaceOrder();
    SortSorts(CompareNamespace, xs);
    var s := SortBy(CompareNamespace, xs);
    forall i, j | 0 <= i < j < |s|
      ensures !TextBefore(s[j].name, s[i].name) && (s[i].name == s[j].name ==> !OptionBefore(s[j].comment, s[i].comment))
    {
      TextOrder(s[i].name, s[j].name, s[j].name);
      CompareTextMeans(s[j].name, s[i].name);
      OptionalLaws(s[i].comment, s[j].comment, s[j].comment);
      OptionMeans(s[j].comment, s[i].comment);
    }
  }

  lemma SortedColumns(k: Codec, xs: seq<Column>)
    requires Faithful(k)
    ensures ColumnsInOrder(SortBy(ByColumn(k), xs))
  {
    hide SortBy, TextBefore, CompareText;
    ColumnOrder(k);
    SortSorts(ByColumn(k), xs);
    var s := SortBy(ByColumn(k), xs);
    forall i, j | 0 <= i < j < |s|
      ensures s[i].ordinal <= s[j].ordinal && (s[i].ordinal == s[j].ordinal ==> !TextBefore(s[j].name, s[i].name))
    {
      assert ByColumn(k)(s[i], s[j]) <= 0;
      TextOrder(s[i].name, s[j].name, s[j].name);
      CompareTextMeans(s[j].name, s[i].name);
    }
  }

  lemma SortedConstraints(k: Codec, xs: seq<Constraint>)
    requires Faithful(k)
    ensures ConstraintsInOrder(SortBy(ByConstraint(k), xs))
  {
    hide SortBy, TextBefore, CompareText, ConstraintKindRank, StandsBefore, CONSTRAINT_KINDS;
    ConstraintOrder(k);
    SortSorts(ByConstraint(k), xs);
    var s := SortBy(ByConstraint(k), xs);
    forall i, j | 0 <= i < j < |s|
      ensures !StandsBefore(CONSTRAINT_KINDS, s[j].kind, s[i].kind)
      ensures s[i].kind == s[j].kind ==> !TextBefore(s[j].name, s[i].name)
    {
      assert ByConstraint(k)(s[i], s[j]) <= 0;
      ConstraintRanksMean(s[j].kind, s[i].kind);
      TextOrder(s[i].name, s[j].name, s[j].name);
      CompareTextMeans(s[j].name, s[i].name);
    }
  }

  lemma SortedIndexes(k: Codec, xs: seq<Index>)
    requires Faithful(k)
    ensures IndexesInOrder(SortBy(ByIndex(k), xs))
  {
    hide SortBy, TextBefore, CompareText;
    IndexOrder(k);
    SortSorts(ByIndex(k), xs);
    var s := SortBy(ByIndex(k), xs);
    forall i, j | 0 <= i < j < |s| ensures !TextBefore(s[j].name, s[i].name) {
      assert ByIndex(k)(s[i], s[j]) <= 0;
      TextOrder(s[i].name, s[j].name, s[j].name);
      CompareTextMeans(s[j].name, s[i].name);
    }
  }

  /** Sorting by something else only within equal references leaves the references in order. */
  lemma SortedByRef<T(!new)>(cmp: (T, T) -> int, ref: T -> ObjectRef, xs: seq<T>)
    requires Ordered(cmp) && forall a, b :: cmp(a, b) <= 0 ==> CompareObjectRef(ref(a), ref(b)) <= 0
    ensures RefsInOrder(Map(ref, SortBy(cmp, xs)))
  {
    hide SortBy, Map, RefBefore, CompareObjectRef, Ordered;
    SortSorts(cmp, xs);
    var s := SortBy(cmp, xs);
    var refs := Map(ref, s);
    forall i, j | 0 <= i < j < |refs| ensures !RefBefore(refs[j], refs[i]) {
      assert cmp(s[i], s[j]) <= 0;
      RefOrder(ref(s[i]), ref(s[j]), ref(s[j]));
      RefMeans(ref(s[j]), ref(s[i]));
    }
  }

  function RefOfRelation(): Relation -> ObjectRef {
    (r: Relation) => r.ref
  }

  function RefOfRoutine(): RoutineObject -> ObjectRef {
    (r: RoutineObject) => r.ref
  }

  function RefOfObject(): DatabaseObject -> ObjectRef {
    (o: DatabaseObject) => o.ref
  }

  lemma RelationsOrdered(k: Codec)
    requires Faithful(k)
    ensures Ordered(ByRelation(k))
  {
    hide CompareText, CompareObjectRef, ByPayload, PayloadOf;
    PayloadOrder(k);
    var cmp, payload := ByRelation(k), ByPayload(k);
    forall a: Relation, b: Relation ensures cmp(a, b) == payload(PayloadOf(a), PayloadOf(b)) {
    }
    forall a: Relation, b: Relation, c: Relation | cmp(a, b) <= 0 && cmp(b, c) <= 0 ensures cmp(a, c) <= 0 {
      assert payload(PayloadOf(a), PayloadOf(b)) <= 0 && payload(PayloadOf(b), PayloadOf(c)) <= 0;
    }
  }

  lemma RelationsByRef(k: Codec)
    ensures forall a: Relation, b: Relation :: ByRelation(k)(a, b) <= 0 ==> CompareObjectRef(RefOfRelation()(a), RefOfRelation()(b)) <= 0
  {
    hide CompareText, CompareObjectRef;
    forall a: Relation, b: Relation | ByRelation(k)(a, b) <= 0
      ensures CompareObjectRef(RefOfRelation()(a), RefOfRelation()(b)) <= 0
    {
      var x, y := PayloadOf(a), PayloadOf(b);
      assert ByRelation(k)(a, b) == ByPayload(k)(x, y) == Then(CompareObjectRef(x.ref, y.ref), CompareText(k.relation(x), k.relation(y)));
      assert RefOfRelation()(a) == x.ref && RefOfRelation()(b) == y.ref;
    }
  }

  lemma SortedRelations(k: Codec, rs: seq<Relation>)
    requires Faithful(k)
    ensures forall r :: r in SortRelations(k, rs) ==> RelationInOrder(r)
  {
    hide SortBy, Map, ColumnsInOrder, ConstraintsInOrder, IndexesInOrder, RefsInOrder;
    SortedAreSorted(k, rs);
    forall r | r in SortRelations(k, rs) ensures RelationInOrder(r) {
      assert SortRelation(k, r) == r;
      SortedColumns(k, r.columns);
      SortedConstraints(k, r.constraints);
      SortedIndexes(k, r.indexes);
      SortedRefs(r.partitionChildren);
    }
  }

  /** The canonical order: namespaces by name and comment; relations, routines and other objects by their
      references; columns by ordinal and name, constraints by kind and name, indexes by name. */
  lemma CanonicalOrder(k: Codec, c: Contents)
    requires Faithful(k)
    ensures var s := Canonical(k, c);
            && NamespacesInOrder(s.namespaces)
            && RefsInOrder(Map(RefOfRelation(), s.relations)) && (forall r :: r in s.relations ==> RelationInOrder(r))
            && RefsInOrder(Map(RefOfRoutine(), s.routines)) && RefsInOrder(Map(RefOfObject(), s.otherObjects))
  {
    hide SortBy, Map, NamespacesInOrder, RelationInOrder, RefsInOrder, CompareText, CompareObjectRef, Ordered;
    SortedNamespaces(c.namespaces);
    SortedRelations(k, c.relations);
    RelationsOrdered(k);
    RelationsByRef(k);
    RoutineOrder(k);
    OtherOrder(k);
    SortedByRef(ByRelation(k), RefOfRelation(), Map(r => SortRelation(k, r), c.relations));
    SortedByRef(ByRoutine(k), RefOfRoutine(), c.routines);
    SortedByRef(ByObject(k), RefOfObject(), c.otherObjects);
  }

  // ---- Refusals --------------------------------------------------------------------------------------------------

  /** What the Unicode property White_Space covers. */
  const WHITE_SPACES: set<int> := {
    0x09, 0x0A, 0x0B, 0x0C, 0x0D, 0x20, 0x85, 0xA0, 0x1680, 0x2000, 0x2001, 0x2002, 0x2003, 0x2004, 0x2005, 0x2006,
    0x2007, 0x2008, 0x2009, 0x200A, 0x2028, 0x2029, 0x202F, 0x205F, 0x3000}

  predicate BlankName(s: string) {
    forall i :: 0 <= i < |s| ==> s[i] as int in WHITE_SPACES
  }

  /** Sixty-four digits or letters from a to f. */
  predicate HexDigest(s: string) {
    |s| == 64 && forall i :: 0 <= i < 64 ==> '0' <= s[i] <= '9' || 'a' <= s[i] <= 'f'
  }

  lemma BlankMeans(s: string)
    ensures Blank(s) <==> BlankName(s)
  {
    forall c: char ensures WhiteSpace(c) <==> c as int in WHITE_SPACES {
    }
  }

  /** Which error refuses a snapshot: a blank database name first, then a fingerprint that is no digest,
      then a digest that is not that of the canonical contents; before all of them, on the wire, any
      schema version but 2. */
  lemma RefusalsExactly(k: Codec, wire: Snapshot)
    ensures var r := New(k, wire.connectionId, wire.engine, wire.database, wire.capturedAt, wire.fingerprint, wire.contents);
            var digest := CatalogFingerprint(k, wire.engine, Canonical(k, Canonical(k, wire.contents)));
            && (r == Err(EmptyDatabase) <==> BlankName(wire.database))
            && (r == Err(Fingerprint) <==> !BlankName(wire.database) && !HexDigest(wire.fingerprint))
            && (r == Err(FingerprintMismatch) <==>
                !BlankName(wire.database) && HexDigest(wire.fingerprint) && wire.fingerprint != digest)
            && (r.Ok? ==> r.value.schemaVersion == 2 && r.value.contents == Canonical(k, wire.contents))
            && Deserialize(k, wire) == if wire.schemaVersion == 2 then r else Err(SchemaVersion(wire.schemaVersion))
  {
    hide Canonical, CatalogFingerprint, Blank, BlankName;
    BlankMeans(wire.database);
  }

  // ---- Hexadecimal -----------------------------------------------------------------------------------------------

  /** The value of a hexadecimal digit. */
  function Nibble(c: char): int {
    if '0' <= c <= '9' then c as int - 48 else if 'a' <= c <= 'f' then c as int - 87 else -1
  }

  /** Digits 2i and 2i + 1, read as a number in base 16, are byte i. */
  lemma {:induction false} HexReadsBack(bytes: seq<byte>, i: nat)
    requires i < |bytes|
    ensures |HexText(bytes)| == 2 * |bytes|
    ensures 16 * Nibble(HexText(bytes)[2 * i]) + Nibble(HexText(bytes)[2 * i + 1]) == bytes[i]
  {
    HexLength(bytes);
    var b := bytes[0];
    NibbleOfDigit(b / 16);
    NibbleOfDigit(b % 16);
    if i > 0 {
      HexReadsBack(bytes[1..], i - 1);
      assert HexText(bytes)[2..] == HexText(bytes[1..]);
      assert HexText(bytes)[2 * i] == HexText(bytes[1..])[2 * (i - 1)];
      assert HexText(bytes)[2 * i + 1] == HexText(bytes[1..])[2 * (i - 1) + 1];
    }
  }

  lemma NibbleOfDigit(n: nat)
    requires n < 16
    ensures Nibble(HEX[n]) == n
  {
  }
}
