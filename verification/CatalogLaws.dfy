/** The fingerprint is the schema: canonical order is idempotent and forgets exactly the order of the
    collections and the row estimates. */
module CatalogLaws {
  import opened Wrappers
  import opened Sorting
  import opened Catalog

  // ---- Every comparator is a linear order: a tie means equal -------------------------------------------------

  lemma NamespaceOrder()
    ensures Linear(CompareNamespace)
  {
    hide CompareText, CompareOptional;
    forall a, b, c
      ensures CompareNamespace(a, b) == 0 <==> a == b
      ensures CompareNamespace(a, b) < 0 <==> CompareNamespace(b, a) > 0
      ensures CompareNamespace(a, b) <= 0 && CompareNamespace(b, c) <= 0 ==> CompareNamespace(a, c) <= 0
    {
      TextOrder(a.name, b.name, c.name);
      OptionalLaws(a.comment, b.comment, c.comment);
    }
  }

  /** The laws of text comparison in every direction a chain of comparisons needs. */
  lemma TextOrder(a: string, b: string, c: string)
    ensures CompareText(a, b) == 0 <==> a == b
    ensures CompareText(b, c) == 0 <==> b == c
    ensures CompareText(a, c) == 0 <==> a == c
    ensures CompareText(a, b) < 0 <==> CompareText(b, a) > 0
    ensures CompareText(a, b) > 0 <==> CompareText(b, a) < 0
    ensures CompareText(a, b) <= 0 && CompareText(b, c) <= 0 ==> CompareText(a, c) <= 0
    ensures CompareText(a, b) <= 0 && CompareText(b, c) <= 0 && a == c ==> a == b
  {
    hide CompareText;
    TextLaws(a, b, c);
    TextLaws(b, a, c);
    TextLaws(b, c, a);
    TextLaws(a, c, b);
  }

  lemma OptionalOrder(a: Option<string>, b: Option<string>, c: Option<string>)
    ensures CompareOptional(a, b) == 0 <==> a == b
    ensures CompareOptional(b, c) == 0 <==> b == c
    ensures CompareOptional(a, c) == 0 <==> a == c
    ensures CompareOptional(a, b) < 0 <==> CompareOptional(b, a) > 0
    ensures CompareOptional(a, b) > 0 <==> CompareOptional(b, a) < 0
    ensures CompareOptional(a, b) <= 0 && CompareOptional(b, c) <= 0 ==> CompareOptional(a, c) <= 0
    ensures CompareOptional(a, b) <= 0 && CompareOptional(b, c) <= 0 && a == c ==> a == b
  {
    hide CompareOptional;
    OptionalLaws(a, b, c);
    OptionalLaws(b, a, c);
    OptionalLaws(b, c, a);
    OptionalLaws(a, c, b);
  }

  lemma RankTellsKinds(a: ObjectKind, b: ObjectKind)
    ensures ObjectKindRank(a) == ObjectKindRank(b) <==> a == b
  {
  }

  lemma RefOrder(a: ObjectRef, b: ObjectRef, c: ObjectRef)
    ensures CompareObjectRef(a, b) == 0 <==> a == b
    ensures CompareObjectRef(b, c) == 0 <==> b == c
    ensures CompareObjectRef(a, c) == 0 <==> a == c
    ensures CompareObjectRef(a, b) < 0 <==> CompareObjectRef(b, a) > 0
    ensures CompareObjectRef(a, b) > 0 <==> CompareObjectRef(b, a) < 0
    ensures CompareObjectRef(a, b) <= 0 && CompareObjectRef(b, c) <= 0 ==> CompareObjectRef(a, c) <= 0
    ensures CompareObjectRef(a, b) <= 0 && CompareObjectRef(b, c) <= 0 && a == c ==> a == b
  {
    hide CompareText, CompareOptional, ObjectKindRank;
    OptionalOrder(a.catalog, b.catalog, c.catalog);
    OptionalOrder(a.namespace, b.namespace, c.namespace);
    TextOrder(a.name, b.name, c.name);
    RankTellsKinds(a.kind, b.kind);
    RankTellsKinds(b.kind, c.kind);
    RankTellsKinds(a.kind, c.kind);
    OptionalOrder(a.nativeId, b.nativeId, c.nativeId);
  }

  lemma ObjectRefOrder()
    ensures Linear(CompareObjectRef)
  {
    hide CompareObjectRef;
    forall a, b, c
      ensures CompareObjectRef(a, b) == 0 <==> a == b
      ensures CompareObjectRef(a, b) < 0 <==> CompareObjectRef(b, a) > 0
      ensures CompareObjectRef(a, b) <= 0 && CompareObjectRef(b, c) <= 0 ==> CompareObjectRef(a, c) <= 0
    {
      RefOrder(a, b, c);
    }
  }

  lemma ColumnOrder(k: Codec)
    requires Faithful(k)
    ensures Linear(ByColumn(k))
  {
    hide CompareText;
    var cmp := ByColumn(k);
    forall a: Column, b: Column, c: Column
      ensures cmp(a, b) == 0 <==> a == b
      ensures cmp(a, b) < 0 <==> cmp(b, a) > 0
      ensures cmp(a, b) <= 0 && cmp(b, c) <= 0 ==> cmp(a, c) <= 0
    {
      TextOrder(a.name, b.name, c.name);
      TextOrder(k.column(a), k.column(b), k.column(c));
    }
  }

  lemma ConstraintOrder(k: Codec)
    requires Faithful(k)
    ensures Linear(ByConstraint(k))
  {
    hide CompareText, ConstraintKindRank;
    var cmp := ByConstraint(k);
    forall a: Constraint, b: Constraint, c: Constraint
      ensures cmp(a, b) == 0 <==> a == b
      ensures cmp(a, b) < 0 <==> cmp(b, a) > 0
      ensures cmp(a, b) <= 0 && cmp(b, c) <= 0 ==> cmp(a, c) <= 0
    {
      TextOrder(a.name, b.name, c.name);
      TextOrder(k.constraint(a), k.constraint(b), k.constraint(c));
    }
  }

  lemma IndexOrder(k: Codec)
    requires Faithful(k)
    ensures Linear(ByIndex(k))
  {
    hide CompareText;
    var cmp := ByIndex(k);
    forall a: Index, b: Index, c: Index
      ensures cmp(a, b) == 0 <==> a == b
      ensures cmp(a, b) < 0 <==> cmp(b, a) > 0
      ensures cmp(a, b) <= 0 && cmp(b, c) <= 0 ==> cmp(a, c) <= 0
    {
      TextOrder(a.name, b.name, c.name);
      TextOrder(k.index(a), k.index(b), k.index(c));
    }
  }

  lemma PayloadOrder(k: Codec)
    requires Faithful(k)
    ensures Linear(ByPayload(k))
  {
    hide CompareText, CompareObjectRef;
    var cmp := ByPayload(k);
    forall a: RelationPayload, b: RelationPayload, c: RelationPayload
      ensures cmp(a, b) == 0 <==> a == b
      ensures cmp(a, b) < 0 <==> cmp(b, a) > 0
      ensures cmp(a, b) <= 0 && cmp(b, c) <= 0 ==> cmp(a, c) <= 0
    {
      RefOrder(a.ref, b.ref, c.ref);
      TextOrder(k.relation(a), k.relation(b), k.relation(c));
    }
  }

  lemma RoutineOrder(k: Codec)
    requires Faithful(k)
    ensures Linear(ByRoutine(k))
  {
    hide CompareText, CompareObjectRef;
    var cmp := ByRoutine(k);
    forall a: RoutineObject, b: RoutineObject, c: RoutineObject
      ensures cmp(a, b) == 0 <==> a == b
      ensures cmp(a, b) < 0 <==> cmp(b, a) > 0
      ensures cmp(a, b) <= 0 && cmp(b, c) <= 0 ==> cmp(a, c) <= 0
    {
      RefOrder(a.ref, b.ref, c.ref);
      TextOrder(k.routine(a), k.routine(b), k.routine(c));
    }
  }

  lemma OtherOrder(k: Codec)
    requires Faithful(k)
    ensures Linear(ByObject(k))
  {
    hide CompareText, CompareObjectRef;
    var cmp := ByObject(k);
    forall a: DatabaseObject, b: DatabaseObject, c: DatabaseObject
      ensures cmp(a, b) == 0 <==> a == b
      ensures cmp(a, b) < 0 <==> cmp(b, a) > 0
      ensures cmp(a, b) <= 0 && cmp(b, c) <= 0 ==> cmp(a, c) <= 0
    {
      RefOrder(a.ref, b.ref, c.ref);
      TextOrder(k.otherObject(a), k.otherObject(b), k.otherObject(c));
    }
  }

  // ---- The schema, without order and without row estimates ----------------------------------------------------------

  datatype Shape = Shape(ref: ObjectRef, comment: Option<string>, partitionParent: Option<ObjectRef>,
                         partitionChildren: multiset<ObjectRef>, columns: multiset<Column>,
                         constraints: multiset<Constraint>, indexes: multiset<Index>)

  datatype Schema = Schema(namespaces: multiset<Namespace>, relations: multiset<Shape>,
                           routines: multiset<RoutineObject>, otherObjects: multiset<DatabaseObject>)

  function ShapeOf(r: Relation): Shape {
    Shape(r.ref, r.comment, r.partitionParent, multiset(r.partitionChildren), multiset(r.columns),
          multiset(r.constraints), multiset(r.indexes))
  }

  /** What a catalog says about the schema, whatever order it says it in. */
  function SchemaOf(c: Contents): Schema {
    Schema(multiset(c.namespaces), multiset(Map(ShapeOf, c.relations)), multiset(c.routines), multiset(c.otherObjects))
  }

  function CanonicalPayload(k: Codec, r: Relation): RelationPayload {
    PayloadOf(SortRelation(k, r))
  }

  /** Two relations have the same canonical payload exactly when they have the same shape. */
  lemma PayloadIsShape(k: Codec, r: Relation, s: Relation)
    requires Faithful(k)
    ensures CanonicalPayload(k, r) == CanonicalPayload(k, s) <==> ShapeOf(r) == ShapeOf(s)
  {
    hide SortBy, Linear, CompareObjectRef, ByColumn, ByConstraint, ByIndex;
    ObjectRefOrder();
    ColumnOrder(k);
    ConstraintOrder(k);
    IndexOrder(k);
    SortIsCanonical(CompareObjectRef, r.partitionChildren, s.partitionChildren);
    SortIsCanonical(ByColumn(k), r.columns, s.columns);
    SortIsCanonical(ByConstraint(k), r.constraints, s.constraints);
    SortIsCanonical(ByIndex(k), r.indexes, s.indexes);
  }

  /** The payloads of the sorted relations are the sorted canonical payloads. */
  lemma RelationPayloads(k: Codec, rs: seq<Relation>)
    ensures Map(PayloadOf, SortRelations(k, rs)) == SortBy(ByPayload(k), Map(r => CanonicalPayload(k, r), rs))
  {
    hide SortBy, SortRelation;
    var sorted := Map(r => SortRelation(k, r), rs);
    MapOfSort(PayloadOf, ByPayload(k), sorted);
    MapTwice(k, rs);
  }

  lemma {:induction false} MapTwice(k: Codec, rs: seq<Relation>)
    ensures Map(PayloadOf, Map(r => SortRelation(k, r), rs)) == Map(r => CanonicalPayload(k, r), rs)
  {
    hide Map, SortRelation;
  }

  lemma RelationsAreShapes(k: Codec, rs: seq<Relation>, ss: seq<Relation>)
    requires Faithful(k)
    ensures Map(PayloadOf, SortRelations(k, rs)) == Map(PayloadOf, SortRelations(k, ss))
            <==> multiset(Map(ShapeOf, rs)) == multiset(Map(ShapeOf, ss))
  {
    hide SortBy, Linear, ShapeOf, CanonicalPayload, SortRelations, Map, ByPayload;
    var payload := (r: Relation) => CanonicalPayload(k, r);
    RelationPayloads(k, rs);
    RelationPayloads(k, ss);
    PayloadOrder(k);
    SortIsCanonical(ByPayload(k), Map(payload, rs), Map(payload, ss));
    forall a, b | a in rs && b in ss ensures payload(a) == payload(b) <==> ShapeOf(a) == ShapeOf(b) {
      PayloadIsShape(k, a, b);
    }
    if multiset(Map(payload, rs)) == multiset(Map(payload, ss)) {
      SameBags(payload, ShapeOf, rs, ss);
    }
    if multiset(Map(ShapeOf, rs)) == multiset(Map(ShapeOf, ss)) {
      SameBags(ShapeOf, payload, rs, ss);
    }
  }

  /** The canonical payload of a catalog is its schema. */
  lemma PayloadIsSchema(k: Codec, e: DatabaseEngine, f: DatabaseEngine, c: Contents, d: Contents)
    requires Faithful(k)
    ensures PayloadOfAll(e, Canonical(k, c)) == PayloadOfAll(f, Canonical(k, d)) <==> e == f && SchemaOf(c) == SchemaOf(d)
  {
    hide SortBy, Linear, ShapeOf, Map, SortRelations, CompareNamespace, ByRoutine, ByObject;
    NamespaceOrder();
    RoutineOrder(k);
    OtherOrder(k);
    SortIsCanonical(CompareNamespace, c.namespaces, d.namespaces);
    SortIsCanonical(ByRoutine(k), c.routines, d.routines);
    SortIsCanonical(ByObject(k), c.otherObjects, d.otherObjects);
    RelationsAreShapes(k, c.relations, d.relations);
  }

  lemma {:induction false} HexTellsBytes(a: seq<byte>, b: seq<byte>)
    requires HexText(a) == HexText(b)
    ensures a == b
  {
    HexLength(a);
    HexLength(b);
    if a != [] && b != [] {
      var x, y := HexText(a), HexText(b);
      DigitsDiffer(a[0] / 16, b[0] / 16);
      DigitsDiffer(a[0] % 16, b[0] % 16);
      assert x[0] == HEX[a[0] / 16] && x[1] == HEX[a[0] % 16];
      assert y[0] == HEX[b[0] / 16] && y[1] == HEX[b[0] % 16];
      assert x[2..] == HexText(a[1..]) && y[2..] == HexText(b[1..]);
      HexTellsBytes(a[1..], b[1..]);
      assert a == [a[0]] + a[1..] && b == [b[0]] + b[1..];
    }
  }

  lemma DigitsDiffer(i: nat, j: nat)
    requires i < 16 && j < 16
    ensures HEX[i] == HEX[j] ==> i == j
    ensures HexDigit(HEX[i])
  {
  }

  lemma {:induction false} HexLength(bytes: seq<byte>)
    ensures |HexText(bytes)| == 2 * |bytes|
    ensures forall i :: 0 <= i < |HexText(bytes)| ==> HexDigit(HexText(bytes)[i])
  {
    if bytes != [] {
      HexLength(bytes[1..]);
      DigitsDiffer(bytes[0] / 16, 0);
      DigitsDiffer(bytes[0] % 16, 0);
    }
  }

  /** Any digest in lower-case hexadecimal is a well-formed fingerprint. */
  lemma DigestsAreFingerprints(d: Digest)
    ensures ValidFingerprint(HexText(d))
  {
    HexLength(d);
  }

  /** The digest maps the two catalogs' different payload texts to the same value. */
  predicate Collide(k: Codec, e: DatabaseEngine, f: DatabaseEngine, c: Contents, d: Contents) {
    var x, y := k.payload(PayloadOfAll(e, Canonical(k, c))), k.payload(PayloadOfAll(f, Canonical(k, d)));
    x != y && k.sha256(x) == k.sha256(y)
  }

  /** The fingerprint is the engine and the schema, up to a collision of the digest: two catalogs
      that differ only in order and row estimates always share it, and no others do without one. */
  lemma FingerprintIsSchema(k: Codec, e: DatabaseEngine, f: DatabaseEngine, c: Contents, d: Contents)
    requires Faithful(k)
    ensures CatalogFingerprint(k, e, Canonical(k, c)) == CatalogFingerprint(k, f, Canonical(k, d))
            <==> (e == f && SchemaOf(c) == SchemaOf(d)) || Collide(k, e, f, c, d)
    ensures !(e == f && SchemaOf(c) == SchemaOf(d) && Collide(k, e, f, c, d))
  {
    hide Canonical, SchemaOf, PayloadOfAll, HexText;
    PayloadIsSchema(k, e, f, c, d);
    var x, y := k.payload(PayloadOfAll(e, Canonical(k, c))), k.payload(PayloadOfAll(f, Canonical(k, d)));
    if HexText(k.sha256(x)) == HexText(k.sha256(y)) {
      HexTellsBytes(k.sha256(x), k.sha256(y));
    }
  }

  // ---- Idempotence -----------------------------------------------------------------------------------------------------

  lemma SortTwice<T(!new)>(cmp: (T, T) -> int, xs: seq<T>)
    requires Linear(cmp)
    ensures SortBy(cmp, SortBy(cmp, xs)) == SortBy(cmp, xs)
  {
    SortSorts(cmp, xs);
    SortedIsFixed(cmp, SortBy(cmp, xs));
  }

  lemma SortRelationTwice(k: Codec, r: Relation)
    requires Faithful(k)
    ensures SortRelation(k, SortRelation(k, r)) == SortRelation(k, r)
  {
    hide SortBy, Linear;
    ObjectRefOrder();
    ColumnOrder(k);
    ConstraintOrder(k);
    IndexOrder(k);
    SortTwice(CompareObjectRef, r.partitionChildren);
    SortTwice(ByColumn(k), r.columns);
    SortTwice(ByConstraint(k), r.constraints);
    SortTwice(ByIndex(k), r.indexes);
  }

  /** Sorting by payload leaves relations in payload order untouched, row estimates included. */
  lemma {:induction false} PayloadSortedIsFixed(k: Codec, rs: seq<Relation>)
    requires Sorted(ByPayload(k), Map(PayloadOf, rs))
    ensures SortBy(ByRelation(k), rs) == rs
  {
    hide Map, ByPayload;
    assert Sorted(ByRelation(k), rs) by {
      var ps := Map(PayloadOf, rs);
      forall i, j | 0 <= i < j < |rs| ensures ByRelation(k)(rs[i], rs[j]) <= 0 {
        assert ByPayload(k)(ps[i], ps[j]) <= 0;
      }
    }
    SortedIsFixed(ByRelation(k), rs);
  }

  lemma {:induction false} SortedRelationsStaySorted(k: Codec, rs: seq<Relation>)
    requires Faithful(k)
    ensures SortRelations(k, SortRelations(k, rs)) == SortRelations(k, rs)
  {
    hide Ordered, ByPayload, SortBy;
    var once := SortRelations(k, rs);
    SortedAreSorted(k, rs);
    assert Map(r => SortRelation(k, r), once) == once;
    RelationPayloads(k, rs);
    PayloadOrder(k);
    SortSorts(ByPayload(k), Map(r => CanonicalPayload(k, r), rs));
    PayloadSortedIsFixed(k, once);
  }

  lemma SortedAreSorted(k: Codec, rs: seq<Relation>)
    requires Faithful(k)
    ensures forall r :: r in SortRelations(k, rs) ==> SortRelation(k, r) == r
  {
    hide SortRelation, SortBy, Map;
    var sorted := Map(r => SortRelation(k, r), rs);
    SortPermutes(ByRelation(k), sorted);
    forall r | r in SortRelations(k, rs) ensures SortRelation(k, r) == r {
      assert r in multiset(SortBy(ByRelation(k), sorted));
      assert r in multiset(sorted);
      var i :| 0 <= i < |sorted| && sorted[i] == r;
      SortRelationTwice(k, rs[i]);
    }
  }

  /** Canonical contents are a fixed point. */
  lemma CanonicalIsIdempotent(k: Codec, c: Contents)
    requires Faithful(k)
    ensures Canonical(k, Canonical(k, c)) == Canonical(k, c)
  {
    hide SortBy, Linear, SortRelations;
    NamespaceOrder();
    RoutineOrder(k);
    OtherOrder(k);
    SortTwice(CompareNamespace, c.namespaces);
    SortTwice(ByRoutine(k), c.routines);
    SortTwice(ByObject(k), c.otherObjects);
    SortedRelationsStaySorted(k, c.relations);
  }

  // ---- Snapshots -----------------------------------------------------------------------------------------------------------

  /** What every way of making a snapshot guarantees. */
  ghost predicate Sound(k: Codec, s: Snapshot) {
    && ValidationError(k, s) == None
    && Canonical(k, s.contents) == s.contents
  }

  /** Capturing succeeds exactly for a database name that is not blank, and its snapshot is sound. */
  lemma CaptureIsSound(k: Codec, id: int, e: DatabaseEngine, database: string, at: int, c: Contents)
    requires Faithful(k)
    ensures var r := Capture(k, id, e, database, at, c);
            && (r.Ok? <==> !Blank(database))
            && (r.Ok? ==> Sound(k, r.value) && r.value.contents == Canonical(k, c))
  {
    hide Canonical, ValidFingerprint, HexText;
    CanonicalIsIdempotent(k, c);
    DigestsAreFingerprints(k.sha256(k.payload(PayloadOfAll(e, Canonical(k, c)))));
  }

  /** A fingerprint from elsewhere is accepted exactly when it is the one capturing would give. */
  lemma NewAcceptsCapturedFingerprint(k: Codec, id: int, e: DatabaseEngine, database: string, at: int,
                                      fingerprint: string, c: Contents)
    requires Faithful(k)
    ensures var r := New(k, id, e, database, at, fingerprint, c);
            var captured := Capture(k, id, e, database, at, c);
            && (r.Ok? <==> captured.Ok? && captured.value.fingerprint == fingerprint)
            && (r.Ok? ==> Sound(k, r.value) && r == captured)
  {
    hide Canonical, ValidFingerprint, HexText;
    CanonicalIsIdempotent(k, c);
    DigestsAreFingerprints(k.sha256(k.payload(PayloadOfAll(e, Canonical(k, c)))));
  }

  /** Whatever a deserializer lets in is sound; what a snapshot serializes to is let in unchanged. */
  lemma WireIsFaithful(k: Codec, wire: Snapshot)
    requires Faithful(k)
    ensures Deserialize(k, wire).Ok? ==> Sound(k, Deserialize(k, wire).value)
    ensures Sound(k, wire) ==> Deserialize(k, wire) == Ok(wire)
  {
    hide Canonical, ValidFingerprint, HexText;
    NewAcceptsCapturedFingerprint(k, wire.connectionId, wire.engine, wire.database, wire.capturedAt, wire.fingerprint,
                                  wire.contents);
  }

  /** Two wire forms that say the same schema in different orders, or with other row estimates,
      are both let in or both refused, and what is let in has the same canonical schema content. */
  lemma PermutedWiresAgree(k: Codec, wire: Snapshot, other: Contents)
    requires Faithful(k) && SchemaOf(wire.contents) == SchemaOf(other)
    ensures var r, s := Deserialize(k, wire), Deserialize(k, wire.(contents := other));
            if r.Ok? then s.Ok? && PayloadOfAll(wire.engine, r.value.contents) == PayloadOfAll(wire.engine, s.value.contents)
            else r == s
  {
    hide Canonical, SchemaOf, ValidFingerprint, HexText;
    PayloadIsSchema(k, wire.engine, wire.engine, wire.contents, other);
    CanonicalIsIdempotent(k, wire.contents);
    CanonicalIsIdempotent(k, other);
  }
}
