/** Catalog snapshots: the canonical order of every collection, the fingerprint, and the three ways
    a snapshot comes into being. JSON printing and SHA-256 are functions the model is given. */
module Catalog {
  import opened Wrappers
  import opened Sorting

  const CATALOG_SCHEMA_VERSION := 2

  datatype DatabaseEngine = Postgres | Mysql | Sqlite | Mongodb

  datatype Namespace = Namespace(name: string, comment: Option<string>)

  datatype ObjectKind = Table | View | MaterializedView | Routine | Sequence | Type | Trigger | Other

  datatype ObjectRef = ObjectRef(catalog: Option<string>, namespace: Option<string>, name: string,
                                 kind: ObjectKind, nativeId: Option<string>)

  datatype TypeFamily =
    | Boolean | Integer | Decimal | Float | Text | Binary | Json | Date | Time | Timestamp | Uuid | Array | Document
    | OtherType

  datatype Column = Column(name: string, ordinal: nat, nativeType: string, typeFamily: TypeFamily,
                           length: Option<nat>, precision: Option<nat>, scale: Option<nat>, nullable: bool,
                           defaultExpression: Option<string>, generatedExpression: Option<string>,
                           identity: bool, autoIncrement: bool, collation: Option<string>,
                           comment: Option<string>, sensitivity: Option<string>)

  datatype ConstraintKind = Primary | Unique | Foreign | Check

  datatype Constraint = Constraint(name: string, kind: ConstraintKind, columns: seq<string>,
                                   referencedRelation: Option<ObjectRef>, referencedColumns: seq<string>,
                                   checkExpression: Option<string>, updateAction: Option<string>,
                                   deleteAction: Option<string>, deferrable: bool, validated: bool)

  datatype SortDirection = Asc | Desc

  datatype IndexKey = IndexKey(column: Option<string>, expression: Option<string>, direction: Option<SortDirection>)

  datatype Index = Index(name: string, accessMethod: Option<string>, keys: seq<IndexKey>, includedColumns: seq<string>,
                         condition: Option<string>, unique: bool, valid: bool)

  datatype Relation = Relation(ref: ObjectRef, comment: Option<string>, rowEstimate: Option<int>,
                               partitionParent: Option<ObjectRef>, partitionChildren: seq<ObjectRef>,
                               columns: seq<Column>, constraints: seq<Constraint>, indexes: seq<Index>)

  datatype RoutineObject = RoutineObject(ref: ObjectRef, nativeKind: Option<string>, arguments: seq<string>,
                                         returnType: Option<string>, language: Option<string>,
                                         comment: Option<string>, detail: Option<string>, parent: Option<string>)

  datatype DatabaseObject = DatabaseObject(ref: ObjectRef, nativeKind: Option<string>, comment: Option<string>,
                                           detail: Option<string>, parent: Option<string>)

  /** What of a relation enters the fingerprint: everything but the row estimate. */
  datatype RelationPayload = RelationPayload(ref: ObjectRef, comment: Option<string>,
                                             partitionParent: Option<ObjectRef>, partitionChildren: seq<ObjectRef>,
                                             columns: seq<Column>, constraints: seq<Constraint>, indexes: seq<Index>)

  datatype Payload = Payload(schemaVersion: nat, engine: DatabaseEngine, namespaces: seq<Namespace>,
                             relations: seq<RelationPayload>, routines: seq<RoutineObject>,
                             otherObjects: seq<DatabaseObject>)

  datatype Contents = Contents(namespaces: seq<Namespace>, relations: seq<Relation>,
                               routines: seq<RoutineObject>, otherObjects: seq<DatabaseObject>)

  type byte = b: int | 0 <= b < 256

  type Digest = d: seq<byte> | |d| == 32 witness seq(32, _ => 0)

  /** The JSON text of each serialized type, and the digest of a text. */
  datatype Codec = Codec(column: Column -> string, constraint: Constraint -> string, index: Index -> string,
                         relation: RelationPayload -> string, routine: RoutineObject -> string,
                         otherObject: DatabaseObject -> string, payload: Payload -> string,
                         sha256: string -> Digest)

  ghost predicate Injective<S(!new), T(!new)>(f: S -> T) {
    forall a, b :: f(a) == f(b) ==> a == b
  }

  /** Different values print differently, as JSON texts that parse back must. Nothing is assumed of
      the digest. */
  ghost predicate Faithful(k: Codec) {
    && Injective(k.column) && Injective(k.constraint) && Injective(k.index) && Injective(k.relation)
    && Injective(k.routine) && Injective(k.otherObject) && Injective(k.payload)
  }

  // ---- Comparators -----------------------------------------------------------------------------------------------

  function ObjectKindRank(kind: ObjectKind): nat {
    match kind
    case Table => 0
    case View => 1
    case MaterializedView => 2
    case Routine => 3
    case Sequence => 4
    case Type => 5
    case Trigger => 6
    case Other => 7
  }

  function ConstraintKindRank(kind: ConstraintKind): nat {
    match kind
    case Primary => 0
    case Unique => 1
    case Foreign => 2
    case Check => 3
  }

  function CompareNamespace(l: Namespace, r: Namespace): int {
    Then(CompareText(l.name, r.name), CompareOptional(l.comment, r.comment))
  }

  function CompareObjectRef(l: ObjectRef, r: ObjectRef): int {
    Then(CompareOptional(l.catalog, r.catalog),
    Then(CompareOptional(l.namespace, r.namespace),
    Then(CompareText(l.name, r.name),
    Then(ObjectKindRank(l.kind) - ObjectKindRank(r.kind),
    CompareOptional(l.nativeId, r.nativeId)))))
  }

  function ByColumn(k: Codec): (Column, Column) -> int {
    (l: Column, r: Column) =>
      Then(l.ordinal - r.ordinal, Then(CompareText(l.name, r.name), CompareText(k.column(l), k.column(r))))
  }

  function ByConstraint(k: Codec): (Constraint, Constraint) -> int {
    (l: Constraint, r: Constraint) =>
      Then(ConstraintKindRank(l.kind) - ConstraintKindRank(r.kind),
      Then(CompareText(l.name, r.name), CompareText(k.constraint(l), k.constraint(r))))
  }

  function ByIndex(k: Codec): (Index, Index) -> int {
    (l: Index, r: Index) => Then(CompareText(l.name, r.name), CompareText(k.index(l), k.index(r)))
  }

  function ByPayload(k: Codec): (RelationPayload, RelationPayload) -> int {
    (l: RelationPayload, r: RelationPayload) =>
      Then(CompareObjectRef(l.ref, r.ref), CompareText(k.relation(l), k.relation(r)))
  }

  function ByRoutine(k: Codec): (RoutineObject, RoutineObject) -> int {
    (l: RoutineObject, r: RoutineObject) =>
      Then(CompareObjectRef(l.ref, r.ref), CompareText(k.routine(l), k.routine(r)))
  }

  function ByObject(k: Codec): (DatabaseObject, DatabaseObject) -> int {
    (l: DatabaseObject, r: DatabaseObject) =>
      Then(CompareObjectRef(l.ref, r.ref), CompareText(k.otherObject(l), k.otherObject(r)))
  }

  function PayloadOf(r: Relation): RelationPayload {
    RelationPayload(r.ref, r.comment, r.partitionParent, r.partitionChildren, r.columns, r.constraints, r.indexes)
  }

  /** Relations are compared by their payloads, so a row estimate cannot reorder them. */
  function ByRelation(k: Codec): (Relation, Relation) -> int {
    Through(PayloadOf, ByPayload(k))
  }

  // ---- Canonical contents ---------------------------------------------------------------------------------------------

  function SortRelation(k: Codec, r: Relation): Relation {
    r.(columns := SortBy(ByColumn(k), r.columns),
       constraints := SortBy(ByConstraint(k), r.constraints),
       indexes := SortBy(ByIndex(k), r.indexes),
       partitionChildren := SortBy(CompareObjectRef, r.partitionChildren))
  }

  function SortRelations(k: Codec, rs: seq<Relation>): seq<Relation> {
    SortBy(ByRelation(k), Map(r => SortRelation(k, r), rs))
  }

  function Canonical(k: Codec, c: Contents): Contents {
    Contents(SortBy(CompareNamespace, c.namespaces), SortRelations(k, c.relations),
             SortBy(ByRoutine(k), c.routines), SortBy(ByObject(k), c.otherObjects))
  }

  /** The contents while they are being sorted in place. */
  class CatalogContents {
    var namespaces: seq<Namespace>
    var relations: seq<Relation>
    var routines: seq<RoutineObject>
    var otherObjects: seq<DatabaseObject>

    constructor (c: Contents)
      ensures Value() == c
    {
      namespaces, relations, routines, otherObjects := c.namespaces, c.relations, c.routines, c.otherObjects;
    }

    function Value(): Contents
      reads this
    {
      Contents(namespaces, relations, routines, otherObjects)
    }

    method Canonicalize(k: Codec)
      modifies this
      ensures Value() == Canonical(k, old(Value()))
    {
      hide SortBy, Sorting.Map;
      namespaces := SortBy(CompareNamespace, namespaces);
      ghost var before := relations;
      var i := 0;
      while i < |relations|
        invariant 0 <= i <= |relations| == |before|
        invariant namespaces == SortBy(CompareNamespace, old(namespaces))
        invariant routines == old(routines) && otherObjects == old(otherObjects)
        invariant forall j :: 0 <= j < |before| ==> relations[j] == if j < i then SortRelation(k, before[j]) else before[j]
      {
        var r := relations[i];
        r := r.(columns := SortBy(ByColumn(k), r.columns));
        r := r.(constraints := SortBy(ByConstraint(k), r.constraints));
        r := r.(indexes := SortBy(ByIndex(k), r.indexes));
        r := r.(partitionChildren := SortBy(CompareObjectRef, r.partitionChildren));
        relations := relations[i := r];
        i := i + 1;
      }
      assert relations == Sorting.Map(r => SortRelation(k, r), before);
      relations := SortBy(ByRelation(k), relations);
      routines := SortBy(ByRoutine(k), routines);
      otherObjects := SortBy(ByObject(k), otherObjects);
    }
  }

  // ---- The fingerprint --------------------------------------------------------------------------------------------------

  const HEX := "0123456789abcdef"

  function HexText(bytes: seq<byte>): string {
    if bytes == [] then "" else [HEX[bytes[0] / 16], HEX[bytes[0] % 16]] + HexText(bytes[1..])
  }

  method LowerHex(bytes: seq<byte>) returns (output: string)
    ensures output == HexText(bytes)
  {
    output := "";
    for i := 0 to |bytes|
      invariant output + HexText(bytes[i..]) == HexText(bytes)
    {
      assert bytes[i..][1..] == bytes[i + 1..];
      output := output + [HEX[bytes[i] / 16]];
      output := output + [HEX[bytes[i] % 16]];
    }
  }

  predicate HexDigit(c: char) {
    '0' <= c <= '9' || 'a' <= c <= 'f'
  }

  predicate ValidFingerprint(fingerprint: string) {
    |fingerprint| == 64 && forall i :: 0 <= i < |fingerprint| ==> HexDigit(fingerprint[i])
  }

  function PayloadOfAll(engine: DatabaseEngine, c: Contents): Payload {
    Payload(CATALOG_SCHEMA_VERSION, engine, c.namespaces, Sorting.Map(PayloadOf, c.relations), c.routines, c.otherObjects)
  }

  function CatalogFingerprint(k: Codec, engine: DatabaseEngine, c: Contents): string {
    HexText(k.sha256(k.payload(PayloadOfAll(engine, c))))
  }

  // ---- Snapshots -------------------------------------------------------------------------------------------------------------

  datatype Snapshot = Snapshot(schemaVersion: nat, connectionId: int, engine: DatabaseEngine, database: string,
                               capturedAt: int, fingerprint: string, contents: Contents)

  datatype CatalogError =
    | SchemaVersion(actual: nat)
    | Fingerprint
    | FingerprintMismatch
    | EmptyDatabase

  /** What the standard library's trim takes away. */
  predicate WhiteSpace(c: char) {
    || '\t' <= c <= '\r' || c == ' ' || c == '\U{0085}' || c == '\U{00A0}' || c == '\U{1680}'
    || '\U{2000}' <= c <= '\U{200A}' || c == '\U{2028}' || c == '\U{2029}' || c == '\U{202F}' || c == '\U{205F}'
    || c == '\U{3000}'
  }

  predicate Blank(s: string) {
    forall i :: 0 <= i < |s| ==> WhiteSpace(s[i])
  }

  function HasCanonicalFingerprint(k: Codec, s: Snapshot): bool {
    s.fingerprint == CatalogFingerprint(k, s.engine, Canonical(k, s.contents))
  }

  function ShapeError(s: Snapshot): Option<CatalogError> {
    if s.schemaVersion != CATALOG_SCHEMA_VERSION then Some(SchemaVersion(s.schemaVersion))
    else if Blank(s.database) then Some(EmptyDatabase)
    else if !ValidFingerprint(s.fingerprint) then Some(Fingerprint)
    else None
  }

  function ValidationError(k: Codec, s: Snapshot): Option<CatalogError> {
    if ShapeError(s).Some? then ShapeError(s)
    else if !HasCanonicalFingerprint(k, s) then Some(FingerprintMismatch)
    else None
  }

  /** A snapshot with a fingerprint of its own making. */
  function Capture(k: Codec, connectionId: int, engine: DatabaseEngine, database: string, capturedAt: int,
                   contents: Contents): Result<Snapshot, CatalogError>
  {
    var c := Canonical(k, contents);
    var s := Snapshot(CATALOG_SCHEMA_VERSION, connectionId, engine, database, capturedAt,
                      CatalogFingerprint(k, engine, c), c);
    match ShapeError(s)
    case Some(e) => Err(e)
    case None => Ok(s)
  }

  /** A snapshot with a fingerprint from elsewhere, which must be the canonical one. */
  function New(k: Codec, connectionId: int, engine: DatabaseEngine, database: string, capturedAt: int,
               fingerprint: string, contents: Contents): Result<Snapshot, CatalogError>
  {
    var s := Snapshot(CATALOG_SCHEMA_VERSION, connectionId, engine, database, capturedAt, fingerprint,
                      Canonical(k, contents));
    match ValidationError(k, s)
    case Some(e) => Err(e)
    case None => Ok(s)
  }

  /** The wire form has the snapshot's fields, in any order of its collections. */
  function Deserialize(k: Codec, wire: Snapshot): Result<Snapshot, CatalogError> {
    if wire.schemaVersion != CATALOG_SCHEMA_VERSION then Err(SchemaVersion(wire.schemaVersion))
    else New(k, wire.connectionId, wire.engine, wire.database, wire.capturedAt, wire.fingerprint, wire.contents)
  }
}
