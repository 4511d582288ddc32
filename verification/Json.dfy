/** JSON values, the structural limits of a control message, and the explicit-stack check of those
    limits proved against a recursive walk. */
module Json {
  import opened Wrappers

  const MAX_JSON_DEPTH := 32
  const MAX_COLLECTION_ITEMS := 10_000
  const MAX_JSON_VALUES := 10_000
  const MAX_STRING_BYTES := 256 * 1024

  datatype Entry = Entry(key: string, value: Value)

  /** An object's entries are in the order the map iterates over them. */
  datatype Value =
    | Null
    | Bool(b: bool)
    | Int(n: int)
    | Float(repr: string)
    | String(text: string)
    | Array(items: seq<Value>)
    | Object(entries: seq<Entry>)

  datatype FrameError =
    | MissingLengthPrefix
    | EmptyPayload
    | PayloadTooLarge(actual: nat, maximum: nat)
    | LengthMismatch(declared: nat, actual: nat)
    | JsonDepth
    | CollectionTooLarge(actual: nat)
    | ItemBudgetExceeded
    | StringTooLarge(actual: nat)
    | InvalidJson
    | InvalidSchema

  /** Bytes of one character in UTF-8. */
  function CharBytes(c: char): nat {
    if c as int < 0x80 then 1 else if c as int < 0x800 then 2 else if c as int < 0x1_0000 then 3 else 4
  }

  function Utf8Length(s: string): nat {
    if s == "" then 0 else CharBytes(s[0]) + Utf8Length(s[1..])
  }

  function ValidateString(s: string): Option<FrameError> {
    if Utf8Length(s) > MAX_STRING_BYTES then Some(StringTooLarge(Utf8Length(s))) else None
  }

  function ValidateCollectionLen(actual: nat): Option<FrameError> {
    if actual > MAX_COLLECTION_ITEMS then Some(CollectionTooLarge(actual)) else None
  }

  function Children(v: Value): (r: seq<Value>)
    ensures forall i :: 0 <= i < |r| ==> r[i] < v
  {
    match v
    case Array(items) => items
    case Object(entries) => seq(|entries|, i requires 0 <= i < |entries| => entries[i].value)
    case _ => []
  }

  // ---- The recursive walk ---------------------------------------------------------------------------------

  /** The first oversized key among the first n, looked at from the last to the first. */
  function KeyError(entries: seq<Entry>, n: nat): Option<FrameError>
    requires n <= |entries|
  {
    if n == 0 then None
    else if ValidateString(entries[n - 1].key).Some? then ValidateString(entries[n - 1].key)
    else KeyError(entries, n - 1)
  }

  /** What is checked at a value itself before its children are visited. */
  function OwnError(v: Value): Option<FrameError> {
    match v
    case String(text) => ValidateString(text)
    case Array(items) => ValidateCollectionLen(|items|)
    case Object(entries) =>
      if ValidateCollectionLen(|entries|).Some? then ValidateCollectionLen(|entries|)
      else KeyError(entries, |entries|)
    case _ => None
  }

  /** Preorder: depth, then the value budget, then the value itself, then its children in order.
      The result is the number of values visited so far, or the first error. */
  function Walk(v: Value, depth: nat, budget: nat): Result<nat, FrameError>
    decreases v, |Children(v)| + 1
  {
    if depth > MAX_JSON_DEPTH then Err(JsonDepth)
    else if budget + 1 > MAX_JSON_VALUES then Err(ItemBudgetExceeded)
    else if OwnError(v).Some? then Err(OwnError(v).value)
    else WalkFrom(v, 0, depth + 1, budget + 1)
  }

  function WalkFrom(v: Value, k: nat, depth: nat, budget: nat): Result<nat, FrameError>
    requires k <= |Children(v)|
    decreases v, |Children(v)| - k
  {
    if k == |Children(v)| then Ok(budget)
    else
      match Walk(Children(v)[k], depth, budget)
      case Err(e) => Err(e)
      case Ok(b) => WalkFrom(v, k + 1, depth, b)
  }

  function JsonLimits(v: Value): Option<FrameError> {
    match Walk(v, 1, 0)
    case Ok(_) => None
    case Err(e) => Some(e)
  }

  // ---- The explicit stack ------------------------------------------------------------------------------------

  /** Walking a stack from its top, which is its last element. */
  function WalkStack(pending: seq<(Value, nat)>, budget: nat): Result<nat, FrameError>
    decreases |pending|
  {
    if pending == [] then Ok(budget)
    else
      var top := pending[|pending| - 1];
      match Walk(top.0, top.1, budget)
      case Err(e) => Err(e)
      case Ok(b) => WalkStack(pending[..|pending| - 1], b)
  }

  /** The children from k on, pushed so that child k ends up on top. */
  function Pushed(v: Value, k: nat, depth: nat): seq<(Value, nat)>
    requires k <= |Children(v)|
    decreases |Children(v)| - k
  {
    if k == |Children(v)| then [] else Pushed(v, k + 1, depth) + [(Children(v)[k], depth)]
  }

  lemma {:induction false} PushedWalk(pending: seq<(Value, nat)>, v: Value, k: nat, depth: nat, budget: nat)
    requires k <= |Children(v)|
    ensures WalkStack(pending + Pushed(v, k, depth), budget)
            == match WalkFrom(v, k, depth, budget)
               case Err(e) => Err(e)
               case Ok(b) => WalkStack(pending, b)
    decreases |Children(v)| - k
  {
    hide Walk, Children;
    if k == |Children(v)| {
      assert pending + Pushed(v, k, depth) == pending;
    } else {
      var stack := pending + Pushed(v, k, depth);
      assert stack[..|stack| - 1] == pending + Pushed(v, k + 1, depth);
      match Walk(Children(v)[k], depth, budget)
      case Err(_) =>
      case Ok(b) => PushedWalk(pending, v, k + 1, depth, b);
    }
  }

  /** The walk over the explicit stack. It takes a value off the stack at most once more often than
      the budget allows, however large the value is. */
  method ValidateJsonLimits(value: Value) returns (r: Option<FrameError>, ghost visits: nat)
    ensures r == JsonLimits(value)
    ensures visits <= MAX_JSON_VALUES + 1
  {
    hide Utf8Length, Walk, WalkFrom, WalkStack, Pushed, Children, OwnError, KeyError;
    var budget := 0;
    visits := 0;
    var pending := [(value, 1)];
    StackOfOne(value);
    while pending != []
      invariant visits == budget <= MAX_JSON_VALUES
      invariant WalkStack(pending, budget) == Walk(value, 1, 0)
      decreases MAX_JSON_VALUES + 1 - budget, |pending|
    {
      visits := visits + 1;
      var (v, depth) := pending[|pending| - 1];
      ghost var before := pending;
      pending := pending[..|pending| - 1];
      VisitStep(before, budget);
      if depth > MAX_JSON_DEPTH {
        r := Some(JsonDepth);
        return;
      }
      budget := budget + 1;
      if budget > MAX_JSON_VALUES {
        r := Some(ItemBudgetExceeded);
        return;
      }
      match v {
        case String(text) =>
          OwnErrorCases(v);
          r := ValidateString(text);
          if r.Some? { return; }
          NoChildren(v, pending, depth + 1, budget);
        case Array(items) =>
          OwnErrorCases(v);
          r := ValidateCollectionLen(|items|);
          if r.Some? { return; }
          PushedWalk(pending, v, 0, depth + 1, budget);
          pending := pending + Pushed(v, 0, depth + 1);
        case Object(entries) =>
          OwnErrorCases(v);
          r := ValidateCollectionLen(|entries|);
          if r.Some? { return; }
          PushedWalk(pending, v, 0, depth + 1, budget);
          ghost var base := pending;
          ChildrenOf(entries);
          NoKeyError(entries);
          NothingPushed(v, depth + 1);
          assert pending == base + Pushed(v, |entries|, depth + 1);
          var i := |entries|;
          while i > 0
            invariant 0 <= i <= |entries| && pending == base + Pushed(v, i, depth + 1)
            invariant KeyError(entries, i) == KeyError(entries, |entries|)
          {
            KeyStep(entries, i);
            i := i - 1;
            r := ValidateString(entries[i].key);
            if r.Some? { return; }
            PushOne(v, i, depth + 1);
            pending := pending + [(entries[i].value, depth + 1)];
          }
        case _ =>
          OwnErrorCases(v);
          NoChildren(v, pending, depth + 1, budget);
      }
    }
    NothingLeft(budget);
    r := None;
  }

  lemma StackOfOne(v: Value)
    ensures WalkStack([(v, 1)], 0) == Walk(v, 1, 0)
  {
    hide Walk;
    assert [(v, 1)][..0] == [];
  }

  lemma NothingLeft(budget: nat)
    ensures WalkStack([], budget) == Ok(budget)
  {
  }

  lemma NothingPushed(v: Value, depth: nat)
    ensures Pushed(v, |Children(v)|, depth) == []
  {
  }

  lemma PushOne(v: Value, k: nat, depth: nat)
    requires k < |Children(v)|
    ensures Pushed(v, k, depth) == Pushed(v, k + 1, depth) + [(Children(v)[k], depth)]
  {
  }

  lemma NoKeyError(entries: seq<Entry>)
    ensures KeyError(entries, 0) == None
  {
  }

  lemma KeyStep(entries: seq<Entry>, n: nat)
    requires 0 < n <= |entries|
    ensures KeyError(entries, n) == if ValidateString(entries[n - 1].key).Some? then ValidateString(entries[n - 1].key)
                                    else KeyError(entries, n - 1)
  {
  }

  /** One visit: the top of the stack is checked, then replaced by its children. */
  lemma VisitStep(pending: seq<(Value, nat)>, budget: nat)
    requires pending != []
    ensures var top := pending[|pending| - 1];
            var rest := pending[..|pending| - 1];
            WalkStack(pending, budget)
            == if top.1 > MAX_JSON_DEPTH then Err(JsonDepth)
               else if budget + 1 > MAX_JSON_VALUES then Err(ItemBudgetExceeded)
               else if OwnError(top.0).Some? then Err(OwnError(top.0).value)
               else WalkStack(rest + Pushed(top.0, 0, top.1 + 1), budget + 1)
  {
    hide Pushed, OwnError;
    var top := pending[|pending| - 1];
    PushedWalk(pending[..|pending| - 1], top.0, 0, top.1 + 1, budget + 1);
  }

  lemma OwnErrorCases(v: Value)
    ensures v.String? ==> OwnError(v) == ValidateString(v.text)
    ensures v.Array? ==> OwnError(v) == ValidateCollectionLen(|v.items|)
    ensures v.Object? ==>
              OwnError(v) == if ValidateCollectionLen(|v.entries|).Some? then ValidateCollectionLen(|v.entries|)
                             else KeyError(v.entries, |v.entries|)
    ensures !v.String? && !v.Array? && !v.Object? ==> OwnError(v) == None
  {
  }

  lemma ChildrenOf(entries: seq<Entry>)
    ensures |Children(Object(entries))| == |entries|
    ensures forall i :: 0 <= i < |entries| ==> Children(Object(entries))[i] == entries[i].value
  {
  }

  lemma NoChildren(v: Value, pending: seq<(Value, nat)>, depth: nat, budget: nat)
    requires !v.Array? && !v.Object?
    ensures Children(v) == [] && pending + Pushed(v, 0, depth) == pending
  {
  }

  // ---- What the limits say ---------------------------------------------------------------------------------------

  function Nodes(v: Value): nat
    decreases v, |Children(v)| + 1
  {
    1 + NodesFrom(v, 0)
  }

  function NodesFrom(v: Value, k: nat): nat
    requires k <= |Children(v)|
    decreases v, |Children(v)| - k
  {
    if k == |Children(v)| then 0 else Nodes(Children(v)[k]) + NodesFrom(v, k + 1)
  }

  function Max(a: nat, b: nat): nat {
    if a < b then b else a
  }

  function Depth(v: Value): nat
    decreases v, |Children(v)| + 1
  {
    1 + DepthFrom(v, 0)
  }

  function DepthFrom(v: Value, k: nat): nat
    requires k <= |Children(v)|
    decreases v, |Children(v)| - k
  {
    if k == |Children(v)| then 0 else Max(Depth(Children(v)[k]), DepthFrom(v, k + 1))
  }

  /** Sizes at this value and everywhere below it. */
  ghost predicate SizesFit(v: Value)
    decreases v
  {
    && (v.String? ==> Utf8Length(v.text) <= 262_144)
    && |Children(v)| <= 10_000
    && (v.Object? ==> forall i :: 0 <= i < |v.entries| ==> Utf8Length(v.entries[i].key) <= 262_144)
    && forall i :: 0 <= i < |Children(v)| ==> SizesFit(Children(v)[i])
  }

  /** The limits as the protocol states them: 32 levels, 10,000 values, 256 KiB of text each. */
  ghost predicate Within(v: Value) {
    Depth(v) <= 32 && Nodes(v) <= 10_000 && SizesFit(v)
  }

  /** A character in UTF-8 (section 3 of RFC 3629). */
  function EncodeChar(c: char): seq<int> {
    var n := c as int;
    if n <= 0x7F then [n]
    else if n <= 0x7FF then [0xC0 + n / 64, 0x80 + n % 64]
    else if n <= 0xFFFF then [0xE0 + n / 4096, 0x80 + n / 64 % 64, 0x80 + n % 64]
    else [0xF0 + n / 262_144, 0x80 + n / 4096 % 64, 0x80 + n / 64 % 64, 0x80 + n % 64]
  }

  function Encode(s: string): seq<int> {
    if s == "" then [] else EncodeChar(s[0]) + Encode(s[1..])
  }

  /** The length that is checked is the number of bytes of the text in UTF-8. */
  lemma {:induction false} Utf8LengthCounts(s: string)
    ensures Utf8Length(s) == |Encode(s)|
    ensures forall i :: 0 <= i < |Encode(s)| ==> 0 <= Encode(s)[i] < 256
  {
    if s != "" {
      Utf8LengthCounts(s[1..]);
      assert forall i :: 0 <= i < |EncodeChar(s[0])| ==> 0 <= EncodeChar(s[0])[i] < 256;
    }
  }

  lemma {:induction false} KeyErrorMeaning(entries: seq<Entry>, n: nat)
    requires n <= |entries|
    ensures KeyError(entries, n).None? <==> forall i :: 0 <= i < n ==> Utf8Length(entries[i].key) <= MAX_STRING_BYTES
  {
    if n > 0 {
      KeyErrorMeaning(entries, n - 1);
    }
  }

  ghost predicate OwnSizesFit(v: Value) {
    && (v.String? ==> Utf8Length(v.text) <= MAX_STRING_BYTES)
    && |Children(v)| <= MAX_COLLECTION_ITEMS
    && (v.Object? ==> forall i :: 0 <= i < |v.entries| ==> Utf8Length(v.entries[i].key) <= MAX_STRING_BYTES)
  }

  lemma OwnErrorMeaning(v: Value)
    ensures OwnError(v).None? <==> OwnSizesFit(v)
  {
    if v.Object? {
      KeyErrorMeaning(v.entries, |v.entries|);
    }
  }

  /** The walk succeeds exactly when depth, budget and sizes fit, and then has counted every value. */
  lemma {:induction false} WalkMeaning(v: Value, depth: nat, budget: nat)
    requires depth >= 1
    ensures Walk(v, depth, budget).Ok? <==>
            depth - 1 + Depth(v) <= MAX_JSON_DEPTH && budget + Nodes(v) <= MAX_JSON_VALUES && SizesFit(v)
    ensures Walk(v, depth, budget).Ok? ==> Walk(v, depth, budget).value == budget + Nodes(v)
    decreases v, |Children(v)| + 1
  {
    hide OwnError, OwnSizesFit;
    OwnErrorMeaning(v);
    SizesSplit(v);
    if depth <= MAX_JSON_DEPTH {
      WalkFromMeaning(v, 0, depth + 1, budget + 1);
    }
  }

  lemma SizesSplit(v: Value)
    ensures SizesFit(v) <==> OwnSizesFit(v) && SizesFitFrom(v, 0)
  {
  }

  ghost predicate SizesFitFrom(v: Value, k: nat) {
    forall i :: k <= i < |Children(v)| ==> SizesFit(Children(v)[i])
  }

  lemma {:induction false} WalkFromMeaning(v: Value, k: nat, depth: nat, budget: nat)
    requires k <= |Children(v)| && 1 <= depth <= MAX_JSON_DEPTH + 1
    ensures WalkFrom(v, k, depth, budget).Ok? && budget <= MAX_JSON_VALUES <==>
            && depth - 1 + DepthFrom(v, k) <= MAX_JSON_DEPTH
            && budget + NodesFrom(v, k) <= MAX_JSON_VALUES
            && SizesFitFrom(v, k)
    ensures WalkFrom(v, k, depth, budget).Ok? ==> WalkFrom(v, k, depth, budget).value == budget + NodesFrom(v, k)
    decreases v, |Children(v)| - k
  {
    hide SizesFit, Children, Depth, Nodes;
    if k < |Children(v)| {
      var c := Children(v)[k];
      WalkMeaning(c, depth, budget);
      if Walk(c, depth, budget).Ok? {
        WalkFromMeaning(v, k + 1, depth, budget + Nodes(c));
      }
    }
  }

  /** A value is accepted exactly when its nesting, its number of values and all its strings, keys
      and collections are within the limits. */
  lemma LimitsMeaning(v: Value)
    ensures JsonLimits(v).None? <==> Within(v)
  {
    hide *;
    WalkMeaning(v, 1, 0);
    LimitsAreWalk(v);
    WithinParts(v);
  }

  lemma LimitsAreWalk(v: Value)
    ensures JsonLimits(v).None? <==> Walk(v, 1, 0).Ok?
  {
  }

  lemma WithinParts(v: Value)
    ensures Within(v) <==> Depth(v) <= MAX_JSON_DEPTH && Nodes(v) <= MAX_JSON_VALUES && SizesFit(v)
  {
  }

  /** Whatever is inside an accepted value is accepted on its own. */
  lemma ChildrenWithin(v: Value, k: nat)
    requires Within(v) && k < |Children(v)|
    ensures Within(Children(v)[k])
  {
    hide SizesFit;
    PartOfWhole(v, 0, k);
    SizesSplit(v);
  }

  lemma {:induction false} PartOfWhole(v: Value, i: nat, k: nat)
    requires i <= k < |Children(v)|
    ensures Nodes(Children(v)[k]) <= NodesFrom(v, i) && Depth(Children(v)[k]) <= DepthFrom(v, i)
    decreases k - i
  {
    hide Children, Nodes, Depth;
    if i < k {
      PartOfWhole(v, i + 1, k);
    }
  }

  predicate LimitError(e: FrameError) {
    e == JsonDepth || e == ItemBudgetExceeded || e.StringTooLarge? || e.CollectionTooLarge?
  }

  /** A value that breaks a limit is refused with an error about a limit, and a size that is reported
      is one that is too large. */
  lemma LimitErrors(v: Value)
    ensures JsonLimits(v).Some? ==>
              && LimitError(JsonLimits(v).value)
              && (JsonLimits(v).value.StringTooLarge? ==> JsonLimits(v).value.actual > 262_144)
              && (JsonLimits(v).value.CollectionTooLarge? ==> JsonLimits(v).value.actual > 10_000)
  {
    WalkErrors(v, 1, 0);
  }

  predicate Reports(e: FrameError) {
    && LimitError(e) && (e.StringTooLarge? ==> e.actual > 262_144) && (e.CollectionTooLarge? ==> e.actual > 10_000)
  }

  lemma {:induction false} KeyReports(entries: seq<Entry>, n: nat)
    requires n <= |entries|
    ensures KeyError(entries, n).Some? ==> Reports(KeyError(entries, n).value)
  {
    hide Utf8Length;
    if n > 0 {
      KeyReports(entries, n - 1);
    }
  }

  lemma OwnReports(v: Value)
    ensures OwnError(v).Some? ==> Reports(OwnError(v).value)
  {
    hide Utf8Length, KeyError;
    if v.Object? {
      KeyReports(v.entries, |v.entries|);
    }
  }

  lemma {:induction false} WalkErrors(v: Value, depth: nat, budget: nat)
    ensures Walk(v, depth, budget).Err? ==> Reports(Walk(v, depth, budget).error)
    decreases v, |Children(v)| + 1
  {
    hide OwnError, Children;
    OwnReports(v);
    WalkFromErrors(v, 0, depth + 1, budget + 1);
  }

  lemma {:induction false} WalkFromErrors(v: Value, k: nat, depth: nat, budget: nat)
    requires k <= |Children(v)|
    ensures WalkFrom(v, k, depth, budget).Err? ==> Reports(WalkFrom(v, k, depth, budget).error)
    decreases v, |Children(v)| - k
  {
    hide Children, Reports;
    if k < |Children(v)| {
      WalkErrors(Children(v)[k], depth, budget);
      if Walk(Children(v)[k], depth, budget).Ok? {
        WalkFromErrors(v, k + 1, depth, Walk(Children(v)[k], depth, budget).value);
      }
    }
  }
}
