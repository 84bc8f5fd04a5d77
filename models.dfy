/**
 * `utils/models.py`: the `Table`, `FeatureClass` and `Workspace` wrappers around an
 * arcpy data store. The store itself is foreign; what the wrappers decide on their
 * own is modelled here: field-list validation, the composition of the persistent
 * query with a per-call `where_clause`, the cursor request each call would open,
 * the count cache behind `len()`, the `__getitem__` dispatch, the SQL clause
 * builders with their `;` guard, set algebra over names, and the workspace's
 * filtered, lazily loaded children.
 */
module Models {
  import opened Wrappers
  import opened Text
  import Dicts

  // ---------------------------------------------------------------------------
  // Field names and cursor tokens

  /** What `arcpy.Describe` says the wrapped dataset is. */
  datatype Kind = PlainTable | FeatureClassOf(shapeField: string)

  /** `Table.cursor_tokens`. */
  const TableTokens: seq<string> :=
    ["CREATED@", "CREATOR@", "EDITED@", "EDITOR@", "GLOBALID@", "OID@", "SUBTYPE@", "*"]

  /** The tokens `FeatureClass.__init__` appends. */
  const ShapeTokens: seq<string> :=
    ["SHAPE@", "SHAPE@XY", "SHAPE@TRUECENTROID", "SHAPE@X", "SHAPE@Y", "SHAPE@Z",
     "SHAPE@M", "SHAPE@JSON", "SHAPE@WKB", "SHAPE@WKT", "SHAPE@AREA", "SHAPE@LENGTH"]

  function CursorTokens(kind: Kind): seq<string>
  {
    if kind.PlainTable? then TableTokens else TableTokens + ShapeTokens
  }

  function Same(s: string): string { s }

  /** `list({field.name: field for field in ListFields(path)}.keys())`: each name once, at its first position. */
  function ListedNames(fields: seq<string>): (r: seq<string>)
    ensures forall i, j :: 0 <= i < j < |r| ==> r[i] != r[j]
    ensures forall f :: f in r <==> f in fields
    ensures forall i, j :: 0 <= i < j < |r| ==> Dicts.KeyBefore(fields, Same, r[i], r[j])
    ensures (forall a, b :: 0 <= a < b < |fields| ==> fields[a] != fields[b]) ==> r == fields
  {
    Dicts.KeyOrderFirstSeen(fields, Same);
    if forall a, b :: 0 <= a < b < |fields| ==> fields[a] != fields[b] then
      Dicts.KeyOrderDistinct(fields, Same);
      Dicts.KeyOrder(fields, Same)
    else
      Dicts.KeyOrder(fields, Same)
  }

  /**
   * `fieldnames` once construction is over: for a feature class the shape field
   * is replaced, at its first position, by the `SHAPE@` token.
   */
  function Fieldnames(kind: Kind, listed: seq<string>): (r: seq<string>)
    requires kind.FeatureClassOf? ==> kind.shapeField in listed
    ensures |r| == |listed|
    ensures kind.PlainTable? ==> r == listed
    ensures kind.FeatureClassOf? ==> exists i :: 0 <= i < |listed| && listed[i] == kind.shapeField && r == listed[i := "SHAPE@"]
  {
    if kind.PlainTable? then listed else listed[Dicts.IndexOf(listed, kind.shapeField) := "SHAPE@"]
  }

  /** `valid_fields`, computed before the shape field is renamed. */
  function ValidFields(kind: Kind, listed: seq<string>): seq<string>
  {
    listed + CursorTokens(kind)
  }

  /** Every name in `fieldnames` is a valid field, so the default field list always passes validation. */
  lemma FieldnamesAreValid(kind: Kind, listed: seq<string>)
    requires kind.FeatureClassOf? ==> kind.shapeField in listed
    ensures forall f :: f in Fieldnames(kind, listed) ==> f in ValidFields(kind, listed)
  {
    var r := Fieldnames(kind, listed);
    forall f | f in r ensures f in ValidFields(kind, listed) {
      var k :| 0 <= k < |r| && r[k] == f;
      if kind.FeatureClassOf? {
        var i :| 0 <= i < |listed| && listed[i] == kind.shapeField && r == listed[i := "SHAPE@"];
        if k == i {
          assert ValidFields(kind, listed)[|listed| + |TableTokens|] == "SHAPE@";
        } else {
          assert ValidFields(kind, listed)[k] == f;
        }
      }
    }
  }

  // ---------------------------------------------------------------------------
  // Cursor requests

  /** The `fields` argument of a cursor: the `ALL_FIELDS` sentinel or a list of names. */
  datatype FieldsArg = AllFields | Names(names: seq<string>)

  /** `Table._validate_fields`. */
  predicate FieldsValid(validFields: seq<string>, fields: FieldsArg)
  {
    fields == AllFields || fields == Names(["*"]) || forall f :: f in fields.names ==> f in validFields
  }

  /** The keyword arguments the wrapper interprets; `None` is a keyword that was not passed. */
  datatype Kwargs = Kwargs(whereClause: Option<PyStr>, sqlClause: Option<(PyStr, PyStr)>)

  datatype CursorKind = Search | Update | Insert

  /** The arcpy cursor a call would open: its type, its field list and the keywords passed on. */
  datatype CursorRequest = CursorRequest(kind: CursorKind, fields: seq<string>, kwargs: Kwargs)

  /**
   * `Table._handle_queries`: a stored query and a call `where_clause` are
   * combined with `AND`; a call clause alone is used as is; otherwise the stored
   * query (possibly `None`) applies.
   */
  function HandleQueries(query: PyStr, whereClause: Option<PyStr>): (r: PyStr)
    ensures whereClause.Some? && query.Truthy() ==>
      r == Str("(" + query.text + ") AND (" + whereClause.value.Render() + ")")
    ensures whereClause.Some? && !query.Truthy() ==> r == whereClause.value
    ensures whereClause.None? ==> r == query
    ensures r.Truthy() <==> query.Truthy() || (whereClause.Some? && whereClause.value.Truthy())
  {
    if whereClause.Some? && query.Truthy() then
      Str("(" + query.text + ") AND (" + whereClause.value.Render() + ")")
    else if whereClause.Some? then whereClause.value
    else query
  }

  /** Neither filter is ever lost: a truthy stored query heads the result and a call clause ends it. */
  lemma HandleQueriesKeepsBoth(query: PyStr, whereClause: Option<PyStr>)
    ensures query.Truthy() ==> StartsWith(HandleQueries(query, whereClause).Render(), "(" + query.text + ")") || whereClause.None?
    ensures query.Truthy() && whereClause.None? ==> HandleQueries(query, whereClause).Render() == query.text
    ensures whereClause.Some? && query.Truthy() ==>
      EndsWith(HandleQueries(query, whereClause).Render(), "(" + whereClause.value.Render() + ")")
    ensures whereClause.Some? && !query.Truthy() ==> HandleQueries(query, whereClause).Render() == whereClause.value.Render()
  {
    if whereClause.Some? && query.Truthy() {
      var r := HandleQueries(query, whereClause).Render();
      var w := whereClause.value.Render();
      assert r == ("(" + query.text + ")") + (" AND (" + w + ")");
      assert r == ("(" + query.text + ") AND ") + ("(" + w + ")");
      assert r[..|"(" + query.text + ")"|] == "(" + query.text + ")";
      assert r[|r| - |"(" + w + ")"|..] == "(" + w + ")";
    }
  }

  /**
   * `Table._cursor` without its side effect: `ALL_FIELDS` and `["*"]` expand to
   * `fieldnames`; the field list is validated first; search and update cursors
   * get the composed where clause; an insert cursor keeps none of these keywords;
   * any other type is a ValueError.
   */
  function CursorSpec(fieldnames: seq<string>, validFields: seq<string>, query: PyStr,
                      cursorType: string, fields: FieldsArg, kwargs: Kwargs): Result<CursorRequest>
  {
    var names := if fields == AllFields || fields == Names(["*"]) then fieldnames else fields.names;
    if !FieldsValid(validFields, Names(names)) then Err(ValueError("fields"))
    else
      var passed := Kwargs(Some(HandleQueries(query, kwargs.whereClause)), kwargs.sqlClause);
      if cursorType == "search" then Ok(CursorRequest(Search, names, passed))
      else if cursorType == "update" then Ok(CursorRequest(Update, names, passed))
      else if cursorType == "insert" then Ok(CursorRequest(Insert, names, Kwargs(None, None)))
      else Err(ValueError(cursorType))
  }

  predicate KnownCursorType(cursorType: string)
  {
    cursorType == "search" || cursorType == "update" || cursorType == "insert"
  }

  /**
   * A cursor is opened exactly when the field list is `ALL_FIELDS`, `["*"]` or made
   * of valid fields, and the type is search, update or insert; the defaults expand
   * to `fieldnames`, and only search and update cursors carry the composed filter.
   */
  lemma CursorSpecAccepts(fieldnames: seq<string>, validFields: seq<string>, query: PyStr,
                          cursorType: string, fields: FieldsArg, kwargs: Kwargs)
    requires forall f :: f in fieldnames ==> f in validFields
    ensures CursorSpec(fieldnames, validFields, query, cursorType, fields, kwargs).Ok?
      <==> FieldsValid(validFields, fields) && KnownCursorType(cursorType)
    ensures CursorSpec(fieldnames, validFields, query, cursorType, fields, kwargs).Ok? ==>
      var req := CursorSpec(fieldnames, validFields, query, cursorType, fields, kwargs).value;
      (fields == AllFields || fields == Names(["*"]) ==> req.fields == fieldnames) &&
      (req.kind == Insert <==> req.kwargs == Kwargs(None, None) && cursorType == "insert") &&
      (req.kind != Insert ==> req.kwargs.whereClause == Some(HandleQueries(query, kwargs.whereClause)))
  {
  }

  // ---------------------------------------------------------------------------
  // The count cache behind len()

  /** `queried`, `_queried_count`, `_updated` and `record_count`. */
  datatype Cache = Cache(queried: bool, queriedCount: int, updated: bool, recordCount: int)

  /**
   * One `len(table)`: a queried table answers its stored count; otherwise the
   * cached record count, recounted first (and the update flag cleared) when the
   * table was updated since the last count. `total` is what `GetCount` reports.
   */
  function LenStep(c: Cache, total: nat): (r: (int, Cache))
    ensures r.1.queried == c.queried && r.1.queriedCount == c.queriedCount
    ensures c.queried ==> r.0 == c.queriedCount && r.1 == c
    ensures !c.queried ==> !r.1.updated && r.0 == r.1.recordCount
    ensures !c.queried && c.updated ==> r.0 == total
    ensures !c.updated ==> r.1 == c
  {
    if c.queried then (c.queriedCount, c)
    else if !c.updated then (c.recordCount, c)
    else (total, c.(updated := false, recordCount := total))
  }

  /** Asking twice in a row gives the same answer and leaves the cache as the first call left it. */
  lemma LenStepStable(c: Cache, total: nat, later: nat)
    ensures LenStep(LenStep(c, total).1, later) == (LenStep(c, total).0, LenStep(c, total).1)
  {
  }

  // ---------------------------------------------------------------------------
  // Clause builders

  /** The `top` argument: absent, an `int`, or some other value with its truthiness and text. */
  datatype Top = NoTop | IntTop(n: int) | OtherTop(truthy: bool, text: string)

  /** `f"TOP {top}" if top else None`, for a `top` that passed the type check. */
  function TopPrefix(top: Top): PyStr
  {
    if top.IntTop? && top.n != 0 then Str("TOP " + IntToString(top.n)) else PyNone
  }

  /** `top and not isinstance(top, int)`. */
  predicate BadTop(top: Top)
  {
    top.OtherTop? && top.truthy
  }

  /** `ORDER BY field ASC`, or `ORDER BY field DESC` when reversed. */
  function SortPostfix(field: string, reverse: bool): string
  {
    "ORDER BY " + field + " " + (if reverse then "DESC" else "ASC")
  }

  /** The sort postfix holds a `;` only through the field, starts with the field and ends in `DESC` only when reversed. */
  lemma PostfixFacts(field: string, reverse: bool)
    ensures ';' in SortPostfix(field, reverse) <==> ';' in field
    ensures StartsWith(SortPostfix(field, reverse), "ORDER BY " + field + " ")
    ensures EndsWith(SortPostfix(field, reverse), "DESC") <==> reverse
  {
    var head := "ORDER BY " + field + " ";
    var word := if reverse then "DESC" else "ASC";
    var post := SortPostfix(field, reverse);
    assert post == head + word;
    assert ';' !in "ORDER BY " && ';' !in " " && ';' !in word;
    assert forall c :: c in post <==> c in head || c in word;
    assert forall c :: c in head <==> c in "ORDER BY " || c in field || c in " ";
    assert post[..|head|] == head;
    assert post[|head|..] == word;
    if !reverse {
      assert post[|post| - 4..] == [post[|head| - 1]] + word;
      assert post[|post| - 4] == ' ' != 'D';
    }
  }

  /** A `TOP` prefix appears exactly for a non-zero int and holds no `;`. */
  lemma TopPrefixFacts(top: Top)
    ensures TopPrefix(top).Truthy() <==> top.IntTop? && top.n != 0
    ensures TopPrefix(top).Truthy() ==> ';' !in TopPrefix(top).text
  {
    if top.IntTop? && top.n != 0 {
      var digits := IntToString(top.n);
      assert forall m :: 0 <= m < |digits| ==> digits[m] == '-' || IsDigit(digits[m]);
      assert forall c :: c in TopPrefix(top).text ==> c in "TOP " || c in digits;
    }
  }

  /** The `OIDField IN (a,b,...)` filter used for lists of object ids. */
  function OidInClause(oidField: string, ids: seq<int>): string
  {
    oidField + " IN (" + IdList(ids) + ")"
  }

  /** `','.join(str(i) for i in ids)`. */
  function IdList(ids: seq<int>): string
  {
    Join(",", IdTexts(ids))
  }

  function IdTexts(ids: seq<int>): (r: seq<string>)
    ensures |r| == |ids|
    ensures forall k :: 0 <= k < |ids| ==> r[k] == IntToString(ids[k])
  {
    if |ids| == 0 then [] else [IntToString(ids[0])] + IdTexts(ids[1..])
  }

  /** Splitting the id list on commas and reading each piece gives the object ids back. */
  lemma IdListRoundTrip(ids: seq<nat>)
    requires |ids| > 0
    ensures |Split(IdList(ids), ',')| == |ids|
    ensures forall k :: 0 <= k < |ids| ==> DigitsValue(Split(IdList(ids), ',')[k]) == ids[k]
  {
    var texts := IdTexts(ids);
    forall k | 0 <= k < |texts| ensures ',' !in texts[k] {
      assert forall m :: 0 <= m < |texts[k]| ==> IsDigit(texts[k][m]);
    }
    SplitJoin(texts, ',');
    forall k | 0 <= k < |ids| ensures DigitsValue(texts[k]) == ids[k] {
      DigitsOfNat(ids[k]);
    }
  }

  // ---------------------------------------------------------------------------
  // __getitem__

  /** An element of a list index: Python lists may mix types. */
  datatype Item = IntItem(i: int) | StrItem(s: string)

  /** The index types `Table.__getitem__` distinguishes, in the order it tests them. */
  datatype Index = OidIndex(oid: int) | FieldIndex(field: string) | ListIndex(items: seq<Item>)

  /** What a successful `table[idx]` reads: one row, one column, or rows. */
  datatype Access = Row(request: CursorRequest) | Column(field: string, request: CursorRequest) | Rows(request: CursorRequest)

  predicate AllValidFields(items: seq<Item>, validFields: seq<string>)
  {
    forall k :: 0 <= k < |items| ==> items[k].StrItem? && items[k].s in validFields
  }

  predicate AllInts(items: seq<Item>)
  {
    forall k :: 0 <= k < |items| ==> items[k].IntItem?
  }

  function ItemNames(items: seq<Item>): (r: seq<string>)
    requires forall k :: 0 <= k < |items| ==> items[k].StrItem?
    ensures |r| == |items| && forall k :: 0 <= k < |items| ==> r[k] == items[k].s
  {
    if |items| == 0 then [] else [items[0].s] + ItemNames(items[1..])
  }

  function ItemInts(items: seq<Item>): (r: seq<int>)
    requires AllInts(items)
    ensures |r| == |items| && forall k :: 0 <= k < |items| ==> r[k] == items[k].i
  {
    if |items| == 0 then [] else [items[0].i] + ItemInts(items[1..])
  }

  // ---------------------------------------------------------------------------
  // The table wrapper

  class Table {
    const path: string
    const kind: Kind
    /** The names `ListFields` reported, each once. */
    const listed: seq<string>
    const fieldnames: seq<string>
    const cursorTokens: seq<string>
    const validFields: seq<string>
    const oidField: string
    var query: PyStr
    var queried: bool
    var queriedCount: int
    var updated: bool
    var recordCount: int
    /** `_oid_set`: the object ids visible under the query when it was last set. */
    var oidSet: set<int>

    predicate Valid()
    {
      (kind.FeatureClassOf? ==> kind.shapeField in listed && kind.shapeField != oidField) &&
      oidField in listed &&
      fieldnames == Fieldnames(kind, listed) &&
      cursorTokens == CursorTokens(kind) &&
      validFields == ValidFields(kind, listed)
    }

    function Counts(): Cache
      reads this
    {
      Cache(queried, queriedCount, updated, recordCount)
    }

    /**
     * `Table(path)` / `FeatureClass(path)`, given what arcpy reports: the field
     * names, the OID field, the row count and the object ids of all rows.
     */
    constructor (path: string, kind: Kind, fields: seq<string>, oidField: string, total: nat, oids: set<int>)
      requires oidField in fields
      requires kind.FeatureClassOf? ==> kind.shapeField in fields && kind.shapeField != oidField
      ensures Valid()
      ensures this.path == path && this.kind == kind && this.oidField == oidField
      ensures listed == ListedNames(fields)
      ensures query == PyNone && Counts() == Cache(false, 0, false, total) && oidSet == oids
    {
      this.path := path;
      this.kind := kind;
      var names := ListedNames(fields);
      listed := names;
      fieldnames := Fieldnames(kind, names);
      cursorTokens := CursorTokens(kind);
      validFields := ValidFields(kind, names);
      this.oidField := oidField;
      query := PyNone;
      queried := false;
      queriedCount := 0;
      updated := false;
      recordCount := total;
      oidSet := oids;
    }

    /** `del table.query`; `allOids` are the ids the store shows with no query. */
    method DeleteQuery(allOids: set<int>)
      modifies this
      ensures query == PyNone && !queried && oidSet == allOids
      ensures queriedCount == old(queriedCount) && updated == old(updated) && recordCount == old(recordCount)
    {
      query := PyNone;
      queried := false;
      oidSet := allOids;
    }

    /**
     * `table.query = q` as written. A falsy `q` first deletes the query but does not
     * return; the trial search only warns when it fails (`trialOk` is its outcome);
     * `len(self)` is read after `queried` is set, so the stored count is the old one.
     * `matching` is the outcome of the last search, the ids visible under `q`, or `None`
     * when that search raises: the query, the flags and the count are then already
     * assigned, and the id set is the one from before that line.
     */
    method SetQuery(q: PyStr, trialOk: bool, allOids: set<int>, matching: Option<set<int>>) returns (warned: bool, r: Result<bool>)
      modifies this
      ensures warned == !trialOk
      ensures query == q && queried && updated
      ensures queriedCount == old(queriedCount) && recordCount == old(recordCount)
      ensures matching.Some? ==> r.Ok? && oidSet == matching.value
      ensures matching.None? ==> r.Err? && r.error.RuntimeError? && oidSet == (if q.Truthy() then old(oidSet) else allOids)
    {
      if !q.Truthy() {
        DeleteQuery(allOids);
      }
      warned := !trialOk;
      query := q;
      updated := true;
      queried := true;
      var n := Len(|oidSet|);
      queriedCount := n;
      if matching.None? {
        return warned, Err(RuntimeError("search of the object ids failed"));
      }
      oidSet := matching.value;
      r := Ok(true);
    }

    /** A queried table's stored count is the number of ids its query selects. */
    predicate CountsQuery()
      reads this
    {
      queried ==> queriedCount == |oidSet|
    }

    /**
     * The query setter as evidently intended: a falsy query clears the filter and
     * stops there; a query whose trial search fails only warns and leaves the
     * previous filter in place; otherwise the stored count is the number of rows
     * the query selects.
     */
    method SetQueryCorrected(q: PyStr, trialOk: bool, allOids: set<int>, matching: set<int>) returns (warned: bool)
      modifies this
      ensures q.Truthy() && trialOk ==> !warned && query == q && queried && updated && oidSet == matching
      ensures q.Truthy() && trialOk ==> queriedCount == |matching|
      ensures q.Truthy() && !trialOk ==> (warned && query == old(query) && queried == old(queried) &&
        oidSet == old(oidSet) && queriedCount == old(queriedCount) && updated == old(updated))
      ensures !q.Truthy() ==> !warned && query == PyNone && !queried && oidSet == allOids
      ensures !q.Truthy() ==> updated == old(updated) && queriedCount == old(queriedCount)
      ensures trialOk || !q.Truthy() ==> CountsQuery()
      ensures old(CountsQuery()) ==> CountsQuery()
      ensures recordCount == old(recordCount)
    {
      if !q.Truthy() {
        DeleteQuery(allOids);
        return false;
      }
      if !trialOk {
        return true;
      }
      warned := false;
      query := q;
      updated := true;
      queried := true;
      queriedCount := |matching|;
      oidSet := matching;
    }

    /** `len(table)`; `total` is what `GetCount` reports for the table's path. */
    method Len(total: nat) returns (n: int)
      modifies this`updated, this`recordCount
      ensures (n, Counts()) == LenStep(old(Counts()), total)
    {
      if queried {
        return queriedCount;
      }
      if !updated {
        return recordCount;
      }
      updated := false;
      recordCount := total;
      return recordCount;
    }

    /** `Table._cursor`: an update or insert cursor marks the table as updated; a search leaves the mark alone. */
    method Cursor(cursorType: string, fields: FieldsArg, kwargs: Kwargs) returns (r: Result<CursorRequest>)
      modifies this`updated
      ensures r == CursorSpec(fieldnames, validFields, query, cursorType, fields, kwargs)
      ensures updated == (old(updated) || (r.Ok? && r.value.kind != Search))
    {
      var names := fieldnames;
      if fields.Names? && fields != Names(["*"]) {
        names := fields.names;
      }
      if !FieldsValid(validFields, Names(names)) {
        return Err(ValueError("fields"));
      }
      var passed := Kwargs(Some(HandleQueries(query, kwargs.whereClause)), kwargs.sqlClause);
      if cursorType == "search" {
        return Ok(CursorRequest(Search, names, passed));
      }
      if cursorType == "update" {
        updated := true;
        return Ok(CursorRequest(Update, names, passed));
      }
      if cursorType == "insert" {
        updated := true;
        return Ok(CursorRequest(Insert, names, Kwargs(None, None)));
      }
      return Err(ValueError(cursorType));
    }

    /** `search_cursor(fields, **kwargs)`. */
    function SearchCursor(fields: FieldsArg, kwargs: Kwargs): (r: Result<CursorRequest>)
      reads this
      ensures Valid() ==> (r.Ok? <==> FieldsValid(validFields, fields))
      ensures r.Ok? ==> r.value.kind == Search && r.value.kwargs == Kwargs(Some(HandleQueries(query, kwargs.whereClause)), kwargs.sqlClause)
      ensures r.Ok? && (fields == AllFields || fields == Names(["*"])) ==> r.value.fields == fieldnames
    {
      if Valid() then
        FieldnamesAreValid(kind, listed);
        CursorSpec(fieldnames, validFields, query, "search", fields, kwargs)
      else
        CursorSpec(fieldnames, validFields, query, "search", fields, kwargs)
    }

    /**
     * `table[idx]`, dispatching int, then str, then a list of valid fields, then a
     * list of ints; an unknown OID or field name is a KeyError and anything else a
     * ValueError.
     */
    function GetItem(idx: Index): Result<Access>
      reads this
    {
      match idx
      case OidIndex(oid) =>
        if oid !in oidSet then Err(KeyError(IntToString(oid)))
        else
          var c := SearchCursor(AllFields, Kwargs(Some(Str(oidField + " = " + IntToString(oid))), None));
          if c.Err? then Err(c.error) else Ok(Row(c.value))
      case FieldIndex(f) =>
        if f !in fieldnames then Err(KeyError(f))
        else
          var c := SearchCursor(Names([f]), Kwargs(None, None));
          if c.Err? then Err(c.error) else Ok(Column(f, c.value))
      case ListIndex(items) =>
        if AllValidFields(items, validFields) then
          var c := SearchCursor(Names(ItemNames(items)), Kwargs(None, None));
          if c.Err? then Err(c.error) else Ok(Rows(c.value))
        else if AllInts(items) then
          var c := SearchCursor(AllFields, Kwargs(Some(Str(OidInClause(oidField, ItemInts(items)))), None));
          if c.Err? then Err(c.error) else Ok(Rows(c.value))
        else Err(ValueError("index"))
    }

    /**
     * The dispatch fails only where the source raises on purpose: every index
     * that passes its branch's check reads through a search cursor that opens.
     */
    lemma GetItemOutcome(idx: Index)
      requires Valid()
      ensures GetItem(idx).Ok? <==>
        match idx
        case OidIndex(oid) => oid in oidSet
        case FieldIndex(f) => f in fieldnames
        case ListIndex(items) => AllValidFields(items, validFields) || AllInts(items)
      ensures idx.OidIndex? && GetItem(idx).Ok? ==>
        GetItem(idx).value.request.kwargs.whereClause == Some(HandleQueries(query, Some(Str(oidField + " = " + IntToString(idx.oid)))))
      ensures idx.FieldIndex? && GetItem(idx).Ok? ==>
        GetItem(idx).value.request.fields == if idx.field == "*" then fieldnames else [idx.field]
      ensures idx.ListIndex? && !AllValidFields(idx.items, validFields) && AllInts(idx.items) ==>
        GetItem(idx).Ok? && GetItem(idx).value.request.kwargs.whereClause ==
          Some(HandleQueries(query, Some(Str(OidInClause(oidField, ItemInts(idx.items))))))
    {
      FieldnamesAreValid(kind, listed);
      match idx
      case OidIndex(oid) =>
      case FieldIndex(f) =>
        if f in fieldnames {
          if [f] == ["*"] { assert f == "*"; }
        }
      case ListIndex(items) =>
        if AllValidFields(items, validFields) {
          var names := ItemNames(items);
          if names == ["*"] { assert items[0].s == "*"; }
        }
    }

    /**
     * `Table._clause`: a truthy field outside `valid_fields` is a ValueError, and a
     * `;` in a truthy prefix or postfix is an SQLError; otherwise the rows come
     * from a search cursor with `sql_clause=(prefix, postfix)`.
     */
    function Clause(prefix: PyStr, postfix: PyStr, field: PyStr): (r: Result<CursorRequest>)
      reads this
      ensures r.Ok? ==> !field.Truthy() || field.text in validFields
      ensures r.Ok? ==> (r.value.kind == Search && r.value.kwargs.sqlClause == Some((prefix, postfix)) &&
        ';' !in prefix.Render() && ';' !in postfix.Render())
    {
      if field.Truthy() && field.text !in validFields then Err(ValueError(field.text))
      else if (prefix.Truthy() && ';' in prefix.text) || (postfix.Truthy() && ';' in postfix.text) then
        Err(SqlError("SQL Injection detected"))
      else SearchCursor(AllFields, Kwargs(None, Some((prefix, postfix))))
    }

    /** `Table._sort` (and `dsort`/`asort` with `reverse` true/false). */
    function Sort(field: string, reverse: bool, top: Top): (r: Result<CursorRequest>)
      reads this
      ensures BadTop(top) ==> r.Err?
      ensures r.Ok? ==> (';' !in field && r.value.kwargs.sqlClause.Some? &&
        StartsWith(r.value.kwargs.sqlClause.value.1.Render(), "ORDER BY " + field + " ") &&
        (EndsWith(r.value.kwargs.sqlClause.value.1.Render(), "DESC") <==> reverse))
    {
      PostfixFacts(field, reverse);
      if BadTop(top) then Err(ValueError("top"))
      else Clause(TopPrefix(top), Str(SortPostfix(field, reverse)), Str(field))
    }

    /** `Table.dsort`: a descending sort. */
    function DSort(field: string, top: Top): (r: Result<CursorRequest>)
      reads this
      ensures r.Ok? ==> r.value.kwargs.sqlClause.Some? && EndsWith(r.value.kwargs.sqlClause.value.1.Render(), "DESC")
    {
      Sort(field, true, top)
    }

    /** `Table.asort`: an ascending sort. */
    function ASort(field: string, top: Top): (r: Result<CursorRequest>)
      reads this
      ensures r.Ok? ==> r.value.kwargs.sqlClause.Some? && !EndsWith(r.value.kwargs.sqlClause.value.1.Render(), "DESC")
    {
      Sort(field, false, top)
    }

    /** `Table.group_by`. */
    function GroupBy(field: string, top: Top): Result<CursorRequest>
      reads this
    {
      if BadTop(top) then Err(ValueError("top"))
      else Clause(TopPrefix(top), Str("GROUP BY " + field), Str(field))
    }

    /** `Table.distinct`. */
    function Distinct(field: string): Result<CursorRequest>
      reads this
    {
      Clause(Str("DISTINCT " + field), PyNone, Str(field))
    }

    /**
     * `group_by` fails exactly for a non-int truthy `top`, an unknown field or a `;` in the field;
     * otherwise it emits `TOP n` only for a non-zero int and the postfix `GROUP BY field`.
     */
    lemma GroupByClause(field: string, top: Top)
      requires Valid()
      ensures GroupBy(field, top).Ok? <==> !BadTop(top) && (field == "" || field in validFields) && ';' !in field
      ensures GroupBy(field, top).Ok? ==>
        var sql := GroupBy(field, top).value.kwargs.sqlClause;
        sql.Some? &&
        (sql.value.0.Truthy() <==> top.IntTop? && top.n != 0) &&
        (sql.value.0.Truthy() ==> sql.value.0.text == "TOP " + IntToString(top.n)) &&
        sql.value.1 == Str("GROUP BY " + field)
    {
      TopPrefixFacts(top);
      var post := "GROUP BY " + field;
      assert forall c :: c in post <==> c in "GROUP BY " || c in field;
      ClauseGuard(TopPrefix(top), Str(post), Str(field));
    }

    /**
     * `distinct` fails exactly for an unknown field or a `;` in the field; otherwise it
     * emits the prefix `DISTINCT field` and no postfix.
     */
    lemma DistinctClause(field: string)
      requires Valid()
      ensures Distinct(field).Ok? <==> (field == "" || field in validFields) && ';' !in field
      ensures Distinct(field).Ok? ==> Distinct(field).value.kwargs.sqlClause == Some((Str("DISTINCT " + field), PyNone))
    {
      var pre := "DISTINCT " + field;
      assert forall c :: c in pre <==> c in "DISTINCT " || c in field;
      ClauseGuard(Str(pre), PyNone, Str(field));
    }

    /** Whatever clause reaches the store carries no `;`, and it reaches it only through a search cursor. */
    lemma ClauseGuard(prefix: PyStr, postfix: PyStr, field: PyStr)
      requires Valid()
      ensures Clause(prefix, postfix, field).Ok? <==>
        (!field.Truthy() || field.text in validFields) &&
        !(prefix.Truthy() && ';' in prefix.text) && !(postfix.Truthy() && ';' in postfix.text)
      ensures Clause(prefix, postfix, field).Ok? ==>
        var req := Clause(prefix, postfix, field).value;
        req.kind == Search && req.fields == fieldnames && req.kwargs.sqlClause == Some((prefix, postfix)) &&
        ';' !in prefix.Render() && ';' !in postfix.Render()
    {
      FieldnamesAreValid(kind, listed);
      CursorSpecAccepts(fieldnames, validFields, query, "search", AllFields, Kwargs(None, Some((prefix, postfix))));
    }

    /**
     * A sort emits `TOP n` only for a non-zero int `top`, orders by the field, and
     * says `DESC` exactly when `reverse` is set.
     */
    lemma SortClause(field: string, reverse: bool, top: Top)
      requires Valid()
      ensures Sort(field, reverse, top).Ok? <==>
        !BadTop(top) && (field == "" || field in validFields) && ';' !in field
      ensures Sort(field, reverse, top).Ok? ==>
        var sql := Sort(field, reverse, top).value.kwargs.sqlClause;
        sql.Some? &&
        (sql.value.0.Truthy() <==> top.IntTop? && top.n != 0) &&
        (sql.value.0.Truthy() ==> sql.value.0.text == "TOP " + IntToString(top.n)) &&
        StartsWith(sql.value.1.text, "ORDER BY " + field + " ") &&
        (EndsWith(sql.value.1.text, "DESC") <==> reverse)
    {
      PostfixFacts(field, reverse);
      TopPrefixFacts(top);
      ClauseGuard(TopPrefix(top), Str(SortPostfix(field, reverse)), Str(field));
    }

    /** `self | other`: the field names of either table. */
    function Union(other: Table): (r: set<string>)
      reads this, other
      ensures forall n :: n in r <==> n in fieldnames || n in other.fieldnames
    {
      NameUnion(fieldnames, other.fieldnames)
    }

    /** `self & other`: the field names of both tables. */
    function Intersection(other: Table): (r: set<string>)
      reads this, other
      ensures forall n :: n in r <==> n in fieldnames && n in other.fieldnames
    {
      NameIntersection(fieldnames, other.fieldnames)
    }

    /** `self - other`: the field names only this table has. */
    function Difference(other: Table): (r: set<string>)
      reads this, other
      ensures forall n :: n in r <==> n in fieldnames && n !in other.fieldnames
    {
      NameDifference(fieldnames, other.fieldnames)
    }

    /** `self == other`: the field name lists, in order; equal tables differ in no field either way. */
    predicate Equal(other: Table)
      reads this, other
      ensures Equal(other) ==> Difference(other) == {} && other.Difference(this) == {} && Union(other) == Intersection(other)
    {
      fieldnames == other.fieldnames
    }
  }

  // ---------------------------------------------------------------------------
  // Set-style operators over name lists (`list(set(a) | set(b))` and friends)

  function NameUnion(a: seq<string>, b: seq<string>): (r: set<string>)
    ensures forall n :: n in r <==> n in a || n in b
  {
    set n | n in a + b
  }

  function NameIntersection(a: seq<string>, b: seq<string>): (r: set<string>)
    ensures forall n :: n in r <==> n in a && n in b
  {
    set n | n in a && n in b
  }

  function NameDifference(a: seq<string>, b: seq<string>): (r: set<string>)
    ensures forall n :: n in r <==> n in a && n !in b
  {
    set n | n in a && n !in b
  }

  /**
   * The union splits into the two differences and the intersection, which do not
   * overlap; equal lists differ in nothing.
   */
  lemma NameAlgebra(a: seq<string>, b: seq<string>)
    ensures NameUnion(a, b) == NameDifference(a, b) + NameIntersection(a, b) + NameDifference(b, a)
    ensures NameDifference(a, b) !! NameIntersection(a, b) && NameIntersection(a, b) !! NameDifference(b, a)
    ensures NameIntersection(a, b) == NameIntersection(b, a) && NameUnion(a, b) == NameUnion(b, a)
    ensures a == b ==> NameDifference(a, b) == {} && NameUnion(a, b) == NameIntersection(a, b)
  {
  }

  /** `as_dict(cursor)`: each row becomes a dictionary from the cursor's field names. */
  function AsDict<V>(fields: seq<string>, rows: seq<seq<V>>): (r: seq<map<string, V>>)
    ensures |r| == |rows|
  {
    seq(|rows|, i requires 0 <= i < |rows| => Dicts.ZipDict(fields, rows[i]))
  }

  /** With distinct field names, each row's dictionary maps every field to that row's value in its column. */
  lemma AsDictAt<V>(fields: seq<string>, rows: seq<seq<V>>, i: int, j: int)
    requires forall a, b :: 0 <= a < b < |fields| ==> fields[a] != fields[b]
    requires 0 <= i < |rows| && 0 <= j < |fields| && j < |rows[i]|
    ensures fields[j] in AsDict(fields, rows)[i] && AsDict(fields, rows)[i][fields[j]] == rows[i][j]
  {
    Dicts.ZipDictAt(fields, rows[i], j);
  }

  // ---------------------------------------------------------------------------
  // The query count, as written and as intended

  /**
   * As written, setting a query on a fresh table leaves `len()` at 0 although the
   * query selects two of its three rows: the count is read back from the cache
   * the setter is about to fill.
   */
  method StaleQueryCount() returns (answer: int, selected: int)
    ensures answer == 0 && selected == 2
  {
    var t := new Table("Parcels", PlainTable, ["OBJECTID", "OWNER"], "OBJECTID", 3, {1, 2, 3});
    var _, _ := t.SetQuery(Str("OWNER = 'City'"), true, {1, 2, 3}, Some({1, 2}));
    answer := t.Len(3);
    selected := |t.oidSet|;
    assert t.oidSet == {1, 2} && |{1, 2}| == 2 by {
      assert {1, 2} == {1} + {2};
    }
  }

  /** With the corrected setter the same query makes `len()` report the two selected rows. */
  method QueryCountCorrected() returns (answer: int, selected: int)
    ensures answer == 2 && selected == 2
  {
    var t := new Table("Parcels", PlainTable, ["OBJECTID", "OWNER"], "OBJECTID", 3, {1, 2, 3});
    var _ := t.SetQueryCorrected(Str("OWNER = 'City'"), true, {1, 2, 3}, {1, 2});
    assert |{1, 2}| == 2 by {
      assert {1, 2} == {1} + {2};
    }
    answer := t.Len(3);
    selected := |t.oidSet|;
  }

  // ---------------------------------------------------------------------------
  // Workspaces

  /** A workspace filter: the `ALL` sentinel or a list of names (an empty list keeps nothing). */
  datatype Filter = All | Only(names: seq<string>)

  /** `filter == ALL or (filter and name in filter)`. */
  predicate Keeps(filter: Filter, name: string)
  {
    filter.All? || (|filter.names| > 0 && name in filter.names)
  }

  /** What the `arcpy.List*` calls report inside the workspace; a dataset missing from `inDataset` lists nothing. */
  datatype Listing = Listing(datasets: seq<string>, featureClasses: seq<string>,
                             inDataset: map<string, seq<string>>, tables: seq<string>)

  function InDataset(listing: Listing, ds: string): seq<string>
  {
    if ds in listing.inDataset then listing.inDataset[ds] else []
  }

  class FeatureDataset {
    const path: string

    constructor (path: string)
      ensures this.path == path
    {
      this.path := path;
    }
  }

  /** A workspace child: the path it was listed with until first access, then the wrapper built for it. */
  datatype Child = Pending(path: string) | Loaded(table: Table) | LoadedDataset(dataset: FeatureDataset)

  /** The names a filtered comprehension keeps, in listing order. */
  function Kept(names: seq<string>, filter: Filter): (r: seq<string>)
    ensures forall n :: n in r <==> n in names && Keeps(filter, n)
  {
    if |names| == 0 then []
    else
      var rest := Kept(names[1..], filter);
      assert forall n :: n in names <==> n == names[0] || n in names[1..];
      if Keeps(filter, names[0]) then [names[0]] + rest else rest
  }

  /** The `key: path` pairs a filtered comprehension visits: `prefix + name` mapped to `join(dir, name)`. */
  function Entries(dir: string, names: seq<string>, filter: Filter, keyPrefix: string): (r: seq<(string, string)>)
  {
    var kept := Kept(names, filter);
    seq(|kept|, i requires 0 <= i < |kept| => (keyPrefix + kept[i], JoinPath(dir, kept[i])))
  }

  /** The keys of a run of pairs, in order. */
  function EntryKeys(entries: seq<(string, string)>): (r: seq<string>)
    ensures |r| == |entries| && forall i :: 0 <= i < |entries| ==> r[i] == entries[i].0
  {
    if |entries| == 0 then [] else [entries[0].0] + EntryKeys(entries[1..])
  }

  /** A key of `Entries` is the prefix followed by a name the filter keeps. */
  lemma EntriesKeys(dir: string, names: seq<string>, filter: Filter, keyPrefix: string)
    ensures forall k :: k in EntryKeys(Entries(dir, names, filter, keyPrefix)) <==>
      exists n :: n in names && Keeps(filter, n) && k == keyPrefix + n
  {
    var kept := Kept(names, filter);
    var ks := EntryKeys(Entries(dir, names, filter, keyPrefix));
    EntryKeysAt(dir, names, filter, keyPrefix);
    forall k | k in ks
      ensures exists n :: n in names && Keeps(filter, n) && k == keyPrefix + n
    {
      var i :| 0 <= i < |ks| && ks[i] == k;
      assert kept[i] in kept;
      assert kept[i] in names && Keeps(filter, kept[i]) && k == keyPrefix + kept[i];
    }
    forall n | n in names && Keeps(filter, n)
      ensures keyPrefix + n in ks
    {
      var i :| 0 <= i < |kept| && kept[i] == n;
      assert ks[i] == keyPrefix + n;
    }
  }

  lemma EntryKeysAt(dir: string, names: seq<string>, filter: Filter, keyPrefix: string)
    ensures |EntryKeys(Entries(dir, names, filter, keyPrefix))| == |Kept(names, filter)|
    ensures forall i :: 0 <= i < |Kept(names, filter)| ==>
      EntryKeys(Entries(dir, names, filter, keyPrefix))[i] == keyPrefix + Kept(names, filter)[i]
  {
  }

  /** `order` lists each of `keys` exactly once. */
  predicate KeyOrdered(keys: set<string>, order: seq<string>)
  {
    (forall i, j :: 0 <= i < j < |order| ==> order[i] != order[j]) &&
    (forall k :: k in keys ==> k in order) && (forall k :: k in order ==> k in keys)
  }

  /** A dictionary of paths together with its key order. */
  datatype Dict = Dict(entries: map<string, string>, order: seq<string>)
  {
    predicate Ordered()
    {
      KeyOrdered(entries.Keys, order)
    }
  }

  /** `d[k] = v`: an existing key keeps its place, a new one goes last. */
  function Put(d: Dict, k: string, v: string): (r: Dict)
    ensures r.entries == d.entries[k := v]
    ensures d.Ordered() ==> r.Ordered()
  {
    Dict(d.entries[k := v], if k in d.entries then d.order else d.order + [k])
  }

  /**
   * `d.update(entries)` and, from an empty dictionary, the comprehension itself:
   * the keys are the old ones and the new ones, and a key's value is the one it
   * already had or one of the pairs that name it.
   */
  function PutAll(d: Dict, entries: seq<(string, string)>): (r: Dict)
    ensures d.Ordered() ==> r.Ordered()
    ensures forall k :: k in r.entries <==> k in d.entries || k in EntryKeys(entries)
    ensures forall k :: k in r.entries ==> (k, r.entries[k]) in entries || (k in d.entries && r.entries[k] == d.entries[k])
    decreases |entries|
  {
    if |entries| == 0 then d
    else
      var r := PutAll(Put(d, entries[0].0, entries[0].1), entries[1..]);
      assert forall k :: k in EntryKeys(entries) <==> k == entries[0].0 || k in EntryKeys(entries[1..]) by {
        assert EntryKeys(entries) == [entries[0].0] + EntryKeys(entries[1..]);
      }
      assert forall e :: e in entries[1..] ==> e in entries;
      assert forall k :: k in r.entries && k == entries[0].0 && (k, r.entries[k]) !in entries[1..] ==> (k, r.entries[k]) == entries[0];
      r
  }

  /** `{ds: join(path, ds) for ds in ListDatasets() if kept}`. */
  function DatasetDict(path: string, listing: Listing, filter: Filter): Dict
  {
    PutAll(Dict(map[], []), Entries(path, listing.datasets, filter, ""))
  }

  /** The feature classes of each dataset in `datasets`, added in turn under `ds/fc`. */
  function WithDatasets(d: Dict, path: string, listing: Listing, filter: Filter, datasets: seq<string>): Dict
  {
    if |datasets| == 0 then d
    else
      var ds := datasets[|datasets| - 1];
      PutAll(WithDatasets(d, path, listing, filter, datasets[..|datasets| - 1]),
             Entries(JoinPath(path, ds), InDataset(listing, ds), filter, ds + "/"))
  }

  /** `self.featureclasses` once `__init__` is over. */
  function FeatureClassDict(path: string, listing: Listing, dsFilter: Filter, fcFilter: Filter): Dict
  {
    WithDatasets(TopFeatureClassDict(path, listing, fcFilter), path, listing, fcFilter, DatasetDict(path, listing, dsFilter).order)
  }

  /** The feature classes outside any dataset. */
  function TopFeatureClassDict(path: string, listing: Listing, filter: Filter): Dict
  {
    PutAll(Dict(map[], []), Entries(path, listing.featureClasses, filter, ""))
  }

  /** `{tbl: join(path, tbl) for tbl in ListTables() if kept}`. */
  function TableDict(path: string, listing: Listing, filter: Filter): Dict
  {
    PutAll(Dict(map[], []), Entries(path, listing.tables, filter, ""))
  }

  /** The dictionaries built from the listing alone keep their keys in order. */
  lemma TopDictsOrdered(path: string, listing: Listing, dsFilter: Filter, fcFilter: Filter, tblFilter: Filter)
    ensures DatasetDict(path, listing, dsFilter).Ordered()
    ensures TopFeatureClassDict(path, listing, fcFilter).Ordered()
    ensures TableDict(path, listing, tblFilter).Ordered()
  {
    assert Dict(map[], []).Ordered();
  }


  /** The `for ds in self.datasets.keys(): self.featureclasses.update(...)` loop. */
  method AddNested(top: Dict, path: string, listing: Listing, filter: Filter, names: seq<string>) returns (d: Dict)
    ensures d == WithDatasets(top, path, listing, filter, names)
    ensures top.Ordered() ==> d.Ordered()
  {
    d := top;
    for i := 0 to |names|
      invariant d == WithDatasets(top, path, listing, filter, names[..i])
      invariant top.Ordered() ==> d.Ordered()
    {
      var ds := names[i];
      assert names[..i + 1][..i] == names[..i];
      d := PutAll(d, Entries(JoinPath(path, ds), InDataset(listing, ds), filter, ds + "/"));
    }
    assert names[..|names|] == names;
  }

  /** A nested feature class key: `ds/fc` for a listed dataset `ds` and a kept feature class `fc` of it. */
  predicate NestedKey(listing: Listing, filter: Filter, datasets: seq<string>, k: string)
  {
    exists ds, fc :: ds in datasets && fc in InDataset(listing, ds) && Keeps(filter, fc) && k == ds + "/" + fc
  }

  /** The keys the nested additions bring in, stated without the fold. */
  lemma {:induction false} WithDatasetsKeys(d: Dict, path: string, listing: Listing, filter: Filter, datasets: seq<string>)
    ensures forall k :: k in WithDatasets(d, path, listing, filter, datasets).entries <==>
      k in d.entries || NestedKey(listing, filter, datasets, k)
  {
    if |datasets| > 0 {
      var init := datasets[..|datasets| - 1];
      var ds := datasets[|datasets| - 1];
      WithDatasetsKeys(d, path, listing, filter, init);
      EntriesKeys(JoinPath(path, ds), InDataset(listing, ds), filter, ds + "/");
      forall k ensures NestedKey(listing, filter, datasets, k) <==>
        NestedKey(listing, filter, init, k) || exists fc :: fc in InDataset(listing, ds) && Keeps(filter, fc) && k == ds + "/" + fc
      {
        if NestedKey(listing, filter, datasets, k) {
          var x, fc :| x in datasets && fc in InDataset(listing, x) && Keeps(filter, fc) && k == x + "/" + fc;
          if x != ds {
            assert x in init;
          }
        }
        if NestedKey(listing, filter, init, k) {
          var x, fc :| x in init && fc in InDataset(listing, x) && Keeps(filter, fc) && k == x + "/" + fc;
          assert x in datasets;
        }
      }
    }
  }

  /** The top-level keys of a comprehension are exactly the kept names. */
  lemma TopLevelKeys(path: string, names: seq<string>, filter: Filter)
    ensures forall k :: k in PutAll(Dict(map[], []), Entries(path, names, filter, "")).entries <==> k in names && Keeps(filter, k)
  {
    EntriesKeys(path, names, filter, "");
    forall n ensures "" + n == n { }
  }

  /** Each top-level child is stored under its own name with the path `join(workspace, name)`. */
  lemma TopLevelPaths(path: string, names: seq<string>, filter: Filter)
    ensures forall k :: k in PutAll(Dict(map[], []), Entries(path, names, filter, "")).entries ==>
      PutAll(Dict(map[], []), Entries(path, names, filter, "")).entries[k] == JoinPath(path, k)
  {
    var es := Entries(path, names, filter, "");
    var m := PutAll(Dict(map[], []), es).entries;
    forall k | k in m ensures m[k] == JoinPath(path, k) {
      EntryPath(path, names, filter, k, m[k]);
    }
  }

  /** A pair of a top-level comprehension maps a name to that name joined to the directory. */
  lemma EntryPath(dir: string, names: seq<string>, filter: Filter, k: string, v: string)
    requires (k, v) in Entries(dir, names, filter, "")
    ensures v == JoinPath(dir, k)
  {
    var es := Entries(dir, names, filter, "");
    var kept := Kept(names, filter);
    var i :| 0 <= i < |es| && es[i] == (k, v);
    assert "" + kept[i] == kept[i];
  }

  /**
   * Which names a workspace holds: a dataset or table exactly when it is listed
   * and its filter keeps it; a feature class when it is listed at the top level
   * and kept, or as `ds/fc` for a kept dataset `ds` that lists a kept `fc`.
   */
  lemma WorkspaceKeys(path: string, listing: Listing, dsFilter: Filter, fcFilter: Filter, tblFilter: Filter)
    ensures forall k :: k in DatasetDict(path, listing, dsFilter).entries <==> k in listing.datasets && Keeps(dsFilter, k)
    ensures forall k :: k in TableDict(path, listing, tblFilter).entries <==> k in listing.tables && Keeps(tblFilter, k)
    ensures forall k :: k in FeatureClassDict(path, listing, dsFilter, fcFilter).entries <==>
      (k in listing.featureClasses && Keeps(fcFilter, k)) ||
      exists ds, fc :: ds in listing.datasets && Keeps(dsFilter, ds) && fc in InDataset(listing, ds) &&
        Keeps(fcFilter, fc) && k == ds + "/" + fc
  {
    TopLevelKeys(path, listing.datasets, dsFilter);
    TopLevelKeys(path, listing.tables, tblFilter);
    FeatureClassKeys(path, listing, dsFilter, fcFilter);
  }

  /** The feature class keys: the kept top-level ones and `ds/fc` under every kept dataset. */
  lemma FeatureClassKeys(path: string, listing: Listing, dsFilter: Filter, fcFilter: Filter)
    ensures forall k :: k in FeatureClassDict(path, listing, dsFilter, fcFilter).entries <==>
      (k in listing.featureClasses && Keeps(fcFilter, k)) ||
      NestedKey(listing, fcFilter, DatasetDict(path, listing, dsFilter).order, k)
    ensures forall ds :: ds in DatasetDict(path, listing, dsFilter).order <==> ds in listing.datasets && Keeps(dsFilter, ds)
  {
    var dsd := DatasetDict(path, listing, dsFilter);
    TopLevelKeys(path, listing.datasets, dsFilter);
    TopDictsOrdered(path, listing, dsFilter, fcFilter, fcFilter);
    TopLevelKeys(path, listing.featureClasses, fcFilter);
    var top := TopFeatureClassDict(path, listing, fcFilter);
    WithDatasetsKeys(top, path, listing, fcFilter, dsd.order);
  }

  /** What `arcpy.Describe` and `ListFields` report when a lazily loaded child is opened. */
  datatype Opening = Opening(fields: seq<string>, oidField: string, shapeField: string, total: nat, oids: set<int>)
  {
    /**
     * What arcpy reports for a child of this kind: the OID field is one of the fields and,
     * for a feature class only, so is its shape field, which is not the OID field.
     */
    predicate Describes(kind: Kind)
    {
      oidField in fields &&
      (kind.FeatureClassOf? ==> kind.shapeField == shapeField && shapeField in fields && shapeField != oidField)
    }
  }

  /** A dictionary's paths, none of them opened yet. */
  function AllPending(d: Dict): (m: map<string, Child>)
    ensures m.Keys == d.entries.Keys
    ensures forall k :: k in m ==> m[k] == Pending(d.entries[k])
    ensures d.Ordered() ==> KeyOrdered(m.Keys, d.order)
  {
    map k | k in d.entries :: Pending(d.entries[k])
  }

  /** `FeatureClass(path)` or `Table(path)`: a new table over what `opening` describes. */
  method Open(path: string, kind: Kind, opening: Opening) returns (c: Child)
    requires opening.Describes(kind)
    ensures c.Loaded? && fresh(c.table) && c.table.path == path && c.table.kind == kind
  {
    var t := new Table(path, kind, opening.fields, opening.oidField, opening.total, opening.oids);
    c := Loaded(t);
  }

  /** Replacing the child of an existing key keeps the keys, and so their order. */
  lemma UpdateOrdered(m: map<string, Child>, k: string, v: Child, order: seq<string>)
    requires k in m && KeyOrdered(m.Keys, order)
    ensures KeyOrdered(m[k := v].Keys, order)
  {
    assert m[k := v].Keys == m.Keys;
  }

  class Workspace {
    const path: string
    var datasets: map<string, Child>
    var featureclasses: map<string, Child>
    var tables: map<string, Child>
    /** The key order of each dictionary; access never adds or removes keys. */
    var datasetOrder: seq<string>
    var featureclassOrder: seq<string>
    var tableOrder: seq<string>

    predicate Valid()
      reads this
    {
      KeyOrdered(datasets.Keys, datasetOrder) &&
      KeyOrdered(featureclasses.Keys, featureclassOrder) &&
      KeyOrdered(tables.Keys, tableOrder)
    }

    /** `Workspace(path, dataset_filter=..., featureclass_filter=..., table_filter=...)` over a listing. */
    constructor (path: string, listing: Listing, dsFilter: Filter, fcFilter: Filter, tblFilter: Filter)
      ensures Valid()
      ensures this.path == path
      ensures datasets == AllPending(DatasetDict(path, listing, dsFilter))
      ensures datasetOrder == DatasetDict(path, listing, dsFilter).order
      ensures featureclasses == AllPending(FeatureClassDict(path, listing, dsFilter, fcFilter))
      ensures featureclassOrder == FeatureClassDict(path, listing, dsFilter, fcFilter).order
      ensures tables == AllPending(TableDict(path, listing, tblFilter))
      ensures tableOrder == TableDict(path, listing, tblFilter).order
    {
      this.path := path;
      var dsd := DatasetDict(path, listing, dsFilter);
      var top := TopFeatureClassDict(path, listing, fcFilter);
      var tbd := TableDict(path, listing, tblFilter);
      TopDictsOrdered(path, listing, dsFilter, fcFilter, tblFilter);
      var fcd := AddNested(top, path, listing, fcFilter, dsd.order);
      datasets, datasetOrder := AllPending(dsd), dsd.order;
      featureclasses, featureclassOrder := AllPending(fcd), fcd.order;
      tables, tableOrder := AllPending(tbd), tbd.order;
    }

    /** `len(workspace)`: feature classes, tables and datasets together. */
    function Len(): (n: nat)
      reads this
      requires Valid()
      ensures n == |featureclasses| + |tables| + |datasets|
    {
      DistinctCard(featureclasses.Keys, featureclassOrder);
      DistinctCard(tables.Keys, tableOrder);
      DistinctCard(datasets.Keys, datasetOrder);
      |featureclassOrder| + |tableOrder| + |datasetOrder|
    }

    /**
     * `opening` describes the child `name` would load: a pending feature class needs a shape
     * field, a pending table only its OID field; a dataset or a loaded child reads nothing.
     */
    predicate Opens(name: string, opening: Opening)
      reads this
    {
      (name in featureclasses && featureclasses[name].Pending? ==> opening.Describes(FeatureClassOf(opening.shapeField))) &&
      (name !in featureclasses && name in tables && tables[name].Pending? ==> opening.Describes(PlainTable))
    }

    /**
     * `workspace[name]`: feature classes are searched first, then tables, then
     * datasets. A child still holding its path is opened (with what `opening`
     * describes) and stored in place of the path; a child opened before is
     * returned as it is. An unknown name is a KeyError.
     */
    method GetItem(name: string, opening: Opening) returns (r: Result<Child>)
      requires Valid() && Opens(name, opening)
      modifies this
      ensures Valid()
      ensures featureclassOrder == old(featureclassOrder) && tableOrder == old(tableOrder) && datasetOrder == old(datasetOrder)
      ensures r.Err? <==> name !in old(featureclasses) && name !in old(tables) && name !in old(datasets)
      ensures r.Err? ==> r.error == KeyError(name) && unchanged(this)
      ensures name in old(featureclasses) ==>
        featureclasses == old(featureclasses)[name := r.value] && tables == old(tables) && datasets == old(datasets) &&
        (old(featureclasses[name]).Pending? ==>
          r.value.Loaded? && fresh(r.value.table) && r.value.table.path == old(featureclasses[name]).path &&
          r.value.table.kind == FeatureClassOf(opening.shapeField)) &&
        (!old(featureclasses[name]).Pending? ==> r.value == old(featureclasses[name]))
      ensures name !in old(featureclasses) && name in old(tables) ==>
        tables == old(tables)[name := r.value] && featureclasses == old(featureclasses) && datasets == old(datasets) &&
        (old(tables[name]).Pending? ==>
          r.value.Loaded? && fresh(r.value.table) && r.value.table.path == old(tables[name]).path &&
          r.value.table.kind == PlainTable) &&
        (!old(tables[name]).Pending? ==> r.value == old(tables[name]))
      ensures name !in old(featureclasses) && name !in old(tables) && name in old(datasets) ==>
        datasets == old(datasets)[name := r.value] && featureclasses == old(featureclasses) && tables == old(tables) &&
        (old(datasets[name]).Pending? ==>
          r.value.LoadedDataset? && fresh(r.value.dataset) && r.value.dataset.path == old(datasets[name]).path) &&
        (!old(datasets[name]).Pending? ==> r.value == old(datasets[name]))
    {
      if name in featureclasses {
        var child := featureclasses[name];
        if child.Pending? {
          child := Open(child.path, FeatureClassOf(opening.shapeField), opening);
          UpdateOrdered(featureclasses, name, child, featureclassOrder);
          featureclasses := featureclasses[name := child];
        }
        return Ok(child);
      }
      if name in tables {
        var child := tables[name];
        if child.Pending? {
          child := Open(child.path, PlainTable, opening);
          UpdateOrdered(tables, name, child, tableOrder);
          tables := tables[name := child];
        }
        return Ok(child);
      }
      if name in datasets {
        var child := datasets[name];
        if child.Pending? {
          var d := new FeatureDataset(child.path);
          child := LoadedDataset(d);
          UpdateOrdered(datasets, name, child, datasetOrder);
          datasets := datasets[name := child];
        }
        return Ok(child);
      }
      return Err(KeyError(name));
    }

    /** `(*self.featureclasses, *self.tables)`: the children the operators compare. */
    function Children(): (r: seq<string>)
      reads this
      ensures Valid() ==> forall n :: n in r <==> n in featureclasses || n in tables
    {
      featureclassOrder + tableOrder
    }

    /** `self == other`: the same feature classes and tables, in the same order. */
    predicate Equal(other: Workspace)
      reads this, other
      ensures Equal(other) ==> Difference(other) == {} && other.Difference(this) == {} && Union(other) == Intersection(other)
    {
      Children() == other.Children()
    }

    /** `self | other`: the children of either workspace. */
    function Union(other: Workspace): (r: set<string>)
      reads this, other
      ensures Valid() && other.Valid() ==>
        forall n :: n in r <==> n in featureclasses || n in tables || n in other.featureclasses || n in other.tables
    {
      NameUnion(Children(), other.Children())
    }

    /** `self & other`: the children both workspaces have. */
    function Intersection(other: Workspace): (r: set<string>)
      reads this, other
      ensures Valid() && other.Valid() ==>
        forall n :: n in r <==> (n in featureclasses || n in tables) && (n in other.featureclasses || n in other.tables)
    {
      NameIntersection(Children(), other.Children())
    }

    /** `self - other`: the children only this workspace has. */
    function Difference(other: Workspace): (r: set<string>)
      reads this, other
      ensures Valid() && other.Valid() ==>
        forall n :: n in r <==> (n in featureclasses || n in tables) && n !in other.featureclasses && n !in other.tables
    {
      NameDifference(Children(), other.Children())
    }
  }

  /** Opening a child once and asking for it again gives back the same wrapper object. */
  method LoadsOnce(w: Workspace, name: string, first: Opening, second: Opening) returns (a: Result<Child>, b: Result<Child>)
    requires w.Valid() && w.Opens(name, first)
    modifies w
    ensures a.Ok? <==> b.Ok?
    ensures a == b
  {
    a := w.GetItem(name, first);
    b := w.GetItem(name, second);
  }

  /** A key set has as many members as an order listing each of them once. */
  lemma DistinctCard(keys: set<string>, order: seq<string>)
    requires KeyOrdered(keys, order)
    ensures |keys| == |order|
  {
    DistinctSetCard(order);
    assert keys == set k | k in order;
  }

  lemma {:induction false} DistinctSetCard(s: seq<string>)
    requires forall i, j :: 0 <= i < j < |s| ==> s[i] != s[j]
    ensures |set k | k in s| == |s|
  {
    if |s| > 0 {
      var init := s[..|s| - 1];
      DistinctSetCard(init);
      assert (set k | k in s) == (set k | k in init) + {s[|s| - 1]};
      assert s[|s| - 1] !in init;
    }
  }
}
