/**
 * Tables and columns: slug assignment, the data-type dispatch to column
 * handlers, and everything a table derives from its columns (the record
 * model, the model form, the filter map, the searchable column and the
 * tables that depend on it through relation columns).
 */
module TableModels {
  import opened Wrappers
  import opened Json
  import opened Exceptions
  import opened Seqs
  import opened ContentTypes
  import opened ColumnHandlers
  import opened UserModels

  // ---------------------------------------------------------------------
  // Data types and dispatch
  // ---------------------------------------------------------------------

  /** Column.DType. */
  datatype DType = Text | Integer | Float | BigText | Relation

  function DTypeCode(d: DType): int
  {
    match d
    case Text => 0
    case Integer => 1
    case Float => 3
    case BigText => 4
    case Relation => 5
  }

  function DTypeFromCode(code: int): (d: Option<DType>)
    ensures d.Some? <==> code in {0, 1, 3, 4, 5}
  {
    if code == 0 then Some(Text)
    else if code == 1 then Some(Integer)
    else if code == 3 then Some(Float)
    else if code == 4 then Some(BigText)
    else if code == 5 then Some(Relation)
    else None
  }

  /** The stored data-type codes and the enum members correspond one to one. */
  lemma DTypeCodesRoundTrip(d: DType, code: int)
    ensures DTypeFromCode(DTypeCode(d)) == Some(d)
    ensures DTypeFromCode(code) == Some(d) <==> DTypeCode(d) == code
  {
  }

  /** Column.HANDLERS: the handler class of each data type. */
  function HandlerClassOf(d: DType): (cls: HandlerClass)
    ensures d == Text <==> cls == TextColumnHandler
    ensures d == Integer <==> cls == IntegerColumnHandler
    ensures d == Float <==> cls == FloatColumnHandler
    ensures d == BigText <==> cls == BigTextColumnHandler
    ensures d == Relation <==> cls == RelationColumnHandler
  {
    match d
    case Text => TextColumnHandler
    case Integer => IntegerColumnHandler
    case Float => FloatColumnHandler
    case BigText => BigTextColumnHandler
    case Relation => RelationColumnHandler
  }

  // ---------------------------------------------------------------------
  // Slugs
  // ---------------------------------------------------------------------

  const SLUG_MAX_LENGTH: nat := 64
  const TABLE_SLUG_PREFIX := "table_"
  const COLUMN_SLUG_PREFIX := "column_"

  /** An md5 hex digest: 32 lower-case hexadecimal characters. */
  predicate IsHexDigest(d: string)
  {
    |d| == 32 && forall k :: 0 <= k < |d| ==> d[k] in "0123456789abcdef"
  }

  /**
   * The slug an object keeps or receives on construction: a non-empty given
   * slug is kept; an empty one becomes the prefix followed by a digest of the
   * clock and a random number, which the model takes as a parameter.
   */
  function AssignSlug(prefix: string, given: string, digest: string): (slug: string)
    requires IsHexDigest(digest)
    ensures slug != ""
    ensures given != "" ==> slug == given
    ensures given == "" ==> |slug| == |prefix| + 32 && slug[..|prefix|] == prefix
                            && IsHexDigest(slug[|prefix|..])
  {
    if given != "" then given
    else
      var s := prefix + digest;
      assert s[..|prefix|] == prefix && s[|prefix|..] == digest;
      s
  }

  // ---------------------------------------------------------------------
  // Tables and columns
  // ---------------------------------------------------------------------

  datatype Table = Table(
    id: nat,
    name: string,
    description: Option<string>,
    slug: string,
    options: Json)

  datatype Column = Column(
    id: nat,
    name: string,
    slug: string,
    dtype: DType,
    settings: Settings,
    isFilterable: bool,
    isDisplayable: bool,
    tableId: nat)
  {
    /** The handler `__init__` attaches to the column. */
    function Handler(): (h: ColumnHandlers.Handler)
      ensures h.cls == HandlerClassOf(dtype)
      ensures h.name == name && h.slug == slug && h.settings == settings
    {
      ColumnHandlers.Handler(HandlerClassOf(dtype), name, slug, settings)
    }

    /** `get_filters_names`: the filters the settings declare, none when they declare none. */
    function FilterNames(): (r: Json)
      ensures "filters" in settings ==> r == settings["filters"]
      ensures "filters" !in settings ==> r == JList([])
    {
      Filters(Handler())
    }
  }

  /** `Table.__init__`: the table keeps a given slug or receives a "table_" one. */
  function NewTable(id: nat, name: string, description: Option<string>, slug: string,
                    options: Json, digest: string): (t: Table)
    requires IsHexDigest(digest)
    ensures t.slug == AssignSlug(TABLE_SLUG_PREFIX, slug, digest)
    ensures t.id == id && t.name == name && t.description == description && t.options == options
  {
    Table(id, name, description, AssignSlug(TABLE_SLUG_PREFIX, slug, digest), options)
  }

  /**
   * `Column.__init__`: the slug rule with the "column_" prefix, then the
   * handler looked up by data-type code; an unknown code raises KeyError.
   * Every known data type, relation included, gets its handler.
   */
  function NewColumn(id: nat, name: string, slug: string, dtypeCode: int, settings: Settings,
                     isFilterable: bool, isDisplayable: bool, tableId: nat, digest: string)
    : (r: Result<Column, Exception>)
    requires IsHexDigest(digest)
    ensures r.Ok? <==> DTypeFromCode(dtypeCode).Some?
    ensures r.Err? ==> r.error == KeyError(JInt(dtypeCode))
    ensures r.Ok? ==> r.value.id == id && r.value.name == name
                      && r.value.slug == AssignSlug(COLUMN_SLUG_PREFIX, slug, digest)
                      && DTypeCode(r.value.dtype) == dtypeCode
                      && r.value.settings == settings && r.value.tableId == tableId
                      && r.value.isFilterable == isFilterable
                      && r.value.isDisplayable == isDisplayable
  {
    var s := AssignSlug(COLUMN_SLUG_PREFIX, slug, digest);
    match DTypeFromCode(dtypeCode)
    case None => Err(KeyError(JInt(dtypeCode)))
    case Some(d) => Ok(Column(id, name, s, d, settings, isFilterable, isDisplayable, tableId))
  }

  /**
   * `Column.__init__` as the code is written: the relation handler class
   * cannot be instantiated (AbstractMethodsLeft), so constructing a relation
   * column raises TypeError.
   */
  function NewColumnAsWritten(id: nat, name: string, slug: string, dtypeCode: int, settings: Settings,
                              isFilterable: bool, isDisplayable: bool, tableId: nat, digest: string)
    : (r: Result<Column, Exception>)
    requires IsHexDigest(digest)
    ensures r.Ok? <==> DTypeFromCode(dtypeCode).Some? && dtypeCode != DTypeCode(Relation)
  {
    var s := AssignSlug(COLUMN_SLUG_PREFIX, slug, digest);
    match DTypeFromCode(dtypeCode)
    case None => Err(KeyError(JInt(dtypeCode)))
    case Some(d) =>
      match InstantiateAsWritten(HandlerClassOf(d), name, s, settings)
      case Err(e) => Err(e)
      case Ok(_) => Ok(Column(id, name, s, d, settings, isFilterable, isDisplayable, tableId))
  }

  /** A relation column, as the code is written, cannot be constructed at all. */
  lemma RelationColumnRejectedAsWritten(id: nat, name: string, slug: string, settings: Settings,
                                        isFilterable: bool, isDisplayable: bool, tableId: nat, digest: string)
    requires IsHexDigest(digest)
    ensures NewColumnAsWritten(id, name, slug, 5, settings, isFilterable, isDisplayable, tableId, digest)
            == Err(TypeError)
  {
  }

  /** With the dispatch corrected, every column type can be constructed. */
  lemma NewColumnAcceptsEveryDType(d: DType, id: nat, name: string, slug: string, settings: Settings,
                                   isFilterable: bool, isDisplayable: bool, tableId: nat, digest: string)
    requires IsHexDigest(digest)
    ensures var r := NewColumn(id, name, slug, DTypeCode(d), settings, isFilterable, isDisplayable,
                               tableId, digest);
            r.Ok? && r.value.dtype == d && r.value.Handler().cls == HandlerClassOf(d)
  {
    DTypeCodesRoundTrip(d, DTypeCode(d));
  }

  /** A generated slug fits the 64-character slug column of both tables and columns. */
  lemma GeneratedSlugsFit(given: string, digest: string)
    requires IsHexDigest(digest)
    ensures given == "" ==> |AssignSlug(TABLE_SLUG_PREFIX, given, digest)| <= SLUG_MAX_LENGTH
    ensures given == "" ==> |AssignSlug(COLUMN_SLUG_PREFIX, given, digest)| <= SLUG_MAX_LENGTH
    ensures given == "" ==> AssignSlug(TABLE_SLUG_PREFIX, given, digest)
                            != AssignSlug(COLUMN_SLUG_PREFIX, given, digest)
  {
    if given == "" {
      var t := AssignSlug(TABLE_SLUG_PREFIX, given, digest);
      var c := AssignSlug(COLUMN_SLUG_PREFIX, given, digest);
      assert t[0] == 't' && c[0] == 'c';
    }
  }

  // ---------------------------------------------------------------------
  // The searchable column
  // ---------------------------------------------------------------------

  predicate IsText(c: Column) { c.dtype == Text }

  /** `QuerySet.first()`: the row with the smallest primary key, or None. */
  function FirstById(cols: seq<Column>): (r: Option<Column>)
    ensures r.None? <==> cols == []
    ensures r.Some? ==> r.value in cols && forall c :: c in cols ==> r.value.id <= c.id
  {
    if cols == [] then None
    else
      var rest := FirstById(cols[1..]);
      if rest.None? || cols[0].id <= rest.value.id then Some(cols[0]) else rest
  }

  /**
   * `searchable_column`: the first text column if there is one, otherwise
   * the first column, otherwise None.
   */
  function SearchableColumn(cols: seq<Column>): (r: Option<Column>)
    ensures r.None? <==> cols == []
    ensures r.Some? ==> r.value in cols
    ensures (exists c :: c in cols && c.dtype == Text) ==>
              r.value.dtype == Text && forall c :: c in cols && c.dtype == Text ==> r.value.id <= c.id
    ensures (forall c :: c in cols ==> c.dtype != Text) ==>
              r.Some? ==> forall c :: c in cols ==> r.value.id <= c.id
  {
    FilterMembership(cols, IsText);
    match FirstById(Filter(cols, IsText))
    case Some(c) => Some(c)
    case None => FirstById(cols)
  }

  // ---------------------------------------------------------------------
  // Displayable and read-only columns, the model form
  // ---------------------------------------------------------------------

  /**
   * `get_displayable_columns`: the displayable columns the user may read,
   * in their stored order. `allows(op, c)` is the user's permission check.
   */
  function DisplayableColumns(cols: seq<Column>, allows: (Operation, Column) -> bool): (r: seq<Column>)
    ensures forall c :: c in r <==> c in cols && c.isDisplayable && allows(Read, c)
    ensures IsSubsequence(r, cols)
  {
    var shown := (c: Column) => c.isDisplayable && allows(Read, c);
    FilterMembership(cols, shown);
    FilterIsSubsequence(cols, shown);
    Filter(cols, shown)
  }

  /** The read-only part of the model form: the given columns the user may not write. */
  function ReadonlyColumns(displayable: seq<Column>, allows: (Operation, Column) -> bool)
    : (r: seq<Column>)
    ensures forall c :: c in r <==> c in displayable && !allows(Write, c)
    ensures IsSubsequence(r, displayable)
  {
    var locked := (c: Column) => !allows(Write, c);
    FilterMembership(displayable, locked);
    FilterIsSubsequence(displayable, locked);
    Filter(displayable, locked)
  }

  function Slugs(cols: seq<Column>): (r: seq<string>)
    ensures |r| == |cols| && forall k :: 0 <= k < |cols| ==> r[k] == cols[k].slug
  {
    seq(|cols|, k requires 0 <= k < |cols| => cols[k].slug)
  }

  // ---------------------------------------------------------------------
  // The record model
  // ---------------------------------------------------------------------

  /** The model class `get_model` creates, as a description. */
  datatype ModelClass = ModelClass(
    name: string,
    meta: map<string, Json>,
    fields: map<string, ModelField>,
    tableId: nat)

  /**
   * The model's Meta: app label "table", the table's slug as database table,
   * then every entry of the table's options; options that are not a
   * dictionary have no `items()`.
   */
  function MetaOf(t: Table): (r: Result<map<string, Json>, Exception>)
    ensures r.Ok? <==> t.options.JNull? || t.options.JObject?
    ensures r.Ok? ==> "app_label" in r.value && "db_table" in r.value
    ensures r.Ok? && !(t.options.JObject? && "app_label" in t.options.members) ==>
              r.value["app_label"] == JStr("table")
    ensures r.Ok? && t.options.JObject? ==>
              forall k :: k in t.options.members ==> k in r.value && r.value[k] == t.options.members[k]
    ensures r.Ok? ==> (r.value["db_table"] == JStr(t.slug) <==>
              !t.options.JObject? || "db_table" !in t.options.members
              || t.options.members["db_table"] == JStr(t.slug))
    ensures r.Ok? ==> forall k :: k in r.value ==>
              k == "app_label" || k == "db_table" || (t.options.JObject? && k in t.options.members)
  {
    var base := map["app_label" := JStr("table"), "db_table" := JStr(t.slug)];
    match t.options
    case JNull => Ok(base)
    case JObject(m) => Ok(base + m)
    case _ => Err(AttributeError)
  }

  /**
   * The fields the column loop of `get_model` collects: each column's field
   * under its slug, in column order; a column whose field construction raises
   * is skipped.
   */
  function FieldsOf(cols: seq<Column>, cts: seq<ContentType>): map<string, ModelField>
  {
    if cols == [] then map[]
    else
      var prev := FieldsOf(cols[..|cols| - 1], cts);
      var last := cols[|cols| - 1];
      match ModelFieldOf(last.Handler(), cts)
      case Ok(f) => prev[last.slug := f]
      case Err(_) => prev
  }

  /** `get_model`, as a value. */
  function Model(t: Table, cols: seq<Column>, cts: seq<ContentType>): Result<ModelClass, Exception>
  {
    match MetaOf(t)
    case Err(e) => Err(e)
    case Ok(meta) => Ok(ModelClass(t.slug, meta, FieldsOf(cols, cts), t.id))
  }

  /** `get_model`: builds the model description column by column. */
  method GetModel(t: Table, cols: seq<Column>, cts: seq<ContentType>) returns (r: Result<ModelClass, Exception>)
    ensures r == Model(t, cols, cts)
  {
    var meta := MetaOf(t);
    if meta.Err? {
      return Err(meta.error);
    }
    var fields: map<string, ModelField> := map[];
    var i := 0;
    while i < |cols|
      invariant 0 <= i <= |cols|
      invariant fields == FieldsOf(cols[..i], cts)
    {
      var field := ModelFieldOf(cols[i].Handler(), cts);
      assert cols[..i + 1][..i] == cols[..i];
      if field.Ok? {
        fields := fields[cols[i].slug := field.value];
      }
      i := i + 1;
    }
    assert cols[..|cols|] == cols;
    r := Ok(ModelClass(t.slug, meta.value, fields, t.id));
  }

  predicate FieldBuilds(c: Column, cts: seq<ContentType>)
  {
    ModelFieldOf(c.Handler(), cts).Ok?
  }

  /**
   * The model has a field under exactly the slugs of the columns whose field
   * construction succeeds, and every field is nullable.
   */
  lemma {:induction false} FieldsOfDomain(cols: seq<Column>, cts: seq<ContentType>)
    ensures forall k :: k in FieldsOf(cols, cts) <==>
              exists i :: 0 <= i < |cols| && cols[i].slug == k && FieldBuilds(cols[i], cts)
    ensures forall k :: k in FieldsOf(cols, cts) ==> FieldsOf(cols, cts)[k].nullable
  {
    if cols != [] {
      var init := cols[..|cols| - 1];
      FieldsOfDomain(init, cts);
      forall k
        ensures k in FieldsOf(cols, cts) <==>
                exists i :: 0 <= i < |cols| && cols[i].slug == k && FieldBuilds(cols[i], cts)
      {
        var last := cols[|cols| - 1];
        if k in FieldsOf(cols, cts) {
          if FieldBuilds(last, cts) && k == last.slug {
            assert cols[|cols| - 1].slug == k;
          } else {
            assert k in FieldsOf(init, cts);
            var i :| 0 <= i < |init| && init[i].slug == k && FieldBuilds(init[i], cts);
            assert cols[i] == init[i];
          }
        }
        if exists i :: 0 <= i < |cols| && cols[i].slug == k && FieldBuilds(cols[i], cts) {
          var i :| 0 <= i < |cols| && cols[i].slug == k && FieldBuilds(cols[i], cts);
          if i < |init| {
            assert init[i] == cols[i];
          }
        }
      }
    }
  }

  predicate SlugsUnique(cols: seq<Column>)
  {
    forall i, j :: 0 <= i < j < |cols| ==> cols[i].slug != cols[j].slug
  }

  /**
   * With distinct slugs, each column whose field builds is in the model
   * under its own slug with exactly that field.
   */
  lemma {:induction false} FieldsOfEntry(cols: seq<Column>, cts: seq<ContentType>, i: nat)
    requires SlugsUnique(cols)
    requires i < |cols| && FieldBuilds(cols[i], cts)
    ensures cols[i].slug in FieldsOf(cols, cts)
    ensures FieldsOf(cols, cts)[cols[i].slug] == ModelFieldOf(cols[i].Handler(), cts).value
  {
    var init := cols[..|cols| - 1];
    if i < |cols| - 1 {
      assert init[i] == cols[i];
      FieldsOfEntry(init, cts, i);
      assert cols[|cols| - 1].slug != cols[i].slug;
    }
  }

  /** A column whose field fails to build leaves no field under its slug (slugs distinct). */
  lemma FieldsOfSkipsFailures(cols: seq<Column>, cts: seq<ContentType>, i: nat)
    requires SlugsUnique(cols)
    requires i < |cols| && !FieldBuilds(cols[i], cts)
    ensures cols[i].slug !in FieldsOf(cols, cts)
  {
    FieldsOfDomain(cols, cts);
  }

  /** The model form `get_model_form` creates, as a description. */
  datatype ModelFormClass = ModelFormClass(
    name: string,
    model: ModelClass,
    fields: seq<string>,
    columns: seq<Column>,
    readonlyColumns: seq<Column>)

  /**
   * `get_model_form`: the form edits the displayable columns' slugs, in
   * order; the displayable columns the user may not write are read-only.
   * Creating the form class fails with FieldError when one of those slugs
   * has no field in the model, as Django's model form metaclass does.
   */
  function ModelForm(t: Table, cols: seq<Column>, cts: seq<ContentType>,
                     allows: (Operation, Column) -> bool): (r: Result<ModelFormClass, Exception>)
    ensures Model(t, cols, cts).Err? ==> r == Err(Model(t, cols, cts).error)
    ensures r.Ok? <==> (Model(t, cols, cts).Ok? &&
              forall c :: c in DisplayableColumns(cols, allows) ==> c.slug in Model(t, cols, cts).value.fields)
    ensures Model(t, cols, cts).Ok? && r.Err? ==> r.error == FieldError
    ensures r.Ok? ==> r.value.model == Model(t, cols, cts).value
    ensures r.Ok? ==> r.value.fields == Slugs(DisplayableColumns(cols, allows))
    ensures r.Ok? ==> forall c :: c in r.value.readonlyColumns <==>
              c in cols && c.isDisplayable && allows(Read, c) && !allows(Write, c)
    ensures r.Ok? ==> IsSubsequence(r.value.readonlyColumns, DisplayableColumns(cols, allows))
    ensures r.Ok? ==> r.value.columns == cols
  {
    var displayable := DisplayableColumns(cols, allows);
    match Model(t, cols, cts)
    case Err(e) => Err(e)
    case Ok(model) =>
      if exists c :: c in displayable && c.slug !in model.fields then Err(FieldError)
      else
        Ok(ModelFormClass(t.slug + "ModelForm", model, Slugs(displayable), cols,
                          ReadonlyColumns(displayable, allows)))
  }

  /**
   * With distinct slugs, the model form exists exactly when the model does
   * and the field of every column the user sees in it builds.
   */
  lemma ModelFormNeedsDisplayedFields(t: Table, cols: seq<Column>, cts: seq<ContentType>,
                                      allows: (Operation, Column) -> bool)
    requires SlugsUnique(cols)
    ensures ModelForm(t, cols, cts, allows).Ok? <==>
              (MetaOf(t).Ok? &&
               forall c :: c in cols && c.isDisplayable && allows(Read, c) ==> FieldBuilds(c, cts))
  {
    if MetaOf(t).Ok? {
      var fields := FieldsOf(cols, cts);
      assert Model(t, cols, cts).value.fields == fields;
      forall c | c in cols
        ensures c.slug in fields <==> FieldBuilds(c, cts)
      {
        var i :| 0 <= i < |cols| && cols[i] == c;
        if FieldBuilds(c, cts) {
          FieldsOfEntry(cols, cts, i);
        } else {
          FieldsOfSkipsFailures(cols, cts, i);
        }
      }
    }
  }

  // ---------------------------------------------------------------------
  // Filters
  // ---------------------------------------------------------------------

  /** `get_filterable_columns`: every column, whatever its `is_filterable` flag. */
  function FilterableColumns(cols: seq<Column>): (r: seq<Column>)
    ensures forall c :: c in cols && !c.isFilterable ==> c in r
    ensures r == cols
  {
    cols
  }

  /** `fields_filters` in `get_filterset`: each filterable column's slug to its filter list. */
  function FieldsFilters(cols: seq<Column>): (r: map<string, Json>)
    ensures forall k :: k in r <==> k in Slugs(cols)
  {
    if cols == [] then map[]
    else
      var last := cols[|cols| - 1];
      assert Slugs(cols) == Slugs(cols[..|cols| - 1]) + [last.slug];
      FieldsFilters(cols[..|cols| - 1])[last.slug := last.FilterNames()]
  }

  /**
   * The filter map has an entry for every column's slug and nothing else;
   * with distinct slugs each entry is that column's declared filters, or the
   * empty list when its settings declare none.
   */
  lemma FieldsFiltersEntries(cols: seq<Column>)
    ensures forall k :: k in FieldsFilters(FilterableColumns(cols)) <==> k in Slugs(cols)
    ensures SlugsUnique(cols) ==> forall i :: 0 <= i < |cols| ==>
              FieldsFilters(cols)[cols[i].slug] ==
                (if "filters" in cols[i].settings then cols[i].settings["filters"] else JList([]))
  {
    if SlugsUnique(cols) {
      forall i | 0 <= i < |cols|
        ensures FieldsFilters(cols)[cols[i].slug] ==
                  (if "filters" in cols[i].settings then cols[i].settings["filters"] else JList([]))
      {
        FieldsFiltersLookup(cols, i);
      }
    }
  }

  /** With distinct slugs, a column's entry in the filter map is its own filter list. */
  lemma {:induction false} FieldsFiltersLookup(cols: seq<Column>, i: nat)
    requires SlugsUnique(cols) && i < |cols|
    ensures cols[i].slug in FieldsFilters(cols)
    ensures FieldsFilters(cols)[cols[i].slug] == cols[i].FilterNames()
  {
    var init := cols[..|cols| - 1];
    var last := cols[|cols| - 1];
    if i < |init| {
      assert init[i] == cols[i];
      assert cols[i].slug != last.slug;
      assert SlugsUnique(init) by {
        forall j, k | 0 <= j < k < |init|
          ensures init[j].slug != init[k].slug
        {
          assert init[j] == cols[j] && init[k] == cols[k];
        }
      }
      FieldsFiltersLookup(init, i);
    }
  }

  // ---------------------------------------------------------------------
  // Dependent tables
  // ---------------------------------------------------------------------

  predicate IsRelation(c: Column) { c.dtype == Relation }

  /** The content-type id a relation column targets, as `int(...)` reads it. */
  function TargetId(c: Column): Result<int, IntFailure>
  {
    PyInt(Get(c.settings, "content_type_id"))
  }

  function AsException(f: IntFailure): Exception
  {
    match f
    case NotConvertible => TypeError
    case BadLiteral => ValueError
  }

  /**
   * The loop of `get_dependent_tables` over the relation columns: the owning
   * table of each column whose target id equals `ctId`, in column order; the
   * first target id that `int(...)` rejects aborts the whole call.
   */
  function DependentsFrom(relationColumns: seq<Column>, ctId: int): Result<seq<nat>, Exception>
  {
    if relationColumns == [] then Ok([])
    else
      var init := relationColumns[..|relationColumns| - 1];
      var last := relationColumns[|relationColumns| - 1];
      match DependentsFrom(init, ctId)
      case Err(e) => Err(e)
      case Ok(found) =>
        match TargetId(last)
        case Err(f) => Err(AsException(f))
        case Ok(id) => if id == ctId then Ok(found + [last.tableId]) else Ok(found)
  }

  /**
   * `get_dependent_tables`: the content type whose model name is this
   * table's slug, then every relation column of every table that targets it.
   */
  function DependentTablesOf(t: Table, allColumns: seq<Column>, cts: seq<ContentType>)
    : Result<seq<nat>, Exception>
  {
    match GetByModel(cts, t.slug)
    case Err(e) => Err(e)
    case Ok(ct) => DependentsFrom(Filter(allColumns, IsRelation), ct.id)
  }

  method DependentTables(t: Table, allColumns: seq<Column>, cts: seq<ContentType>)
    returns (r: Result<seq<nat>, Exception>)
    ensures r == DependentTablesOf(t, allColumns, cts)
  {
    var ct := GetByModel(cts, t.slug);
    if ct.Err? {
      return Err(ct.error);
    }
    var relationColumns := Filter(allColumns, IsRelation);
    var dependents: seq<nat> := [];
    var i := 0;
    while i < |relationColumns|
      invariant 0 <= i <= |relationColumns|
      invariant DependentsFrom(relationColumns[..i], ct.value.id) == Ok(dependents)
    {
      DependentsExtend(relationColumns, i, ct.value.id, dependents);
      var target := TargetId(relationColumns[i]);
      if target.Err? {
        r := Err(AsException(target.error));
        PrefixErrorPersists(relationColumns, i + 1, ct.value.id);
        return;
      }
      if target.value == ct.value.id {
        dependents := dependents + [relationColumns[i].tableId];
      }
      i := i + 1;
    }
    assert relationColumns[..|relationColumns|] == relationColumns;
    r := Ok(dependents);
  }

  /** One more relation column: the scan of the longer prefix, from the shorter one's result. */
  lemma DependentsExtend(cols: seq<Column>, i: nat, ctId: int, found: seq<nat>)
    requires i < |cols| && DependentsFrom(cols[..i], ctId) == Ok(found)
    ensures TargetId(cols[i]).Err? ==>
              DependentsFrom(cols[..i + 1], ctId) == Err(AsException(TargetId(cols[i]).error))
    ensures TargetId(cols[i]) == Ok(ctId) ==>
              DependentsFrom(cols[..i + 1], ctId) == Ok(found + [cols[i].tableId])
    ensures TargetId(cols[i]).Ok? && TargetId(cols[i]).value != ctId ==>
              DependentsFrom(cols[..i + 1], ctId) == Ok(found)
  {
    var prefix := cols[..i + 1];
    assert prefix[..|prefix| - 1] == cols[..i];
    assert prefix[|prefix| - 1] == cols[i];
  }

  /** Once a prefix of the relation columns raises, the whole loop raises the same. */
  lemma {:induction false} PrefixErrorPersists(cols: seq<Column>, n: nat, ctId: int)
    requires n <= |cols| && DependentsFrom(cols[..n], ctId).Err?
    ensures DependentsFrom(cols, ctId) == DependentsFrom(cols[..n], ctId)
    decreases |cols| - n
  {
    if n < |cols| {
      assert cols[..n + 1][..n] == cols[..n];
      PrefixErrorPersists(cols, n + 1, ctId);
    } else {
      assert cols[..n] == cols;
    }
  }

  predicate Targets(c: Column, ctId: int) { TargetId(c) == Ok(ctId) }

  /**
   * The loop succeeds exactly when every relation column's target id
   * converts; then it yields one entry per relation column that targets the
   * content type (so a table appears once per such column), and a table id
   * is yielded exactly when one of its relation columns targets it.
   */
  lemma DependentsCharacterised(cols: seq<Column>, ctId: int)
    ensures DependentsFrom(cols, ctId).Ok? <==> forall k :: 0 <= k < |cols| ==> TargetId(cols[k]).Ok?
    ensures DependentsFrom(cols, ctId).Ok? ==>
              DependentsFrom(cols, ctId).value == Owners(Filter(cols, c => Targets(c, ctId)))
    ensures DependentsFrom(cols, ctId).Ok? ==>
              |DependentsFrom(cols, ctId).value| == |Filter(cols, c => Targets(c, ctId))|
    ensures DependentsFrom(cols, ctId).Ok? ==> forall id ::
              id in DependentsFrom(cols, ctId).value <==>
              exists k :: 0 <= k < |cols| && Targets(cols[k], ctId) && cols[k].tableId == id
  {
    DependentsSucceed(cols, ctId);
    if DependentsFrom(cols, ctId).Ok? {
      DependentsExact(cols, ctId);
      DependentsMembers(cols, ctId);
    }
  }

  /** The scan succeeds exactly when every target id converts. */
  lemma {:induction false} DependentsSucceed(cols: seq<Column>, ctId: int)
    ensures DependentsFrom(cols, ctId).Ok? <==> forall k :: 0 <= k < |cols| ==> TargetId(cols[k]).Ok?
  {
    if cols != [] {
      var init := cols[..|cols| - 1];
      var last := cols[|cols| - 1];
      DependentsSucceed(init, ctId);
      if DependentsFrom(cols, ctId).Ok? {
        forall k | 0 <= k < |cols|
          ensures TargetId(cols[k]).Ok?
        {
          if k < |init| {
            assert cols[k] == init[k];
          }
        }
      } else if DependentsFrom(init, ctId).Ok? {
        assert TargetId(last).Err?;
      } else {
        var k :| 0 <= k < |init| && TargetId(init[k]).Err?;
        assert cols[k] == init[k];
      }
    }
  }

  /** A successful scan extends the scan of all but the last column. */
  lemma DependentsSnoc(cols: seq<Column>, ctId: int)
    requires cols != [] && DependentsFrom(cols, ctId).Ok?
    ensures DependentsFrom(cols[..|cols| - 1], ctId).Ok?
    ensures DependentsFrom(cols, ctId).value ==
              DependentsFrom(cols[..|cols| - 1], ctId).value +
              (if Targets(cols[|cols| - 1], ctId) then [cols[|cols| - 1].tableId] else [])
  {
  }

  /** The owning tables of the given columns, in order. */
  function Owners(cs: seq<Column>): (r: seq<nat>)
    ensures |r| == |cs| && forall k :: 0 <= k < |cs| ==> r[k] == cs[k].tableId
  {
    seq(|cs|, k requires 0 <= k < |cs| => cs[k].tableId)
  }

  /** A successful scan yields the owner of each targeting column, in column order. */
  lemma {:induction false} DependentsExact(cols: seq<Column>, ctId: int)
    requires DependentsFrom(cols, ctId).Ok?
    ensures DependentsFrom(cols, ctId).value == Owners(Filter(cols, c => Targets(c, ctId)))
  {
    if cols != [] {
      var init := cols[..|cols| - 1];
      var last := cols[|cols| - 1];
      DependentsSnoc(cols, ctId);
      DependentsExact(init, ctId);
      FilterSnoc(init, last, c => Targets(c, ctId));
      assert init + [last] == cols;
      var tail := if Targets(last, ctId) then [last] else [];
      assert Owners(Filter(init, c => Targets(c, ctId)) + tail)
             == Owners(Filter(init, c => Targets(c, ctId))) + Owners(tail);
    }
  }

  /** A successful scan yields exactly the owners of the targeting columns. */
  lemma {:induction false} DependentsMembers(cols: seq<Column>, ctId: int)
    requires DependentsFrom(cols, ctId).Ok?
    ensures forall id :: id in DependentsFrom(cols, ctId).value <==>
              exists k :: 0 <= k < |cols| && Targets(cols[k], ctId) && cols[k].tableId == id
  {
    if cols != [] {
      var init := cols[..|cols| - 1];
      var last := cols[|cols| - 1];
      DependentsSnoc(cols, ctId);
      DependentsMembers(init, ctId);
      var found := DependentsFrom(init, ctId).value;
      forall id
        ensures id in DependentsFrom(cols, ctId).value <==>
                exists k :: 0 <= k < |cols| && Targets(cols[k], ctId) && cols[k].tableId == id
      {
        if id in found {
          var k :| 0 <= k < |init| && Targets(init[k], ctId) && init[k].tableId == id;
          assert cols[k] == init[k];
        }
        if exists k :: 0 <= k < |cols| && Targets(cols[k], ctId) && cols[k].tableId == id {
          var k :| 0 <= k < |cols| && Targets(cols[k], ctId) && cols[k].tableId == id;
          if k < |init| {
            assert init[k] == cols[k];
          }
        }
      }
    }
  }

  /** A relation column whose target id is stored as a decimal string still matches. */
  lemma StringTargetIdMatches(c: Column, ctId: int)
    requires Get(c.settings, "content_type_id") == JStr(Decimal(ctId))
    ensures Targets(c, ctId)
  {
    DecimalRoundTrip(ctId);
  }

  /** A relation column without a target id makes the whole lookup raise TypeError. */
  lemma MissingTargetIdRaises(t: Table, allColumns: seq<Column>, cts: seq<ContentType>, k: nat)
    requires k < |allColumns| && allColumns[k].dtype == Relation
    requires "content_type_id" !in allColumns[k].settings
    requires GetByModel(cts, t.slug).Ok?
    ensures DependentTablesOf(t, allColumns, cts).Err?
  {
    var rel := Filter(allColumns, IsRelation);
    FilterMembership(allColumns, IsRelation);
    assert allColumns[k] in rel;
    var j :| 0 <= j < |rel| && rel[j] == allColumns[k];
    DependentsCharacterised(rel, GetByModel(cts, t.slug).value.id);
  }

  // ---------------------------------------------------------------------
  // Removing a column
  // ---------------------------------------------------------------------

  /** What `remove_column` is given: a column, a column name, or anything else. */
  datatype ColumnRef = ByColumn(column: Column) | ByName(name: string) | Other

  /**
   * What a call of `remove_column` leaves behind: the stored columns, and the
   * exception it raised, if any (None would be a normal return).
   */
  datatype Removal = Removal(columns: seq<Column>, raised: Option<Exception>)

  predicate OnTable(tableId: nat, c: Column) { c.tableId == tableId }

  /** Deleting a stored column: every row with its id goes. */
  function DeleteColumn(all: seq<Column>, id: nat): (r: seq<Column>)
    ensures forall c :: c in r <==> c in all && c.id != id
  {
    FilterMembership(all, (c: Column) => c.id != id);
    Filter(all, (c: Column) => c.id != id)
  }

  /** The rows `self.columns.filter(name=n)` selects: this table's columns named n. */
  function NamedOnTable(t: Table, all: seq<Column>, n: string): (r: seq<Column>)
    ensures forall c :: c in r <==> c in all && c.tableId == t.id && c.name == n
  {
    FilterMembership(all, c => OnTable(t.id, c));
    FilterMembership(Filter(all, c => OnTable(t.id, c)), (c: Column) => c.name == n);
    Filter(Filter(all, c => OnTable(t.id, c)), (c: Column) => c.name == n)
  }

  /**
   * `remove_column`: deletes the given column, or the table's one column of
   * that name, and then raises ValueError anyway; a name that matches no
   * column raises DoesNotExist and one that matches several raises
   * MultipleObjectsReturned, both before anything is deleted.
   */
  function RemoveColumn(t: Table, all: seq<Column>, ref: ColumnRef): (r: Removal)
    ensures ref.Other? ==> r == Removal(all, Some(ValueError))
    ensures ref.ByColumn? ==> r == Removal(DeleteColumn(all, ref.column.id), Some(ValueError))
    ensures ref.ByColumn? ==> forall c :: c in r.columns <==> c in all && c.id != ref.column.id
    ensures ref.ByName? && |NamedOnTable(t, all, ref.name)| == 0 ==>
              r == Removal(all, Some(DoesNotExist))
    ensures ref.ByName? && |NamedOnTable(t, all, ref.name)| == 1 ==>
              var c := NamedOnTable(t, all, ref.name)[0];
              c in all && c.tableId == t.id && c.name == ref.name &&
              r == Removal(DeleteColumn(all, c.id), Some(ValueError))
    ensures ref.ByName? && |NamedOnTable(t, all, ref.name)| > 1 ==>
              r == Removal(all, Some(MultipleObjectsReturned))
  {
    var deleted :=
      match ref
      case ByColumn(c) => Ok(DeleteColumn(all, c.id))
      case ByName(n) =>
        var named := NamedOnTable(t, all, n);
        if |named| == 0 then Err(DoesNotExist)
        else if |named| > 1 then Err(MultipleObjectsReturned)
        else
          assert named[0] in named;
          Ok(DeleteColumn(all, named[0].id))
      case Other => Ok(all);
    match deleted
    case Err(e) => Removal(all, Some(e))
    case Ok(rest) => Removal(rest, Some(ValueError))
  }

  /**
   * `remove_column` never returns normally, and a column is deleted only on
   * the path that ends in ValueError: the lookup errors leave the table as it was.
   */
  lemma RemoveColumnAlwaysRaises(t: Table, all: seq<Column>, ref: ColumnRef)
    ensures RemoveColumn(t, all, ref).raised.Some?
    ensures RemoveColumn(t, all, ref).raised.value in {ValueError, DoesNotExist, MultipleObjectsReturned}
    ensures RemoveColumn(t, all, ref).raised != Some(ValueError) ==> RemoveColumn(t, all, ref).columns == all
    ensures RemoveColumn(t, all, ref).raised != Some(ValueError) ==> ref.ByName?
  {
  }
}
