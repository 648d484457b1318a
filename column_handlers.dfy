/**
 * Column handlers: one per column data type. A handler is built from a
 * column's name, slug and settings; it validates and formats cell values,
 * reports the filter operators its settings declare, and describes the
 * physical field the column is stored in.
 */
module ColumnHandlers {
  import opened Wrappers
  import opened Json
  import opened Exceptions
  import opened ContentTypes

  // ---------------------------------------------------------------------
  // Settings forms: defaults and filter operators per handler class
  // ---------------------------------------------------------------------

  const DEFAULT_MIN_VALUE: Json := JInt(-100)
  const DEFAULT_MAX_VALUE: Json := JInt(100)
  const FLOAT_DEFAULT_MIN_VALUE: Json := JReal(-100.0)
  const FLOAT_DEFAULT_MAX_VALUE: Json := JReal(100.0)
  const DEFAULT_MAX_LENGTH: Json := JInt(128)

  /** The fixed `max_length` of the physical text field, whatever the settings say. */
  const TEXT_FIELD_MAX_LENGTH: nat := 64

  /** How many characters of a long text the list preview keeps. */
  const PREVIEW_LENGTH: nat := 7

  datatype HandlerClass =
    | IntegerColumnHandler
    | FloatColumnHandler
    | TextColumnHandler
    | BigTextColumnHandler
    | RelationColumnHandler

  /** One member of a settings form's `Filters` enum: lookup name and caption. */
  datatype FilterChoice = FilterChoice(lookup: string, caption: string)

  datatype SettingsForm = SettingsForm(
    template: string,
    filterChoices: seq<FilterChoice>,
    fieldOrder: seq<string>,
    initial: Settings)

  const GTE := FilterChoice("gte", "Greater or equal")
  const LTE := FilterChoice("lte", "Less or equal")
  const EXACT := FilterChoice("exact", "Exact value")
  const CONTAINS := FilterChoice("contains", "Contains")

  /** The settings form of each handler class (`settings_form`). */
  function SettingsFormOf(cls: HandlerClass): (f: SettingsForm)
    ensures f.fieldOrder != [] && f.fieldOrder[0] == "filters"
    ensures cls == IntegerColumnHandler || cls == FloatColumnHandler ==>
              f.filterChoices == [GTE, LTE]
    ensures cls == TextColumnHandler || cls == BigTextColumnHandler ==>
              f.filterChoices == [EXACT, CONTAINS]
    ensures cls == RelationColumnHandler ==> f.filterChoices == [EXACT]
  {
    match cls
    case IntegerColumnHandler =>
      SettingsForm("settings_form/integer_column_form.html", [GTE, LTE],
                   ["filters", "min_value", "max_value"],
                   map["min_value" := DEFAULT_MIN_VALUE, "max_value" := DEFAULT_MAX_VALUE])
    case FloatColumnHandler =>
      SettingsForm("settings_form/float_column_form.html", [GTE, LTE],
                   ["filters", "min_value", "max_value"],
                   map["min_value" := FLOAT_DEFAULT_MIN_VALUE, "max_value" := FLOAT_DEFAULT_MAX_VALUE])
    case TextColumnHandler =>
      SettingsForm("settings_form/text_column_form.html", [EXACT, CONTAINS],
                   ["filters", "max_length"], map["max_length" := DEFAULT_MAX_LENGTH])
    case BigTextColumnHandler =>
      SettingsForm("settings_form/text_column_form.html", [EXACT, CONTAINS], ["filters"], map[])
    case RelationColumnHandler =>
      SettingsForm("settings_form/relation_column_form.html", [EXACT],
                   ["filters", "content_type"], map[])
  }

  // ---------------------------------------------------------------------
  // Handlers
  // ---------------------------------------------------------------------

  datatype Handler = Handler(cls: HandlerClass, name: string, slug: string, settings: Settings)

  /**
   * The abstract methods a handler class leaves unimplemented. The relation
   * handler defines no `format_value`.
   */
  function AbstractMethodsLeft(cls: HandlerClass): set<string>
  {
    if cls == RelationColumnHandler then {"format_value"} else {}
  }

  /**
   * Instantiating a handler class as the code is written: Python refuses to
   * instantiate a subclass of an abstract base class that leaves an abstract
   * method unimplemented, and raises TypeError.
   */
  function InstantiateAsWritten(cls: HandlerClass, name: string, slug: string, settings: Settings)
    : (r: Result<Handler, Exception>)
    ensures r.Ok? <==> cls != RelationColumnHandler
    ensures r.Ok? ==> r.value.cls == cls && r.value.settings == settings
    ensures r.Err? ==> r.error == TypeError
  {
    if AbstractMethodsLeft(cls) == {} then Ok(Handler(cls, name, slug, settings))
    else Err(TypeError)
  }

  /** `get_filters`: the settings' "filters" entry, or the empty list when it is absent. */
  function Filters(h: Handler): (r: Json)
    ensures "filters" in h.settings ==> r == h.settings["filters"]
    ensures "filters" !in h.settings ==> r == JList([])
  {
    if "filters" in h.settings then h.settings["filters"] else JList([])
  }

  /** `get_kwargs`: the options every non-relation field is built with. */
  datatype FieldOptions = FieldOptions(nullable: bool, blank: bool)

  const DEFAULT_FIELD_OPTIONS := FieldOptions(nullable := true, blank := true)

  datatype OnDelete = SetNull

  datatype FieldType =
    | IntegerField
    | FloatField
    | CharField(maxLength: nat)
    | TextField
    | ForeignKey(to: string, onDelete: OnDelete)

  /** A physical field description: its type, label and nullability. */
  datatype ModelField = ModelField(fieldType: FieldType, verboseName: string, nullable: bool, blank: bool)

  /**
   * `get_model_field`. The relation handler looks the content type up
   * before it checks that an id was given, so a missing id fails the lookup.
   */
  function ModelFieldOf(h: Handler, cts: seq<ContentType>): (r: Result<ModelField, Exception>)
    ensures r.Ok? ==> r.value.nullable && r.value.verboseName == h.name
    ensures h.cls != RelationColumnHandler ==> r.Ok? && r.value.blank
    ensures h.cls == IntegerColumnHandler ==> r.value.fieldType == IntegerField
    ensures h.cls == FloatColumnHandler ==> r.value.fieldType == FloatField
    ensures h.cls == TextColumnHandler ==> r.value.fieldType == CharField(TEXT_FIELD_MAX_LENGTH)
    ensures h.cls == BigTextColumnHandler ==> r.value.fieldType == TextField
    ensures h.cls == RelationColumnHandler ==>
              (r.Ok? <==> GetById(cts, Get(h.settings, "content_type_id")).Ok?
                          && Truthy(Get(h.settings, "content_type_id")))
    ensures h.cls == RelationColumnHandler && r.Ok? ==>
              r.value.fieldType ==
                ForeignKey(GetById(cts, Get(h.settings, "content_type_id")).value.model, SetNull)
              && !r.value.blank
  {
    var opts := DEFAULT_FIELD_OPTIONS;
    match h.cls
    case IntegerColumnHandler => Ok(ModelField(IntegerField, h.name, opts.nullable, opts.blank))
    case FloatColumnHandler => Ok(ModelField(FloatField, h.name, opts.nullable, opts.blank))
    case TextColumnHandler =>
      Ok(ModelField(CharField(TEXT_FIELD_MAX_LENGTH), h.name, opts.nullable, opts.blank))
    case BigTextColumnHandler => Ok(ModelField(TextField, h.name, opts.nullable, opts.blank))
    case RelationColumnHandler =>
      var id := Get(h.settings, "content_type_id");
      match GetById(cts, id)
      case Err(e) => Err(e)
      case Ok(ct) =>
        if !Truthy(id) then Err(ValueError)
        else Ok(ModelField(ForeignKey(ct.model, SetNull), h.name, true, false))
  }

  /**
   * `get_css_formating_class`: each handler class names its own CSS class,
   * except that relation columns are styled like text columns.
   */
  function CssClass(cls: HandlerClass): (r: string)
    ensures r == "text" <==> cls == TextColumnHandler || cls == RelationColumnHandler
    ensures r == "integer" <==> cls == IntegerColumnHandler
    ensures r == "float" <==> cls == FloatColumnHandler
    ensures r == "Big text" <==> cls == BigTextColumnHandler
  {
    match cls
    case IntegerColumnHandler => "integer"
    case FloatColumnHandler => "float"
    case TextColumnHandler => "text"
    case BigTextColumnHandler => "Big text"
    case RelationColumnHandler => "text"
  }

  // ---------------------------------------------------------------------
  // Cell values: validation and formatting
  // ---------------------------------------------------------------------

  /** A value stored in one cell of a record. */
  datatype Cell = NullCell | IntCell(i: int) | FloatCell(r: real) | TextCell(s: string) | RefCell(id: nat)

  function CellNumber(v: Cell): Option<real>
  {
    match v
    case IntCell(i) => Some(i as real)
    case FloatCell(r) => Some(r)
    case _ => None
  }

  /** The effective lower bound: the "min_value" setting, or the default when it is falsy. */
  function MinValue(h: Handler): (b: Json)
    requires h.cls == IntegerColumnHandler || h.cls == FloatColumnHandler
    ensures !Truthy(Get(h.settings, "min_value")) ==>
              b == (if h.cls == IntegerColumnHandler then DEFAULT_MIN_VALUE else FLOAT_DEFAULT_MIN_VALUE)
    ensures Truthy(Get(h.settings, "min_value")) ==> b == h.settings["min_value"]
  {
    GetOr(h.settings, "min_value",
          if h.cls == IntegerColumnHandler then DEFAULT_MIN_VALUE else FLOAT_DEFAULT_MIN_VALUE)
  }

  /** The effective upper bound: the "max_value" setting, or the default when it is falsy. */
  function MaxValue(h: Handler): (b: Json)
    requires h.cls == IntegerColumnHandler || h.cls == FloatColumnHandler
    ensures !Truthy(Get(h.settings, "max_value")) ==>
              b == (if h.cls == IntegerColumnHandler then DEFAULT_MAX_VALUE else FLOAT_DEFAULT_MAX_VALUE)
    ensures Truthy(Get(h.settings, "max_value")) ==> b == h.settings["max_value"]
  {
    GetOr(h.settings, "max_value",
          if h.cls == IntegerColumnHandler then DEFAULT_MAX_VALUE else FLOAT_DEFAULT_MAX_VALUE)
  }

  /** The effective length limit: the "max_length" setting, or 128 when it is falsy. */
  function MaxLength(h: Handler): (b: Json)
    ensures !Truthy(Get(h.settings, "max_length")) ==> b == DEFAULT_MAX_LENGTH
    ensures Truthy(Get(h.settings, "max_length")) ==> b == h.settings["max_length"]
  {
    GetOr(h.settings, "max_length", DEFAULT_MAX_LENGTH)
  }

  /**
   * `min_value <= value <= max_value` as Python evaluates it: the lower
   * comparison first, the upper one only when the lower holds; a comparison
   * with a non-number raises TypeError.
   */
  function CheckRange(low: Json, high: Json, v: Cell): Outcome<Exception>
  {
    match (CellNumber(v), AsNumber(low))
    case (None, _) => Fail(TypeError)
    case (_, None) => Fail(TypeError)
    case (Some(x), Some(lo)) =>
      if !(lo <= x) then Fail(ValidationError(OutOfRange(low, high)))
      else match AsNumber(high)
        case None => Fail(TypeError)
        case Some(hi) => if x <= hi then Pass else Fail(ValidationError(OutOfRange(low, high)))
  }

  /** `len(value) > max_length` raises, as does a value without a length. */
  function CheckLength(limit: Json, v: Cell): Outcome<Exception>
  {
    match (v, AsNumber(limit))
    case (TextCell(s), Some(n)) =>
      if |s| as real > n then Fail(ValidationError(TooLong(limit))) else Pass
    case _ => Fail(TypeError)
  }

  /** `validate_value`: passes, or raises. */
  function Validate(h: Handler, v: Cell): (r: Outcome<Exception>)
    ensures h.cls == BigTextColumnHandler || h.cls == RelationColumnHandler ==> r == Pass
    ensures r.Fail? ==> r.error == TypeError || r.error.ValidationError?
  {
    match h.cls
    case IntegerColumnHandler => CheckRange(MinValue(h), MaxValue(h), v)
    case FloatColumnHandler => CheckRange(MinValue(h), MaxValue(h), v)
    case TextColumnHandler => CheckLength(MaxLength(h), v)
    case BigTextColumnHandler => Pass
    case RelationColumnHandler => Pass
  }

  /** The list preview of a long text: its first seven characters and "...". */
  function Preview(s: string): (p: string)
    ensures |p| == (if |s| < PREVIEW_LENGTH then |s| else PREVIEW_LENGTH) + 3
    ensures p[..|p| - 3] <= s
    ensures p[|p| - 3..] == "..."
  {
    (if |s| < PREVIEW_LENGTH then s else s[..PREVIEW_LENGTH]) + "..."
  }

  /**
   * `format_value`. The relation handler has none (see AbstractMethodsLeft),
   * so it is not asked to format.
   */
  function Format(h: Handler, v: Cell): (r: Result<Cell, Exception>)
    requires h.cls != RelationColumnHandler
    ensures h.cls != BigTextColumnHandler ==> r == Ok(v)
    ensures h.cls == BigTextColumnHandler ==> (r.Ok? <==> v.TextCell?)
    ensures h.cls == BigTextColumnHandler && v.TextCell? ==> r == Ok(TextCell(Preview(v.s)))
  {
    match h.cls
    case BigTextColumnHandler =>
      if v.TextCell? then Ok(TextCell(Preview(v.s))) else Err(TypeError)
    case _ => Ok(v)
  }

  // ---------------------------------------------------------------------
  // Properties of validation
  // ---------------------------------------------------------------------

  /**
   * With numeric bounds, a number is accepted exactly when it lies between
   * them, and a rejection reports both bounds.
   */
  lemma RangeValidation(h: Handler, x: Cell)
    requires h.cls == IntegerColumnHandler || h.cls == FloatColumnHandler
    requires AsNumber(MinValue(h)).Some? && AsNumber(MaxValue(h)).Some?
    requires CellNumber(x).Some?
    ensures Validate(h, x) == Pass <==>
              AsNumber(MinValue(h)).value <= CellNumber(x).value <= AsNumber(MaxValue(h)).value
    ensures Validate(h, x).Fail? ==>
              Validate(h, x).error == ValidationError(OutOfRange(MinValue(h), MaxValue(h)))
  {
  }

  /**
   * A lower bound that is not a number is only consulted first: it always
   * raises TypeError, while an upper bound that is not a number is never
   * reached for a value below the lower bound.
   */
  lemma RangeComparisonOrder(h: Handler, x: Cell)
    requires h.cls == IntegerColumnHandler || h.cls == FloatColumnHandler
    requires CellNumber(x).Some?
    ensures AsNumber(MinValue(h)).None? ==> Validate(h, x) == Fail(TypeError)
    ensures AsNumber(MinValue(h)).Some? && CellNumber(x).value < AsNumber(MinValue(h)).value ==>
              Validate(h, x) == Fail(ValidationError(OutOfRange(MinValue(h), MaxValue(h))))
  {
  }

  /** An absent, null or zero bound is replaced by the default of -100 or 100. */
  lemma ZeroBoundFallsBack(name: string, slug: string, n: int)
    ensures var h := Handler(IntegerColumnHandler, name, slug,
                             map["min_value" := JInt(0), "max_value" := JInt(0)]);
            MinValue(h) == JInt(-100) && MaxValue(h) == JInt(100) &&
            (Validate(h, IntCell(n)) == Pass <==> -100 <= n <= 100)
  {
    var h := Handler(IntegerColumnHandler, name, slug,
                     map["min_value" := JInt(0), "max_value" := JInt(0)]);
    RangeValidation(h, IntCell(n));
  }

  /** A text is accepted exactly when its length is within the effective limit. */
  lemma TextValidation(h: Handler, s: string)
    requires h.cls == TextColumnHandler
    requires AsNumber(MaxLength(h)).Some?
    ensures Validate(h, TextCell(s)) == Pass <==> |s| as real <= AsNumber(MaxLength(h)).value
    ensures Validate(h, TextCell(s)).Fail? ==>
              Validate(h, TextCell(s)).error == ValidationError(TooLong(MaxLength(h)))
  {
  }

  /** Without a "max_length" setting the limit is 128 characters. */
  lemma DefaultTextLimit(name: string, slug: string, s: string)
    ensures Validate(Handler(TextColumnHandler, name, slug, map[]), TextCell(s)) == Pass
            <==> |s| <= 128
  {
  }

  /**
   * A column saved with its settings form's initial values validates exactly
   * like one saved with no settings: the form's defaults are the fallbacks.
   */
  lemma SettingsFormDefaultsAgree(cls: HandlerClass, name: string, slug: string, v: Cell)
    ensures Validate(Handler(cls, name, slug, SettingsFormOf(cls).initial), v)
         == Validate(Handler(cls, name, slug, map[]), v)
  {
  }

  /** The physical text field's length is 64 whatever "max_length" the settings give. */
  lemma TextFieldIgnoresMaxLength(name: string, slug: string, s1: Settings, s2: Settings,
                                  cts: seq<ContentType>)
    ensures ModelFieldOf(Handler(TextColumnHandler, name, slug, s1), cts)
         == ModelFieldOf(Handler(TextColumnHandler, name, slug, s2), cts)
  {
  }

  /** A relation handler without a "content_type_id" setting has no physical field. */
  lemma RelationFieldNeedsTarget(h: Handler, cts: seq<ContentType>)
    requires h.cls == RelationColumnHandler
    requires !Truthy(Get(h.settings, "content_type_id"))
    ensures ModelFieldOf(h, cts).Err?
  {
  }

  /**
   * An "age" column set to min 0 and max 130 rejects 200 (reporting the
   * bounds -100 and 130, the zero having fallen back) and accepts 30, and
   * also -5.
   */
  lemma AgeColumnExample()
    ensures var h := Handler(IntegerColumnHandler, "age", "column_age",
                             map["min_value" := JInt(0), "max_value" := JInt(130)]);
            Validate(h, IntCell(200)) == Fail(ValidationError(OutOfRange(JInt(-100), JInt(130)))) &&
            Validate(h, IntCell(30)) == Pass &&
            Validate(h, IntCell(-5)) == Pass
  {
  }
}
