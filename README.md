# Dynamic column engine of tablepp, modelled in Dafny

tablepp lets users define tables at runtime. A Table is a named set of
Columns. Each column has a data type (`dtype`) and an open settings map, and
a column handler per data type turns that metadata into behaviour:

- validation of cell values against bounds read from the settings, with
  fallbacks when a setting is missing or falsy;
- display formatting (long text is shortened to a preview);
- the filter operators the settings declare;
- the physical field the column is stored in, always nullable.

From its columns a table derives:

- its record model: one field per column, keyed by slug; a column whose
  field cannot be built is skipped;
- its model form: the displayable columns the user may read, split into
  editable and read-only by the write permission;
- its filter map;
- its searchable column;
- the tables that depend on it through relation columns.

Around this engine sit a few access rules:

- the permission codes and the label of a permission's target kind;
- group membership;
- the user form's read-only marking and password check;
- the permission form's target rules;
- the login gate.

The Dafny modules follow the source files:

| module | file | models |
|---|---|---|
| `ColumnHandlers` | column_handlers.dfy | apps/table/utils/column_handlers.py |
| `TableModels` | table_models.dfy | apps/table/models.py |
| `UserModels` | user_models.dfy | apps/user/models.py |
| `UserForms` | user_forms.dfy | apps/user/forms/form.py |
| `Middleware` | middleware.dfy | apps/user/middleware.py |
| `Json`, `ContentTypes`, `Exceptions`, `Seqs`, `Wrappers` | json.dfy, content_types.dfy, exceptions.dfy, seqs.dfy, wrappers.dfy | the Python and Django semantics these rely on: JSON settings values and their truthiness, `int(...)`, content-type lookups, the exceptions raised, list comprehensions |

Tables, columns and handlers are values. Their fields are set once, when the
object is built: slug assignment and handler dispatch are the functions
`NewTable` and `NewColumn`. A table's columns, all stored columns and the
content types are passed in as sequences in their stored order. Python
exceptions become `Err(...)` or `Fail(...)` values. The permission check
`user.has_permission(op, column)` is not defined in the modelled files, so
it is a parameter `allows: (Operation, Column) -> bool`.

The code that works step by step is imperative Dafny:

- `TableModels.GetModel` fills the field map column by column, and is
  proved equal to the function `TableModels.Model`;
- `TableModels.DependentTables` appends the owning tables, and is proved
  equal to the function `TableModels.DependentTablesOf`;
- the `UserForms.UserForm` constructor marks widgets read-only in a loop,
  and states the resulting read-only set directly;
- `UserForms.SavePermission` assigns the target of a mutable permission
  record (`UserModels.TablePermission`).

Lemmas then state what the specification functions promise.

In these places the code behaves differently from what its names and
comments suggest; the model follows the code:

- `UserForm.clean` records the mismatch error with `add_error`, and Django's
  `add_error` removes `password_confirm` from the cleaned data. So
  `password_confirm` survives cleaning only when the passwords match.
- An explicit `0` for `min_value`, `max_value` or `max_length` is treated as
  absent (the `or` fallback). An integer column with `min_value` 0 and
  `max_value` 130 therefore accepts -5 (`ColumnHandlers.AgeColumnExample`).
- Removing a column always ends in an exception, even after the delete
  (`remove_column` ends in an unconditional `raise ValueError`).
- Dependent-table discovery yields one entry per matching relation column,
  so a table can appear more than once. A relation column without a target
  id makes the whole call raise.

## Model

| member | source | states |
|---|---|---|
| `ColumnHandlers.Filters` | apps/table/utils/column_handlers.py:57-62 | the filter list is the settings' "filters" entry when the key is present, and the empty list otherwise |
| `ColumnHandlers.SettingsFormOf` | apps/table/utils/column_handlers.py:71-183 | each handler class's settings form: filters come first in the field order; integer and float offer gte/lte, text and long text exact/contains, relation exact |
| `ColumnHandlers.SettingsFormDefaultsAgree` | apps/table/utils/column_handlers.py:88-150 | a column saved with its settings form's initial values validates exactly like one with no settings: the form's initial values are the validation fallbacks |
| `ColumnHandlers.InstantiateAsWritten` | apps/table/utils/column_handlers.py:295-315 | instantiating a handler class fails with TypeError exactly for the relation handler, which leaves the abstract `format_value` unimplemented |
| `ColumnHandlers.ModelFieldOf` | apps/table/utils/column_handlers.py:191-315 | every physical field is nullable and carries the column name. Non-relation fields always build and are blank. The text field is a 64-character char field. The relation field is a SET_NULL foreign key to the looked-up content type's model; it builds exactly when the id lookup succeeds and the id is truthy |
| `ColumnHandlers.TextFieldIgnoresMaxLength` | apps/table/utils/column_handlers.py:251-253 | the text column's physical field is the same whatever the settings say, so the "max_length" setting plays no part in it |
| `ColumnHandlers.RelationFieldNeedsTarget` | apps/table/utils/column_handlers.py:306-310 | a relation handler whose "content_type_id" is missing or falsy has no physical field |
| `ColumnHandlers.MinValue` | apps/table/utils/column_handlers.py:199-201 | the lower bound is the "min_value" setting when truthy, else -100 (integer) or -100.0 (float) |
| `ColumnHandlers.MaxValue` | apps/table/utils/column_handlers.py:202-204 | the upper bound is the "max_value" setting when truthy, else 100 or 100.0 |
| `ColumnHandlers.MaxLength` | apps/table/utils/column_handlers.py:260-262 | the length limit is the "max_length" setting when truthy, else 128 |
| `ColumnHandlers.Validate` | apps/table/utils/column_handlers.py:198-304 | long-text and relation validation always pass; any other failure is a ValidationError or a TypeError |
| `ColumnHandlers.RangeValidation` | apps/table/utils/column_handlers.py:198-209 | with numeric bounds, an integer or float value passes exactly when min <= v <= max; a rejection is a ValidationError reporting both bounds |
| `ColumnHandlers.RangeComparisonOrder` | apps/table/utils/column_handlers.py:205-208 | the chained comparison checks the lower bound first: a non-numeric lower bound raises TypeError; a value below a numeric lower bound is rejected whatever the upper bound is |
| `ColumnHandlers.ZeroBoundFallsBack` | apps/table/utils/column_handlers.py:199-204 | explicit zero bounds are replaced by -100 and 100, and validation then accepts exactly -100..100 |
| `ColumnHandlers.AgeColumnExample` | apps/table/utils/column_handlers.py:198-209 | a column set to min 0 and max 130 rejects 200, reporting the bounds -100 and 130; it accepts 30, and also -5 |
| `ColumnHandlers.TextValidation` | apps/table/utils/column_handlers.py:258-267 | a text passes exactly when its length is at most the effective limit; a rejection is a ValidationError reporting the limit |
| `ColumnHandlers.DefaultTextLimit` | apps/table/utils/column_handlers.py:258-267 | with no settings a text passes exactly when it has at most 128 characters |
| `ColumnHandlers.Preview` | apps/table/utils/column_handlers.py:290-292 | the long-text preview is a prefix of the value of length min(len, 7) followed by "..." |
| `ColumnHandlers.CssClass` | apps/table/utils/column_handlers.py:195-301 | each handler class has its own CSS class ("integer", "float", "text", "Big text"), except that relation columns share "text" with text columns |
| `ColumnHandlers.Format` | apps/table/utils/column_handlers.py:211-292 | integer, float and text formatting are the identity. Long-text formatting succeeds exactly on text values and gives the text's preview (`Preview`) |
| `ContentTypes.GetById` | apps/table/utils/column_handlers.py:307-308 | a null id finds nothing. Otherwise the key is converted with `int(...)`: a non-convertible value raises TypeError and a bad literal ValueError; a converted key is found exactly when one content type has that id, and none having it raises DoesNotExist. A found content type is in the registry and its id equals the converted key |
| `ContentTypes.GetByModel` | apps/table/models.py:224 | the lookup succeeds exactly when one content type has the model name, and returns it. No match raises DoesNotExist and several raise MultipleObjectsReturned |
| `TableModels.DTypeCodesRoundTrip` | apps/table/models.py:249-256 | the data-type codes TEXT=0, INTEGER=1, FLOAT=3, BIG_TEXT=4, RELATION=5 and the enum correspond one to one |
| `TableModels.DTypeFromCode` | apps/table/models.py:249-256 | exactly the codes 0, 1, 3, 4 and 5 name a data type |
| `TableModels.HandlerClassOf` | apps/table/models.py:258-264 | the handler map sends each data type to its own handler class, one to one |
| `TableModels.AssignSlug` | apps/table/models.py:57-59 | a non-empty given slug is kept. An empty one becomes the prefix followed by a 32-character hex digest. The result is never empty |
| `TableModels.NewTable` | apps/table/models.py:53-59 | a table's slug follows the slug rule with the "table_" prefix; its other fields are as given |
| `TableModels.NewColumn` | apps/table/models.py:276-283 | a column is built exactly when its data-type code is known, and otherwise KeyError is raised. It keeps the given id and name (the name becomes its field's label through `Column.Handler`). Its slug follows the rule with the "column_" prefix, and its code, settings, flags and table are as given |
| `TableModels.NewColumnAsWritten` | apps/table/models.py:276-283 | as the code is written, a column is built exactly when its code is known and is not RELATION |
| `TableModels.RelationColumnRejectedAsWritten` | apps/table/models.py:283 | as written, building a relation column raises TypeError, whatever its other fields |
| `TableModels.NewColumnAcceptsEveryDType` | apps/table/models.py:258-283 | with the dispatch corrected, every data type builds a column, with any flags, whose handler is that type's class |
| `TableModels.GeneratedSlugsFit` | apps/table/models.py:279-281 | generated table and column slugs fit the 64-character slug field, and a generated table slug differs from a generated column slug |
| `TableModels.FirstById` | apps/table/models.py:71 | `first()` returns None exactly on no rows, and otherwise the row with the smallest id |
| `TableModels.SearchableColumn` | apps/table/models.py:69-71 | the searchable column is the first text column by id when one exists, and otherwise the first column; there is none only when the table has no columns |
| `TableModels.DisplayableColumns` | apps/table/models.py:77-84 | the displayable columns are exactly those marked displayable that the user may read, in their stored order |
| `TableModels.ReadonlyColumns` | apps/table/models.py:156-160 | the read-only columns are exactly the given columns the user may not write, in order |
| `TableModels.ModelForm` | apps/table/models.py:136-164 | a failing model fails the form with the same exception. Otherwise the form exists exactly when every displayable, readable column's slug has a field in the model, and FieldError is raised when one has none. Its model is the table's model. Its fields are the displayable columns' slugs in order. Its read-only columns are the displayable columns without WRITE, kept in order, so they are a subset of the displayable ones |
| `TableModels.ModelFormNeedsDisplayedFields` | apps/table/models.py:136-164 | with distinct slugs, the model form exists exactly when Meta can be built and the field of every column the user may see builds |
| `TableModels.MetaOf` | apps/table/models.py:108-118 | Meta holds app_label and db_table and copies every options entry. app_label is "table" and db_table is the table slug unless an options entry overrides it. Options that are neither null nor a dictionary raise |
| `TableModels.GetModel` | apps/table/models.py:105-134 | the loop builds exactly the model description: Meta, then a field for each column in order |
| `TableModels.FieldsOfDomain` | apps/table/models.py:123-128 | the model has a field under exactly the slugs of columns whose field builds, so a failing column aborts nothing. Every field is nullable |
| `TableModels.FieldsOfEntry` | apps/table/models.py:124-126 | with distinct slugs, each column whose field builds appears under its slug with exactly that field |
| `TableModels.FieldsOfSkipsFailures` | apps/table/models.py:125-128 | with distinct slugs, a column whose field raises has no entry |
| `TableModels.Column.Handler` | apps/table/models.py:283 | the handler attached to a column is of the class its data type maps to and carries the column's name, slug and settings |
| `TableModels.Column.FilterNames` | apps/table/models.py:298-303 | a column's filter names are its settings' "filters" entry, or the empty list when there is none |
| `TableModels.FilterableColumns` | apps/table/models.py:86-88 | every column is filterable, including those whose `is_filterable` is false |
| `TableModels.FieldsFilters` | apps/table/models.py:186-188 | the filter map's keys are exactly the slugs of the filterable columns |
| `TableModels.FieldsFiltersEntries` | apps/table/models.py:185-188 | the filter map's keys are exactly the column slugs. With distinct slugs, each entry is the column's declared filters, or the empty list when none are declared |
| `TableModels.DependentTables` | apps/table/models.py:219-231 | the loop yields exactly `DependentTablesOf`: the owning table of each relation column targeting this table's content type, in order |
| `TableModels.DependentsCharacterised` | apps/table/models.py:226-230 | the scan succeeds exactly when every relation column's target id converts with `int(...)`. It then yields exactly the owning table of each targeting column, in column order, duplicates kept |
| `TableModels.StringTargetIdMatches` | apps/table/models.py:228-229 | a target id stored as the decimal string of the content-type id still matches |
| `TableModels.MissingTargetIdRaises` | apps/table/models.py:228-229 | one relation column anywhere without a target id makes dependent-table discovery raise |
| `TableModels.RemoveColumn` | apps/table/models.py:94-103 | a given column is deleted and ValueError follows. A name that matches exactly one of this table's columns deletes that column, and ValueError follows. A name that matches none raises DoesNotExist, and one that matches several raises MultipleObjectsReturned; neither deletes anything. Anything else raises ValueError |
| `TableModels.RemoveColumnAlwaysRaises` | apps/table/models.py:94-103 | removing a column never returns normally: some exception is always raised, and it is ValueError, DoesNotExist or MultipleObjectsReturned. Only the ValueError path deletes a column; the other two arise only for a name |
| `UserModels.CodesRoundTrip` | apps/user/models.py:70-84 | the decision codes ACCEPT=0 and REJECT=1, and the operation codes READ=0, WRITE=1 and DELETE=2, correspond one to one with their enums |
| `UserModels.DecisionFromCode` | apps/user/models.py:70-74 | exactly the codes 0 and 1 name a decision (the stored decision is nullable: `Option<Decision>`) |
| `UserModels.OperationFromCode` | apps/user/models.py:76-81 | exactly the codes 0, 1 and 2 name an operation |
| `UserModels.TablePermission.constructor` | apps/user/models.py:67-87 | a new permission record holds the given decision, operation, content type and object id |
| `UserModels.TablePermission.SetObject` | apps/user/models.py:85-87 | assigning the target sets the content type and object id from the object, or clears both for None; the decision and the operation are unchanged |
| `UserModels.TargetName` | apps/user/models.py:89-96 | "table" gives "Table" and "column" gives "Column"; any other content type raises ValueError, and an unset one raises AttributeError |
| `UserModels.GetGroups` | apps/user/models.py:34-36 | exactly the groups whose users include the user, in stored order |
| `UserModels.GetGroupsToAdd` | apps/user/models.py:38-40 | exactly the groups that do not include the user, in stored order |
| `UserModels.GroupsPartition` | apps/user/models.py:34-40 | each group is in exactly one of the two lists, and their lengths add up to the number of groups |
| `UserForms.UserForm.constructor` | apps/user/forms/form.py:55-63 | for a non-superuser every field is marked read-only except "password" and "password_confirm", which are marked editable; for a superuser no field is marked |
| `UserForms.CleanUserForm` | apps/user/forms/form.py:65-74 | an error is recorded on "password_confirm" exactly when the passwords differ, and that field then leaves the cleaned data; otherwise the data is returned unchanged; a missing password entry raises KeyError |
| `UserForms.TargetField` | apps/user/forms/form.py:150-153 | the "table" field is used exactly for the table content type, and the "column" field otherwise |
| `UserForms.CleanPermissionForm` | apps/user/forms/form.py:155-159 | a ValidationError is raised exactly when neither a table nor a column is given |
| `UserForms.TablePermissionForm.constructor` | apps/user/forms/form.py:143-153 | when the permission's target exists, its object id seeds the table field for the table content type and the column field otherwise. Otherwise neither field is seeded |
| `UserForms.SavePermission` | apps/user/forms/form.py:162-177 | empty cleaned data returns None and leaves the permission unchanged. A missing "content_type", a content type that is not a choice, or a missing target field raises and leaves the permission unchanged. Otherwise the target is the cleaned "table" value when the content type is "table", and the cleaned "column" value otherwise. An object is assigned and the permission returned. An empty target clears the target; without commit the permission is returned, with commit storing it raises IntegrityError, because `object_id` is NOT NULL (apps/user/models.py:86). Any other value raises AttributeError and changes nothing |
| `Middleware.Gate` | apps/user/middleware.py:15-22 | static paths always pass, authenticated requests always pass, and the login page always passes; a request is redirected to login exactly when it is none of these |
| `Middleware.RedirectTargetPasses` | apps/user/middleware.py:19-20 | the redirect does not loop: a user sent to the login page is let through when requesting it |

## Findings

| source | as written | input that shows it | evidently intended | confidence | as-written member | corrected member |
|---|---|---|---|---|---|---|
| apps/table/utils/column_handlers.py:295-315 | `RelationColumnHandler` does not implement the abstract `format_value`. Python therefore refuses to instantiate it, and `Column.__init__` (apps/table/models.py:283) raises TypeError for every RELATION column | any column with `dtype` 5 | a relation column gets its relation handler like every other data type | high; not executed | `TableModels.NewColumnAsWritten` | `TableModels.NewColumn` |

The rest of the model uses the corrected dispatch (`NewColumn`,
`Column.Handler`). It defines no formatting rule for relation columns:
`ColumnHandlers.Format` is not asked to format them.

## Left out

- Migration: `migrate()`, the safemigrate command and the startup hook call Django's makemigrations and migrate. These are foreign calls, with no algorithm of their own to verify.
- Slug entropy: the clock, the random number and the md5 hash. The hex digest is a parameter; only the keep-or-prefix rule is modelled.
- Django machinery: field objects, model and form class creation (`type(...)`), FilterSet and ModelChoiceFilter construction, the lookup-channel registration, and `get_related_objects_of_table`. These are replaced by descriptor records.
- The relation-column part of `get_filterset`: it builds a ModelChoiceFilter for each relation column with filters, and that is Django machinery. Only the `fields_filters` map is modelled.
- A column slug equal to "Meta" or "__module__" would overwrite those class attributes in `get_model`. Model fields are kept in their own map.
- TableModels.MetaOf: Django rejects a Meta attribute that is not a known model option with TypeError when `type(...)` creates the model (apps/table/models.py:131). The model copies every `options` key and does not check them against Django's list of option names, so `TableModels.GetModel` and `TableModels.Model` succeed where Django would raise.
- TableModels.ModelForm: `DynamicModelFormMixin` is not among the modelled files. The model assumes that it declares no form fields of its own, so that a slug without a model field makes Django's model form metaclass raise FieldError.
- `add_column` is not modelled: it is not part of the engine's column logic.
- The permission evaluator `has_permission` is not part of this model. It is a parameter.
- Settings parsing: `json.loads` of a settings string in the handler constructor. Settings are taken as an already-parsed map.
- Float values: IEEE semantics (NaN, infinities, rounding) are not modelled; the float handler uses the integer bounds rule over `real`.
- ColumnHandlers.Validate: a string value is compared with a string bound as TypeError; Python would compare the two strings lexicographically.
- Json.PyInt: `int(...)` of a string accepts an optional sign and digits only; Python also accepts surrounding whitespace and underscores between digits.
- ColumnHandlers.Format: requires a non-relation handler, because the relation handler defines no `format_value` to call.
- Middleware.RedirectTargetPasses: assumes that `reverse("login_page")` is "/user/login/". apps/user/urls.py:29 names the view "login/", and the root URL configuration that mounts it under "/user/" is not part of this model.
- UserForms.SavePermission: the permission that Django's `ModelForm.save(commit=False)` builds from the form is a parameter. Django's refusal to save a form with errors is not modelled. With `commit` the model states only the outcome of `permission.save()`: IntegrityError for an empty object id, success otherwise. It does not model the stored row.
- Persisting (`delete()` and `permission.save()`) is modelled only by its effect on the column list, the permission record, or the exception it raises.
- HTTP, templates, views, URLs, lookups, logging and the widget CSS wiring of forms are left out.
