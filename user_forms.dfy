/**
 * The user form (read-only marking and password confirmation) and the
 * table-permission form (target required, target chosen by content type).
 */
module UserForms {
  import opened Wrappers
  import opened Json
  import opened Exceptions
  import opened ContentTypes
  import opened UserModels

  /** A cleaned form value. */
  datatype FieldValue =
    | NoValue
    | Text(s: string)
    | Flag(b: bool)
    | Number(n: int)
    | Instance(obj: ModelInstance)
    | ContentTypeChoice(ct: ContentType)

  /** Python truth value of a cleaned value; model instances are always true. */
  predicate IsSet(v: FieldValue)
  {
    match v
    case NoValue => false
    case Text(s) => s != ""
    case Flag(b) => b
    case Number(n) => n != 0
    case Instance(_) => true
    case ContentTypeChoice(_) => true
  }

  type CleanedData = map<string, FieldValue>

  /** `cleaned_data.get(key)`. */
  function Lookup(data: CleanedData, key: string): FieldValue
  {
    if key in data then data[key] else NoValue
  }

  // ---------------------------------------------------------------------
  // UserForm
  // ---------------------------------------------------------------------

  /** The form's fields: the model fields listed in its Meta (once each) and the declared ones. */
  const USER_FORM_FIELDS: seq<string> :=
    ["username", "password", "password_confirm", "email", "first_name", "last_name", "role", "is_superuser"]

  /** The two fields a user who is not a superuser may still edit. */
  predicate IsPasswordField(f: string) { f == "password" || f == "password_confirm" }

  class UserForm {
    const fields: seq<string>
    /** The "readonly" attribute of each field's widget, where one was set. */
    var readonly: map<string, bool>

    /**
     * For a user who is not a superuser every field is marked read-only and
     * then the two password fields are marked editable again; for a superuser
     * no field is marked.
     */
    constructor (isSuperuser: bool)
      ensures fields == USER_FORM_FIELDS
      ensures isSuperuser ==> readonly == map[]
      ensures !isSuperuser ==> forall f :: f in readonly <==> f in fields
      ensures !isSuperuser ==> forall f :: f in readonly ==> readonly[f] == !IsPasswordField(f)
    {
      fields := USER_FORM_FIELDS;
      readonly := map[];
      new;
      if !isSuperuser {
        var i := 0;
        while i < |fields|
          invariant 0 <= i <= |fields|
          invariant forall f :: f in readonly <==> f in fields[..i]
          invariant forall f :: f in readonly ==> readonly[f]
        {
          readonly := readonly[fields[i] := true];
          i := i + 1;
        }
        assert fields[..|fields|] == fields;
        readonly := readonly["password" := false];
        readonly := readonly["password_confirm" := false];
      }
    }
  }

  /** The cleaned data `clean` hands back, and the errors it recorded per field. */
  datatype Cleaned = Cleaned(data: CleanedData, errors: map<string, Reason>)

  /**
   * `UserForm.clean`: when the two passwords differ an error is recorded on
   * "password_confirm", which (as `add_error` does) also drops that field
   * from the cleaned data; otherwise the cleaned data comes back as it was.
   * A missing password entry raises KeyError.
   */
  function CleanUserForm(data: CleanedData): (r: Result<Cleaned, Exception>)
    ensures r.Ok? <==> "password" in data && "password_confirm" in data
    ensures r.Ok? ==> ("password_confirm" in r.value.errors <==> data["password"] != data["password_confirm"])
    ensures r.Ok? ==> r.value.errors.Keys <= {"password_confirm"}
    ensures r.Ok? && data["password"] == data["password_confirm"] ==> r.value.data == data
    ensures r.Ok? && data["password"] != data["password_confirm"] ==>
              "password_confirm" !in r.value.data &&
              forall f :: f != "password_confirm" && f in data ==> f in r.value.data && r.value.data[f] == data[f]
  {
    if "password" !in data then Err(KeyError(JStr("password")))
    else if "password_confirm" !in data then Err(KeyError(JStr("password_confirm")))
    else if data["password"] != data["password_confirm"] then
      Ok(Cleaned(data - {"password_confirm"}, map["password_confirm" := PasswordsDiffer]))
    else Ok(Cleaned(data, map[]))
  }

  // ---------------------------------------------------------------------
  // TablePermissionForm
  // ---------------------------------------------------------------------

  /** Which target field a permission of the given content-type model uses. */
  function TargetField(contentTypeModel: string): (f: string)
    ensures f == "table" <==> contentTypeModel == "table"
    ensures f == "table" || f == "column"
  {
    if contentTypeModel == "table" then "table" else "column"
  }

  /** `TablePermissionForm.clean`: a permission needs a table or a column. */
  function CleanPermissionForm(data: CleanedData): (r: Outcome<Exception>)
    ensures r.Fail? <==> !IsSet(Lookup(data, "table")) && !IsSet(Lookup(data, "column"))
    ensures r.Fail? ==> r.error == ValidationError(NoPermissionTarget)
  {
    if !IsSet(Lookup(data, "table")) && !IsSet(Lookup(data, "column")) then
      Fail(ValidationError(NoPermissionTarget))
    else Pass
  }

  class TablePermissionForm {
    var tableInitial: Option<nat>
    var columnInitial: Option<nat>

    /**
     * Editing a permission whose target object exists seeds the "table"
     * field with its object id when its content type is the table one, and
     * the "column" field otherwise. `existing` holds the objects that exist.
     */
    constructor (instance: TablePermission?, existing: set<ModelInstance>)
      ensures instance == null ==> tableInitial == None && columnInitial == None
      ensures instance != null ==>
                var resolves := instance.contentType.Some? && instance.objectId.Some?
                  && ModelInstance(instance.contentType.value, instance.objectId.value) in existing;
                (!resolves ==> tableInitial == None && columnInitial == None) &&
                (resolves && TargetField(instance.contentType.value.model) == "table" ==>
                   tableInitial == instance.objectId && columnInitial == None) &&
                (resolves && TargetField(instance.contentType.value.model) == "column" ==>
                   columnInitial == instance.objectId && tableInitial == None)
    {
      tableInitial := None;
      columnInitial := None;
      if instance != null && instance.contentType.Some? && instance.objectId.Some?
         && ModelInstance(instance.contentType.value, instance.objectId.value) in existing
      {
        if TargetField(instance.contentType.value.model) == "table" {
          tableInitial := instance.objectId;
        } else {
          columnInitial := instance.objectId;
        }
      }
    }
  }

  /** The cleaned data holds a content-type choice and the target field that choice selects. */
  predicate TargetChosen(data: CleanedData)
  {
    "content_type" in data && data["content_type"].ContentTypeChoice?
    && TargetField(data["content_type"].ct.model) in data
  }

  /** The cleaned value of the target field the chosen content type selects. */
  function ChosenTarget(data: CleanedData): FieldValue
    requires TargetChosen(data)
  {
    data[TargetField(data["content_type"].ct.model)]
  }

  /**
   * `TablePermissionForm.save` on the permission built from the form: with
   * no cleaned data it returns None; otherwise the permission's target is
   * the cleaned "table" value when the chosen content type is the table
   * one, and the cleaned "column" value otherwise. With `commit` the
   * permission is then stored, and storing it without an object id violates
   * the NOT NULL `object_id` column.
   */
  method SavePermission(data: CleanedData, permission: TablePermission, commit: bool)
    returns (r: Result<Option<TablePermission>, Exception>)
    modifies permission
    ensures |data| == 0 ==> r == Ok(None) && unchanged(permission)
    ensures |data| != 0 && !TargetChosen(data) ==> r.Err? && unchanged(permission)
    ensures |data| != 0 && TargetChosen(data) && ChosenTarget(data).Instance? ==>
              r == Ok(Some(permission))
              && permission.contentType == Some(ChosenTarget(data).obj.contentType)
              && permission.objectId == Some(ChosenTarget(data).obj.pk)
    ensures |data| != 0 && TargetChosen(data) && ChosenTarget(data).NoValue? ==>
              permission.contentType == None && permission.objectId == None
              && r == (if commit then Err(IntegrityError) else Ok(Some(permission)))
    ensures |data| != 0 && TargetChosen(data) &&
            !(ChosenTarget(data).Instance? || ChosenTarget(data).NoValue?) ==>
              r == Err(AttributeError) && unchanged(permission)
    ensures r.Err? && r.error != IntegrityError ==> unchanged(permission)
    ensures permission.decision == old(permission.decision)
    ensures permission.operation == old(permission.operation)
  {
    if |data| == 0 {
      return Ok(None);
    }
    if "content_type" !in data {
      return Err(KeyError(JStr("content_type")));
    }
    var choice := data["content_type"];
    if !choice.ContentTypeChoice? {
      return Err(AttributeError);
    }
    var key := TargetField(choice.ct.model);
    if key !in data {
      return Err(KeyError(JStr(key)));
    }
    var target := data[key];
    if target.Instance? {
      permission.SetObject(Some(target.obj));
    } else if target.NoValue? {
      permission.SetObject(None);
    } else {
      return Err(AttributeError);
    }
    if commit && permission.objectId.None? {
      return Err(IntegrityError);
    }
    r := Ok(Some(permission));
  }
}
