/**
 * Content types as the registry of model kinds the code looks up: a row per
 * model, with a numeric id and a model name. Only the two lookups the
 * modelled code performs are here.
 */
module ContentTypes {
  import opened Wrappers
  import opened Json
  import opened Exceptions
  import opened Seqs

  datatype ContentType = ContentType(id: int, appLabel: string, model: string)

  /** A stored object, named by its content type and primary key. */
  datatype ModelInstance = ModelInstance(contentType: ContentType, pk: nat)

  /** `QuerySet.get()` on the rows a filter selected. */
  function GetOne(rows: seq<ContentType>): (r: Result<ContentType, Exception>)
    ensures r.Ok? <==> |rows| == 1
    ensures r.Ok? ==> r.value == rows[0]
    ensures rows == [] ==> r == Err(DoesNotExist)
    ensures |rows| > 1 ==> r == Err(MultipleObjectsReturned)
  {
    if |rows| == 0 then Err(DoesNotExist)
    else if |rows| == 1 then Ok(rows[0])
    else Err(MultipleObjectsReturned)
  }

  /**
   * `ContentType.objects.get(id=key)`: a None key matches no row; any other
   * key is converted with `int(...)` first, and the conversion's TypeError
   * or ValueError escapes.
   */
  function GetById(cts: seq<ContentType>, key: Json): (r: Result<ContentType, Exception>)
    ensures key.JNull? ==> r == Err(DoesNotExist)
    ensures r.Ok? ==> r.value in cts && PyInt(key) == Ok(r.value.id)
    ensures !key.JNull? && PyInt(key).Ok? ==>
              (r.Ok? <==> |Filter(cts, (ct: ContentType) => ct.id == PyInt(key).value)| == 1)
    ensures (!key.JNull? && PyInt(key).Ok? &&
             |Filter(cts, (ct: ContentType) => ct.id == PyInt(key).value)| == 0) ==> r == Err(DoesNotExist)
    ensures !key.JNull? && PyInt(key) == Err(NotConvertible) ==> r == Err(TypeError)
    ensures !key.JNull? && PyInt(key) == Err(BadLiteral) ==> r == Err(ValueError)
  {
    if key.JNull? then Err(DoesNotExist)
    else match PyInt(key)
      case Err(NotConvertible) => Err(TypeError)
      case Err(BadLiteral) => Err(ValueError)
      case Ok(id) =>
        var rows := Filter(cts, (ct: ContentType) => ct.id == id);
        FilterMembership(cts, (ct: ContentType) => ct.id == id);
        if |rows| == 1 then assert rows[0] in rows; GetOne(rows) else GetOne(rows)
  }

  /** `ContentType.objects.get(model=name)`. */
  function GetByModel(cts: seq<ContentType>, name: string): (r: Result<ContentType, Exception>)
    ensures r.Ok? ==> r.value in cts && r.value.model == name
    ensures r.Ok? <==> |Filter(cts, (ct: ContentType) => ct.model == name)| == 1
    ensures |Filter(cts, (ct: ContentType) => ct.model == name)| == 0 ==> r == Err(DoesNotExist)
    ensures |Filter(cts, (ct: ContentType) => ct.model == name)| > 1 ==> r == Err(MultipleObjectsReturned)
  {
    var rows := Filter(cts, (ct: ContentType) => ct.model == name);
    FilterMembership(cts, (ct: ContentType) => ct.model == name);
    if |rows| == 1 then assert rows[0] in rows; GetOne(rows) else GetOne(rows)
  }
}
