/**
 * Users, groups and table permissions: the operation and decision codes,
 * the name of a permission's target kind, and group membership.
 */
module UserModels {
  import opened Wrappers
  import opened Json
  import opened Exceptions
  import opened Seqs
  import opened ContentTypes

  /** TablePermission.Type: the decision a permission row records. */
  datatype Decision = Accept | Reject

  /** TablePermission.Operation. */
  datatype Operation = Read | Write | Delete

  function DecisionCode(d: Decision): int
  {
    match d
    case Accept => 0
    case Reject => 1
  }

  function DecisionFromCode(code: int): (d: Option<Decision>)
    ensures d.Some? <==> code == 0 || code == 1
  {
    if code == 0 then Some(Accept) else if code == 1 then Some(Reject) else None
  }

  function OperationCode(op: Operation): int
  {
    match op
    case Read => 0
    case Write => 1
    case Delete => 2
  }

  function OperationFromCode(code: int): (op: Option<Operation>)
    ensures op.Some? <==> 0 <= code <= 2
  {
    if code == 0 then Some(Read) else if code == 1 then Some(Write)
    else if code == 2 then Some(Delete) else None
  }

  /** The stored codes and the enum members correspond one to one. */
  lemma CodesRoundTrip(d: Decision, op: Operation, code: int)
    ensures DecisionFromCode(DecisionCode(d)) == Some(d)
    ensures DecisionFromCode(code) == Some(d) <==> DecisionCode(d) == code
    ensures OperationFromCode(OperationCode(op)) == Some(op)
    ensures OperationFromCode(code) == Some(op) <==> OperationCode(op) == code
  {
  }

  /**
   * A permission row. Its target is a generic reference: a content type and
   * an object id, either of which may be unset.
   */
  class TablePermission {
    var decision: Option<Decision>
    var operation: Operation
    var contentType: Option<ContentType>
    var objectId: Option<nat>

    constructor (decision: Option<Decision>, operation: Operation,
                 contentType: Option<ContentType>, objectId: Option<nat>)
      ensures this.decision == decision && this.operation == operation
      ensures this.contentType == contentType && this.objectId == objectId
    {
      this.decision := decision;
      this.operation := operation;
      this.contentType := contentType;
      this.objectId := objectId;
    }

    /**
     * Assigning `permission.object`: the content type and the id are taken
     * from the object, or both cleared when it is None.
     */
    method SetObject(target: Option<ModelInstance>)
      modifies this
      ensures target.Some? ==> contentType == Some(target.value.contentType)
                                && objectId == Some(target.value.pk)
      ensures target.None? ==> contentType == None && objectId == None
      ensures decision == old(decision) && operation == old(operation)
    {
      if target.Some? {
        contentType := Some(target.value.contentType);
        objectId := Some(target.value.pk);
      } else {
        contentType := None;
        objectId := None;
      }
    }

  }

  /**
   * `target_name`, the label of a permission's target kind: "Table" for the table content
   * type, "Column" for the column one; any other content type raises
   * ValueError, and an unset one fails on the attribute access.
   */
  function TargetName(ct: Option<ContentType>): (r: Result<string, Exception>)
    ensures ct.None? ==> r == Err(AttributeError)
    ensures ct.Some? ==> (r.Ok? <==> ct.value.model == "table" || ct.value.model == "column")
    ensures r.Ok? ==> r.value == (if ct.value.model == "table" then "Table" else "Column")
    ensures ct.Some? && r.Err? ==> r.error == ValueError
  {
    if ct.None? then Err(AttributeError)
    else if ct.value.model == "table" then Ok("Table")
    else if ct.value.model == "column" then Ok("Column")
    else Err(ValueError)
  }

  datatype UserGroup = UserGroup(id: nat, name: string, users: set<nat>)

  predicate HasMember(user: nat, g: UserGroup) { user in g.users }

  /** `get_groups`: the groups whose users include the user, in their stored order. */
  function GetGroups(groups: seq<UserGroup>, user: nat): (r: seq<UserGroup>)
    ensures forall g :: g in r <==> g in groups && user in g.users
    ensures IsSubsequence(r, groups)
  {
    var member := (g: UserGroup) => HasMember(user, g);
    FilterMembership(groups, member);
    FilterIsSubsequence(groups, member);
    Filter(groups, member)
  }

  /** `get_groups_to_add`: the groups that do not include the user. */
  function GetGroupsToAdd(groups: seq<UserGroup>, user: nat): (r: seq<UserGroup>)
    ensures forall g :: g in r <==> g in groups && user !in g.users
    ensures IsSubsequence(r, groups)
  {
    var other := (g: UserGroup) => !HasMember(user, g);
    FilterMembership(groups, other);
    FilterIsSubsequence(groups, other);
    Filter(groups, other)
  }

  /**
   * The two lists partition the groups: no group is in both, every group is
   * in one, and their lengths add up to the number of groups.
   */
  lemma GroupsPartition(groups: seq<UserGroup>, user: nat)
    ensures forall g :: g in groups ==> (g in GetGroups(groups, user) <==> g !in GetGroupsToAdd(groups, user))
    ensures |GetGroups(groups, user)| + |GetGroupsToAdd(groups, user)| == |groups|
  {
    FilterComplementLength(groups, (g: UserGroup) => HasMember(user, g),
                           (g: UserGroup) => !HasMember(user, g));
  }
}
