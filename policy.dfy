/**
 * The policy schema (`backend/models/Policy.js`): conditions and actions with their enums,
 * the unique trimmed name, the default version, validation, and the pre-save hook that
 * counts versions and stamps `updatedAt`.
 */
module PolicyModel {
  import opened Wrappers
  import opened Text
  import opened Validation
  import opened Documents

  const Operators: seq<string> := [
    "contains", "not_contains", "matches_regex", "not_matches_regex", "equals", "not_equals",
    "is_one_of", "is_not_one_of", "greater_than", "less_than", "starts_with", "ends_with"]
  const DataTypes: seq<string> := ["string", "number", "boolean", "date", "array_string"]
  const DefaultDataType := "string"
  const ActionTypes: seq<string> := ["alert", "block", "log", "encrypt", "notify_user", "quarantine", "require_justification"]
  const InitialVersion: nat := 1
  const NameRequiredMessage := "Policy name is required"

  /**
   * A condition. `value` is a mixed-type path: the model carries it as opaque JSON text,
   * `None` when absent. A required string path that is absent is "".
   */
  datatype Condition = Condition(field: string, operator: string, value: Option<string>, dataType: string)

  /** A condition as the request gives it: `dataType` may be left out. */
  datatype ConditionInput = ConditionInput(field: string, operator: string, value: Option<string>, dataType: Option<string>)

  /** An action; `kind` is the schema's `type` path, `parameters` opaque JSON text. */
  datatype Action = Action(kind: string, parameters: Option<string>)

  datatype Policy = Policy(
    id: string,
    name: string,
    description: Option<string>,
    isEnabled: bool,
    conditions: seq<Condition>,
    actions: seq<Action>,
    createdBy: string,
    updatedBy: string,
    version: nat,
    updatedAt: nat)

  /** Casting a request condition into the sub-schema: `dataType` takes its default. */
  function CastCondition(c: ConditionInput): (r: Condition)
    ensures r.dataType == c.dataType.GetOr(DefaultDataType)
    ensures r.field == c.field && r.operator == c.operator && r.value == c.value
  {
    Condition(c.field, c.operator, c.value, c.dataType.GetOr(DefaultDataType))
  }

  function CastConditions(cs: seq<ConditionInput>): (r: seq<Condition>)
    ensures |r| == |cs|
    ensures forall k :: 0 <= k < |cs| ==> r[k] == CastCondition(cs[k])
  {
    if cs == [] then [] else [CastCondition(cs[0])] + CastConditions(cs[1..])
  }

  // ---------------------------------------------------------------- validation

  predicate ValidCondition(c: Condition) {
    c.field != "" && c.operator in Operators && c.dataType in DataTypes
  }

  predicate ValidAction(a: Action) {
    a.kind in ActionTypes
  }

  /** What the schema accepts. */
  predicate ValidPolicy(p: Policy) {
    && p.name != ""
    && (forall k :: 0 <= k < |p.conditions| ==> ValidCondition(p.conditions[k]))
    && (forall k :: 0 <= k < |p.actions| ==> ValidAction(p.actions[k]))
    && p.createdBy != ""
    && p.updatedBy != ""
  }

  /** A required path with an enum: the `required` validator, then the `enum` one. */
  function RequiredEnumIssues(path: string, local: string, v: string, values: seq<string>): (r: seq<Issue>)
    ensures r == [] <==> v in values && v != ""
  {
    if v == "" then [Issue(path, RequiredMessage(local))] else Check(v in values, path, EnumMessage(local, v))
  }

  /** The issues of one condition, under `conditions.<index>.`. */
  function ConditionIssues(c: Condition, index: nat): (r: seq<Issue>)
    ensures r == [] <==> ValidCondition(c)
  {
    var prefix := "conditions." + NatText(index) + ".";
    assert "" !in DataTypes;
    Check(c.field != "", prefix + "field", RequiredMessage("field"))
      + RequiredEnumIssues(prefix + "operator", "operator", c.operator, Operators)
      + Check(c.dataType in DataTypes, prefix + "dataType", EnumMessage("dataType", c.dataType))
  }

  /** The issues of the conditions from position `from` on. */
  function ConditionsIssues(cs: seq<Condition>, from: nat): (r: seq<Issue>)
    ensures r == [] <==> forall k :: 0 <= k < |cs| ==> ValidCondition(cs[k])
  {
    if cs == [] then [] else ConditionIssues(cs[0], from) + ConditionsIssues(cs[1..], from + 1)
  }

  function ActionIssues(a: Action, index: nat): (r: seq<Issue>)
    ensures r == [] <==> ValidAction(a)
  {
    RequiredEnumIssues("actions." + NatText(index) + ".type", "type", a.kind, ActionTypes)
  }

  function ActionsIssues(acts: seq<Action>, from: nat): (r: seq<Issue>)
    ensures r == [] <==> forall k :: 0 <= k < |acts| ==> ValidAction(acts[k])
  {
    if acts == [] then [] else ActionIssues(acts[0], from) + ActionsIssues(acts[1..], from + 1)
  }

  /** Full-document validation, in schema order. */
  function PolicyIssues(p: Policy): (issues: seq<Issue>)
    ensures issues == [] <==> ValidPolicy(p)
  {
    Check(p.name != "", "name", NameRequiredMessage)
      + ConditionsIssues(p.conditions, 0)
      + ActionsIssues(p.actions, 0)
      + Check(p.createdBy != "", "createdBy", RequiredMessage("createdBy"))
      + Check(p.updatedBy != "", "updatedBy", RequiredMessage("updatedBy"))
  }

  // ---------------------------------------------------------------- saving

  /**
   * The pre-save hook. `isModified()` holds for an existing document when some path differs
   * from the stored copy; the version moves only then, never for a new document, and
   * `updatedAt` is stamped on every save.
   */
  function PolicyPreSave(stored: Option<Policy>, doc: Policy, now: nat): (r: Policy)
    ensures r.updatedAt == now
    ensures stored.None? ==> r.version == doc.version
    ensures stored.Some? && stored.value != doc ==> r.version == doc.version + 1
    ensures stored.Some? && stored.value == doc ==> r.version == doc.version
    ensures r == doc.(version := r.version, updatedAt := now)
  {
    var version := if stored.Some? && stored.value != doc then doc.version + 1 else doc.version;
    doc.(version := version, updatedAt := now)
  }

  /** `doc.save()`: validation, then the pre-save hook. */
  function SavePolicy(stored: Option<Policy>, doc: Policy, now: nat): (r: Saved<Policy>)
    ensures r.Rejected? <==> !ValidPolicy(doc)
    ensures r.Rejected? ==> r.issues == PolicyIssues(doc)
    ensures r.Saved? ==> r.doc == PolicyPreSave(stored, doc, now)
  {
    if PolicyIssues(doc) != [] then Rejected(PolicyIssues(doc)) else Saved(PolicyPreSave(stored, doc, now))
  }

  /** The hook never touches what validation looked at, so a saved policy is still valid. */
  lemma SavedPolicyValid(stored: Option<Policy>, doc: Policy, now: nat)
    requires SavePolicy(stored, doc, now).Saved?
    ensures ValidPolicy(SavePolicy(stored, doc, now).doc)
  {
    var r := SavePolicy(stored, doc, now).doc;
    assert r.conditions == doc.conditions && r.actions == doc.actions;
  }

  // ---------------------------------------------------------------- the collection

  /** The unique indexes: `_id` and `name`. */
  predicate SameKey(a: Policy, b: Policy) {
    a.id == b.id || a.name == b.name
  }

  /** `findById(id)` */
  function HasId(id: string): Policy -> bool {
    (p: Policy) => p.id == id
  }

  /** Stored names are trimmed and the unique indexes hold. */
  ghost predicate StoreInvariant(docs: seq<Policy>) {
    && Distinct(docs, SameKey)
    && (forall i :: 0 <= i < |docs| ==> Trim(docs[i].name) == docs[i].name)
  }

  /** Appending a policy with a trimmed name that clashes with none keeps the invariant. */
  lemma InsertKeepsInvariant(docs: seq<Policy>, p: Policy)
    requires StoreInvariant(docs) && !Clashes(docs, p, -1, SameKey) && Trim(p.name) == p.name
    ensures StoreInvariant(docs + [p])
  {
    InsertKeepsDistinct(docs, p, SameKey);
    var s := docs + [p];
    assert forall i :: 0 <= i < |s| ==> s[i] == if i < |docs| then docs[i] else p;
  }

  /** Overwriting a policy with one whose name is trimmed and clashes with no other keeps the invariant. */
  lemma ReplaceKeepsInvariant(docs: seq<Policy>, k: nat, p: Policy)
    requires k < |docs| && StoreInvariant(docs) && !Clashes(docs, p, k, SameKey) && Trim(p.name) == p.name
    ensures StoreInvariant(docs[k := p])
  {
    ReplaceKeepsDistinct(docs, k, p, SameKey);
  }
}
