/**
 * The policy editor form (`frontend/src/components/policies/PolicyEditor.tsx`): its values,
 * its schema, the menus it offers, the row edits it makes and the data it hands on when
 * submitted. Conditions and actions use the server's own records; a condition's `value` is
 * `Some("")` when the row's text box is empty.
 */
module PolicyEditor {
  import opened Wrappers
  import opened Text
  import opened Validation
  import opened PolicyModel

  const NameRequired := "Policy name is required"
  const FieldRequired := "Field is required"
  const OperatorRequired := "Operator is required"
  const ValueRequired := "Value is required"
  const ActionTypeRequired := "Action type is required"
  const ConditionsRequired := "At least one condition is required"
  const ActionsRequired := "At least one action is required"

  /** The operators under which the schema lets a condition go without a value. */
  const NoValueOperators: seq<string> := ["is_empty", "is_not_empty"]

  /** An entry of the field picker: the field path, its label and its data type. */
  datatype FieldOption = FieldOption(value: string, caption: string, kind: string)

  const ConditionFields: seq<FieldOption> := [
    FieldOption("content.text", "Content Text", "string"),
    FieldOption("file.name", "File Name", "string"),
    FieldOption("file.type", "File Type (MIME)", "string"),
    FieldOption("network.destination_ip", "Destination IP", "string"),
    FieldOption("user.id", "User ID", "string"),
    FieldOption("user.group", "User Group", "string")]

  const StringOperators: seq<string> := [
    "contains", "not_contains", "equals", "not_equals", "starts_with", "ends_with", "matches_regex", "is_one_of"]
  const NumberOperators: seq<string> := ["equals", "not_equals", "greater_than", "less_than"]

  /** The action types the type menu offers. */
  const MenuActionTypes: seq<string> := ["alert", "block", "log", "notify_user"]

  /** The row a new condition starts from. */
  const DefaultCondition := Condition("", "contains", Some(""), "string")
  /** The row a new action starts from: an alert with `{ severity: 'Medium' }`. */
  const DefaultAction := Action("alert", Some("{\"severity\":\"Medium\"}"))

  datatype FormValues = FormValues(
    name: string,
    description: string,
    isEnabled: bool,
    conditions: seq<Condition>,
    actions: seq<Action>)

  // ---------------------------------------------------------------- menus

  /**
   * `availableOperators[condition.dataType || 'string'] || []`: the operator menu for a data
   * type. Every operator it offers is one the server's schema knows and none of them lets a
   * row go without a value.
   */
  function OperatorsFor(dataType: string): (r: seq<string>)
    ensures forall k :: 0 <= k < |r| ==> r[k] in Operators && r[k] !in NoValueOperators
    ensures r != [] <==> dataType in ["", "string", "number"]
  {
    var key := if dataType == "" then "string" else dataType;
    if key == "string" then StringOperators
    else if key == "number" then NumberOperators
    else []
  }

  /** Every action type the menu offers is one the server's schema knows. */
  lemma MenuActionTypesKnown()
    ensures forall k :: 0 <= k < |MenuActionTypes| ==> MenuActionTypes[k] in ActionTypes
  {
  }

  /** Every field the picker offers is a string field. */
  lemma PickerFieldsAreStrings(k: nat)
    requires k < |ConditionFields|
    ensures ConditionFields[k].kind == "string" && ConditionFields[k].value != ""
    ensures OperatorsFor(ConditionFields[k].kind) == StringOperators
  {
  }

  // ---------------------------------------------------------------- the schema

  /** A value the schema treats as missing: undefined, or the empty text. */
  predicate Absent(v: Option<string>) {
    v.None? || v.value == ""
  }

  /** `op && !['is_empty', 'is_not_empty'].includes(op)`: whether the value is required. */
  predicate NeedsValue(op: string) {
    op != "" && op !in NoValueOperators
  }

  predicate RowComplete(c: Condition) {
    c.field != "" && c.operator != "" && (NeedsValue(c.operator) ==> !Absent(c.value))
  }

  predicate Acceptable(v: FormValues) {
    && v.name != ""
    && |v.conditions| >= 1
    && |v.actions| >= 1
    && (forall k :: 0 <= k < |v.conditions| ==> RowComplete(v.conditions[k]))
    && (forall k :: 0 <= k < |v.actions| ==> v.actions[k].kind != "")
  }

  function RowPath(list: string, index: nat, key: string): string {
    list + "[" + NatText(index) + "]." + key
  }

  /** The condition schema's issues for the row at `index`. */
  function ConditionRowIssues(c: Condition, index: nat): (r: seq<Issue>)
    ensures r == [] <==> RowComplete(c)
    ensures |r| <= 3
  {
    Check(c.field != "", RowPath("conditions", index, "field"), FieldRequired)
      + Check(c.operator != "", RowPath("conditions", index, "operator"), OperatorRequired)
      + Check(!NeedsValue(c.operator) || !Absent(c.value), RowPath("conditions", index, "value"), ValueRequired)
  }

  /** The issues of the condition rows from position `from` on. */
  function ConditionRowsIssues(cs: seq<Condition>, from: nat): (r: seq<Issue>)
    ensures r == [] <==> forall k :: 0 <= k < |cs| ==> RowComplete(cs[k])
  {
    if cs == [] then [] else ConditionRowIssues(cs[0], from) + ConditionRowsIssues(cs[1..], from + 1)
  }

  function ActionRowsIssues(acts: seq<Action>, from: nat): (r: seq<Issue>)
    ensures r == [] <==> forall k :: 0 <= k < |acts| ==> acts[k].kind != ""
  {
    if acts == [] then []
    else Check(acts[0].kind != "", RowPath("actions", from, "type"), ActionTypeRequired) + ActionRowsIssues(acts[1..], from + 1)
  }

  /** The policy schema's issues: the form can be submitted exactly when there are none. */
  function FormIssues(v: FormValues): (issues: seq<Issue>)
    ensures issues == [] <==> Acceptable(v)
  {
    Check(v.name != "", "name", NameRequired)
      + Check(|v.conditions| >= 1, "conditions", ConditionsRequired)
      + ConditionRowsIssues(v.conditions, 0)
      + Check(|v.actions| >= 1, "actions", ActionsRequired)
      + ActionRowsIssues(v.actions, 0)
  }

  /**
   * A fresh form reports the missing name and the first row's missing field and value, and
   * nothing else: the default row's operator asks for a value.
   */
  lemma FreshFormIssues()
    ensures FormIssues(InitialValues(None)) ==
      [Issue("name", NameRequired), Issue("conditions[0].field", FieldRequired), Issue("conditions[0].value", ValueRequired)]
  {
    var v := InitialValues(None);
    assert NatText(0) == "0";
    assert RowPath("conditions", 0, "field") == "conditions[0].field";
    assert RowPath("conditions", 0, "value") == "conditions[0].value";
    assert NeedsValue("contains");
    assert ConditionRowIssues(DefaultCondition, 0) == [Issue("conditions[0].field", FieldRequired), Issue("conditions[0].value", ValueRequired)];
    assert ConditionRowsIssues(v.conditions, 0) == ConditionRowIssues(DefaultCondition, 0) + ConditionRowsIssues([], 1);
    assert ActionRowsIssues(v.actions, 0) == [] + ActionRowsIssues([], 1);
  }

  /**
   * A form the schema accepts, whose operators and action types came from the menus, holds
   * conditions and actions the server's schema accepts too; and every such row has a value.
   */
  lemma AcceptedRowsPassServerSchema(v: FormValues)
    requires Acceptable(v)
    requires forall k :: 0 <= k < |v.conditions| ==>
      v.conditions[k].operator in OperatorsFor(v.conditions[k].dataType) && v.conditions[k].dataType in DataTypes
    requires forall k :: 0 <= k < |v.actions| ==> v.actions[k].kind in MenuActionTypes
    ensures forall k :: 0 <= k < |v.conditions| ==> ValidCondition(v.conditions[k]) && !Absent(v.conditions[k].value)
    ensures forall k :: 0 <= k < |v.actions| ==> ValidAction(v.actions[k])
  {
    MenuActionTypesKnown();
  }

  /** The value exemption never applies to an operator the server's schema knows. */
  lemma ServerOperatorsNeedValue(op: string)
    requires op in Operators
    ensures NeedsValue(op)
  {
  }

  // ---------------------------------------------------------------- values and edits

  /**
   * `initialValues`: the policy's name and description or "", its `isEnabled`, and its own
   * condition and action lists even when they are empty (an array is never falsy); without a
   * policy, one default condition, one default action, enabled.
   */
  function InitialValues(initial: Option<Policy>): (v: FormValues)
    ensures initial.None? ==> v == FormValues("", "", true, [DefaultCondition], [DefaultAction])
    ensures initial.Some? ==>
      && v.name == initial.value.name
      && v.description == TextOr(initial.value.description, "")
      && v.isEnabled == initial.value.isEnabled
      && v.conditions == initial.value.conditions
      && v.actions == initial.value.actions
  {
    match initial
    case None => FormValues("", "", true, [DefaultCondition], [DefaultAction])
    case Some(p) => FormValues(p.name, TextOr(p.description, ""), p.isEnabled, p.conditions, p.actions)
  }

  /**
   * A stored policy the server accepted loads into a form that can be saved again as it is,
   * provided it has a condition and an action and every condition carries a value.
   */
  lemma StoredPolicyReloads(p: Policy)
    requires ValidPolicy(p)
    requires |p.conditions| >= 1 && |p.actions| >= 1
    requires forall k :: 0 <= k < |p.conditions| ==> !Absent(p.conditions[k].value)
    ensures Acceptable(InitialValues(Some(p)))
  {
    assert forall k :: 0 <= k < |p.conditions| ==> ValidCondition(p.conditions[k]);
    assert "" !in Operators && "" !in ActionTypes;
  }

  /**
   * Picking a field (or clearing the picker): the field and its data type are set from the
   * option, or to "" and "string", and the operator is cleared.
   */
  function ChooseField(v: FormValues, index: nat, choice: Option<FieldOption>): (r: FormValues)
    requires index < |v.conditions|
    ensures |r.conditions| == |v.conditions|
    ensures !Acceptable(r)
    ensures r.conditions[index].operator == "" && r.conditions[index].value == v.conditions[index].value
    ensures choice.None? ==> r.conditions[index].field == "" && r.conditions[index].dataType == "string"
    ensures choice.Some? && choice.value in ConditionFields ==>
      r.conditions[index].field == choice.value.value && OperatorsFor(r.conditions[index].dataType) == StringOperators
    ensures forall k :: 0 <= k < |v.conditions| && k != index ==> r.conditions[k] == v.conditions[k]
    ensures r == v.(conditions := r.conditions)
  {
    var field := if choice.Some? then choice.value.value else "";
    var dataType := if choice.Some? then TextOr(Some(choice.value.kind), "string") else "string";
    var c := v.conditions[index].(field := field, dataType := dataType, operator := "");
    var r := v.(conditions := v.conditions[index := c]);
    assert r.conditions[index] == c && !RowComplete(c);
    r
  }

  /** Picking an operator from the row's menu; the menu is disabled while the row has no field. */
  function ChooseOperator(v: FormValues, index: nat, op: string): (r: FormValues)
    requires index < |v.conditions| && v.conditions[index].field != ""
    requires op in OperatorsFor(v.conditions[index].dataType)
    ensures |r.conditions| == |v.conditions|
    ensures RowComplete(r.conditions[index]) <==> !Absent(v.conditions[index].value)
    ensures r.conditions[index] == v.conditions[index].(operator := op)
    ensures forall k :: 0 <= k < |v.conditions| && k != index ==> r.conditions[k] == v.conditions[k]
    ensures r == v.(conditions := r.conditions)
  {
    v.(conditions := v.conditions[index := v.conditions[index].(operator := op)])
  }

  /** Typing into a row's value box. */
  function EditValue(v: FormValues, index: nat, text: string): (r: FormValues)
    requires index < |v.conditions|
    ensures |r.conditions| == |v.conditions|
    ensures r.conditions[index] == v.conditions[index].(value := Some(text))
    ensures text != "" ==> (RowComplete(r.conditions[index]) <==> v.conditions[index].field != "" && v.conditions[index].operator != "")
    ensures forall k :: 0 <= k < |v.conditions| && k != index ==> r.conditions[k] == v.conditions[k]
    ensures r == v.(conditions := r.conditions)
  {
    v.(conditions := v.conditions[index := v.conditions[index].(value := Some(text))])
  }

  /** "Add Condition" appends the default row. */
  function AddCondition(v: FormValues): (r: FormValues)
    ensures r.conditions == v.conditions + [DefaultCondition]
    ensures r == v.(conditions := r.conditions)
  {
    v.(conditions := v.conditions + [DefaultCondition])
  }

  /** Removing a condition row; the button is disabled while only one row is left. */
  function RemoveCondition(v: FormValues, index: nat): (r: FormValues)
    requires index < |v.conditions| && |v.conditions| > 1
    ensures |r.conditions| == |v.conditions| - 1 >= 1
    ensures forall k :: 0 <= k < index ==> r.conditions[k] == v.conditions[k]
    ensures forall k :: index <= k < |r.conditions| ==> r.conditions[k] == v.conditions[k + 1]
    ensures r == v.(conditions := r.conditions)
  {
    v.(conditions := v.conditions[..index] + v.conditions[index + 1..])
  }

  /** Picking an action type from the menu. */
  function ChooseActionType(v: FormValues, index: nat, kind: string): (r: FormValues)
    requires index < |v.actions| && kind in MenuActionTypes
    ensures |r.actions| == |v.actions|
    ensures r.actions[index] == v.actions[index].(kind := kind) && ValidAction(r.actions[index])
    ensures forall k :: 0 <= k < |v.actions| && k != index ==> r.actions[k] == v.actions[k]
    ensures r == v.(actions := r.actions)
  {
    MenuActionTypesKnown();
    v.(actions := v.actions[index := v.actions[index].(kind := kind)])
  }

  /** "Add Action" appends the default alert action. */
  function AddAction(v: FormValues): (r: FormValues)
    ensures r.actions == v.actions + [DefaultAction]
    ensures r == v.(actions := r.actions)
  {
    v.(actions := v.actions + [DefaultAction])
  }

  /** Removing an action row; the button is disabled while only one row is left. */
  function RemoveAction(v: FormValues, index: nat): (r: FormValues)
    requires index < |v.actions| && |v.actions| > 1
    ensures |r.actions| == |v.actions| - 1 >= 1
    ensures forall k :: 0 <= k < index ==> r.actions[k] == v.actions[k]
    ensures forall k :: index <= k < |r.actions| ==> r.actions[k] == v.actions[k + 1]
    ensures r == v.(actions := r.actions)
  {
    v.(actions := v.actions[..index] + v.actions[index + 1..])
  }

  /** No row edit ever leaves a form without a condition or an action once it had one. */
  lemma RowEditsKeepOneRow(v: FormValues, index: nat)
    requires |v.conditions| >= 1 && |v.actions| >= 1
    ensures |AddCondition(v).conditions| >= 1 && |AddAction(v).actions| >= 1
    ensures index < |v.conditions| && |v.conditions| > 1 ==> |RemoveCondition(v, index).conditions| >= 1
    ensures index < |v.actions| && |v.actions| > 1 ==> |RemoveAction(v, index).actions| >= 1
  {
  }

  /** The data handed to the page on submit: the values, with the edited policy's `_id` when it has one. */
  datatype Submission = Submission(id: Option<string>, values: FormValues)

  function Submit(v: FormValues, initial: Option<Policy>): (s: Submission)
    ensures s.values == v
    ensures s.id.Some? <==> initial.Some? && initial.value.id != ""
    ensures s.id.Some? ==> s.id.value == initial.value.id
  {
    if initial.Some? && initial.value.id != "" then Submission(Some(initial.value.id), v) else Submission(None, v)
  }

  // ---------------------------------------------------------------- the form state

  /** The editor's live values, changed in place by each control. */
  class PolicyForm {
    var values: FormValues
    const initial: Option<Policy>

    /** `useFormik({ initialValues, ... })` */
    constructor (initialPolicy: Option<Policy>)
      ensures initial == initialPolicy
      ensures values == InitialValues(initialPolicy)
    {
      initial := initialPolicy;
      values := InitialValues(initialPolicy);
    }

    method PickField(index: nat, choice: Option<FieldOption>)
      requires index < |values.conditions|
      modifies this
      ensures values == ChooseField(old(values), index, choice)
    {
      values := ChooseField(values, index, choice);
    }

    method PickOperator(index: nat, op: string)
      requires index < |values.conditions| && values.conditions[index].field != ""
      requires op in OperatorsFor(values.conditions[index].dataType)
      modifies this
      ensures values == ChooseOperator(old(values), index, op)
    {
      values := ChooseOperator(values, index, op);
    }

    method TypeValue(index: nat, text: string)
      requires index < |values.conditions|
      modifies this
      ensures values == EditValue(old(values), index, text)
    {
      values := EditValue(values, index, text);
    }

    method PushCondition()
      modifies this
      ensures values == AddCondition(old(values))
    {
      values := AddCondition(values);
    }

    method RemoveConditionAt(index: nat)
      requires index < |values.conditions| && |values.conditions| > 1
      modifies this
      ensures values == RemoveCondition(old(values), index)
    {
      values := RemoveCondition(values, index);
    }

    method PickActionType(index: nat, kind: string)
      requires index < |values.actions| && kind in MenuActionTypes
      modifies this
      ensures values == ChooseActionType(old(values), index, kind)
    {
      values := ChooseActionType(values, index, kind);
    }

    method PushAction()
      modifies this
      ensures values == AddAction(old(values))
    {
      values := AddAction(values);
    }

    method RemoveActionAt(index: nat)
      requires index < |values.actions| && |values.actions| > 1
      modifies this
      ensures values == RemoveAction(old(values), index)
    {
      values := RemoveAction(values, index);
    }

    /** The submit handler runs only once the schema reports nothing. */
    method HandleSubmit() returns (s: Option<Submission>)
      ensures s.Some? <==> Acceptable(values)
      ensures s.Some? ==> s.value == Submit(values, initial)
    {
      if FormIssues(values) == [] {
        s := Some(Submit(values, initial));
      } else {
        s := None;
      }
    }
  }
}
