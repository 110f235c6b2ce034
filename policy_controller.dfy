/**
 * `backend/controllers/policyController.js`: creating, updating and deleting policies. An
 * update drops the undefined body fields, always records the acting user, checks a new name
 * against the other policies, merges the fields into the stored document and saves it, so
 * the pre-save hook moves the version.
 */
module PolicyController {
  import opened Wrappers
  import opened Text
  import opened Http
  import opened Validation
  import opened Collections
  import opened Patch
  import opened Documents
  import opened PolicyModel

  const CreatedMessage := "Policy created successfully"
  const UpdatedMessage := "Policy updated successfully"
  const DeletedMessage := "Policy deleted successfully"
  const NameExistsMessage := "Policy name already exists."
  const NameTakenMessage := "Another policy with this name already exists."
  const NoFieldsMessage := "No fields to update provided."

  /** `Policy not found with id of <id>` */
  function NotFoundMessage(id: string): string {
    "Policy not found with id of " + id
  }

  /** The body of a 200 or 201 answer that carries a policy. */
  datatype PolicyReply = PolicyReply(data: Policy, message: string)

  /** The five fields both handlers read from the body; `None` is undefined. */
  datatype PolicyBody = PolicyBody(
    name: Option<string>,
    description: Option<string>,
    isEnabled: Option<bool>,
    conditions: Option<seq<ConditionInput>>,
    actions: Option<seq<Action>>)

  // ---------------------------------------------------------------- createPolicy

  /** The document `Policy.create` builds: the five body fields through their setters and defaults, and the actor twice. */
  function NewPolicy(id: string, b: PolicyBody, actor: string): Policy {
    Policy(id, Trim(b.name.GetOr("")), TrimmedText(b.description), b.isEnabled.GetOr(true),
           CastConditions(b.conditions.GetOr([])), b.actions.GetOr([]), actor, actor, InitialVersion, 0)
  }

  function CreatePolicyStep(docs: seq<Policy>, b: PolicyBody, id: string, actor: string, now: nat): (s: Step<Policy, PolicyReply>)
    ensures s.reply.Failure? ==> s.docs == docs && s.reply.status == 400
    ensures !ValidPolicy(NewPolicy(id, b, actor)) ==> s.reply == Failure(400, ReportText(PolicyIssues(NewPolicy(id, b, actor))))
    ensures ValidPolicy(NewPolicy(id, b, actor)) && Clashes(docs, NewPolicy(id, b, actor), -1, SameKey) ==>
      s.reply == Failure(400, NameExistsMessage)
    ensures s.reply.Success? <==> ValidPolicy(NewPolicy(id, b, actor)) && !Clashes(docs, NewPolicy(id, b, actor), -1, SameKey)
    ensures s.reply.Success? ==>
      && |s.docs| == |docs| + 1 && s.docs[..|docs|] == docs
      && var p := s.docs[|docs|];
      && s.reply == Success(201, PolicyReply(p, CreatedMessage))
      && p.id == id && p.version == InitialVersion && p.updatedAt == now
      && p.createdBy == actor && p.updatedBy == actor
      && p.name == Trim(b.name.GetOr("")) && p.description == TrimmedText(b.description)
      && p.isEnabled == b.isEnabled.GetOr(true)
      && p.conditions == CastConditions(b.conditions.GetOr([])) && p.actions == b.actions.GetOr([])
  {
    var doc := NewPolicy(id, b, actor);
    match SavePolicy(None, doc, now)
    case Rejected(issues) => Step(docs, Failure(400, ReportText(issues)))
    case Saved(p) =>
      assert p.id == doc.id && p.name == doc.name;
      assert forall j :: 0 <= j < |docs| ==> SameKey(docs[j], p) == SameKey(docs[j], doc);
      if Clashes(docs, p, -1, SameKey) then Step(docs, Failure(400, NameExistsMessage))
      else Step(docs + [p], Success(201, PolicyReply(p, CreatedMessage)))
  }

  /** Creating a policy keeps the collection's invariant. */
  lemma CreateKeepsInvariant(docs: seq<Policy>, b: PolicyBody, id: string, actor: string, now: nat)
    requires StoreInvariant(docs)
    ensures StoreInvariant(CreatePolicyStep(docs, b, id, actor, now).docs)
  {
    var s := CreatePolicyStep(docs, b, id, actor, now);
    var doc := NewPolicy(id, b, actor);
    if ValidPolicy(doc) && !Clashes(docs, doc, -1, SameKey) {
      var p := PolicyPreSave(None, doc, now);
      assert s.docs == docs + [p] && !Clashes(docs, p, -1, SameKey) && Trim(p.name) == p.name by {
        assert p.id == doc.id && p.name == doc.name;
        forall j | 0 <= j < |docs| ensures !SameKey(docs[j], p) {
          assert !SameKey(docs[j], doc);
        }
        TrimNoSpace(p.name);
      }
      InsertKeepsInvariant(docs, p);
    } else {
      assert s.docs == docs;
    }
  }

  method CreatePolicy(store: Collection<Policy>, b: PolicyBody, id: string, actor: string, now: nat) returns (reply: Response<PolicyReply>)
    modifies store
    ensures Step(store.docs, reply) == CreatePolicyStep(old(store.docs), b, id, actor, now)
  {
    var saved := SavePolicy(None, NewPolicy(id, b, actor), now);
    if saved.Rejected? {
      return Failure(400, ReportText(saved.issues));
    }
    var inserted := store.Insert(saved.doc, SameKey);
    if !inserted {
      return Failure(400, NameExistsMessage);
    }
    reply := Success(201, PolicyReply(saved.doc, CreatedMessage));
  }

  // ---------------------------------------------------------------- updatePolicy

  /** The keys of `updateFields`. */
  datatype PolicyPath = Name | Description | IsEnabled | Conditions | Actions | UpdatedBy

  /** A value of `updateFields`. */
  datatype PolicyValue =
    | TextValue(text: string)
    | FlagValue(flag: bool)
    | ConditionsValue(conditions: seq<ConditionInput>)
    | ActionsValue(actions: seq<Action>)

  /** `{ name, description, isEnabled, conditions, actions, updatedBy: req.user.id }` */
  function UpdateFields(b: PolicyBody, actor: string): seq<Field<PolicyPath, PolicyValue>> {
    [(Name, if b.name.Some? then Some(TextValue(b.name.value)) else None),
     (Description, if b.description.Some? then Some(TextValue(b.description.value)) else None),
     (IsEnabled, if b.isEnabled.Some? then Some(FlagValue(b.isEnabled.value)) else None),
     (Conditions, if b.conditions.Some? then Some(ConditionsValue(b.conditions.value)) else None),
     (Actions, if b.actions.Some? then Some(ActionsValue(b.actions.value)) else None),
     (UpdatedBy, Some(TextValue(actor)))]
  }

  /** `Object.keys(updateFields).length <= 1 && updateFields.updatedBy` */
  predicate NothingToUpdate(kept: seq<Entry<PolicyPath, PolicyValue>>) {
    var author := Lookup(kept, UpdatedBy);
    |kept| <= 1 && author.Some? && author.value.TextValue? && author.value.text != ""
  }

  /** `Object.assign(policy, updateFields)`: each key left in the update is set through its path's setters. */
  function Assign(p: Policy, kept: seq<Entry<PolicyPath, PolicyValue>>): Policy {
    var name := Lookup(kept, Name);
    var description := Lookup(kept, Description);
    var isEnabled := Lookup(kept, IsEnabled);
    var conditions := Lookup(kept, Conditions);
    var actions := Lookup(kept, Actions);
    var author := Lookup(kept, UpdatedBy);
    p.(name := if name.Some? && name.value.TextValue? then Trim(name.value.text) else p.name,
       description := if description.Some? && description.value.TextValue? then Some(Trim(description.value.text)) else p.description,
       isEnabled := if isEnabled.Some? && isEnabled.value.FlagValue? then isEnabled.value.flag else p.isEnabled,
       conditions := if conditions.Some? && conditions.value.ConditionsValue? then CastConditions(conditions.value.conditions) else p.conditions,
       actions := if actions.Some? && actions.value.ActionsValue? then actions.value.actions else p.actions,
       updatedBy := if author.Some? && author.value.TextValue? then author.value.text else p.updatedBy)
  }

  /** A body that gives none of the five fields. */
  predicate BodyEmpty(b: PolicyBody) {
    b.name.None? && b.description.None? && b.isEnabled.None? && b.conditions.None? && b.actions.None?
  }

  /** The policy the update should produce, field by field from the body. */
  function Merged(p: Policy, b: PolicyBody, actor: string): (r: Policy)
    ensures r.id == p.id && r.createdBy == p.createdBy && r.version == p.version && r.updatedAt == p.updatedAt
    ensures r.updatedBy == actor
    ensures BodyEmpty(b) ==> r == p.(updatedBy := actor)
  {
    p.(name := if b.name.Some? then Trim(b.name.value) else p.name,
       description := if b.description.Some? then TrimmedText(b.description) else p.description,
       isEnabled := b.isEnabled.GetOr(p.isEnabled),
       conditions := if b.conditions.Some? then CastConditions(b.conditions.value) else p.conditions,
       actions := b.actions.GetOr(p.actions),
       updatedBy := actor)
  }

  /**
   * The update is refused as empty exactly when the body gives none of the five fields, for a
   * signed-in actor (whose id is never empty).
   */
  lemma NothingToUpdateIff(b: PolicyBody, actor: string)
    ensures NothingToUpdate(Defined(UpdateFields(b, actor))) <==> BodyEmpty(b) && actor != ""
  {
    var f := UpdateFields(b, actor);
    var g := f[..5];
    assert DistinctKeys(f);
    LookupDefined(f, 5);
    assert f == g + [f[5]];
    DefinedSnoc(g, f[5]);
    assert Defined(f) == Defined(g) + [(UpdatedBy, TextValue(actor))];
    assert forall i :: 0 <= i < 5 ==> g[i] == f[i];
    if BodyEmpty(b) {
      assert forall i :: 0 <= i < 5 ==> g[i].1.None?;
      assert Defined(g) == [];
    } else {
      assert !(forall i :: 0 <= i < 5 ==> g[i].1.None?) by {
        if b.name.Some? {
          assert g[0].1.Some?;
        } else if b.description.Some? {
          assert g[1].1.Some?;
        } else if b.isEnabled.Some? {
          assert g[2].1.Some?;
        } else if b.conditions.Some? {
          assert g[3].1.Some?;
        } else {
          assert g[4].1.Some?;
        }
      }
      assert Defined(g) != [];
    }
  }

  /** Dropping the undefined fields and assigning what is left is the field-by-field merge. */
  lemma AssignMatchesMerge(p: Policy, b: PolicyBody, actor: string)
    ensures Assign(p, Defined(UpdateFields(b, actor))) == Merged(p, b, actor)
  {
    var f := UpdateFields(b, actor);
    assert DistinctKeys(f);
    LookupDefined(f, 0);
    LookupDefined(f, 1);
    LookupDefined(f, 2);
    LookupDefined(f, 3);
    LookupDefined(f, 4);
    LookupDefined(f, 5);
  }

  /** `name && name !== policy.name`: whether the uniqueness check runs. */
  predicate ChangesName(name: Option<string>, current: string) {
    name.Some? && name.value != "" && name.value != current
  }

  /** `{ name: name, _id: { $ne: policy._id } }`, the name going through the path's trim setter. */
  function NameHeldByOther(name: string, self: string): Policy -> bool {
    (q: Policy) => q.name == Trim(name) && q.id != self
  }

  /** Whether the uniqueness check finds another policy under the new name. */
  predicate NameConflict(docs: seq<Policy>, b: PolicyBody, current: Policy) {
    ChangesName(b.name, current.name) && Any(docs, NameHeldByOther(b.name.value, current.id))
  }

  function UpdatePolicyStep(docs: seq<Policy>, id: string, b: PolicyBody, actor: string, now: nat): (s: Step<Policy, PolicyReply>)
    ensures BodyEmpty(b) && actor != "" ==> s == Step(docs, Failure(400, NoFieldsMessage))
    ensures s.reply.Failure? ==> s.docs == docs
    ensures !(BodyEmpty(b) && actor != "") && FirstIndex(docs, HasId(id)).None? ==>
      s == Step(docs, Failure(404, NotFoundMessage(id)))
    ensures !(BodyEmpty(b) && actor != "") && FirstIndex(docs, HasId(id)).Some? ==>
      var k := FirstIndex(docs, HasId(id)).value;
      var saved := PolicyPreSave(Some(docs[k]), Merged(docs[k], b, actor), now);
      && (NameConflict(docs, b, docs[k]) ==> s.reply == Failure(400, NameTakenMessage))
      && (!NameConflict(docs, b, docs[k]) && !ValidPolicy(Merged(docs[k], b, actor)) ==>
            s.reply == Failure(400, ReportText(PolicyIssues(Merged(docs[k], b, actor)))))
      && (s.reply.Success? <==>
            !NameConflict(docs, b, docs[k]) && ValidPolicy(Merged(docs[k], b, actor)) && !Clashes(docs, saved, k, SameKey))
      && (s.reply.Success? ==> s.docs == docs[k := saved] && s.reply == Success(200, PolicyReply(saved, UpdatedMessage)))
  {
    var kept := Defined(UpdateFields(b, actor));
    NothingToUpdateIff(b, actor);
    if NothingToUpdate(kept) then Step(docs, Failure(400, NoFieldsMessage))
    else
      match FirstIndex(docs, HasId(id))
      case None => Step(docs, Failure(404, NotFoundMessage(id)))
      case Some(k) =>
        var policy := docs[k];
        if NameConflict(docs, b, policy) then Step(docs, Failure(400, NameTakenMessage))
        else
          AssignMatchesMerge(policy, b, actor);
          match SavePolicy(Some(policy), Assign(policy, kept), now)
          case Rejected(issues) => Step(docs, Failure(400, ReportText(issues)))
          case Saved(p) =>
            if Clashes(docs, p, k, SameKey) then Step(docs, Failure(400, NameExistsMessage))
            else Step(docs[k := p], Success(200, PolicyReply(p, UpdatedMessage)))
  }

  /**
   * What the update's save does to the merged policy (which `UpdatePolicyStep` stores on
   * success): `updatedAt` is now, and the version goes up by exactly one when the merge changed
   * the document, which it always does when another administrator updates it.
   */
  lemma MergeVersion(p: Policy, b: PolicyBody, actor: string, now: nat)
    ensures var saved := PolicyPreSave(Some(p), Merged(p, b, actor), now);
      && saved.updatedAt == now
      && saved.version == (if Merged(p, b, actor) != p then p.version + 1 else p.version)
      && (actor != p.updatedBy ==> saved.version == p.version + 1)
  {
    var merged := Merged(p, b, actor);
    assert merged.updatedBy == actor && merged.version == p.version;
  }

  /** A successful update wrote the saved merge over the policy it found. */
  lemma UpdateSucceeded(docs: seq<Policy>, id: string, b: PolicyBody, actor: string, now: nat) returns (k: nat, saved: Policy)
    requires UpdatePolicyStep(docs, id, b, actor, now).reply.Success?
    ensures FirstIndex(docs, HasId(id)) == Some(k) && k < |docs|
    ensures saved == PolicyPreSave(Some(docs[k]), Merged(docs[k], b, actor), now)
    ensures UpdatePolicyStep(docs, id, b, actor, now).docs[k] == saved
  {
    k := FirstIndex(docs, HasId(id)).value;
    saved := PolicyPreSave(Some(docs[k]), Merged(docs[k], b, actor), now);
    assert UpdatePolicyStep(docs, id, b, actor, now).docs == docs[k := saved];
  }

  /** A field the body leaves undefined keeps its stored value; the creator and the id never change. */
  lemma UpdateKeepsAbsentFields(docs: seq<Policy>, id: string, b: PolicyBody, actor: string, now: nat)
    requires UpdatePolicyStep(docs, id, b, actor, now).reply.Success?
    ensures var k := FirstIndex(docs, HasId(id)).value;
      var after := UpdatePolicyStep(docs, id, b, actor, now).docs[k];
      && after.id == docs[k].id && after.createdBy == docs[k].createdBy && after.updatedBy == actor
      && (b.name.None? ==> after.name == docs[k].name)
      && (b.description.None? ==> after.description == docs[k].description)
      && (b.isEnabled.None? ==> after.isEnabled == docs[k].isEnabled)
      && (b.conditions.None? ==> after.conditions == docs[k].conditions)
      && (b.actions.None? ==> after.actions == docs[k].actions)
  {
  }

  /** Re-sending the stored name skips the uniqueness check. */
  lemma SameNameSkipsCheck(docs: seq<Policy>, b: PolicyBody, current: Policy)
    requires b.name == Some(current.name)
    ensures !NameConflict(docs, b, current)
  {
  }

  /**
   * In a consistent collection the uniqueness check leaves the index nothing to refuse: once
   * the check passes and the merged policy is valid, the save succeeds.
   */
  lemma {:induction false} MergedKeepsKeysApart(docs: seq<Policy>, k: nat, b: PolicyBody, actor: string, now: nat)
    requires StoreInvariant(docs) && k < |docs|
    requires !NameConflict(docs, b, docs[k]) && ValidPolicy(Merged(docs[k], b, actor))
    ensures !Clashes(docs, PolicyPreSave(Some(docs[k]), Merged(docs[k], b, actor), now), k, SameKey)
  {
    var saved := PolicyPreSave(Some(docs[k]), Merged(docs[k], b, actor), now);
    forall j | 0 <= j < |docs| && j != k ensures !SameKey(docs[j], saved) {
      var other := docs[j];
      assert !SameKey(other, docs[k]);
      assert saved.id == docs[k].id;
      if b.name.Some? {
        var v := b.name.value;
        assert saved.name == Trim(v);
        if v == docs[k].name {
          assert Trim(docs[k].name) == docs[k].name;
        } else {
          assert v != "" by {
            assert |Trim(v)| <= |v| && Trim(v) != "";
          }
          assert ChangesName(b.name, docs[k].name);
          var p := NameHeldByOther(v, docs[k].id);
          assert FirstIndex(docs, p).None?;
          assert !p(other);
        }
      } else {
        assert saved.name == docs[k].name;
      }
    }
  }

  /** Names are stored trimmed, and the merge keeps them so. */
  lemma MergedNameTrimmed(p: Policy, b: PolicyBody, actor: string, now: nat)
    requires Trim(p.name) == p.name
    ensures var saved := PolicyPreSave(Some(p), Merged(p, b, actor), now); Trim(saved.name) == saved.name
  {
    if b.name.Some? {
      TrimNoSpace(Trim(b.name.value));
    }
  }

  lemma UpdateKeepsInvariant(docs: seq<Policy>, id: string, b: PolicyBody, actor: string, now: nat)
    requires StoreInvariant(docs)
    ensures StoreInvariant(UpdatePolicyStep(docs, id, b, actor, now).docs)
  {
    var s := UpdatePolicyStep(docs, id, b, actor, now);
    var found := FirstIndex(docs, HasId(id));
    if s.reply.Failure? {
      assert s.docs == docs;
    } else {
      var k := found.value;
      var saved := PolicyPreSave(Some(docs[k]), Merged(docs[k], b, actor), now);
      assert s.docs == docs[k := saved] && !Clashes(docs, saved, k, SameKey);
      MergedNameTrimmed(docs[k], b, actor, now);
      ReplaceKeepsInvariant(docs, k, saved);
    }
  }

  method UpdatePolicy(store: Collection<Policy>, id: string, b: PolicyBody, actor: string, now: nat) returns (reply: Response<PolicyReply>)
    modifies store
    ensures Step(store.docs, reply) == UpdatePolicyStep(old(store.docs), id, b, actor, now)
  {
    ghost var docs := store.docs;
    ghost var step := UpdatePolicyStep(docs, id, b, actor, now);
    var kept := DropUndefined(UpdateFields(b, actor));
    NothingToUpdateIff(b, actor);
    if NothingToUpdate(kept) {
      assert step == Step(docs, Failure(400, NoFieldsMessage));
      return Failure(400, NoFieldsMessage);
    }
    var k := store.Find(HasId(id));
    if k < 0 {
      assert step == Step(docs, Failure(404, NotFoundMessage(id)));
      return Failure(404, NotFoundMessage(id));
    }
    var policy := store.docs[k];
    if ChangesName(b.name, policy.name) {
      var other := store.Find(NameHeldByOther(b.name.value, policy.id));
      if other >= 0 {
        assert NameConflict(docs, b, policy);
        assert step == Step(docs, Failure(400, NameTakenMessage));
        return Failure(400, NameTakenMessage);
      }
    }
    assert !NameConflict(docs, b, policy);
    AssignMatchesMerge(policy, b, actor);
    var saved := SavePolicy(Some(policy), Assign(policy, kept), now);
    if saved.Rejected? {
      assert step == Step(docs, Failure(400, ReportText(saved.issues)));
      return Failure(400, ReportText(saved.issues));
    }
    var written := store.Replace(k, saved.doc, SameKey);
    if !written {
      assert step == Step(docs, Failure(400, NameExistsMessage));
      return Failure(400, NameExistsMessage);
    }
    assert step == Step(docs[k := saved.doc], Success(200, PolicyReply(saved.doc, UpdatedMessage)));
    reply := Success(200, PolicyReply(saved.doc, UpdatedMessage));
  }

  // ---------------------------------------------------------------- deletePolicy

  method DeletePolicy(store: Collection<Policy>, id: string) returns (reply: Response<string>)
    modifies store
    ensures Step(store.docs, reply) == DeleteStep(old(store.docs), HasId(id), NotFoundMessage(id), DeletedMessage)
  {
    reply := DeleteById(store, HasId(id), NotFoundMessage(id), DeletedMessage);
  }
}
