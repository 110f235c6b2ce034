/**
 * `backend/controllers/alertController.js`: creating, updating and deleting alerts. An update
 * is one `findByIdAndUpdate` that `$set`s the given fields and `$push`es one history entry
 * naming them; it does not go through `save()`, so the status-change hook never runs.
 */
module AlertController {
  import opened Wrappers
  import opened Text
  import opened Http
  import opened Validation
  import opened Collections
  import opened Patch
  import opened Documents
  import opened AlertModel

  const CreatedMessage := "Alert created successfully"
  const UpdatedMessage := "Alert updated successfully"
  const DeletedMessage := "Alert deleted successfully"
  const NoFieldsMessage := "No fields to update provided."
  const ServerError := "Server Error"
  const UpdatePrefix := "Alert updated: "

  /** `Alert not found with id of <id>` */
  function NotFoundMessage(id: string): string {
    "Alert not found with id of " + id
  }

  /** The body of a 200 or 201 answer that carries an alert. */
  datatype AlertReply = AlertReply(data: Alert, message: string)

  // ---------------------------------------------------------------- createAlert

  /** The fields `createAlert` reads from the body; `None` is undefined. */
  datatype AlertInput = AlertInput(
    title: Option<string>,
    description: Option<string>,
    severity: Option<string>,
    status: Option<string>,
    policyTriggered: Option<string>,
    userInvolved: Option<seq<string>>,
    source: Option<string>,
    tags: Option<seq<string>>)

  /** The document `Alert.create` builds, with the schema's setters and defaults. */
  function NewAlert(id: string, input: AlertInput, now: nat): Alert {
    Alert(id, Trim(input.title.GetOr("")), TrimmedText(input.description), input.severity.GetOr(DefaultSeverity),
          TextOr(input.status, DefaultStatus), input.policyTriggered, input.userInvolved.GetOr([]), TrimmedText(input.source),
          NormalizeEach(input.tags.GetOr([])), [], None, [], now)
  }

  function CreateAlertStep(docs: seq<Alert>, input: AlertInput, id: string, now: nat): (s: Step<Alert, AlertReply>)
    ensures s.reply.Failure? ==> s.docs == docs
    ensures !ValidAlert(NewAlert(id, input, now)) ==> s.reply == Failure(400, ReportText(AlertIssues(NewAlert(id, input, now))))
    ensures s.reply.Success? <==> ValidAlert(NewAlert(id, input, now)) && !Clashes(docs, NewAlert(id, input, now), -1, SameKey)
    ensures s.reply.Success? ==>
      && |s.docs| == |docs| + 1 && s.docs[..|docs|] == docs
      && var a := s.docs[|docs|];
      && s.reply == Success(201, AlertReply(a, CreatedMessage))
      && a.id == id && a.title == Trim(input.title.GetOr(""))
      && a.status == TextOr(input.status, DefaultStatus)
      && a.severity == input.severity.GetOr(DefaultSeverity)
      && a.history == [] && a.notes == [] && a.assignedTo.None? && a.timestamp == now
  {
    var doc := NewAlert(id, input, now);
    match SaveAlert(None, doc, now)
    case Rejected(issues) => Step(docs, Failure(400, ReportText(issues)))
    case Saved(a) =>
      if Clashes(docs, a, -1, SameKey) then Step(docs, Failure(500, ServerError))
      else Step(docs + [a], Success(201, AlertReply(a, CreatedMessage)))
  }

  /** A created alert is new: whatever its status, the hook records nothing. */
  lemma CreatedAlertHasNoHistory(docs: seq<Alert>, input: AlertInput, id: string, now: nat)
    requires CreateAlertStep(docs, input, id, now).reply.Success?
    ensures CreateAlertStep(docs, input, id, now).docs[|docs|] == NewAlert(id, input, now)
  {
  }

  method CreateAlert(store: Collection<Alert>, input: AlertInput, id: string, now: nat) returns (reply: Response<AlertReply>)
    modifies store
    ensures Step(store.docs, reply) == CreateAlertStep(old(store.docs), input, id, now)
  {
    var saved := SaveAlert(None, NewAlert(id, input, now), now);
    if saved.Rejected? {
      return Failure(400, ReportText(saved.issues));
    }
    var inserted := store.Insert(saved.doc, SameKey);
    if !inserted {
      return Failure(500, ServerError);
    }
    reply := Success(201, AlertReply(saved.doc, CreatedMessage));
  }

  // ---------------------------------------------------------------- updateAlert

  /** The fields `updateAlert` reads from the body; `None` is undefined, `Some(None)` is null. */
  datatype AlertBody = AlertBody(
    status: Option<string>,
    severity: Option<string>,
    notes: Option<seq<Note>>,
    assignedTo: Option<Option<string>>)

  /** The keys of `updateFields`. */
  datatype AlertPath = Status | Severity | Notes | AssignedTo

  function PathName(p: AlertPath): string {
    match p
    case Status => "status"
    case Severity => "severity"
    case Notes => "notes"
    case AssignedTo => "assignedTo"
  }

  function PathNames(ps: seq<AlertPath>): (r: seq<string>)
    ensures |r| == |ps|
    ensures forall k :: 0 <= k < |ps| ==> r[k] == PathName(ps[k])
  {
    if ps == [] then [] else [PathName(ps[0])] + PathNames(ps[1..])
  }

  /** A value of `updateFields`. */
  datatype AlertValue =
    | TextValue(text: string)
    | NotesValue(notes: seq<Note>)
    | RefValue(ref: Option<string>)

  /** `{ status, severity, notes, assignedTo }` */
  function UpdateFields(b: AlertBody): seq<Field<AlertPath, AlertValue>> {
    [(Status, if b.status.Some? then Some(TextValue(b.status.value)) else None),
     (Severity, if b.severity.Some? then Some(TextValue(b.severity.value)) else None),
     (Notes, if b.notes.Some? then Some(NotesValue(b.notes.value)) else None),
     (AssignedTo, if b.assignedTo.Some? then Some(RefValue(b.assignedTo.value)) else None)]
  }

  function TextAt(kept: seq<Entry<AlertPath, AlertValue>>, path: AlertPath): Option<string> {
    var v := Lookup(kept, path);
    if v.Some? && v.value.TextValue? then Some(v.value.text) else None
  }

  /** The `$set` of the paths the update names; other paths keep their values. */
  function SetPaths(a: Alert, kept: seq<Entry<AlertPath, AlertValue>>): Alert {
    var notes := Lookup(kept, Notes);
    var assignedTo := Lookup(kept, AssignedTo);
    a.(status := TextAt(kept, Status).GetOr(a.status),
       severity := TextAt(kept, Severity).GetOr(a.severity),
       notes := if notes.Some? && notes.value.NotesValue? then notes.value.notes else a.notes,
       assignedTo := if assignedTo.Some? && assignedTo.value.RefValue? then assignedTo.value.ref else a.assignedTo)
  }

  /** The update validators of the set paths, in the order of the update's keys. */
  function UpdateIssues(kept: seq<Entry<AlertPath, AlertValue>>): seq<Issue> {
    var status := TextAt(kept, Status);
    var severity := TextAt(kept, Severity);
    (if status.Some? then StatusIssues(status.value) else [])
    + (if severity.Some? then SeverityIssues(severity.value) else [])
  }

  /** The `$push`ed entry: the acting user, and the names of the updated keys. */
  function UpdateEntry(kept: seq<Entry<AlertPath, AlertValue>>, actor: string, now: nat): HistoryEntry {
    HistoryEntry(Some(actor), UpdatePrefix + Join(PathNames(Keys(kept)), ", "), now)
  }

  /** The paths the body gives, in the order `updateFields` declares them. */
  function GivenPaths(b: AlertBody): (r: seq<AlertPath>)
    ensures r == [] <==> b.status.None? && b.severity.None? && b.notes.None? && b.assignedTo.None?
  {
    (if b.status.Some? then [Status] else [])
    + (if b.severity.Some? then [Severity] else [])
    + (if b.notes.Some? then [Notes] else [])
    + (if b.assignedTo.Some? then [AssignedTo] else [])
  }

  /** The alert the update should produce, field by field from the body, with its one new history entry. */
  function Patched(a: Alert, b: AlertBody, actor: string, now: nat): (r: Alert)
    ensures r.id == a.id && r.title == a.title && r.description == a.description
    ensures r.tags == a.tags && r.userInvolved == a.userInvolved && r.timestamp == a.timestamp
    ensures |r.history| == |a.history| + 1 && r.history[..|a.history|] == a.history
  {
    a.(status := b.status.GetOr(a.status),
       severity := b.severity.GetOr(a.severity),
       notes := b.notes.GetOr(a.notes),
       assignedTo := b.assignedTo.GetOr(a.assignedTo),
       history := a.history + [HistoryEntry(Some(actor), UpdatePrefix + Join(PathNames(GivenPaths(b)), ", "), now)])
  }

  /** The issues the update should report, field by field from the body. */
  function PatchIssues(b: AlertBody): (r: seq<Issue>)
    ensures r == [] <==> (b.status.Some? ==> b.status.value in Statuses) && (b.severity.Some? ==> b.severity.value in Severities)
  {
    (if b.status.Some? then StatusIssues(b.status.value) else [])
    + (if b.severity.Some? then SeverityIssues(b.severity.value) else [])
  }

  /** The keys left after the undefined ones are deleted are the given paths, in declaration order. */
  lemma KeysAreGivenPaths(b: AlertBody)
    ensures Keys(Defined(UpdateFields(b))) == GivenPaths(b)
  {
    var f := UpdateFields(b);
    var p0: seq<AlertPath> := if b.status.Some? then [Status] else [];
    var p1: seq<AlertPath> := if b.severity.Some? then [Severity] else [];
    var p2: seq<AlertPath> := if b.notes.Some? then [Notes] else [];
    var p3: seq<AlertPath> := if b.assignedTo.Some? then [AssignedTo] else [];
    assert Keys(Defined([f[0]])) == p0 by {
      assert [f[0]] == [] + [f[0]];
      KeysDefinedSnoc([], f[0]);
    }
    assert Keys(Defined([f[0], f[1]])) == p0 + p1 by {
      assert [f[0], f[1]] == [f[0]] + [f[1]];
      KeysDefinedSnoc([f[0]], f[1]);
    }
    assert Keys(Defined([f[0], f[1], f[2]])) == p0 + p1 + p2 by {
      assert [f[0], f[1], f[2]] == [f[0], f[1]] + [f[2]];
      KeysDefinedSnoc([f[0], f[1]], f[2]);
    }
    assert Keys(Defined(f)) == p0 + p1 + p2 + p3 by {
      assert f == [f[0], f[1], f[2]] + [f[3]];
      KeysDefinedSnoc([f[0], f[1], f[2]], f[3]);
    }
  }

  /**
   * Dropping the undefined fields and setting what is left, with the pushed entry, is the
   * field-by-field patch; the validators see exactly the given status and severity.
   */
  lemma UpdateMatchesPatch(a: Alert, b: AlertBody, actor: string, now: nat)
    ensures SetPaths(a, Defined(UpdateFields(b))).(history := a.history + [UpdateEntry(Defined(UpdateFields(b)), actor, now)])
      == Patched(a, b, actor, now)
    ensures UpdateIssues(Defined(UpdateFields(b))) == PatchIssues(b)
  {
    var f := UpdateFields(b);
    var kept := Defined(f);
    assert DistinctKeys(f);
    LookupDefined(f, 0);
    LookupDefined(f, 1);
    LookupDefined(f, 2);
    LookupDefined(f, 3);
    assert TextAt(kept, Status) == b.status;
    assert TextAt(kept, Severity) == b.severity;
    KeysAreGivenPaths(b);
  }

  function UpdateAlertStep(docs: seq<Alert>, id: string, b: AlertBody, actor: string, now: nat): (s: Step<Alert, AlertReply>)
    ensures GivenPaths(b) == [] ==> s == Step(docs, Failure(400, NoFieldsMessage))
    ensures s.reply.Failure? ==> s.docs == docs
    ensures GivenPaths(b) != [] && FirstIndex(docs, HasId(id)).None? ==> s == Step(docs, Failure(404, NotFoundMessage(id)))
    ensures GivenPaths(b) != [] && FirstIndex(docs, HasId(id)).Some? ==>
      var k := FirstIndex(docs, HasId(id)).value;
      && (PatchIssues(b) != [] ==> s.reply == Failure(400, ReportText(PatchIssues(b))))
      && (s.reply.Success? <==> PatchIssues(b) == [] && !Clashes(docs, Patched(docs[k], b, actor, now), k, SameKey))
      && (s.reply.Success? ==>
            && s.docs == docs[k := Patched(docs[k], b, actor, now)]
            && s.reply == Success(200, AlertReply(Patched(docs[k], b, actor, now), UpdatedMessage)))
  {
    var kept := Defined(UpdateFields(b));
    KeysAreGivenPaths(b);
    if kept == [] then Step(docs, Failure(400, NoFieldsMessage))
    else
      match FirstIndex(docs, HasId(id))
      case None => Step(docs, Failure(404, NotFoundMessage(id)))
      case Some(k) =>
        var alert := docs[k];
        UpdateMatchesPatch(alert, b, actor, now);
        var issues := UpdateIssues(kept);
        if issues != [] then Step(docs, Failure(400, ReportText(issues)))
        else
          var updated := SetPaths(alert, kept).(history := alert.history + [UpdateEntry(kept, actor, now)]);
          if Clashes(docs, updated, k, SameKey) then Step(docs, Failure(500, ServerError))
          else Step(docs[k := updated], Success(200, AlertReply(updated, UpdatedMessage)))
  }

  /**
   * History grows by exactly one entry per update: earlier entries are untouched, and the new
   * one carries the acting user and names the updated keys joined by ", ".
   */
  lemma UpdateAppendsOneEntry(docs: seq<Alert>, id: string, b: AlertBody, actor: string, now: nat)
    requires UpdateAlertStep(docs, id, b, actor, now).reply.Success?
    ensures var k := FirstIndex(docs, HasId(id)).value;
      var h := UpdateAlertStep(docs, id, b, actor, now).docs[k].history;
      && |h| == |docs[k].history| + 1
      && h[..|docs[k].history|] == docs[k].history
      && h[|docs[k].history|] == HistoryEntry(Some(actor), UpdatePrefix + Join(PathNames(GivenPaths(b)), ", "), now)
  {
  }

  /**
   * The write bypasses the save hook: even when the status changes, the one new entry is the
   * "Alert updated: ..." entry, never a "Status changed to ..." one.
   */
  lemma UpdateSkipsStatusHook(docs: seq<Alert>, id: string, b: AlertBody, actor: string, now: nat)
    requires UpdateAlertStep(docs, id, b, actor, now).reply.Success?
    ensures var k := FirstIndex(docs, HasId(id)).value;
      var h := UpdateAlertStep(docs, id, b, actor, now).docs[k].history;
      && |h| == |docs[k].history| + 1
      && !StartsWith(h[|docs[k].history|].action, StatusChangePrefix)
  {
    var k := FirstIndex(docs, HasId(id)).value;
    var h := UpdateAlertStep(docs, id, b, actor, now).docs[k].history;
    var action := h[|docs[k].history|].action;
    assert action == UpdatePrefix + Join(PathNames(GivenPaths(b)), ", ");
    assert action[0] == 'A' && StatusChangePrefix[0] == 'S';
  }

  /** Given notes replace the stored notes wholesale; an absent field keeps its value. */
  lemma UpdateWritesGivenFields(docs: seq<Alert>, id: string, b: AlertBody, actor: string, now: nat)
    requires UpdateAlertStep(docs, id, b, actor, now).reply.Success?
    ensures var k := FirstIndex(docs, HasId(id)).value;
      var after := UpdateAlertStep(docs, id, b, actor, now).docs[k];
      && after.notes == b.notes.GetOr(docs[k].notes)
      && after.status == b.status.GetOr(docs[k].status)
      && after.severity == b.severity.GetOr(docs[k].severity)
      && after.assignedTo == b.assignedTo.GetOr(docs[k].assignedTo)
      && after.id == docs[k].id && after.title == docs[k].title
  {
  }

  /** Ids are unique and an update keeps the id, so `updateAlert` never fails on the index. */
  lemma UpdateNeverFailsOnIndex(docs: seq<Alert>, id: string, b: AlertBody, actor: string, now: nat)
    requires Distinct(docs, SameKey)
    ensures UpdateAlertStep(docs, id, b, actor, now).reply.status != 500
  {
    var s := UpdateAlertStep(docs, id, b, actor, now);
    var found := FirstIndex(docs, HasId(id));
    if GivenPaths(b) != [] && found.Some? && PatchIssues(b) == [] {
      var k := found.value;
      var u := Patched(docs[k], b, actor, now);
      forall j | 0 <= j < |docs| && j != k ensures !SameKey(docs[j], u) {
        assert !SameKey(docs[j], docs[k]);
      }
      assert s.reply.Success?;
    }
  }

  method UpdateAlert(store: Collection<Alert>, id: string, b: AlertBody, actor: string, now: nat) returns (reply: Response<AlertReply>)
    modifies store
    ensures Step(store.docs, reply) == UpdateAlertStep(old(store.docs), id, b, actor, now)
  {
    var kept := DropUndefined(UpdateFields(b));
    if kept == [] {
      return Failure(400, NoFieldsMessage);
    }
    var k := store.Find(HasId(id));
    if k < 0 {
      return Failure(404, NotFoundMessage(id));
    }
    var alert := store.docs[k];
    var issues := UpdateIssues(kept);
    if issues != [] {
      return Failure(400, ReportText(issues));
    }
    var updated := SetPaths(alert, kept).(history := alert.history + [UpdateEntry(kept, actor, now)]);
    var written := store.Replace(k, updated, SameKey);
    if !written {
      return Failure(500, ServerError);
    }
    reply := Success(200, AlertReply(updated, UpdatedMessage));
  }

  // ---------------------------------------------------------------- deleteAlert

  method DeleteAlert(store: Collection<Alert>, id: string) returns (reply: Response<string>)
    modifies store
    ensures Step(store.docs, reply) == DeleteStep(old(store.docs), HasId(id), NotFoundMessage(id), DeletedMessage)
  {
    reply := DeleteById(store, HasId(id), NotFoundMessage(id), DeletedMessage);
  }
}
