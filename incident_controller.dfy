/**
 * `backend/controllers/incidentController.js`: creating, updating, commenting on and deleting
 * incidents. Creation and commenting go through `save()` (validation, then the pre-save hook);
 * an update is one `findByIdAndUpdate` whose validators see only the set paths and which
 * bypasses the hook, so it neither logs to the history nor stamps `resolvedAt`.
 */
module IncidentController {
  import opened Wrappers
  import opened Text
  import opened Http
  import opened Validation
  import opened Collections
  import opened Patch
  import opened Documents
  import opened IncidentModel

  const CreatedMessage := "Incident created successfully"
  const UpdatedMessage := "Incident updated successfully"
  const DeletedMessage := "Incident deleted successfully"
  const CommentAddedMessage := "Comment added successfully"
  const NoFieldsMessage := "No fields to update provided."
  const CommentTextRequiredMessage := "Comment text is required."
  const ServerError := "Server Error"

  /** `Incident not found with id of <id>` */
  function NotFoundMessage(id: string): string {
    "Incident not found with id of " + id
  }

  /** The body of an answer that carries an incident. */
  datatype IncidentReply = IncidentReply(data: Incident, message: string)

  /** The body of the answer to a new comment. */
  datatype CommentReply = CommentReply(data: Comment, message: string)

  // ---------------------------------------------------------------- createIncident

  /** The fields `createIncident` reads from the body; `None` is undefined (or, for `assignee`, null). */
  datatype IncidentInput = IncidentInput(
    title: Option<string>,
    description: Option<string>,
    severity: Option<string>,
    priority: Option<string>,
    status: Option<string>,
    assignee: Option<string>,
    relatedAlerts: Option<seq<string>>,
    tags: Option<seq<string>>)

  /** The document `Incident.create` builds, with the `||` defaults and the schema's setters. */
  function NewIncident(id: string, input: IncidentInput, actor: string): Incident {
    Incident(id, Trim(input.title.GetOr("")), Trim(input.description.GetOr("")),
             TextOr(input.status, DefaultStatus), TextOr(input.priority, DefaultPriority), TextOr(input.severity, DefaultSeverity),
             input.assignee, input.relatedAlerts.GetOr([]), [], NormalizeEach(input.tags.GetOr([])),
             NoResolution, [], actor, actor)
  }

  function CreateIncidentStep(docs: seq<Incident>, input: IncidentInput, id: string, actor: string, now: nat): (s: Step<Incident, IncidentReply>)
    ensures s.reply.Failure? ==> s.docs == docs
    ensures !ValidIncident(NewIncident(id, input, actor)) ==>
      s.reply == Failure(400, ReportText(IncidentIssues(NewIncident(id, input, actor))))
    ensures s.reply.Success? <==>
      ValidIncident(NewIncident(id, input, actor)) && !Clashes(docs, NewIncident(id, input, actor), -1, SameKey)
    ensures s.reply.Success? ==>
      && s.docs == docs + [NewIncident(id, input, actor)]
      && s.reply == Success(201, IncidentReply(NewIncident(id, input, actor), CreatedMessage))
  {
    var doc := NewIncident(id, input, actor);
    match SaveIncident(None, doc, now)
    case Rejected(issues) => Step(docs, Failure(400, ReportText(issues)))
    case Saved(d) =>
      SaveNeverStampsResolvedAt(None, doc, now);
      if Clashes(docs, d, -1, SameKey) then Step(docs, Failure(500, ServerError))
      else Step(docs + [d], Success(201, IncidentReply(d, CreatedMessage)))
  }

  /**
   * A created incident carries the acting user as creator and last updater, no comments and no
   * history, and a status, priority and severity that default when the body leaves them empty.
   */
  lemma CreatedIncidentDefaults(docs: seq<Incident>, input: IncidentInput, id: string, actor: string, now: nat)
    requires CreateIncidentStep(docs, input, id, actor, now).reply.Success?
    ensures var d := CreateIncidentStep(docs, input, id, actor, now).docs[|docs|];
      && d.createdBy == actor && d.updatedBy == actor && actor != ""
      && d.comments == [] && d.history == [] && d.resolution.resolvedAt.None?
      && (input.status.None? || input.status.value == "" ==> d.status == DefaultStatus)
      && (input.priority.None? || input.priority.value == "" ==> d.priority == DefaultPriority)
      && (input.severity.None? || input.severity.value == "" ==> d.severity == DefaultSeverity)
      && d.title != "" && Trim(d.title) == d.title
  {
    var d := NewIncident(id, input, actor);
    TrimNoSpace(d.title);
  }

  lemma CreateKeepsInvariant(docs: seq<Incident>, input: IncidentInput, id: string, actor: string, now: nat)
    requires StoreInvariant(docs)
    ensures StoreInvariant(CreateIncidentStep(docs, input, id, actor, now).docs)
  {
    var s := CreateIncidentStep(docs, input, id, actor, now);
    if s.reply.Success? {
      InsertKeepsInvariant(docs, NewIncident(id, input, actor));
    }
  }

  method CreateIncident(store: Collection<Incident>, input: IncidentInput, id: string, actor: string, now: nat) returns (reply: Response<IncidentReply>)
    modifies store
    ensures Step(store.docs, reply) == CreateIncidentStep(old(store.docs), input, id, actor, now)
  {
    var saved := SaveIncident(None, NewIncident(id, input, actor), now);
    if saved.Rejected? {
      return Failure(400, ReportText(saved.issues));
    }
    var inserted := store.Insert(saved.doc, SameKey);
    if !inserted {
      return Failure(500, ServerError);
    }
    reply := Success(201, IncidentReply(saved.doc, CreatedMessage));
  }

  // ---------------------------------------------------------------- updateIncident

  /** The fields `updateIncident` reads from the body; `None` is undefined, `Some(None)` a null assignee. */
  datatype IncidentBody = IncidentBody(
    title: Option<string>,
    description: Option<string>,
    severity: Option<string>,
    priority: Option<string>,
    status: Option<string>,
    assignee: Option<Option<string>>,
    relatedAlerts: Option<seq<string>>,
    resolution: Option<Resolution>,
    tags: Option<seq<string>>)

  /** The keys of `updateFields`. */
  datatype IncidentPath = Title | Description | Severity | Priority | Status | Assignee | RelatedAlerts | ResolutionDetails | Tags | UpdatedBy

  /** A value of `updateFields`. */
  datatype IncidentValue =
    | TextValue(text: string)
    | RefValue(ref: Option<string>)
    | ListValue(items: seq<string>)
    | ResolutionValue(resolution: Resolution)

  function TextField(path: IncidentPath, v: Option<string>): Field<IncidentPath, IncidentValue> {
    (path, if v.Some? then Some(TextValue(v.value)) else None)
  }

  function ListField(path: IncidentPath, v: Option<seq<string>>): Field<IncidentPath, IncidentValue> {
    (path, if v.Some? then Some(ListValue(v.value)) else None)
  }

  /** `{ title, description, severity, priority, status, assignee, relatedAlerts, resolutionDetails, tags, updatedBy: req.user.id }` */
  function UpdateFields(b: IncidentBody, actor: string): seq<Field<IncidentPath, IncidentValue>> {
    [TextField(Title, b.title), TextField(Description, b.description), TextField(Severity, b.severity),
     TextField(Priority, b.priority), TextField(Status, b.status),
     (Assignee, if b.assignee.Some? then Some(RefValue(b.assignee.value)) else None),
     ListField(RelatedAlerts, b.relatedAlerts),
     (ResolutionDetails, if b.resolution.Some? then Some(ResolutionValue(b.resolution.value)) else None),
     ListField(Tags, b.tags),
     (UpdatedBy, Some(TextValue(actor)))]
  }

  /** `Object.keys(updateFields).length <= 1 && updateFields.updatedBy` */
  predicate NothingToUpdate(kept: seq<Entry<IncidentPath, IncidentValue>>) {
    var author := Lookup(kept, UpdatedBy);
    |kept| <= 1 && author.Some? && author.value.TextValue? && author.value.text != ""
  }

  function TextAt(kept: seq<Entry<IncidentPath, IncidentValue>>, path: IncidentPath): Option<string> {
    var v := Lookup(kept, path);
    if v.Some? && v.value.TextValue? then Some(v.value.text) else None
  }

  function ListAt(kept: seq<Entry<IncidentPath, IncidentValue>>, path: IncidentPath): Option<seq<string>> {
    var v := Lookup(kept, path);
    if v.Some? && v.value.ListValue? then Some(v.value.items) else None
  }

  /** A given `resolutionDetails` replaces the sub-object, its summary through the trim setter. */
  function SetResolution(r: Resolution): Resolution {
    r.(summary := TrimmedText(r.summary))
  }

  /** The `$set` of the paths the update names, through their setters; other paths keep their values. */
  function SetPaths(d: Incident, kept: seq<Entry<IncidentPath, IncidentValue>>): Incident {
    var title := TextAt(kept, Title);
    var description := TextAt(kept, Description);
    var tags := ListAt(kept, Tags);
    var assignee := Lookup(kept, Assignee);
    var resolution := Lookup(kept, ResolutionDetails);
    d.(title := if title.Some? then Trim(title.value) else d.title,
       description := if description.Some? then Trim(description.value) else d.description,
       severity := TextAt(kept, Severity).GetOr(d.severity),
       priority := TextAt(kept, Priority).GetOr(d.priority),
       status := TextAt(kept, Status).GetOr(d.status),
       assignee := if assignee.Some? && assignee.value.RefValue? then assignee.value.ref else d.assignee,
       relatedAlerts := ListAt(kept, RelatedAlerts).GetOr(d.relatedAlerts),
       resolution := if resolution.Some? && resolution.value.ResolutionValue? then SetResolution(resolution.value.resolution) else d.resolution,
       tags := if tags.Some? then NormalizeEach(tags.value) else d.tags,
       updatedBy := TextAt(kept, UpdatedBy).GetOr(d.updatedBy))
  }

  /** The update validators of the set paths, in the order of the update's keys. */
  function UpdateIssues(kept: seq<Entry<IncidentPath, IncidentValue>>): seq<Issue> {
    var title := TextAt(kept, Title);
    var description := TextAt(kept, Description);
    var severity := TextAt(kept, Severity);
    var priority := TextAt(kept, Priority);
    var status := TextAt(kept, Status);
    var author := TextAt(kept, UpdatedBy);
    (if title.Some? then TitleIssues(Trim(title.value)) else [])
    + (if description.Some? then DescriptionIssues(Trim(description.value)) else [])
    + (if severity.Some? then SeverityIssues(severity.value) else [])
    + (if priority.Some? then PriorityIssues(priority.value) else [])
    + (if status.Some? then StatusIssues(status.value) else [])
    + (if author.Some? then UpdatedByIssues(author.value) else [])
  }

  /** A body that gives none of the nine fields. */
  predicate BodyEmpty(b: IncidentBody) {
    && b.title.None? && b.description.None? && b.severity.None? && b.priority.None? && b.status.None?
    && b.assignee.None? && b.relatedAlerts.None? && b.resolution.None? && b.tags.None?
  }

  /** The incident the update should produce, field by field from the body. */
  function Patched(d: Incident, b: IncidentBody, actor: string): (r: Incident)
    ensures r.id == d.id && r.comments == d.comments && r.history == d.history && r.createdBy == d.createdBy
    ensures r.updatedBy == actor
    ensures b.resolution.None? ==> r.resolution == d.resolution
    ensures BodyEmpty(b) ==> r == d.(updatedBy := actor)
  {
    d.(title := if b.title.Some? then Trim(b.title.value) else d.title,
       description := if b.description.Some? then Trim(b.description.value) else d.description,
       severity := b.severity.GetOr(d.severity),
       priority := b.priority.GetOr(d.priority),
       status := b.status.GetOr(d.status),
       assignee := b.assignee.GetOr(d.assignee),
       relatedAlerts := b.relatedAlerts.GetOr(d.relatedAlerts),
       resolution := if b.resolution.Some? then SetResolution(b.resolution.value) else d.resolution,
       tags := if b.tags.Some? then NormalizeEach(b.tags.value) else d.tags,
       updatedBy := actor)
  }

  /** The issues the update should report, field by field from the body. */
  function PatchIssues(b: IncidentBody, actor: string): (r: seq<Issue>)
    ensures r == [] <==>
      && (b.title.Some? ==> Trim(b.title.value) != "")
      && (b.description.Some? ==> Trim(b.description.value) != "")
      && (b.severity.Some? ==> b.severity.value in Severities)
      && (b.priority.Some? ==> b.priority.value in Priorities)
      && (b.status.Some? ==> b.status.value in Statuses)
      && actor != ""
  {
    var title := if b.title.Some? then TitleIssues(Trim(b.title.value)) else [];
    var description := if b.description.Some? then DescriptionIssues(Trim(b.description.value)) else [];
    var severity := if b.severity.Some? then SeverityIssues(b.severity.value) else [];
    var priority := if b.priority.Some? then PriorityIssues(b.priority.value) else [];
    var status := if b.status.Some? then StatusIssues(b.status.value) else [];
    assert title == [] <==> (b.title.Some? ==> Trim(b.title.value) != "");
    assert description == [] <==> (b.description.Some? ==> Trim(b.description.value) != "");
    assert severity == [] <==> (b.severity.Some? ==> b.severity.value in Severities);
    assert priority == [] <==> (b.priority.Some? ==> b.priority.value in Priorities);
    assert status == [] <==> (b.status.Some? ==> b.status.value in Statuses);
    title + description + severity + priority + status + UpdatedByIssues(actor)
  }

  /**
   * The update is refused as empty exactly when the body gives none of the nine fields, for a
   * signed-in actor (whose id is never empty).
   */
  lemma NothingToUpdateIff(b: IncidentBody, actor: string)
    ensures NothingToUpdate(Defined(UpdateFields(b, actor))) <==> BodyEmpty(b) && actor != ""
  {
    var f := UpdateFields(b, actor);
    var g := f[..9];
    assert DistinctKeys(f);
    LookupDefined(f, 9);
    assert f == g + [f[9]];
    DefinedSnoc(g, f[9]);
    assert Defined(f) == Defined(g) + [(UpdatedBy, TextValue(actor))];
    assert forall i :: 0 <= i < 9 ==> g[i] == f[i];
    if BodyEmpty(b) {
      assert forall i :: 0 <= i < 9 ==> g[i].1.None?;
      assert Defined(g) == [];
    } else {
      assert !(forall i :: 0 <= i < 9 ==> g[i].1.None?) by {
        if b.title.Some? {
          assert g[0].1.Some?;
        } else if b.description.Some? {
          assert g[1].1.Some?;
        } else if b.severity.Some? {
          assert g[2].1.Some?;
        } else if b.priority.Some? {
          assert g[3].1.Some?;
        } else if b.status.Some? {
          assert g[4].1.Some?;
        } else if b.assignee.Some? {
          assert g[5].1.Some?;
        } else if b.relatedAlerts.Some? {
          assert g[6].1.Some?;
        } else if b.resolution.Some? {
          assert g[7].1.Some?;
        } else {
          assert g[8].1.Some?;
        }
      }
      assert Defined(g) != [];
    }
  }

  /** After the undefined fields are dropped, each path reads back what the body gave it. */
  lemma KeptValues(b: IncidentBody, actor: string)
    ensures var kept := Defined(UpdateFields(b, actor));
      && TextAt(kept, Title) == b.title && TextAt(kept, Description) == b.description
      && TextAt(kept, Severity) == b.severity && TextAt(kept, Priority) == b.priority
      && TextAt(kept, Status) == b.status && TextAt(kept, UpdatedBy) == Some(actor)
      && ListAt(kept, RelatedAlerts) == b.relatedAlerts && ListAt(kept, Tags) == b.tags
      && Lookup(kept, Assignee) == (if b.assignee.Some? then Some(RefValue(b.assignee.value)) else None)
      && Lookup(kept, ResolutionDetails) == (if b.resolution.Some? then Some(ResolutionValue(b.resolution.value)) else None)
  {
    var f := UpdateFields(b, actor);
    assert DistinctKeys(f);
    LookupDefined(f, 0);
    LookupDefined(f, 1);
    LookupDefined(f, 2);
    LookupDefined(f, 3);
    LookupDefined(f, 4);
    LookupDefined(f, 5);
    LookupDefined(f, 6);
    LookupDefined(f, 7);
    LookupDefined(f, 8);
    LookupDefined(f, 9);
  }

  /**
   * Dropping the undefined fields and setting what is left is the field-by-field patch, and the
   * validators see exactly the given texts and the acting user.
   */
  lemma UpdateMatchesPatch(d: Incident, b: IncidentBody, actor: string)
    ensures SetPaths(d, Defined(UpdateFields(b, actor))) == Patched(d, b, actor)
    ensures UpdateIssues(Defined(UpdateFields(b, actor))) == PatchIssues(b, actor)
  {
    KeptValues(b, actor);
  }

  function UpdateIncidentStep(docs: seq<Incident>, id: string, b: IncidentBody, actor: string): (s: Step<Incident, IncidentReply>)
    ensures BodyEmpty(b) && actor != "" ==> s == Step(docs, Failure(400, NoFieldsMessage))
    ensures s.reply.Failure? ==> s.docs == docs
    ensures !(BodyEmpty(b) && actor != "") && FirstIndex(docs, HasId(id)).None? ==>
      s == Step(docs, Failure(404, NotFoundMessage(id)))
    ensures !(BodyEmpty(b) && actor != "") && FirstIndex(docs, HasId(id)).Some? ==>
      var k := FirstIndex(docs, HasId(id)).value;
      && (PatchIssues(b, actor) != [] ==> s.reply == Failure(400, ReportText(PatchIssues(b, actor))))
      && (s.reply.Success? <==> PatchIssues(b, actor) == [] && !Clashes(docs, Patched(docs[k], b, actor), k, SameKey))
      && (s.reply.Success? ==>
            && s.docs == docs[k := Patched(docs[k], b, actor)]
            && s.reply == Success(200, IncidentReply(Patched(docs[k], b, actor), UpdatedMessage)))
  {
    var kept := Defined(UpdateFields(b, actor));
    NothingToUpdateIff(b, actor);
    if NothingToUpdate(kept) then Step(docs, Failure(400, NoFieldsMessage))
    else
      match FirstIndex(docs, HasId(id))
      case None => Step(docs, Failure(404, NotFoundMessage(id)))
      case Some(k) =>
        var incident := docs[k];
        UpdateMatchesPatch(incident, b, actor);
        var issues := UpdateIssues(kept);
        if issues != [] then Step(docs, Failure(400, ReportText(issues)))
        else
          var updated := SetPaths(incident, kept);
          if Clashes(docs, updated, k, SameKey) then Step(docs, Failure(500, ServerError))
          else Step(docs[k := updated], Success(200, IncidentReply(updated, UpdatedMessage)))
  }

  /**
   * The update bypasses the save hook: no history entry is written, comments and creator are
   * untouched, and `resolvedAt` changes only through a given `resolutionDetails`.
   */
  lemma UpdateSkipsSaveHook(docs: seq<Incident>, id: string, b: IncidentBody, actor: string)
    requires UpdateIncidentStep(docs, id, b, actor).reply.Success?
    ensures var k := FirstIndex(docs, HasId(id)).value;
      var after := UpdateIncidentStep(docs, id, b, actor).docs[k];
      && after.history == docs[k].history && after.comments == docs[k].comments
      && after.createdBy == docs[k].createdBy && after.updatedBy == actor
      && (b.resolution.None? ==> after.resolution == docs[k].resolution)
  {
  }

  /** Setting the status to 'Resolved', the one value the hook waits for, is refused by the enum. */
  lemma ResolvingIsRefused(docs: seq<Incident>, id: string, b: IncidentBody, actor: string)
    requires b.status == Some(ResolvedStatus) && FirstIndex(docs, HasId(id)).Some?
    ensures UpdateIncidentStep(docs, id, b, actor) == Step(docs, Failure(400, ReportText(PatchIssues(b, actor))))
  {
    ResolvedNotAStatus();
    assert !BodyEmpty(b);
  }

  /** An update that succeeds on a valid incident leaves it valid: the validators cover every path it can break. */
  lemma UpdateKeepsValid(d: Incident, b: IncidentBody, actor: string)
    requires ValidIncident(d) && PatchIssues(b, actor) == []
    ensures ValidIncident(Patched(d, b, actor))
  {
  }

  lemma UpdateKeepsInvariant(docs: seq<Incident>, id: string, b: IncidentBody, actor: string)
    requires StoreInvariant(docs)
    ensures StoreInvariant(UpdateIncidentStep(docs, id, b, actor).docs)
  {
    var s := UpdateIncidentStep(docs, id, b, actor);
    if !(BodyEmpty(b) && actor != "") && FirstIndex(docs, HasId(id)).Some? && s.reply.Success? {
      var k := FirstIndex(docs, HasId(id)).value;
      UpdateKeepsValid(docs[k], b, actor);
      ReplaceKeepsInvariant(docs, k, Patched(docs[k], b, actor));
    }
  }

  /** Ids are unique and an update keeps the id, so `updateIncident` never fails on the index. */
  lemma UpdateNeverFailsOnIndex(docs: seq<Incident>, id: string, b: IncidentBody, actor: string)
    requires Distinct(docs, SameKey)
    ensures UpdateIncidentStep(docs, id, b, actor).reply.status != 500
  {
    var found := FirstIndex(docs, HasId(id));
    if !(BodyEmpty(b) && actor != "") && found.Some? && PatchIssues(b, actor) == [] {
      var k := found.value;
      var u := Patched(docs[k], b, actor);
      forall j | 0 <= j < |docs| && j != k ensures !SameKey(docs[j], u) {
        assert !SameKey(docs[j], docs[k]);
      }
    }
  }

  method UpdateIncident(store: Collection<Incident>, id: string, b: IncidentBody, actor: string) returns (reply: Response<IncidentReply>)
    modifies store
    ensures Step(store.docs, reply) == UpdateIncidentStep(old(store.docs), id, b, actor)
  {
    var kept := DropUndefined(UpdateFields(b, actor));
    if NothingToUpdate(kept) {
      return Failure(400, NoFieldsMessage);
    }
    var k := store.Find(HasId(id));
    if k < 0 {
      return Failure(404, NotFoundMessage(id));
    }
    var incident := store.docs[k];
    var issues := UpdateIssues(kept);
    if issues != [] {
      return Failure(400, ReportText(issues));
    }
    var updated := SetPaths(incident, kept);
    var written := store.Replace(k, updated, SameKey);
    if !written {
      return Failure(500, ServerError);
    }
    reply := Success(200, IncidentReply(updated, UpdatedMessage));
  }

  // ---------------------------------------------------------------- addIncidentComment

  /** The comment goes to the front, through the text's trim setter, and the actor becomes the last updater. */
  function Commented(d: Incident, text: string, actor: string, now: nat): (r: Incident)
    ensures r.comments == [Comment(actor, Trim(text), now)] + d.comments
    ensures r == d.(comments := r.comments, updatedBy := actor)
  {
    d.(comments := [Comment(actor, Trim(text), now)] + d.comments, updatedBy := actor)
  }

  /** `!text`: an undefined or empty text. */
  predicate MissingText(text: Option<string>) {
    text.None? || text.value == ""
  }

  function AddCommentStep(docs: seq<Incident>, id: string, text: Option<string>, actor: string, now: nat): (s: Step<Incident, CommentReply>)
    ensures MissingText(text) ==> s == Step(docs, Failure(400, CommentTextRequiredMessage))
    ensures s.reply.Failure? ==> s.docs == docs
    ensures !MissingText(text) && FirstIndex(docs, HasId(id)).None? ==> s == Step(docs, Failure(404, NotFoundMessage(id)))
    ensures !MissingText(text) && FirstIndex(docs, HasId(id)).Some? ==>
      var k := FirstIndex(docs, HasId(id)).value;
      var doc := Commented(docs[k], text.value, actor, now);
      var saved := IncidentPreSave(Some(docs[k]), doc, now);
      && (!ValidIncident(doc) ==> s.reply == Failure(500, ServerError))
      && (s.reply.Success? <==> ValidIncident(doc) && !Clashes(docs, saved, k, SameKey))
      && (s.reply.Success? ==>
            && s.docs == docs[k := saved]
            && s.reply == Success(201, CommentReply(saved.comments[0], CommentAddedMessage)))
  {
    if MissingText(text) then Step(docs, Failure(400, CommentTextRequiredMessage))
    else
      match FirstIndex(docs, HasId(id))
      case None => Step(docs, Failure(404, NotFoundMessage(id)))
      case Some(k) =>
        match SaveIncident(Some(docs[k]), Commented(docs[k], text.value, actor, now), now)
        case Rejected(_) => Step(docs, Failure(500, ServerError))
        case Saved(saved) =>
          if Clashes(docs, saved, k, SameKey) then Step(docs, Failure(500, ServerError))
          else Step(docs[k := saved], Success(201, CommentReply(saved.comments[0], CommentAddedMessage)))
  }

  /**
   * A comment that is saved goes first among the comments, with the acting user and the trimmed
   * text; it is what the answer carries; the hook logs exactly one "Incident updated" entry with
   * no user; and the resolution is untouched.
   */
  lemma CommentLogsOneEntry(docs: seq<Incident>, id: string, text: Option<string>, actor: string, now: nat)
    requires AddCommentStep(docs, id, text, actor, now).reply.Success?
    ensures var k := FirstIndex(docs, HasId(id)).value;
      var s := AddCommentStep(docs, id, text, actor, now);
      var c := Comment(actor, Trim(text.value), now);
      && s.docs[k].comments == [c] + docs[k].comments
      && s.reply.body == CommentReply(c, CommentAddedMessage)
      && s.docs[k].history == docs[k].history + [HistoryEntry(None, UpdatedAction, now)]
      && s.docs[k].updatedBy == actor
      && s.docs[k].resolution == docs[k].resolution
  {
    var k := FirstIndex(docs, HasId(id)).value;
    var doc := Commented(docs[k], text.value, actor, now);
    assert docs[k] != doc by {
      assert |doc.comments| == |docs[k].comments| + 1;
    }
    SaveNeverStampsResolvedAt(Some(docs[k]), doc, now);
  }

  /**
   * A text made only of spaces passes the handler's own check, is trimmed to nothing by the
   * schema, fails the comment's `required` validator on save, and that validation error falls
   * through to the generic 500 answer.
   */
  lemma BlankCommentIsServerError(docs: seq<Incident>, id: string, text: string, actor: string, now: nat)
    requires text != "" && Trim(text) == "" && FirstIndex(docs, HasId(id)).Some?
    ensures AddCommentStep(docs, id, Some(text), actor, now) == Step(docs, Failure(500, ServerError))
  {
    var k := FirstIndex(docs, HasId(id)).value;
    var doc := Commented(docs[k], text, actor, now);
    assert !ValidComment(doc.comments[0]);
  }

  lemma CommentKeepsInvariant(docs: seq<Incident>, id: string, text: Option<string>, actor: string, now: nat)
    requires StoreInvariant(docs)
    ensures StoreInvariant(AddCommentStep(docs, id, text, actor, now).docs)
  {
    var s := AddCommentStep(docs, id, text, actor, now);
    if !MissingText(text) && FirstIndex(docs, HasId(id)).Some? && s.reply.Success? {
      var k := FirstIndex(docs, HasId(id)).value;
      var doc := Commented(docs[k], text.value, actor, now);
      var saved := IncidentPreSave(Some(docs[k]), doc, now);
      assert ValidIncident(saved) by {
        assert ValidIncident(doc);
      }
      ReplaceKeepsInvariant(docs, k, saved);
    }
  }

  method AddIncidentComment(store: Collection<Incident>, id: string, text: Option<string>, actor: string, now: nat) returns (reply: Response<CommentReply>)
    modifies store
    ensures Step(store.docs, reply) == AddCommentStep(old(store.docs), id, text, actor, now)
  {
    if MissingText(text) {
      return Failure(400, CommentTextRequiredMessage);
    }
    var k := store.Find(HasId(id));
    if k < 0 {
      return Failure(404, NotFoundMessage(id));
    }
    var saved := SaveIncident(Some(store.docs[k]), Commented(store.docs[k], text.value, actor, now), now);
    if saved.Rejected? {
      return Failure(500, ServerError);
    }
    var written := store.Replace(k, saved.doc, SameKey);
    if !written {
      return Failure(500, ServerError);
    }
    reply := Success(201, CommentReply(saved.doc.comments[0], CommentAddedMessage));
  }

  // ---------------------------------------------------------------- deleteIncident

  method DeleteIncident(store: Collection<Incident>, id: string) returns (reply: Response<string>)
    modifies store
    ensures Step(store.docs, reply) == DeleteStep(old(store.docs), HasId(id), NotFoundMessage(id), DeletedMessage)
  {
    reply := DeleteById(store, HasId(id), NotFoundMessage(id), DeletedMessage);
  }
}
