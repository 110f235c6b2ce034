/**
 * The incident schema (`backend/models/Incident.js`): status, priority and severity enums with
 * their defaults, comments, validation, and the pre-save hook that records an update in the
 * history and stamps `resolvedAt` for a status that the enum does not admit.
 */
module IncidentModel {
  import opened Wrappers
  import opened Text
  import opened Validation
  import opened Documents

  const Statuses: seq<string> := ["Open", "Investigating", "Contained", "Eradicated", "Recovered", "LessonsLearned", "Closed", "OnHold"]
  const Priorities: seq<string> := ["Low", "Medium", "High", "Critical"]
  const Severities: seq<string> := ["Low", "Medium", "High", "Critical", "Informational"]
  const DefaultStatus := "Open"
  const DefaultPriority := "Medium"
  const DefaultSeverity := "Medium"
  /** The status the `resolvedAt` rule tests for. */
  const ResolvedStatus := "Resolved"
  const UpdatedAction := "Incident updated"
  const TitleRequiredMessage := "Incident title is required"
  const DescriptionRequiredMessage := "Incident description is required"

  /** A comment; `text` is stored trimmed. */
  datatype Comment = Comment(user: string, text: string, createdAt: nat)

  /** The `resolutionDetails` sub-object. */
  datatype Resolution = Resolution(summary: Option<string>, resolvedAt: Option<nat>, resolvedBy: Option<string>, actionsTaken: seq<string>)

  const NoResolution := Resolution(None, None, None, [])

  /**
   * A stored incident. `assignee` is `None` for null. The impact assessment, the source and
   * the detection, containment, eradication and recovery times, which no handler of the model
   * writes, are left out.
   */
  datatype Incident = Incident(
    id: string,
    title: string,
    description: string,
    status: string,
    priority: string,
    severity: string,
    assignee: Option<string>,
    relatedAlerts: seq<string>,
    comments: seq<Comment>,
    tags: seq<string>,
    resolution: Resolution,
    history: seq<HistoryEntry>,
    createdBy: string,
    updatedBy: string)

  // ---------------------------------------------------------------- validation

  /** A required path with an enum: the `required` validator, then the `enum` one. */
  function RequiredEnumIssues(path: string, v: string, values: seq<string>): (r: seq<Issue>)
    ensures r == [] <==> v in values && v != ""
  {
    if v == "" then [Issue(path, RequiredMessage(path))] else Check(v in values, path, EnumMessage(path, v))
  }

  function TitleIssues(v: string): (r: seq<Issue>)
    ensures r == [] <==> v != ""
  {
    Check(v != "", "title", TitleRequiredMessage)
  }

  function DescriptionIssues(v: string): (r: seq<Issue>)
    ensures r == [] <==> v != ""
  {
    Check(v != "", "description", DescriptionRequiredMessage)
  }

  function StatusIssues(v: string): (r: seq<Issue>)
    ensures r == [] <==> v in Statuses
  {
    assert "" !in Statuses;
    RequiredEnumIssues("status", v, Statuses)
  }

  function PriorityIssues(v: string): (r: seq<Issue>)
    ensures r == [] <==> v in Priorities
  {
    assert "" !in Priorities;
    RequiredEnumIssues("priority", v, Priorities)
  }

  /** `severity` has an enum but is not required. */
  function SeverityIssues(v: string): (r: seq<Issue>)
    ensures r == [] <==> v in Severities
  {
    Check(v in Severities, "severity", EnumMessage("severity", v))
  }

  function UpdatedByIssues(v: string): (r: seq<Issue>)
    ensures r == [] <==> v != ""
  {
    Check(v != "", "updatedBy", RequiredMessage("updatedBy"))
  }

  predicate ValidComment(c: Comment) {
    c.user != "" && c.text != ""
  }

  function CommentsIssues(cs: seq<Comment>, from: nat): (r: seq<Issue>)
    ensures r == [] <==> forall k :: 0 <= k < |cs| ==> ValidComment(cs[k])
  {
    if cs == [] then []
    else
      var prefix := "comments." + NatText(from) + ".";
      Check(cs[0].user != "", prefix + "user", RequiredMessage("user"))
        + Check(cs[0].text != "", prefix + "text", RequiredMessage("text"))
        + CommentsIssues(cs[1..], from + 1)
  }

  /** What the schema accepts. */
  predicate ValidIncident(d: Incident) {
    && d.title != "" && d.description != ""
    && d.status in Statuses && d.priority in Priorities && d.severity in Severities
    && (forall k :: 0 <= k < |d.comments| ==> ValidComment(d.comments[k]))
    && d.createdBy != "" && d.updatedBy != ""
  }

  /** Full-document validation, in schema order. */
  function IncidentIssues(d: Incident): (issues: seq<Issue>)
    ensures issues == [] <==> ValidIncident(d)
  {
    TitleIssues(d.title) + DescriptionIssues(d.description)
      + StatusIssues(d.status) + PriorityIssues(d.priority) + SeverityIssues(d.severity)
      + CommentsIssues(d.comments, 0)
      + Check(d.createdBy != "", "createdBy", RequiredMessage("createdBy"))
      + UpdatedByIssues(d.updatedBy)
  }

  /** The status the enum admits never is the one the `resolvedAt` rule waits for. */
  lemma ResolvedNotAStatus()
    ensures ResolvedStatus !in Statuses
  {
  }

  // ---------------------------------------------------------------- saving

  /** `isModified('status')`: always for a new document. */
  predicate StatusModified(stored: Option<Incident>, doc: Incident) {
    stored.None? || stored.value.status != doc.status
  }

  /**
   * The pre-save hook. Saving an existing, modified incident appends one "Incident updated"
   * entry with no user (`updatedBy` is left as it is: validation already required it). Then,
   * when the status was modified to 'Resolved' and no `resolvedAt` is set, it is set to now;
   * a set `resolvedAt` is never overwritten.
   */
  function IncidentPreSave(stored: Option<Incident>, doc: Incident, now: nat): (r: Incident)
    ensures r == doc.(history := r.history, resolution := r.resolution)
    ensures stored.Some? && stored.value != doc ==> r.history == doc.history + [HistoryEntry(None, UpdatedAction, now)]
    ensures stored.None? || stored.value == doc ==> r.history == doc.history
    ensures doc.resolution.resolvedAt.Some? ==> r.resolution == doc.resolution
    ensures r.resolution != doc.resolution <==>
      StatusModified(stored, doc) && doc.status == ResolvedStatus && doc.resolution.resolvedAt.None?
    ensures r.resolution != doc.resolution ==> r.resolution == doc.resolution.(resolvedAt := Some(now))
  {
    var logged := if stored.Some? && stored.value != doc then doc.(history := doc.history + [HistoryEntry(None, UpdatedAction, now)]) else doc;
    if StatusModified(stored, doc) && doc.status == ResolvedStatus && doc.resolution.resolvedAt.None? then
      logged.(resolution := logged.resolution.(resolvedAt := Some(now)))
    else logged
  }

  /** `doc.save()`: validation, then the pre-save hook. */
  function SaveIncident(stored: Option<Incident>, doc: Incident, now: nat): (r: Saved<Incident>)
    ensures r.Rejected? <==> !ValidIncident(doc)
    ensures r.Rejected? ==> r.issues == IncidentIssues(doc)
    ensures r.Saved? ==> r.doc == IncidentPreSave(stored, doc, now)
  {
    if IncidentIssues(doc) != [] then Rejected(IncidentIssues(doc)) else Saved(IncidentPreSave(stored, doc, now))
  }

  /**
   * Validation runs before the hook and refuses the status 'Resolved', so the `resolvedAt`
   * branch never fires on a save that succeeds.
   */
  lemma SaveNeverStampsResolvedAt(stored: Option<Incident>, doc: Incident, now: nat)
    requires SaveIncident(stored, doc, now).Saved?
    ensures SaveIncident(stored, doc, now).doc.resolution == doc.resolution
  {
    ResolvedNotAStatus();
    assert doc.status in Statuses;
  }

  // ---------------------------------------------------------------- the collection

  /** The only unique index is `_id`. */
  predicate SameKey(a: Incident, b: Incident) {
    a.id == b.id
  }

  /** `findById(id)` */
  function HasId(id: string): Incident -> bool {
    (d: Incident) => d.id == id
  }

  /** Ids are unique and every stored incident passed validation. */
  ghost predicate StoreInvariant(docs: seq<Incident>) {
    Distinct(docs, SameKey) && forall j :: 0 <= j < |docs| ==> ValidIncident(docs[j])
  }

  lemma InsertKeepsInvariant(docs: seq<Incident>, d: Incident)
    requires StoreInvariant(docs) && ValidIncident(d) && !Clashes(docs, d, -1, SameKey)
    ensures StoreInvariant(docs + [d])
  {
    InsertKeepsDistinct(docs, d, SameKey);
    assert forall j :: 0 <= j < |docs| ==> (docs + [d])[j] == docs[j];
  }

  lemma ReplaceKeepsInvariant(docs: seq<Incident>, k: nat, d: Incident)
    requires k < |docs| && StoreInvariant(docs) && ValidIncident(d) && !Clashes(docs, d, k, SameKey)
    ensures StoreInvariant(docs[k := d])
  {
    ReplaceKeepsDistinct(docs, k, d, SameKey);
  }
}
