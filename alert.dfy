/**
 * The alert schema (`backend/models/Alert.js`): severity and status enums with their
 * defaults, validation, and the pre-save hook that records a status change in the history.
 */
module AlertModel {
  import opened Wrappers
  import opened Text
  import opened Validation
  import opened Documents

  const Severities: seq<string> := ["Low", "Medium", "High", "Critical", "Informational"]
  const Statuses: seq<string> := ["New", "Acknowledged", "Investigating", "Resolved", "Closed", "FalsePositive"]
  const DefaultSeverity := "Medium"
  const DefaultStatus := "New"
  const TitleRequiredMessage := "Alert title is required"
  const StatusChangePrefix := "Status changed to "

  /** An entry of `notes`, as the request gives it. */
  datatype Note = Note(text: Option<string>, user: Option<string>, createdAt: nat)

  /**
   * A stored alert. `assignedTo` is `None` for null. The mixed-type `dataSnapshot` and the
   * `incidentId` and `generatedBy` references no handler of the model writes are left out.
   */
  datatype Alert = Alert(
    id: string,
    title: string,
    description: Option<string>,
    severity: string,
    status: string,
    policyTriggered: Option<string>,
    userInvolved: seq<string>,
    source: Option<string>,
    tags: seq<string>,
    notes: seq<Note>,
    assignedTo: Option<string>,
    history: seq<HistoryEntry>,
    timestamp: nat)

  /** A required path with an enum: the `required` validator, then the `enum` one. */
  function EnumIssues(path: string, v: string, values: seq<string>): (r: seq<Issue>)
    ensures r == [] <==> v in values && v != ""
  {
    if v == "" then [Issue(path, RequiredMessage(path))] else Check(v in values, path, EnumMessage(path, v))
  }

  function SeverityIssues(v: string): (r: seq<Issue>)
    ensures r == [] <==> v in Severities
  {
    assert "" !in Severities;
    EnumIssues("severity", v, Severities)
  }

  function StatusIssues(v: string): (r: seq<Issue>)
    ensures r == [] <==> v in Statuses
  {
    assert "" !in Statuses;
    EnumIssues("status", v, Statuses)
  }

  /** What the schema accepts. */
  predicate ValidAlert(a: Alert) {
    a.title != "" && a.severity in Severities && a.status in Statuses
  }

  /** Full-document validation, in schema order. */
  function AlertIssues(a: Alert): (issues: seq<Issue>)
    ensures issues == [] <==> ValidAlert(a)
  {
    Check(a.title != "", "title", TitleRequiredMessage) + SeverityIssues(a.severity) + StatusIssues(a.status)
  }

  /** The entry the hook records. */
  function StatusChangeEntry(status: string, now: nat): HistoryEntry {
    HistoryEntry(None, StatusChangePrefix + status, now)
  }

  /**
   * The pre-save hook: saving an existing alert whose status changed appends one entry, with
   * no user; a new alert, or a save that keeps the status, is left as it is.
   */
  function AlertPreSave(stored: Option<Alert>, doc: Alert, now: nat): (r: Alert)
    ensures r == doc.(history := r.history)
    ensures stored.Some? && stored.value.status != doc.status ==>
      r.history == doc.history + [StatusChangeEntry(doc.status, now)]
    ensures stored.None? || stored.value.status == doc.status ==> r == doc
  {
    if stored.Some? && stored.value.status != doc.status then doc.(history := doc.history + [StatusChangeEntry(doc.status, now)])
    else doc
  }

  /** `doc.save()`: validation, then the pre-save hook. */
  function SaveAlert(stored: Option<Alert>, doc: Alert, now: nat): (r: Saved<Alert>)
    ensures r.Rejected? <==> !ValidAlert(doc)
    ensures r.Rejected? ==> r.issues == AlertIssues(doc)
    ensures r.Saved? ==> r.doc == AlertPreSave(stored, doc, now)
  {
    if AlertIssues(doc) != [] then Rejected(AlertIssues(doc)) else Saved(AlertPreSave(stored, doc, now))
  }

  /** Each hook entry starts "Status changed to " and names the new status. */
  lemma StatusEntryNamesStatus(stored: Alert, doc: Alert, now: nat)
    requires stored.status != doc.status
    ensures var h := AlertPreSave(Some(stored), doc, now).history;
      && |h| == |doc.history| + 1
      && h[|doc.history|].user.None?
      && StartsWith(h[|doc.history|].action, StatusChangePrefix)
      && h[|doc.history|].action[|StatusChangePrefix|..] == doc.status
  {
    var a := StatusChangePrefix + doc.status;
    assert a[..|StatusChangePrefix|] == StatusChangePrefix;
    assert a[|StatusChangePrefix|..] == doc.status;
  }

  // ---------------------------------------------------------------- the collection

  /** The only unique index is `_id`. */
  predicate SameKey(a: Alert, b: Alert) {
    a.id == b.id
  }

  /** `findById(id)` */
  function HasId(id: string): Alert -> bool {
    (a: Alert) => a.id == id
  }
}
