/**
 * The client's alert state (`frontend/src/store/slices/alertSlice.ts`): the alert list, the open
 * alert, the loading flag, the error and the pagination, assigned in place by the reducers. The
 * list holds the alerts as the server sends them; `_id` is their `id`.
 */
module AlertSlice {
  import opened Wrappers
  import opened Text
  import opened Collections
  import opened AlertModel

  const LoadAlertsFailed := "Failed to load alerts"
  const LoadAlertFailed := "Failed to load alert detail"
  const UpdateAlertFailed := "Failed to update alert"
  const DefaultPageSize := 10

  datatype Pagination = Pagination(count: nat, page: nat, pageSize: nat)

  /** `n || fallback` on a number that may be undefined: undefined and 0 give the fallback. */
  function NumberOr(n: Option<nat>, fallback: nat): (r: nat)
    ensures n.None? || n.value == 0 ==> r == fallback
    ensures n.Some? && n.value != 0 ==> r == n.value
  {
    if n.Some? && n.value != 0 then n.value else fallback
  }

  /** `action.payload?.message || action.error.message || fallback` */
  function RejectionText(payloadMessage: Option<string>, errorMessage: Option<string>, fallback: string): (r: string)
    ensures payloadMessage.Some? && payloadMessage.value != "" ==> r == payloadMessage.value
    ensures (payloadMessage.None? || payloadMessage.value == "") ==> r == TextOr(errorMessage, fallback)
    ensures fallback != "" ==> r != ""
  {
    TextOr(payloadMessage, TextOr(errorMessage, fallback))
  }

  /** Whether an alert has the given `_id`. */
  function SameId(id: string): Alert -> bool {
    (a: Alert) => a.id == id
  }

  /**
   * The list after `findIndex` by `_id` and the overwrite: the first alert with the payload's id
   * is replaced, and only that one; with no such alert the list is unchanged.
   */
  function ReplaceById(alerts: seq<Alert>, updated: Alert): (r: seq<Alert>)
    ensures |r| == |alerts|
    ensures FirstIndex(alerts, SameId(updated.id)).None? ==> r == alerts
    ensures FirstIndex(alerts, SameId(updated.id)).Some? ==>
      var k := FirstIndex(alerts, SameId(updated.id)).value;
      r[k] == updated && forall j :: 0 <= j < |alerts| && j != k ==> r[j] == alerts[j]
  {
    match FirstIndex(alerts, SameId(updated.id))
    case None => alerts
    case Some(k) => alerts[k := updated]
  }

  /** Replacing is idempotent: a second identical answer changes nothing more. */
  lemma ReplaceByIdIdempotent(alerts: seq<Alert>, updated: Alert)
    ensures ReplaceById(ReplaceById(alerts, updated), updated) == ReplaceById(alerts, updated)
  {
    var once := ReplaceById(alerts, updated);
    var p := SameId(updated.id);
    if FirstIndex(alerts, p).Some? {
      var k := FirstIndex(alerts, p).value;
      assert forall j :: 0 <= j < k ==> once[j] == alerts[j];
      FirstIndexUnique(once, p, k);
      assert once[k := updated] == once;
    }
  }

  /** An alert with another id is never touched. */
  lemma ReplaceByIdKeepsOthers(alerts: seq<Alert>, updated: Alert, j: nat)
    requires j < |alerts| && alerts[j].id != updated.id
    ensures ReplaceById(alerts, updated)[j] == alerts[j]
  {
  }

  class AlertState {
    var alerts: seq<Alert>
    var currentAlert: Option<Alert>
    var isLoading: bool
    var error: Option<string>
    var pagination: Option<Pagination>

    /** `initialState` */
    constructor ()
      ensures alerts == [] && currentAlert.None? && !isLoading && error.None? && pagination.None?
    {
      alerts := [];
      currentAlert := None;
      isLoading := false;
      error := None;
      pagination := None;
    }

    /** `clearAlertError`: only the error changes. */
    method ClearAlertError()
      modifies this
      ensures error.None?
      ensures alerts == old(alerts) && currentAlert == old(currentAlert) && isLoading == old(isLoading) && pagination == old(pagination)
    {
      error := None;
    }

    /** `fetchAlerts.pending` */
    method FetchAlertsPending()
      modifies this
      ensures isLoading && error.None?
      ensures alerts == old(alerts) && currentAlert == old(currentAlert) && pagination == old(pagination)
    {
      isLoading := true;
      error := None;
    }

    /** `fetchAlerts.fulfilled`: the list and the pagination, with page 0 and size 10 when the request gave none. */
    method AlertsFetched(data: seq<Alert>, count: nat, page: Option<nat>, limit: Option<nat>)
      modifies this
      ensures !isLoading && alerts == data
      ensures pagination == Some(Pagination(count, NumberOr(page, 0), NumberOr(limit, DefaultPageSize)))
      ensures currentAlert == old(currentAlert) && error == old(error)
    {
      isLoading := false;
      alerts := data;
      pagination := Some(Pagination(count, NumberOr(page, 0), NumberOr(limit, DefaultPageSize)));
    }

    /** `fetchAlerts.rejected` */
    method FetchAlertsRejected(payloadMessage: Option<string>, errorMessage: Option<string>)
      modifies this
      ensures !isLoading && error == Some(RejectionText(payloadMessage, errorMessage, LoadAlertsFailed))
      ensures alerts == old(alerts) && currentAlert == old(currentAlert) && pagination == old(pagination)
    {
      isLoading := false;
      error := Some(RejectionText(payloadMessage, errorMessage, LoadAlertsFailed));
    }

    /** `fetchAlertById.pending`: the open alert is cleared while loading. */
    method FetchAlertPending()
      modifies this
      ensures isLoading && currentAlert.None? && error.None?
      ensures alerts == old(alerts) && pagination == old(pagination)
    {
      isLoading := true;
      currentAlert := None;
      error := None;
    }

    /** `fetchAlertById.fulfilled` */
    method AlertFetched(alert: Alert)
      modifies this
      ensures !isLoading && currentAlert == Some(alert)
      ensures alerts == old(alerts) && error == old(error) && pagination == old(pagination)
    {
      isLoading := false;
      currentAlert := Some(alert);
    }

    /** `fetchAlertById.rejected` */
    method FetchAlertRejected(payloadMessage: Option<string>, errorMessage: Option<string>)
      modifies this
      ensures !isLoading && error == Some(RejectionText(payloadMessage, errorMessage, LoadAlertFailed))
      ensures alerts == old(alerts) && currentAlert == old(currentAlert) && pagination == old(pagination)
    {
      isLoading := false;
      error := Some(RejectionText(payloadMessage, errorMessage, LoadAlertFailed));
    }

    /** `updateAlert.pending`: loading, with the previous error left in place. */
    method UpdateAlertPending()
      modifies this
      ensures isLoading
      ensures alerts == old(alerts) && currentAlert == old(currentAlert) && error == old(error) && pagination == old(pagination)
    {
      isLoading := true;
    }

    /** `updateAlert.fulfilled`: the answer becomes the open alert and overwrites its entry in the list. */
    method AlertUpdated(updated: Alert)
      modifies this
      ensures !isLoading && currentAlert == Some(updated)
      ensures alerts == ReplaceById(old(alerts), updated)
      ensures error == old(error) && pagination == old(pagination)
    {
      isLoading := false;
      currentAlert := Some(updated);
      var index := FindIndex(alerts, SameId(updated.id));
      if index != -1 {
        alerts := alerts[index := updated];
      }
    }

    /** `updateAlert.rejected` */
    method UpdateAlertRejected(payloadMessage: Option<string>, errorMessage: Option<string>)
      modifies this
      ensures !isLoading && error == Some(RejectionText(payloadMessage, errorMessage, UpdateAlertFailed))
      ensures alerts == old(alerts) && currentAlert == old(currentAlert) && pagination == old(pagination)
    {
      isLoading := false;
      error := Some(RejectionText(payloadMessage, errorMessage, UpdateAlertFailed));
    }
  }
}
