/** The moderation panel: it loads the pending records of both collections
    into one newest-first list, approves or rejects the selected entry
    through the document service, and keeps the modal, the rejection notes,
    the per-action busy marker and the active tab. */
module AdminPanel {
  import opened Wrappers
  import opened Text
  import opened Sorting
  import opened FirebaseTypes
  import opened DocumentService

  /** A pending record tagged with the collection it came from. */
  datatype PendingSubmission = PendingSubmission(id: string, kind: SubmissionType, data: Submission)

  const LOAD_ERROR := "Error al cargar las solicitudes pendientes"
  const APPROVE_ERROR := "Error al aprobar la solicitud"
  const REJECT_ERROR := "Error al rechazar la solicitud"
  const REASON_REQUIRED := "Por favor, proporciona una razón para el rechazo"

  function Tagged(docs: seq<Submission>, t: SubmissionType): (r: seq<PendingSubmission>)
    ensures |r| == |docs|
    ensures forall i :: 0 <= i < |r| ==> r[i] == PendingSubmission(docs[i].id, t, docs[i])
  {
    seq(|docs|, i requires 0 <= i < |docs| => PendingSubmission(docs[i].id, t, docs[i]))
  }

  /** The panel's comparator: newer first, a missing creation time counting as 0. */
  function PendingNewer(a: PendingSubmission, b: PendingSubmission): bool {
    NewerThan(a.data, b.data)
  }

  lemma PendingNewerIsStrictOrder()
    ensures StrictOrder(PendingNewer)
  {
    assert forall a, b, c :: PendingNewer(a, b) && PendingNewer(b, c) ==> PendingNewer(a, c);
  }

  /** Both query results, tagged, concatenated and sorted newest first. */
  function Merged(relatos: seq<Submission>, portal: seq<Submission>): seq<PendingSubmission> {
    Sort(Tagged(relatos, Relatos) + Tagged(portal, PortalMemoria), PendingNewer)
  }

  /** The merged list is sorted and holds every tagged record of both lists. */
  lemma MergedFacts(relatos: seq<Submission>, portal: seq<Submission>)
    ensures Sorted(Merged(relatos, portal), PendingNewer)
    ensures |Merged(relatos, portal)| == |relatos| + |portal|
    ensures forall p :: p in Merged(relatos, portal) <==>
      (p.kind == Relatos && p.data in relatos && p.id == p.data.id)
      || (p.kind == PortalMemoria && p.data in portal && p.id == p.data.id)
  {
    var all := Tagged(relatos, Relatos) + Tagged(portal, PortalMemoria);
    PendingNewerIsStrictOrder();
    SortCorrect(all, PendingNewer);
    forall p ensures p in Merged(relatos, portal) <==> p in all {
      SortSameElements(all, PendingNewer, p);
    }
    forall p ensures p in all <==>
      (p.kind == Relatos && p.data in relatos && p.id == p.data.id)
      || (p.kind == PortalMemoria && p.data in portal && p.id == p.data.id)
    {
      if p.kind == Relatos && p.data in relatos && p.id == p.data.id {
        var i :| 0 <= i < |relatos| && relatos[i] == p.data;
        assert all[i] == p;
      }
      if p.kind == PortalMemoria && p.data in portal && p.id == p.data.id {
        var i :| 0 <= i < |portal| && portal[i] == p.data;
        assert all[|relatos| + i] == p;
      }
    }
  }

  /** The panel holds exactly the pending records of both collections,
      each under its own id and tagged with its collection. */
  ghost predicate LoadedFrom(pending: seq<PendingSubmission>, relatos: map<string, Submission>,
                             portal: map<string, Submission>)
  {
    && |pending| == |KeysWithStatus(relatos, Pending)| + |KeysWithStatus(portal, Pending)|
    && Sorted(pending, PendingNewer)
    && forall p :: p in pending <==>
         (p.data.status == Pending && p.id == p.data.id &&
          ((p.kind == Relatos && p.data in relatos.Values) || (p.kind == PortalMemoria && p.data in portal.Values)))
  }

  /** Merging two pending-query results gives the panel's loaded list. */
  lemma MergedLoads(relatos: seq<Submission>, portal: seq<Submission>,
                    collR: map<string, Submission>, collP: map<string, Submission>)
    requires QueryResult(relatos, collR, Pending) && QueryResult(portal, collP, Pending)
    ensures LoadedFrom(Merged(relatos, portal), collR, collP)
  {
    MergedFacts(relatos, portal);
  }

  /** `prev.filter((s) => s.id !== id)`. */
  function RemoveId(s: seq<PendingSubmission>, id: string): (r: seq<PendingSubmission>)
    ensures forall p :: p in r <==> p in s && p.id != id
    ensures |r| <= |s|
  {
    Select(s, (p: PendingSubmission) => p.id != id)
  }

  /** Removal keeps the others in their order, so the list stays newest first. */
  lemma RemoveIdKeepsOrder(s: seq<PendingSubmission>, id: string)
    ensures IsSubsequence(RemoveId(s, id), s)
    ensures Sorted(s, PendingNewer) ==> Sorted(RemoveId(s, id), PendingNewer)
  {
    SelectIsSubsequence(s, (p: PendingSubmission) => p.id != id);
    if Sorted(s, PendingNewer) {
      SelectSorted(s, (p: PendingSubmission) => p.id != id, PendingNewer);
    }
  }

  function OfKind(s: seq<PendingSubmission>, t: SubmissionType): (r: seq<PendingSubmission>)
    ensures forall p :: p in r <==> p in s && p.kind == t
  {
    Select(s, (p: PendingSubmission) => p.kind == t)
  }

  /** The two tab counts add up to the whole pending list. */
  lemma TabCountsAddUp(s: seq<PendingSubmission>)
    ensures |OfKind(s, Relatos)| + |OfKind(s, PortalMemoria)| == |s|
  {
    SelectSplits(s, (p: PendingSubmission) => p.kind == Relatos, (p: PendingSubmission) => p.kind == PortalMemoria);
  }

  class Panel {
    const service: FirebaseService
    const adminId: string
    var pending: seq<PendingSubmission>
    var isLoading: bool
    var error: Option<string>
    var selected: Option<PendingSubmission>
    var actionLoading: Option<string>
    var rejectionNotes: string
    var activeTab: SubmissionType

    ghost predicate Valid()
      reads this, service
    {
      service.Valid() && Sorted(pending, PendingNewer)
    }

    constructor (service: FirebaseService, adminId: string)
      requires service.Valid()
      ensures Valid() && this.service == service && this.adminId == adminId
      ensures pending == [] && isLoading && error.None? && selected.None? && actionLoading.None?
      ensures rejectionNotes == "" && activeTab == Relatos
    {
      this.service := service;
      this.adminId := adminId;
      pending := [];
      isLoading := true;
      error := None;
      selected := None;
      actionLoading := None;
      rejectionNotes := "";
      activeTab := Relatos;
    }

    /** The entries of the active tab, in list order. */
    function Visible(): (r: seq<PendingSubmission>)
      reads this
      ensures forall p :: p in r <==> p in pending && p.kind == activeTab
    {
      OfKind(pending, activeTab)
    }

    /** `loadPendingSubmissions()`: both queries, with their faults. */
    method LoadPendingSubmissions(relatosFault: Option<Thrown>, portalFault: Option<Thrown>)
      requires Valid()
      modifies this
      ensures Valid() && !isLoading
      ensures relatosFault.None? && portalFault.None? ==>
        error.None? && LoadedFrom(pending, service.relatos, service.portal)
      ensures relatosFault.Some? || portalFault.Some? ==> error == Some(LOAD_ERROR) && pending == old(pending)
      ensures selected == old(selected) && actionLoading == old(actionLoading)
      ensures rejectionNotes == old(rejectionNotes) && activeTab == old(activeTab)
    {
      isLoading := true;
      error := None;
      var relatos := service.GetPendingSubmissions(Relatos, relatosFault);
      var portal := service.GetPendingSubmissions(PortalMemoria, portalFault);
      if relatos.Ok? && portal.Ok? {
        MergedLoads(relatos.value, portal.value, service.relatos, service.portal);
        pending := Merged(relatos.value, portal.value);
      } else {
        error := Some(LOAD_ERROR);
      }
      isLoading := false;
    }

    /** The busy marker an action sets before calling the service. */
    method BeginAction(id: string)
      modifies this
      ensures actionLoading == Some(id)
      ensures pending == old(pending) && error == old(error) && selected == old(selected)
      ensures rejectionNotes == old(rejectionNotes) && isLoading == old(isLoading) && activeTab == old(activeTab)
    {
      actionLoading := Some(id);
    }

    /** `handleApprove(submission)`. */
    method HandleApprove(sub: PendingSubmission, now: int, fault: Option<Thrown>)
      requires Valid()
      modifies this, service
      ensures Valid() && actionLoading.None?
      ensures fault.None? && sub.id in old(service.Collection(sub.kind)) ==>
        && pending == RemoveId(old(pending), sub.id) && selected.None? && error == old(error)
        && service.Collection(sub.kind)
           == old(service.Collection(sub.kind))[sub.id := Approve(old(service.Collection(sub.kind))[sub.id], adminId, now)]
      ensures !(fault.None? && sub.id in old(service.Collection(sub.kind))) ==>
        && pending == old(pending) && selected == old(selected) && error == Some(APPROVE_ERROR)
        && service.relatos == old(service.relatos) && service.portal == old(service.portal)
      ensures rejectionNotes == old(rejectionNotes) && isLoading == old(isLoading) && activeTab == old(activeTab)
    {
      BeginAction(sub.id);
      var r := service.ApproveSubmission(sub.id, sub.kind, adminId, now, fault);
      if r.Ok? {
        assert Sorted(RemoveId(pending, sub.id), PendingNewer) by { RemoveIdKeepsOrder(pending, sub.id); }
        pending := RemoveId(pending, sub.id);
        selected := None;
      } else {
        error := Some(APPROVE_ERROR);
      }
      actionLoading := None;
    }

    /** `handleReject(submission)`: blank notes stop it before the service. */
    method HandleReject(sub: PendingSubmission, now: int, fault: Option<Thrown>)
      requires Valid()
      modifies this, service
      ensures Valid() && actionLoading == (if IsBlank(old(rejectionNotes)) then old(actionLoading) else None)
      ensures IsBlank(old(rejectionNotes)) ==>
        && error == Some(REASON_REQUIRED) && pending == old(pending) && selected == old(selected)
        && rejectionNotes == old(rejectionNotes)
        && service.relatos == old(service.relatos) && service.portal == old(service.portal)
      ensures !IsBlank(old(rejectionNotes)) && fault.None? && sub.id in old(service.Collection(sub.kind)) ==>
        && pending == RemoveId(old(pending), sub.id) && selected.None? && rejectionNotes == ""
        && error == old(error)
        && service.Collection(sub.kind)
           == old(service.Collection(sub.kind))[sub.id := Reject(old(service.Collection(sub.kind))[sub.id], adminId,
                                                                 old(rejectionNotes), now)]
      ensures !IsBlank(old(rejectionNotes)) && !(fault.None? && sub.id in old(service.Collection(sub.kind))) ==>
        && pending == old(pending) && selected == old(selected) && error == Some(REJECT_ERROR)
        && rejectionNotes == old(rejectionNotes)
        && service.relatos == old(service.relatos) && service.portal == old(service.portal)
      ensures isLoading == old(isLoading) && activeTab == old(activeTab)
    {
      if IsBlank(rejectionNotes) {
        error := Some(REASON_REQUIRED);
        return;
      }
      BeginAction(sub.id);
      var r := service.RejectSubmission(sub.id, sub.kind, adminId, rejectionNotes, now, fault);
      if r.Ok? {
        assert Sorted(RemoveId(pending, sub.id), PendingNewer) by { RemoveIdKeepsOrder(pending, sub.id); }
        pending := RemoveId(pending, sub.id);
        selected := None;
        rejectionNotes := "";
      } else {
        error := Some(REJECT_ERROR);
      }
      actionLoading := None;
    }

    /** `openSubmissionModal(submission)`. */
    method OpenModal(sub: PendingSubmission)
      modifies this
      ensures selected == Some(sub) && rejectionNotes == "" && error.None?
      ensures pending == old(pending) && actionLoading == old(actionLoading)
      ensures isLoading == old(isLoading) && activeTab == old(activeTab)
    {
      selected := Some(sub);
      rejectionNotes := "";
      error := None;
    }

    /** `closeSubmissionModal()`. */
    method CloseModal()
      modifies this
      ensures selected.None? && rejectionNotes == "" && error.None?
      ensures pending == old(pending) && actionLoading == old(actionLoading)
      ensures isLoading == old(isLoading) && activeTab == old(activeTab)
    {
      selected := None;
      rejectionNotes := "";
      error := None;
    }

    method SetRejectionNotes(notes: string)
      modifies this
      ensures rejectionNotes == notes
      ensures pending == old(pending) && selected == old(selected) && error == old(error)
      ensures actionLoading == old(actionLoading) && isLoading == old(isLoading) && activeTab == old(activeTab)
    {
      rejectionNotes := notes;
    }

    method SetActiveTab(t: SubmissionType)
      modifies this
      ensures activeTab == t
      ensures pending == old(pending) && selected == old(selected) && error == old(error)
      ensures actionLoading == old(actionLoading) && isLoading == old(isLoading)
      ensures rejectionNotes == old(rejectionNotes)
    {
      activeTab := t;
    }
  }
}
