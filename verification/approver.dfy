/** The approver's dashboard: the list of requests waiting for a decision
    and `handleAction`, which logs the decision and rewrites the request's
    status in one step, whatever stage the request was at. */
module Approval {
  import opened Domain
  import Text
  import Database

  /** The three stages the dashboard offers for action. */
  predicate AwaitsApproval(r: TravelRecord)
  {
    r.status == AguardandoChefia || r.status == AguardandoSubsecretario || r.status == AguardandoDAD
  }

  /** `fetchRequests`' query, in table order. */
  function PendingApproval(rows: seq<TravelRecord>): (r: seq<TravelRecord>)
    ensures forall x :: x in r <==> (x in rows &&
      (x.status == AguardandoChefia || x.status == AguardandoSubsecretario || x.status == AguardandoDAD))
  {
    Filter(rows, AwaitsApproval)
  }

  /** The status written for each button: approval goes straight to
      `Aprovado`, a return for correction ends in `Rejeitado`. */
  function NewStatus(d: Decision): (st: Status)
    ensures st == Aprovado <==> d == Approve
    ensures st == Rejeitado <==> d == ReturnForCorrection
    ensures st != AguardandoSubsecretario && st != AguardandoDAD && st != Rascunho
  {
    match d
    case Approve => Aprovado
    case ReturnForCorrection => Rejeitado
  }

  /** How `handleAction`'s two guards dispose of a click. */
  datatype ActionVerdict = Ignored | CommentRequired | Accepted

  /** Nothing happens without a selected request and a profile; a return
      for correction needs a comment with at least one non-whitespace
      character; an approval needs no comment. */
  function CheckAction(selected: Option<TravelRecord>, profile: Option<Profile>, d: Decision, comment: string): (v: ActionVerdict)
    ensures v == Ignored <==> selected.None? || profile.None?
    ensures v == CommentRequired <==>
      selected.Some? && profile.Some? && d == ReturnForCorrection && Text.AllWhitespace(comment)
    ensures v == Accepted <==>
      selected.Some? && profile.Some? && (d == Approve || !Text.AllWhitespace(comment))
  {
    if selected.None? || profile.None? then Ignored
    else if d == ReturnForCorrection && Text.Trim(comment) == [] then
      Text.TrimEmptyIffBlank(comment);
      CommentRequired
    else
      Text.TrimEmptyIffBlank(comment);
      assert d == Approve || !Text.AllWhitespace(comment);
      Accepted
  }

  /** The component state of the dashboard. */
  class ApproverDashboard {
    var requests: seq<TravelRecord>
    var loading: bool
    var selectedRequest: Option<TravelRecord>
    var comment: string

    constructor ()
      ensures requests == [] && loading && selectedRequest == None && comment == []
    {
      requests := [];
      loading := true;
      selectedRequest := None;
      comment := [];
    }

    /** `fetchRequests`: on success the list becomes the pending rows; a
        failed query keeps the old list. Loading ends either way. */
    method FetchRequests(db: Database.Store, queryFailed: bool)
      modifies this
      ensures queryFailed ==> requests == old(requests)
      ensures !queryFailed ==> requests == PendingApproval(db.requests)
      ensures selectedRequest == old(selectedRequest) && comment == old(comment) && !loading
    {
      if !queryFailed {
        requests := PendingApproval(db.requests);
      }
      loading := false;
    }

    /** Clicking a row opens the modal on that request. */
    method SelectRequest(r: TravelRecord)
      modifies this
      ensures selectedRequest == Some(r)
      ensures requests == old(requests) && comment == old(comment) && loading == old(loading)
    {
      selectedRequest := Some(r);
    }

    /** Cancel, or a click on the backdrop, closes the modal. The comment
        is kept, so the next request opened shows it again. */
    method CloseModal()
      modifies this
      ensures selectedRequest == None
      ensures requests == old(requests) && comment == old(comment) && loading == old(loading)
    {
      selectedRequest := None;
    }

    /** Typing in the comment box. */
    method SetComment(c: string)
      modifies this
      ensures comment == c
      ensures requests == old(requests) && selectedRequest == old(selectedRequest) && loading == old(loading)
    {
      comment := c;
    }

    /** `handleAction`. A refused click changes nothing. An accepted one
        appends one entry carrying the request id, the approver's id and
        role, the decision and the comment, rewrites the status of that
        request id only, and closes the modal with an empty comment. The
        results of the two writes are never read: a failed log insert does
        not stop the status update, and neither failure stops the reset. */
    method HandleAction(db: Database.Store, profile: Option<Profile>, d: Decision, logFails: bool, updateFails: bool)
      returns (v: ActionVerdict)
      modifies this, db
      ensures v == CheckAction(old(selectedRequest), profile, d, old(comment))
      ensures v != Accepted ==> db.workflow == old(db.workflow) && db.requests == old(db.requests)
      ensures v != Accepted ==> selectedRequest == old(selectedRequest) && comment == old(comment)
      ensures v == Accepted ==>
        db.workflow == old(db.workflow) +
          (if logFails then []
           else [WorkflowEntry(old(selectedRequest).value.id, profile.value.id, profile.value.cargo, d, old(comment))])
      ensures v == Accepted ==>
        db.requests ==
          (if updateFails then old(db.requests)
           else WithStatus(old(db.requests), old(selectedRequest).value.id, NewStatus(d)))
      ensures v == Accepted ==> selectedRequest == None && comment == []
      ensures db.notifications == old(db.notifications)
      ensures requests == old(requests) && loading == old(loading)
    {
      v := CheckAction(selectedRequest, profile, d, comment);
      if v == Accepted {
        var req := selectedRequest.value;
        var who := profile.value;
        if !logFails {
          db.AppendWorkflow(WorkflowEntry(req.id, who.id, who.cargo, d, comment));
        }
        if !updateFails {
          db.UpdateStatus(req.id, NewStatus(d));
        }
        selectedRequest := None;
        comment := [];
      }
    }
  }

  /** A decision on a request at any of the three stages lands directly on
      the final status: no intermediate stage is ever written. */
  lemma DecisionSkipsStages(rows: seq<TravelRecord>, id: string, d: Decision, r: TravelRecord)
    requires r in WithStatus(rows, id, NewStatus(d)) && r.id == id
    ensures d == Approve ==> r.status == Aprovado
    ensures d == ReturnForCorrection ==> r.status == Rejeitado
  {
    WithStatusSets(rows, id, NewStatus(d), r);
  }
}
