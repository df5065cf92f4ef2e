/**
  The rent-request lifecycle on one property, as the accept, reject, cancel
  and create-request handlers of routes/propertyRoutes.js change the loaded
  document: the new status of the addressed request and the property's
  availability afterwards.

  Availability invariant: a property is "not available" exactly when one of
  its requests is accepted (`StatusConsistent`). Accept sets "not available"
  outright; reject and cancel recompute it from the whole, already updated,
  request list; creating a request leaves it alone.

  As the handlers are written, accept and reject do not look at the current
  status of the request: any request, pending or not, can be accepted or
  rejected, and accepting one request leaves the other requests as they are.
 */
module Lifecycle {
  import opened Results
  import opened PropertySchema

  /** `rentRequests.some(r => r.status === "accepted")` */
  function HasAccepted(rs: seq<RentRequest>): (b: bool)
    ensures b <==> exists k :: 0 <= k < |rs| && rs[k].status == Accepted
  {
    if rs == [] then false
    else if rs[0].status == Accepted then true
    else
      var rest := HasAccepted(rs[1..]);
      assert forall k :: 1 <= k < |rs| ==> rs[k] == rs[1..][k - 1];
      rest
  }

  /** The availability that reject and cancel write back after changing a request. */
  function DerivedStatus(rs: seq<RentRequest>): Availability
  {
    if HasAccepted(rs) then NotAvailable else Available
  }

  /** The availability invariant of one property. */
  predicate StatusConsistent(p: Property)
  {
    p.status == DerivedStatus(p.rentRequests)
  }

  /**
    `property.rentRequests.id(reqId)`: the position of the first embedded
    request with that id, or None when there is none.
   */
  function FindRequest(rs: seq<RentRequest>, id: RequestId): (r: Option<nat>)
    ensures r.Some? ==> r.value < |rs| && rs[r.value].id == id
    ensures r.Some? ==> forall k :: 0 <= k < r.value ==> rs[k].id != id
    ensures r.None? ==> forall k :: 0 <= k < |rs| ==> rs[k].id != id
  {
    FindById(rs, (r: RentRequest) => r.id, id)
  }

  /** `request.status = s` on the j-th embedded request. */
  function SetStatus(rs: seq<RentRequest>, j: nat, s: RequestStatus): seq<RentRequest>
    requires j < |rs|
  {
    rs[j := rs[j].(status := s)]
  }

  /** `property.rentRequests.push(request)` */
  function AppendRequest(p: Property, r: RentRequest): Property
  {
    p.(rentRequests := p.rentRequests + [r])
  }

  /** The accept handler's two assignments. */
  function AcceptAt(p: Property, j: nat): Property
    requires j < |p.rentRequests|
  {
    p.(rentRequests := SetStatus(p.rentRequests, j, Accepted), status := NotAvailable)
  }

  /** The reject handler: set the request to rejected, then recompute availability. */
  function RejectAt(p: Property, j: nat): Property
    requires j < |p.rentRequests|
  {
    var rs := SetStatus(p.rentRequests, j, Rejected);
    p.(rentRequests := rs, status := DerivedStatus(rs))
  }

  /** The cancel handler, once its checks have passed: cancel, then recompute availability. */
  function CancelAt(p: Property, j: nat): Property
    requires j < |p.rentRequests|
  {
    var rs := SetStatus(p.rentRequests, j, Cancelled);
    p.(rentRequests := rs, status := DerivedStatus(rs))
  }

  /** Only the j-th request changes, and it changes only its status. */
  predicate OnlyStatusChanged(rs: seq<RentRequest>, rs': seq<RentRequest>, j: nat, s: RequestStatus)
  {
    && |rs'| == |rs|
    && j < |rs|
    && rs'[j] == rs[j].(status := s)
    && forall k :: 0 <= k < |rs| && k != j ==> rs'[k] == rs[k]
  }

  /**
    After changing request j to status s, some request is accepted exactly
    when s is accepted or one of the other requests already was.
   */
  lemma {:induction false} HasAcceptedAfterSet(rs: seq<RentRequest>, j: nat, s: RequestStatus)
    requires j < |rs|
    ensures HasAccepted(SetStatus(rs, j, s)) <==>
      s == Accepted || exists k :: 0 <= k < |rs| && k != j && rs[k].status == Accepted
  {
    var rs' := SetStatus(rs, j, s);
    if s == Accepted {
      assert rs'[j].status == Accepted;
    } else if k :| 0 <= k < |rs| && k != j && rs[k].status == Accepted {
      assert rs'[k].status == Accepted;
    } else {
      forall k | 0 <= k < |rs'|
        ensures rs'[k].status != Accepted
      {
        if k == j { assert rs'[k].status == s; }
      }
    }
  }

  /**
    Accept: the request becomes accepted whatever its status was, the other
    requests and fields are untouched, and the property is "not available",
    which satisfies the invariant whatever state it was in before.
   */
  lemma AcceptAtEffect(p: Property, j: nat)
    requires j < |p.rentRequests|
    ensures OnlyStatusChanged(p.rentRequests, AcceptAt(p, j).rentRequests, j, Accepted)
    ensures AcceptAt(p, j).status == NotAvailable
    ensures AcceptAt(p, j).(rentRequests := p.rentRequests, status := p.status) == p
    ensures StatusConsistent(AcceptAt(p, j))
  {
    HasAcceptedAfterSet(p.rentRequests, j, Accepted);
  }

  /**
    Reject: the request becomes rejected whatever its status was, and the
    property stays "not available" exactly when another request is accepted.
   */
  lemma RejectAtEffect(p: Property, j: nat)
    requires j < |p.rentRequests|
    ensures OnlyStatusChanged(p.rentRequests, RejectAt(p, j).rentRequests, j, Rejected)
    ensures RejectAt(p, j).status == NotAvailable <==>
      exists k :: 0 <= k < |p.rentRequests| && k != j && p.rentRequests[k].status == Accepted
    ensures RejectAt(p, j).(rentRequests := p.rentRequests, status := p.status) == p
    ensures StatusConsistent(RejectAt(p, j))
  {
    HasAcceptedAfterSet(p.rentRequests, j, Rejected);
  }

  /**
    Cancel: the request becomes cancelled, and the property stays "not
    available" exactly when another request is accepted.
   */
  lemma CancelAtEffect(p: Property, j: nat)
    requires j < |p.rentRequests|
    ensures OnlyStatusChanged(p.rentRequests, CancelAt(p, j).rentRequests, j, Cancelled)
    ensures CancelAt(p, j).status == NotAvailable <==>
      exists k :: 0 <= k < |p.rentRequests| && k != j && p.rentRequests[k].status == Accepted
    ensures CancelAt(p, j).(rentRequests := p.rentRequests, status := p.status) == p
    ensures StatusConsistent(CancelAt(p, j))
  {
    HasAcceptedAfterSet(p.rentRequests, j, Cancelled);
  }

  /**
    Cancelling a pending request never changes availability: a pending
    request was not the accepted one.
   */
  lemma CancelPendingKeepsStatus(p: Property, j: nat)
    requires j < |p.rentRequests|
    requires StatusConsistent(p)
    requires p.rentRequests[j].status == Pending
    ensures CancelAt(p, j).status == p.status
  {
    HasAcceptedAfterSet(p.rentRequests, j, Cancelled);
  }

  /**
    Appending a pending request keeps the invariant, and the earlier requests
    and the property's status are unchanged.
   */
  lemma AppendRequestEffect(p: Property, r: RentRequest)
    requires StatusConsistent(p)
    requires r.status == Pending
    ensures AppendRequest(p, r).rentRequests[..|p.rentRequests|] == p.rentRequests
    ensures AppendRequest(p, r).rentRequests[|p.rentRequests|] == r
    ensures AppendRequest(p, r).status == p.status
    ensures StatusConsistent(AppendRequest(p, r))
  {
    var rs := p.rentRequests + [r];
    assert HasAccepted(rs) ==> HasAccepted(p.rentRequests) by {
      if HasAccepted(rs) {
        var k :| 0 <= k < |rs| && rs[k].status == Accepted;
        assert k < |p.rentRequests| && p.rentRequests[k] == rs[k];
      }
    }
    assert HasAccepted(p.rentRequests) ==> HasAccepted(rs) by {
      if HasAccepted(p.rentRequests) {
        var k :| 0 <= k < |p.rentRequests| && p.rentRequests[k].status == Accepted;
        assert rs[k] == p.rentRequests[k];
      }
    }
  }

  /**
    As written, rejecting the only accepted request un-accepts it and makes
    the property available again: reject does not insist on a pending request.
   */
  lemma RejectReleasesAccepted(p: Property, j: nat)
    requires j < |p.rentRequests|
    requires p.rentRequests[j].status == Accepted
    requires forall k :: 0 <= k < |p.rentRequests| && k != j ==> p.rentRequests[k].status != Accepted
    ensures RejectAt(p, j).rentRequests[j].status == Rejected
    ensures RejectAt(p, j).status == Available
  {
    RejectAtEffect(p, j);
  }

  /**
    As written, accepting a second request of a property that already has an
    accepted one leaves both accepted: accept neither checks for pending nor
    rejects the siblings.
   */
  lemma AcceptKeepsOtherAccepted(p: Property, j: nat, k: nat)
    requires j < |p.rentRequests| && k < |p.rentRequests| && j != k
    requires p.rentRequests[k].status == Accepted
    ensures AcceptAt(p, j).rentRequests[j].status == Accepted
    ensures AcceptAt(p, j).rentRequests[k].status == Accepted
  {
  }
}
