/**
  The handlers of routes/propertyRoutes.js over an in-memory property store.

  Each handler is one atomic step: it looks the property up by id, checks its
  errors in the handler's order, changes the loaded document and saves it.
  The caller is the identity the token middleware attaches to the request
  (`None` when there is no valid token); protected routes answer
  `Unauthenticated` for `None` before anything else.

  The store invariant `Valid()` holds after construction and after every
  handler, so every reachable store satisfies, for every property:
  - "not available" exactly when one of its requests is accepted;
  - viewsCount equals the number of distinct viewers recorded in viewedBy;
  - its rent requests have distinct ids, positive days and a requester.
 */
module PropertyRoutes {
  import opened Results
  import opened PropertySchema
  import opened Lifecycle
  import opened Listings

  /** The decoded token: the user's id and username. */
  datatype Identity = Identity(id: string, username: string)

  /** The body fields of a review. */
  datatype ReviewBody = ReviewBody(username: Option<string>, rating: Option<real>, comment: Option<string>)

  /** `Property.findById(id)`: the position of the property with that id, if any. */
  function FindProperty(ps: seq<Property>, id: PropertyId): (r: Option<nat>)
    ensures r.Some? ==> r.value < |ps| && ps[r.value].id == id
    ensures r.Some? ==> forall k :: 0 <= k < r.value ==> ps[k].id != id
    ensures r.None? ==> forall k :: 0 <= k < |ps| ==> ps[k].id != id
  {
    FindById(ps, (p: Property) => p.id, id)
  }

  /** The route's days check `!days || days < 1` fails. */
  predicate InvalidDays(days: Option<real>)
  {
    days.None? || days.value < 1.0
  }

  /** `userId && !property.viewedBy.includes(userId)`; an empty id is falsy. */
  predicate CountsView(p: Property, viewer: Option<Identity>)
  {
    viewer.Some? && viewer.value.id != "" && viewer.value.id !in p.viewedBy
  }

  /** What every stored property satisfies; `nextRequestId` bounds its request ids. */
  predicate StoredProperty(p: Property, nextRequestId: RequestId)
  {
    && StatusConsistent(p)
    && p.viewsCount == |p.viewedBy|
    && (forall a, b :: 0 <= a < b < |p.viewedBy| ==> p.viewedBy[a] != p.viewedBy[b])
    && (forall a, b :: 0 <= a < b < |p.rentRequests| ==> p.rentRequests[a].id != p.rentRequests[b].id)
    && (forall a :: 0 <= a < |p.rentRequests| ==>
          p.rentRequests[a].id < nextRequestId && p.rentRequests[a].days >= 1.0 && p.rentRequests[a].requester != "")
  }

  /** Changing the status of one request keeps every per-request fact but availability. */
  lemma StatusChangeKeepsRequests(p: Property, q: Property, j: nat, s: RequestStatus, bound: RequestId)
    requires StoredProperty(p, bound)
    requires OnlyStatusChanged(p.rentRequests, q.rentRequests, j, s)
    requires q.(rentRequests := p.rentRequests, status := p.status) == p
    requires StatusConsistent(q)
    ensures StoredProperty(q, bound)
  {
    assert q.viewedBy == p.viewedBy && q.viewsCount == p.viewsCount;
    forall a | 0 <= a < |q.rentRequests|
      ensures q.rentRequests[a].id == p.rentRequests[a].id
      ensures q.rentRequests[a].days == p.rentRequests[a].days
      ensures q.rentRequests[a].requester == p.rentRequests[a].requester
    {
    }
  }

  /** A pending request with a fresh id, positive days and a requester keeps a property stored. */
  lemma AppendKeepsStored(p: Property, r: RentRequest, bound: RequestId)
    requires StoredProperty(p, bound)
    requires r.id == bound && r.status == Pending && r.days >= 1.0 && r.requester != ""
    ensures StoredProperty(AppendRequest(p, r), bound + 1)
  {
    AppendRequestEffect(p, r);
    var rs := AppendRequest(p, r).rentRequests;
    forall a | 0 <= a < |rs|
      ensures rs[a].id < bound + 1 && rs[a].days >= 1.0 && rs[a].requester != ""
      ensures a < |rs| - 1 ==> rs[a].id < bound
    {
      if a < |rs| - 1 { assert rs[a] == p.rentRequests[a]; }
    }
  }

  class PropertyStore {
    /** The property collection, in store order. */
    var properties: seq<Property>
    /** The id the next added property receives. */
    var nextPropertyId: PropertyId
    /** The id the next appended rent request receives. */
    var nextRequestId: RequestId

    ghost predicate Valid()
      reads this
    {
      && (forall i, k :: 0 <= i < k < |properties| ==> properties[i].id != properties[k].id)
      && (forall i :: 0 <= i < |properties| ==>
            properties[i].id < nextPropertyId && StoredProperty(properties[i], nextRequestId))
    }

    constructor ()
      ensures Valid()
      ensures properties == [] && nextPropertyId == 0 && nextRequestId == 0
    {
      properties := [];
      nextPropertyId := 0;
      nextRequestId := 0;
    }

    /** Replaces the i-th property by q, which keeps the store invariant. */
    method Save(i: nat, q: Property)
      requires Valid()
      requires i < |properties| && q.id == properties[i].id
      requires StoredProperty(q, nextRequestId)
      modifies this
      ensures Valid()
      ensures properties == old(properties)[i := q]
      ensures nextPropertyId == old(nextPropertyId) && nextRequestId == old(nextRequestId)
    {
      properties := properties[i := q];
    }

    /**
      POST /add: a new property owned by the caller, with the uploaded image
      URLs, status "available" and no views; it is stored only when title,
      price and deposit are present.
     */
    method AddProperty(caller: Option<Identity>, fields: PropertyFields, imageUrls: seq<string>)
      returns (r: Result<Property>)
      requires Valid()
      modifies this
      ensures Valid()
      ensures nextRequestId == old(nextRequestId)
      ensures caller.None? ==> r == Err(Unauthenticated) && unchanged(this)
      ensures caller.Some? ==>
        var cast := CastProperty(fields, old(nextPropertyId), caller.value.username, imageUrls);
        if cast.None? then r == Err(SaveRejected) && unchanged(this)
        else
          && r == Ok(cast.value)
          && properties == old(properties) + [cast.value]
          && nextPropertyId == old(nextPropertyId) + 1
    {
      if caller.None? {
        return Err(Unauthenticated);
      }
      var cast := CastProperty(fields, nextPropertyId, caller.value.username, imageUrls);
      if cast.None? {
        return Err(SaveRejected);
      }
      var newProperty := cast.value;
      properties := properties + [newProperty];
      nextPropertyId := nextPropertyId + 1;
      r := Ok(newProperty);
    }

    /**
      GET /:id: the property; a logged-in viewer not yet in viewedBy is
      recorded and counted once, anyone else changes nothing.
     */
    method View(viewer: Option<Identity>, propertyId: PropertyId) returns (r: Result<Property>)
      requires Valid()
      modifies this
      ensures Valid()
      ensures nextPropertyId == old(nextPropertyId) && nextRequestId == old(nextRequestId)
      ensures FindProperty(old(properties), propertyId).None? ==> r == Err(NotFound) && unchanged(this)
      ensures FindProperty(old(properties), propertyId).Some? ==>
        var i := FindProperty(old(properties), propertyId).value;
        var p := old(properties)[i];
        && (CountsView(p, viewer) ==>
              properties == old(properties)[i := p.(viewsCount := p.viewsCount + 1, viewedBy := p.viewedBy + [viewer.value.id])])
        && (!CountsView(p, viewer) ==> properties == old(properties))
        && r == Ok(properties[i])
    {
      var found := FindProperty(properties, propertyId);
      if found.None? {
        return Err(NotFound);
      }
      var i := found.value;
      var property := properties[i];
      if CountsView(property, viewer) {
        property := property.(viewsCount := property.viewsCount + 1);
        property := property.(viewedBy := property.viewedBy + [viewer.value.id]);
        Save(i, property);
      }
      r := Ok(property);
    }

    /** POST /:id/review: appends the caller's review; the body fields are stored as given. */
    method AddReview(caller: Option<Identity>, propertyId: PropertyId, body: ReviewBody) returns (r: Result<Property>)
      requires Valid()
      modifies this
      ensures Valid()
      ensures nextPropertyId == old(nextPropertyId) && nextRequestId == old(nextRequestId)
      ensures caller.None? ==> r == Err(Unauthenticated) && unchanged(this)
      ensures caller.Some? && FindProperty(old(properties), propertyId).None? ==> r == Err(NotFound) && unchanged(this)
      ensures caller.Some? && FindProperty(old(properties), propertyId).Some? ==>
        var i := FindProperty(old(properties), propertyId).value;
        var p := old(properties)[i];
        var q := p.(reviews := p.reviews + [Review(caller.value.id, body.username, body.rating, body.comment)]);
        properties == old(properties)[i := q] && r == Ok(q)
    {
      if caller.None? {
        return Err(Unauthenticated);
      }
      var found := FindProperty(properties, propertyId);
      if found.None? {
        return Err(NotFound);
      }
      var i := found.value;
      var property := properties[i];
      property := property.(reviews := property.reviews + [Review(caller.value.id, body.username, body.rating, body.comment)]);
      Save(i, property);
      r := Ok(property);
    }

    /**
      POST /:id/rent-request: checks the property, then the days; appends a
      pending request by the caller at the end of the property's requests.
      A missing totalAmount fails validation on save and nothing is stored.
     */
    method CreateRequest(caller: Option<Identity>, propertyId: PropertyId, days: Option<real>,
                         totalAmount: Option<real>, now: Timestamp)
      returns (r: Result<RentRequest>)
      requires Valid()
      modifies this
      ensures Valid()
      ensures nextPropertyId == old(nextPropertyId)
      ensures caller.None? ==> r == Err(Unauthenticated) && unchanged(this)
      ensures caller.Some? && FindProperty(old(properties), propertyId).None? ==> r == Err(NotFound) && unchanged(this)
      ensures caller.Some? && FindProperty(old(properties), propertyId).Some? ==>
        var i := FindProperty(old(properties), propertyId).value;
        var p := old(properties)[i];
        var fields := RentRequestFields(Some(caller.value.username), days, totalAmount, Some("pending"), Some(now));
        var cast := CastRentRequest(fields, old(nextRequestId), now);
        if InvalidDays(days) then r == Err(InvalidInput) && unchanged(this)
        else if cast.None? then r == Err(SaveRejected) && unchanged(this)
        else
          && r == Ok(cast.value)
          && properties == old(properties)[i := AppendRequest(p, cast.value)]
          && nextRequestId == old(nextRequestId) + 1
    {
      if caller.None? {
        return Err(Unauthenticated);
      }
      var found := FindProperty(properties, propertyId);
      if found.None? {
        return Err(NotFound);
      }
      if InvalidDays(days) {
        return Err(InvalidInput);
      }
      var i := found.value;
      var fields := RentRequestFields(Some(caller.value.username), days, totalAmount, Some("pending"), Some(now));
      var cast := CastRentRequest(fields, nextRequestId, now);
      if cast.None? {
        return Err(SaveRejected);
      }
      var request := cast.value;
      var property := properties[i];
      AppendKeepsStored(property, request, nextRequestId);
      nextRequestId := nextRequestId + 1;
      assert Valid();
      property := AppendRequest(property, request);
      Save(i, property);
      r := Ok(request);
    }

    /**
      POST /:id/rent-request/:reqId/accept: owner only, checked before the
      request is looked up. The request becomes accepted whatever its status,
      and the property "not available".
     */
    method Accept(caller: Option<Identity>, propertyId: PropertyId, requestId: RequestId)
      returns (r: Result<RentRequest>)
      requires Valid()
      modifies this
      ensures Valid()
      ensures nextPropertyId == old(nextPropertyId) && nextRequestId == old(nextRequestId)
      ensures caller.None? ==> r == Err(Unauthenticated) && unchanged(this)
      ensures caller.Some? && FindProperty(old(properties), propertyId).None? ==> r == Err(NotFound) && unchanged(this)
      ensures caller.Some? && FindProperty(old(properties), propertyId).Some? ==>
        var i := FindProperty(old(properties), propertyId).value;
        var p := old(properties)[i];
        if p.ownerUserID != caller.value.username then r == Err(Forbidden) && unchanged(this)
        else if FindRequest(p.rentRequests, requestId).None? then r == Err(NotFound) && unchanged(this)
        else
          var j := FindRequest(p.rentRequests, requestId).value;
          && properties == old(properties)[i := AcceptAt(p, j)]
          && r == Ok(AcceptAt(p, j).rentRequests[j])
    {
      if caller.None? {
        return Err(Unauthenticated);
      }
      var found := FindProperty(properties, propertyId);
      if found.None? {
        return Err(NotFound);
      }
      var i := found.value;
      var property := properties[i];
      if property.ownerUserID != caller.value.username {
        return Err(Forbidden);
      }
      var located := FindRequest(property.rentRequests, requestId);
      if located.None? {
        return Err(NotFound);
      }
      var j := located.value;
      AcceptAtEffect(property, j);
      StatusChangeKeepsRequests(property, AcceptAt(property, j), j, Accepted, nextRequestId);
      property := AcceptAt(property, j);
      Save(i, property);
      r := Ok(property.rentRequests[j]);
    }

    /**
      POST /:id/rent-request/:reqId/reject: owner only, in the same order as
      accept. The request becomes rejected whatever its status, then
      availability is recomputed from all the requests.
     */
    method Reject(caller: Option<Identity>, propertyId: PropertyId, requestId: RequestId)
      returns (r: Result<RentRequest>)
      requires Valid()
      modifies this
      ensures Valid()
      ensures nextPropertyId == old(nextPropertyId) && nextRequestId == old(nextRequestId)
      ensures caller.None? ==> r == Err(Unauthenticated) && unchanged(this)
      ensures caller.Some? && FindProperty(old(properties), propertyId).None? ==> r == Err(NotFound) && unchanged(this)
      ensures caller.Some? && FindProperty(old(properties), propertyId).Some? ==>
        var i := FindProperty(old(properties), propertyId).value;
        var p := old(properties)[i];
        if p.ownerUserID != caller.value.username then r == Err(Forbidden) && unchanged(this)
        else if FindRequest(p.rentRequests, requestId).None? then r == Err(NotFound) && unchanged(this)
        else
          var j := FindRequest(p.rentRequests, requestId).value;
          && properties == old(properties)[i := RejectAt(p, j)]
          && r == Ok(RejectAt(p, j).rentRequests[j])
    {
      if caller.None? {
        return Err(Unauthenticated);
      }
      var found := FindProperty(properties, propertyId);
      if found.None? {
        return Err(NotFound);
      }
      var i := found.value;
      var property := properties[i];
      if property.ownerUserID != caller.value.username {
        return Err(Forbidden);
      }
      var located := FindRequest(property.rentRequests, requestId);
      if located.None? {
        return Err(NotFound);
      }
      var j := located.value;
      RejectAtEffect(property, j);
      StatusChangeKeepsRequests(property, RejectAt(property, j), j, Rejected, nextRequestId);
      property := RejectAt(property, j);
      Save(i, property);
      r := Ok(property.rentRequests[j]);
    }

    /**
      POST /:id/rent-request/:reqId/cancel: property, then request, then
      requester, then pending. Only a pending request of the caller becomes
      cancelled; availability is then recomputed from all the requests.
     */
    method Cancel(caller: Option<Identity>, propertyId: PropertyId, requestId: RequestId)
      returns (r: Result<RentRequest>)
      requires Valid()
      modifies this
      ensures Valid()
      ensures nextPropertyId == old(nextPropertyId) && nextRequestId == old(nextRequestId)
      ensures caller.None? ==> r == Err(Unauthenticated) && unchanged(this)
      ensures caller.Some? && FindProperty(old(properties), propertyId).None? ==> r == Err(NotFound) && unchanged(this)
      ensures caller.Some? && FindProperty(old(properties), propertyId).Some? ==>
        var i := FindProperty(old(properties), propertyId).value;
        var p := old(properties)[i];
        if FindRequest(p.rentRequests, requestId).None? then r == Err(NotFound) && unchanged(this)
        else
          var j := FindRequest(p.rentRequests, requestId).value;
          if p.rentRequests[j].requester != caller.value.username then r == Err(Forbidden) && unchanged(this)
          else if p.rentRequests[j].status != Pending then r == Err(NotPending) && unchanged(this)
          else
            && properties == old(properties)[i := CancelAt(p, j)]
            && CancelAt(p, j).status == p.status
            && r == Ok(CancelAt(p, j).rentRequests[j])
    {
      if caller.None? {
        return Err(Unauthenticated);
      }
      var found := FindProperty(properties, propertyId);
      if found.None? {
        return Err(NotFound);
      }
      var i := found.value;
      var property := properties[i];
      var located := FindRequest(property.rentRequests, requestId);
      if located.None? {
        return Err(NotFound);
      }
      var j := located.value;
      if property.rentRequests[j].requester != caller.value.username {
        return Err(Forbidden);
      }
      if property.rentRequests[j].status != Pending {
        return Err(NotPending);
      }
      CancelAtEffect(property, j);
      CancelPendingKeepsStatus(property, j);
      StatusChangeKeepsRequests(property, CancelAt(property, j), j, Cancelled, nextRequestId);
      property := CancelAt(property, j);
      Save(i, property);
      r := Ok(property.rentRequests[j]);
    }

    /** GET /owner/:username: only the user themself may list their properties. */
    method ListByOwner(caller: Option<Identity>, username: string) returns (r: Result<seq<Property>>)
      ensures caller.None? ==> r == Err(Unauthenticated)
      ensures caller.Some? && username != caller.value.username ==> r == Err(Forbidden)
      ensures caller.Some? && username == caller.value.username ==> r == Ok(OwnedBy(properties, username))
    {
      if caller.None? {
        return Err(Unauthenticated);
      }
      if username != caller.value.username {
        return Err(Forbidden);
      }
      r := Ok(OwnedBy(properties, caller.value.username));
    }

    /**
      GET /rent-requests/sent: runs the requester query, then collects, over
      the properties it returns, every request whose requester is the caller.
     */
    method ListSent(caller: Option<Identity>) returns (r: Result<seq<SentEntry>>)
      ensures caller.None? ==> r == Err(Unauthenticated)
      ensures caller.Some? ==> r == Ok(SentRequests(properties, caller.value.username))
    {
      if caller.None? {
        return Err(Unauthenticated);
      }
      var username := caller.value.username;
      var found := WithRequestBy(properties, username);
      var results: seq<SentEntry> := [];
      var i := 0;
      while i < |found|
        invariant 0 <= i <= |found|
        invariant results == SentRequests(found[..i], username)
      {
        var property := found[i];
        var requests := property.rentRequests;
        var j := 0;
        while j < |requests|
          invariant 0 <= j <= |requests|
          invariant results == SentRequests(found[..i], username) + SentFrom(property, requests[..j], username)
        {
          var request := requests[j];
          if request.requester == username {
            results := results + [SentEntryOf(property, request)];
          }
          assert requests[..j + 1][..j] == requests[..j];
          j := j + 1;
        }
        assert requests[..j] == requests;
        assert found[..i + 1][..i] == found[..i];
        i := i + 1;
      }
      assert found[..i] == found;
      SentRequestsIgnoresQuery(properties, username);
      r := Ok(results);
    }

    /**
      GET /rent-requests/received: runs the owner query, then collects every
      request of every property it returns.
     */
    method ListReceived(caller: Option<Identity>) returns (r: Result<seq<ReceivedEntry>>)
      ensures caller.None? ==> r == Err(Unauthenticated)
      ensures caller.Some? ==> r == Ok(ReceivedRequests(properties, caller.value.username))
    {
      if caller.None? {
        return Err(Unauthenticated);
      }
      var username := caller.value.username;
      var found := WithRequestsFor(properties, username);
      var results: seq<ReceivedEntry> := [];
      var i := 0;
      while i < |found|
        invariant 0 <= i <= |found|
        invariant results == ReceivedRequests(found[..i], username)
      {
        var property := found[i];
        assert property in found;
        var requests := property.rentRequests;
        var j := 0;
        while j < |requests|
          invariant 0 <= j <= |requests|
          invariant results == ReceivedRequests(found[..i], username) + ReceivedFrom(property, requests[..j])
        {
          results := results + [ReceivedEntryOf(property, requests[j])];
          assert requests[..j + 1][..j] == requests[..j];
          j := j + 1;
        }
        assert requests[..j] == requests;
        assert found[..i + 1][..i] == found[..i];
        i := i + 1;
      }
      assert found[..i] == found;
      ReceivedRequestsIgnoresQuery(properties, username);
      r := Ok(results);
    }
  }
}
