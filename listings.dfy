/**
  What the three listing routes of routes/propertyRoutes.js return, as
  functions of the stored properties:

  - sent requests: every request whose requester is the caller, annotated with
    its property, in property order and then request order;
  - received requests: every request of every property the caller owns;
  - properties by owner: the properties whose owner is the given user.

  The sent and received handlers first run a store query that narrows the
  properties and then loop over what it returns; the lemmas here show that the
  narrowing drops only properties that would contribute nothing.
 */
module Listings {
  import opened PropertySchema

  /** One element of the sent listing. */
  datatype SentEntry = SentEntry(
    propertyId: PropertyId,
    propertyTitle: string,
    ownerUsername: string,
    requestId: RequestId,
    days: real,
    totalAmount: real,
    status: RequestStatus,
    createdAt: Timestamp)

  /** One element of the received listing. */
  datatype ReceivedEntry = ReceivedEntry(
    propertyId: PropertyId,
    propertyTitle: string,
    requester: string,
    requestId: RequestId,
    days: real,
    totalAmount: real,
    status: RequestStatus,
    createdAt: Timestamp)

  function SentEntryOf(p: Property, r: RentRequest): SentEntry
  {
    SentEntry(p.id, p.title, p.ownerUserID, r.id, r.days, r.totalAmount, r.status, r.createdAt)
  }

  function ReceivedEntryOf(p: Property, r: RentRequest): ReceivedEntry
  {
    ReceivedEntry(p.id, p.title, r.requester, r.id, r.days, r.totalAmount, r.status, r.createdAt)
  }

  // ---------------------------------------------------------------------------
  // Sent requests

  /** The entries for the requests in rs (of property p) whose requester is u, in order. */
  function SentFrom(p: Property, rs: seq<RentRequest>, u: string): seq<SentEntry>
  {
    if rs == [] then []
    else
      var last := rs[|rs| - 1];
      SentFrom(p, rs[..|rs| - 1], u) + (if last.requester == u then [SentEntryOf(p, last)] else [])
  }

  /** The sent listing of user u over the properties ps. */
  function SentRequests(ps: seq<Property>, u: string): seq<SentEntry>
  {
    if ps == [] then []
    else
      var last := ps[|ps| - 1];
      SentRequests(ps[..|ps| - 1], u) + SentFrom(last, last.rentRequests, u)
  }

  /** The store query `{"rentRequests.requester": u}`: some embedded request is by u. */
  predicate HasRequestBy(p: Property, u: string)
  {
    exists k :: 0 <= k < |p.rentRequests| && p.rentRequests[k].requester == u
  }

  /** The properties the sent handler's query returns, in store order. */
  function WithRequestBy(ps: seq<Property>, u: string): (r: seq<Property>)
    ensures forall p :: p in r <==> p in ps && HasRequestBy(p, u)
  {
    if ps == [] then []
    else
      var last := ps[|ps| - 1];
      assert ps == ps[..|ps| - 1] + [last];
      WithRequestBy(ps[..|ps| - 1], u) + (if HasRequestBy(last, u) then [last] else [])
  }

  lemma {:induction false} SentFromMembers(p: Property, rs: seq<RentRequest>, u: string, e: SentEntry)
    ensures e in SentFrom(p, rs, u) <==>
      exists k :: 0 <= k < |rs| && rs[k].requester == u && e == SentEntryOf(p, rs[k])
  {
    if rs != [] {
      var n := |rs| - 1;
      SentFromMembers(p, rs[..n], u, e);
      assert forall k :: 0 <= k < n ==> rs[..n][k] == rs[k];
    }
  }

  /**
    An entry is in the sent listing exactly when it describes a request, of
    one of the properties, whose requester is u.
   */
  lemma {:induction false} SentRequestsMembers(ps: seq<Property>, u: string, e: SentEntry)
    ensures e in SentRequests(ps, u) <==>
      exists i, k :: 0 <= i < |ps| && 0 <= k < |ps[i].rentRequests|
        && ps[i].rentRequests[k].requester == u && e == SentEntryOf(ps[i], ps[i].rentRequests[k])
  {
    if ps != [] {
      var n := |ps| - 1;
      SentRequestsMembers(ps[..n], u, e);
      SentFromMembers(ps[n], ps[n].rentRequests, u, e);
      assert forall i :: 0 <= i < n ==> ps[..n][i] == ps[i];
    }
  }

  /** The listing follows property order: a split of the properties splits the listing. */
  lemma {:induction false} SentRequestsAppend(ps: seq<Property>, qs: seq<Property>, u: string)
    ensures SentRequests(ps + qs, u) == SentRequests(ps, u) + SentRequests(qs, u)
  {
    if qs == [] {
      assert ps + qs == ps;
    } else {
      var n := |qs| - 1;
      var pq := ps + qs;
      var tail := SentFrom(qs[n], qs[n].rentRequests, u);
      assert pq[..|pq| - 1] == ps + qs[..n];
      assert pq[|pq| - 1] == qs[n];
      calc {
        SentRequests(pq, u);
        SentRequests(ps + qs[..n], u) + tail;
        { SentRequestsAppend(ps, qs[..n], u); }
        (SentRequests(ps, u) + SentRequests(qs[..n], u)) + tail;
        SentRequests(ps, u) + (SentRequests(qs[..n], u) + tail);
        SentRequests(ps, u) + SentRequests(qs, u);
      }
    }
  }

  lemma {:induction false} SentFromNone(p: Property, rs: seq<RentRequest>, u: string)
    requires forall k :: 0 <= k < |rs| ==> rs[k].requester != u
    ensures SentFrom(p, rs, u) == []
  {
    if rs != [] {
      SentFromNone(p, rs[..|rs| - 1], u);
    }
  }

  /** Narrowing by the store query first does not change the sent listing. */
  lemma {:induction false} SentRequestsIgnoresQuery(ps: seq<Property>, u: string)
    ensures SentRequests(WithRequestBy(ps, u), u) == SentRequests(ps, u)
  {
    if ps != [] {
      var n := |ps| - 1;
      var last := ps[n];
      var before := WithRequestBy(ps[..n], u);
      SentRequestsIgnoresQuery(ps[..n], u);
      assert SentRequests(ps, u) == SentRequests(ps[..n], u) + SentFrom(last, last.rentRequests, u);
      if HasRequestBy(last, u) {
        assert WithRequestBy(ps, u) == before + [last];
        SentRequestsAppend(before, [last], u);
        assert [last][..0] == [];
      } else {
        assert WithRequestBy(ps, u) == before + [];
        assert before + [] == before;
        SentFromNone(last, last.rentRequests, u);
      }
    }
  }

  // ---------------------------------------------------------------------------
  // Received requests

  /** The entries for all the requests rs of property p, in order. */
  function ReceivedFrom(p: Property, rs: seq<RentRequest>): seq<ReceivedEntry>
  {
    if rs == [] then []
    else ReceivedFrom(p, rs[..|rs| - 1]) + [ReceivedEntryOf(p, rs[|rs| - 1])]
  }

  /** The received listing of owner u over the properties ps. */
  function ReceivedRequests(ps: seq<Property>, u: string): seq<ReceivedEntry>
  {
    if ps == [] then []
    else
      var last := ps[|ps| - 1];
      ReceivedRequests(ps[..|ps| - 1], u) + (if last.ownerUserID == u then ReceivedFrom(last, last.rentRequests) else [])
  }

  /** The store query `{ownerUserID: u, rentRequests: {$exists: true, $ne: []}}`. */
  predicate ReceivesRequests(p: Property, u: string)
  {
    p.ownerUserID == u && p.rentRequests != []
  }

  /** The properties the received handler's query returns, in store order. */
  function WithRequestsFor(ps: seq<Property>, u: string): (r: seq<Property>)
    ensures forall p :: p in r <==> p in ps && ReceivesRequests(p, u)
  {
    if ps == [] then []
    else
      var last := ps[|ps| - 1];
      assert ps == ps[..|ps| - 1] + [last];
      WithRequestsFor(ps[..|ps| - 1], u) + (if ReceivesRequests(last, u) then [last] else [])
  }

  lemma {:induction false} ReceivedFromMembers(p: Property, rs: seq<RentRequest>, e: ReceivedEntry)
    ensures |ReceivedFrom(p, rs)| == |rs|
    ensures e in ReceivedFrom(p, rs) <==> exists k :: 0 <= k < |rs| && e == ReceivedEntryOf(p, rs[k])
  {
    if rs != [] {
      var n := |rs| - 1;
      ReceivedFromMembers(p, rs[..n], e);
      assert forall k :: 0 <= k < n ==> rs[..n][k] == rs[k];
    }
  }

  /**
    An entry is in the received listing exactly when it describes a request
    of one of the properties that u owns.
   */
  lemma {:induction false} ReceivedRequestsMembers(ps: seq<Property>, u: string, e: ReceivedEntry)
    ensures e in ReceivedRequests(ps, u) <==>
      exists i, k :: 0 <= i < |ps| && 0 <= k < |ps[i].rentRequests|
        && ps[i].ownerUserID == u && e == ReceivedEntryOf(ps[i], ps[i].rentRequests[k])
  {
    if ps != [] {
      var n := |ps| - 1;
      ReceivedRequestsMembers(ps[..n], u, e);
      ReceivedFromMembers(ps[n], ps[n].rentRequests, e);
      assert forall i :: 0 <= i < n ==> ps[..n][i] == ps[i];
    }
  }

  /** Narrowing by the store query first does not change the received listing. */
  lemma {:induction false} ReceivedRequestsIgnoresQuery(ps: seq<Property>, u: string)
    ensures ReceivedRequests(WithRequestsFor(ps, u), u) == ReceivedRequests(ps, u)
  {
    if ps != [] {
      var n := |ps| - 1;
      var last := ps[n];
      ReceivedRequestsIgnoresQuery(ps[..n], u);
      var found := WithRequestsFor(ps, u);
      if ReceivesRequests(last, u) {
        assert found[..|found| - 1] == WithRequestsFor(ps[..n], u);
      } else {
        assert found == WithRequestsFor(ps[..n], u) + [];
        assert found == WithRequestsFor(ps[..n], u);
        assert last.ownerUserID == u ==> last.rentRequests == [];
        assert ReceivedRequests(ps, u) == ReceivedRequests(ps[..n], u) + [];
      }
    }
  }

  // ---------------------------------------------------------------------------
  // Properties by owner

  /** The store query `{ownerUserID: u}`, in store order. */
  function OwnedBy(ps: seq<Property>, u: string): (r: seq<Property>)
    ensures forall p :: p in r <==> p in ps && p.ownerUserID == u
  {
    if ps == [] then []
    else
      var last := ps[|ps| - 1];
      assert ps == ps[..|ps| - 1] + [last];
      OwnedBy(ps[..|ps| - 1], u) + (if last.ownerUserID == u then [last] else [])
  }
}
