/**
  Clients of the store: one property of alice's, requests by bob and carol,
  and the answers the handlers give, derived from their contracts alone.
 */
module Scenarios {
  import opened Results
  import opened PropertySchema
  import opened PropertyRoutes

  const alice := Identity("u-alice", "alice")
  const bob := Identity("u-bob", "bob")
  const carol := Identity("u-carol", "carol")
  const dave := Identity("u-dave", "dave")
  const noDetails := PropertyDetails(None, None, None, None, None, None)

  /** A store holding alice's flat (id 0) with bob's pending three-day request (id 0). */
  method FlatWithRequest() returns (store: PropertyStore)
    ensures fresh(store) && store.Valid()
    ensures |store.properties| == 1 && store.properties[0].id == 0
    ensures store.properties[0].ownerUserID == "alice"
    ensures store.properties[0].rentRequests == [RentRequest(0, "bob", 3.0, 300.0, Pending, 10)]
    ensures store.properties[0].status == Available
    ensures store.properties[0].viewsCount == 0 && store.properties[0].viewedBy == []
    ensures store.nextRequestId == 1
  {
    store := new PropertyStore();
    var added := store.AddProperty(Some(alice), PropertyFields(Some("Flat"), Some(1000.0), Some(500.0), noDetails), []);
    assert added.Ok? && added.value.id == 0;
    var r1 := store.CreateRequest(Some(bob), 0, Some(3.0), Some(300.0), 10);
    assert r1 == Ok(RentRequest(0, "bob", 3.0, 300.0, Pending, 10));
  }

  method CreateScenario()
  {
    var store := new PropertyStore();
    var untitled := store.AddProperty(Some(alice), PropertyFields(Some(""), Some(1.0), Some(1.0), noDetails), []);
    assert untitled == Err(SaveRejected) && store.properties == [];

    store := FlatWithRequest();
    var zeroDays := store.CreateRequest(Some(carol), 0, Some(0.0), Some(10.0), 11);
    assert zeroDays == Err(InvalidInput);
    var noAmount := store.CreateRequest(Some(carol), 0, Some(2.0), None, 11);
    assert noAmount == Err(SaveRejected);
    var noProperty := store.CreateRequest(Some(carol), 7, None, None, 11);
    assert noProperty == Err(NotFound);
  }

  method AcceptErrorsScenario()
  {
    var store := FlatWithRequest();
    // only the owner may accept, and the owner check comes before the request lookup
    var anonymous := store.Accept(None, 0, 0);
    assert anonymous == Err(Unauthenticated);
    var notOwner := store.Accept(Some(dave), 0, 99);
    assert notOwner == Err(Forbidden);
    var noRequest := store.Accept(Some(alice), 0, 99);
    assert noRequest == Err(NotFound);
  }

  method AcceptRejectScenario()
  {
    var store := FlatWithRequest();
    var accepted := store.Accept(Some(alice), 0, 0);
    assert accepted.Ok? && accepted.value.status == Accepted;
    assert store.properties[0].status == NotAvailable;

    // carol's request is rejected; bob's acceptance keeps the property unavailable
    var r2 := store.CreateRequest(Some(carol), 0, Some(2.0), Some(150.0), 12);
    assert r2.Ok? && r2.value.id == 1;
    assert store.properties[0].rentRequests[1] == r2.value;
    var rejected := store.Reject(Some(alice), 0, 1);
    assert rejected.Ok? && rejected.value.status == Rejected;
    assert store.properties[0].status == NotAvailable;
  }

  method CancelScenario()
  {
    var store := FlatWithRequest();
    var accepted := store.Accept(Some(alice), 0, 0);
    assert accepted.Ok?;
    // bob can no longer cancel his accepted request; carol cannot cancel bob's
    var stranger := store.Cancel(Some(carol), 0, 0);
    assert stranger == Err(Forbidden);
    var late := store.Cancel(Some(bob), 0, 0);
    assert late == Err(NotPending);
    // alice can still reject the accepted request, which frees the property
    var undone := store.Reject(Some(alice), 0, 0);
    assert undone.Ok? && undone.value.status == Rejected;
    assert store.properties[0].status == Available;

    store := FlatWithRequest();
    var cancelled := store.Cancel(Some(bob), 0, 0);
    assert cancelled.Ok? && cancelled.value.status == Cancelled;
    assert store.properties[0].status == Available;
  }

  method ViewScenario()
  {
    var store := FlatWithRequest();
    var seen := store.View(Some(bob), 0);
    assert seen.Ok? && seen.value.viewsCount == 1;
    seen := store.View(Some(bob), 0);
    assert seen.Ok? && seen.value.viewsCount == 1;
    seen := store.View(None, 0);
    assert seen.Ok? && seen.value.viewsCount == 1;
  }
}
