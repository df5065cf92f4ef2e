# RentopPedia property routes: a verified model of the rent-request lifecycle

RentopPedia is a property-rental marketplace backend. An owner lists a
property; other users send rent requests against it; the owner accepts or
rejects a request, and the requester may cancel a request while it is
pending. The rent requests are embedded, in order, in the Property document
that owns them, and the property's `status` ("available" / "not available")
is derived from them.

This project models, in Dafny:

- `results.dfy` (module `Results`): `Option`, `Result` and the handlers'
  failure responses (`Unauthenticated` 401, `NotFound` 404, `Forbidden` 403,
  `InvalidInput` 400 "Invalid days", `NotPending` 400 "Only pending requests
  can be cancelled", `SaveRejected` 500 from a schema validation error).
- `property_schema.dfy` (module `PropertySchema`, from `models/Property.js`):
  the Property and RentRequest documents, the status enum with its string
  names, and the validation Mongoose performs on save (required fields,
  enum membership, defaults).
- `lifecycle.dfy` (module `Lifecycle`): what accept, reject, cancel and
  create-request do to one loaded property, the `some(r => r.status ===
  "accepted")` availability check, the embedded-request lookup, and lemmas on
  the availability invariant.
- `listings.dfy` (module `Listings`): the sent, received and by-owner
  listings as functions of the stored properties, with lemmas on what they
  contain, their order, and why the handlers' store queries may narrow the
  properties first.
- `property_routes.dfy` (module `PropertyRoutes`): a `PropertyStore` class
  holding the property collection, with one method per handler of
  `routes/propertyRoutes.js`. Each method checks its errors in the handler's
  order, changes the loaded property and saves it. The class invariant
  `Valid()` holds after construction and after every method, so it holds in
  every reachable store. It says that every property is "not available"
  exactly when one of its requests is accepted, that `viewsCount ==
  |viewedBy|` with no viewer recorded twice, and that request ids are
  distinct, days are at least 1 and every request has a requester.
- `scenarios.dfy` (module `Scenarios`): client methods that drive the store
  through a request/accept/reject/cancel story and check the answers using
  only the methods' contracts.

What the code does, and so what the model does, where a stricter lifecycle
might be expected:

- Accept and reject do not check that the request is pending. An accepted,
  rejected or cancelled request can be accepted or rejected again.
  Rejecting the only accepted request makes the property available again
  (`Lifecycle.RejectReleasesAccepted`). Only cancel demands a pending request.
- Accept does not reject the other pending requests, and it does not refuse
  a second acceptance. Two requests of one property can both be accepted
  (`Lifecycle.AcceptKeepsOtherAccepted`). The invariant is therefore "some
  request is accepted", not "exactly one".
- The route's days check is `!days || days < 1`, so 1.5 days is accepted.
  Days are modelled as a real number, not as a positive integer.
- The create handler does not check `totalAmount`. A request without it
  fails the schema's `required` check on save, and nothing is stored.

## Model

| member | source | states |
|---|---|---|
| `PropertySchema.FindById` | routes/propertyRoutes.js:190-198 | finds the first element with the given id, or reports that no element has it |
| `PropertySchema.ParseStatus` | models/Property.js:7 | a string is accepted as a request status exactly when it is the name of one of pending, accepted, rejected, cancelled, and then it is that status |
| `PropertySchema.ParseStatusName` | models/Property.js:7 | every status read back from its stored name is itself |
| `PropertySchema.CastRentRequest` | models/Property.js:3-9 | a rent request saves exactly when requester (non-empty), days and totalAmount are present and any given status is in the enum; the saved request keeps the given fields, its status defaults to pending and createdAt to the save time |
| `PropertySchema.CastProperty` | models/Property.js:11-35 | a property saves exactly when title (non-empty), price and deposit are present; a new property is available, has viewsCount 0, no viewers, no reviews and an empty request list |
| `Lifecycle.HasAccepted` | routes/propertyRoutes.js:235 | true exactly when some request of the list has status accepted |
| `Lifecycle.FindRequest` | routes/propertyRoutes.js:197-198 | finds the first embedded request with the given id, or reports that no request has it |
| `Lifecycle.HasAcceptedAfterSet` | routes/propertyRoutes.js:232-236 | after one request's status becomes s, some request is accepted exactly when s is accepted or another request already was |
| `Lifecycle.AcceptAtEffect` | routes/propertyRoutes.js:200-201 | accept makes the request accepted whatever its previous status, leaves every other request and field alone, and leaves the property "not available", which satisfies the availability invariant |
| `Lifecycle.RejectAtEffect` | routes/propertyRoutes.js:232-236 | reject makes the request rejected whatever its previous status; the property is then "not available" exactly when another request is accepted |
| `Lifecycle.CancelAtEffect` | routes/propertyRoutes.js:330-333 | cancel makes the request cancelled; the property is then "not available" exactly when another request is accepted |
| `Lifecycle.CancelPendingKeepsStatus` | routes/propertyRoutes.js:326-333 | cancelling a pending request of a consistent property never changes its availability |
| `Lifecycle.AppendRequestEffect` | routes/propertyRoutes.js:156-166 | appending a pending request puts it last, keeps the earlier requests and the property status, and preserves the availability invariant |
| `Lifecycle.RejectReleasesAccepted` | routes/propertyRoutes.js:229-236 | rejecting the only accepted request un-accepts it and makes the property available |
| `Lifecycle.AcceptKeepsOtherAccepted` | routes/propertyRoutes.js:197-201 | accepting a request leaves an already accepted sibling accepted, so two accepted requests can coexist |
| `Listings.WithRequestBy` | routes/propertyRoutes.js:259 | the sent query returns exactly the properties that hold a request by the user |
| `Listings.SentFromMembers` | routes/propertyRoutes.js:263-275 | one property's sent entries are exactly its requests whose requester is the user |
| `Listings.SentRequestsMembers` | routes/propertyRoutes.js:261-277 | the sent listing holds exactly the entries of requests, across all properties, whose requester is the user |
| `Listings.SentRequestsAppend` | routes/propertyRoutes.js:262-277 | the sent listing follows property order: listing two runs of properties is listing each and concatenating |
| `Listings.SentRequestsIgnoresQuery` | routes/propertyRoutes.js:259-277 | narrowing the properties by the requester query first leaves the sent listing unchanged |
| `Listings.WithRequestsFor` | routes/propertyRoutes.js:289 | the received query returns exactly the user's properties with a non-empty request list |
| `Listings.ReceivedFromMembers` | routes/propertyRoutes.js:293-304 | one property's received entries are one per request, exactly its requests |
| `Listings.ReceivedRequestsMembers` | routes/propertyRoutes.js:291-305 | the received listing holds exactly the entries of the requests of properties the user owns |
| `Listings.ReceivedRequestsIgnoresQuery` | routes/propertyRoutes.js:289-305 | narrowing the properties by the owner query first leaves the received listing unchanged |
| `Listings.OwnedBy` | routes/propertyRoutes.js:140 | the owner query returns exactly the properties whose owner is the user |
| `PropertyRoutes.FindProperty` | routes/propertyRoutes.js:190-191 | finds the property with the given id, or reports that none has it |
| `PropertyRoutes.AppendKeepsStored` | routes/propertyRoutes.js:156-166 | a pending request with a fresh id, days at least 1 and a requester keeps a property within the store invariant |
| `PropertyRoutes.PropertyStore.AddProperty` | routes/propertyRoutes.js:83-128 | unauthenticated, or a missing title, price or deposit, stores nothing; otherwise the caller's new available property with a fresh id is appended |
| `PropertyRoutes.PropertyStore.View` | routes/propertyRoutes.js:25-48 | an unknown id is not found; a logged-in viewer not yet in viewedBy is appended and counted once, anyone else changes nothing; the store invariant keeps viewsCount equal to the number of distinct viewers |
| `PropertyRoutes.PropertyStore.AddReview` | routes/propertyRoutes.js:51-69 | unauthenticated or unknown property changes nothing; otherwise exactly one review with the caller's id is appended |
| `PropertyRoutes.PropertyStore.CreateRequest` | routes/propertyRoutes.js:146-184 | checks caller, property, then days; a missing totalAmount is rejected on save; on success exactly one pending request by the caller with a fresh id is appended, nothing else changes, and the invariant is kept |
| `PropertyRoutes.PropertyStore.Accept` | routes/propertyRoutes.js:188-217 | checks caller, property, owner, then request, changing nothing on failure; on success only that request becomes accepted and the property "not available" |
| `PropertyRoutes.PropertyStore.Reject` | routes/propertyRoutes.js:220-253 | same check order as accept; on success only that request becomes rejected and availability is recomputed from all requests |
| `PropertyRoutes.PropertyStore.Cancel` | routes/propertyRoutes.js:314-349 | checks caller, property, request, requester, then pending, changing nothing on failure; only a pending request becomes cancelled and the property's availability stays as it was |
| `PropertyRoutes.PropertyStore.ListByOwner` | routes/propertyRoutes.js:133-143 | forbidden unless the path user is the caller; otherwise exactly the caller's properties |
| `PropertyRoutes.PropertyStore.ListSent` | routes/propertyRoutes.js:256-283 | the nested loops over the queried properties return exactly the sent listing of the caller over the whole store |
| `PropertyRoutes.PropertyStore.ListReceived` | routes/propertyRoutes.js:286-311 | the nested loops over the queried properties return exactly the received listing of the caller over the whole store |

## Left out

- Image upload: the Cloudinary upload loop and multer storage (routes/propertyRoutes.js:71-103) call a foreign network service. The uploaded URLs are an input of `AddProperty`.
- Token verification: `middleware/authMiddleware.js` and `middleware/optionalAuth.js` verify a JWT with a crypto library. The decoded identity is an `Option<Identity>` parameter; `None` stands for a missing or invalid token.
- `routes/authRoutes.js`, `routes/userRoutes.js`, `server.js`, `models/User.js` and `models/DeletedUser.js` are not part of this model. They hold password hashing, token signing, cookies, account deletion and server wiring around single store calls.
- `models/rentRequestSchema.js` is not part of this model. No route uses that separate RentRequest model.
- GET /all returns every stored property unchanged; it has no logic of its own.
- Store failures are modelled only where schema validation refuses a missing or empty required field or a status outside the enum. Not modelled are connection errors, a malformed property id, for which `findById` throws a cast error and the handler answers 500. The numeric body fields (`days` and `totalAmount` of `CreateRequest`, `price` and `deposit` of `AddProperty`, `rating` of `AddReview`) are the values after Mongoose's number cast: a numeric string such as "3" passes the days check and is stored as its number. A value the cast refuses, such as `price: "abc"` or `rating: "great"`, fails the save with a 500 in `CreateRequest`, `AddProperty` and `AddReview`; the model does not represent such inputs, so `AddReview` has no failure after `NotFound` and `AddProperty` fails only on a missing title, price or deposit. A request id that cannot be cast is not found by `.id()`, which the model answers with `NotFound` like any unknown id. Ids are natural numbers handed out by the store's counters.
- Concurrency is not modelled. Each handler is one atomic read-modify-save step, so the race between two concurrent accepts on one property does not arise.
- Timestamps: `new Date()` is the `now` parameter of `CreateRequest`.
- HTTP status codes, response messages and the JSON shapes of the responses are mapped to `Result` values. The socket notifications are commented out in the source and are not modelled.
- The schema declares `Property.status` as an unconstrained string. The model gives it only the two values the routes write, "available" and "not available".
- JavaScript numbers are modelled as reals (no NaN, no infinities, no rounding), and `viewsCount` as a natural number.
