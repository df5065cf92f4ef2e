/**
  The Property document and its embedded rent requests, as the Mongoose schema
  in models/Property.js declares them: the request status enum and its default,
  the required fields, the defaults of a new property, and the ordered list of
  rent requests that a property owns.

  Mongoose validates a document when it is saved. `CastRentRequest` and
  `CastProperty` model that step: they return `None` exactly when the save
  would fail with a validation error, and otherwise the stored value with the
  schema's defaults filled in.
 */
module PropertySchema {
  import opened Results

  type PropertyId = nat
  type RequestId = nat
  /** A `Date`, as milliseconds since the epoch; the model never inspects it. */
  type Timestamp = nat

  /**
    The position of the first element of xs whose id is `id`, or None when no
    element has it: the lookup behind both `Property.findById` and the
    embedded `rentRequests.id()`.
   */
  function FindById<T>(xs: seq<T>, idOf: T -> nat, id: nat): (r: Option<nat>)
    ensures r.Some? ==> r.value < |xs| && idOf(xs[r.value]) == id
    ensures r.Some? ==> forall k :: 0 <= k < r.value ==> idOf(xs[k]) != id
    ensures r.None? ==> forall k :: 0 <= k < |xs| ==> idOf(xs[k]) != id
  {
    if xs == [] then None
    else if idOf(xs[0]) == id then Some(0)
    else
      match FindById(xs[1..], idOf, id)
      case None =>
        assert forall k :: 1 <= k < |xs| ==> xs[k] == xs[1..][k - 1];
        None
      case Some(k) =>
        assert forall m :: 1 <= m < |xs| ==> xs[m] == xs[1..][m - 1];
        Some(k + 1)
  }

  /** The `enum` of `RentRequestSchema.status`. */
  datatype RequestStatus = Pending | Accepted | Rejected | Cancelled

  /** The string the store holds for each status. */
  function StatusName(s: RequestStatus): string
  {
    match s
    case Pending => "pending"
    case Accepted => "accepted"
    case Rejected => "rejected"
    case Cancelled => "cancelled"
  }

  /** The enum validator: a string is a status exactly when it names one. */
  function ParseStatus(name: string): (s: Option<RequestStatus>)
    ensures s.Some? ==> StatusName(s.value) == name
    ensures s.None? ==> forall t :: StatusName(t) != name
  {
    if name == "pending" then Some(Pending)
    else if name == "accepted" then Some(Accepted)
    else if name == "rejected" then Some(Rejected)
    else if name == "cancelled" then Some(Cancelled)
    else None
  }

  lemma ParseStatusName(s: RequestStatus)
    ensures ParseStatus(StatusName(s)) == Some(s)
  {
  }

  /**
    The two values the routes ever write into `Property.status` ("available"
    and "not available"); the schema itself declares a plain string.
   */
  datatype Availability = Available | NotAvailable

  /** One embedded element of `Property.rentRequests`; `id` is its `_id`. */
  datatype RentRequest = RentRequest(
    id: RequestId,
    requester: string,
    days: real,
    totalAmount: real,
    status: RequestStatus,
    createdAt: Timestamp)

  /** One element of `Property.reviews`; the schema requires none of its fields. */
  datatype Review = Review(
    userId: string,
    username: Option<string>,
    rating: Option<real>,
    comment: Option<string>)

  /** The optional descriptive strings of a property. */
  datatype PropertyDetails = PropertyDetails(
    category: Option<string>,
    subCategory: Option<string>,
    description: Option<string>,
    location: Option<string>,
    rentType: Option<string>,
    condition: Option<string>)

  datatype Property = Property(
    id: PropertyId,
    title: string,
    price: real,
    deposit: real,
    details: PropertyDetails,
    images: seq<string>,
    ownerUserID: string,
    status: Availability,
    viewsCount: nat,
    viewedBy: seq<string>,
    reviews: seq<Review>,
    rentRequests: seq<RentRequest>)

  /** A rent request as handed to Mongoose, before validation: any field may be absent. */
  datatype RentRequestFields = RentRequestFields(
    requester: Option<string>,
    days: Option<real>,
    totalAmount: Option<real>,
    status: Option<string>,
    createdAt: Option<Timestamp>)

  /** A property as handed to Mongoose by the add route, before validation. */
  datatype PropertyFields = PropertyFields(
    title: Option<string>,
    price: Option<real>,
    deposit: Option<real>,
    details: PropertyDetails)

  /** Mongoose's `required` check for a String path: present and non-empty. */
  predicate RequiredString(v: Option<string>)
  {
    v.Some? && v.value != ""
  }

  /** Mongoose's `required` check for a Number path: present. */
  predicate RequiredNumber(v: Option<real>)
  {
    v.Some?
  }

  /**
    Validation of one rent request on save: requester, days and totalAmount are
    required, the status must be one of the enum's names and defaults to
    pending, and createdAt defaults to the time of the save.
   */
  function CastRentRequest(f: RentRequestFields, id: RequestId, now: Timestamp): (r: Option<RentRequest>)
    ensures r.Some? <==>
      && RequiredString(f.requester)
      && RequiredNumber(f.days)
      && RequiredNumber(f.totalAmount)
      && (f.status.None? || ParseStatus(f.status.value).Some?)
    ensures r.Some? ==>
      && r.value.id == id
      && f.requester == Some(r.value.requester)
      && f.days == Some(r.value.days)
      && f.totalAmount == Some(r.value.totalAmount)
      && (f.status.None? ==> r.value.status == Pending)
      && (f.status.Some? ==> StatusName(r.value.status) == f.status.value)
      && r.value.createdAt == (if f.createdAt.Some? then f.createdAt.value else now)
  {
    if !RequiredString(f.requester) || !RequiredNumber(f.days) || !RequiredNumber(f.totalAmount) then None
    else
      var status := if f.status.None? then Some(Pending) else ParseStatus(f.status.value);
      if status.None? then None
      else
        Some(RentRequest(
          id, f.requester.value, f.days.value, f.totalAmount.value, status.value,
          if f.createdAt.Some? then f.createdAt.value else now))
  }

  /**
    Validation of a new property on save: title, price and deposit are
    required; a new property is available, has no views, no reviews and no
    rent requests.
   */
  function CastProperty(f: PropertyFields, id: PropertyId, owner: string, images: seq<string>): (r: Option<Property>)
    ensures r.Some? <==> RequiredString(f.title) && RequiredNumber(f.price) && RequiredNumber(f.deposit)
    ensures r.Some? ==>
      && r.value.id == id
      && f.title == Some(r.value.title)
      && f.price == Some(r.value.price)
      && f.deposit == Some(r.value.deposit)
      && r.value.details == f.details
      && r.value.images == images
      && r.value.ownerUserID == owner
      && r.value.status == Available
      && r.value.viewsCount == 0
      && r.value.viewedBy == []
      && r.value.reviews == []
      && r.value.rentRequests == []
  {
    if !RequiredString(f.title) || !RequiredNumber(f.price) || !RequiredNumber(f.deposit) then None
    else
      Some(Property(
        id, f.title.value, f.price.value, f.deposit.value, f.details, images, owner,
        Available, 0, [], [], []))
  }
}
