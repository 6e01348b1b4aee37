/** Shared vocabulary of the logistics platform: the optional value, the enumerations of
    the persistence schema, the entities the route handlers read and write, the caller
    identity supplied by the authentication layer, and the HTTP-shaped response. */
module Common {

  datatype Option<+T> = None | Some(value: T) {
    function GetOr(default: T): T {
      match this
      case Some(v) => v
      case None => default
    }
  }

  /** An instant, in milliseconds since the epoch. */
  type Instant = int

  const MsPerDay: int := 86400000

  datatype Role = Customer | Admin | Warehouse | Driver

  /** The nine shipment statuses, in the order the schema declares them. */
  datatype ShipmentStatus =
    | Pending | Received | InTransit | SortingFacility | OutForDelivery
    | Delivered | Returned | Failed | Cancelled

  const AllStatuses: seq<ShipmentStatus> :=
    [Pending, Received, InTransit, SortingFacility, OutForDelivery,
     Delivered, Returned, Failed, Cancelled]

  /** The enum value as it travels over the wire. */
  function StatusName(s: ShipmentStatus): string {
    match s
    case Pending => "PENDING"
    case Received => "RECEIVED"
    case InTransit => "IN_TRANSIT"
    case SortingFacility => "SORTING_FACILITY"
    case OutForDelivery => "OUT_FOR_DELIVERY"
    case Delivered => "DELIVERED"
    case Returned => "RETURNED"
    case Failed => "FAILED"
    case Cancelled => "CANCELLED"
  }

  /** The inverse of StatusName: the status a wire name stands for, if any. */
  function StatusFromName(name: string): (r: Option<ShipmentStatus>)
    ensures r.Some? ==> StatusName(r.value) == name
  {
    if name == "PENDING" then Some(Pending)
    else if name == "RECEIVED" then Some(Received)
    else if name == "IN_TRANSIT" then Some(InTransit)
    else if name == "SORTING_FACILITY" then Some(SortingFacility)
    else if name == "OUT_FOR_DELIVERY" then Some(OutForDelivery)
    else if name == "DELIVERED" then Some(Delivered)
    else if name == "RETURNED" then Some(Returned)
    else if name == "FAILED" then Some(Failed)
    else if name == "CANCELLED" then Some(Cancelled)
    else None
  }

  /** Every status has a wire name, and that name reads back as the same status. */
  lemma StatusNameRoundTrip(s: ShipmentStatus)
    ensures StatusFromName(StatusName(s)) == Some(s)
  {
    match s
    case Pending =>
    case Received =>
    case InTransit =>
    case SortingFacility =>
    case OutForDelivery =>
    case Delivered =>
    case Returned =>
    case Failed =>
    case Cancelled =>
  }

  /** The position of a status in the schema's declaration order. */
  function StatusIndex(s: ShipmentStatus): (k: nat)
    ensures k < |AllStatuses| && AllStatuses[k] == s
  {
    match s
    case Pending => 0
    case Received => 1
    case InTransit => 2
    case SortingFacility => 3
    case OutForDelivery => 4
    case Delivered => 5
    case Returned => 6
    case Failed => 7
    case Cancelled => 8
  }

  /** The enumeration lists every status exactly once. */
  lemma AllStatusesComplete(s: ShipmentStatus)
    ensures s in AllStatuses
    ensures forall i, j :: 0 <= i < j < |AllStatuses| ==> AllStatuses[i] != AllStatuses[j]
  {
    assert AllStatuses[StatusIndex(s)] == s;
  }

  datatype NotificationEvent =
    | PackageReceived | InTransitEvent | OutForDeliveryEvent | DeliveredEvent | FailedDelivery

  function EventName(e: NotificationEvent): string {
    match e
    case PackageReceived => "PACKAGE_RECEIVED"
    case InTransitEvent => "IN_TRANSIT"
    case OutForDeliveryEvent => "OUT_FOR_DELIVERY"
    case DeliveredEvent => "DELIVERED"
    case FailedDelivery => "FAILED_DELIVERY"
  }

  datatype NotificationType = Email | Sms | Both

  datatype User = User(
    id: string,
    email: string,
    password: string,        // the stored (hashed) password
    firstName: string,
    lastName: string,
    phone: Option<string>,
    role: Role,
    isActive: bool,
    createdAt: Instant)

  datatype Address = Address(address: string, city: string, state: string, zip: string, country: string)

  datatype ShipmentEvent = ShipmentEvent(
    status: ShipmentStatus,
    location: Option<string>,
    notes: Option<string>,
    staffId: Option<string>,
    createdAt: Instant)

  datatype Shipment = Shipment(
    id: string,
    trackingNumber: string,
    senderId: string,
    receiverId: Option<string>,
    sender: Address,
    receiverName: string,
    receiverEmail: Option<string>,
    receiverPhone: string,
    receiver: Address,
    weight: real,
    length: Option<real>,
    width: Option<real>,
    height: Option<real>,
    category: Option<string>,
    description: Option<string>,
    estimatedCost: Option<real>,
    actualCost: Option<real>,
    isPaid: bool,
    status: ShipmentStatus,
    createdAt: Instant,
    estimatedDelivery: Option<Instant>,
    actualDelivery: Option<Instant>,
    events: seq<ShipmentEvent>)

  datatype Template = Template(
    emailSubject: Option<string>,
    emailBody: Option<string>,
    smsBody: Option<string>,
    isActive: bool)

  /** Template variables, in the insertion order of the object they come from. */
  type Variables = seq<(string, string)>

  datatype Notification = Notification(
    userId: string,
    notificationType: NotificationType,
    event: NotificationEvent,
    title: string,
    message: string,
    emailSent: bool,
    smsSent: bool,
    metadata: Variables,
    isRead: bool,
    createdAt: Instant)

  datatype Pickup = Pickup(
    id: string,
    customerId: string,
    address: Address,
    preferredDate: Instant,
    preferredTime: string,
    packageCount: int,
    notes: Option<string>,
    createdAt: Instant)

  datatype Setting = Setting(key: string, value: string, category: Option<string>, description: Option<string>)

  /** What the authentication layer makes of the request's bearer token. */
  datatype Caller = NoToken | UnknownToken | SignedIn(user: User)

  /** The user-facing part of a sender, as the listing queries select it. */
  datatype UserSummary = UserSummary(firstName: string, lastName: string, email: string)

  datatype Response<T> = Ok(status: int, body: T) | Failure(status: int, error: string)

  /** JavaScript truthiness of an optional string: present and non-empty. */
  predicate Truthy(s: Option<string>) {
    s.Some? && s.value != ""
  }

  /** JavaScript truthiness of an optional number: present and non-zero. */
  predicate NonZero(x: Option<real>) {
    x.Some? && x.value != 0.0
  }

  /** The first user with the given id (ids are unique in the store). */
  function FindUserById(users: seq<User>, id: string): (r: Option<User>)
    ensures r.Some? ==> r.value in users && r.value.id == id
    ensures r.None? ==> forall u :: u in users ==> u.id != id
  {
    if |users| == 0 then None
    else if users[0].id == id then Some(users[0])
    else FindUserById(users[1..], id)
  }

  /** The first user with the given email (emails are unique in the store). */
  function FindUserByEmail(users: seq<User>, email: string): (r: Option<User>)
    ensures r.Some? ==> r.value in users && r.value.email == email
    ensures r.None? ==> forall u :: u in users ==> u.email != email
  {
    if |users| == 0 then None
    else if users[0].email == email then Some(users[0])
    else FindUserByEmail(users[1..], email)
  }

  /** The shipment with the given id (ids are unique in the store). */
  function FindShipmentById(shipments: seq<Shipment>, id: string): (r: Option<Shipment>)
    ensures r.Some? ==> r.value in shipments && r.value.id == id
    ensures r.None? ==> forall s :: s in shipments ==> s.id != id
  {
    if |shipments| == 0 then None
    else if shipments[0].id == id then Some(shipments[0])
    else FindShipmentById(shipments[1..], id)
  }

  function Summary(u: User): UserSummary {
    UserSummary(u.firstName, u.lastName, u.email)
  }

  /** A user as the handlers return one: every column except the stored password. */
  datatype PublicUser = PublicUser(
    id: string,
    email: string,
    firstName: string,
    lastName: string,
    phone: Option<string>,
    role: Role,
    isActive: bool,
    createdAt: Instant)

  /** `sanitizeUser` (lib/auth/index.ts): drop the password, keep the rest. */
  function Sanitize(u: User): (p: PublicUser)
    ensures p.id == u.id && p.email == u.email && p.role == u.role && p.isActive == u.isActive
    ensures p.firstName == u.firstName && p.lastName == u.lastName && p.phone == u.phone
    ensures p.createdAt == u.createdAt
  {
    PublicUser(u.id, u.email, u.firstName, u.lastName, u.phone, u.role, u.isActive, u.createdAt)
  }

  /** The returned record does not depend on the password: two users that differ only in
      their stored password look the same. */
  lemma SanitizeHidesPassword(u: User, password: string)
    ensures Sanitize(u.(password := password)) == Sanitize(u)
  {
  }

  /** The enum value of a role as it travels over the wire. */
  function RoleName(r: Role): string {
    match r
    case Customer => "CUSTOMER"
    case Admin => "ADMIN"
    case Warehouse => "WAREHOUSE"
    case Driver => "DRIVER"
  }

  /** The role a wire name stands for, if any. */
  function RoleFromName(name: string): (r: Option<Role>)
    ensures r.Some? ==> RoleName(r.value) == name
    ensures r.None? ==> forall x :: RoleName(x) != name
  {
    if name == "CUSTOMER" then Some(Customer)
    else if name == "ADMIN" then Some(Admin)
    else if name == "WAREHOUSE" then Some(Warehouse)
    else if name == "DRIVER" then Some(Driver)
    else None
  }
}
