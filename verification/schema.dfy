/**
 The record shapes of the shared schema: users, orders and the files attached to
 orders, the insert shapes that leave the store-assigned fields out, and the
 declared table constraints (unique columns, the file-to-order reference) as
 predicates. The in-memory store does not enforce those constraints.
 */
module Schema {
  import opened Options

  /** A wall-clock instant, milliseconds since the epoch. */
  type Timestamp = int

  /** An amount of money in minor units (paise): the `decimal(10, 2)` column scaled by 100. */
  type Money = int

  /** The `print_options` JSON document; the store carries it verbatim. */
  type Json = string

  /** Default of the `status` column. */
  const DefaultStatus: string := "pending"

  datatype User = User(id: int, username: string, password: string)

  /** `insertUserSchema` picks only the username and password. */
  datatype InsertUser = InsertUser(username: string, password: string)

  /**
   A stored order. `status` is a not-null column, but the record is a script object
   whose `status` property can be absent, so the model keeps it optional and states
   its presence as `StatusPresent`.
   */
  datatype Order = Order(
    id: int,
    orderId: string,
    customerName: string,
    customerEmail: string,
    customerPhone: string,
    deliveryAddress: string,
    status: Option<string>,
    totalAmount: Money,
    totalPages: int,
    printOptions: Json,
    createdAt: Timestamp,
    updatedAt: Timestamp)

  /**
   `insertOrderSchema` omits `id`, `createdAt` and `updatedAt`; `status` has a column
   default, so a caller may leave it out.
   */
  datatype InsertOrder = InsertOrder(
    orderId: string,
    customerName: string,
    customerEmail: string,
    customerPhone: string,
    deliveryAddress: string,
    status: Option<string>,
    totalAmount: Money,
    totalPages: int,
    printOptions: Json)

  datatype OrderFile = OrderFile(
    id: int,
    orderId: int,
    fileName: string,
    fileSize: string,
    fileKey: string,
    fileType: string,
    createdAt: Timestamp)

  /** `insertOrderFileSchema` omits `id` and `createdAt`. */
  datatype InsertOrderFile = InsertOrderFile(
    orderId: int,
    fileName: string,
    fileSize: string,
    fileKey: string,
    fileType: string)

  // ---------------------------------------------------------------------------
  // Building stored records from insert shapes, and back

  /** The user the store keeps: the insert fields plus the assigned id. */
  function NewUser(ins: InsertUser, id: int): (u: User)
    ensures u.id == id
    ensures UserInsert(u) == ins
  {
    User(id, ins.username, ins.password)
  }

  /** The insert shape of a stored user: everything but the id. */
  function UserInsert(u: User): InsertUser {
    InsertUser(u.username, u.password)
  }

  /**
   The order `createOrder` builds as the code is written: the object spread copies
   the insert fields, so a status the caller left out stays absent.
   */
  function SpreadOrder(ins: InsertOrder, id: int, now: Timestamp): (o: Order)
    ensures o.id == id && o.createdAt == now && o.updatedAt == now
    ensures OrderInsert(o) == ins
  {
    Order(id, ins.orderId, ins.customerName, ins.customerEmail, ins.customerPhone,
          ins.deliveryAddress, ins.status, ins.totalAmount,
          ins.totalPages, ins.printOptions, now, now)
  }

  /** The not-null `status` column holds a value. */
  predicate StatusPresent(o: Order) {
    o.status.Some?
  }

  /**
   The order the store is meant to keep: the insert fields, the column default for a
   missing status, the assigned id, and `now` as both timestamps.
   */
  function NewOrder(ins: InsertOrder, id: int, now: Timestamp): (o: Order)
    ensures o.id == id && o.createdAt == now && o.updatedAt == now
    ensures StatusPresent(o)
    ensures ins.status.Some? ==> o.status == ins.status
    ensures ins.status.None? ==> o.status == Some(DefaultStatus)
    ensures OrderInsert(o) == ins.(status := o.status)
  {
    Order(id, ins.orderId, ins.customerName, ins.customerEmail, ins.customerPhone,
          ins.deliveryAddress, Some(ins.status.GetOr(DefaultStatus)), ins.totalAmount,
          ins.totalPages, ins.printOptions, now, now)
  }

  /**
   An order created without a status: the spread leaves the not-null column empty,
   where the column default would have stored "pending".
   */
  lemma OmittedStatusIsStoredAsMissing(ins: InsertOrder, id: int, now: Timestamp)
    requires ins.status == None
    ensures !StatusPresent(SpreadOrder(ins, id, now))
    ensures NewOrder(ins, id, now).status == Some(DefaultStatus)
  {
  }

  /** With a status given, the spread and the defaulting build agree. */
  lemma SpreadAgreesWhenStatusGiven(ins: InsertOrder, id: int, now: Timestamp)
    ensures ins.status.Some? <==> SpreadOrder(ins, id, now) == NewOrder(ins, id, now)
  {
  }

  /** The insert shape of a stored order: everything but the store-assigned fields. */
  function OrderInsert(o: Order): InsertOrder {
    InsertOrder(o.orderId, o.customerName, o.customerEmail, o.customerPhone,
                o.deliveryAddress, o.status, o.totalAmount, o.totalPages,
                o.printOptions)
  }

  /** The file the store keeps: the insert fields, the assigned id and `now`. */
  function NewOrderFile(ins: InsertOrderFile, id: int, now: Timestamp): (f: OrderFile)
    ensures f.id == id && f.createdAt == now
    ensures FileInsert(f) == ins
  {
    OrderFile(id, ins.orderId, ins.fileName, ins.fileSize, ins.fileKey, ins.fileType, now)
  }

  /** The insert shape of a stored file: everything but `id` and `createdAt`. */
  function FileInsert(f: OrderFile): InsertOrderFile {
    InsertOrderFile(f.orderId, f.fileName, f.fileSize, f.fileKey, f.fileType)
  }

  /** Omitting the store-assigned fields and assigning them again gives back the stored order. */
  lemma OrderRoundTrip(o: Order)
    requires StatusPresent(o) && o.createdAt == o.updatedAt
    ensures NewOrder(OrderInsert(o), o.id, o.createdAt) == o
  {
  }

  /** A complete insert shape survives being stored and read back. */
  lemma OrderInsertRoundTrip(ins: InsertOrder, id: int, now: Timestamp)
    requires ins.status.Some?
    ensures OrderInsert(NewOrder(ins, id, now)) == ins
  {
  }

  lemma OrderFileRoundTrip(f: OrderFile)
    ensures NewOrderFile(FileInsert(f), f.id, f.createdAt) == f
  {
  }

  lemma UserRoundTrip(u: User)
    ensures NewUser(UserInsert(u), u.id) == u
  {
  }

  // ---------------------------------------------------------------------------
  // Declared constraints

  /** `orders.order_id` is declared unique. */
  predicate CodesUnique(orders: seq<Order>) {
    forall i, j :: 0 <= i < j < |orders| ==> orders[i].orderId != orders[j].orderId
  }

  /** `users.username` is declared unique. */
  predicate UsernamesUnique(users: seq<User>) {
    forall i, j :: 0 <= i < j < |users| ==> users[i].username != users[j].username
  }

  /** `orders.status` is declared not-null. */
  predicate StatusesPresent(orders: seq<Order>) {
    forall i :: 0 <= i < |orders| ==> StatusPresent(orders[i])
  }

  predicate HasUserId(users: seq<User>, id: int) {
    exists j :: 0 <= j < |users| && users[j].id == id
  }

  predicate HasOrderId(orders: seq<Order>, id: int) {
    exists j :: 0 <= j < |orders| && orders[j].id == id
  }

  /** `order_files.order_id` is declared a reference to `orders.id`. */
  predicate FilesReferenceOrders(files: seq<OrderFile>, orders: seq<Order>) {
    forall i :: 0 <= i < |files| ==> HasOrderId(orders, files[i].orderId)
  }
}
