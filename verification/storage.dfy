/**
 `MemStorage`, the in-memory store behind the order API: three id-keyed maps
 (users, orders, order files), each with its own sequential id counter. The store
 is an immutable value; every mutating operation returns the new store beside its
 result, and the clock is the `now` parameter.
 */
module Storage {
  import opened Options
  import opened Schema
  import OrderedMap
  import Seqs

  datatype MemStorage = MemStorage(
    users: seq<OrderedMap.Entry<User>>,
    orders: seq<OrderedMap.Entry<Order>>,
    orderFiles: seq<OrderedMap.Entry<OrderFile>>,
    currentUserId: int,
    currentOrderId: int,
    currentFileId: int)

  /** What a create operation returns: the new store and the record it stored. */
  datatype Created<T> = Created(store: MemStorage, record: T)

  /** What a status update returns: the new store and the updated order, if there was one. */
  datatype Updated = Updated(store: MemStorage, order: Option<Order>)

  function UserKey(u: User): int { u.id }
  function OrderKey(o: Order): int { o.id }
  function FileKey(f: OrderFile): int { f.id }

  function NamedUser(username: string): User -> bool { (u: User) => u.username == username }
  function WithCode(code: string): Order -> bool { (o: Order) => o.orderId == code }
  function OwnedBy(orderId: int): OrderFile -> bool { (f: OrderFile) => f.orderId == orderId }

  /**
   The invariant the class keeps: every record is stored under its own id, ids were
   handed out in increasing order, and each counter lies above every id it issued.
   */
  predicate Valid(s: MemStorage) {
    && OrderedMap.IdTable(s.users, s.currentUserId, UserKey)
    && OrderedMap.IdTable(s.orders, s.currentOrderId, OrderKey)
    && OrderedMap.IdTable(s.orderFiles, s.currentFileId, FileKey)
  }

  /** The constructor: empty maps, every counter at 1. */
  function New(): (s: MemStorage)
    ensures Valid(s)
    ensures s.currentUserId == 1 && s.currentOrderId == 1 && s.currentFileId == 1
    ensures GetAllOrders(s) == [] && AllUsers(s) == [] && AllFiles(s) == []
  {
    MemStorage([], [], [], 1, 1, 1)
  }

  // ---------------------------------------------------------------------------
  // Users

  /** All users, in creation order (the store has no listing operation for them). */
  function AllUsers(s: MemStorage): (r: seq<User>)
    ensures |r| == |s.users|
    ensures Valid(s) ==> Seqs.IncreasingBy(r, UserKey)
  {
    if Valid(s) then
      OrderedMap.IdTableValuesIncreasing(s.users, s.currentUserId, UserKey);
      OrderedMap.Values(s.users)
    else
      OrderedMap.Values(s.users)
  }

  function GetUser(s: MemStorage, id: int): (r: Option<User>)
    ensures Valid(s) ==> (r.None? <==> !HasUserId(AllUsers(s), id))
    ensures Valid(s) && r.Some? ==> r.value.id == id && r.value in AllUsers(s)
  {
    if Valid(s) then
      OrderedMap.IdTableGet(s.users, s.currentUserId, UserKey, id);
      OrderedMap.Get(s.users, id)
    else
      OrderedMap.Get(s.users, id)
  }

  /** The earliest-created user with that username, or none. */
  function GetUserByUsername(s: MemStorage, username: string): (r: Option<User>)
    ensures r.None? <==> forall i :: 0 <= i < |AllUsers(s)| ==> AllUsers(s)[i].username != username
    ensures r.Some? ==> exists i :: 0 <= i < |AllUsers(s)| && AllUsers(s)[i] == r.value
                                    && r.value.username == username
                                    && forall j :: 0 <= j < i ==> AllUsers(s)[j].username != username
  {
    Seqs.FirstWhere(AllUsers(s), NamedUser(username))
  }

  function CreateUser(s: MemStorage, ins: InsertUser): (r: Created<User>)
    ensures r.record.id == s.currentUserId && UserInsert(r.record) == ins
    ensures r.store.currentUserId == s.currentUserId + 1
    ensures r.store.orders == s.orders && r.store.orderFiles == s.orderFiles
    ensures r.store.currentOrderId == s.currentOrderId && r.store.currentFileId == s.currentFileId
    ensures Valid(s) ==> Valid(r.store) && AllUsers(r.store) == AllUsers(s) + [r.record]
  {
    var id := s.currentUserId;
    var user := NewUser(ins, id);
    var s' := s.(users := OrderedMap.Put(s.users, id, user), currentUserId := id + 1);
    if Valid(s) then
      OrderedMap.IdTableAppend(s.users, id, UserKey, user);
      Created(s', user)
    else
      Created(s', user)
  }

  // ---------------------------------------------------------------------------
  // Orders

  /** `getAllOrders`: every order, in creation order. */
  function GetAllOrders(s: MemStorage): (r: seq<Order>)
    ensures |r| == |s.orders|
    ensures Valid(s) ==> Seqs.IncreasingBy(r, OrderKey)
  {
    if Valid(s) then
      OrderedMap.IdTableValuesIncreasing(s.orders, s.currentOrderId, OrderKey);
      OrderedMap.Values(s.orders)
    else
      OrderedMap.Values(s.orders)
  }

  function GetOrder(s: MemStorage, id: int): (r: Option<Order>)
    ensures Valid(s) ==> (r.None? <==> !HasOrderId(GetAllOrders(s), id))
    ensures Valid(s) && r.Some? ==> r.value.id == id && r.value in GetAllOrders(s)
  {
    if Valid(s) then
      OrderedMap.IdTableGet(s.orders, s.currentOrderId, OrderKey, id);
      OrderedMap.Get(s.orders, id)
    else
      OrderedMap.Get(s.orders, id)
  }

  /** The earliest-created order with that code, or none: codes are not checked for uniqueness. */
  function GetOrderByOrderId(s: MemStorage, code: string): (r: Option<Order>)
    ensures r.None? <==> forall i :: 0 <= i < |GetAllOrders(s)| ==> GetAllOrders(s)[i].orderId != code
    ensures r.Some? ==> exists i :: 0 <= i < |GetAllOrders(s)| && GetAllOrders(s)[i] == r.value
                                    && r.value.orderId == code
                                    && forall j :: 0 <= j < i ==> GetAllOrders(s)[j].orderId != code
  {
    Seqs.FirstWhere(GetAllOrders(s), WithCode(code))
  }

  /**
   `createOrder`: takes the next id, stamps both timestamps with `now`, and stores the
   order without looking at its code. A missing status gets the column default here;
   the code as written leaves it absent (`Schema.SpreadOrder`).
   */
  function CreateOrder(s: MemStorage, ins: InsertOrder, now: Timestamp): (r: Created<Order>)
    ensures r.record.id == s.currentOrderId
    ensures r.record.createdAt == now && r.record.updatedAt == now
    ensures StatusPresent(r.record) && OrderInsert(r.record) == ins.(status := r.record.status)
    ensures ins.status.Some? ==> r.record.status == ins.status
    ensures ins.status.None? ==> r.record.status == Some(DefaultStatus)
    ensures r.store.currentOrderId == s.currentOrderId + 1
    ensures r.store.users == s.users && r.store.orderFiles == s.orderFiles
    ensures r.store.currentUserId == s.currentUserId && r.store.currentFileId == s.currentFileId
    ensures Valid(s) ==> Valid(r.store) && GetAllOrders(r.store) == GetAllOrders(s) + [r.record]
  {
    var id := s.currentOrderId;
    var order := NewOrder(ins, id, now);
    var s' := s.(orders := OrderedMap.Put(s.orders, id, order), currentOrderId := id + 1);
    if Valid(s) then
      OrderedMap.IdTableAppend(s.orders, id, OrderKey, order);
      Created(s', order)
    else
      Created(s', order)
  }

  /**
   `updateOrderStatus`: when the id is stored, rewrites that order's `status` and
   `updatedAt` in place; otherwise reports none and leaves the store alone. Any
   string is accepted as a status.
   */
  function UpdateOrderStatus(s: MemStorage, id: int, status: string, now: Timestamp): (r: Updated)
    ensures r.order.None? <==> GetOrder(s, id).None?
    ensures r.order.None? ==> r.store == s
    ensures r.order.Some? ==> r.order.value == GetOrder(s, id).value.(status := Some(status), updatedAt := now)
    ensures r.order.Some? ==> GetOrder(r.store, id) == r.order
    ensures r.store.users == s.users && r.store.orderFiles == s.orderFiles
    ensures r.store.currentUserId == s.currentUserId && r.store.currentOrderId == s.currentOrderId
    ensures r.store.currentFileId == s.currentFileId
    ensures |GetAllOrders(r.store)| == |GetAllOrders(s)|
    ensures Valid(s) ==> Valid(r.store)
    ensures Valid(s) ==> forall i :: 0 <= i < |GetAllOrders(s)| && GetAllOrders(s)[i].id != id ==>
                           GetAllOrders(r.store)[i] == GetAllOrders(s)[i]
    ensures Valid(s) && r.order.Some? ==> forall i :: 0 <= i < |GetAllOrders(s)| && GetAllOrders(s)[i].id == id ==>
                                           GetAllOrders(r.store)[i] == r.order.value
  {
    match OrderedMap.Get(s.orders, id)
    case None => Updated(s, None)
    case Some(order) =>
      var updated := order.(status := Some(status), updatedAt := now);
      var s' := s.(orders := OrderedMap.Put(s.orders, id, updated));
      if Valid(s) then
        OrderedMap.IdTableGet(s.orders, s.currentOrderId, OrderKey, id);
        OrderedMap.IdTableReplace(s.orders, s.currentOrderId, OrderKey, id, updated);
        Updated(s', Some(updated))
      else
        Updated(s', Some(updated))
  }

  // ---------------------------------------------------------------------------
  // Order files

  /** All files, in creation order (the store has no listing operation for them). */
  function AllFiles(s: MemStorage): (r: seq<OrderFile>)
    ensures |r| == |s.orderFiles|
    ensures Valid(s) ==> Seqs.IncreasingBy(r, FileKey)
  {
    if Valid(s) then
      OrderedMap.IdTableValuesIncreasing(s.orderFiles, s.currentFileId, FileKey);
      OrderedMap.Values(s.orderFiles)
    else
      OrderedMap.Values(s.orderFiles)
  }

  /**
   `createOrderFile`: takes the next id from the file counter, which is independent
   of the order counter, and stores the file whether or not its `orderId` names a
   stored order.
   */
  function CreateOrderFile(s: MemStorage, ins: InsertOrderFile, now: Timestamp): (r: Created<OrderFile>)
    ensures r.record.id == s.currentFileId && r.record.createdAt == now
    ensures FileInsert(r.record) == ins
    ensures r.store.currentFileId == s.currentFileId + 1
    ensures r.store.users == s.users && r.store.orders == s.orders
    ensures r.store.currentUserId == s.currentUserId && r.store.currentOrderId == s.currentOrderId
    ensures Valid(s) ==> Valid(r.store) && AllFiles(r.store) == AllFiles(s) + [r.record]
  {
    var id := s.currentFileId;
    var file := NewOrderFile(ins, id, now);
    var s' := s.(orderFiles := OrderedMap.Put(s.orderFiles, id, file), currentFileId := id + 1);
    if Valid(s) then
      OrderedMap.IdTableAppend(s.orderFiles, id, FileKey, file);
      Created(s', file)
    else
      Created(s', file)
  }

  /** `getOrderFiles`: exactly the files whose `orderId` is `orderId`, in creation order. */
  function GetOrderFiles(s: MemStorage, orderId: int): (r: seq<OrderFile>)
    ensures forall i :: 0 <= i < |r| ==> r[i].orderId == orderId && r[i] in AllFiles(s)
    ensures forall i :: 0 <= i < |AllFiles(s)| && AllFiles(s)[i].orderId == orderId ==> AllFiles(s)[i] in r
    ensures Valid(s) ==> Seqs.IncreasingBy(r, FileKey)
  {
    var r := Seqs.Filter(AllFiles(s), OwnedBy(orderId));
    if Valid(s) then
      Seqs.FilterKeepsIncreasing(AllFiles(s), OwnedBy(orderId), FileKey);
      r
    else
      r
  }

  // ---------------------------------------------------------------------------
  // Properties relating several operations

  /** Orders created one after another from `s`, all at `now`. */
  function CreateOrders(s: MemStorage, inss: seq<InsertOrder>, now: Timestamp): (t: MemStorage)
    ensures t.orderFiles == s.orderFiles && t.currentFileId == s.currentFileId
    decreases |inss|
  {
    if |inss| == 0 then s
    else CreateOrders(CreateOrder(s, inss[0], now).store, inss[1..], now)
  }

  /** Successive creates hand out successive ids and append in creation order. */
  lemma {:induction false} CreateOrdersIds(s: MemStorage, inss: seq<InsertOrder>, now: Timestamp)
    requires Valid(s)
    ensures var t := CreateOrders(s, inss, now);
      && Valid(t)
      && t.currentOrderId == s.currentOrderId + |inss|
      && |GetAllOrders(t)| == |GetAllOrders(s)| + |inss|
      && GetAllOrders(t)[..|GetAllOrders(s)|] == GetAllOrders(s)
      && forall j :: |GetAllOrders(s)| <= j < |GetAllOrders(t)| ==>
           GetAllOrders(t)[j].id == s.currentOrderId + (j - |GetAllOrders(s)|)
    decreases |inss|
  {
    if |inss| > 0 {
      var c := CreateOrder(s, inss[0], now);
      CreateOrdersIds(c.store, inss[1..], now);
      var t := CreateOrders(s, inss, now);
      assert t == CreateOrders(c.store, inss[1..], now);
      var before, middle, after := GetAllOrders(s), GetAllOrders(c.store), GetAllOrders(t);
      assert middle == before + [c.record];
      assert after[..|middle|] == middle;
      assert after[..|before|] == middle[..|before|];
      forall j | |before| <= j < |after|
        ensures after[j].id == s.currentOrderId + (j - |before|)
      {
        if j == |before| {
          assert after[j] == middle[j];
        }
      }
    }
  }

  /** In a fresh store the k-th order created (counting from 0) gets id k + 1. */
  lemma FreshStoreOrderIds(inss: seq<InsertOrder>, now: Timestamp)
    ensures var t := CreateOrders(New(), inss, now);
      && |GetAllOrders(t)| == |inss|
      && forall i :: 0 <= i < |inss| ==> GetAllOrders(t)[i].id == i + 1
  {
    CreateOrdersIds(New(), inss, now);
  }

  /** After a create, a code lookup still finds the earlier order, and finds the new one only if the code was unused. */
  lemma GetOrderByOrderIdAfterCreate(s: MemStorage, ins: InsertOrder, now: Timestamp, code: string)
    requires Valid(s)
    ensures var r := CreateOrder(s, ins, now);
      GetOrderByOrderId(r.store, code) ==
        if GetOrderByOrderId(s, code).Some? then GetOrderByOrderId(s, code)
        else if ins.orderId == code then Some(r.record)
        else None
  {
  }

  /** Creating an order whose code is not yet stored keeps all codes distinct. */
  lemma FreshCodeKeepsCodesUnique(s: MemStorage, ins: InsertOrder, now: Timestamp)
    requires Valid(s)
    requires CodesUnique(GetAllOrders(s))
    requires GetOrderByOrderId(s, ins.orderId).None?
    ensures CodesUnique(GetAllOrders(CreateOrder(s, ins, now).store))
  {
  }

  /**
   A user whose username is not yet stored keeps usernames distinct. The store does
   not check this itself: a repeated username is stored all the same.
   */
  lemma FreshUsernameKeepsUsernamesUnique(s: MemStorage, ins: InsertUser)
    requires Valid(s)
    requires UsernamesUnique(AllUsers(s))
    requires GetUserByUsername(s, ins.username).None?
    ensures UsernamesUnique(AllUsers(CreateUser(s, ins).store))
  {
  }

  /** Orders created through the store always hold a status, so the not-null column is kept. */
  lemma CreateOrderKeepsStatusesPresent(s: MemStorage, ins: InsertOrder, now: Timestamp)
    requires Valid(s)
    requires StatusesPresent(GetAllOrders(s))
    ensures StatusesPresent(GetAllOrders(CreateOrder(s, ins, now).store))
  {
  }

  /**
   A code that is already stored is not rejected: the order is added anyway, codes
   stop being distinct, and lookups by code keep returning the earlier order.
   */
  lemma DuplicateCodeIsStored(s: MemStorage, ins: InsertOrder, now: Timestamp)
    requires Valid(s)
    requires GetOrderByOrderId(s, ins.orderId).Some?
    ensures var r := CreateOrder(s, ins, now);
      && |GetAllOrders(r.store)| == |GetAllOrders(s)| + 1
      && !CodesUnique(GetAllOrders(r.store))
      && GetOrderByOrderId(r.store, ins.orderId) == GetOrderByOrderId(s, ins.orderId)
  {
  }

  /** Creating an order never breaks the file-to-order reference. */
  lemma CreateOrderKeepsReferences(s: MemStorage, ins: InsertOrder, now: Timestamp)
    requires Valid(s)
    requires FilesReferenceOrders(AllFiles(s), GetAllOrders(s))
    ensures var r := CreateOrder(s, ins, now);
      FilesReferenceOrders(AllFiles(r.store), GetAllOrders(r.store))
  {
  }

  /** Creating a file for a stored order keeps every file pointing at a stored order. */
  lemma CreateOrderFileKeepsReferences(s: MemStorage, ins: InsertOrderFile, now: Timestamp)
    requires Valid(s)
    requires FilesReferenceOrders(AllFiles(s), GetAllOrders(s))
    requires GetOrder(s, ins.orderId).Some?
    ensures var r := CreateOrderFile(s, ins, now);
      FilesReferenceOrders(AllFiles(r.store), GetAllOrders(r.store))
  {
  }

  /**
   A file whose `orderId` names no stored order is stored all the same, and the
   file-to-order reference no longer holds.
   */
  lemma CreateOrderFileWithoutParent(s: MemStorage, ins: InsertOrderFile, now: Timestamp)
    requires Valid(s)
    requires GetOrder(s, ins.orderId).None?
    ensures var r := CreateOrderFile(s, ins, now);
      && r.record in GetOrderFiles(r.store, ins.orderId)
      && !FilesReferenceOrders(AllFiles(r.store), GetAllOrders(r.store))
  {
  }

  /** A new file joins the listing of its own order, at the end, and no other. */
  lemma GetOrderFilesAfterCreate(s: MemStorage, ins: InsertOrderFile, now: Timestamp, orderId: int)
    requires Valid(s)
    ensures var r := CreateOrderFile(s, ins, now);
      GetOrderFiles(r.store, orderId) ==
        GetOrderFiles(s, orderId) + (if ins.orderId == orderId then [r.record] else [])
  {
    var r := CreateOrderFile(s, ins, now);
    Seqs.FilterAppend(AllFiles(s), [r.record], OwnedBy(orderId));
  }

  /**
   A status update changes no code and no id and writes a status, so the declared
   constraints survive it.
   */
  lemma UpdateOrderStatusKeepsConstraints(s: MemStorage, id: int, status: string, now: Timestamp)
    requires Valid(s)
    ensures var r := UpdateOrderStatus(s, id, status, now);
      && (CodesUnique(GetAllOrders(s)) ==> CodesUnique(GetAllOrders(r.store)))
      && (FilesReferenceOrders(AllFiles(s), GetAllOrders(s)) ==>
            FilesReferenceOrders(AllFiles(r.store), GetAllOrders(r.store)))
      && (StatusesPresent(GetAllOrders(s)) ==> StatusesPresent(GetAllOrders(r.store)))
  {
  }
}
