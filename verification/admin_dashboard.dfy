/**
 The operator's dashboard over a client-side list of orders: the status reducer,
 the status badge colour and icon, the one-click status action, and the summary
 cards (total, pending and printing counts, revenue). Amounts are in minor units.
 */
module AdminDashboard {
  import Seqs

  datatype Customer = Customer(name: string, email: string, phone: string)

  datatype FileSummary = FileSummary(name: string, size: string)

  /** The displayed print options; `kind` is the source's `type` field. */
  datatype DisplayOptions = DisplayOptions(kind: string, size: string, sides: string, binding: string)

  datatype DashboardOrder = DashboardOrder(
    id: string,
    customer: Customer,
    files: seq<FileSummary>,
    printOptions: DisplayOptions,
    deliveryAddress: string,
    status: string,
    amount: int,
    pages: int)

  /** The four statuses the status selector offers. */
  const KnownStatuses: set<string> := {"Pending", "Printing", "Shipped", "Delivered"}

  const Gray: string := "bg-gray-500"

  /** The list the dashboard starts with. */
  const InitialOrders: seq<DashboardOrder> := [
    DashboardOrder(
      "ORD-001",
      Customer("Jane Smith", "jane@example.com", "+1 (555) 987-6543"),
      [FileSummary("Presentation.pdf", "2.5 MB"), FileSummary("Handouts.pdf", "1.8 MB")],
      DisplayOptions("Color", "A4", "double", "spiral"),
      "456 Oak Ave, Los Angeles, CA 90210",
      "Printing", 700, 25),
    DashboardOrder(
      "ORD-002",
      Customer("Bob Johnson", "bob@example.com", "+1 (555) 456-7890"),
      [FileSummary("Document.pdf", "1.2 MB")],
      DisplayOptions("Black & White", "Letter", "single", "none"),
      "789 Pine Rd, Chicago, IL 60601",
      "Pending", 700, 8)
  ]

  // ---------------------------------------------------------------------------
  // The status reducer

  /**
   `updateOrderStatus`: every entry whose id is `orderId` gets the new status; the
   list keeps its length and order, and nothing else changes.
   */
  function UpdateOrderStatus(orders: seq<DashboardOrder>, orderId: string, newStatus: string): (r: seq<DashboardOrder>)
    ensures |r| == |orders|
    ensures forall i :: 0 <= i < |orders| && orders[i].id == orderId ==> r[i] == orders[i].(status := newStatus)
    ensures forall i :: 0 <= i < |orders| && orders[i].id != orderId ==> r[i] == orders[i]
  {
    seq(|orders|, i requires 0 <= i < |orders| =>
      if orders[i].id == orderId then orders[i].(status := newStatus) else orders[i])
  }

  /** An id that no entry carries leaves the list as it was. */
  lemma UnknownIdLeavesListUnchanged(orders: seq<DashboardOrder>, orderId: string, newStatus: string)
    requires forall i :: 0 <= i < |orders| ==> orders[i].id != orderId
    ensures UpdateOrderStatus(orders, orderId, newStatus) == orders
  {
  }

  /** Applying the same update twice is applying it once. */
  lemma UpdateIsIdempotent(orders: seq<DashboardOrder>, orderId: string, newStatus: string)
    ensures var once := UpdateOrderStatus(orders, orderId, newStatus);
      UpdateOrderStatus(once, orderId, newStatus) == once
  {
  }

  /** Of two updates to the same id, the later one wins. */
  lemma LaterUpdateWins(orders: seq<DashboardOrder>, orderId: string, first: string, second: string)
    ensures UpdateOrderStatus(UpdateOrderStatus(orders, orderId, first), orderId, second)
         == UpdateOrderStatus(orders, orderId, second)
  {
  }

  /** Updates to different ids do not interfere. */
  lemma UpdatesOnDifferentIdsCommute(orders: seq<DashboardOrder>, a: string, sa: string, b: string, sb: string)
    requires a != b
    ensures UpdateOrderStatus(UpdateOrderStatus(orders, a, sa), b, sb)
         == UpdateOrderStatus(UpdateOrderStatus(orders, b, sb), a, sa)
  {
  }

  // ---------------------------------------------------------------------------
  // Status display and the quick action

  /** `getStatusColor`: one colour class per known status, gray for anything else. */
  function GetStatusColor(status: string): (c: string)
    ensures c == Gray <==> status !in KnownStatuses
  {
    match status
    case "Pending" => "bg-yellow-500"
    case "Printing" => "bg-blue-500"
    case "Shipped" => "bg-purple-500"
    case "Delivered" => "bg-green-500"
    case _ => Gray
  }

  /** The four known statuses get four different colours. */
  lemma KnownStatusColoursDistinct(a: string, b: string)
    requires a in KnownStatuses && b in KnownStatuses && a != b
    ensures GetStatusColor(a) != GetStatusColor(b)
  {
  }

  datatype Icon = Package | FileText | Truck | Check

  /** `getStatusIcon`: unknown statuses share the pending icon. */
  function GetStatusIcon(status: string): (icon: Icon)
    ensures icon == Package <==> status == "Pending" || status !in KnownStatuses
    ensures icon == FileText <==> status == "Printing"
    ensures icon == Truck <==> status == "Shipped"
    ensures icon == Check <==> status == "Delivered"
  {
    match status
    case "Pending" => Package
    case "Printing" => FileText
    case "Shipped" => Truck
    case "Delivered" => Check
    case _ => Package
  }

  /**
   Two statuses with the same badge colour get the same icon; the converse fails only
   for "Pending" against an unknown status, which share the icon but not the colour.
   */
  lemma IconFollowsColour(a: string, b: string)
    ensures GetStatusColor(a) == GetStatusColor(b) ==> GetStatusIcon(a) == GetStatusIcon(b)
    ensures GetStatusIcon(a) == GetStatusIcon(b) && GetStatusColor(a) != GetStatusColor(b) <==>
              (a == "Pending" && b !in KnownStatuses) || (b == "Pending" && a !in KnownStatuses)
  {
  }

  /**
   The one-click action on an order card: "Start Printing" for a pending order, "Mark
   Complete" for every other status, including ones already delivered.
   */
  function QuickActionTarget(status: string): (next: string)
    ensures next == "Printing" || next == "Delivered"
    ensures next == "Printing" <==> status == "Pending"
  {
    if status == "Pending" then "Printing" else "Delivered"
  }

  /** Two clicks take a pending order to delivered, where further clicks leave it. */
  lemma QuickActionReachesDelivered(status: string)
    ensures QuickActionTarget(QuickActionTarget(status)) == "Delivered"
    ensures QuickActionTarget("Delivered") == "Delivered"
  {
  }

  /** Clicking the quick action on a card: the reducer applied with the card's target status. */
  function ApplyQuickAction(orders: seq<DashboardOrder>, i: nat): (r: seq<DashboardOrder>)
    requires i < |orders|
    ensures |r| == |orders|
    ensures r[i].status == "Printing" <==> orders[i].status == "Pending"
    ensures r[i].status == "Printing" || r[i].status == "Delivered"
  {
    UpdateOrderStatus(orders, orders[i].id, QuickActionTarget(orders[i].status))
  }

  // ---------------------------------------------------------------------------
  // Summary cards

  /** `orders.filter(o => o.status === status).length`. */
  function CountStatus(orders: seq<DashboardOrder>, status: string): (n: nat)
    ensures n <= |orders|
  {
    if |orders| == 0 then 0
    else CountStatus(orders[..|orders| - 1], status) + (if orders[|orders| - 1].status == status then 1 else 0)
  }

  /** The test `o => o.status === status` of the filter the count comes from. */
  function HasStatus(status: string): DashboardOrder -> bool {
    (o: DashboardOrder) => o.status == status
  }

  /** The recursive count is the length of the filtered list, as the source computes it. */
  lemma {:induction false} CountIsFilterLength(orders: seq<DashboardOrder>, status: string)
    ensures CountStatus(orders, status) == |Seqs.Filter(orders, HasStatus(status))|
  {
    if |orders| > 0 {
      var init := orders[..|orders| - 1];
      var last := orders[|orders| - 1];
      assert orders == init + [last];
      CountIsFilterLength(init, status);
      Seqs.FilterAppend(init, [last], HasStatus(status));
      Seqs.FilterSingleton(last, HasStatus(status));
    }
  }

  /** Counts of two different statuses never add up to more than the number of orders. */
  lemma {:induction false} DisjointCountsBounded(orders: seq<DashboardOrder>, a: string, b: string)
    requires a != b
    ensures CountStatus(orders, a) + CountStatus(orders, b) <= |orders|
  {
    if |orders| > 0 {
      DisjointCountsBounded(orders[..|orders| - 1], a, b);
    }
  }

  /** The Pending and Printing cards never add up to more than the Total Orders card. */
  lemma PendingPlusPrintingAtMostTotal(orders: seq<DashboardOrder>)
    ensures CountStatus(orders, "Pending") + CountStatus(orders, "Printing") <= |orders|
  {
    DisjointCountsBounded(orders, "Pending", "Printing");
  }

  /** The sum of all amounts, added left to right. */
  function Revenue(orders: seq<DashboardOrder>): int {
    if |orders| == 0 then 0
    else Revenue(orders[..|orders| - 1]) + orders[|orders| - 1].amount
  }

  /** `orders.reduce((sum, o) => sum + o.amount, 0)`, exact in minor units. */
  method ComputeRevenue(orders: seq<DashboardOrder>) returns (total: int)
    ensures total == Revenue(orders)
    ensures (forall i :: 0 <= i < |orders| ==> orders[i].amount >= 0) ==> total >= 0
  {
    total := 0;
    var k := 0;
    while k < |orders|
      invariant 0 <= k <= |orders|
      invariant total == Revenue(orders[..k])
    {
      assert orders[..k + 1][..k] == orders[..k];
      total := total + orders[k].amount;
      k := k + 1;
    }
    assert orders[..|orders|] == orders;
    if forall i :: 0 <= i < |orders| ==> orders[i].amount >= 0 {
      RevenueNonNegative(orders);
    }
  }

  lemma {:induction false} RevenueNonNegative(orders: seq<DashboardOrder>)
    requires forall i :: 0 <= i < |orders| ==> orders[i].amount >= 0
    ensures Revenue(orders) >= 0
  {
    if |orders| > 0 {
      RevenueNonNegative(orders[..|orders| - 1]);
    }
  }

  /** Revenue depends on amounts only, so a status update leaves it unchanged. */
  lemma {:induction false} RevenueUnchangedByUpdate(orders: seq<DashboardOrder>, orderId: string, newStatus: string)
    ensures Revenue(UpdateOrderStatus(orders, orderId, newStatus)) == Revenue(orders)
  {
    if |orders| > 0 {
      var n := |orders| - 1;
      var r := UpdateOrderStatus(orders, orderId, newStatus);
      assert r[..n] == UpdateOrderStatus(orders[..n], orderId, newStatus);
      RevenueUnchangedByUpdate(orders[..n], orderId, newStatus);
    }
  }

  /** The starting list shows two orders, one pending, one printing, and 14.00 of revenue. */
  lemma InitialDashboardCards()
    ensures |InitialOrders| == 2
    ensures CountStatus(InitialOrders, "Pending") == 1
    ensures CountStatus(InitialOrders, "Printing") == 1
    ensures Revenue(InitialOrders) == 1400
  {
    assert InitialOrders[..1][..0] == [];
  }
}
