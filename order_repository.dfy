/** The order queries: each is one filter or one first-match lookup over the Orders
    table, with the navigation properties (`Include`) resolved against the other tables.
    Being functions, none of them can change the store. */
module OrderRepository {
  import opened Wrappers
  import opened Entities
  import Linq

  /** An order with its `User`, `Collector`, `Factory` and `Materials` loaded; a
      reference that does not resolve is `None`, as EF leaves it `null`. */
  datatype OrderDetails = OrderDetails(
    order: Order,
    user: Option<ApplicationUser>,
    collector: Option<ApplicationUser>,
    factory: Option<Factory>,
    materials: seq<Material>)

  /** Position of the order with this primary key (`GetByIdAsync` / `FirstOrDefault(o => o.ID == id)`). */
  function OrderIndex(orders: seq<Order>, id: int): (r: Option<nat>)
    ensures r.Some? ==> r.value < |orders| && orders[r.value].id == id
    ensures r.None? <==> forall j :: 0 <= j < |orders| ==> orders[j].id != id
  {
    Linq.FirstIndex(orders, (o: Order) => o.id == id)
  }

  /** Position of the user with this `Id`: what the `User`/`Collector` navigation resolves to. */
  function UserIndex(users: seq<ApplicationUser>, id: string): (r: Option<nat>)
    ensures r.Some? ==> r.value < |users| && users[r.value].id == id
    ensures r.None? <==> forall j :: 0 <= j < |users| ==> users[j].id != id
  {
    Linq.FirstIndex(users, (u: ApplicationUser) => u.id == id)
  }

  function FindUser(users: seq<ApplicationUser>, id: string): (r: Option<ApplicationUser>)
    ensures r.Some? <==> UserIndex(users, id).Some?
    ensures r.Some? ==> r.value == users[UserIndex(users, id).value]
  {
    match UserIndex(users, id)
    case None => None
    case Some(i) => Some(users[i])
  }

  function FindFactory(factories: seq<Factory>, id: int): (r: Option<Factory>)
    ensures r.Some? ==> r.value in factories && r.value.id == id
    ensures r.None? <==> forall f :: f in factories ==> f.id != id
  {
    Linq.FirstOrDefault(factories, (f: Factory) => f.id == id)
  }

  /** The `Include` chain: resolves the order's references against the other tables. */
  function Include(o: Order, users: seq<ApplicationUser>, factories: seq<Factory>, materials: seq<Material>): (d: OrderDetails)
    ensures d.order == o
    ensures d.user == FindUser(users, o.userId)
    ensures o.collectorId.None? ==> d.collector.None?
    ensures o.collectorId.Some? ==> d.collector == FindUser(users, o.collectorId.value)
    ensures d.factory == FindFactory(factories, o.factoryId)
    ensures forall m :: m in d.materials <==> m in materials && m.id in o.materialIds
  {
    OrderDetails(
      o,
      FindUser(users, o.userId),
      match o.collectorId case None => None case Some(c) => FindUser(users, c),
      FindFactory(factories, o.factoryId),
      Linq.Where(materials, (m: Material) => m.id in o.materialIds))
  }

  /** `GetOrderWithDetailsAsync(orderId)`: the order with that `ID`, loaded with its
      references, or `None` when there is none. */
  function GetOrderWithDetails(orders: seq<Order>, users: seq<ApplicationUser>, factories: seq<Factory>,
                               materials: seq<Material>, orderId: int): (r: Option<OrderDetails>)
    ensures r.Some? <==> exists o :: o in orders && o.id == orderId
    ensures r.Some? ==> r.value.order in orders && r.value.order.id == orderId
    ensures r.Some? ==> r.value.order == orders[OrderIndex(orders, orderId).value]
    ensures r.Some? ==> r.value == Include(r.value.order, users, factories, materials)
  {
    match OrderIndex(orders, orderId)
    case None => None
    case Some(k) => Some(Include(orders[k], users, factories, materials))
  }

  /** `GetAllAsync`: every stored order, in storage order. */
  function GetAll(orders: seq<Order>): (r: seq<Order>)
    ensures multiset(r) == multiset(orders)
  {
    orders
  }

  /** `GetOrdersByUserIdAsync(userId)`. */
  function GetOrdersByUserId(orders: seq<Order>, userId: string): (r: seq<Order>)
    ensures forall o :: o in r <==> o in orders && o.userId == userId
    ensures forall o: Order :: o.userId == userId ==> multiset(r)[o] == multiset(orders)[o]
  {
    Linq.Where(orders, (o: Order) => o.userId == userId)
  }

  /** `GetOrdersByCollectorIdAsync(collectorId)`: an order without a collector never matches. */
  function GetOrdersByCollectorId(orders: seq<Order>, collectorId: string): (r: seq<Order>)
    ensures forall o :: o in r <==> o in orders && o.collectorId == Some(collectorId)
    ensures forall o :: o in r ==> o.collectorId.Some?
    ensures forall o: Order :: o.collectorId == Some(collectorId) ==> multiset(r)[o] == multiset(orders)[o]
  {
    Linq.Where(orders, (o: Order) => o.collectorId == Some(collectorId))
  }

  /** `GetOrdersByFactoryIdAsync(factoryId)`. */
  function GetOrdersByFactoryId(orders: seq<Order>, factoryId: int): (r: seq<Order>)
    ensures forall o :: o in r <==> o in orders && o.factoryId == factoryId
    ensures forall o: Order :: o.factoryId == factoryId ==> multiset(r)[o] == multiset(orders)[o]
  {
    Linq.Where(orders, (o: Order) => o.factoryId == factoryId)
  }

  /** `GetOrdersByStatusAsync(status)`. */
  function GetOrdersByStatus(orders: seq<Order>, status: OrderStatus): (r: seq<Order>)
    ensures forall o :: o in r <==> o in orders && o.status == status
    ensures forall o: Order :: o.status == status ==> multiset(r)[o] == multiset(orders)[o]
    ensures forall k :: 0 <= k < |r| ==> r[k].status == status
  {
    var r := Linq.Where(orders, (o: Order) => o.status == status);
    assert forall k :: 0 <= k < |r| ==> r[k] in r;
    r
  }

  /** The three status queries split the whole table: every stored order is returned
      by exactly one of them. */
  lemma {:induction false} StatusQueriesPartition(orders: seq<Order>)
    ensures multiset(GetOrdersByStatus(orders, Pending)) + multiset(GetOrdersByStatus(orders, Completed))
            + multiset(GetOrdersByStatus(orders, Cancelled)) == multiset(GetAll(orders))
    ensures |GetOrdersByStatus(orders, Pending)| + |GetOrdersByStatus(orders, Completed)|
            + |GetOrdersByStatus(orders, Cancelled)| == |orders|
  {
    var p, c, x := GetOrdersByStatus(orders, Pending), GetOrdersByStatus(orders, Completed), GetOrdersByStatus(orders, Cancelled);
    forall o ensures (multiset(p) + multiset(c) + multiset(x))[o] == multiset(orders)[o] {
    }
    assert multiset(p) + multiset(c) + multiset(x) == multiset(orders);
    assert |multiset(p) + multiset(c) + multiset(x)| == |multiset(orders)|;
  }
}
