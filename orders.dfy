/** The order service: the entity/DTO mappers and the operations that change orders,
    materials and user points. The store is an `OrderService` object whose fields are
    the persisted tables in storage order, plus the next identity value of each table
    that generates one. */
module Orders {
  import opened Wrappers
  import opened DotNet
  import opened Entities
  import opened OrderRepository
  import Linq

  /** The order as the API shows it: the status by name and the referenced entities by
      display name. */
  datatype OrderDto = OrderDto(
    id: int,
    status: string,
    orderDate: Date,
    userId: string,
    collectorId: Option<string>,
    factoryId: int,
    userName: Option<string>,
    collectorName: Option<string>,
    factoryName: Option<string>)

  /** The request body of `AddAsync`. */
  datatype CreateOrderDto = CreateOrderDto(email: Option<string>, typeOfMaterial: string, quantity: Double)

  function UserNameOf(u: Option<ApplicationUser>): Option<string> {
    match u
    case None => None
    case Some(user) => user.userName
  }

  /** `ToDto`: a loaded order as the API shows it. */
  function ToDto(d: OrderDetails): (dto: OrderDto)
    ensures ParseStatus(dto.status) == Some(d.order.status)
    ensures dto.userName.Some? ==> d.user.Some?
    ensures dto.collectorName.Some? ==> d.collector.Some?
    ensures dto.factoryName.Some? <==> d.factory.Some?
  {
    StatusRoundTrip(d.order.status);
    OrderDto(
      d.order.id,
      StatusName(d.order.status),
      d.order.orderDate,
      d.order.userId,
      d.order.collectorId,
      d.order.factoryId,
      UserNameOf(d.user),
      UserNameOf(d.collector),
      match d.factory case None => None case Some(f) => Some(f.name))
  }

  /** `orders.Select(o => ToDto(o))` over rows loaded with their references: one DTO per
      row, in row order, each with the row's key and status. */
  function ToDtos(rows: seq<Order>, users: seq<ApplicationUser>, factories: seq<Factory>,
                  materials: seq<Material>): (r: seq<OrderDto>)
    ensures |r| == |rows|
    ensures forall k :: 0 <= k < |r| ==> r[k].id == rows[k].id && ParseStatus(r[k].status) == Some(rows[k].status)
  {
    seq(|rows|, k requires 0 <= k < |rows| => ToDto(Include(rows[k], users, factories, materials)))
  }

  /** `ToEntity`: a new order from a DTO, or the `ArgumentException` of `Enum.Parse`
      when the status is not a status name. The order starts with no materials. */
  function ToEntity(dto: OrderDto): (r: Result<Order, ExceptionKind>)
    ensures r.Ok? <==> ParseStatus(dto.status).Some?
    ensures r.Err? ==> r.error == ArgumentException
    ensures r.Ok? ==> StatusName(r.value.status) == Trim(dto.status) && r.value.materialIds == []
  {
    match ParseStatus(dto.status)
    case None => Err(ArgumentException)
    case Some(st) => Ok(Order(dto.id, dto.orderDate, st, dto.userId, dto.collectorId, dto.factoryId, []))
  }

  /** Mapping an order out and back reproduces every column; only the loaded
      materials are lost. */
  lemma ToEntityOfToDto(d: OrderDetails)
    ensures ToEntity(ToDto(d)) == Ok(d.order.(materialIds := []))
  {
  }

  /** `UpdateEntityFromDto`: overwrites status, date, user, collector and factory of
      `entity`; the status is parsed first, so a bad status changes nothing. */
  function UpdateEntityFromDto(dto: OrderDto, entity: Order): (r: Result<Order, ExceptionKind>)
    ensures r.Ok? <==> ParseStatus(dto.status).Some?
    ensures r.Err? ==> r.error == ArgumentException
    ensures r.Ok? ==> r.value.id == entity.id && r.value.materialIds == entity.materialIds
  {
    match ParseStatus(dto.status)
    case None => Err(ArgumentException)
    case Some(st) =>
      Ok(entity.(status := st, orderDate := dto.orderDate, userId := dto.userId,
                 collectorId := dto.collectorId, factoryId := dto.factoryId))
  }

  /** Updating an entity agrees with building a fresh one, except that the key and the
      materials are the entity's own. */
  lemma UpdateAgreesWithToEntity(dto: OrderDto, entity: Order)
    ensures UpdateEntityFromDto(dto, entity).Ok? == ToEntity(dto).Ok?
    ensures UpdateEntityFromDto(dto, entity).Ok? ==>
      UpdateEntityFromDto(dto, entity).value == ToEntity(dto).value.(id := entity.id, materialIds := entity.materialIds)
  {
  }

  /** Writing back an order's own DTO leaves it as it was. */
  lemma UpdateFromOwnDto(d: OrderDetails)
    ensures UpdateEntityFromDto(ToDto(d), d.order) == Ok(d.order)
  {
  }

  /** `u => u.Email == email`: a null email matches a user without one. */
  function HasEmail(email: Option<string>): ApplicationUser -> bool {
    (u: ApplicationUser) => u.email == email
  }

  /** The material filter assumed for `GetMaterialsByTypeAsync(typeName)`. */
  function HasTypeName(typeName: string): Material -> bool {
    (m: Material) => m.typeName == Some(typeName)
  }

  /** The material `AddAsync` creates when none of the type exists: price 0, no factory. */
  function NewMaterial(id: int, typeName: string, quantity: Double): (m: Material)
    ensures m.id == id && m.typeName == Some(typeName) && m.size == quantity
    ensures m.price == Decimal(0, 0) && m.factoryId.None?
  {
    Material(id, Some(typeName), quantity, Decimal(0, 0), None)
  }

  /** The material rows after `AddAsync` has picked its material, the key of that
      material, and the next material identity value. */
  datatype StagedMaterial = StagedMaterial(materials: seq<Material>, materialId: int, nextMaterialId: int)

  /** The find-or-create step of `AddAsync`: the first material of the type is reused
      with its size overwritten; otherwise a new one is appended under a fresh key. */
  function StageMaterial(materials: seq<Material>, nextMaterialId: int, typeName: string, quantity: Double): (s: StagedMaterial)
    ensures Linq.FirstIndex(materials, HasTypeName(typeName)).Some? ==>
      var i := Linq.FirstIndex(materials, HasTypeName(typeName)).value;
      && s.materials == materials[i := materials[i].(size := quantity)]
      && s.materialId == materials[i].id && s.nextMaterialId == nextMaterialId
    ensures Linq.FirstIndex(materials, HasTypeName(typeName)).None? ==>
      && s.materials == materials + [NewMaterial(nextMaterialId, typeName, quantity)]
      && s.materialId == nextMaterialId && s.nextMaterialId == nextMaterialId + 1
    ensures exists j :: 0 <= j < |s.materials| && s.materials[j].id == s.materialId
                        && s.materials[j].typeName == Some(typeName) && s.materials[j].size == quantity
    ensures (forall j :: 0 <= j < |materials| ==> materials[j].id < nextMaterialId) ==>
      forall j :: 0 <= j < |s.materials| ==> s.materials[j].id < s.nextMaterialId
  {
    match Linq.FirstIndex(materials, HasTypeName(typeName))
    case None =>
      var m := NewMaterial(nextMaterialId, typeName, quantity);
      var s := StagedMaterial(materials + [m], nextMaterialId, nextMaterialId + 1);
      assert s.materials[|materials|] == m;
      s
    case Some(i) =>
      assert HasTypeName(typeName)(materials[i]);
      var s := StagedMaterial(materials[i := materials[i].(size := quantity)], materials[i].id, nextMaterialId);
      assert s.materials[i].id == s.materialId && s.materials[i].typeName == Some(typeName);
      s
  }

  /** An order appended under a fresh key is the one a lookup by that key loads. */
  lemma AppendedOrderIsFound(orders: seq<Order>, o: Order, users: seq<ApplicationUser>, factories: seq<Factory>,
                             materials: seq<Material>)
    requires forall j :: 0 <= j < |orders| ==> orders[j].id < o.id
    ensures GetOrderWithDetails(orders + [o], users, factories, materials, o.id) == Some(Include(o, users, factories, materials))
  {
    var all := orders + [o];
    assert all[|orders|] == o;
    assert forall j :: 0 <= j < |orders| ==> all[j] == orders[j];
    assert OrderIndex(all, o.id) == Some(|orders|);
  }

  /** Every stored key is below the next identity value of its table. */
  ghost predicate KeysBelow(orders: seq<Order>, materials: seq<Material>, nextOrderId: int, nextMaterialId: int) {
    && (forall i :: 0 <= i < |orders| ==> orders[i].id < nextOrderId)
    && (forall i :: 0 <= i < |materials| ==> materials[i].id < nextMaterialId)
  }

  /** The outcome of `AddAsync` on given tables: the result and the saved tables. */
  datatype AddPlan = AddPlan(
    result: Result<OrderDto, ExceptionKind>,
    orders: seq<Order>,
    materials: seq<Material>,
    nextOrderId: int,
    nextMaterialId: int)

  /** `AddAsync`: a pending order for the first user with the given email, holding one
      material of the parsed type, at the first factory; the DTO of the order as the
      lookup after saving loads it. Nothing is saved when a step throws.
      `parseMaterialType` stands for `Enum.TryParse<MaterialType>(…, ignoreCase: true)`
      followed by `ToString()`, and `today` for `DateOnly.FromDateTime(DateTime.Now)`. */
  function PlanAdd(orders: seq<Order>, users: seq<ApplicationUser>, materials: seq<Material>, factories: seq<Factory>,
                   nextOrderId: int, nextMaterialId: int,
                   dto: CreateOrderDto, parseMaterialType: string -> Option<string>, today: Date): (p: AddPlan)
    ensures p.result.Err? ==> && p.orders == orders && p.materials == materials
                              && p.nextOrderId == nextOrderId && p.nextMaterialId == nextMaterialId
    ensures p.result == Err(KeyNotFoundException) <==> Linq.FirstIndex(users, HasEmail(dto.email)).None?
    ensures Linq.FirstIndex(users, HasEmail(dto.email)).Some? && parseMaterialType(dto.typeOfMaterial).None? ==>
      p.result == Err(ArgumentException)
    ensures (Linq.FirstIndex(users, HasEmail(dto.email)).Some? && parseMaterialType(dto.typeOfMaterial).Some?
             && factories == []) ==> p.result == Err(InvalidOperationException)
    ensures p.result.Ok? ==>
      && Linq.FirstIndex(users, HasEmail(dto.email)).Some?
      && parseMaterialType(dto.typeOfMaterial).Some?
      && factories != []
      && var staged := StageMaterial(materials, nextMaterialId, parseMaterialType(dto.typeOfMaterial).value, dto.quantity);
         var o := Order(nextOrderId, today, Pending, users[Linq.FirstIndex(users, HasEmail(dto.email)).value].id,
                        None, factories[0].id, [staged.materialId]);
         && p.orders == orders + [o] && p.nextOrderId == nextOrderId + 1
         && p.materials == staged.materials && p.nextMaterialId == staged.nextMaterialId
         && p.result.value == ToDto(Include(o, users, factories, p.materials))
    ensures KeysBelow(orders, materials, nextOrderId, nextMaterialId) ==>
      KeysBelow(p.orders, p.materials, p.nextOrderId, p.nextMaterialId)
  {
    match Linq.FirstIndex(users, HasEmail(dto.email))
    case None => AddPlan(Err(KeyNotFoundException), orders, materials, nextOrderId, nextMaterialId)
    case Some(ui) =>
      match parseMaterialType(dto.typeOfMaterial)
      case None => AddPlan(Err(ArgumentException), orders, materials, nextOrderId, nextMaterialId)
      case Some(typeName) =>
        if factories == [] then AddPlan(Err(InvalidOperationException), orders, materials, nextOrderId, nextMaterialId)
        else SaveNewOrder(orders, users, materials, factories, nextOrderId, nextMaterialId,
                          users[ui].id, typeName, dto.quantity, today)
  }

  /** The successful end of `AddAsync`: the material is staged, the order appended
      under the next key and both saved; the DTO is that of the order as it is loaded
      back by its key. */
  function SaveNewOrder(orders: seq<Order>, users: seq<ApplicationUser>, materials: seq<Material>, factories: seq<Factory>,
                        nextOrderId: int, nextMaterialId: int,
                        userId: string, typeName: string, quantity: Double, today: Date): (p: AddPlan)
    requires factories != []
    ensures var staged := StageMaterial(materials, nextMaterialId, typeName, quantity);
      var o := Order(nextOrderId, today, Pending, userId, None, factories[0].id, [staged.materialId]);
      && p.orders == orders + [o] && p.nextOrderId == nextOrderId + 1
      && p.materials == staged.materials && p.nextMaterialId == staged.nextMaterialId
      && p.result == Ok(ToDto(Include(o, users, factories, p.materials)))
    ensures KeysBelow(orders, materials, nextOrderId, nextMaterialId) ==>
      KeysBelow(p.orders, p.materials, p.nextOrderId, p.nextMaterialId)
  {
    var staged := StageMaterial(materials, nextMaterialId, typeName, quantity);
    var o := Order(nextOrderId, today, Pending, userId, None, factories[0].id, [staged.materialId]);
    var saved := orders + [o];
    var keysValid := KeysBelow(orders, materials, nextOrderId, nextMaterialId);
    assert keysValid ==> KeysBelow(saved, staged.materials, nextOrderId + 1, staged.nextMaterialId) by {
      assert forall j :: 0 <= j < |orders| ==> saved[j] == orders[j];
    }
    AddPlan(Ok(ToDto(Include(o, users, factories, staged.materials))), saved, staged.materials,
            nextOrderId + 1, staged.nextMaterialId)
  }

  /** The DTO `AddAsync` returns is that of the order the lookup by the new key loads. */
  lemma AddedOrderLoadsBack(orders: seq<Order>, users: seq<ApplicationUser>, materials: seq<Material>,
                            factories: seq<Factory>, nextOrderId: int, nextMaterialId: int,
                            dto: CreateOrderDto, parseMaterialType: string -> Option<string>, today: Date)
    requires KeysBelow(orders, materials, nextOrderId, nextMaterialId)
    requires Linq.FirstIndex(users, HasEmail(dto.email)).Some?
    requires parseMaterialType(dto.typeOfMaterial).Some? && factories != []
    ensures var p := PlanAdd(orders, users, materials, factories, nextOrderId, nextMaterialId, dto, parseMaterialType, today);
      && GetOrderWithDetails(p.orders, users, factories, p.materials, nextOrderId).Some?
      && p.result.value == ToDto(GetOrderWithDetails(p.orders, users, factories, p.materials, nextOrderId).value)
  {
    var p := PlanAdd(orders, users, materials, factories, nextOrderId, nextMaterialId, dto, parseMaterialType, today);
    var o := p.orders[|orders|];
    assert p.orders == orders + [o];
    AppendedOrderIsFound(orders, o, users, factories, p.materials);
  }

  /** A material that already exists for the type is reused: its size is overwritten
      and no material row is added. */
  lemma AddReusesMaterial(orders: seq<Order>, users: seq<ApplicationUser>, materials: seq<Material>,
                          factories: seq<Factory>, nextOrderId: int, nextMaterialId: int,
                          dto: CreateOrderDto, parseMaterialType: string -> Option<string>, today: Date)
    requires Linq.FirstIndex(users, HasEmail(dto.email)).Some?
    requires parseMaterialType(dto.typeOfMaterial).Some? && factories != []
    requires Linq.FirstIndex(materials, HasTypeName(parseMaterialType(dto.typeOfMaterial).value)).Some?
    ensures var p := PlanAdd(orders, users, materials, factories, nextOrderId, nextMaterialId, dto, parseMaterialType, today);
      var i := Linq.FirstIndex(materials, HasTypeName(parseMaterialType(dto.typeOfMaterial).value)).value;
      && |p.materials| == |materials|
      && p.materials[i].size == dto.quantity
      && p.orders[|orders|].materialIds == [materials[i].id]
      && forall j :: 0 <= j < |materials| && j != i ==> p.materials[j] == materials[j]
  {
  }

  class OrderService {
    var orders: seq<Order>
    var users: seq<ApplicationUser>
    var materials: seq<Material>
    var factories: seq<Factory>
    /** The identity values the database hands to the next order and material. */
    var nextOrderId: int
    var nextMaterialId: int

    /** Every stored key is below the next identity value, so a new row's key is fresh. */
    ghost predicate Valid()
      reads this
    {
      KeysBelow(orders, materials, nextOrderId, nextMaterialId)
    }

    /** A store with the given users and factories and no orders or materials yet. */
    constructor(users: seq<ApplicationUser>, factories: seq<Factory>)
      ensures Valid()
      ensures this.orders == [] && this.materials == []
      ensures this.users == users && this.factories == factories
    {
      this.orders := [];
      this.users := users;
      this.materials := [];
      this.factories := factories;
      this.nextOrderId := 1;
      this.nextMaterialId := 1;
    }

    /** `GetOrdersByStatusAsync(status)`: `Enum.Parse` runs before the table is read, so
        a status that is not a status name is its `ArgumentException`; otherwise the
        orders with that status, loaded and mapped by `ToDto`, each showing that status. */
    function GetOrdersByStatusAsync(status: string): (r: Result<seq<OrderDto>, ExceptionKind>)
      reads this
      ensures r.Err? <==> ParseStatus(status).None?
      ensures r.Err? ==> r.error == ArgumentException
      ensures r.Ok? ==>
        var rows := GetOrdersByStatus(orders, ParseStatus(status).value);
        && |r.value| == |rows|
        && forall k :: 0 <= k < |r.value| ==>
             r.value[k].id == rows[k].id && ParseStatus(r.value[k].status) == ParseStatus(status)
    {
      match ParseStatus(status)
      case None => Err(ArgumentException)
      case Some(st) =>
        Ok(ToDtos(GetOrdersByStatus(orders, st), users, factories, materials))
    }

    /** `CompleteOrderAsync`: in one transaction, marks a pending order `Completed` and
        adds its points to the submitting user (with `int` wrap-around). Every failure
        rolls the transaction back and is rethrown. `calculatePoints` stands for
        `PointsCalculator.CalculateOrderPoints`; `commitFailure` is the exception the commit
        throws, if it throws. */
    method CompleteOrder(orderId: int, calculatePoints: OrderDetails -> Int32, commitFailure: Option<ExceptionKind>)
      returns (r: Result<bool, ExceptionKind>)
      requires Valid()
      modifies this
      ensures Valid()
      ensures materials == old(materials) && factories == old(factories)
      ensures nextOrderId == old(nextOrderId) && nextMaterialId == old(nextMaterialId)
      ensures r.Err? ==> orders == old(orders) && users == old(users)
      ensures OrderIndex(old(orders), orderId).None? ==> r == Err(KeyNotFoundException)
      ensures commitFailure != Some(KeyNotFoundException) ==>
        (r == Err(KeyNotFoundException) <==> OrderIndex(old(orders), orderId).None?)
      ensures OrderIndex(old(orders), orderId).Some? ==>
        var k := OrderIndex(old(orders), orderId).value;
        var o := old(orders)[k];
        && (o.status != Pending ==> r == Err(InvalidOperationException))
        && (o.status == Pending && UserIndex(old(users), o.userId).None? ==> r == Err(InvalidOperationException))
        && (o.status == Pending && UserIndex(old(users), o.userId).Some? && commitFailure.Some? ==> r == Err(commitFailure.value))
        && (o.status == Pending && UserIndex(old(users), o.userId).Some? && commitFailure.None? ==>
              var u := UserIndex(old(users), o.userId).value;
              var earned := calculatePoints(Include(o, old(users), old(factories), old(materials)));
              && r == Ok(true)
              && orders == old(orders)[k := o.(status := Completed)]
              && users == old(users)[u := old(users)[u].(points := AddInt32(old(users)[u].points, earned))])
    {
      // BeginTransactionAsync
      var savedOrders, savedUsers := orders, users;
      var details := GetOrderWithDetails(orders, users, factories, materials, orderId);
      if details.None? {
        r := Err(KeyNotFoundException);
      } else if details.value.order.status != Pending {
        r := Err(InvalidOperationException);
      } else if details.value.user.None? {
        r := Err(InvalidOperationException);
      } else {
        var earned := calculatePoints(details.value);
        var u := UserIndex(users, details.value.order.userId).value;
        users := users[u := users[u].(points := AddInt32(users[u].points, earned))];
        var k := OrderIndex(orders, orderId).value;
        orders := orders[k := orders[k].(status := Completed)];
        if commitFailure.Some? {
          r := Err(commitFailure.value);
        } else {
          r := Ok(true);
        }
      }
      if r.Err? {
        // RollbackTransactionAsync, then rethrow
        orders, users := savedOrders, savedUsers;
      }
    }

    /** `CancelOrderAsync`: `false` for an unknown id; a completed order cannot be
        cancelled; any other order becomes `Cancelled`. Points are never touched. */
    method CancelOrder(orderId: int) returns (r: Result<bool, ExceptionKind>)
      requires Valid()
      modifies this
      ensures Valid()
      ensures users == old(users) && materials == old(materials) && factories == old(factories)
      ensures nextOrderId == old(nextOrderId) && nextMaterialId == old(nextMaterialId)
      ensures OrderIndex(old(orders), orderId).None? ==> r == Ok(false) && orders == old(orders)
      ensures OrderIndex(old(orders), orderId).Some? ==>
        var k := OrderIndex(old(orders), orderId).value;
        && (old(orders)[k].status == Completed ==> r == Err(InvalidOperationException) && orders == old(orders))
        && (old(orders)[k].status != Completed ==>
              r == Ok(true) && orders == old(orders)[k := old(orders)[k].(status := Cancelled)])
    {
      var found := OrderIndex(orders, orderId);
      if found.None? {
        return Ok(false);
      }
      var k := found.value;
      if orders[k].status == Completed {
        return Err(InvalidOperationException);
      }
      orders := orders[k := orders[k].(status := Cancelled)];
      r := Ok(true);
    }

    /** `AddAsync`, step by step as the service stages and saves it; `PlanAdd` states
        the outcome. */
    method Add(dto: CreateOrderDto, parseMaterialType: string -> Option<string>, today: Date)
      returns (r: Result<OrderDto, ExceptionKind>)
      requires Valid()
      modifies this
      ensures Valid()
      ensures users == old(users) && factories == old(factories)
      ensures var plan := PlanAdd(old(orders), old(users), old(materials), old(factories), old(nextOrderId),
                                  old(nextMaterialId), dto, parseMaterialType, today);
        && r == plan.result && orders == plan.orders && materials == plan.materials
        && nextOrderId == plan.nextOrderId && nextMaterialId == plan.nextMaterialId
    {
      ghost var plan := PlanAdd(orders, users, materials, factories, nextOrderId, nextMaterialId,
                                dto, parseMaterialType, today);
      var userAt := Linq.FirstIndex(users, HasEmail(dto.email));
      if userAt.None? {
        assert plan.result == Err(KeyNotFoundException);
        return Err(KeyNotFoundException);
      }
      var appUser := users[userAt.value];
      var parsed := parseMaterialType(dto.typeOfMaterial);
      if parsed.None? {
        assert plan.result == Err(ArgumentException);
        return Err(ArgumentException);
      }
      // Staged, not saved until SaveChangesAsync.
      var staged := StageMaterial(materials, nextMaterialId, parsed.value, dto.quantity);
      // factories.FirstOrDefault()
      if factories == [] {
        assert plan.result == Err(InvalidOperationException);
        return Err(InvalidOperationException);
      }
      var factory := factories[0];
      var order := Order(nextOrderId, today, Pending, appUser.id, None, factory.id, [staged.materialId]);
      assert plan == SaveNewOrder(orders, users, materials, factories, nextOrderId, nextMaterialId,
                                  appUser.id, parsed.value, dto.quantity, today);
      var created := SaveOrder(order, staged);
      r := Ok(created);
    }

    /** The end of `AddAsync`: adds the order and saves it with the staged materials;
        the DTO is that of the order as the lookup by its new key loads it back, which
        `AddedOrderLoadsBack` shows is the appended order with its references resolved. */
    method SaveOrder(order: Order, staged: StagedMaterial) returns (created: OrderDto)
      requires order.id == nextOrderId
      modifies this
      ensures orders == old(orders) + [order] && materials == staged.materials
      ensures nextOrderId == old(nextOrderId) + 1 && nextMaterialId == staged.nextMaterialId
      ensures users == old(users) && factories == old(factories)
      ensures created == ToDto(Include(order, users, factories, materials))
    {
      created := ToDto(Include(order, users, factories, staged.materials));
      orders := orders + [order];
      materials := staged.materials;
      nextOrderId := nextOrderId + 1;
      nextMaterialId := staged.nextMaterialId;
    }

    /** `UpdateAsync`: overwrites the five scalar columns of the order with the DTO's id.
        There is no check on the status transition. */
    method Update(dto: OrderDto) returns (r: Result<(), ExceptionKind>)
      requires Valid()
      modifies this
      ensures Valid()
      ensures users == old(users) && materials == old(materials) && factories == old(factories)
      ensures nextOrderId == old(nextOrderId) && nextMaterialId == old(nextMaterialId)
      ensures OrderIndex(old(orders), dto.id).None? ==> r == Err(KeyNotFoundException) && orders == old(orders)
      ensures OrderIndex(old(orders), dto.id).Some? ==>
        var k := OrderIndex(old(orders), dto.id).value;
        match UpdateEntityFromDto(dto, old(orders)[k])
        case Err(e) => r == Err(e) && orders == old(orders)
        case Ok(updated) => r == Ok(()) && orders == old(orders)[k := updated]
    {
      var found := OrderIndex(orders, dto.id);
      if found.None? {
        return Err(KeyNotFoundException);
      }
      var k := found.value;
      var updated := UpdateEntityFromDto(dto, orders[k]);
      if updated.Err? {
        return Err(updated.error);
      }
      orders := orders[k := updated.value];
      r := Ok(());
    }

    /** `DeleteAsync`: removes the order with this id. */
    method Delete(id: int) returns (r: Result<(), ExceptionKind>)
      requires Valid()
      modifies this
      ensures Valid()
      ensures users == old(users) && materials == old(materials) && factories == old(factories)
      ensures nextOrderId == old(nextOrderId) && nextMaterialId == old(nextMaterialId)
      ensures OrderIndex(old(orders), id).None? ==> r == Err(KeyNotFoundException) && orders == old(orders)
      ensures OrderIndex(old(orders), id).Some? ==>
        var k := OrderIndex(old(orders), id).value;
        && r == Ok(())
        && orders == old(orders)[..k] + old(orders)[k + 1..]
        && multiset(orders) == multiset(old(orders)) - multiset{old(orders)[k]}
    {
      var found := OrderIndex(orders, id);
      if found.None? {
        return Err(KeyNotFoundException);
      }
      var k := found.value;
      assert orders == orders[..k] + [orders[k]] + orders[k + 1..];
      orders := orders[..k] + orders[k + 1..];
      r := Ok(());
    }

    /** A second completion of the same order is rejected and awards nothing. */
    method CompleteTwice(orderId: int, calculatePoints: OrderDetails -> Int32)
      returns (first: Result<bool, ExceptionKind>, second: Result<bool, ExceptionKind>, usersAfterFirst: seq<ApplicationUser>)
      requires Valid()
      modifies this
      ensures first.Ok? ==> second == Err(InvalidOperationException) && users == usersAfterFirst
    {
      first := CompleteOrder(orderId, calculatePoints, None);
      usersAfterFirst := users;
      second := CompleteOrder(orderId, calculatePoints, None);
    }
  }
}
