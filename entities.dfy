/** The persisted entities the core reads and writes, as values. Navigation properties
    are replaced by the foreign-key ids the tables store; the repositories resolve them. */
module Entities {
  import opened Wrappers
  import opened DotNet

  /** Order lifecycle; stored as its name. */
  datatype OrderStatus = Pending | Completed | Cancelled

  /** `DateOnly` and `DateTime`, kept opaque: no calendar arithmetic is modelled. */
  datatype Date = Date(dayNumber: int)
  datatype DateTime = DateTime(ticks: int)

  /** A `double` kept as its IEEE-754 bit pattern: the core only copies it. */
  datatype Double = Double(bits: bv64)

  /** A `decimal` as mantissa and scale: the core only stores the literal 0. */
  datatype Decimal = Decimal(mantissa: int, scale: nat)

  datatype Order = Order(
    id: int,
    orderDate: Date,
    status: OrderStatus,
    userId: string,              // the submitting user
    collectorId: Option<string>, // the collector, once assigned
    factoryId: int,
    materialIds: seq<int>)       // the OrderMaterial join rows of this order

  datatype ApplicationUser = ApplicationUser(
    id: string,
    userName: Option<string>,
    email: Option<string>,
    fullName: string,
    points: Int32)

  datatype Material = Material(
    id: int,
    typeName: Option<string>,
    size: Double,
    price: Decimal,
    factoryId: Option<int>)

  datatype Factory = Factory(id: int, name: string, location: string)

  datatype Reward = Reward(
    id: int,
    name: string,
    description: string,
    category: string,
    requiredPoints: Int32,
    stockQuantity: Int32,
    isAvailable: bool,
    imageUrl: Option<string>)

  /** One redemption in the audit trail: who claimed which reward, when, for how many points. */
  datatype HistoryReward = HistoryReward(
    id: int,
    userId: string,
    rewardId: int,
    claimedAt: DateTime,
    pointsUsed: Int32)

  /** `OrderStatus.ToString()`. */
  function StatusName(s: OrderStatus): (r: string)
    ensures r != [] && !IsWhiteSpace(r[0]) && !IsWhiteSpace(r[|r| - 1])
  {
    match s
    case Pending => "Pending"
    case Completed => "Completed"
    case Cancelled => "Cancelled"
  }

  /** `Enum.Parse<OrderStatus>(s)` on names: case-sensitive, surrounding white space
      ignored; `None` where the framework throws `ArgumentException`. */
  function ParseStatus(s: string): (r: Option<OrderStatus>)
    ensures r.Some? ==> StatusName(r.value) == Trim(s)
    ensures r.None? ==> forall st: OrderStatus :: StatusName(st) != Trim(s)
  {
    var t := Trim(s);
    if t == "Pending" then Some(Pending)
    else if t == "Completed" then Some(Completed)
    else if t == "Cancelled" then Some(Cancelled)
    else None
  }

  /** Printing a status and parsing it back gives the same status. */
  lemma StatusRoundTrip(s: OrderStatus)
    ensures ParseStatus(StatusName(s)) == Some(s)
  {
    var n := StatusName(s);
    assert n[0] in "PC" && n[|n| - 1] in "gd";
    TrimUnpadded(n);
  }
}
