/**
  The chargeback report.  Money is in whole cents, rates and quotients are exact, and rounding to the
  cent is any function that picks a nearest cent, so that no bound depends on how ties are broken.
 */
module CostReport {
  import opened Wrappers

  ghost predicate Nearest(rnd: real -> int) {
    forall x: real :: -0.5 <= rnd(x) as real - x <= 0.5
  }

  lemma RoundWhole(rnd: real -> int, n: int)
    requires Nearest(rnd)
    ensures rnd(n as real) == n
  {
    assert -0.5 <= rnd(n as real) as real - n as real <= 0.5;
  }

  // ----- products, named so that proofs about sums need not look inside them -----

  function Times(x: real, y: real): real {
    x * y
  }

  lemma TimesCast(m: int, n: int)
    ensures Times(m as real, n as real) == (m * n) as real
  {
  }

  lemma TimesQuotient(x: real, q: real)
    requires q > 0.0
    ensures Times(x / q, q) == x
  {
  }

  lemma TimesPlus(x: real, y: real, q: real)
    ensures Times(x + y, q) == Times(x, q) + Times(y, q)
  {
  }

  lemma TimesMinus(x: real, y: real, q: real)
    ensures Times(x - y, q) == Times(x, q) - Times(y, q)
  {
  }

  lemma TimesSign(x: real, y: real)
    requires y >= 0.0
    ensures x >= 0.0 ==> Times(x, y) >= 0.0
    ensures x > 0.0 && y > 0.0 ==> Times(x, y) > 0.0
  {
  }

  lemma TimesHalf(q: real)
    ensures Times(0.5, q) == 0.5 * q
  {
  }

  lemma TimesBound(d: real, q: real)
    requires q > 0.0 && -0.5 <= d <= 0.5
    ensures -0.5 * q <= Times(d, q) <= 0.5 * q
  {
    hide Times;
    TimesSign(0.5 - d, q);
    TimesSign(0.5 + d, q);
    TimesMinus(0.5, d, q);
    TimesPlus(0.5, d, q);
    TimesHalf(q);
  }

  const UNASSIGNED := "(unassigned)"

  datatype Contract = Contract(valueCents: int, billingInterval: string, seats: Option<int>, currency: string)
  datatype AssetType = AssetType(contractId: Option<int>, monthlyCostCents: Option<int>,
                                 currency: Option<string>, costCenter: string)
  datatype Order = Order(id: int, typeId: int, status: string, requesterCostCenter: string, requesterDepartment: string)
  datatype Tables = Tables(contracts: map<int, Contract>, types: map<int, AssetType>, orders: seq<Order>)

  predicate IsActive(status: string) {
    || status == "pending" || status == "pending_approval" || status == "scheduled" || status == "processing"
    || status == "provisioning" || status == "provisioned" || status == "delivered"
  }

  // ----- pricing seats, one rounding (SQL) -----

  function BillingDivisor(interval: string): int {
    if interval == "annual" then 12 else if interval == "quarterly" then 3 else 1
  }

  function MonthlyExact(c: Contract): real {
    c.valueCents as real / BillingDivisor(c.billingInterval) as real
  }

  predicate PerSeat(c: Contract) {
    c.seats.Some? && c.seats.value > 0
  }

  /** The contract an asset type is bound to, if the LEFT JOIN finds one. */
  function BoundContract(db: Tables, t: AssetType): Option<Contract> {
    if t.contractId.Some? && t.contractId.value in db.contracts then Some(db.contracts[t.contractId.value]) else None
  }

  function EffectiveUnit(db: Tables, t: AssetType): Option<real> {
    match BoundContract(db, t)
    case Some(c) => if PerSeat(c) then Some(MonthlyExact(c) / c.seats.value as real) else OwnPrice(t)
    case None => OwnPrice(t)
  }

  function OwnPrice(t: AssetType): Option<real> {
    if t.monthlyCostCents.Some? then Some(t.monthlyCostCents.value as real) else None
  }

  function EffectiveCurrency(db: Tables, t: AssetType): string {
    match BoundContract(db, t)
    case Some(c) => if PerSeat(c) then c.currency else t.currency.GetOr("")
    case None => t.currency.GetOr("")
  }

  datatype Row = Row(orderId: int, typeId: int, contractId: Option<int>, currency: string, monthly: int,
                     providerCostCenter: string, requesterCostCenter: string, requesterDepartment: string)

  /** The report row of one order, if it is active and its type is priced. */
  function OrderRow(db: Tables, o: Order, rnd: real -> int): Option<Row> {
    if !IsActive(o.status) || o.typeId !in db.types then None
    else
      var t := db.types[o.typeId];
      match EffectiveUnit(db, t)
      case None => None
      case Some(unit) =>
        Some(Row(o.id, o.typeId, if BoundContract(db, t).Some? then t.contractId else None,
                 EffectiveCurrency(db, t), rnd(unit),
                 if t.costCenter == "" then UNASSIGNED else t.costCenter,
                 o.requesterCostCenter, o.requesterDepartment))
  }

  function ReportRows(db: Tables, orders: seq<Order>, rnd: real -> int): seq<Row> {
    if orders == [] then []
    else
      var rest := ReportRows(db, orders[1..], rnd);
      match OrderRow(db, orders[0], rnd)
      case None => rest
      case Some(row) => [row] + rest
  }

  // ----- pricing seats, two roundings (Python) -----

  predicate Consumes(db: Tables, o: Order, cid: int) {
    IsActive(o.status) && o.typeId in db.types && db.types[o.typeId].contractId == Some(cid)
  }

  function Consumption(db: Tables, orders: seq<Order>, cid: int): nat {
    if orders == [] then 0
    else (if Consumes(db, orders[0], cid) then 1 else 0) + Consumption(db, orders[1..], cid)
  }

  datatype Utilisation = Utilisation(monthlyValue: int, consumption: nat, seatPrice: Option<int>,
                                     allocatedCents: Option<int>, shelfwareCents: Option<int>, overAllocated: bool)

  function Max(a: int, b: int): int {
    if a >= b then a else b
  }

  /** One contract in `_query_contracts_view`, given the order count of the join. */
  function ContractView(c: Contract, consumption: nat, rnd: real -> int): Utilisation {
    var monthly := rnd(MonthlyExact(c));
    if PerSeat(c) then
      var seats := c.seats.value;
      var price := rnd(monthly as real / seats as real);
      Utilisation(monthly, consumption, Some(price),
                  Some(rnd((price * consumption) as real)),
                  Some(rnd((price * Max(0, seats - consumption)) as real)),
                  consumption > seats)
    else
      Utilisation(monthly, consumption, None, None, None, false)
  }

  // ----- the two pricings against each other -----

  lemma DivideBound(x: real, y: real, s: int)
    requires s > 0 && -0.5 <= x - y <= 0.5
    ensures -0.5 <= x / s as real - y / s as real <= 0.5
  {
    hide Times;
    var q := s as real;
    TimesQuotient(x, q);
    TimesQuotient(y, q);
    TimesMinus(x / q, y / q, q);
    SmallQuotient(x / q - y / q, q);
  }

  lemma SmallQuotient(d: real, q: real)
    requires q >= 1.0 && -0.5 <= Times(d, q) <= 0.5
    ensures -0.5 <= d <= 0.5
  {
    hide Times;
    TimesMinus(d, 0.5, q);
    TimesPlus(d, 0.5, q);
    TimesMinus(0.0, d + 0.5, q);
    TimesZero(q);
    TimesHalf(q);
    TimesSign(d - 0.5, q);
    TimesSign(0.0 - (d + 0.5), q);
  }

  lemma TimesZero(q: real)
    ensures Times(0.0, q) == 0.0
  {
  }

  /** One seat, priced with one rounding and with two: never more than a cent apart. */
  lemma SeatPricesWithinACent(c: Contract, rnd: real -> int)
    requires Nearest(rnd) && PerSeat(c)
    ensures var once := rnd(MonthlyExact(c) / c.seats.value as real);
            var twice := ContractView(c, 0, rnd).seatPrice.value;
            -1 <= once - twice <= 1
  {
    var exact, seats := MonthlyExact(c), c.seats.value;
    var monthly := rnd(exact);
    assert -0.5 <= monthly as real - exact <= 0.5;
    DivideBound(exact, monthly as real, seats);
    assert -0.5 <= rnd(exact / seats as real) as real - exact / seats as real <= 0.5;
    assert -0.5 <= rnd(monthly as real / seats as real) as real - monthly as real / seats as real <= 0.5;
  }

  /** The cent is really lost: 35 cents a year for two seats, with ties rounded up or to even. */
  lemma SeatPricesDoDiffer(rnd: real -> int)
    requires Nearest(rnd) && rnd(1.5) == 2
    ensures var c := Contract(35, "annual", Some(2), "EUR");
            rnd(MonthlyExact(c) / 2.0) == 1 && ContractView(c, 0, rnd).seatPrice == Some(2)
  {
    var c := Contract(35, "annual", Some(2), "EUR");
    var exact := 35.0 / 12.0;
    assert -0.5 <= rnd(exact) as real - exact <= 0.5;
    assert rnd(exact) == 3;
    assert 3 as real / 2 as real == 1.5;
    assert -0.5 <= rnd(exact / 2.0) as real - exact / 2.0 <= 0.5;
  }

  /** What the per-order rows bill to one contract. */
  function BilledTo(rows: seq<Row>, cid: int): int {
    if rows == [] then 0
    else (if rows[0].contractId == Some(cid) then rows[0].monthly else 0) + BilledTo(rows[1..], cid)
  }

  /** An order is billed to the contracts it consumes a seat of, and to no other. */
  lemma OrderRowBilling(db: Tables, o: Order, cid: int, rnd: real -> int)
    requires cid in db.contracts && PerSeat(db.contracts[cid])
    ensures var row := OrderRow(db, o, rnd);
            var c := db.contracts[cid];
            if Consumes(db, o, cid) then
              row.Some? && row.value.contractId == Some(cid)
                  && row.value.monthly == rnd(MonthlyExact(c) / c.seats.value as real)
            else
              row.None? || row.value.contractId != Some(cid)
  {
  }

  function Repeated(price: int, n: nat): int {
    if n == 0 then 0 else price + Repeated(price, n - 1)
  }

  lemma {:induction false} RepeatedIsProduct(price: int, n: nat)
    ensures Repeated(price, n) == price * n
  {
    if n > 0 {
      RepeatedIsProduct(price, n - 1);
      assert price * n == price * (n - 1) + price;
    }
  }

  lemma {:induction false} BilledNearConsumption(db: Tables, orders: seq<Order>, cid: int, rnd: real -> int)
    requires Nearest(rnd) && cid in db.contracts && PerSeat(db.contracts[cid])
    ensures var price := ContractView(db.contracts[cid], 0, rnd).seatPrice.value;
            var n := Consumption(db, orders, cid);
            -(n as int) <= BilledTo(ReportRows(db, orders, rnd), cid) - Repeated(price, n) <= n
  {
    var price := ContractView(db.contracts[cid], 0, rnd).seatPrice.value;
    if orders != [] {
      BilledNearConsumption(db, orders[1..], cid, rnd);
      SeatPricesWithinACent(db.contracts[cid], rnd);
      OrderRowBilling(db, orders[0], cid, rnd);
      var once := rnd(MonthlyExact(db.contracts[cid]) / db.contracts[cid].seats.value as real);
      hide OrderRow, ContractView, Consumes, Nearest, PerSeat, MonthlyExact;
      var rest := ReportRows(db, orders[1..], rnd);
      var row := OrderRow(db, orders[0], rnd);
      if row.Some? {
        assert ([row.value] + rest)[1..] == rest;
      }
    }
  }

  /**
    The per-order rows and the contract view price the same seats independently; over any set of orders
    they disagree by at most one cent per consumed seat.
   */
  lemma PricingsAgree(db: Tables, cid: int, rnd: real -> int)
    requires Nearest(rnd) && cid in db.contracts && PerSeat(db.contracts[cid])
    ensures var n := Consumption(db, db.orders, cid);
            var view := ContractView(db.contracts[cid], n, rnd);
            && view.allocatedCents.Some?
            && -(n as int) <= BilledTo(ReportRows(db, db.orders, rnd), cid) - view.allocatedCents.value <= n
  {
    var n := Consumption(db, db.orders, cid);
    var price := ContractView(db.contracts[cid], 0, rnd).seatPrice.value;
    BilledNearConsumption(db, db.orders, cid, rnd);
    RepeatedIsProduct(price, n);
    RoundWhole(rnd, price * n);
  }

  lemma ScaleBound(p: int, m: int, s: int)
    requires s > 0 && -0.5 <= p as real - m as real / s as real <= 0.5
    ensures -s <= 2 * (p * s - m) <= s
  {
    hide Times;
    var q, x := s as real, m as real / s as real;
    TimesCast(p, s);
    TimesQuotient(m as real, q);
    TimesMinus(p as real, x, q);
    TimesBound(p as real - x, q);
    Doubled(p * s - m, s);
  }

  lemma Doubled(d: int, s: int)
    requires -0.5 * s as real <= d as real <= 0.5 * s as real
    ensures -s <= 2 * d <= s
  {
    assert (d + d) as real == d as real + d as real;
  }

  lemma SeatsSplit(price: int, used: nat, seats: nat)
    ensures price * used + price * (seats - used) == price * seats && price * 0 == 0
  {
  }

  /**
    Until the contract is over-allocated, consumed and unused seats together account for every seat,
    and their price is within half a cent per seat of the contract's monthly value; past that point
    there is no shelfware.
   */
  lemma ContractConserved(c: Contract, consumption: nat, rnd: real -> int)
    requires Nearest(rnd) && PerSeat(c)
    ensures var view := ContractView(c, consumption, rnd);
            var seats, price := c.seats.value, view.seatPrice.value;
            && view.seatPrice.Some? && view.allocatedCents.Some? && view.shelfwareCents.Some?
            && view.allocatedCents.value == price * consumption
            && (view.overAllocated <==> consumption > seats)
            && (!view.overAllocated ==> view.allocatedCents.value + view.shelfwareCents.value == seats * price)
            && (view.overAllocated ==> view.shelfwareCents.value == 0)
            && -seats <= 2 * (seats * price - view.monthlyValue) <= seats
            && (c.billingInterval == "annual" ==> -6 <= 12 * view.monthlyValue - c.valueCents <= 6)
            && (c.billingInterval == "quarterly" ==> -1 <= 3 * view.monthlyValue - c.valueCents <= 1)
            && (c.billingInterval !in {"annual", "quarterly"} ==> view.monthlyValue == c.valueCents)
  {
    var view := ContractView(c, consumption, rnd);
    var seats, price := c.seats.value, view.seatPrice.value;
    RoundWhole(rnd, price * consumption);
    RoundWhole(rnd, price * Max(0, seats - consumption));
    assert -0.5 <= price as real - view.monthlyValue as real / seats as real <= 0.5;
    ScaleBound(price, view.monthlyValue, seats);
    SeatsSplit(price, consumption, seats);
    MonthlyValueIs(c, rnd);
  }

  /** A contract without seats is shown with its monthly value alone. */
  lemma NoSeatsNoPrice(c: Contract, consumption: nat, rnd: real -> int)
    requires c.seats.None? || c.seats.value <= 0
    ensures ContractView(c, consumption, rnd) == Utilisation(rnd(MonthlyExact(c)), consumption, None, None, None, false)
  {
  }

  lemma MonthlyValueIs(c: Contract, rnd: real -> int)
    requires Nearest(rnd)
    ensures var monthly := rnd(MonthlyExact(c));
            && (c.billingInterval == "annual" ==> -6 <= 12 * monthly - c.valueCents <= 6)
            && (c.billingInterval == "quarterly" ==> -1 <= 3 * monthly - c.valueCents <= 1)
            && (c.billingInterval !in {"annual", "quarterly"} ==> monthly == c.valueCents)
  {
    var exact := MonthlyExact(c);
    assert -0.5 <= rnd(exact) as real - exact <= 0.5;
    ScaleBound(rnd(exact), c.valueCents, BillingDivisor(c.billingInterval));
  }

  // ----- what a price is -----

  /** A seat's price `price` for a contract that bills `value` once in `months` months. */
  predicate PriceOfSeat(price: int, value: int, months: int, seats: int) {
    -(months * seats) <= 2 * (price * (months * seats) - value) <= months * seats
  }

  lemma PriceBound(price: int, value: int, months: int, seats: int)
    requires months > 0 && seats > 0
    requires -0.5 <= price as real - value as real / months as real / seats as real <= 0.5
    ensures PriceOfSeat(price, value, months, seats)
  {
    var n := months * seats;
    assert n > 0;
    hide Times;
    var m, q, x := months as real, seats as real, value as real;
    assert x / m / q == x / n as real by {
      TimesCast(months, seats);
      QuotientTwice(x, m, q);
    }
    ScaleBound(price, value, n);
  }

  lemma QuotientTwice(x: real, m: real, q: real)
    requires m > 0.0 && q > 0.0
    ensures Times(m, q) > 0.0 && x / m / q == x / Times(m, q)
  {
    TimesSign(m, q);
    var y := x / m / q;
    TimesQuotient(x / m, q);
    TimesQuotient(x, m);
    assert Times(Times(y, q), m) == x;
    TimesThrice(y, q, m);
    QuotientBack(y, Times(m, q));
  }

  lemma TimesThrice(x: real, y: real, z: real)
    ensures Times(Times(x, y), z) == Times(x, Times(z, y))
  {
  }

  lemma QuotientBack(y: real, z: real)
    requires z > 0.0
    ensures Times(y, z) / z == y
  {
  }

  /**
    The row of one order.  Only an active order of a priced type has one.  A type bound to a contract with
    seats is priced by the seat, a yearly value spread over twelve months and a quarterly one over three, to
    the nearest cent; any other type by its own monthly cost.  The currency comes from where the price does.
   */
  lemma OrderRowIs(db: Tables, o: Order, rnd: real -> int)
    requires Nearest(rnd)
    ensures var active := o.status in {"pending", "pending_approval", "scheduled", "processing", "provisioning",
                                       "provisioned", "delivered"};
            var row := OrderRow(db, o, rnd);
            && (row.Some? ==>
                  && o.typeId in db.types && row.value.orderId == o.id && row.value.typeId == o.typeId
                  && row.value.requesterCostCenter == o.requesterCostCenter
                  && row.value.requesterDepartment == o.requesterDepartment
                  && row.value.providerCostCenter
                     == if db.types[o.typeId].costCenter == "" then "(unassigned)" else db.types[o.typeId].costCenter)
            && if !active || o.typeId !in db.types then row == None
            else
              var t := db.types[o.typeId];
              if t.contractId.Some? && t.contractId.value in db.contracts
                 && db.contracts[t.contractId.value].seats.GetOr(0) > 0 then
                var c := db.contracts[t.contractId.value];
                && row.Some? && row.value.currency == c.currency
                && PriceOfSeat(row.value.monthly, c.valueCents,
                               if c.billingInterval == "annual" then 12
                               else if c.billingInterval == "quarterly" then 3 else 1,
                               c.seats.value)
              else if t.monthlyCostCents.None? then row == None
              else
                && row.Some? && row.value.currency == t.currency.GetOr("")
                && row.value.monthly == t.monthlyCostCents.value
  {
    var row := OrderRow(db, o, rnd);
    if IsActive(o.status) && o.typeId in db.types {
      var t := db.types[o.typeId];
      if t.contractId.Some? && t.contractId.value in db.contracts && PerSeat(db.contracts[t.contractId.value]) {
        var c := db.contracts[t.contractId.value];
        var exact := MonthlyExact(c) / c.seats.value as real;
        assert -0.5 <= rnd(exact) as real - exact <= 0.5;
        PriceBound(rnd(exact), c.valueCents, BillingDivisor(c.billingInterval), c.seats.value);
      } else if t.monthlyCostCents.Some? {
        RoundWhole(rnd, t.monthlyCostCents.value);
      }
    }
  }

  // ----- grouping -----

  /** A summary bucket.  Buckets sit in a list in the order their keys were first met, as in a dict. */
  datatype Bucket = Bucket(key: string, currency: string, total: int, orders: int, types: set<int>)

  function KeyOf(field: Row -> string, row: Row): (key: string)
    ensures key != "" && (key == field(row) || (field(row) == "" && key == "(unassigned)"))
  {
    if field(row) == "" then UNASSIGNED else field(row)
  }

  function AddRow(buckets: seq<Bucket>, key: string, row: Row): seq<Bucket> {
    if buckets == [] then [Bucket(key, row.currency, row.monthly, 1, {row.typeId})]
    else if buckets[0].key == key && buckets[0].currency == row.currency then
      var b := buckets[0];
      [b.(total := b.total + row.monthly, orders := b.orders + 1, types := b.types + {row.typeId})] + buckets[1..]
    else [buckets[0]] + AddRow(buckets[1..], key, row)
  }

  function AggregatedFrom(buckets: seq<Bucket>, rows: seq<Row>, field: Row -> string): seq<Bucket>
    decreases |rows|
  {
    if rows == [] then buckets
    else AggregatedFrom(AddRow(buckets, KeyOf(field, rows[0]), rows[0]), rows[1..], field)
  }

  method AggregateBy(rows: seq<Row>, field: Row -> string) returns (buckets: seq<Bucket>)
    ensures buckets == AggregatedFrom([], rows, field)
  {
    buckets := [];
    for k := 0 to |rows|
      invariant AggregatedFrom([], rows, field) == AggregatedFrom(buckets, rows[k..], field)
    {
      var key := if field(rows[k]) == "" then UNASSIGNED else field(rows[k]);
      buckets := AddRow(buckets, key, rows[k]);
    }
  }

  /** Selects buckets or rows by key and currency. */
  type Selection = (string, string) -> bool

  type Weight = (string, string) -> real

  function WeightedTotal(buckets: seq<Bucket>, w: Weight): real {
    if buckets == [] then 0.0
    else Times(buckets[0].total as real, w(buckets[0].key, buckets[0].currency)) + WeightedTotal(buckets[1..], w)
  }

  function OrdersWhere(buckets: seq<Bucket>, p: Selection): int {
    if buckets == [] then 0
    else (if p(buckets[0].key, buckets[0].currency) then buckets[0].orders else 0) + OrdersWhere(buckets[1..], p)
  }

  function RowWeightedTotal(rows: seq<Row>, field: Row -> string, w: Weight): real {
    if rows == [] then 0.0
    else
      Times(rows[0].monthly as real, w(KeyOf(field, rows[0]), rows[0].currency)) + RowWeightedTotal(rows[1..], field, w)
  }

  function RowCountWhere(rows: seq<Row>, field: Row -> string, p: Selection): int {
    if rows == [] then 0
    else (if p(KeyOf(field, rows[0]), rows[0].currency) then 1 else 0) + RowCountWhere(rows[1..], field, p)
  }

  predicate DistinctKeys(buckets: seq<Bucket>) {
    forall i, j :: 0 <= i < j < |buckets| ==>
          buckets[i].key != buckets[j].key || buckets[i].currency != buckets[j].currency
  }

  /** The asset types met in the selected buckets, or in the selected rows. */
  function TypesWhere(buckets: seq<Bucket>, p: Selection): set<int> {
    if buckets == [] then {}
    else (if p(buckets[0].key, buckets[0].currency) then buckets[0].types else {}) + TypesWhere(buckets[1..], p)
  }

  function RowTypesWhere(rows: seq<Row>, field: Row -> string, p: Selection): set<int> {
    if rows == [] then {}
    else
      (if p(KeyOf(field, rows[0]), rows[0].currency) then {rows[0].typeId} else {}) + RowTypesWhere(rows[1..], field, p)
  }

  lemma {:induction false} AddRowTotal(buckets: seq<Bucket>, key: string, row: Row, w: Weight)
    ensures WeightedTotal(AddRow(buckets, key, row), w)
            == WeightedTotal(buckets, w) + Times(row.monthly as real, w(key, row.currency))
  {
    hide Times;
    if buckets != [] {
      var after := AddRow(buckets, key, row);
      if buckets[0].key == key && buckets[0].currency == row.currency {
        assert after[1..] == buckets[1..];
        TimesPlus(buckets[0].total as real, row.monthly as real, w(key, row.currency));
      } else {
        AddRowTotal(buckets[1..], key, row, w);
        assert after[1..] == AddRow(buckets[1..], key, row);
      }
    }
  }

  lemma {:induction false} AddRowCounts(buckets: seq<Bucket>, key: string, row: Row, p: Selection)
    ensures OrdersWhere(AddRow(buckets, key, row), p) == OrdersWhere(buckets, p) + if p(key, row.currency) then 1 else 0
    ensures TypesWhere(AddRow(buckets, key, row), p)
         == TypesWhere(buckets, p) + if p(key, row.currency) then {row.typeId} else {}
  {
    if buckets != [] {
      var after := AddRow(buckets, key, row);
      if buckets[0].key == key && buckets[0].currency == row.currency {
        assert after[1..] == buckets[1..];
      } else {
        AddRowCounts(buckets[1..], key, row, p);
        assert after[1..] == AddRow(buckets[1..], key, row);
      }
    }
  }

  predicate HasKey(buckets: seq<Bucket>, key: string, currency: string) {
    exists i :: 0 <= i < |buckets| && buckets[i].key == key && buckets[i].currency == currency
  }

  lemma {:induction false} AddRowHasKey(buckets: seq<Bucket>, key: string, row: Row, k: string, c: string)
    ensures HasKey(AddRow(buckets, key, row), k, c) <==> HasKey(buckets, k, c) || (k == key && c == row.currency)
  {
    var after := AddRow(buckets, key, row);
    if buckets == [] {
      assert after[0].key == key && after[0].currency == row.currency;
    } else {
      HasKeyCons(buckets[0], buckets[1..], k, c);
      HasKeyCons(after[0], after[1..], k, c);
      assert buckets == [buckets[0]] + buckets[1..] && after == [after[0]] + after[1..];
      if buckets[0].key != key || buckets[0].currency != row.currency {
        AddRowHasKey(buckets[1..], key, row, k, c);
      }
    }
  }

  lemma HasKeyCons(b: Bucket, rest: seq<Bucket>, k: string, c: string)
    ensures HasKey([b] + rest, k, c) <==> (b.key == k && b.currency == c) || HasKey(rest, k, c)
  {
    var all := [b] + rest;
    if HasKey(rest, k, c) {
      var i :| 0 <= i < |rest| && rest[i].key == k && rest[i].currency == c;
      assert all[i + 1].key == k && all[i + 1].currency == c;
    }
    if b.key == k && b.currency == c {
      assert all[0].key == k;
    }
  }

  lemma {:induction false} AddRowKeys(buckets: seq<Bucket>, key: string, row: Row)
    requires DistinctKeys(buckets)
    ensures DistinctKeys(AddRow(buckets, key, row))
  {
    if buckets != [] && (buckets[0].key != key || buckets[0].currency != row.currency) {
      var rest := AddRow(buckets[1..], key, row);
      AddRowKeys(buckets[1..], key, row);
      AddRowHasKey(buckets[1..], key, row, buckets[0].key, buckets[0].currency);
      assert !HasKey(buckets[1..], buckets[0].key, buckets[0].currency);
      forall j | 0 <= j < |rest| ensures rest[j].key != buckets[0].key || rest[j].currency != buckets[0].currency {
        if rest[j].key == buckets[0].key && rest[j].currency == buckets[0].currency {
          assert HasKey(rest, buckets[0].key, buckets[0].currency);
        }
      }
    }
  }

  /** Grouping neither loses nor invents a cent, however keys and currencies are weighted. */
  lemma {:induction false} GroupingKeepsMoney(buckets: seq<Bucket>, rows: seq<Row>, field: Row -> string, w: Weight)
    ensures WeightedTotal(AggregatedFrom(buckets, rows, field), w)
            == WeightedTotal(buckets, w) + RowWeightedTotal(rows, field, w)
    decreases |rows|
  {
    hide AddRow, KeyOf, WeightedTotal, Times;
    if rows != [] {
      var key := KeyOf(field, rows[0]);
      AddRowTotal(buckets, key, rows[0], w);
      GroupingKeepsMoney(AddRow(buckets, key, rows[0]), rows[1..], field, w);
    }
  }

  /** Nor an order, nor an asset type, for any choice of keys and currencies. */
  lemma {:induction false} GroupingKeepsOrders(buckets: seq<Bucket>, rows: seq<Row>, field: Row -> string, p: Selection)
    ensures var after := AggregatedFrom(buckets, rows, field);
            && OrdersWhere(after, p) == OrdersWhere(buckets, p) + RowCountWhere(rows, field, p)
            && TypesWhere(after, p) == TypesWhere(buckets, p) + RowTypesWhere(rows, field, p)
    decreases |rows|
  {
    if rows != [] {
      var key := KeyOf(field, rows[0]);
      AddRowCounts(buckets, key, rows[0], p);
      GroupingKeepsOrders(AddRow(buckets, key, rows[0]), rows[1..], field, p);
    }
  }

  lemma {:induction false} GroupingKeepsKeysApart(buckets: seq<Bucket>, rows: seq<Row>, field: Row -> string)
    requires DistinctKeys(buckets)
    ensures DistinctKeys(AggregatedFrom(buckets, rows, field))
    decreases |rows|
  {
    if rows != [] {
      AddRowKeys(buckets, KeyOf(field, rows[0]), rows[0]);
      GroupingKeepsKeysApart(AddRow(buckets, KeyOf(field, rows[0]), rows[0]), rows[1..], field);
    }
  }

  // ----- counting asset types across currencies -----

  predicate OneCurrencyPerType(rows: seq<Row>) {
    forall i, j :: 0 <= i < |rows| && 0 <= j < |rows| && rows[i].typeId == rows[j].typeId ==>
          rows[i].currency == rows[j].currency
  }

  lemma {:induction false} ReportRowsHaveTypeCurrency(db: Tables, orders: seq<Order>, rnd: real -> int)
    ensures forall r :: r in ReportRows(db, orders, rnd) ==>
              r.typeId in db.types && r.currency == EffectiveCurrency(db, db.types[r.typeId])
  {
    if orders != [] {
      ReportRowsHaveTypeCurrency(db, orders[1..], rnd);
    }
  }

  lemma {:induction false} RowTypesMember(rows: seq<Row>, field: Row -> string, p: Selection)
    ensures forall t :: t in RowTypesWhere(rows, field, p) <==>
              exists i :: 0 <= i < |rows| && rows[i].typeId == t && p(KeyOf(field, rows[i]), rows[i].currency)
  {
    if rows != [] {
      RowTypesMember(rows[1..], field, p);
      forall t
        ensures t in RowTypesWhere(rows, field, p) <==>
                exists i :: 0 <= i < |rows| && rows[i].typeId == t && p(KeyOf(field, rows[i]), rows[i].currency)
      {
        if t in RowTypesWhere(rows[1..], field, p) {
          var i :| 0 <= i < |rows[1..]| && rows[1..][i].typeId == t
              && p(KeyOf(field, rows[1..][i]), rows[1..][i].currency);
          assert rows[i + 1].typeId == t;
        }
        if i :| 0 <= i < |rows| && rows[i].typeId == t && p(KeyOf(field, rows[i]), rows[i].currency) {
          if i > 0 {
            assert rows[1..][i - 1].typeId == t;
          }
        }
      }
    }
  }

  lemma {:induction false} TypesOfOneBucket(buckets: seq<Bucket>, i: nat)
    requires DistinctKeys(buckets) && i < |buckets|
    ensures TypesWhere(buckets, (k, c) => k == buckets[i].key && c == buckets[i].currency) == buckets[i].types
  {
    var p: Selection := (k, c) => k == buckets[i].key && c == buckets[i].currency;
    if i == 0 {
      NoTypes(buckets[1..], p);
    } else {
      var q: Selection := (k, c) => k == buckets[1..][i - 1].key && c == buckets[1..][i - 1].currency;
      TypesOfOneBucket(buckets[1..], i - 1);
      SameSelection(buckets[1..], p, q);
    }
  }

  lemma {:induction false} NoTypes(buckets: seq<Bucket>, p: Selection)
    requires forall b :: b in buckets ==> !p(b.key, b.currency)
    ensures TypesWhere(buckets, p) == {}
  {
    if buckets != [] {
      NoTypes(buckets[1..], p);
    }
  }

  lemma {:induction false} SameSelection(buckets: seq<Bucket>, p: Selection, q: Selection)
    requires forall k, c :: p(k, c) == q(k, c)
    ensures TypesWhere(buckets, p) == TypesWhere(buckets, q)
  {
    if buckets != [] {
      SameSelection(buckets[1..], p, q);
    }
  }

  /** Buckets of one key never share an asset type. */
  predicate TypesApart(buckets: seq<Bucket>) {
    forall i, j :: 0 <= i < j < |buckets| && buckets[i].key == buckets[j].key ==> buckets[i].types !! buckets[j].types
  }

  lemma GroupedTypesApart(rows: seq<Row>, field: Row -> string)
    requires OneCurrencyPerType(rows)
    ensures TypesApart(AggregatedFrom([], rows, field))
  {
    var buckets := AggregatedFrom([], rows, field);
    GroupingKeepsKeysApart([], rows, field);
    forall i, j | 0 <= i < j < |buckets| && buckets[i].key == buckets[j].key
      ensures buckets[i].types !! buckets[j].types
    {
      var p: Selection := (k, c) => k == buckets[i].key && c == buckets[i].currency;
      var q: Selection := (k, c) => k == buckets[j].key && c == buckets[j].currency;
      TypesOfOneBucket(buckets, i);
      TypesOfOneBucket(buckets, j);
      GroupingKeepsOrders([], rows, field, p);
      GroupingKeepsOrders([], rows, field, q);
      RowTypesMember(rows, field, p);
      RowTypesMember(rows, field, q);
    }
  }
}
