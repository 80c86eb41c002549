/** The optional currency conversion of the summary cards: convert row by row, then collapse by key. */
module FxReport {
  import opened Wrappers
  import opened CostReport
  import opened Text

  datatype Summary = Summary(key: string, currency: string, total: int, orders: int, assetTypes: int)

  /** The list `_aggregate_by` returns for its buckets. */
  function Summaries(buckets: seq<Bucket>): seq<Summary> {
    if buckets == [] then []
    else [Summary(buckets[0].key, buckets[0].currency, buckets[0].total, buckets[0].orders, |buckets[0].types|)]
         + Summaries(buckets[1..])
  }

  // ----- converting -----

  /** A (source) currency that can be expressed in the target currency. */
  predicate Convertible(src: string, target: string, rates: map<string, real>) {
    src == target || (src in rates && target in rates && rates[target] > 0.0)
  }

  function Factor(src: string, target: string, rates: map<string, real>): real {
    if src != target && Convertible(src, target, rates) then rates[src] / rates[target] else 1.0
  }

  function Scaled(cents: int, factor: real, rnd: real -> int): int {
    rnd(Times(cents as real, factor))
  }

  function ConvertOne(r: Summary, target: string, rates: map<string, real>, rnd: real -> int): Option<Summary> {
    var src := Upper(r.currency);
    if src == "" || !Convertible(src, target, rates) then None
    else if src == target then Some(r.(currency := target))
    else Some(r.(currency := target, total := Scaled(r.total, Factor(src, target, rates), rnd)))
  }

  function Converted(rows: seq<Summary>, target: string, rates: map<string, real>, rnd: real -> int): seq<Summary> {
    if rows == [] then []
    else
      var rest := Converted(rows[1..], target, rates, rnd);
      match ConvertOne(rows[0], target, rates, rnd)
      case None => rest
      case Some(r) => [r] + rest
  }

  /** The currencies reported as excluded. */
  function Excluded(rows: seq<Summary>, target: string, rates: map<string, real>): set<string> {
    set r | r in rows && Upper(r.currency) != "" && Upper(r.currency) != target
            && (Upper(r.currency) !in rates || target !in rates || rates[target] <= 0.0) :: Upper(r.currency)
  }

  lemma ExcludedSnoc(rows: seq<Summary>, r: Summary, target: string, rates: map<string, real>)
    ensures Excluded(rows + [r], target, rates)
         == Excluded(rows, target, rates)
            + if Upper(r.currency) != "" && !Convertible(Upper(r.currency), target, rates)
              then {Upper(r.currency)}
              else {}
  {
    hide Upper;
  }

  function Appended(converted: seq<Summary>, r: Option<Summary>): seq<Summary> {
    if r.Some? then converted + [r.value] else converted
  }

  lemma ConvertedStep(converted: seq<Summary>, rows: seq<Summary>, k: nat, target: string, rates: map<string,
                      real>, rnd: real -> int)
    requires k < |rows|
    ensures converted + Converted(rows[k..], target, rates, rnd)
         == Appended(converted, ConvertOne(rows[k], target, rates, rnd)) + Converted(rows[k + 1..], target, rates, rnd)
  {
    hide ConvertOne;
    assert rows[k..][0] == rows[k] && rows[k..][1..] == rows[k + 1..];
  }

  method ConvertList(rows: seq<Summary>, target: string, rates: map<string, real>, rnd: real -> int)
    returns (converted: seq<Summary>, excluded: set<string>)
    ensures converted == Converted(rows, target, rates, rnd)
    ensures excluded == Excluded(rows, target, rates)
  {
    converted, excluded := [], {};
    for k := 0 to |rows|
      invariant Converted(rows, target, rates, rnd) == converted + Converted(rows[k..], target, rates, rnd)
      invariant excluded == Excluded(rows[..k], target, rates)
    {
      hide Excluded, Upper, Converted, Scaled;
      var r := rows[k];
      assert rows[..k + 1] == rows[..k] + [r];
      ExcludedSnoc(rows[..k], r, target, rates);
      ConvertedStep(converted, rows, k, target, rates, rnd);
      var src := Upper(r.currency);
      if src == "" {
        assert ConvertOne(r, target, rates, rnd) == None;
        continue;
      }
      if src == target {
        assert ConvertOne(r, target, rates, rnd) == Some(r.(currency := target));
        converted := converted + [r.(currency := target)];
        continue;
      }
      if src !in rates || target !in rates || rates[target] <= 0.0 {
        assert ConvertOne(r, target, rates, rnd) == None;
        excluded := excluded + {src};
        continue;
      }
      var factor := rates[src] / rates[target];
      assert factor == Factor(src, target, rates);
      assert ConvertOne(r, target, rates, rnd) == Some(r.(currency := target, total := Scaled(r.total, factor, rnd)));
      converted := converted + [r.(currency := target, total := Scaled(r.total, factor, rnd))];
    }
    assert rows[..|rows|] == rows;
  }

  // ----- collapsing -----

  function KeyOrUnassigned(key: string): string {
    if key == "" then UNASSIGNED else key
  }

  function AddSummary(out: seq<Summary>, r: Summary): seq<Summary> {
    if out == [] then [r.(key := KeyOrUnassigned(r.key))]
    else if out[0].key == KeyOrUnassigned(r.key) then
      var b := out[0];
      [b.(total := b.total + r.total, orders := b.orders + r.orders, assetTypes := b.assetTypes + r.assetTypes)]
      + out[1..]
    else [out[0]] + AddSummary(out[1..], r)
  }

  function CollapsedFrom(out: seq<Summary>, rows: seq<Summary>): seq<Summary>
    decreases |rows|
  {
    if rows == [] then out else CollapsedFrom(AddSummary(out, rows[0]), rows[1..])
  }

  method AggregateConverted(rows: seq<Summary>, rnd: real -> int) returns (out: seq<Summary>)
    requires Nearest(rnd)
    ensures out == CollapsedFrom([], rows)
  {
    out := [];
    for k := 0 to |rows|
      invariant CollapsedFrom([], rows) == CollapsedFrom(out, rows[k..])
    {
      out := AddSummary(out, rows[k]);
    }
    ghost var summed := out;
    for k := 0 to |out|
      invariant out == summed
    {
      RoundWhole(rnd, out[k].total);
      out := out[k := out[k].(total := rnd(out[k].total as real))];
    }
  }

  // ----- sums per key -----

  /** A row counts under its key, one without a key under "(unassigned)". */
  predicate BelongsTo(r: Summary, key: string) {
    if r.key == "" then key == "(unassigned)" else r.key == key
  }

  function KeyTotal(rows: seq<Summary>, key: string): int {
    if rows == [] then 0
    else (if BelongsTo(rows[0], key) then rows[0].total else 0) + KeyTotal(rows[1..], key)
  }

  function KeyOrders(rows: seq<Summary>, key: string): int {
    if rows == [] then 0
    else (if BelongsTo(rows[0], key) then rows[0].orders else 0) + KeyOrders(rows[1..], key)
  }

  function KeyTypes(rows: seq<Summary>, key: string): int {
    if rows == [] then 0
    else (if BelongsTo(rows[0], key) then rows[0].assetTypes else 0) + KeyTypes(rows[1..], key)
  }

  predicate OneRowPerKey(out: seq<Summary>) {
    && (forall r :: r in out ==> r.key != "")
    && forall i, j :: 0 <= i < j < |out| ==> out[i].key != out[j].key
  }

  lemma {:induction false} AddSummarySums(out: seq<Summary>, r: Summary, key: string)
    ensures KeyTotal(AddSummary(out, r), key) == KeyTotal(out, key) + KeyTotal([r], key)
    ensures KeyOrders(AddSummary(out, r), key) == KeyOrders(out, key) + KeyOrders([r], key)
    ensures KeyTypes(AddSummary(out, r), key) == KeyTypes(out, key) + KeyTypes([r], key)
  {
    assert [r][1..] == [];
    if out != [] {
      var after := AddSummary(out, r);
      if out[0].key == KeyOrUnassigned(r.key) {
        assert after[1..] == out[1..];
      } else {
        AddSummarySums(out[1..], r, key);
        assert after[1..] == AddSummary(out[1..], r);
      }
    }
  }

  lemma {:induction false} AddSummaryKeys(out: seq<Summary>, r: Summary)
    requires OneRowPerKey(out)
    ensures OneRowPerKey(AddSummary(out, r))
    ensures forall b :: b in AddSummary(out, r) ==>
              b.key == KeyOrUnassigned(r.key) || exists a :: a in out && a.key == b.key
  {
    if out != [] {
      var first, tail := out[0], out[1..];
      if first.key == KeyOrUnassigned(r.key) {
        var sum := AddSummary(out, r)[0];
        assert sum.key == first.key && AddSummary(out, r) == [sum] + tail;
        RekeyedHead(first, sum, tail);
      } else {
        AddSummaryKeys(tail, r);
        var rest := AddSummary(tail, r);
        assert AddSummary(out, r) == [first] + rest;
        hide AddSummary, KeyOrUnassigned;
        forall b | b in rest ensures b.key != first.key {
          if b.key != KeyOrUnassigned(r.key) {
            var a :| a in tail && a.key == b.key;
          }
        }
        assert first in out && forall a :: a in tail ==> a in out;
      }
    }
  }

  lemma RekeyedHead(first: Summary, sum: Summary, tail: seq<Summary>)
    requires OneRowPerKey([first] + tail) && sum.key == first.key
    ensures OneRowPerKey([sum] + tail)
  {
    var before, after := [first] + tail, [sum] + tail;
    assert first in before && forall a :: a in tail ==> a in before;
    forall i, j | 0 <= i < j < |after| ensures after[i].key != after[j].key {
      assert before[i].key == after[i].key && before[j].key == after[j].key;
    }
  }

  lemma {:induction false} CollapseConserves(out: seq<Summary>, rows: seq<Summary>, key: string)
    requires OneRowPerKey(out)
    ensures var after := CollapsedFrom(out, rows);
            && OneRowPerKey(after)
            && KeyTotal(after, key) == KeyTotal(out, key) + KeyTotal(rows, key)
            && KeyOrders(after, key) == KeyOrders(out, key) + KeyOrders(rows, key)
            && KeyTypes(after, key) == KeyTypes(out, key) + KeyTypes(rows, key)
    decreases |rows|
  {
    hide AddSummary, OneRowPerKey;
    if rows != [] {
      AddSummarySums(out, rows[0], key);
      AddSummaryKeys(out, rows[0]);
      CollapseConserves(AddSummary(out, rows[0]), rows[1..], key);
      assert [rows[0]][1..] == [];
    }
  }

  // ----- what conversion does to the sums -----

  /** A row of this key that conversion keeps. */
  predicate Kept(r: Summary, key: string, target: string, rates: map<string, real>) {
    BelongsTo(r, key) && Upper(r.currency) != "" && Convertible(Upper(r.currency), target, rates)
  }

  /** What one unit of a currency is worth in the canonical one; a currency without a rate is its own measure. */
  function Rate(currency: string, rates: map<string, real>): real {
    if currency in rates then rates[currency] else 1.0
  }

  /** What a row is worth in the canonical currency, in hundredths. */
  function CanonicalAmount(r: Summary, rates: map<string, real>): real {
    Times(r.total as real, Rate(Upper(r.currency), rates))
  }

  function CanonicalTotal(rows: seq<Summary>, key: string, target: string, rates: map<string, real>): real {
    if rows == [] then 0.0
    else (if Kept(rows[0], key, target, rates) then CanonicalAmount(rows[0], rates) else 0.0)
         + CanonicalTotal(rows[1..], key, target, rates)
  }

  /** How many kept rows were really converted. */
  function ForeignRows(rows: seq<Summary>, key: string, target: string, rates: map<string, real>): nat {
    if rows == [] then 0
    else (if Kept(rows[0], key, target, rates) && Upper(rows[0].currency) != target then 1 else 0)
         + ForeignRows(rows[1..], key, target, rates)
  }

  function KeptOrders(rows: seq<Summary>, key: string, target: string, rates: map<string, real>): int {
    if rows == [] then 0
    else (if Kept(rows[0], key, target, rates) then rows[0].orders else 0) + KeptOrders(rows[1..], key, target, rates)
  }

  function KeptTypes(rows: seq<Summary>, key: string, target: string, rates: map<string, real>): int {
    if rows == [] then 0
    else
      (if Kept(rows[0], key, target, rates) then rows[0].assetTypes else 0) + KeptTypes(rows[1..], key, target, rates)
  }

  /** Half a cent of the target currency for each of `n` rows, in the canonical currency. */
  function HalfCents(n: nat, target: string, rates: map<string, real>): real {
    Times(0.5 * n as real, Rate(target, rates))
  }

  lemma HalfCentsSum(n: nat, target: string, rates: map<string, real>)
    ensures HalfCents(0, target, rates) == 0.0
    ensures HalfCents(1, target, rates) == 0.5 * Rate(target, rates)
    ensures HalfCents(n + 1, target, rates) == HalfCents(1, target, rates) + HalfCents(n, target, rates)
  {
    hide Times, Rate;
    var t := Rate(target, rates);
    assert 0.5 * (n + 1) as real == 0.5 + 0.5 * n as real;
    TimesPlus(0.5, 0.5 * n as real, t);
    TimesZero(t);
    TimesHalf(t);
  }

  /** What became of one row, with its worth before and after in the canonical currency. */
  ghost predicate WellConverted(r: Summary, c: Option<Summary>, target: string, rates: map<string, real>) {
    c.Some? ==>
      var n := if Upper(r.currency) == target then 0 else 1;
      && c.value.key == r.key && c.value.currency == target
      && c.value.orders == r.orders && c.value.assetTypes == r.assetTypes
      && (n == 0 ==> c.value.total == r.total)
      && -HalfCents(n, target, rates)
         <= Times(c.value.total as real, Rate(target, rates)) - CanonicalAmount(r, rates)
         <= HalfCents(n, target, rates)
  }

  lemma ConvertOneBound(r: Summary, key: string, target: string, rates: map<string, real>, rnd: real -> int)
    requires Nearest(rnd)
    ensures var c := ConvertOne(r, target, rates, rnd);
            && (Kept(r, key, target, rates) <==> c.Some? && BelongsTo(r, key))
            && WellConverted(r, c, target, rates)
  {
    var src, c := Upper(r.currency), ConvertOne(r, target, rates, rnd);
    HalfCentsSum(0, target, rates);
    hide HalfCents, Times, Upper;
    if c.Some? && src != target {
      var f, t := rates[src] / rates[target], rates[target];
      CrossRateKeepsWorth(r.total as real, rates[src], t);
      var exact := Times(r.total as real, f);
      assert -0.5 <= rnd(exact) as real - exact <= 0.5;
      TimesBound(rnd(exact) as real - exact, t);
      TimesMinus(rnd(exact) as real, exact, t);
    }
  }

  /** An amount converted exactly is worth the same in the canonical currency. */
  lemma CrossRateKeepsWorth(x: real, s: real, t: real)
    requires t > 0.0
    ensures Times(Times(x, s / t), t) == Times(x, s)
  {
    TimesQuotient(s, t);
    assert x * (s / t) * t == x * ((s / t) * t);
  }

  /**
    A converted row is worth what it was: in the canonical currency, its amount times the rate of the target
    differs from the old amount times the old currency's rate by at most half a cent of the target.
   */
  lemma ConversionKeepsWorth(r: Summary, target: string, rates: map<string, real>, rnd: real -> int)
    requires Nearest(rnd)
    requires Upper(r.currency) != "" && Upper(r.currency) in rates && target in rates && rates[target] > 0.0
    ensures var out := Converted([r], target, rates, rnd);
            && |out| == 1 && out[0].key == r.key && out[0].currency == target
            && out[0].orders == r.orders && out[0].assetTypes == r.assetTypes
            && -0.5 * rates[target]
               <= out[0].total as real * rates[target] - r.total as real * rates[Upper(r.currency)]
               <= 0.5 * rates[target]
  {
    ConvertOneBound(r, r.key, target, rates, rnd);
    HalfCentsSum(0, target, rates);
    assert [r][1..] == [];
    hide HalfCents, Upper;
  }

  lemma {:induction false} ConversionBound(rows: seq<Summary>, key: string, target: string, rates: map<string,
                                           real>, rnd: real -> int)
    requires Nearest(rnd)
    ensures var out := Converted(rows, target, rates, rnd);
            var half := HalfCents(ForeignRows(rows, key, target, rates), target, rates);
            && -half
               <= Times(KeyTotal(out, key) as real, Rate(target, rates)) - CanonicalTotal(rows, key, target, rates)
               <= half
            && KeyOrders(out, key) == KeptOrders(rows, key, target, rates)
            && KeyTypes(out, key) == KeptTypes(rows, key, target, rates)
  {
    hide HalfCents;
    var rate := Rate(target, rates);
    TimesZero(rate);
    HalfCentsSum(0, target, rates);
    if rows != [] {
      ConversionBound(rows[1..], key, target, rates, rnd);
      ConvertOneBound(rows[0], key, target, rates, rnd);
      HalfCentsSum(ForeignRows(rows[1..], key, target, rates), target, rates);
      hide ConvertOne, Kept, CanonicalAmount, Nearest, Upper, Times, Rate, BelongsTo;
      var c := ConvertOne(rows[0], target, rates, rnd);
      if c.Some? {
        var out, rest := Converted(rows, target, rates, rnd), Converted(rows[1..], target, rates, rnd);
        assert out[0] == c.value && out[1..] == rest;
        SameKeyBelongs(rows[0], c.value, key);
        TimesPlus(c.value.total as real, KeyTotal(rest, key) as real, rate);
      }
    }
  }

  lemma SameKeyBelongs(a: Summary, b: Summary, key: string)
    requires a.key == b.key
    ensures BelongsTo(a, key) == BelongsTo(b, key)
  {
  }

  /**
    After conversion every key has one row, and conversion keeps its worth: in the canonical currency, the
    row is within half a cent of the target per converted row of what the key's rows were worth before.
   */
  lemma ConvertedTotals(rows: seq<Summary>, key: string, target: string, rates: map<string, real>, rnd: real -> int)
    requires Nearest(rnd)
    ensures var out := CollapsedFrom([], Converted(rows, target, rates, rnd));
            var half := HalfCents(ForeignRows(rows, key, target, rates), target, rates);
            && OneRowPerKey(out)
            && -half
               <= Times(KeyTotal(out, key) as real, Rate(target, rates)) - CanonicalTotal(rows, key, target, rates)
               <= half
  {
    hide HalfCents, Times, Rate;
    ConversionBound(rows, key, target, rates, rnd);
    CollapseConserves([], Converted(rows, target, rates, rnd), key);
  }

  /** Order counts survive, except those of rows without a currency or in one reported as excluded. */
  lemma ConvertedOrders(rows: seq<Summary>, key: string, target: string, rates: map<string, real>, rnd: real -> int)
    requires Nearest(rnd)
    ensures KeyOrders(CollapsedFrom([], Converted(rows, target, rates, rnd)), key)
         == OrdersNotExcluded(rows, key, Excluded(rows, target, rates))
  {
    ConversionBound(rows, key, target, rates, rnd);
    CollapseConserves([], Converted(rows, target, rates, rnd), key);
    KeptMeansNotExcluded(rows, rows, key, target, rates);
  }

  function OrdersNotExcluded(rows: seq<Summary>, key: string, excluded: set<string>): int {
    if rows == [] then 0
    else (if BelongsTo(rows[0], key) && Upper(rows[0].currency) != ""
          && Upper(rows[0].currency) !in excluded
          then rows[0].orders else 0)
         + OrdersNotExcluded(rows[1..], key, excluded)
  }

  lemma {:induction false} KeptMeansNotExcluded(part: seq<Summary>, rows: seq<Summary>, key: string,
                                                target: string, rates: map<string, real>)
    requires forall r :: r in part ==> r in rows
    ensures KeptOrders(part, key, target, rates) == OrdersNotExcluded(part, key, Excluded(rows, target, rates))
  {
    if part != [] {
      KeptMeansNotExcluded(part[1..], rows, key, target, rates);
      assert part[0] in rows;
    }
  }

  // ----- from the orders to the converted cards -----

  /** The rows a converted card speaks about. */
  function Shown(key: string, target: string, rates: map<string, real>): Selection {
    (k, cur) => k == key && Upper(cur) != "" && Convertible(Upper(cur), target, rates)
  }

  function CanonicalWeight(key: string, target: string, rates: map<string, real>): Weight {
    (k, cur) => if Shown(key, target, rates)(k, cur) then Rate(Upper(cur), rates) else 0.0
  }

  predicate KeysNamed(buckets: seq<Bucket>) {
    forall b :: b in buckets ==> b.key != ""
  }

  lemma {:induction false} GroupingNamesKeys(buckets: seq<Bucket>, rows: seq<Row>, field: Row -> string)
    requires KeysNamed(buckets)
    ensures KeysNamed(AggregatedFrom(buckets, rows, field))
    decreases |rows|
  {
    if rows != [] {
      AddRowNamesKeys(buckets, KeyOf(field, rows[0]), rows[0]);
      GroupingNamesKeys(AddRow(buckets, KeyOf(field, rows[0]), rows[0]), rows[1..], field);
    }
  }

  lemma {:induction false} AddRowNamesKeys(buckets: seq<Bucket>, key: string, row: Row)
    requires KeysNamed(buckets) && key != ""
    ensures KeysNamed(AddRow(buckets, key, row))
  {
    if buckets != [] && !(buckets[0].key == key && buckets[0].currency == row.currency) {
      AddRowNamesKeys(buckets[1..], key, row);
    }
  }

  lemma KeptMeansShown(b: Bucket, key: string, target: string, rates: map<string, real>)
    requires b.key != ""
    ensures var r := Summary(b.key, b.currency, b.total, b.orders, |b.types|);
            && (Kept(r, key, target, rates) <==> Shown(key, target, rates)(b.key, b.currency))
            && (if Kept(r, key, target, rates) then CanonicalAmount(r, rates) else 0.0)
               == Times(b.total as real, CanonicalWeight(key, target, rates)(b.key, b.currency))
  {
    assert Times(b.total as real, 0.0) == 0.0;
  }

  lemma {:induction false} SummariesMatchBuckets(buckets: seq<Bucket>, key: string, target: string,
                                                 rates: map<string, real>)
    requires KeysNamed(buckets)
    ensures var rows := Summaries(buckets);
            && CanonicalTotal(rows, key, target, rates) == WeightedTotal(buckets, CanonicalWeight(key, target, rates))
            && KeptOrders(rows, key, target, rates) == OrdersWhere(buckets, Shown(key, target, rates))
  {
    if buckets != [] {
      SummariesMatchBuckets(buckets[1..], key, target, rates);
      assert buckets[0] in buckets;
      KeptMeansShown(buckets[0], key, target, rates);
      hide Kept, Shown, CanonicalWeight, CanonicalAmount, Upper, Times;
      assert Summaries(buckets)[1..] == Summaries(buckets[1..]);
    }
  }

  lemma {:induction false} DisjointTypesAddUp(buckets: seq<Bucket>, key: string, target: string,
                                              rates: map<string, real>)
    requires KeysNamed(buckets) && TypesApart(buckets)
    ensures KeptTypes(Summaries(buckets), key, target, rates) == |TypesWhere(buckets, Shown(key, target, rates))|
    ensures forall t :: t in TypesWhere(buckets, Shown(key, target, rates)) ==>
              exists b :: b in buckets && b.key == key && t in b.types
  {
    hide Upper, Convertible;
    if buckets != [] {
      DisjointTypesAddUp(buckets[1..], key, target, rates);
      assert Summaries(buckets)[1..] == Summaries(buckets[1..]);
      assert buckets[0] in buckets;
      var rest := TypesWhere(buckets[1..], Shown(key, target, rates));
      if Shown(key, target, rates)(buckets[0].key, buckets[0].currency) {
        forall t | t in rest ensures t !in buckets[0].types {
          var b :| b in buckets[1..] && b.key == key && t in b.types;
        }
        assert |buckets[0].types + rest| == |buckets[0].types| + |rest|;
      }
    }
  }

  /**
    End to end, for any key field: each converted card counts exactly the orders of its key that have a
    convertible currency and exactly their distinct asset types, and in the canonical currency its amount
    is within half a cent of the target per converted bucket of what every single order costs.
   */
  lemma CardsMatchOrders(db: Tables, field: Row -> string, key: string, target: string, rates: map<string,
                         real>, rnd: real -> int)
    requires Nearest(rnd)
    ensures var rows := ReportRows(db, db.orders, rnd);
            var summaries := Summaries(AggregatedFrom([], rows, field));
            var cards := CollapsedFrom([], Converted(summaries, target, rates, rnd));
            var half := HalfCents(ForeignRows(summaries, key, target, rates), target, rates);
            && KeyOrders(cards, key) == RowCountWhere(rows, field, Shown(key, target, rates))
            && KeyTypes(cards, key) == |RowTypesWhere(rows, field, Shown(key, target, rates))|
            && -half
               <= Times(KeyTotal(cards, key) as real, Rate(target, rates))
                  - RowWeightedTotal(rows, field, CanonicalWeight(key, target, rates))
               <= half
  {
    hide HalfCents, Times, Rate;
    var rows := ReportRows(db, db.orders, rnd);
    var buckets := AggregatedFrom([], rows, field);
    var summaries := Summaries(buckets);
    ReportRowsHaveTypeCurrency(db, db.orders, rnd);
    GroupedTypesApart(rows, field);
    GroupingNamesKeys([], rows, field);
    GroupingKeepsMoney([], rows, field, CanonicalWeight(key, target, rates));
    GroupingKeepsOrders([], rows, field, Shown(key, target, rates));
    SummariesMatchBuckets(buckets, key, target, rates);
    DisjointTypesAddUp(buckets, key, target, rates);
    ConversionBound(summaries, key, target, rates, rnd);
    CollapseConserves([], Converted(summaries, target, rates, rnd), key);
  }
}
