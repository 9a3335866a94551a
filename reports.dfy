/** The sales-report page (ReportsModel): key figures over one store's orders
    and items, the seven-day sales buckets, the forecast and its fallback, and
    the generator of demonstration order history. */
module Reports {
  import opened Domain
  import opened Sorting
  import Text
  import Shop

  /** GetStoreIdAsync found no store, or one with an empty id. */
  predicate NoStore(store: Option<string>) {
    store.None? || store.value == []
  }

  // ---------------------------------------------------------------------
  // Orders, newest first (Find(StoreId).SortByDescending(OrderDate))

  /** a may come before b in a newest-first listing. */
  predicate NewerFirst(a: Order, b: Order) {
    a.orderDate >= b.orderDate
  }

  lemma NewerFirstOrder()
    ensures Total(NewerFirst) && Transitive(NewerFirst)
  {
    forall x: Order, y: Order ensures NewerFirst(x, y) || NewerFirst(y, x) {
    }
    forall x: Order, y: Order, z: Order | NewerFirst(x, y) && NewerFirst(y, z) ensures NewerFirst(x, z) {
    }
  }

  /** The store's orders, newest first. */
  function OrdersByDate(orders: seq<Order>, storeId: string): seq<Order> {
    SortBy(StoreOrders(orders, storeId), NewerFirst)
  }

  /** The listing holds exactly the store's orders, newest first. */
  lemma OrdersByDateFacts(orders: seq<Order>, storeId: string)
    ensures var r := OrdersByDate(orders, storeId);
      && |r| == |StoreOrders(orders, storeId)|
      && multiset(r) == multiset(StoreOrders(orders, storeId))
      && (forall x :: x in r <==> x in orders && x.storeId == storeId)
      && SortedBy(r, NewerFirst)
  {
    var mine := StoreOrders(orders, storeId);
    NewerFirstOrder();
    SortBySorted(mine, NewerFirst);
    var r := SortBy(mine, NewerFirst);
    assert forall x :: x in r <==> x in multiset(mine);
  }

  /** RecentOrders: the first twenty of the newest-first listing. */
  function RecentOrders(sorted: seq<Order>): seq<Order> {
    Take(sorted, 20)
  }

  /** Whatever order the store gives orders with the same date: from any
      newest-first arrangement of the store's orders, the recent list holds
      min(20, n) of them, newest first, and none of the orders left out is
      newer than one listed. */
  lemma RecentOrdersOfListing(orders: seq<Order>, storeId: string, all: seq<Order>)
    requires multiset(all) == multiset(StoreOrders(orders, storeId))
    requires SortedBy(all, NewerFirst)
    ensures var r := RecentOrders(all);
      && |r| == (if |all| < 20 then |all| else 20)
      && |all| == |StoreOrders(orders, storeId)|
      && (forall x :: x in r ==> x in orders && x.storeId == storeId)
      && SortedBy(r, NewerFirst)
      && (forall i, j :: 0 <= i < |r| <= j < |all| ==> r[i].orderDate >= all[j].orderDate)
      && multiset(r) + multiset(all[|r|..]) == multiset(StoreOrders(orders, storeId))
  {
    var mine := StoreOrders(orders, storeId);
    var r := RecentOrders(all);
    assert |all| == |multiset(all)| == |multiset(mine)| == |mine|;
    TakeSorted(all, 20, NewerFirst);
    forall x | x in r ensures x in orders && x.storeId == storeId {
      assert x in multiset(r);
      assert x in multiset(all);
      assert x in multiset(mine);
    }
  }

  /** The same facts for the model's listing. */
  lemma RecentOrdersNewest(orders: seq<Order>, storeId: string)
    ensures var all := OrdersByDate(orders, storeId);
      var r := RecentOrders(all);
      && |r| == (if |all| < 20 then |all| else 20)
      && |all| == |StoreOrders(orders, storeId)|
      && (forall x :: x in r ==> x in orders && x.storeId == storeId)
      && SortedBy(r, NewerFirst)
      && (forall i, j :: 0 <= i < |r| <= j < |all| ==> r[i].orderDate >= all[j].orderDate)
      && multiset(r) + multiset(all[|r|..]) == multiset(StoreOrders(orders, storeId))
  {
    OrdersByDateFacts(orders, storeId);
    RecentOrdersOfListing(orders, storeId, OrdersByDate(orders, storeId));
  }

  // ---------------------------------------------------------------------
  // Revenue, order count and profit

  function Amount(o: Order): Money {
    o.totalAmount
  }

  /** Sum(o => o.TotalAmount). */
  function Revenue(os: seq<Order>): Money {
    SumBy(os, Amount)
  }

  /** The revenue does not depend on the listing order. */
  lemma RevenueOfStore(orders: seq<Order>, storeId: string)
    ensures Revenue(OrdersByDate(orders, storeId)) == Revenue(StoreOrders(orders, storeId))
  {
    SumBySortBy(StoreOrders(orders, storeId), NewerFirst, Amount);
  }

  lemma {:induction false} StoreOrdersAppend(orders: seq<Order>, o: Order, storeId: string)
    ensures StoreOrders(orders + [o], storeId)
         == StoreOrders(orders, storeId) + (if o.storeId == storeId then [o] else [])
  {
    if orders != [] {
      assert (orders + [o])[1..] == orders[1..] + [o];
      StoreOrdersAppend(orders[1..], o, storeId);
    }
  }

  /** One more order for the store (a checkout) raises its revenue by the
      order's amount and its order count by one; other stores see no change. */
  lemma RevenueAfterOrder(orders: seq<Order>, o: Order, storeId: string)
    ensures o.storeId == storeId ==>
      Revenue(StoreOrders(orders + [o], storeId)) == Revenue(StoreOrders(orders, storeId)) + o.totalAmount
      && |StoreOrders(orders + [o], storeId)| == |StoreOrders(orders, storeId)| + 1
    ensures o.storeId != storeId ==> StoreOrders(orders + [o], storeId) == StoreOrders(orders, storeId)
  {
    StoreOrdersAppend(orders, o, storeId);
    SumByAppend(StoreOrders(orders, storeId), [o], Amount);
  }

  function LineTotal(d: CartItemDetail): Money {
    d.Total()
  }

  function LineCost(d: CartItemDetail): Money {
    (d.quantity as real) * d.cost
  }

  /** (Price - Cost) * Quantity. */
  function LineProfit(d: CartItemDetail): Money {
    (d.price - d.cost) * (d.quantity as real)
  }

  /** SelectMany(o => o.Items). */
  function AllLines(os: seq<Order>): (r: seq<CartItemDetail>)
    ensures forall d :: d in r <==> exists o :: o in os && d in o.items
  {
    if os == [] then []
    else
      var rest := AllLines(os[1..]);
      assert forall o :: o in os <==> o == os[0] || o in os[1..];
      os[0].items + rest
  }

  /** TotalProfit: the margin over every line of every order. */
  function Profit(os: seq<Order>): Money {
    SumBy(AllLines(os), LineProfit)
  }

  function CostOfGoods(os: seq<Order>): Money {
    SumBy(AllLines(os), LineCost)
  }

  function OrderProfit(o: Order): Money {
    SumBy(o.items, LineProfit)
  }

  /** Every order's amount is the sum of its lines (what checkout and the
      history generator store). */
  predicate Settled(os: seq<Order>) {
    forall o :: o in os ==> o.totalAmount == SumTotals(o.items)
  }

  /** SumTotals and Sum(x => x.Total) agree. */
  lemma {:induction false} SumTotalsIsSumBy(ds: seq<CartItemDetail>)
    ensures SumTotals(ds) == SumBy(ds, LineTotal)
    decreases |ds|
  {
    if ds != [] {
      var init := ds[..|ds| - 1];
      assert ds == init + [ds[|ds| - 1]];
      SumTotalsIsSumBy(init);
      SumByAppend(init, [ds[|ds| - 1]], LineTotal);
    }
  }

  lemma {:induction false} LinesProfit(ds: seq<CartItemDetail>)
    ensures SumBy(ds, LineProfit) == SumBy(ds, LineTotal) - SumBy(ds, LineCost)
    decreases |ds|
  {
    if ds != [] {
      LinesProfit(ds[1..]);
      var d := ds[0];
      assert LineProfit(d) == LineTotal(d) - LineCost(d) by {
        assert (d.price - d.cost) * (d.quantity as real)
            == (d.quantity as real) * d.price - (d.quantity as real) * d.cost;
      }
    }
  }

  /** For settled orders the profit is the revenue less the cost of the goods sold. */
  lemma {:induction false} ProfitIsMargin(os: seq<Order>)
    requires Settled(os)
    ensures Profit(os) == Revenue(os) - CostOfGoods(os)
    decreases |os|
  {
    if os != [] {
      assert Settled(os[1..]) by {
        forall o | o in os[1..] ensures o.totalAmount == SumTotals(o.items) {
          assert o in os;
        }
      }
      ProfitIsMargin(os[1..]);
      SumByAppend(os[0].items, AllLines(os[1..]), LineProfit);
      SumByAppend(os[0].items, AllLines(os[1..]), LineCost);
      LinesProfit(os[0].items);
      SumTotalsIsSumBy(os[0].items);
    }
  }

  /** The profit summed order by order. */
  lemma {:induction false} ProfitByOrder(os: seq<Order>)
    ensures Profit(os) == SumBy(os, OrderProfit)
    decreases |os|
  {
    if os != [] {
      ProfitByOrder(os[1..]);
      SumByAppend(os[0].items, AllLines(os[1..]), LineProfit);
    }
  }

  /** Like the revenue, the profit does not depend on the listing order. */
  lemma ProfitOfStore(orders: seq<Order>, storeId: string)
    ensures Profit(OrdersByDate(orders, storeId)) == Profit(StoreOrders(orders, storeId))
  {
    ProfitByOrder(OrdersByDate(orders, storeId));
    ProfitByOrder(StoreOrders(orders, storeId));
    SumBySortBy(StoreOrders(orders, storeId), NewerFirst, OrderProfit);
  }

  // ---------------------------------------------------------------------
  // Low-stock and slow-moving items

  predicate IsScarce(x: Item) {
    x.quantity < 5
  }

  predicate QtyLe(a: Item, b: Item) {
    a.quantity <= b.quantity
  }

  lemma QtyLeOrder()
    ensures Total(QtyLe) && Transitive(QtyLe)
  {
    forall x: Item, y: Item ensures QtyLe(x, y) || QtyLe(y, x) {
    }
    forall x: Item, y: Item, z: Item | QtyLe(x, y) && QtyLe(y, z) ensures QtyLe(x, z) {
    }
  }

  /** Where(Quantity < 5).OrderBy(Quantity). */
  function LowStock(items: seq<Item>): seq<Item> {
    SortBy(Filter(items, IsScarce), QtyLe)
  }

  /** The low-stock list is exactly the items with fewer than five in stock,
      each as often as in the catalog, fewest first. */
  lemma LowStockFacts(items: seq<Item>)
    ensures var r := LowStock(items);
      && (forall x :: x in r <==> x in items && x.quantity < 5)
      && (forall x :: multiset(r)[x] == if x.quantity < 5 then multiset(items)[x] else 0)
      && SortedBy(r, QtyLe)
  {
    var scarce := Filter(items, IsScarce);
    QtyLeOrder();
    SortBySorted(scarce, QtyLe);
    var r := SortBy(scarce, QtyLe);
    assert forall x :: x in r <==> x in multiset(scarce);
  }

  /** Quantity == q. */
  function HasQuantity(q: int): Item -> bool {
    (x: Item) => x.quantity == q
  }

  /** OrderBy is stable: low-stock items with the same quantity keep their
      catalog order. */
  lemma LowStockStable(items: seq<Item>, q: int)
    ensures Filter(LowStock(items), HasQuantity(q)) == Filter(Filter(items, IsScarce), HasQuantity(q))
  {
    forall y, z | HasQuantity(q)(y) && HasQuantity(q)(z) ensures QtyLe(y, z) {
    }
    SortByStable(Filter(items, IsScarce), QtyLe, HasQuantity(q));
  }

  /** The names on the order lines (ToHashSet of ItemName). */
  function SoldNames(os: seq<Order>): (r: set<string>)
    ensures forall n :: n in r <==> exists o, d :: o in os && d in o.items && d.itemName == n
  {
    set d | d in AllLines(os) :: d.itemName
  }

  /** Quantity > 10 and the name never sold. */
  function Idle(sold: set<string>): Item -> bool {
    (x: Item) => x.quantity > 10 && x.name !in sold
  }

  /** Where(Quantity > 10 && name never sold).Take(5). */
  function SlowMoving(items: seq<Item>, os: seq<Order>): seq<Item> {
    Take(Filter(items, Idle(SoldNames(os))), 5)
  }

  /** At most five slow movers, in catalog order, each well stocked and never
      sold; fewer than five only when there are no others; and (ids being
      unique) they are the first five: no idle item before a listed one is
      left out. */
  lemma SlowMovingFacts(items: seq<Item>, os: seq<Order>)
    ensures var r := SlowMoving(items, os);
      && |r| <= 5
      && (forall x :: x in r ==> x in items && x.quantity > 10 && x.name !in SoldNames(os))
      && Embeds(r, items)
      && (|r| < 5 ==> forall x :: x in items && x.quantity > 10 && x.name !in SoldNames(os) ==> x in r)
      && (UniqueIds(items) ==>
            forall i, j ::
              0 <= i < j < |items| && items[j] in r && items[i].quantity > 10 && items[i].name !in SoldNames(os)
              ==> items[i] in r)
  {
    var p := Idle(SoldNames(os));
    var idle := Filter(items, p);
    var r := Take(idle, 5);
    assert r == SlowMoving(items, os);
    assert forall x :: x in r ==> x in idle;
    FilterEmbeds(items, p);
    EmbedsPrefix(idle, items, |r|);
    assert idle[..|r|] == r;
    if |r| < 5 {
      assert r == idle;
    }
    if UniqueIds(items) {
      assert forall i, j :: 0 <= i < j < |items| ==> items[i] != items[j];
      TakeFilterFirst(items, p, 5);
    }
  }

  // ---------------------------------------------------------------------
  // Seven-day sales

  /** Where(OrderDate.Date == day).Sum(TotalAmount). */
  function DailyTotal(os: seq<Order>, day: int): Money {
    if os == [] then 0.0
    else (if DayOf(os[0].orderDate) == day then os[0].totalAmount else 0.0) + DailyTotal(os[1..], day)
  }

  /** The revenue of the orders dated from day lo up to, not including, day hi. */
  function WindowRevenue(os: seq<Order>, lo: int, hi: int): Money {
    if os == [] then 0.0
    else (if lo <= DayOf(os[0].orderDate) < hi then os[0].totalAmount else 0.0) + WindowRevenue(os[1..], lo, hi)
  }

  lemma {:induction false} WindowStep(os: seq<Order>, lo: int, hi: int)
    requires lo <= hi
    ensures WindowRevenue(os, lo, hi + 1) == WindowRevenue(os, lo, hi) + DailyTotal(os, hi)
    decreases |os|
  {
    if os != [] {
      WindowStep(os[1..], lo, hi);
    }
  }

  /** When every order falls in the window its revenue is all the revenue. */
  lemma {:induction false} WindowCoversAll(os: seq<Order>, lo: int, hi: int)
    requires forall o :: o in os ==> lo <= DayOf(o.orderDate) < hi
    ensures WindowRevenue(os, lo, hi) == Revenue(os)
    decreases |os|
  {
    if os != [] {
      assert os[0] in os;
      assert forall o :: o in os[1..] ==> o in os;
      WindowCoversAll(os[1..], lo, hi);
    }
  }

  /** The seven days ending today, oldest first. */
  function WeekDays(today: int): (r: seq<int>)
    ensures |r| == 7 && forall k :: 0 <= k < 7 ==> r[k] == today - 6 + k
  {
    seq(7, k => today - 6 + k)
  }

  /** SumReals(Values): the values summed in order. */
  function SumReals(s: seq<Money>): Money {
    if s == [] then 0.0 else SumReals(s[..|s| - 1]) + s[|s| - 1]
  }

  /** The sales buckets of the week ending today: the days in order, a map
      with exactly those days as keys, each the day's total, and the chart
      listing the map's values in day order. */
  ghost predicate WeekSales(days: seq<int>, sales: map<int, Money>, chart: seq<Money>, orders: seq<Order>, today: int) {
    && days == WeekDays(today)
    && (forall d :: d in sales <==> today - 6 <= d <= today)
    && (forall d :: d in sales ==> sales[d] == DailyTotal(orders, d))
    && |chart| == 7 && (forall k :: 0 <= k < 7 ==> chart[k] == sales[days[k]])
  }

  /** The chart labels (as days), the sales map and the chart data. */
  datatype Week = Week(days: seq<int>, sales: map<int, Money>, chart: seq<Money>)

  /** The buckets of the week ending today. */
  function WeekOf(orders: seq<Order>, today: int): Week {
    Week(WeekDays(today),
         map d | today - 6 <= d <= today :: DailyTotal(orders, d),
         seq(7, k => DailyTotal(orders, today - 6 + k)))
  }

  /** The week's buckets have the promised shape, and the chart adds up to the
      revenue of the seven days. */
  lemma WeekOfFacts(orders: seq<Order>, today: int)
    ensures var w := WeekOf(orders, today);
      && WeekSales(w.days, w.sales, w.chart, orders, today)
      && SumReals(w.chart) == WindowRevenue(orders, today - 6, today + 1)
  {
    WeekChartRevenue(orders, today);
  }

  /** The week's chart adds up to the revenue of the seven days. */
  lemma WeekChartRevenue(orders: seq<Order>, today: int)
    ensures SumReals(WeekOf(orders, today).chart) == WindowRevenue(orders, today - 6, today + 1)
  {
    WeekChartSum(orders, today - 6, 7);
  }

  /** The loop over the seven days filling salesMap; chart is its Values in
      insertion order. */
  method SevenDaySales(orders: seq<Order>, now: Time) returns (days: seq<int>, sales: map<int, Money>, chart: seq<Money>)
    ensures Week(days, sales, chart) == WeekOf(orders, DayOf(now))
  {
    var today := DayOf(now);
    days, sales, chart := [], map[], [];
    var i := 0;
    while i < 7
      invariant 0 <= i <= 7 && |days| == i && |chart| == i
      invariant forall k :: 0 <= k < i ==> days[k] == today - 6 + k && chart[k] == DailyTotal(orders, days[k])
      invariant forall d :: d in sales <==> today - 6 <= d < today - 6 + i
      invariant forall d :: d in sales ==> sales[d] == DailyTotal(orders, d)
    {
      var date := today - 6 + i;
      var dailyTotal := DailyTotal(orders, date);
      sales := sales[date := dailyTotal];
      days := days + [date];
      chart := chart + [dailyTotal];
      i := i + 1;
    }
    assert sales == WeekOf(orders, today).sales;
    assert chart == WeekOf(orders, today).chart;
  }

  // ---------------------------------------------------------------------
  // The forecast (GenerateAiForecast)

  /** What the generateContent call produced: an exception (network failure,
      malformed envelope, a null text) with its message, a non-success status
      by name, a reply without candidates, or the first candidate's text. */
  datatype ForecastReply =
    | Thrown(message: string)
    | ErrorStatus(status: string)
    | NoCandidates
    | Candidate(text: string)

  /** What the deserialiser made of the cleaned text. */
  datatype ForecastParse =
    | ParseThrew(message: string)
    | ParsedNull
    | ParsedReport(forecast: seq<Money>, holidayNote: string, tips: seq<string>)

  /** The page's forecast fields: chart, forecasted revenue, holiday note, tips. */
  datatype ForecastView = ForecastView(chart: seq<Money>, revenue: Money, holiday: string, tips: seq<string>)

  /** The message of the exception the call ends in, if it ends in one. */
  function ForecastError(reply: ForecastReply, parse: string -> ForecastParse): (r: Option<string>)
    ensures reply.ErrorStatus? ==> r == Some("API Error (" + reply.status + ")")
    ensures reply.NoCandidates? ==> r == Some("AI returned no content.")
    ensures reply.Candidate? ==> (r.None? <==> !parse(Shop.StripFences(reply.text)).ParseThrew?)
  {
    match reply
    case Thrown(m) => Some(m)
    case ErrorStatus(st) => Some("API Error (" + st + ")")
    case NoCandidates => Some("AI returned no content.")
    case Candidate(t) =>
      match parse(Shop.StripFences(t))
      case ParseThrew(m) => Some(m)
      case _ => None
  }

  /** The forecast fields after the call, from those before it and the
      past-sales chart. */
  function ForecastAfter(v: ForecastView, salesChart: seq<Money>, apiKey: string,
                         reply: ForecastReply, parse: string -> ForecastParse): ForecastView
  {
    if apiKey == [] then v.(holiday := "API Key is missing in appsettings.json")
    else match ForecastError(reply, parse)
      case Some(m) => ForecastView(salesChart, v.revenue, "AI Error: " + m, v.tips + ["Check API Key in configuration."])
      case None =>
        match parse(Shop.StripFences(reply.text))
        case ParsedReport(f, note, tips) => ForecastView(f, SumReals(f), note, tips)
        case _ => v
  }

  /** A missing key changes only the holiday note. */
  lemma ForecastMissingKey(v: ForecastView, salesChart: seq<Money>, reply: ForecastReply, parse: string -> ForecastParse)
    ensures var w := ForecastAfter(v, salesChart, [], reply, parse);
      w.chart == v.chart && w.revenue == v.revenue && w.tips == v.tips
      && w.holiday == "API Key is missing in appsettings.json"
  {
  }

  /** Whenever the key is set and the call fails, the forecast chart is the
      past week's sales chart (so it sums to the week's revenue), the note is
      "AI Error: " and the message, and exactly one tip is added after the old
      ones. */
  lemma ForecastFallback(v: ForecastView, orders: seq<Order>, now: Time, apiKey: string,
                         reply: ForecastReply, parse: string -> ForecastParse)
    requires apiKey != [] && ForecastError(reply, parse).Some?
    ensures var w := ForecastAfter(v, WeekOf(orders, DayOf(now)).chart, apiKey, reply, parse);
      && w.chart == WeekOf(orders, DayOf(now)).chart
      && SumReals(w.chart) == WindowRevenue(orders, DayOf(now) - 6, DayOf(now) + 1)
      && w.holiday == "AI Error: " + ForecastError(reply, parse).value
      && |w.tips| == |v.tips| + 1 && w.tips[..|v.tips|] == v.tips
      && w.tips[|v.tips|] == "Check API Key in configuration."
      && w.revenue == v.revenue
  {
    ForecastFallbackOn(v, orders, DayOf(now), apiKey, reply, parse);
  }

  /** ForecastFallback for the week ending on a given day. */
  lemma ForecastFallbackOn(v: ForecastView, orders: seq<Order>, today: int, apiKey: string,
                           reply: ForecastReply, parse: string -> ForecastParse)
    requires apiKey != [] && ForecastError(reply, parse).Some?
    ensures var w := ForecastAfter(v, WeekOf(orders, today).chart, apiKey, reply, parse);
      && w.chart == WeekOf(orders, today).chart
      && SumReals(w.chart) == WindowRevenue(orders, today - 6, today + 1)
      && w.holiday == "AI Error: " + ForecastError(reply, parse).value
      && |w.tips| == |v.tips| + 1 && w.tips[..|v.tips|] == v.tips
      && w.tips[|v.tips|] == "Check API Key in configuration."
      && w.revenue == v.revenue
  {
    WeekChartRevenue(orders, today);
    ForecastAfterError(v, WeekOf(orders, today).chart, WindowRevenue(orders, today - 6, today + 1),
                       apiKey, reply, parse);
  }

  /** A failed call with the key set shows the given chart (summing to the
      given amount), keeps the revenue, notes the message and adds the one tip. */
  lemma ForecastAfterError(v: ForecastView, salesChart: seq<Money>, sum: Money, apiKey: string,
                           reply: ForecastReply, parse: string -> ForecastParse)
    requires apiKey != [] && ForecastError(reply, parse).Some?
    requires SumReals(salesChart) == sum
    ensures var w := ForecastAfter(v, salesChart, apiKey, reply, parse);
      && w.chart == salesChart
      && SumReals(w.chart) == sum
      && w.holiday == "AI Error: " + ForecastError(reply, parse).value
      && |w.tips| == |v.tips| + 1 && w.tips[..|v.tips|] == v.tips
      && w.tips[|v.tips|] == "Check API Key in configuration."
      && w.revenue == v.revenue
  {
    var w := ForecastAfter(v, salesChart, apiKey, reply, parse);
    assert w.tips == v.tips + ["Check API Key in configuration."];
  }

  /** The chart of n consecutive days sums to the revenue of those days. */
  lemma {:induction false} WeekChartSum(orders: seq<Order>, lo: int, n: nat)
    ensures SumReals(seq(n, k => DailyTotal(orders, lo + k))) == WindowRevenue(orders, lo, lo + n)
  {
    if n == 0 {
      assert WindowRevenue(orders, lo, lo) == 0.0 by { WindowEmpty(orders, lo); }
    } else {
      var c := seq(n, k => DailyTotal(orders, lo + k));
      assert c[..n - 1] == seq(n - 1, k => DailyTotal(orders, lo + k));
      WeekChartSum(orders, lo, n - 1);
      WindowStep(orders, lo, lo + n - 1);
    }
  }

  lemma {:induction false} WindowEmpty(orders: seq<Order>, lo: int)
    ensures WindowRevenue(orders, lo, lo) == 0.0
    decreases |orders|
  {
    if orders != [] {
      WindowEmpty(orders[1..], lo);
    }
  }

  /** Success shows the model's forecast, notes and tips, and sets the
      forecasted revenue to the sum of the forecast; a JSON null changes nothing. */
  lemma ForecastSuccess(v: ForecastView, salesChart: seq<Money>, apiKey: string,
                        reply: ForecastReply, parse: string -> ForecastParse)
    requires apiKey != [] && reply.Candidate? && !parse(Shop.StripFences(reply.text)).ParseThrew?
    ensures var p := parse(Shop.StripFences(reply.text));
      var w := ForecastAfter(v, salesChart, apiKey, reply, parse);
      && (p.ParsedNull? ==> w == v)
      && (p.ParsedReport? ==> w.chart == p.forecast && w.revenue == SumReals(p.forecast)
                              && w.holiday == p.holidayNote && w.tips == p.tips)
  {
  }

  // ---------------------------------------------------------------------
  // The page

  /** The key figures and lists: recent orders, revenue, order count, profit,
      low-stock and slow-moving items. */
  datatype Figures = Figures(recent: seq<Order>, revenue: Money, count: int, profit: Money,
                             lowStock: seq<Item>, slowMoving: seq<Item>)

  /** The figures of the store's items and its newest-first orders. */
  function FiguresOf(items: seq<Item>, orders: seq<Order>): Figures {
    Figures(RecentOrders(orders), Revenue(orders), |orders|, Profit(orders), LowStock(items), SlowMoving(items, orders))
  }

  class ReportPage {
    var totalRevenue: Money
    var totalProfit: Money
    var totalOrders: int
    var forecastedRevenue: Money
    var lowStockItems: seq<Item>
    var slowMovingItems: seq<Item>
    var recentOrders: seq<Order>
    var salesDays: seq<int>
    var salesMap: map<int, Money>
    var salesChart: seq<Money>
    var forecastChart: seq<Money>
    var holidayPrediction: string
    var actionableTips: seq<string>

    constructor ()
      ensures totalRevenue == 0.0 && totalProfit == 0.0 && totalOrders == 0 && forecastedRevenue == 0.0
      ensures lowStockItems == [] && slowMovingItems == [] && recentOrders == []
      ensures salesDays == [] && salesMap == map[] && salesChart == [] && forecastChart == []
      ensures holidayPrediction == "Ask Sari to analyze your upcoming holidays!" && actionableTips == []
    {
      totalRevenue, totalProfit, totalOrders, forecastedRevenue := 0.0, 0.0, 0, 0.0;
      lowStockItems, slowMovingItems, recentOrders := [], [], [];
      salesDays, salesMap, salesChart, forecastChart := [], map[], [], [];
      holidayPrediction := "Ask Sari to analyze your upcoming holidays!";
      actionableTips := [];
    }

    /** apiKey is the decrypted key; reply the call's outcome; parse the
        deserialiser. */
    method GenerateAiForecast(apiKey: string, reply: ForecastReply, parse: string -> ForecastParse)
      modifies this`forecastChart, this`forecastedRevenue, this`holidayPrediction, this`actionableTips
      ensures ForecastView(forecastChart, forecastedRevenue, holidayPrediction, actionableTips)
           == ForecastAfter(old(ForecastView(forecastChart, forecastedRevenue, holidayPrediction, actionableTips)), salesChart, apiKey, reply, parse)
    {
      if apiKey == [] {
        holidayPrediction := "API Key is missing in appsettings.json";
        return;
      }
      var failure: Option<string> := None;
      match reply {
        case Thrown(m) => failure := Some(m);
        case ErrorStatus(st) => failure := Some("API Error (" + st + ")");
        case NoCandidates => failure := Some("AI returned no content.");
        case Candidate(t) =>
          var text := Shop.StripFences(t);
          match parse(text) {
            case ParseThrew(m) => failure := Some(m);
            case ParsedNull =>
            case ParsedReport(f, note, tips) =>
              forecastChart := f;
              forecastedRevenue := SumReals(f);
              holidayPrediction := note;
              actionableTips := tips;
          }
      }
      if failure.Some? {
        forecastChart := salesChart;
        holidayPrediction := "AI Error: " + failure.value;
        actionableTips := actionableTips + ["Check API Key in configuration."];
      }
    }

    /** OnGetAsync for the user's store: nothing without a store, otherwise the
        figures of the store's items and newest-first orders, the week's
        buckets and the forecast fields as GenerateAiForecast leaves them. */
    method Load(db: Database, store: Option<string>, now: Time,
                apiKey: string, reply: ForecastReply, parse: string -> ForecastParse)
      modifies this
      ensures NoStore(store) ==> unchanged(this)
      ensures !NoStore(store) ==>
        Figures(recentOrders, totalRevenue, totalOrders, totalProfit, lowStockItems, slowMovingItems) == FiguresOf(StoreItems(db.items, store.value), OrdersByDate(db.orders, store.value))
      ensures !NoStore(store) ==>
        Week(salesDays, salesMap, salesChart) == WeekOf(OrdersByDate(db.orders, store.value), DayOf(now))
      ensures !NoStore(store) ==>
        ForecastView(forecastChart, forecastedRevenue, holidayPrediction, actionableTips) == ForecastAfter(old(ForecastView(forecastChart, forecastedRevenue, holidayPrediction, actionableTips)), salesChart, apiKey, reply, parse)
    {
      if NoStore(store) {
        return;
      }
      var items := StoreItems(db.items, store.value);
      var orders := OrdersByDate(db.orders, store.value);
      Present(items, orders, now, apiKey, reply, parse);
    }

    /** The body of OnGetAsync once the store's items and orders are read. */
    method Present(items: seq<Item>, orders: seq<Order>, now: Time,
                   apiKey: string, reply: ForecastReply, parse: string -> ForecastParse)
      modifies this`recentOrders, this`totalRevenue, this`totalOrders, this`totalProfit,
               this`lowStockItems, this`slowMovingItems,
               this`salesDays, this`salesMap, this`salesChart,
               this`forecastChart, this`forecastedRevenue, this`holidayPrediction, this`actionableTips
      ensures Figures(recentOrders, totalRevenue, totalOrders, totalProfit, lowStockItems, slowMovingItems) == FiguresOf(items, orders)
      ensures Week(salesDays, salesMap, salesChart) == WeekOf(orders, DayOf(now))
      ensures ForecastView(forecastChart, forecastedRevenue, holidayPrediction, actionableTips) == ForecastAfter(old(ForecastView(forecastChart, forecastedRevenue, holidayPrediction, actionableTips)), salesChart, apiKey, reply, parse)
    {
      SetFigures(items, orders);
      ShowWeekAndForecast(orders, now, apiKey, reply, parse);
    }

    method ShowWeekAndForecast(orders: seq<Order>, now: Time,
                   apiKey: string, reply: ForecastReply, parse: string -> ForecastParse)
      modifies this`salesDays, this`salesMap, this`salesChart,
               this`forecastChart, this`forecastedRevenue, this`holidayPrediction, this`actionableTips
      ensures Week(salesDays, salesMap, salesChart) == WeekOf(orders, DayOf(now))
      ensures ForecastView(forecastChart, forecastedRevenue, holidayPrediction, actionableTips) == ForecastAfter(old(ForecastView(forecastChart, forecastedRevenue, holidayPrediction, actionableTips)), salesChart, apiKey, reply, parse)
    {
      ShowWeek(orders, now);
      GenerateAiForecast(apiKey, reply, parse);
    }

    /** The chart labels and data: the seven-day buckets of the orders. */
    method ShowWeek(orders: seq<Order>, now: Time)
      modifies this`salesDays, this`salesMap, this`salesChart
      ensures Week(salesDays, salesMap, salesChart) == WeekOf(orders, DayOf(now))
    {
      salesDays, salesMap, salesChart := SevenDaySales(orders, now);
    }

    /** The key figures and lists of OnGetAsync, from the store's items and its
        newest-first orders. */
    method SetFigures(items: seq<Item>, orders: seq<Order>)
      modifies this`recentOrders, this`totalRevenue, this`totalOrders, this`totalProfit,
               this`lowStockItems, this`slowMovingItems
      ensures Figures(recentOrders, totalRevenue, totalOrders, totalProfit, lowStockItems, slowMovingItems) == FiguresOf(items, orders)
    {
      recentOrders := RecentOrders(orders);
      totalRevenue := Revenue(orders);
      totalOrders := |orders|;
      totalProfit := Profit(orders);
      lowStockItems := LowStock(items);
      slowMovingItems := SlowMoving(items, orders);
    }
  }

  // ---------------------------------------------------------------------
  // Demonstration history (OnPostSeedHistoryAsync)

  /** One line: random.Next(items.Count) picks the item, Next(1, 3) the quantity. */
  datatype LineDraw = LineDraw(pick: nat, quantity: int)

  /** One order: Next(1, 4) lines and Next(10000, 99999) for the code. */
  datatype OrderDraw = OrderDraw(lines: seq<LineDraw>, code: nat)

  /** One day: NextDouble() > 0.7 skips it, else Next(1, 8) orders. */
  datatype DayDraw = Skip | Sell(orders: seq<OrderDraw>)

  predicate OrderFits(o: OrderDraw, poolSize: nat) {
    && 1 <= |o.lines| <= 3 && 10000 <= o.code < 99999
    && forall k :: 0 <= k < |o.lines| ==> o.lines[k].pick < poolSize && 1 <= o.lines[k].quantity <= 2
  }

  predicate DayFits(d: DayDraw, poolSize: nat) {
    d.Sell? ==> 1 <= |d.orders| <= 7 && forall j :: 0 <= j < |d.orders| ==> OrderFits(d.orders[j], poolSize)
  }

  /** The draws of the 31 days, oldest (30 days ago) first. */
  predicate DrawsFit(draws: seq<DayDraw>, poolSize: nat) {
    |draws| == 31 && forall t :: 0 <= t < 31 ==> DayFits(draws[t], poolSize)
  }

  /** The item inserted when the store has none. */
  function StarterPack(storeId: string, id: string, now: Time): Item {
    Item(id, storeId, "Starter Pack", "General", 100, 100.0, 80.0, 0, None, None, now)
  }

  /** The items the history draws from. */
  function SeedPool(items: seq<Item>, storeId: string, id: string, now: Time): (r: seq<Item>)
    ensures |r| >= 1
    ensures StoreItems(items, storeId) == [] ==> r == [StarterPack(storeId, id, now)]
    ensures StoreItems(items, storeId) != [] ==> r == StoreItems(items, storeId)
  {
    if StoreItems(items, storeId) == [] then [StarterPack(storeId, id, now)] else StoreItems(items, storeId)
  }

  /** A sold line priced from the catalog item. */
  function SoldLine(x: Item, quantity: int): CartItemDetail {
    CartItemDetail(x.name, quantity, x.price, x.costPrice)
  }

  function DrawnLines(pool: seq<Item>, ls: seq<LineDraw>): seq<CartItemDetail>
    requires forall k :: 0 <= k < |ls| ==> ls[k].pick < |pool|
  {
    if ls == [] then []
    else DrawnLines(pool, ls[..|ls| - 1]) + [SoldLine(pool[ls[|ls| - 1].pick], ls[|ls| - 1].quantity)]
  }

  function DrawnOrder(pool: seq<Item>, storeId: string, o: OrderDraw, date: Time): Order
    requires OrderFits(o, |pool|)
  {
    var lines := DrawnLines(pool, o.lines);
    Order(storeId, "Walk-in Customer", lines, SumTotals(lines), date, "Completed", "RND-" + Text.NatToString(o.code))
  }

  function DayOrders(pool: seq<Item>, storeId: string, ds: seq<OrderDraw>, date: Time): seq<Order>
    requires forall j :: 0 <= j < |ds| ==> OrderFits(ds[j], |pool|)
  {
    if ds == [] then []
    else DayOrders(pool, storeId, ds[..|ds| - 1], date) + [DrawnOrder(pool, storeId, ds[|ds| - 1], date)]
  }

  /** UtcNow.AddDays(-n). */
  function DaysAgo(now: Time, n: int): Time {
    now - n * DayMs
  }

  /** The orders of the first n days; day t is dated now - (30 - t) days. */
  function History(pool: seq<Item>, storeId: string, draws: seq<DayDraw>, n: nat, now: Time): seq<Order>
    requires n <= |draws| && forall t :: 0 <= t < |draws| ==> DayFits(draws[t], |pool|)
  {
    if n == 0 then []
    else
      History(pool, storeId, draws, n - 1, now) + DaySales(pool, storeId, draws[n - 1], DaysAgo(now, 30 - (n - 1)))
  }

  /** The orders of one day's draw. */
  function DaySales(pool: seq<Item>, storeId: string, d: DayDraw, date: Time): seq<Order>
    requires DayFits(d, |pool|)
  {
    match d
    case Skip => []
    case Sell(ds) => DayOrders(pool, storeId, ds, date)
  }

  /** What every generated order is: a completed walk-in order of the store,
      one to three lines of one or two units of a pool item at its catalog
      price and cost, an amount equal to its line total, a nine-character code,
      dated within the last 30 days. */
  predicate SeededOrder(o: Order, pool: seq<Item>, storeId: string, now: Time) {
    && o.storeId == storeId && o.customerName == "Walk-in Customer" && o.status == "Completed"
    && o.totalAmount == SumTotals(o.items) && |o.orderCode| == 9
    && 1 <= |o.items| <= 3
    && (forall d :: d in o.items ==> 1 <= d.quantity <= 2 && exists x :: x in pool && d == SoldLine(x, d.quantity))
    && now - 30 * DayMs <= o.orderDate <= now
  }

  lemma {:induction false} DrawnLinesFacts(pool: seq<Item>, ls: seq<LineDraw>)
    requires forall k :: 0 <= k < |ls| ==> ls[k].pick < |pool| && 1 <= ls[k].quantity <= 2
    ensures |DrawnLines(pool, ls)| == |ls|
    ensures forall d :: d in DrawnLines(pool, ls) ==>
      1 <= d.quantity <= 2 && exists x :: x in pool && d == SoldLine(x, d.quantity)
    decreases |ls|
  {
    if ls != [] {
      DrawnLinesFacts(pool, ls[..|ls| - 1]);
      var l := ls[|ls| - 1];
      assert pool[l.pick] in pool;
    }
  }

  lemma DrawnOrderSeeded(pool: seq<Item>, storeId: string, o: OrderDraw, date: Time, now: Time)
    requires OrderFits(o, |pool|) && now - 30 * DayMs <= date <= now
    ensures SeededOrder(DrawnOrder(pool, storeId, o, date), pool, storeId, now)
  {
    DrawnLinesFacts(pool, o.lines);
    assert Text.Pow10(4) == 10000 && Text.Pow10(5) == 100000 by {
      assert Text.Pow10(1) == 10;
      assert Text.Pow10(2) == 100;
      assert Text.Pow10(3) == 1000;
    }
    Text.NatToStringLength(o.code, 5);
  }

  lemma {:induction false} DayOrdersSeeded(pool: seq<Item>, storeId: string, ds: seq<OrderDraw>, date: Time, now: Time)
    requires forall j :: 0 <= j < |ds| ==> OrderFits(ds[j], |pool|)
    requires now - 30 * DayMs <= date <= now
    ensures forall o :: o in DayOrders(pool, storeId, ds, date) ==> SeededOrder(o, pool, storeId, now)
    decreases |ds|
  {
    if ds != [] {
      DayOrdersSeeded(pool, storeId, ds[..|ds| - 1], date, now);
      DrawnOrderSeeded(pool, storeId, ds[|ds| - 1], date, now);
    }
  }

  lemma DaysAgoWithin(now: Time, k: int)
    requires 0 <= k <= 30
    ensures now - 30 * DayMs <= DaysAgo(now, k) <= now
  {
  }

  /** Every generated order is well formed. */
  lemma {:induction false} HistorySeeded(pool: seq<Item>, storeId: string, draws: seq<DayDraw>, n: nat, now: Time)
    requires n <= |draws| <= 31 && forall t :: 0 <= t < |draws| ==> DayFits(draws[t], |pool|)
    ensures forall o :: o in History(pool, storeId, draws, n, now) ==> SeededOrder(o, pool, storeId, now)
  {
    if n > 0 {
      HistorySeeded(pool, storeId, draws, n - 1, now);
      var date := DaysAgo(now, 30 - (n - 1));
      DaysAgoWithin(now, 30 - (n - 1));
      if draws[n - 1].Sell? {
        DayOrdersSeeded(pool, storeId, draws[n - 1].orders, date, now);
      }
      var earlier := History(pool, storeId, draws, n - 1, now);
      var day := DaySales(pool, storeId, draws[n - 1], date);
      assert History(pool, storeId, draws, n, now) == earlier + day;
      assert forall o :: o in earlier + day ==> o in earlier || o in day;
    }
  }

  /** The generated history is settled, so its profit is its revenue less its
      cost of goods. */
  lemma HistoryMargin(pool: seq<Item>, storeId: string, draws: seq<DayDraw>, now: Time)
    requires DrawsFit(draws, |pool|)
    ensures Settled(History(pool, storeId, draws, |draws|, now))
    ensures Profit(History(pool, storeId, draws, |draws|, now))
         == Revenue(History(pool, storeId, draws, |draws|, now)) - CostOfGoods(History(pool, storeId, draws, |draws|, now))
  {
    HistorySeeded(pool, storeId, draws, |draws|, now);
    ProfitIsMargin(History(pool, storeId, draws, |draws|, now));
  }

  /** The inner loop: one line per draw. */
  method DrawLines(pool: seq<Item>, ls: seq<LineDraw>) returns (orderItems: seq<CartItemDetail>)
    requires forall k :: 0 <= k < |ls| ==> ls[k].pick < |pool|
    ensures orderItems == DrawnLines(pool, ls)
  {
    orderItems := [];
    var k := 0;
    while k < |ls|
      invariant 0 <= k <= |ls|
      invariant orderItems == DrawnLines(pool, ls[..k])
    {
      var item := pool[ls[k].pick];
      orderItems := orderItems + [CartItemDetail(item.name, ls[k].quantity, item.price, item.costPrice)];
      assert ls[..k + 1][..k] == ls[..k];
      k := k + 1;
    }
    assert ls[..|ls|] == ls;
  }

  /** The middle loop: the orders of one day. */
  method DrawDay(pool: seq<Item>, storeId: string, ds: seq<OrderDraw>, date: Time) returns (dayOrders: seq<Order>)
    requires forall j :: 0 <= j < |ds| ==> OrderFits(ds[j], |pool|)
    ensures dayOrders == DayOrders(pool, storeId, ds, date)
  {
    dayOrders := [];
    var j := 0;
    while j < |ds|
      invariant 0 <= j <= |ds|
      invariant dayOrders == DayOrders(pool, storeId, ds[..j], date)
    {
      var orderItems := DrawLines(pool, ds[j].lines);
      dayOrders := dayOrders + [Order(storeId, "Walk-in Customer", orderItems, SumTotals(orderItems), date,
                                      "Completed", "RND-" + Text.NatToString(ds[j].code))];
      assert ds[..j + 1][..j] == ds[..j];
      j := j + 1;
    }
    assert ds[..|ds|] == ds;
  }

  /** Generates 31 days of orders for the store; sampleId is the id the
      database gives the Starter Pack if one is inserted. */
  method SeedHistory(db: Database, store: Option<string>, now: Time, sampleId: string, draws: seq<DayDraw>)
    requires UniqueIds(db.items) && !HasId(db.items, sampleId)
    requires !NoStore(store) ==> DrawsFit(draws, |SeedPool(db.items, store.value, sampleId, now)|)
    modifies db`items, db`orders
    ensures NoStore(store) ==> db.items == old(db.items) && db.orders == old(db.orders)
    ensures !NoStore(store) ==>
      var s := store.value;
      && db.items == old(db.items) + (if StoreItems(old(db.items), s) == [] then [StarterPack(s, sampleId, now)] else [])
      && db.orders == old(db.orders) + History(SeedPool(old(db.items), s, sampleId, now), s, draws, |draws|, now)
    ensures UniqueIds(db.items)
  {
    if NoStore(store) {
      return;
    }
    var s := store.value;
    var items := StoreItems(db.items, s);
    if |items| == 0 {
      var sampleItem := StarterPack(s, sampleId, now);
      db.items := db.items + [sampleItem];
      items := items + [sampleItem];
      assert UniqueIds(db.items) by {
        forall j | 0 <= j < |db.items| - 1 ensures db.items[j].id != sampleId {
        }
      }
    }
    assert items == SeedPool(old(db.items), s, sampleId, now);
    var newOrders := DrawHistory(items, s, draws, now);
    if |newOrders| > 0 {
      db.orders := db.orders + newOrders;
    }
  }

  /** The outer loop: days 30 ago down to today. */
  method DrawHistory(pool: seq<Item>, storeId: string, draws: seq<DayDraw>, now: Time) returns (newOrders: seq<Order>)
    requires DrawsFit(draws, |pool|)
    ensures newOrders == History(pool, storeId, draws, |draws|, now)
  {
    newOrders := [];
    var i := 30;
    while i >= 0
      invariant -1 <= i <= 30
      invariant newOrders == History(pool, storeId, draws, |draws| - 1 - i, now)
    {
      var date := DaysAgo(now, i);
      var dayOrders := DrawDate(pool, storeId, draws[30 - i], date);
      HistoryStep(pool, storeId, draws, 30 - i, now);
      newOrders := newOrders + dayOrders;
      i := i - 1;
    }
    assert |draws| - 1 - i == |draws|;
  }

  /** One more day of history appends that day's orders. */
  lemma HistoryStep(pool: seq<Item>, storeId: string, draws: seq<DayDraw>, n: nat, now: Time)
    requires DrawsFit(draws, |pool|) && n < |draws|
    ensures History(pool, storeId, draws, n + 1, now)
         == History(pool, storeId, draws, n, now) + DaySales(pool, storeId, draws[n], DaysAgo(now, 30 - n))
  {
  }

  /** One day of the outer loop: nothing, or that day's orders. */
  method DrawDate(pool: seq<Item>, storeId: string, d: DayDraw, date: Time) returns (dayOrders: seq<Order>)
    requires DayFits(d, |pool|)
    ensures dayOrders == DaySales(pool, storeId, d, date)
  {
    match d {
      case Skip => dayOrders := [];
      case Sell(ds) => dayOrders := DrawDay(pool, storeId, ds, date);
    }
  }

  /** A store with no items gets exactly one Starter Pack, and then every
      generated order sells only Starter Packs: 100.00 each at cost 80.00. */
  lemma StarterOnly(items: seq<Item>, storeId: string, id: string, now: Time, draws: seq<DayDraw>)
    requires StoreItems(items, storeId) == [] && DrawsFit(draws, 1)
    ensures forall o, d :: o in History(SeedPool(items, storeId, id, now), storeId, draws, |draws|, now) && d in o.items ==>
      d.itemName == "Starter Pack" && d.price == 100.0 && d.cost == 80.0
  {
    HistorySeeded(SeedPool(items, storeId, id, now), storeId, draws, |draws|, now);
  }
}
