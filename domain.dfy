/** The records the handlers share (Item, Order, CartItemDetail, CartItem,
    SeedItem, ChatMessage, Notification, User) and the document database that
    holds them, one sequence per collection in insertion order. */
module Domain {

  /** C# decimal: exact decimal arithmetic, modelled by exact rationals. */
  type Money = real

  /** DateTime as milliseconds of UTC time. */
  type Time = int

  const MinuteMs: int := 60000
  const DayMs: int := 86400000

  /** DateTime.Date, as a day number. */
  function DayOf(t: Time): int {
    t / DayMs
  }

  datatype Option<T> = None | Some(value: T)

  predicate IsHexDigit(c: char) {
    '0' <= c <= '9' || 'a' <= c <= 'f' || 'A' <= c <= 'F'
  }

  /** ObjectId.Parse accepts exactly 24 hexadecimal digits; an id filter on a
      field stored as an ObjectId throws FormatException on any other text. */
  predicate IsObjectIdText(s: string) {
    |s| == 24 && forall k :: 0 <= k < |s| ==> IsHexDigit(s[k])
  }

  /** A catalog entry.  A null StoreId is the empty string. */
  datatype Item = Item(
    id: string,
    storeId: string,
    name: string,
    category: string,
    quantity: int,
    price: Money,
    costPrice: Money,
    position: int,
    logoData: Option<seq<bv8>>,
    logoContentType: Option<string>,
    createdAt: Time)

  /** One line of an order or of the displayed cart: a snapshot, not a reference. */
  datatype CartItemDetail = CartItemDetail(itemName: string, quantity: int, price: Money, cost: Money)
  {
    function Total(): Money {
      (quantity as real) * price
    }
  }

  /** One line of the session cart. */
  datatype CartItem = CartItem(itemId: string, quantity: int)

  datatype Order = Order(
    storeId: string,
    customerName: string,
    items: seq<CartItemDetail>,
    totalAmount: Money,
    orderDate: Time,
    status: string,
    orderCode: string)

  /** An item as the language model proposes it; a JSON null category is None. */
  datatype SeedItem = SeedItem(name: string, category: Option<string>, price: Money, cost: Money, quantity: int)

  datatype ChatMessage = ChatMessage(storeId: string, guestId: string, sender: string, content: string, timestamp: Time)

  /** What a notification reports; the formatting into a sentence is left out. */
  datatype NoticeText =
    | AddedToCart(quantity: int, itemName: string)
    | OrderReceived(orderCode: string, total: Money)
    | HumanRequested

  datatype Notification = Notification(storeId: string, message: NoticeText, kind: string, timestamp: Time, isRead: bool)

  datatype User = User(
    id: string,
    username: string,
    email: string,
    passwordHash: string,
    isEmailVerified: bool,
    emailVerificationToken: Option<string>,
    emailVerificationTokenExpires: Option<Time>,
    role: string)

  /** The sum of Quantity * Price over the rows. */
  function SumTotals(ds: seq<CartItemDetail>): Money {
    if ds == [] then 0.0 else SumTotals(ds[..|ds| - 1]) + ds[|ds| - 1].Total()
  }

  /** One more row adds its Quantity * Price. */
  lemma SumTotalsSnoc(ds: seq<CartItemDetail>, d: CartItemDetail)
    ensures SumTotals(ds + [d]) == SumTotals(ds) + d.Total()
  {
    assert (ds + [d])[..|ds + [d]| - 1] == ds;
  }

  lemma {:induction false} SumTotalsAppend(a: seq<CartItemDetail>, b: seq<CartItemDetail>)
    ensures SumTotals(a + b) == SumTotals(a) + SumTotals(b)
    decreases |b|
  {
    if b == [] {
      assert a + b == a;
    } else {
      assert (a + b)[..|a + b| - 1] == a + b[..|b| - 1];
      SumTotalsAppend(a, b[..|b| - 1]);
    }
  }

  /** The document ids of a collection are unique. */
  predicate UniqueIds(items: seq<Item>) {
    forall i, j :: 0 <= i < |items| && 0 <= j < |items| && i != j ==> items[i].id != items[j].id
  }

  predicate HasId(items: seq<Item>, id: string) {
    exists j :: 0 <= j < |items| && items[j].id == id
  }

  /** Find(p).FirstOrDefault(), as a position: the first index satisfying p,
      None exactly when no element does. */
  function FirstIndex<T>(s: seq<T>, p: T -> bool): (r: Option<nat>)
    ensures r.None? <==> forall k :: 0 <= k < |s| ==> !p(s[k])
    ensures r.Some? ==> r.value < |s| && p(s[r.value])
                        && forall k :: 0 <= k < r.value ==> !p(s[k])
  {
    if s == [] then None
    else if p(s[0]) then Some(0)
    else
      match FirstIndex(s[1..], p)
      case None => None
      case Some(k) => Some(k + 1)
  }

  /** The first index whose item has the given id (Find(Id == id).FirstOrDefault()).
      It is FirstIndex on the id (IndexOfIdIsFirstIndex), written out by
      recursion on the items because the handlers' proofs unfold it often. */
  function IndexOfId(items: seq<Item>, id: string): (r: Option<nat>)
    ensures r.None? <==> !HasId(items, id)
    ensures r.Some? ==> r.value < |items| && items[r.value].id == id
                        && forall j :: 0 <= j < r.value ==> items[j].id != id
  {
    if items == [] then None
    else if items[0].id == id then Some(0)
    else
      match IndexOfId(items[1..], id)
      case None => None
      case Some(k) => Some(k + 1)
  }

  lemma {:induction false} IndexOfIdIsFirstIndex(items: seq<Item>, id: string)
    ensures IndexOfId(items, id) == FirstIndex(items, (x: Item) => x.id == id)
  {
    if items != [] {
      IndexOfIdIsFirstIndex(items[1..], id);
    }
  }

  /** Prepending an item whose id is new keeps the ids unique. */
  lemma ConsUnique(y: Item, t: seq<Item>)
    requires UniqueIds(t) && forall z :: z in t ==> z.id != y.id
    ensures UniqueIds([y] + t)
  {
    var r := [y] + t;
    forall i, j | 0 <= i < |r| && 0 <= j < |r| && i != j ensures r[i].id != r[j].id {
      if i == 0 {
        assert r[j] == t[j - 1];
      } else if j == 0 {
        assert r[i] == t[i - 1];
      } else {
        assert r[i] == t[i - 1] && r[j] == t[j - 1];
      }
    }
  }

  /** The tail of uniquely keyed items is uniquely keyed and does not reuse
      the head's id. */
  lemma UniqueTail(items: seq<Item>)
    requires items != [] && UniqueIds(items)
    ensures UniqueIds(items[1..])
    ensures forall x :: x in items[1..] ==> x.id != items[0].id
  {
    forall x | x in items[1..] ensures x.id != items[0].id {
      var m :| 0 <= m < |items[1..]| && items[1..][m] == x;
      assert items[m + 1] == x;
    }
  }

  /** Keeping the head and some of the tail keeps the ids unique. */
  lemma UniqueKeep(items: seq<Item>, rest: seq<Item>)
    requires items != []
    requires forall x :: x in rest ==> x in items[1..]
    requires UniqueIds(items[1..]) ==> UniqueIds(rest)
    ensures UniqueIds(items) ==> UniqueIds([items[0]] + rest)
  {
    if UniqueIds(items) {
      UniqueTail(items);
      ConsUnique(items[0], rest);
    }
  }

  /** The item collection as the store filter sees it. */
  function StoreItems(items: seq<Item>, storeId: string): (r: seq<Item>)
    ensures |r| <= |items|
    ensures forall x :: x in r <==> x in items && x.storeId == storeId
    ensures UniqueIds(items) ==> UniqueIds(r)
  {
    if items == [] then []
    else if items[0].storeId == storeId then
      var rest := StoreItems(items[1..], storeId);
      UniqueKeep(items, rest);
      [items[0]] + rest
    else StoreItems(items[1..], storeId)
  }

  /** The order collection as the store filter sees it. */
  function StoreOrders(orders: seq<Order>, storeId: string): (r: seq<Order>)
    ensures |r| <= |orders|
    ensures forall x :: x in r <==> x in orders && x.storeId == storeId
  {
    if orders == [] then []
    else if orders[0].storeId == storeId then [orders[0]] + StoreOrders(orders[1..], storeId)
    else StoreOrders(orders[1..], storeId)
  }

  /** The MongoDB database: one field per collection. */
  class Database {
    var items: seq<Item>
    var orders: seq<Order>
    var chats: seq<ChatMessage>
    var notifications: seq<Notification>
    var users: seq<User>

    constructor ()
      ensures items == [] && orders == [] && chats == [] && notifications == [] && users == []
    {
      items, orders, chats, notifications, users := [], [], [], [], [];
    }
  }
}
