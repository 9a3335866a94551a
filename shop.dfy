/** The storefront (Pages/Shop.cshtml.cs): the session cart, the cart as
    displayed, checkout, and the assistant chat with its key rotation.  The
    query-string store id is an input (None when absent); the mock catalogue a
    mock store shows is an input as well. */
module Shop {
  import opened Domain
  import Text

  // ---------------------------------------------------------------------
  // Session cart (OnPostAddToCartAsync)

  /** The "Cart" entry of the HTTP session; a removed entry reads as empty. */
  class Session {
    var cart: seq<CartItem>

    constructor ()
      ensures cart == []
    {
      cart := [];
    }
  }

  /** A requested quantity below 1 counts as 1. */
  function Clamp(quantity: int): (r: int)
    ensures r >= 1
    ensures quantity >= 1 ==> r == quantity
    ensures quantity < 1 ==> r == 1
  {
    if quantity < 1 then 1 else quantity
  }

  /** The first line for the item (FirstOrDefault(c => c.ItemId == itemId)). */
  function LineIndex(cart: seq<CartItem>, itemId: string): (r: Option<nat>)
    ensures r.None? <==> forall k :: 0 <= k < |cart| ==> cart[k].itemId != itemId
    ensures r.Some? ==> r.value < |cart| && cart[r.value].itemId == itemId
                        && forall k :: 0 <= k < r.value ==> cart[k].itemId != itemId
  {
    FirstIndex(cart, (l: CartItem) => l.itemId == itemId)
  }

  /** The quantity the cart holds of an item: its first line's, or 0. */
  function LineQuantity(cart: seq<CartItem>, itemId: string): int {
    match LineIndex(cart, itemId)
    case None => 0
    case Some(k) => cart[k].quantity
  }

  /** The cart after adding q of the item: its line grows, or a line is appended. */
  function AddLine(cart: seq<CartItem>, itemId: string, q: int): seq<CartItem> {
    match LineIndex(cart, itemId)
    case None => cart + [CartItem(itemId, q)]
    case Some(k) => cart[k := CartItem(itemId, cart[k].quantity + q)]
  }

  /** cart.Sum(c => c.Quantity) */
  function TotalQuantity(cart: seq<CartItem>): int {
    if cart == [] then 0 else TotalQuantity(cart[..|cart| - 1]) + cart[|cart| - 1].quantity
  }

  predicate OneLinePerItem(cart: seq<CartItem>) {
    forall i, j :: 0 <= i < |cart| && 0 <= j < |cart| && i != j ==> cart[i].itemId != cart[j].itemId
  }

  lemma {:induction false} TotalQuantityUpdate(cart: seq<CartItem>, k: nat, line: CartItem)
    requires k < |cart|
    ensures TotalQuantity(cart[k := line]) == TotalQuantity(cart) - cart[k].quantity + line.quantity
    decreases |cart|
  {
    var n := |cart| - 1;
    var u := cart[k := line];
    if k < n {
      assert u[..n] == cart[..n][k := line];
      TotalQuantityUpdate(cart[..n], k, line);
    } else {
      assert u[..n] == cart[..n];
    }
  }

  lemma TotalQuantityAppend(cart: seq<CartItem>, line: CartItem)
    ensures TotalQuantity(cart + [line]) == TotalQuantity(cart) + line.quantity
  {
    assert (cart + [line])[..|cart|] == cart;
  }

  lemma {:induction false} LineIndexSameIds(a: seq<CartItem>, b: seq<CartItem>, id: string)
    requires |a| == |b| && forall m :: 0 <= m < |a| ==> a[m].itemId == b[m].itemId
    ensures LineIndex(a, id) == LineIndex(b, id)
  {
    if a != [] {
      LineIndexSameIds(a[1..], b[1..], id);
    }
  }

  lemma {:induction false} LineIndexAppend(cart: seq<CartItem>, line: CartItem, id: string)
    ensures LineIndex(cart + [line], id) ==
      if LineIndex(cart, id).Some? then LineIndex(cart, id)
      else if line.itemId == id then Some(|cart|) else None
  {
    if cart != [] {
      assert (cart + [line])[1..] == cart[1..] + [line];
      LineIndexAppend(cart[1..], line, id);
    }
  }

  /** Adding to the cart grows the item's quantity by q and no other item's. */
  lemma AddLineQuantities(cart: seq<CartItem>, itemId: string, q: int)
    ensures LineQuantity(AddLine(cart, itemId, q), itemId) == LineQuantity(cart, itemId) + q
    ensures forall id :: id != itemId ==> LineQuantity(AddLine(cart, itemId, q), id) == LineQuantity(cart, id)
  {
    var r := AddLine(cart, itemId, q);
    match LineIndex(cart, itemId)
    case None =>
      forall id ensures LineIndex(r, id) == if LineIndex(cart, id).Some? then LineIndex(cart, id) else if itemId == id then Some(|cart|) else None {
        LineIndexAppend(cart, CartItem(itemId, q), id);
      }
      forall id | id != itemId ensures LineQuantity(r, id) == LineQuantity(cart, id) {
        if LineIndex(cart, id).Some? {
          assert r[LineIndex(cart, id).value] == cart[LineIndex(cart, id).value];
        }
      }
    case Some(k) =>
      forall id ensures LineIndex(r, id) == LineIndex(cart, id) {
        LineIndexSameIds(r, cart, id);
      }
  }

  /** Lines of other items are untouched, at most one line is added, and the
      count grows by q. */
  lemma AddLineShape(cart: seq<CartItem>, itemId: string, q: int)
    ensures var r := AddLine(cart, itemId, q);
      (forall k :: 0 <= k < |cart| && cart[k].itemId != itemId ==> r[k] == cart[k])
      && |cart| <= |r| <= |cart| + 1
      && TotalQuantity(r) == TotalQuantity(cart) + q
  {
    match LineIndex(cart, itemId)
    case None =>
      TotalQuantityAppend(cart, CartItem(itemId, q));
    case Some(k) =>
      TotalQuantityUpdate(cart, k, CartItem(itemId, cart[k].quantity + q));
  }

  /** The cart keeps at most one line per item. */
  lemma AddLineOneLine(cart: seq<CartItem>, itemId: string, q: int)
    requires OneLinePerItem(cart)
    ensures OneLinePerItem(AddLine(cart, itemId, q))
  {
  }

  /** Whether the handler notifies the seller: the id starts with neither "p"
      nor "m" and names an item with a store. */
  function CartNotice(items: seq<Item>, itemId: string): (r: Option<Item>)
    ensures r.Some? <==> !Text.StartsWith(itemId, "p") && !Text.StartsWith(itemId, "m")
                         && HasId(items, itemId) && items[IndexOfId(items, itemId).value].storeId != []
    ensures r.Some? ==> r.value == items[IndexOfId(items, itemId).value]
  {
    if Text.StartsWith(itemId, "p") || Text.StartsWith(itemId, "m") then None
    else match IndexOfId(items, itemId)
      case None => None
      case Some(k) => if items[k].storeId != [] then Some(items[k]) else None
  }

  /** The notification list after the add-to-cart handler. */
  function CartNotifications(notes: seq<Notification>, items: seq<Item>, itemId: string, q: int, now: Time): seq<Notification> {
    match CartNotice(items, itemId)
    case None => notes
    case Some(x) => notes + [Notification(x.storeId, AddedToCart(q, x.name), "cart", now, false)]
  }

  /** Returns the cart's item count. */
  method AddToCart(session: Session, db: Database, itemId: string, quantity: int, now: Time) returns (count: int)
    modifies session, db`notifications
    ensures session.cart == AddLine(old(session.cart), itemId, Clamp(quantity))
    ensures count == TotalQuantity(session.cart)
    ensures db.notifications == CartNotifications(old(db.notifications), db.items, itemId, Clamp(quantity), now)
  {
    var q := quantity;
    if q < 1 {
      q := 1;
    }
    var cart := session.cart;
    var existing := LineIndex(cart, itemId);
    if existing.Some? {
      var k := existing.value;
      cart := cart[k := cart[k].(quantity := cart[k].quantity + q)];
    } else {
      cart := cart + [CartItem(itemId, q)];
    }
    session.cart := cart;
    var notice := CartNotice(db.items, itemId);
    if notice.Some? {
      db.notifications := db.notifications + [Notification(notice.value.storeId, AddedToCart(q, notice.value.name), "cart", now, false)];
    }
    count := TotalQuantity(cart);
  }

  // ---------------------------------------------------------------------
  // The displayed cart (LoadCartData)

  predicate IsMockStore(storeId: Option<string>) {
    storeId.Some? && Text.StartsWith(storeId.value, "mock_")
  }

  /** The row a resolved cart line shows; a mock product carries no cost. */
  function Snapshot(line: CartItem, x: Item, withCost: bool): (d: CartItemDetail)
    ensures d.itemName == x.name && d.price == x.price && d.quantity == line.quantity
    ensures d.cost == if withCost then x.costPrice else 0.0
  {
    CartItemDetail(x.name, line.quantity, x.price, if withCost then x.costPrice else 0.0)
  }

  /** The rows for the first n cart lines, looked up in the catalogue. */
  function CartDetails(cart: seq<CartItem>, n: nat, catalog: seq<Item>, withCost: bool): seq<CartItemDetail>
    requires n <= |cart|
  {
    if n == 0 then []
    else
      var rest := CartDetails(cart, n - 1, catalog, withCost);
      match IndexOfId(catalog, cart[n - 1].itemId)
      case None => rest
      case Some(k) => rest + [Snapshot(cart[n - 1], catalog[k], withCost)]
  }

  /** The cart lines whose item resolves, in cart order. */
  function ResolvedLines(cart: seq<CartItem>, catalog: seq<Item>): (r: seq<CartItem>)
    ensures forall l :: l in r <==> l in cart && HasId(catalog, l.itemId)
  {
    if cart == [] then []
    else
      var rest := ResolvedLines(cart[..|cart| - 1], catalog);
      var last := cart[|cart| - 1];
      assert cart == cart[..|cart| - 1] + [last];
      if HasId(catalog, last.itemId) then rest + [last] else rest
  }

  /** One row per resolvable line, in cart order, with the live item's name,
      price and cost and the line's quantity. */
  lemma {:induction false} CartDetailsRows(cart: seq<CartItem>, catalog: seq<Item>, withCost: bool)
    ensures var d := CartDetails(cart, |cart|, catalog, withCost);
      var rl := ResolvedLines(cart, catalog);
      |d| == |rl|
      && forall k :: 0 <= k < |d| ==>
           d[k] == Snapshot(rl[k], catalog[IndexOfId(catalog, rl[k].itemId).value], withCost)
    decreases |cart|
  {
    if cart != [] {
      var init := cart[..|cart| - 1];
      CartDetailsRows(init, catalog, withCost);
      assert forall n :: 0 <= n <= |init| ==> CartDetails(init, n, catalog, withCost) == CartDetails(cart, n, catalog, withCost) by {
        forall n | 0 <= n <= |init| ensures CartDetails(init, n, catalog, withCost) == CartDetails(cart, n, catalog, withCost) {
          DetailsPrefix(cart, init, n, catalog, withCost);
        }
      }
    }
  }

  lemma {:induction false} DetailsPrefix(cart: seq<CartItem>, init: seq<CartItem>, n: nat, catalog: seq<Item>, withCost: bool)
    requires n <= |init| <= |cart| && init == cart[..|init|]
    ensures CartDetails(init, n, catalog, withCost) == CartDetails(cart, n, catalog, withCost)
  {
    if n > 0 {
      DetailsPrefix(cart, init, n - 1, catalog, withCost);
      assert init[n - 1] == cart[n - 1];
    }
  }

  /** The catalogue the cart is read against and whether costs are copied. */
  function CatalogFor(items: seq<Item>, storeId: Option<string>, mock: seq<Item>): seq<Item> {
    if IsMockStore(storeId) then mock else items
  }

  /** The rows and grand total for the session cart; the session is left as it is. */
  method LoadCartData(session: Session, db: Database, storeId: Option<string>, mock: seq<Item>)
    returns (details: seq<CartItemDetail>, grandTotal: Money)
    ensures details == CartDetails(session.cart, |session.cart|, CatalogFor(db.items, storeId, mock), !IsMockStore(storeId))
    ensures grandTotal == SumTotals(details)
  {
    var cart := session.cart;
    var catalog := CatalogFor(db.items, storeId, mock);
    var withCost := !IsMockStore(storeId);
    details := [];
    var i := 0;
    while i < |cart|
      invariant 0 <= i <= |cart|
      invariant details == CartDetails(cart, i, catalog, withCost)
    {
      var found := IndexOfId(catalog, cart[i].itemId);
      if found.Some? {
        details := details + [Snapshot(cart[i], catalog[found.value], withCost)];
      }
      i := i + 1;
    }
    grandTotal := SumTotals(details);
  }

  /** The value of the resolvable lines at the catalogue's prices. */
  function CartValue(cart: seq<CartItem>, catalog: seq<Item>): Money {
    if cart == [] then 0.0
    else
      var last := cart[|cart| - 1];
      CartValue(cart[..|cart| - 1], catalog)
        + match IndexOfId(catalog, last.itemId)
          case None => 0.0
          case Some(k) => (last.quantity as real) * catalog[k].price
  }

  /** The grand total is the quantity-times-price value of the cart's resolvable lines. */
  lemma GrandTotalIsCartValue(cart: seq<CartItem>, catalog: seq<Item>, withCost: bool)
    ensures SumTotals(CartDetails(cart, |cart|, catalog, withCost)) == CartValue(cart, catalog)
  {
    PrefixTotal(cart, |cart|, catalog, withCost);
    assert cart[..|cart|] == cart;
  }

  /** The rows of the first n lines total the value of those lines. */
  lemma {:induction false} PrefixTotal(cart: seq<CartItem>, n: nat, catalog: seq<Item>, withCost: bool)
    requires n <= |cart|
    ensures SumTotals(CartDetails(cart, n, catalog, withCost)) == CartValue(cart[..n], catalog)
  {
    if n > 0 {
      PrefixTotal(cart, n - 1, catalog, withCost);
      assert cart[..n][..n - 1] == cart[..n - 1];
      assert cart[..n][n - 1] == cart[n - 1];
      var rest := CartDetails(cart, n - 1, catalog, withCost);
      match IndexOfId(catalog, cart[n - 1].itemId)
      case None =>
      case Some(k) =>
        SumTotalsSnoc(rest, Snapshot(cart[n - 1], catalog[k], withCost));
    }
  }

  // ---------------------------------------------------------------------
  // Checkout (OnPostCheckoutAsync)

  /** Inc(Quantity, -q) on the first document with the line's id. */
  function Decrement(items: seq<Item>, line: CartItem): (r: seq<Item>)
    ensures |r| == |items|
    ensures forall j :: 0 <= j < |items| ==> r[j] == items[j].(quantity := r[j].quantity)
  {
    match IndexOfId(items, line.itemId)
    case None => items
    case Some(k) => items[k := items[k].(quantity := items[k].quantity - line.quantity)]
  }

  /** The stock after the decrement loop has passed every line of cart, in
      order; only quantities change. */
  function Decremented(items: seq<Item>, cart: seq<CartItem>): (r: seq<Item>)
    ensures |r| == |items|
    ensures forall j :: 0 <= j < |items| ==> r[j] == items[j].(quantity := r[j].quantity)
  {
    if cart == [] then items else Decrement(Decremented(items, cart[..|cart| - 1]), cart[|cart| - 1])
  }

  /** The quantity the cart's lines take of an item, over all its lines. */
  function Taken(cart: seq<CartItem>, itemId: string): int {
    if cart == [] then 0
    else Taken(cart[..|cart| - 1], itemId) + (if cart[|cart| - 1].itemId == itemId then cart[|cart| - 1].quantity else 0)
  }

  /** Over uniquely keyed items each item loses exactly what the cart takes of
      it, with no check that enough is left, and no other field changes. */
  lemma {:induction false} StockDecrement(items: seq<Item>, cart: seq<CartItem>)
    requires UniqueIds(items)
    ensures var r := Decremented(items, cart);
      forall j :: 0 <= j < |items| ==> r[j] == items[j].(quantity := items[j].quantity - Taken(cart, items[j].id))
    decreases |cart|
  {
    if cart != [] {
      var init := cart[..|cart| - 1];
      var line := cart[|cart| - 1];
      StockDecrement(items, init);
      var mid := Decremented(items, init);
      assert forall j :: 0 <= j < |items| ==> mid[j].id == items[j].id;
      assert UniqueIds(mid);
      var r := Decremented(items, cart);
      forall j | 0 <= j < |items|
        ensures r[j] == items[j].(quantity := items[j].quantity - Taken(cart, items[j].id))
      {
        match IndexOfId(mid, line.itemId)
        case None =>
        case Some(k) =>
          if j != k {
            assert mid[j].id != line.itemId;
          }
      }
    }
  }

  /** Stock may go negative: one in stock, three ordered, minus two left. */
  lemma StockMayGoNegative(x: Item)
    requires x.quantity == 1
    ensures Decremented([x], [CartItem(x.id, 3)])[0].quantity == -2
  {
    assert [CartItem(x.id, 3)][..0] == [];
  }

  datatype CheckoutOutcome =
    | BackToShop
    | MockReceipt(orderId: string)
    | Receipt(order: Order)

  /** The order the checkout inserts: the pre-decrement rows and their total. */
  function NewOrder(storeId: Option<string>, userName: Option<string>, details: seq<CartItemDetail>, now: Time, code: nat): (o: Order)
    ensures o.items == details && o.totalAmount == SumTotals(details)
    ensures o.status == "Pending" && o.orderCode == "OR-" + Text.NatToString(code) && o.orderDate == now
    ensures o.customerName == if userName.Some? then userName.value else "Guest"
    ensures o.storeId == if storeId.Some? then storeId.value else []
  {
    Order(match storeId case Some(s) => s case None => [],
          match userName case Some(n) => n case None => "Guest",
          details, SumTotals(details), now, "Pending", "OR-" + Text.NatToString(code))
  }

  /** A code drawn from [1000, 9999) gives a seven-character order code. */
  lemma OrderCodeLength(code: nat)
    requires 1000 <= code < 9999
    ensures |"OR-" + Text.NatToString(code)| == 7
  {
    assert Text.Pow10(3) == 1000 && Text.Pow10(4) == 10000 by {
      assert Text.Pow10(1) == 10;
      assert Text.Pow10(2) == 100;
    }
    Text.NatToStringLength(code, 4);
  }

  /** code and mockCode are the draws of Random.Next(1000, 9999) and
      Random.Next(100, 999). */
  method Checkout(session: Session, db: Database, storeId: Option<string>, userName: Option<string>,
                  mock: seq<Item>, now: Time, code: nat, mockCode: nat) returns (outcome: CheckoutOutcome)
    requires 1000 <= code < 9999 && 100 <= mockCode < 999
    modifies session, db`items, db`orders, db`notifications
    ensures var details := CartDetails(old(session.cart), |old(session.cart)|, CatalogFor(old(db.items), storeId, mock), !IsMockStore(storeId));
      if details == [] then
        outcome == BackToShop && session.cart == old(session.cart)
        && db.items == old(db.items) && db.orders == old(db.orders) && db.notifications == old(db.notifications)
      else if IsMockStore(storeId) then
        outcome == MockReceipt("MOCK-ORDER-" + Text.NatToString(mockCode)) && session.cart == []
        && db.items == old(db.items) && db.orders == old(db.orders) && db.notifications == old(db.notifications)
      else
        var order := NewOrder(storeId, userName, details, now, code);
        outcome == Receipt(order) && session.cart == []
        && db.items == Decremented(old(db.items), old(session.cart))
        && db.orders == old(db.orders) + [order]
        && db.notifications == old(db.notifications)
             + [Notification(order.storeId, OrderReceived(order.orderCode, order.totalAmount), "order", now, false)]
  {
    var details, grandTotal := LoadCartData(session, db, storeId, mock);
    if details == [] {
      return BackToShop;
    }
    if IsMockStore(storeId) {
      session.cart := [];
      return MockReceipt("MOCK-ORDER-" + Text.NatToString(mockCode));
    }
    DecrementStock(db, session.cart);
    var order := NewOrder(storeId, userName, details, now, code);
    db.orders := db.orders + [order];
    session.cart := [];
    db.notifications := db.notifications + [Notification(order.storeId, OrderReceived(order.orderCode, grandTotal), "order", now, false)];
    outcome := Receipt(order);
  }

  /** The decrement loop over the session cart's lines. */
  method DecrementStock(db: Database, cart: seq<CartItem>)
    modifies db`items
    ensures db.items == Decremented(old(db.items), cart)
  {
    var i := 0;
    while i < |cart|
      invariant 0 <= i <= |cart|
      invariant db.items == Decremented(old(db.items), cart[..i])
    {
      ghost var before := db.items;
      var found := IndexOfId(db.items, cart[i].itemId);
      if found.Some? {
        var k := found.value;
        db.items := db.items[k := db.items[k].(quantity := db.items[k].quantity - cart[i].quantity)];
      }
      assert db.items == Decrement(before, cart[i]);
      assert cart[..i + 1][..i] == cart[..i] && cart[..i + 1][i] == cart[i];
      i := i + 1;
    }
    assert cart[..|cart|] == cart;
  }

  // ---------------------------------------------------------------------
  // Assistant chat (OnPostAiChatAsync, CallSariService)

  /** What one key's call produced: no usable reply (an error status, an
      exception, no candidates), or the first candidate's text (None for null). */
  datatype KeyAttempt = Failed | Answered(text: Option<string>)

  /** The first key whose call answered. */
  function FirstAnswer(attempts: seq<KeyAttempt>): (r: Option<nat>)
    ensures r.None? <==> forall k :: 0 <= k < |attempts| ==> attempts[k].Failed?
    ensures r.Some? ==> r.value < |attempts| && attempts[r.value].Answered?
                        && forall k :: 0 <= k < r.value ==> attempts[k].Failed?
  {
    if attempts == [] then None
    else if attempts[0].Answered? then Some(0)
    else match FirstAnswer(attempts[1..])
      case None => None
      case Some(k) => Some(k + 1)
  }

  /** The reply text of a key rotation: the first answer's text, "{}" for a
      null text or when every key failed. */
  function RotationText(attempts: seq<KeyAttempt>): string {
    match FirstAnswer(attempts)
    case None => "{}"
    case Some(k) => match attempts[k].text case Some(t) => t case None => "{}"
  }

  /** Tries the keys in order and stops at the first that answers; tried is
      how many keys were called. */
  method CallSariService(attempts: seq<KeyAttempt>) returns (text: string, ghost tried: nat)
    ensures text == RotationText(attempts)
    ensures FirstAnswer(attempts).Some? ==> tried == FirstAnswer(attempts).value + 1
    ensures FirstAnswer(attempts).None? ==> tried == |attempts|
  {
    var i := 0;
    while i < |attempts|
      invariant 0 <= i <= |attempts|
      invariant forall k :: 0 <= k < i ==> attempts[k].Failed?
    {
      if attempts[i].Answered? {
        assert FirstAnswer(attempts) == Some(i);
        tried := i + 1;
        text := if attempts[i].text.Some? then attempts[i].text.value else "{}";
        return;
      }
      i := i + 1;
    }
    tried := |attempts|;
    text := "{}";
  }

  /** Keys after the first that answers make no difference. */
  lemma LaterKeysIgnored(attempts: seq<KeyAttempt>, more: seq<KeyAttempt>)
    requires FirstAnswer(attempts).Some?
    ensures RotationText(attempts + more) == RotationText(attempts)
  {
    var k := FirstAnswer(attempts).value;
    var all := attempts + more;
    assert all[k] == attempts[k];
    assert forall m :: 0 <= m < k ==> all[m] == attempts[m];
    FirstAnswerAt(all, k);
  }

  /** The first answering key is the one before which every call failed. */
  lemma FirstAnswerAt(attempts: seq<KeyAttempt>, k: nat)
    requires k < |attempts| && attempts[k].Answered?
    requires forall m :: 0 <= m < k ==> attempts[m].Failed?
    ensures FirstAnswer(attempts) == Some(k)
  {
    var r := FirstAnswer(attempts);
    assert r.Some?;
    assert !(r.value < k) && !(k < r.value);
  }

  /** The reply with "```json" and "```" removed, then trimmed: never longer
      than the reply, with no white space at either end. */
  function StripFences(s: string): (r: string)
    ensures |r| <= |s|
    ensures r == [] || (!Text.IsWhiteSpace(r[0]) && !Text.IsWhiteSpace(r[|r| - 1]))
  {
    Text.Trim(Text.ReplaceAll(Text.ReplaceAll(s, "```json", ""), "```", ""))
  }

  /** A fenced JSON block comes out as its trimmed body. */
  lemma StripFencesOfFenced(body: string)
    requires '`' !in body
    ensures StripFences("```json" + body + "```") == Text.Trim(body)
  {
    var s := "```json" + body + "```";
    assert s == "```json" + (body + "```");
    Text.ReplaceAllAtPattern(body + "```", "```json", "");
    Text.ReplaceAllSkips(body, "```", "```json", "");
    assert Text.ReplaceAll("```", "```json", "") == "```";
    var once := Text.ReplaceAll(s, "```json", "");
    assert once == body + "```";
    Text.ReplaceAllSkips(body, "```", "```", "");
    Text.ReplaceAllAtPattern([], "```", "");
    assert "```" + [] == "```";
    assert Text.ReplaceAll(once, "```", "") == body;
  }

  /** A reply without backquotes is only trimmed. */
  lemma StripFencesOfPlain(s: string)
    requires '`' !in s
    ensures StripFences(s) == Text.Trim(s)
  {
    assert Text.ReplaceAll(s, "```json", "") == s;
  }

  /** What the JSON deserialiser made of the cleaned reply. */
  datatype ChatParse = ParseFailed | ParsedNull | Parsed(handoff: bool, reply: string)

  datatype ChatReply = ChatReply(handoff: bool, reply: string)

  /** The handoff decision: a reply that does not parse hands the guest to the
      seller; a JSON null keeps the default apology. */
  function Decide(p: ChatParse): (r: ChatReply)
    ensures p.ParseFailed? ==> r == ChatReply(true, "Connecting you to the seller...")
    ensures p.ParsedNull? ==> r == ChatReply(false, "Sorry, I didn't quite get that.")
    ensures p.Parsed? ==> r == ChatReply(p.handoff, p.reply)
  {
    match p
    case ParseFailed => ChatReply(true, "Connecting you to the seller...")
    case ParsedNull => ChatReply(false, "Sorry, I didn't quite get that.")
    case Parsed(h, t) => ChatReply(h, t)
  }

  /** parse is the deserialiser; attempts the outcome of each key's call. */
  method AiChat(db: Database, input: string, storeId: string, guestId: string,
                attempts: seq<KeyAttempt>, parse: string -> ChatParse, now: Time) returns (res: ChatReply)
    modifies db`chats, db`notifications
    ensures res == Decide(parse(StripFences(RotationText(attempts))))
    ensures res.handoff ==>
      db.chats == old(db.chats) + [ChatMessage(storeId, guestId, "User", input, now),
                                   ChatMessage(storeId, guestId, "Sari (AI)", res.reply, now + 500)]
      && db.notifications == old(db.notifications) + [Notification(storeId, HumanRequested, "chat", now, false)]
    ensures !res.handoff ==> db.chats == old(db.chats) && db.notifications == old(db.notifications)
  {
    var raw, tried := CallSariService(attempts);
    var cleaned := StripFences(raw);
    res := Decide(parse(cleaned));
    if res.handoff {
      RecordHandoff(db, input, storeId, guestId, res.reply, now);
    }
  }

  /** The guest's message, the reply half a second later, and the alert to
      the seller. */
  method RecordHandoff(db: Database, input: string, storeId: string, guestId: string, reply: string, now: Time)
    modifies db`chats, db`notifications
    ensures db.chats == old(db.chats) + [ChatMessage(storeId, guestId, "User", input, now),
                                         ChatMessage(storeId, guestId, "Sari (AI)", reply, now + 500)]
    ensures db.notifications == old(db.notifications) + [Notification(storeId, HumanRequested, "chat", now, false)]
  {
    db.chats := db.chats + [ChatMessage(storeId, guestId, "User", input, now)];
    db.chats := db.chats + [ChatMessage(storeId, guestId, "Sari (AI)", reply, now + 500)];
    db.notifications := db.notifications + [Notification(storeId, HumanRequested, "chat", now, false)];
  }
}
