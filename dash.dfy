/** The seller dashboard (Pages/Dash.cshtml.cs): the catalog position manager
    (append, edit, swap, reindex, delete, AI seeding) and the clean-up of the
    categorize reply.  Each handler is one method on the Database; the store
    lookup by owner is an input, None when the owner has no store. */
module Dash {
  import opened Domain
  import Text
  import Sorting

  // ---------------------------------------------------------------------
  // Orderings

  /** Ordinal (code-unit) lexicographic order on strings. */
  predicate StrLe(a: string, b: string)
    decreases |a|
  {
    a == [] || (b != [] && (a[0] < b[0] || (a[0] == b[0] && StrLe(a[1..], b[1..]))))
  }

  lemma {:induction false} StrLeTotal(a: string, b: string)
    ensures StrLe(a, b) || StrLe(b, a)
    decreases |a|
  {
    if a != [] && b != [] && a[0] == b[0] {
      StrLeTotal(a[1..], b[1..]);
    }
  }

  lemma {:induction false} StrLeTrans(a: string, b: string, c: string)
    requires StrLe(a, b) && StrLe(b, c)
    ensures StrLe(a, c)
    decreases |a|
  {
    if a != [] && b != [] && c != [] && a[0] == b[0] && b[0] == c[0] {
      StrLeTrans(a[1..], b[1..], c[1..]);
    }
  }

  lemma {:induction false} StrLeAntisymmetric(a: string, b: string)
    requires StrLe(a, b) && StrLe(b, a)
    ensures a == b
    decreases |a|
  {
    if a != [] && b != [] {
      StrLeAntisymmetric(a[1..], b[1..]);
      assert a == [a[0]] + a[1..] && b == [b[0]] + b[1..];
    }
  }

  /** SortBy(Position).ThenBy(Id): x comes no later than y. */
  predicate PosIdLe(x: Item, y: Item) {
    x.position < y.position || (x.position == y.position && StrLe(x.id, y.id))
  }

  lemma PosIdLeOrder()
    ensures Sorting.Total(PosIdLe) && Sorting.Transitive(PosIdLe)
  {
    forall x: Item, y: Item ensures PosIdLe(x, y) || PosIdLe(y, x) {
      StrLeTotal(x.id, y.id);
    }
    forall x: Item, y: Item, z: Item | PosIdLe(x, y) && PosIdLe(y, z) ensures PosIdLe(x, z) {
      if x.position == y.position == z.position {
        StrLeTrans(x.id, y.id, z.id);
      }
    }
  }

  /** The store's items as the reindex handler lists them. */
  function SortedStore(items: seq<Item>, storeId: string): seq<Item> {
    Sorting.SortBy(StoreItems(items, storeId), PosIdLe)
  }

  lemma SortedStoreFacts(items: seq<Item>, storeId: string)
    ensures var all := SortedStore(items, storeId);
      Sorting.SortedBy(all, PosIdLe)
      && |all| == |StoreItems(items, storeId)|
      && (forall x :: x in all <==> x in items && x.storeId == storeId)
      && (UniqueIds(items) ==> UniqueIds(all))
  {
    PosIdLeOrder();
    Sorting.SortBySorted(StoreItems(items, storeId), PosIdLe);
    var st := StoreItems(items, storeId);
    var all := SortedStore(items, storeId);
    forall x ensures x in all <==> x in st {
      assert x in all <==> x in multiset(all);
      assert x in st <==> x in multiset(st);
    }
    if UniqueIds(items) {
      SortUnique(st);
    }
  }

  lemma {:induction false} InsertUnique(x: Item, s: seq<Item>)
    requires UniqueIds(s) && forall y :: y in s ==> y.id != x.id
    ensures UniqueIds(Sorting.InsertBy(x, s, PosIdLe))
    decreases |s|
  {
    if s == [] || PosIdLe(x, s[0]) {
      ConsUnique(x, s);
    } else {
      assert UniqueIds(s[1..]);
      InsertUnique(x, s[1..]);
      var tail := Sorting.InsertBy(x, s[1..], PosIdLe);
      forall y | y in tail ensures y.id != s[0].id {
        assert y in multiset(tail);
        if y != x {
          assert y in multiset(s[1..]);
          var m :| 0 <= m < |s[1..]| && s[1..][m] == y;
          assert s[m + 1] == y;
        }
      }
      ConsUnique(s[0], tail);
    }
  }

  lemma {:induction false} SortUnique(s: seq<Item>)
    requires UniqueIds(s)
    ensures UniqueIds(Sorting.SortBy(s, PosIdLe))
    decreases |s|
  {
    if s != [] {
      SortUnique(s[1..]);
      var rest := Sorting.SortBy(s[1..], PosIdLe);
      forall y | y in rest ensures y.id != s[0].id {
        assert y in multiset(rest);
        assert y in multiset(s[1..]);
        var m :| 0 <= m < |s[1..]| && s[1..][m] == y;
        assert s[m + 1] == y;
      }
      InsertUnique(s[0], rest);
    }
  }

  // ---------------------------------------------------------------------
  // Position writes: UpdateOne(Eq(Id, id), Set(Position, p)) and BulkWrite

  datatype PositionWrite = PositionWrite(id: string, position: int)

  /** One position update: the first document with the id, if any. */
  function SetPosition(items: seq<Item>, id: string, p: int): (r: seq<Item>)
    ensures |r| == |items|
    ensures forall j :: 0 <= j < |items| ==> r[j].id == items[j].id
  {
    match IndexOfId(items, id)
    case None => items
    case Some(k) => items[k := items[k].(position := p)]
  }

  /** A bulk write of position updates, applied in order. */
  function ApplyWrites(items: seq<Item>, ws: seq<PositionWrite>): (r: seq<Item>)
    ensures |r| == |items|
    ensures forall j :: 0 <= j < |items| ==> r[j].id == items[j].id
    decreases |ws|
  {
    if ws == [] then items
    else
      var last := ws[|ws| - 1];
      SetPosition(ApplyWrites(items, ws[..|ws| - 1]), last.id, last.position)
  }

  /** The position the last write for id sets, if any. */
  function LastWrite(ws: seq<PositionWrite>, id: string): Option<int>
    decreases |ws|
  {
    if ws == [] then None
    else if ws[|ws| - 1].id == id then Some(ws[|ws| - 1].position)
    else LastWrite(ws[..|ws| - 1], id)
  }

  /** An item with a write's position, or unchanged without one. */
  function Written(x: Item, w: Option<int>): Item {
    match w
    case None => x
    case Some(p) => x.(position := p)
  }

  lemma LastWriteAppend(ws: seq<PositionWrite>, w: PositionWrite, id: string)
    ensures LastWrite(ws + [w], id) == if w.id == id then Some(w.position) else LastWrite(ws, id)
  {
    assert (ws + [w])[..|ws + [w]| - 1] == ws;
  }

  /** Under unique ids a bulk write gives every document the position of the
      last write naming it, and changes nothing else. */
  lemma {:induction false} ApplyWritesEffect(items: seq<Item>, ws: seq<PositionWrite>)
    requires UniqueIds(items)
    ensures forall j :: 0 <= j < |items| ==> ApplyWrites(items, ws)[j] == Written(items[j], LastWrite(ws, items[j].id))
    decreases |ws|
  {
    if ws != [] {
      var init := ws[..|ws| - 1];
      var last := ws[|ws| - 1];
      ApplyWritesEffect(items, init);
      var mid := ApplyWrites(items, init);
      assert UniqueIds(mid);
      forall j | 0 <= j < |items|
        ensures ApplyWrites(items, ws)[j] == Written(items[j], LastWrite(ws, items[j].id))
      {
        match IndexOfId(mid, last.id)
        case None =>
        case Some(k) =>
          if j != k {
            assert mid[j].id != last.id;
          }
      }
    }
  }

  // ---------------------------------------------------------------------
  // Append (OnPostAddAsync)

  /** The highest position among the store's items, if it has any. */
  function MaxStorePosition(items: seq<Item>, storeId: string): (r: Option<int>)
    ensures r.None? <==> forall j :: 0 <= j < |items| ==> items[j].storeId != storeId
    ensures r.Some? ==> exists j :: 0 <= j < |items| && items[j].storeId == storeId && items[j].position == r.value
    ensures r.Some? ==> forall j :: 0 <= j < |items| && items[j].storeId == storeId ==> items[j].position <= r.value
  {
    if items == [] then None
    else
      var rest := MaxStorePosition(items[1..], storeId);
      assert forall j :: 1 <= j < |items| ==> items[j] == items[1..][j - 1];
      if items[0].storeId != storeId then
        assert rest.Some? ==> items[1..][0] == items[1] by {
          if rest.Some? {
            var j :| 0 <= j < |items[1..]| && items[1..][j].storeId == storeId && items[1..][j].position == rest.value;
            assert items[j + 1] == items[1..][j];
          }
        }
        rest
      else match rest
        case None => Some(items[0].position)
        case Some(p) =>
          var j :| 0 <= j < |items[1..]| && items[1..][j].storeId == storeId && items[1..][j].position == p;
          assert items[j + 1] == items[1..][j];
          Some(if p < items[0].position then items[0].position else p)
  }

  /** highest?.Position ?? 0 */
  function HighestPosition(items: seq<Item>, storeId: string): int {
    match MaxStorePosition(items, storeId)
    case None => 0
    case Some(p) => p
  }

  /** A posted file: its content type and bytes. */
  datatype Upload = Upload(contentType: string, data: seq<bv8>)

  predicate HasFile(upload: Option<Upload>) {
    upload.Some? && |upload.value.data| > 0
  }

  /** The item OnPostAddAsync inserts. */
  function Appended(items: seq<Item>, storeId: string, newItem: Item, upload: Option<Upload>, id: string): (r: Item)
    ensures r.position == HighestPosition(items, storeId) + 1 && r.storeId == storeId && r.id == id
    ensures r.name == newItem.name && r.category == newItem.category && r.quantity == newItem.quantity
    ensures r.price == newItem.price && r.costPrice == newItem.costPrice && r.createdAt == newItem.createdAt
    ensures HasFile(upload) ==> r.logoData == Some(upload.value.data) && r.logoContentType == Some(upload.value.contentType)
    ensures !HasFile(upload) ==> r.logoData == newItem.logoData && r.logoContentType == newItem.logoContentType
  {
    var withLogo := if HasFile(upload)
      then newItem.(logoContentType := Some(upload.value.contentType), logoData := Some(upload.value.data))
      else newItem;
    withLogo.(id := id, storeId := storeId, position := HighestPosition(items, storeId) + 1)
  }

  /** Inserts the posted item after the store's last position; the id the
      database assigns is the parameter id. */
  method Add(db: Database, store: Option<string>, newItem: Item, upload: Option<Upload>, id: string)
    requires UniqueIds(db.items) && !HasId(db.items, id)
    modifies db`items
    ensures store.None? ==> db.items == old(db.items)
    ensures store.Some? ==> db.items == old(db.items) + [Appended(old(db.items), store.value, newItem, upload, id)]
    ensures UniqueIds(db.items)
  {
    if store.None? {
      return;
    }
    var x := Appended(db.items, store.value, newItem, upload, id);
    db.items := db.items + [x];
  }

  /** The appended item is strictly after every other item of its store... */
  lemma AppendedIsAfterStore(items: seq<Item>, storeId: string, newItem: Item, upload: Option<Upload>, id: string)
    ensures var x := Appended(items, storeId, newItem, upload, id);
      (forall j :: 0 <= j < |items| && items[j].storeId == storeId ==> items[j].position < x.position)
      && ((forall j :: 0 <= j < |items| ==> items[j].storeId != storeId) ==> x.position == 1)
  {
  }

  /** ... so it is listed last in the store's (Position, Id) order. */
  lemma AppendedIsLast(items: seq<Item>, storeId: string, newItem: Item, upload: Option<Upload>, id: string)
    ensures var x := Appended(items, storeId, newItem, upload, id);
      IsLast(SortedStore(items + [x], storeId), x)
  {
    var x := Appended(items, storeId, newItem, upload, id);
    var all := SortedStore(items + [x], storeId);
    SortedStoreFacts(items + [x], storeId);
    AppendedIsAfterStore(items, storeId, newItem, upload, id);
    assert x in items + [x];
    forall y | y in all && y != x ensures y.position < x.position {
      assert y in items;
      var j :| 0 <= j < |items| && items[j] == y;
    }
    SortedLast(all, x);
  }

  predicate IsLast(s: seq<Item>, x: Item) {
    |s| > 0 && s[|s| - 1] == x
  }

  /** In (Position, Id) order, an element placed after every other one by
      position comes last. */
  lemma SortedLast(all: seq<Item>, x: Item)
    requires Sorting.SortedBy(all, PosIdLe) && x in all
    requires forall y :: y in all && y != x ==> y.position < x.position
    ensures IsLast(all, x)
  {
    var k :| 0 <= k < |all| && all[k] == x;
    var n := |all| - 1;
    if k < n {
      assert PosIdLe(all[k], all[n]);
      assert all[n] in all;
    }
  }

  // ---------------------------------------------------------------------
  // Edit (OnPostEdit)

  /** How a handler ends: a redirect to the page, 404, or the FormatException
      of a malformed id, which nothing catches (HTTP 500). */
  datatype Outcome = Redirected | NotFound | ServerError

  /** The document that replaces the existing one: the posted fields, with the
      existing position, creation time and store, and the existing logo unless
      a non-empty file was posted. */
  function Replacement(existing: Item, posted: Item, upload: Option<Upload>): (r: Item)
    ensures r.position == existing.position && r.createdAt == existing.createdAt && r.storeId == existing.storeId
    ensures r.id == posted.id && r.name == posted.name && r.category == posted.category
    ensures r.quantity == posted.quantity && r.price == posted.price && r.costPrice == posted.costPrice
    ensures HasFile(upload) ==> r.logoData == Some(upload.value.data) && r.logoContentType == Some(upload.value.contentType)
    ensures !HasFile(upload) ==> r.logoData == existing.logoData && r.logoContentType == existing.logoContentType
  {
    var kept := posted.(position := existing.position, createdAt := existing.createdAt, storeId := existing.storeId);
    if HasFile(upload) then kept.(logoContentType := Some(upload.value.contentType), logoData := Some(upload.value.data))
    else kept.(logoContentType := existing.logoContentType, logoData := existing.logoData)
  }

  method Edit(db: Database, posted: Item, upload: Option<Upload>) returns (outcome: Outcome)
    requires UniqueIds(db.items)
    modifies db`items
    ensures posted.id == [] ==> outcome == Redirected && db.items == old(db.items)
    ensures posted.id != [] && !IsObjectIdText(posted.id) ==> outcome == ServerError && db.items == old(db.items)
    ensures IsObjectIdText(posted.id) && !HasId(old(db.items), posted.id) ==> outcome == NotFound && db.items == old(db.items)
    ensures IsObjectIdText(posted.id) && HasId(old(db.items), posted.id) ==>
      var k := IndexOfId(old(db.items), posted.id).value;
      outcome == Redirected && db.items == old(db.items)[k := Replacement(old(db.items)[k], posted, upload)]
    ensures UniqueIds(db.items)
  {
    if posted.id == [] {
      return Redirected;
    }
    if !IsObjectIdText(posted.id) {
      return ServerError;
    }
    var found := IndexOfId(db.items, posted.id);
    if found.None? {
      return NotFound;
    }
    var k := found.value;
    db.items := db.items[k := Replacement(db.items[k], posted, upload)];
    outcome := Redirected;
  }

  /** An edit moves no item: every document keeps its position and store. */
  lemma EditKeepsLayout(items: seq<Item>, k: nat, posted: Item, upload: Option<Upload>)
    requires k < |items| && posted.id == items[k].id
    ensures var r := items[k := Replacement(items[k], posted, upload)];
      forall j :: 0 <= j < |items| ==> r[j].id == items[j].id && r[j].position == items[j].position && r[j].storeId == items[j].storeId
  {
  }

  // ---------------------------------------------------------------------
  // Swap (OnPostSwapAsync)

  /** Find(In(Id, ids)): the matching documents in collection order. */
  function Resolve(items: seq<Item>, ids: seq<string>): (r: seq<Item>)
    ensures |r| <= |items|
    ensures forall x :: x in r <==> x in items && x.id in ids
    ensures UniqueIds(items) ==> UniqueIds(r)
  {
    if items == [] then []
    else if items[0].id in ids then
      var rest := Resolve(items[1..], ids);
      UniqueKeep(items, rest);
      [items[0]] + rest
    else Resolve(items[1..], ids)
  }

  /** Two ids of which one is not an ObjectId: the In filter throws. */
  predicate SwapMalformed(ids: seq<string>) {
    |ids| == 2 && !(IsObjectIdText(ids[0]) && IsObjectIdText(ids[1]))
  }

  /** The swap goes ahead only for exactly two well-formed ids resolving to
      exactly two documents. */
  predicate SwapAccepted(items: seq<Item>, ids: seq<string>) {
    |ids| == 2 && !SwapMalformed(ids) && |Resolve(items, ids)| == 2
  }

  /** The collection after the swap handler. */
  function Swapped(items: seq<Item>, ids: seq<string>): seq<Item> {
    if !SwapAccepted(items, ids) then items
    else
      var sw := Resolve(items, ids);
      ApplyWrites(items, [PositionWrite(sw[0].id, sw[1].position), PositionWrite(sw[1].id, sw[0].position)])
  }

  method Swap(db: Database, ids: seq<string>) returns (outcome: Outcome)
    modifies db`items
    ensures outcome == ServerError <==> SwapMalformed(ids)
    ensures outcome != ServerError ==> outcome == Redirected
    ensures db.items == Swapped(old(db.items), ids)
  {
    if |ids| != 2 {
      return Redirected;
    }
    if !IsObjectIdText(ids[0]) || !IsObjectIdText(ids[1]) {
      return ServerError;
    }
    outcome := Redirected;
    var sw := Resolve(db.items, ids);
    if |sw| != 2 {
      return;
    }
    var p0, p1 := sw[0].position, sw[1].position;
    p0, p1 := p1, p0;
    var ups := [PositionWrite(sw[0].id, p0), PositionWrite(sw[1].id, p1)];
    db.items := ApplyWrites(db.items, ups);
  }

  lemma ResolveAtMostTwo(items: seq<Item>, ids: seq<string>)
    requires UniqueIds(items) && |ids| == 2
    ensures |Resolve(items, ids)| <= 2
    ensures ids[0] == ids[1] ==> |Resolve(items, ids)| <= 1
  {
    var r := Resolve(items, ids);
    TwoIdsHoldNoThree(IdAt(r, 0), IdAt(r, 1), IdAt(r, 2), ids);
  }

  /** The id at index k, or "" past the end. */
  function IdAt(s: seq<Item>, k: nat): string {
    if k < |s| then s[k].id else ""
  }

  lemma TwoIdsHoldNoThree(x: string, y: string, z: string, ids: seq<string>)
    requires |ids| == 2
    ensures x in ids && y in ids && z in ids ==> x == y || x == z || y == z
    ensures ids[0] == ids[1] && x in ids && y in ids ==> x == y
  {
  }

  /** The two documents an accepted swap resolves carry the two posted ids. */
  lemma SwapPair(items: seq<Item>, ids: seq<string>)
    requires UniqueIds(items) && SwapAccepted(items, ids)
    ensures var a, b := Resolve(items, ids)[0], Resolve(items, ids)[1];
      a in items && b in items && a.id != b.id && (ids == [a.id, b.id] || ids == [b.id, a.id])
  {
    var r := Resolve(items, ids);
    var a, b := r[0], r[1];
    assert a in r && b in r;
    assert a.id != b.id;
    assert a.id in ids && b.id in ids;
    assert ids == [ids[0], ids[1]];
  }

  lemma SwapAcceptedOnlyIf(items: seq<Item>, ids: seq<string>)
    requires UniqueIds(items) && SwapAccepted(items, ids)
    ensures IsObjectIdText(ids[0]) && IsObjectIdText(ids[1])
    ensures ids[0] != ids[1] && HasId(items, ids[0]) && HasId(items, ids[1])
  {
    SwapPair(items, ids);
    var r := Resolve(items, ids);
    var j0 :| 0 <= j0 < |items| && items[j0] == r[0];
    var j1 :| 0 <= j1 < |items| && items[j1] == r[1];
    assert items[j0].id == ids[0] || items[j1].id == ids[0];
    assert items[j0].id == ids[1] || items[j1].id == ids[1];
  }

  lemma SwapAcceptedIf(items: seq<Item>, ids: seq<string>)
    requires UniqueIds(items) && |ids| == 2 && IsObjectIdText(ids[0]) && IsObjectIdText(ids[1])
    requires ids[0] != ids[1] && HasId(items, ids[0]) && HasId(items, ids[1])
    ensures SwapAccepted(items, ids)
  {
    var r := Resolve(items, ids);
    ResolveAtMostTwo(items, ids);
    var j0 :| 0 <= j0 < |items| && items[j0].id == ids[0];
    var j1 :| 0 <= j1 < |items| && items[j1].id == ids[1];
    assert items[j0] in r && items[j1] in r;
    assert items[j0] != items[j1];
    if |r| < 2 {
      assert false;
    }
  }

  /** The swap goes ahead exactly when two well-formed ids are given, they
      differ, and both exist. */
  lemma SwapAcceptedIff(items: seq<Item>, ids: seq<string>)
    requires UniqueIds(items)
    ensures SwapAccepted(items, ids) <==>
      |ids| == 2 && IsObjectIdText(ids[0]) && IsObjectIdText(ids[1])
      && ids[0] != ids[1] && HasId(items, ids[0]) && HasId(items, ids[1])
  {
    if SwapAccepted(items, ids) {
      SwapAcceptedOnlyIf(items, ids);
    }
    if |ids| == 2 && IsObjectIdText(ids[0]) && IsObjectIdText(ids[1])
       && ids[0] != ids[1] && HasId(items, ids[0]) && HasId(items, ids[1]) {
      SwapAcceptedIf(items, ids);
    }
  }

  lemma TwoWrites(a: string, pa: int, b: string, pb: int, id: string)
    ensures LastWrite([PositionWrite(a, pa), PositionWrite(b, pb)], id)
      == if id == b then Some(pb) else if id == a then Some(pa) else None
  {
    var ws := [PositionWrite(a, pa), PositionWrite(b, pb)];
    assert ws[..1] == [PositionWrite(a, pa)];
    assert ws[..1][..0] == [];
    assert LastWrite(ws, id) == if b == id then Some(pb) else LastWrite(ws[..1], id);
    assert LastWrite(ws[..1], id) == if a == id then Some(pa) else LastWrite([], id);
  }

  /** r is items with the document named aId moved to pb and the one named
      bId moved to pa; every other document and field is unchanged. */
  predicate Exchanged(items: seq<Item>, r: seq<Item>, aId: string, bId: string, pa: int, pb: int) {
    |r| == |items|
    && forall j :: 0 <= j < |items| ==>
         r[j] == if items[j].id == aId then items[j].(position := pb)
                 else if items[j].id == bId then items[j].(position := pa)
                 else items[j]
  }

  /** A rejected swap changes nothing; an accepted one exchanges the positions
      of the two named documents and leaves every other document and every
      other field as it was. */
  lemma SwapEffect(items: seq<Item>, ids: seq<string>)
    requires UniqueIds(items)
    ensures !SwapAccepted(items, ids) ==> Swapped(items, ids) == items
    ensures SwapAccepted(items, ids) ==>
      var a, b := Resolve(items, ids)[0], Resolve(items, ids)[1];
      a in items && b in items && a.id != b.id && (ids == [a.id, b.id] || ids == [b.id, a.id])
      && Exchanged(items, Swapped(items, ids), a.id, b.id, a.position, b.position)
  {
    if SwapAccepted(items, ids) {
      SwapPair(items, ids);
      var sw := Resolve(items, ids);
      var a, b := sw[0], sw[1];
      var ws := [PositionWrite(a.id, b.position), PositionWrite(b.id, a.position)];
      ApplyWritesEffect(items, ws);
      var r := Swapped(items, ids);
      assert r == ApplyWrites(items, ws);
      forall j | 0 <= j < |items|
        ensures r[j] == if items[j].id == a.id then items[j].(position := b.position)
                        else if items[j].id == b.id then items[j].(position := a.position)
                        else items[j]
      {
        TwoWrites(a.id, b.position, b.id, a.position, items[j].id);
      }
    }
  }

  /** Exchanging back restores every document whose positions were exchanged. */
  lemma ExchangeTwice(items: seq<Item>, r: seq<Item>, rr: seq<Item>, a: Item, b: Item)
    requires UniqueIds(items) && a in items && b in items && a.id != b.id
    requires Exchanged(items, r, a.id, b.id, a.position, b.position)
    requires Exchanged(r, rr, a.id, b.id, b.position, a.position)
    ensures rr == items
  {
    forall j | 0 <= j < |items| ensures rr[j] == items[j] {
      assert r[j].id == items[j].id;
      if items[j].id == a.id {
        SameIdSameItem(items, a, j);
      } else if items[j].id == b.id {
        SameIdSameItem(items, b, j);
      }
    }
  }

  /** Two collections with the same ids in the same places. */
  predicate SameIds(a: seq<Item>, b: seq<Item>) {
    |a| == |b| && forall j :: 0 <= j < |a| ==> a[j].id == b[j].id
  }

  lemma {:induction false} ResolveSameIds(a: seq<Item>, b: seq<Item>, ids: seq<string>)
    requires SameIds(a, b)
    ensures SameIds(Resolve(a, ids), Resolve(b, ids))
  {
    if a != [] {
      SameIdsTail(a, b);
      ResolveSameIds(a[1..], b[1..], ids);
      if a[0].id in ids {
        SameIdsCons(a[0], b[0], Resolve(a[1..], ids), Resolve(b[1..], ids));
      }
    }
  }

  lemma SameIdsTail(a: seq<Item>, b: seq<Item>)
    requires SameIds(a, b) && a != []
    ensures SameIds(a[1..], b[1..])
  {
    forall j | 0 <= j < |a| - 1 ensures a[1..][j].id == b[1..][j].id {
      assert a[1..][j] == a[j + 1] && b[1..][j] == b[j + 1];
    }
  }

  lemma SameIdsCons(x: Item, y: Item, a: seq<Item>, b: seq<Item>)
    requires x.id == y.id && SameIds(a, b)
    ensures SameIds([x] + a, [y] + b)
  {
    forall j | 0 < j < |a| + 1 ensures ([x] + a)[j].id == ([y] + b)[j].id {
      assert ([x] + a)[j] == a[j - 1] && ([y] + b)[j] == b[j - 1];
    }
  }

  /** A document of a uniquely keyed collection is determined by its id. */
  lemma SameIdSameItem(items: seq<Item>, x: Item, j: int)
    requires UniqueIds(items) && x in items && 0 <= j < |items| && items[j].id == x.id
    ensures items[j] == x
  {
  }

  /** A swap moves positions only: the ids stay where they were. */
  lemma SwapKeepsIds(items: seq<Item>, ids: seq<string>)
    requires UniqueIds(items)
    ensures SameIds(items, Swapped(items, ids)) && UniqueIds(Swapped(items, ids))
  {
    SwapEffect(items, ids);
    var r := Swapped(items, ids);
    assert forall j :: 0 <= j < |items| ==> r[j].id == items[j].id;
  }

  /** Swapping the same pair twice restores the collection. */
  lemma SwapInvolution(items: seq<Item>, ids: seq<string>)
    requires UniqueIds(items)
    ensures Swapped(Swapped(items, ids), ids) == items
  {
    var r := Swapped(items, ids);
    SwapEffect(items, ids);
    if SwapAccepted(items, ids) {
      var a, b := Resolve(items, ids)[0], Resolve(items, ids)[1];
      SwapKeepsIds(items, ids);
      ResolveSameIds(items, r, ids);
      assert SwapAccepted(r, ids);
      var a2, b2 := Resolve(r, ids)[0], Resolve(r, ids)[1];
      assert a2.id == a.id && b2.id == b.id;
      assert a2 in Resolve(r, ids) && b2 in Resolve(r, ids);
      var ja :| 0 <= ja < |r| && r[ja] == a2;
      var jb :| 0 <= jb < |r| && r[jb] == b2;
      SameIdSameItem(items, a, ja);
      SameIdSameItem(items, b, jb);
      assert a2.position == b.position && b2.position == a.position;
      SwapEffect(r, ids);
      ExchangeTwice(items, r, Swapped(r, ids), a, b);
    }
  }

  /** The same id given twice resolves at most one document: nothing changes. */
  lemma SwapSameIdTwice(items: seq<Item>, id: string)
    requires UniqueIds(items)
    ensures Swapped(items, [id, id]) == items
  {
    ResolveAtMostTwo(items, [id, id]);
  }

  // ---------------------------------------------------------------------
  // Reindex (OnPostReIndex)

  /** The writes the reindex loop accumulates over the first n listed items:
      the k-th item (from 1) is written to position k when it is elsewhere. */
  function ReindexPlan(all: seq<Item>, n: nat): seq<PositionWrite>
    requires n <= |all|
  {
    if n == 0 then []
    else ReindexPlan(all, n - 1) + (if all[n - 1].position != n then [PositionWrite(all[n - 1].id, n)] else [])
  }

  function ReindexWrites(items: seq<Item>, storeId: string): seq<PositionWrite> {
    var all := SortedStore(items, storeId);
    ReindexPlan(all, |all|)
  }

  /** The collection after the reindex handler for the store. */
  function Reindexed(items: seq<Item>, storeId: string): seq<Item> {
    ApplyWrites(items, ReindexWrites(items, storeId))
  }

  /** A missing store makes the handler fail before it writes anything. */
  method ReIndex(db: Database, store: Option<string>)
    modifies db`items
    ensures store.None? ==> db.items == old(db.items)
    ensures store.Some? ==> db.items == Reindexed(old(db.items), store.value)
  {
    if store.None? {
      return;
    }
    var all := SortedStore(db.items, store.value);
    var b: seq<PositionWrite> := [];
    var p := 1;
    var i := 0;
    while i < |all|
      invariant 0 <= i <= |all| && p == i + 1
      invariant b == ReindexPlan(all, i)
    {
      if all[i].position != p {
        b := b + [PositionWrite(all[i].id, p)];
      }
      p := p + 1;
      i := i + 1;
    }
    if |b| > 0 {
      db.items := ApplyWrites(db.items, b);
    }
  }

  /** Every planned write names a listed item not yet at its rank. */
  lemma {:induction false} ReindexPlanOnlyChanges(all: seq<Item>, n: nat)
    requires n <= |all|
    ensures forall w :: w in ReindexPlan(all, n) ==>
      exists k :: 0 <= k < n && w == PositionWrite(all[k].id, k + 1) && all[k].position != k + 1
  {
    if n > 0 {
      ReindexPlanOnlyChanges(all, n - 1);
    }
  }

  /** Over uniquely keyed items, the plan's last write for the k-th listed item
      is its rank k+1 when it is elsewhere, and there is none when it is there
      already or is not listed. */
  lemma {:induction false} ReindexPlanLookup(all: seq<Item>, n: nat)
    requires n <= |all| && UniqueIds(all)
    ensures forall k :: 0 <= k < n ==>
      LastWrite(ReindexPlan(all, n), all[k].id) == if all[k].position != k + 1 then Some(k + 1) else None
    ensures forall id :: (forall k :: 0 <= k < n ==> all[k].id != id) ==> LastWrite(ReindexPlan(all, n), id) == None
  {
    if n > 0 {
      ReindexPlanLookup(all, n - 1);
      var prev := ReindexPlan(all, n - 1);
      var extra := if all[n - 1].position != n then [PositionWrite(all[n - 1].id, n)] else [];
      assert ReindexPlan(all, n) == prev + extra;
      forall id ensures LastWrite(prev + extra, id) == if extra != [] && extra[0].id == id then Some(n) else LastWrite(prev, id) {
        if extra != [] {
          LastWriteAppend(prev, extra[0], id);
        } else {
          assert prev + extra == prev;
        }
      }
    }
  }

  /** Reindex moves each listed item to its rank in (Position, Id) order,
      counting from 1, and changes no other document and no other field. */
  lemma ReindexRanks(items: seq<Item>, storeId: string)
    requires UniqueIds(items)
    ensures var all := SortedStore(items, storeId);
      var r := Reindexed(items, storeId);
      |r| == |items|
      && (forall j :: 0 <= j < |items| ==> r[j] == items[j].(position := r[j].position))
      && (forall j :: 0 <= j < |items| && items[j].storeId != storeId ==> r[j] == items[j])
      && (forall j, k :: 0 <= j < |items| && 0 <= k < |all| && items[j] == all[k] ==> r[j].position == k + 1)
  {
    var all := SortedStore(items, storeId);
    var r := Reindexed(items, storeId);
    SortedStoreFacts(items, storeId);
    ReindexPlanLookup(all, |all|);
    ApplyWritesEffect(items, ReindexWrites(items, storeId));
    forall j | 0 <= j < |items| && items[j].storeId != storeId ensures r[j] == items[j] {
      forall k | 0 <= k < |all| ensures all[k].id != items[j].id {
        assert all[k] in all;
      }
    }
  }

  /** Every item of the store is listed once. */
  lemma ListedOnce(items: seq<Item>, storeId: string, j: int)
    requires UniqueIds(items) && 0 <= j < |items| && items[j].storeId == storeId
    ensures exists k :: 0 <= k < |SortedStore(items, storeId)| && SortedStore(items, storeId)[k] == items[j]
  {
    SortedStoreFacts(items, storeId);
    assert items[j] in SortedStore(items, storeId);
  }

  /** x is listed strictly before y. */
  predicate PosIdLt(x: Item, y: Item) {
    !PosIdLe(y, x)
  }

  /** Reindex keeps the relative (Position, Id) order of the store's items. */
  lemma ReindexPreservesOrder(items: seq<Item>, storeId: string, j1: int, j2: int)
    requires UniqueIds(items)
    requires 0 <= j1 < |items| && 0 <= j2 < |items|
    requires items[j1].storeId == storeId && items[j2].storeId == storeId
    requires PosIdLt(items[j1], items[j2])
    ensures Reindexed(items, storeId)[j1].position < Reindexed(items, storeId)[j2].position
  {
    var all := SortedStore(items, storeId);
    SortedStoreFacts(items, storeId);
    ReindexRanks(items, storeId);
    ListedOnce(items, storeId, j1);
    ListedOnce(items, storeId, j2);
    var k1 :| 0 <= k1 < |all| && all[k1] == items[j1];
    var k2 :| 0 <= k2 < |all| && all[k2] == items[j2];
    assert !PosIdLe(all[k2], all[k1]);
    StrLeTotal(items[j1].id, items[j2].id);
    assert all[k1] != all[k2];
  }

  lemma {:induction false} StoreCountByStores(a: seq<Item>, b: seq<Item>, storeId: string)
    requires |a| == |b| && forall j :: 0 <= j < |a| ==> a[j].storeId == b[j].storeId
    ensures |StoreItems(a, storeId)| == |StoreItems(b, storeId)|
  {
    if a != [] {
      StoreCountByStores(a[1..], b[1..], storeId);
    }
  }

  lemma {:induction false} RankAtLeast(t: seq<Item>, m: nat)
    requires m < |t|
    requires forall i :: 0 <= i < |t| ==> 1 <= t[i].position
    requires forall i :: 0 <= i < |t| - 1 ==> t[i].position < t[i + 1].position
    ensures t[m].position >= m + 1
  {
    if m > 0 {
      RankAtLeast(t, m - 1);
    }
  }

  lemma {:induction false} RankAtMost(t: seq<Item>, m: nat)
    requires m < |t|
    requires forall i :: 0 <= i < |t| ==> t[i].position <= |t|
    requires forall i :: 0 <= i < |t| - 1 ==> t[i].position < t[i + 1].position
    ensures t[m].position <= m + 1
    decreases |t| - m
  {
    if m < |t| - 1 {
      RankAtMost(t, m + 1);
    }
  }

  /** Strictly increasing positions drawn from 1..N on N items are exactly 1..N. */
  lemma DensePositions(t: seq<Item>)
    requires forall i :: 0 <= i < |t| ==> 1 <= t[i].position <= |t|
    requires forall i :: 0 <= i < |t| - 1 ==> t[i].position < t[i + 1].position
    ensures forall m :: 0 <= m < |t| ==> t[m].position == m + 1
  {
    forall m | 0 <= m < |t| ensures t[m].position == m + 1 {
      RankAtLeast(t, m);
      RankAtMost(t, m);
    }
  }

  /** Reindex keeps every document's id and store, so ids stay unique and the
      store keeps its size. */
  lemma ReindexShape(items: seq<Item>, storeId: string)
    requires UniqueIds(items)
    ensures var r := Reindexed(items, storeId);
      |r| == |items| && UniqueIds(r)
      && (forall j :: 0 <= j < |items| ==> r[j].id == items[j].id && r[j].storeId == items[j].storeId)
      && |SortedStore(r, storeId)| == |SortedStore(items, storeId)|
  {
    var r := Reindexed(items, storeId);
    ReindexRanks(items, storeId);
    assert forall j :: 0 <= j < |items| ==> r[j].id == items[j].id && r[j].storeId == items[j].storeId;
    StoreCountByStores(items, r, storeId);
  }

  /** Where a listed item of the reindexed store came from, and its rank. */
  lemma ListedRank(items: seq<Item>, storeId: string, x: Item) returns (j: int, k: int)
    requires UniqueIds(items) && x in SortedStore(Reindexed(items, storeId), storeId)
    ensures 0 <= j < |items| && 0 <= k < |SortedStore(items, storeId)|
    ensures Reindexed(items, storeId)[j] == x && SortedStore(items, storeId)[k] == items[j]
    ensures x.position == k + 1
  {
    var r := Reindexed(items, storeId);
    var all := SortedStore(items, storeId);
    ReindexShape(items, storeId);
    SortedStoreFacts(r, storeId);
    j :| 0 <= j < |r| && r[j] == x;
    ListedOnce(items, storeId, j);
    k :| 0 <= k < |all| && all[k] == items[j];
    ReindexRanks(items, storeId);
  }

  lemma ReindexStep(items: seq<Item>, storeId: string, m: int)
    requires UniqueIds(items)
    requires 0 <= m < |SortedStore(Reindexed(items, storeId), storeId)| - 1
    ensures var all2 := SortedStore(Reindexed(items, storeId), storeId);
      all2[m].position < all2[m + 1].position
  {
    var r := Reindexed(items, storeId);
    var all2 := SortedStore(r, storeId);
    ReindexShape(items, storeId);
    SortedStoreFacts(r, storeId);
    var x, y := all2[m], all2[m + 1];
    assert x in all2 && y in all2;
    var j1, k1 := ListedRank(items, storeId, x);
    var j2, k2 := ListedRank(items, storeId, y);
    assert PosIdLe(x, y);
    assert x.id != y.id;
    assert items[j1].id != items[j2].id;
    assert k1 != k2;
    assert x.position != y.position;
  }

  /** After a reindex the store's items, listed again, sit at 1..N. */
  lemma ReindexDense(items: seq<Item>, storeId: string)
    requires UniqueIds(items)
    ensures var all2 := SortedStore(Reindexed(items, storeId), storeId);
      |all2| == |SortedStore(items, storeId)|
      && forall m :: 0 <= m < |all2| ==> all2[m].position == m + 1
  {
    var r := Reindexed(items, storeId);
    var all2 := SortedStore(r, storeId);
    ReindexShape(items, storeId);
    forall m | 0 <= m < |all2| ensures 1 <= all2[m].position <= |all2| {
      SortedStoreFacts(r, storeId);
      assert all2[m] in all2;
      var j, k := ListedRank(items, storeId, all2[m]);
    }
    forall m | 0 <= m < |all2| - 1 ensures all2[m].position < all2[m + 1].position {
      ReindexStep(items, storeId, m);
    }
    DensePositions(all2);
  }

  lemma {:induction false} PlanEmptyWhenDense(all: seq<Item>, n: nat)
    requires n <= |all| && forall k :: 0 <= k < n ==> all[k].position == k + 1
    ensures ReindexPlan(all, n) == []
  {
    if n > 0 {
      PlanEmptyWhenDense(all, n - 1);
    }
  }

  /** A second reindex writes nothing and so changes nothing. */
  lemma ReindexIdempotent(items: seq<Item>, storeId: string)
    requires UniqueIds(items)
    ensures ReindexWrites(Reindexed(items, storeId), storeId) == []
    ensures Reindexed(Reindexed(items, storeId), storeId) == Reindexed(items, storeId)
  {
    ReindexDense(items, storeId);
    var all2 := SortedStore(Reindexed(items, storeId), storeId);
    PlanEmptyWhenDense(all2, |all2|);
  }

  // ---------------------------------------------------------------------
  // Delete (OnPostDelete, OnPostMassDeleteAsync)

  /** DeleteOne(Id == id): the first document with the id goes. */
  function DeleteOne(items: seq<Item>, id: string): (r: seq<Item>)
    ensures HasId(items, id) ==> |r| == |items| - 1
    ensures !HasId(items, id) ==> r == items
  {
    match IndexOfId(items, id)
    case None => items
    case Some(k) => items[..k] + items[k + 1..]
  }

  /** DeleteMany(In(Id, ids)): every document whose id is listed goes; the
      others stay, in order, with their positions, so gaps may open. */
  function RemoveIds(items: seq<Item>, ids: seq<string>): (r: seq<Item>)
    ensures |r| <= |items|
    ensures forall x :: x in r <==> x in items && x.id !in ids
    ensures (forall j :: 0 <= j < |items| ==> items[j].id !in ids) ==> r == items
    ensures UniqueIds(items) ==> UniqueIds(r)
  {
    if items == [] then []
    else if items[0].id in ids then RemoveIds(items[1..], ids)
    else
      var rest := RemoveIds(items[1..], ids);
      UniqueKeep(items, rest);
      NoneListedTail(items, ids);
      [items[0]] + rest
  }

  /** When no id is listed, none of the tail's is. */
  lemma NoneListedTail(items: seq<Item>, ids: seq<string>)
    requires items != []
    ensures (forall j :: 0 <= j < |items| ==> items[j].id !in ids) ==>
            (forall j :: 0 <= j < |items[1..]| ==> items[1..][j].id !in ids)
  {
    if forall j :: 0 <= j < |items| ==> items[j].id !in ids {
      forall j | 0 <= j < |items[1..]| ensures items[1..][j].id !in ids {
        assert items[1..][j] == items[j + 1];
      }
    }
  }

  /** Over uniquely keyed items, deleting the first match is deleting every match. */
  lemma {:induction false} DeleteOneIsRemoveIds(items: seq<Item>, id: string)
    requires UniqueIds(items)
    ensures DeleteOne(items, id) == RemoveIds(items, [id])
  {
    if items != [] {
      UniqueTail(items);
      if items[0].id == id {
        DeleteHead(items, id);
      } else {
        DeleteOneIsRemoveIds(items[1..], id);
        DeleteOneCons(items, id);
      }
    }
  }

  /** The head carries the id, and no other item does. */
  lemma DeleteHead(items: seq<Item>, id: string)
    requires UniqueIds(items) && items != [] && items[0].id == id
    ensures DeleteOne(items, id) == RemoveIds(items, [id])
  {
    var tail := items[1..];
    UniqueTail(items);
    forall j | 0 <= j < |tail| ensures tail[j].id !in [id] {
      assert tail[j] in tail;
    }
    assert RemoveIds(tail, [id]) == tail;
    assert IndexOfId(items, id) == Some(0);
    assert items[..0] + items[1..] == tail;
  }

  /** Past a head without the id, DeleteOne works on the tail. */
  lemma DeleteOneCons(items: seq<Item>, id: string)
    requires items != [] && items[0].id != id
    ensures DeleteOne(items, id) == [items[0]] + DeleteOne(items[1..], id)
  {
    var tail := items[1..];
    assert items == [items[0]] + tail;
    match IndexOfId(tail, id)
    case None =>
    case Some(k) =>
      assert IndexOfId(items, id) == Some(k + 1);
      assert items[..k + 1] + items[k + 2..] == [items[0]] + (tail[..k] + tail[k + 1..]);
  }

  method Delete(db: Database, deleteId: string) returns (outcome: Outcome)
    requires UniqueIds(db.items)
    modifies db`items
    ensures deleteId == [] ==> outcome == Redirected && db.items == old(db.items)
    ensures deleteId != [] && !IsObjectIdText(deleteId) ==> outcome == ServerError && db.items == old(db.items)
    ensures IsObjectIdText(deleteId) ==> outcome == Redirected && db.items == DeleteOne(old(db.items), deleteId)
    ensures UniqueIds(db.items)
  {
    if deleteId == [] {
      return Redirected;
    }
    if !IsObjectIdText(deleteId) {
      return ServerError;
    }
    outcome := Redirected;
    DeleteOneIsRemoveIds(db.items, deleteId);
    db.items := DeleteOne(db.items, deleteId);
  }

  /** Single delete removes exactly the named document and keeps every other. */
  lemma DeleteRemovesExactly(items: seq<Item>, id: string)
    requires UniqueIds(items)
    ensures forall x :: x in DeleteOne(items, id) <==> x in items && x.id != id
  {
    DeleteOneIsRemoveIds(items, id);
  }

  /** The ids of the comma-separated list, empty entries dropped. */
  function DeleteList(itemsToDelete: string): seq<string> {
    Text.Split(itemsToDelete, ',')
  }

  /** Every listed id is an ObjectId, so the In filter can be built. */
  predicate AllObjectIds(ids: seq<string>) {
    forall k :: 0 <= k < |ids| ==> IsObjectIdText(ids[k])
  }

  method MassDelete(db: Database, itemsToDelete: string) returns (outcome: Outcome)
    modifies db`items
    ensures itemsToDelete == [] ==> outcome == Redirected && db.items == old(db.items)
    ensures itemsToDelete != [] && !AllObjectIds(DeleteList(itemsToDelete)) ==>
              outcome == ServerError && db.items == old(db.items)
    ensures itemsToDelete != [] && AllObjectIds(DeleteList(itemsToDelete)) ==>
              outcome == Redirected && db.items == RemoveIds(old(db.items), DeleteList(itemsToDelete))
  {
    if itemsToDelete == [] {
      return Redirected;
    }
    var ids := DeleteList(itemsToDelete);
    if !AllObjectIds(ids) {
      return ServerError;
    }
    db.items := RemoveIds(db.items, ids);
    outcome := Redirected;
  }

  /** Mass delete removes exactly the listed ids: an id list joined with commas
      is read back as the same list, no id holds a comma and none is empty. */
  lemma MassDeleteRemovesListed(items: seq<Item>, ids: seq<string>)
    requires forall k :: 0 <= k < |ids| ==> ids[k] != [] && ',' !in ids[k]
    ensures AllObjectIds(DeleteList(Text.Join(ids, ','))) <==> AllObjectIds(ids)
    ensures forall x :: x in RemoveIds(items, DeleteList(Text.Join(ids, ','))) <==> x in items && x.id !in ids
  {
    Text.SplitJoin(ids, ',');
  }

  /** An ObjectId is never empty and holds no comma, so a list of them joined
      with commas is always read back whole. */
  lemma ObjectIdsSplitBack(ids: seq<string>)
    requires AllObjectIds(ids)
    ensures DeleteList(Text.Join(ids, ',')) == ids
  {
    forall k | 0 <= k < |ids| ensures ids[k] != [] && ',' !in ids[k] {
      assert IsObjectIdText(ids[k]);
    }
    Text.SplitJoin(ids, ',');
  }

  // ---------------------------------------------------------------------
  // AI seed (OnPostSeedInventoryAsync)

  /** An opening bracket at i comes before a closing one at j. */
  predicate BracketPair(s: string, i: int, j: int) {
    0 <= i < j < |s| && s[i] == '[' && s[j] == ']'
  }

  /** r is s from the bracket at i to the bracket at j, with no '[' before i
      and no ']' after j. */
  predicate OutermostAt(s: string, r: string, i: int, j: int) {
    BracketPair(s, i, j) && r == s[i..j + 1] && '[' !in s[..i] && ']' !in s[j + 1..]
  }

  /** From the first '[' to the last ']', when the first comes before the last. */
  function BracketedArray(response: string): (r: Option<string>)
    ensures r.None? <==> forall i, j :: !BracketPair(response, i, j)
    ensures r.Some? ==> exists i, j :: OutermostAt(response, r.value, i, j)
  {
    var start := Text.IndexOf(response, '[');
    var end := Text.LastIndexOf(response, ']');
    assert forall i, j :: BracketPair(response, i, j) ==> start >= 0 && end > start by {
      forall i, j | BracketPair(response, i, j) ensures start >= 0 && end > start {
        Text.IndexOfAtMost(response, '[', i);
        Text.LastIndexOfAtLeast(response, ']', j);
      }
    }
    if start >= 0 && end > start then
      assert OutermostAt(response, response[start..end + 1], start, end);
      Some(response[start..end + 1])
    else
      None
  }

  /** The sample inserted when nothing parses. */
  const SampleSeed: SeedItem := SeedItem("Sample Item", Some("General"), 10.0, 8.0, 50)

  /** What the JSON deserialiser made of the bracketed part of the reply;
      parse stands for it, None for an exception or a null result. */
  function ParsedSeeds(response: string, parse: string -> Option<seq<SeedItem>>): Option<seq<SeedItem>> {
    match BracketedArray(response)
    case Some(json) => parse(json)
    case None => None
  }

  /** The seeds the handler inserts: the parsed list, or the sample alone when
      the parse gave nothing or an empty list. */
  function SeedList(response: string, parse: string -> Option<seq<SeedItem>>): (r: seq<SeedItem>)
    ensures |r| >= 1
    ensures ParsedSeeds(response, parse).Some? && ParsedSeeds(response, parse).value != [] ==> r == ParsedSeeds(response, parse).value
    ensures ParsedSeeds(response, parse).None? || ParsedSeeds(response, parse).value == [] ==> r == [SampleSeed]
  {
    var parsed := ParsedSeeds(response, parse);
    if parsed.None? || parsed.value == [] then [SampleSeed] else parsed.value
  }

  /** The item made from a seed at the given position. */
  function SeededItem(seed: SeedItem, storeId: string, position: int, now: Time, id: string): (r: Item)
    ensures r.id == id && r.storeId == storeId && r.position == position && r.createdAt == now
    ensures r.name == seed.name && r.price == seed.price && r.quantity == seed.quantity
    ensures r.category == if seed.category.Some? then seed.category.value else "General"
    ensures r.costPrice == if seed.cost > 0.0 then seed.cost else seed.price * 0.8
    ensures r.logoData.None? && r.logoContentType.None?
  {
    Item(id, storeId, seed.name,
      match seed.category case Some(c) => c case None => "General",
      seed.quantity, seed.price,
      if seed.cost > 0.0 then seed.cost else seed.price * 0.8,
      position, None, None, now)
  }

  /** The items the seed loop builds from the first n seeds, the counter
      starting at count. */
  function SeededItems(seeds: seq<SeedItem>, n: nat, storeId: string, count: int, now: Time, ids: seq<string>): seq<Item>
    requires n <= |seeds| && n <= |ids|
  {
    if n == 0 then []
    else SeededItems(seeds, n - 1, storeId, count, now, ids) + [SeededItem(seeds[n - 1], storeId, count + n, now, ids[n - 1])]
  }

  /** The whole batch for a store, the counter starting at the store's count. */
  function SeedBatch(items: seq<Item>, storeId: string, seeds: seq<SeedItem>, now: Time, ids: seq<string>): seq<Item>
    requires |seeds| <= |ids|
  {
    SeededItems(seeds, |seeds|, storeId, |StoreItems(items, storeId)|, now, ids)
  }

  /** The k-th seeded item sits at count+k+1: positions count from the number
      of the store's documents, not from its highest position. */
  lemma {:induction false} SeededPositions(seeds: seq<SeedItem>, n: nat, storeId: string, count: int, now: Time, ids: seq<string>)
    requires n <= |seeds| && n <= |ids|
    ensures |SeededItems(seeds, n, storeId, count, now, ids)| == n
    ensures forall k :: 0 <= k < n ==>
      SeededItems(seeds, n, storeId, count, now, ids)[k] == SeededItem(seeds[k], storeId, count + k + 1, now, ids[k])
  {
    if n > 0 {
      SeededPositions(seeds, n - 1, storeId, count, now, ids);
      var prev := SeededItems(seeds, n - 1, storeId, count, now, ids);
      var r := SeededItems(seeds, n, storeId, count, now, ids);
      assert r == prev + [SeededItem(seeds[n - 1], storeId, count + n, now, ids[n - 1])];
      assert forall k :: 0 <= k < n - 1 ==> r[k] == prev[k];
    }
  }

  /** The ids are pairwise distinct. */
  predicate DistinctIds(ids: seq<string>) {
    forall i, j :: 0 <= i < j < |ids| ==> ids[i] != ids[j]
  }

  /** The seed loop: one item per seed, Position = ++currentCount. */
  method BuildSeedItems(seeds: seq<SeedItem>, storeId: string, count: int, now: Time, ids: seq<string>)
    returns (newItems: seq<Item>)
    requires |seeds| <= |ids|
    ensures newItems == SeededItems(seeds, |seeds|, storeId, count, now, ids)
  {
    var currentCount := count;
    newItems := [];
    var i := 0;
    while i < |seeds|
      invariant 0 <= i <= |seeds| && currentCount == count + i
      invariant newItems == SeededItems(seeds, i, storeId, count, now, ids)
    {
      currentCount := currentCount + 1;
      newItems := newItems + [SeededItem(seeds[i], storeId, currentCount, now, ids[i])];
      i := i + 1;
    }
  }

  /** Inserts the seeds after the store's count; ids are the ids the database
      assigns, in insertion order. */
  method SeedInventory(db: Database, store: Option<string>, apiKey: string, reply: GeminiReply,
                       parse: string -> Option<seq<SeedItem>>, now: Time, ids: seq<string>)
    requires UniqueIds(db.items) && DistinctIds(ids) && forall k :: 0 <= k < |ids| ==> !HasId(db.items, ids[k])
    requires |ids| >= |SeedList(GeminiText(apiKey, reply), parse)|
    modifies db`items
    ensures store.None? ==> db.items == old(db.items)
    ensures store.Some? ==>
      db.items == old(db.items) + SeedBatch(old(db.items), store.value, SeedList(GeminiText(apiKey, reply), parse), now, ids)
    ensures UniqueIds(db.items)
  {
    if store.None? {
      return;
    }
    var currentCount := |StoreItems(db.items, store.value)|;
    var seeds := SeedList(GeminiText(apiKey, reply), parse);
    var newItems := BuildSeedItems(seeds, store.value, currentCount, now, ids);
    SeededPositions(seeds, |seeds|, store.value, currentCount, now, ids);
    UniqueAfterSeed(db.items, newItems, ids);
    if |newItems| > 0 {
      db.items := db.items + newItems;
    }
  }

  lemma UniqueAfterSeed(items: seq<Item>, added: seq<Item>, ids: seq<string>)
    requires UniqueIds(items) && DistinctIds(ids) && forall k :: 0 <= k < |ids| ==> !HasId(items, ids[k])
    requires |added| <= |ids| && forall k :: 0 <= k < |added| ==> added[k].id == ids[k]
    ensures UniqueIds(items + added)
  {
    var r := items + added;
    forall i, j | 0 <= i < |r| && 0 <= j < |r| && i != j ensures r[i].id != r[j].id {
      if i >= |items| && j < |items| {
        assert r[i].id == ids[i - |items|];
      } else if i < |items| && j >= |items| {
        assert r[j].id == ids[j - |items|];
      } else if i >= |items| && j >= |items| {
        assert r[i].id == ids[i - |items|] && r[j].id == ids[j - |items|];
      }
    }
  }

  /** With no reply text from the model exactly one sample item goes in. */
  lemma SeedFallback(apiKey: string, reply: GeminiReply, parse: string -> Option<seq<SeedItem>>)
    requires apiKey == [] || !(reply.Candidate? && reply.text.Some?)
    ensures SeedList(GeminiText(apiKey, reply), parse) == [SampleSeed]
  {
    var response := GeminiText(apiKey, reply);
    assert forall i :: 0 <= i < |response| ==> response[i] != '[';
    assert BracketedArray(response).None?;
  }

  // ---------------------------------------------------------------------
  // Language-model calls (CallGeminiApi) and the categorize clean-up

  /** What the generateContent call produced: no usable reply (network error,
      malformed JSON, a missing field), a reply without candidates, or the
      first candidate's text (None for a JSON null). */
  datatype GeminiReply = CallFailed | NoCandidates | Candidate(text: Option<string>)

  /** The text CallGeminiApi returns for the decrypted key and the reply. */
  function GeminiText(apiKey: string, reply: GeminiReply): (r: string)
    ensures apiKey == [] ==> r == "AI Error: Missing API Key"
    ensures apiKey != [] && reply.Candidate? && reply.text.Some? ==> r == reply.text.value
    ensures apiKey != [] && !(reply.Candidate? && reply.text.Some?) ==> r == []
  {
    if apiKey == [] then "AI Error: Missing API Key"
    else match reply
      case Candidate(Some(t)) => t
      case _ => []
  }

  /** The categorize clean-up: quotes and full stops removed, then trimmed.
      The result is the trimmed infix of the reply with those characters
      deleted, and the deletion keeps the order of the others
      (Text.DeleteCharConcat). */
  function CleanCategory(response: string): (r: string)
    ensures '"' !in r && '.' !in r
    ensures r == [] || (!Text.IsWhiteSpace(r[0]) && !Text.IsWhiteSpace(r[|r| - 1]))
    ensures forall c :: c in r ==> c in response
    ensures exists i :: Text.TrimmedAt(Text.DeleteChar(Text.DeleteChar(response, '"'), '.'), r, i)
  {
    var unquoted := Text.DeleteChar(response, '"');
    var stripped := Text.DeleteChar(unquoted, '.');
    Text.DeleteCharKeepsChars(response, '"');
    Text.DeleteCharKeepsChars(unquoted, '.');
    Text.TrimKeepsChars(stripped);
    Text.Trim(stripped)
  }

  /** The insight reply: cleaned in categorize mode, as the model wrote it in
      every other mode. */
  function InsightMessage(mode: string, response: string): (r: string)
    ensures mode != "categorize" ==> r == response
    ensures mode == "categorize" ==> r == CleanCategory(response)
  {
    if mode == "categorize" then CleanCategory(response) else response
  }

  /** Cleaning a cleaned category changes nothing. */
  lemma CleanCategoryIdempotent(response: string)
    ensures CleanCategory(CleanCategory(response)) == CleanCategory(response)
  {
    var t := CleanCategory(response);
    assert Text.DeleteChar(t, '"') == t;
    assert Text.DeleteChar(Text.DeleteChar(t, '"'), '.') == t;
    Text.TrimOfTrimmed(t);
  }
}
