/** The read side of the back end: the public product list and product
    page, the admin product list and the category list, as functions of the
    database tables. */
module Catalog {
  import opened Wrappers
  import opened Records
  import opened Sequences
  import opened Text
  import opened Pricing

  /** Shown when a listing has no category (`category_name || 'Autres'`). */
  const DefaultCategory: string := "Autres"

  /* ------------------------------------------------------------- bids */

  /** `ORDER BY amount DESC, created_at DESC`. */
  predicate BidRank(a: BidRow, b: BidRow) {
    a.amount > b.amount || (a.amount == b.amount && a.createdAt >= b.createdAt)
  }

  lemma BidRankIsTotalPreorder()
    ensures TotalPreorder(BidRank)
  {
  }

  /** The bids of listing `pid` in display order: all of them, highest
      amount first, the most recent first among equal amounts. */
  function DisplayBids(bids: seq<BidRow>, pid: nat): (r: seq<BidRow>)
    ensures multiset(r) == multiset(BidsOf(bids, pid))
    ensures forall i, j :: 0 <= i < j < |r| ==>
      r[i].amount > r[j].amount || (r[i].amount == r[j].amount && r[i].createdAt >= r[j].createdAt)
  {
    BidRankIsTotalPreorder();
    SortBy(BidsOf(bids, pid), BidRank)
  }

  /** A bid row as the API shows it; the two stored name parts are joined
      with a space. */
  function FormatBid(b: BidRow): Bid {
    Bid(b.id, JoinName(b.firstName, b.lastName), b.phoneNumber, b.amount, b.isAnonymous, b.createdAt)
  }

  /** `bids.map(...)`: one entry per row, in the same order, showing the
      stored name parts joined by a space and the row's own amount, id and
      time. */
  function FormatBids(rows: seq<BidRow>): (r: seq<Bid>)
    ensures |r| == |rows|
    ensures forall i :: 0 <= i < |r| ==>
      && r[i].id == rows[i].id && r[i].amount == rows[i].amount && r[i].timestamp == rows[i].createdAt
      && r[i].bidderName == rows[i].firstName + " " + rows[i].lastName
      && r[i].phoneNumber == rows[i].phoneNumber && r[i].isAnonymous == rows[i].isAnonymous
  {
    seq(|rows|, i requires 0 <= i < |rows| => FormatBid(rows[i]))
  }

  /** The first bid in display order carries the highest amount. */
  lemma {:induction false} FirstDisplayedIsMax(bids: seq<BidRow>, pid: nat)
    ensures |DisplayBids(bids, pid)| == |BidsOf(bids, pid)|
    ensures BidsOf(bids, pid) != [] ==>
      DisplayBids(bids, pid)[0].amount == MaxAmount(BidsOf(bids, pid)).value
  {
    var of := BidsOf(bids, pid);
    var r := DisplayBids(bids, pid);
    assert |r| == |multiset(r)| == |multiset(of)| == |of|;
    if of == [] { return; }
    var m := MaxAmount(of).value;
    var b :| b in of && b.amount == m;
    assert b in multiset(r);
    var k :| 0 <= k < |r| && r[k] == b;
    assert r[0] in multiset(of);
    assert r[0].amount >= b.amount by {
      if k > 0 { assert BidRank(r[0], r[k]); }
    }
  }

  /* ----------------------------------------------------------- images */

  function OfImageProduct(pid: nat): ImageRow -> bool {
    (r: ImageRow) => r.productId == pid
  }

  function NotOfImageProduct(pid: nat): ImageRow -> bool {
    (r: ImageRow) => r.productId != pid
  }

  /** `ORDER BY display_order`. */
  predicate ImageOrder(a: ImageRow, b: ImageRow) {
    a.displayOrder <= b.displayOrder
  }

  lemma ImageOrderIsTotalPreorder()
    ensures TotalPreorder(ImageOrder)
  {
  }

  /** The rows the admin controller inserts for an image list: image `i` is
      stored with `display_order = i`. */
  function ImageRowsFor(pid: nat, urls: seq<string>): (rows: seq<ImageRow>)
    ensures |rows| == |urls|
    ensures forall i :: 0 <= i < |rows| ==> rows[i].productId == pid && rows[i].url == urls[i] && rows[i].displayOrder == i
  {
    seq(|urls|, i requires 0 <= i < |urls| => ImageRow(pid, urls[i], i))
  }

  function Urls(rows: seq<ImageRow>): (urls: seq<string>)
    ensures |urls| == |rows| && forall i :: 0 <= i < |rows| ==> urls[i] == rows[i].url
  {
    seq(|rows|, i requires 0 <= i < |rows| => rows[i].url)
  }

  /** The image URLs of listing `pid` ordered by display order: the URLs of
      a reordering of the listing's image rows whose display orders do not
      decrease. */
  function ImagesOf(images: seq<ImageRow>, pid: nat): (urls: seq<string>)
    ensures |urls| == |Filter(images, OfImageProduct(pid))|
    ensures exists rows: seq<ImageRow> ::
      && multiset(rows) == multiset(Filter(images, OfImageProduct(pid)))
      && (forall i, j :: 0 <= i < j < |rows| ==> rows[i].displayOrder <= rows[j].displayOrder)
      && urls == Urls(rows)
  {
    ImageOrderIsTotalPreorder();
    var rows := SortBy(Filter(images, OfImageProduct(pid)), ImageOrder);
    assert forall i, j :: 0 <= i < j < |rows| ==> rows[i].displayOrder <= rows[j].displayOrder by {
      assert Sorted(rows, ImageOrder);
    }
    Urls(rows)
  }

  /** `DELETE FROM product_images WHERE product_id = pid`. */
  function RemoveImagesOf(images: seq<ImageRow>, pid: nat): (r: seq<ImageRow>)
    ensures forall row :: row in r <==> row in images && row.productId != pid
  {
    Filter(images, NotOfImageProduct(pid))
  }

  /** Storing an image list for a listing that has no image rows and reading
      it back gives the same list, in the same order. */
  lemma ImagesRoundTrip(images: seq<ImageRow>, pid: nat, urls: seq<string>)
    requires forall row :: row in images ==> row.productId != pid
    ensures ImagesOf(images + ImageRowsFor(pid, urls), pid) == urls
  {
    var rows := ImageRowsFor(pid, urls);
    FilterAppend(images, rows, OfImageProduct(pid));
    FilterKeepsNone(images, OfImageProduct(pid));
    FilterKeepsAll(rows, OfImageProduct(pid));
    assert Filter(images + rows, OfImageProduct(pid)) == rows;
    ImageRowsSorted(pid, urls);
  }

  /** The inserted rows are already in display order, so reading them back
      yields their URLs unchanged. */
  lemma ImageRowsSorted(pid: nat, urls: seq<string>)
    ensures Urls(SortBy(ImageRowsFor(pid, urls), ImageOrder)) == urls
  {
    var rows := ImageRowsFor(pid, urls);
    ImageOrderIsTotalPreorder();
    assert Sorted(rows, ImageOrder);
    SortBySorted(rows, ImageOrder);
  }

  /** Replacing the image list of `pid` leaves every other listing's images
      as they were. */
  lemma ImagesOfOthersUnchanged(images: seq<ImageRow>, pid: nat, urls: seq<string>, q: nat)
    requires q != pid
    ensures ImagesOf(RemoveImagesOf(images, pid) + ImageRowsFor(pid, urls), q) == ImagesOf(images, q)
  {
    var rows := ImageRowsFor(pid, urls);
    var kept := RemoveImagesOf(images, pid);
    FilterAppend(kept, rows, OfImageProduct(q));
    FilterKeepsNone(rows, OfImageProduct(q));
    FilterNarrow(images, NotOfImageProduct(pid), OfImageProduct(q));
    assert Filter(kept + rows, OfImageProduct(q)) == Filter(images, OfImageProduct(q));
  }

  /** Appending rows for `pid` leaves every other listing's images as they
      were. */
  lemma ImagesOfAppendOther(images: seq<ImageRow>, pid: nat, urls: seq<string>, q: nat)
    requires q != pid
    ensures ImagesOf(images + ImageRowsFor(pid, urls), q) == ImagesOf(images, q)
  {
    var rows := ImageRowsFor(pid, urls);
    FilterAppend(images, rows, OfImageProduct(q));
    FilterKeepsNone(rows, OfImageProduct(q));
    assert Filter(images + rows, OfImageProduct(q)) == Filter(images, OfImageProduct(q));
  }

  /* ------------------------------------------------------- categories */

  /** `LEFT JOIN categories c ON p.category_id = c.id`: the first category
      row with that id, if any. */
  function FindCategory(cats: seq<Category>, cid: Option<nat>): (r: Option<Category>)
    ensures r.Some? ==> r.value in cats && cid == Some(r.value.id)
    ensures r.None? ==> cid.None? || forall c :: c in cats ==> c.id != cid.value
  {
    if cid.None? || cats == [] then None
    else if cats[0].id == cid.value then Some(cats[0])
    else FindCategory(cats[1..], cid)
  }

  /** `c.name || 'Autres'`: the joined category's name when there is one and
      it is not empty, otherwise the default label. */
  function CategoryLabel(cats: seq<Category>, cid: Option<nat>): (shown: string)
    ensures shown != ""
    ensures shown != DefaultCategory ==> exists c :: c in cats && cid == Some(c.id) && c.name == shown
    ensures FindCategory(cats, cid).Some? && FindCategory(cats, cid).value.name != "" ==>
      shown == FindCategory(cats, cid).value.name
    ensures FindCategory(cats, cid).None? ==> shown == DefaultCategory
  {
    match FindCategory(cats, cid)
    case Some(c) => if c.name != "" then c.name else DefaultCategory
    case None => DefaultCategory
  }

  /** `c.id as category_id`, then `|| null`. */
  function JoinedCategoryId(cats: seq<Category>, cid: Option<nat>): (r: Option<nat>)
    ensures r.Some? ==> r == cid && r.value != 0
    ensures FindCategory(cats, cid).Some? && FindCategory(cats, cid).value.id != 0 ==>
      r == Some(FindCategory(cats, cid).value.id)
    ensures FindCategory(cats, cid).None? ==> r.None?
  {
    match FindCategory(cats, cid)
    case Some(c) => if c.id != 0 then Some(c.id) else None
    case None => None
  }

  predicate NameOrder(a: Category, b: Category) {
    LexLe(a.name, b.name)
  }

  lemma NameOrderIsTotalPreorder()
    ensures TotalPreorder(NameOrder)
  {
    forall a: Category, b: Category ensures NameOrder(a, b) || NameOrder(b, a) {
      LexLeTotal(a.name, b.name);
    }
    forall a: Category, b: Category, c: Category | NameOrder(a, b) && NameOrder(b, c)
      ensures NameOrder(a, c)
    {
      LexLeTransitive(a.name, b.name, c.name);
    }
  }

  /** `SELECT * FROM categories ORDER BY name`: every category once, in
      order of name. */
  function Categories(t: Tables): (r: seq<Category>)
    ensures multiset(r) == multiset(t.categories)
    ensures forall i, j :: 0 <= i < j < |r| ==> LexLe(r[i].name, r[j].name)
  {
    NameOrderIsTotalPreorder();
    SortBy(t.categories, NameOrder)
  }

  /* --------------------------------------------------------- products */

  /** Every row of the table is stored under its own id. */
  predicate KeysAreIds(products: map<nat, ProductRow>) {
    forall id :: id in products ==> products[id].id == id
  }

  predicate IdBefore(a: ProductRow, b: ProductRow) {
    a.id < b.id
  }

  /** The product rows with an id below `n`, in increasing id order. */
  function RowsBelow(products: map<nat, ProductRow>, n: nat): (r: seq<ProductRow>)
    ensures forall id :: id in products && id < n ==> products[id] in r
    ensures forall row :: row in r ==> row in products.Values
    ensures KeysAreIds(products) ==> forall row :: row in r ==> row.id < n
    ensures KeysAreIds(products) ==> Sorted(r, IdBefore)
  {
    if n == 0 then []
    else
      var id := n - 1;
      RowsBelow(products, id) + (if id in products then [products[id]] else [])
  }

  /** The active rows among those below `n`: exactly the active listings,
      in increasing id order when rows are stored under their ids. */
  lemma {:induction false} ActiveRowsBelow(products: map<nat, ProductRow>, n: nat)
    ensures var rows := Filter(RowsBelow(products, n), IsActive);
      && (forall id :: id in products && id < n && products[id].active ==> products[id] in rows)
      && (forall row :: row in rows ==> row.active && row in products.Values)
      && (KeysAreIds(products) ==> Sorted(rows, IdBefore))
  {
    FilterKeepsSorted(RowsBelow(products, n), IsActive, IdBefore);
  }

  /** A reordering of rows holds the same rows, and when the ids of the
      original strictly increase it never shows one id twice. */
  lemma {:induction false} ReorderedRows(rows: seq<ProductRow>, r: seq<ProductRow>)
    requires multiset(r) == multiset(rows)
    ensures forall row :: row in r <==> row in rows
    ensures Sorted(rows, IdBefore) ==> forall i, j :: 0 <= i < j < |r| ==> r[i].id != r[j].id
  {
    forall row ensures row in r <==> row in rows {
      assert row in r <==> row in multiset(r);
    }
    if Sorted(rows, IdBefore) {
      UniqueIdsAfterReorder(rows, r);
    }
  }

  lemma {:induction false} UniqueIdsAfterReorder(rows: seq<ProductRow>, r: seq<ProductRow>)
    requires Sorted(rows, IdBefore) && multiset(r) == multiset(rows)
    ensures forall i, j :: 0 <= i < j < |r| ==> r[i].id != r[j].id
  {
    DistinctPermutation(rows, r);
    forall i, j | 0 <= i < j < |r| ensures r[i].id != r[j].id {
      assert r[i] in multiset(rows) && r[j] in multiset(rows);
      var a :| 0 <= a < |rows| && rows[a] == r[i];
      var b :| 0 <= b < |rows| && rows[b] == r[j];
      assert a != b;
      assert IdBefore(rows[a], rows[b]) || IdBefore(rows[b], rows[a]);
    }
  }

  predicate IsActive(p: ProductRow) {
    p.active
  }

  /** `ORDER BY p.created_at DESC`. */
  predicate NewerFirst(a: ProductRow, b: ProductRow) {
    a.createdAt >= b.createdAt
  }

  lemma NewerFirstIsTotalPreorder()
    ensures TotalPreorder(NewerFirst)
  {
  }

  /** The rows of the public list: the active listings, newest first. */
  function ActiveRows(t: Tables): (r: seq<ProductRow>)
    ensures forall id :: id in t.products && id < t.nextProductId && t.products[id].active ==>
      t.products[id] in r
    ensures forall row :: row in r ==> row.active && row in t.products.Values
    ensures forall i, j :: 0 <= i < j < |r| ==> r[i].createdAt >= r[j].createdAt
    ensures multiset(r) == multiset(Filter(RowsBelow(t.products, t.nextProductId), IsActive))
    ensures KeysAreIds(t.products) ==> forall i, j :: 0 <= i < j < |r| ==> r[i].id != r[j].id
  {
    NewerFirstIsTotalPreorder();
    var rows := Filter(RowsBelow(t.products, t.nextProductId), IsActive);
    var r := SortBy(rows, NewerFirst);
    ActiveRowsBelow(t.products, t.nextProductId);
    ReorderedRows(rows, r);
    r
  }

  /** The rows of the admin list: every listing, active or not, newest
      first. */
  function AllRows(t: Tables): (r: seq<ProductRow>)
    ensures forall id :: id in t.products && id < t.nextProductId ==> t.products[id] in r
    ensures forall row :: row in r ==> row in t.products.Values
    ensures forall i, j :: 0 <= i < j < |r| ==> r[i].createdAt >= r[j].createdAt
    ensures multiset(r) == multiset(RowsBelow(t.products, t.nextProductId))
    ensures KeysAreIds(t.products) ==> forall i, j :: 0 <= i < j < |r| ==> r[i].id != r[j].id
  {
    NewerFirstIsTotalPreorder();
    var rows := RowsBelow(t.products, t.nextProductId);
    var r := SortBy(rows, NewerFirst);
    ReorderedRows(rows, r);
    r
  }

  /** One entry of the public list: the derived price, the number of bids,
      no bid details. */
  function ListView(t: Tables, p: ProductRow): Product {
    Product(p.id, p.title, p.description, ImagesOf(t.images, p.id), p.startingPrice,
            CurrentPrice(t.bids, p), p.endTime, [], Some(|BidsOf(t.bids, p.id)|),
            CategoryLabel(t.categories, p.categoryId), p.active)
  }

  /** `GET /products`. */
  function ActiveListing(t: Tables): (r: seq<Product>)
    ensures |r| == |ActiveRows(t)|
    ensures forall i :: 0 <= i < |r| ==> r[i] == ListView(t, ActiveRows(t)[i])
  {
    var rows := ActiveRows(t);
    seq(|rows|, i requires 0 <= i < |rows| => ListView(t, rows[i]))
  }

  /** `GET /products/:id`: not found for an unknown id; otherwise the
      listing with all its bids in display order and, as current price, the
      first displayed bid's amount or the starting price. */
  function ProductDetail(t: Tables, pid: nat): (r: Option<Product>)
    ensures r.None? <==> pid !in t.products
    ensures r.Some? ==> r.value.id == t.products[pid].id && r.value.bidsCount.None?
    ensures r.Some? ==> |r.value.bids| == |BidsOf(t.bids, pid)|
    ensures r.Some? ==>
      r.value.currentPrice == if BidsOf(t.bids, pid) == [] then t.products[pid].startingPrice
                              else MaxAmount(BidsOf(t.bids, pid)).value
    ensures r.Some? ==> forall i, j :: 0 <= i < j < |r.value.bids| ==>
      var a, b := r.value.bids[i], r.value.bids[j];
      a.amount > b.amount || (a.amount == b.amount && a.timestamp >= b.timestamp)
    ensures r.Some? && r.value.bids != [] ==> r.value.currentPrice == r.value.bids[0].amount
    ensures r.Some? ==> r.value.bids == FormatBids(DisplayBids(t.bids, pid))
    ensures r.Some? ==>
      var p := t.products[pid];
      && r.value.title == p.title && r.value.description == p.description
      && r.value.startingPrice == p.startingPrice && r.value.endTime == p.endTime && r.value.active == p.active
      && r.value.images == ImagesOf(t.images, pid)
      && r.value.category == CategoryLabel(t.categories, p.categoryId)
  {
    if pid !in t.products then None
    else
      var p := t.products[pid];
      var rows := DisplayBids(t.bids, pid);
      var bids := FormatBids(rows);
      FirstDisplayedIsMax(t.bids, pid);
      Some(Product(p.id, p.title, p.description, ImagesOf(t.images, pid), p.startingPrice,
                   if |bids| > 0 then bids[0].amount else p.startingPrice,
                   p.endTime, bids, None, CategoryLabel(t.categories, p.categoryId), p.active))
  }

  /** A listing's page depends only on its row, its bids, its images and the
      categories. */
  lemma {:induction false} SamePage(t: Tables, u: Tables, pid: nat)
    requires (pid in t.products) == (pid in u.products)
    requires pid in t.products ==> t.products[pid] == u.products[pid]
    requires DisplayBids(t.bids, pid) == DisplayBids(u.bids, pid)
    requires ImagesOf(t.images, pid) == ImagesOf(u.images, pid)
    requires t.categories == u.categories
    ensures ProductDetail(t, pid) == ProductDetail(u, pid)
  {
  }

  /** One entry of the admin list. */
  function AdminView(t: Tables, p: ProductRow): AdminProduct {
    AdminProduct(p.id, p.title, p.description, ImagesOf(t.images, p.id), p.startingPrice,
                 CurrentPrice(t.bids, p), p.endTime, CategoryLabel(t.categories, p.categoryId),
                 JoinedCategoryId(t.categories, p.categoryId), p.active, |BidsOf(t.bids, p.id)|)
  }

  /** `GET /admin/products`. */
  function AdminListing(t: Tables): (r: seq<AdminProduct>)
    ensures |r| == |AllRows(t)|
    ensures forall i :: 0 <= i < |r| ==> r[i] == AdminView(t, AllRows(t)[i])
  {
    var rows := AllRows(t);
    seq(|rows|, i requires 0 <= i < |rows| => AdminView(t, rows[i]))
  }

  /** When no stored bid has the falsy amount 0, the list and the product
      page agree on a listing's current price, and the list's bid count is
      the length of the page's bid list. */
  lemma ListAndDetailAgree(t: Tables, pid: nat)
    requires pid in t.products && t.products[pid].id == pid
    requires NonzeroAmounts(t.bids)
    ensures ProductDetail(t, pid).Some?
    ensures ListView(t, t.products[pid]).currentPrice == ProductDetail(t, pid).value.currentPrice
    ensures ListView(t, t.products[pid]).bidsCount == Some(|ProductDetail(t, pid).value.bids|)
  {
    var p := t.products[pid];
    var of := BidsOf(t.bids, pid);
    if of != [] {
      var m := MaxAmount(of).value;
      var b :| b in of && b.amount == m;
      assert b.amount != 0;
    }
  }
}
