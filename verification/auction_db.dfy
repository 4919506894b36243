/** The back end's writes: placing a bid and the admin's create, update and
    delete of listings, as methods of one object holding the four tables.
    Each method runs inside one transaction, so a refused request leaves
    every table as it was. Each accepted write is stated as a pure
    transition on `Tables` (`WithBid`, `Created`, `Updated`, `Deleted`),
    and what the read views show afterwards is proved about the
    transition. */
module AuctionDb {
  import opened Wrappers
  import opened Records
  import opened Sequences
  import opened Text
  import opened Pricing
  import opened Catalog
  import opened BidRules

  /** The refusals of the admin writes: HTTP 400 "Missing required fields",
      and the HTTP 500 a foreign-key violation causes. */
  datatype AdminError = MissingProductFields | StorageError

  /** `categoryId || null`: the falsy id 0 is stored as `NULL`. */
  function StoredCategory(cid: Option<nat>): (r: Option<nat>)
    ensures r.Some? ==> r == cid && r.value != 0
    ensures cid.Some? && cid.value != 0 ==> r == cid
  {
    if cid.Some? && cid.value != 0 then cid else None
  }

  /** Every row is keyed by its own id, which the serial sequence has
      already handed out; bids and images belong to existing listings (the
      foreign keys, with `ON DELETE CASCADE`); no stored bid has the falsy
      amount 0; and each listing's bids increase in amount. */
  ghost predicate Consistent(t: Tables, nextBidId: nat) {
    && (forall id :: id in t.products ==> t.products[id].id == id && id < t.nextProductId)
    && (forall b :: b in t.bids ==> b.productId in t.products && b.id < nextBidId)
    && (forall row :: row in t.images ==> row.productId in t.products)
    && NonzeroAmounts(t.bids)
    && BidsIncrease(t.bids)
  }

  /* ------------------------------------------------------------ bids */

  /** Storing a bid that `Decide` accepts keeps the constraints. */
  lemma AcceptedBidKeepsConsistent(t: Tables, nextBidId: nat, pid: nat, req: BidRequest, now: int)
    requires Consistent(t, nextBidId) && Decide(t, pid, req).None?
    ensures Consistent(WithBid(t, pid, req, nextBidId, now), nextBidId + 1)
  {
    var row := NewBidRow(nextBidId, pid, req, now);
    AcceptedBidSetsPrice(t.bids, t.products[pid], row);
    AcceptKeepsIncrease(t.bids, t.products[pid], row);
  }

  /** After an accepted bid the listing's page shows the bid's amount as
      current price. */
  lemma {:induction false} AcceptedBidTopsPage(t: Tables, nextBidId: nat, pid: nat, req: BidRequest, now: int)
    requires Decide(t, pid, req).None?
    requires t.products[pid].id == pid && NonzeroAmounts(t.bids)
    ensures ProductDetail(WithBid(t, pid, req, nextBidId, now), pid).Some?
    ensures ProductDetail(WithBid(t, pid, req, nextBidId, now), pid).value.currentPrice == req.amount.value
  {
    var p := t.products[pid];
    var row := NewBidRow(nextBidId, pid, req, now);
    var after := t.bids + [row];
    AcceptedBidSetsPrice(t.bids, p, row);
    BidsOfAppend(t.bids, row, pid);
    assert row in BidsOf(after, pid);
    var m := MaxAmount(BidsOf(after, pid)).value;
    assert m != 0 by {
      var b :| b in BidsOf(after, pid) && b.amount == m;
      assert b in after;
    }
    assert m == CurrentPrice(after, p);
  }

  /** A bid on one listing leaves every other listing's page as it was. */
  lemma {:induction false} BidLeavesOtherPages(t: Tables, nextBidId: nat, pid: nat, req: BidRequest, now: int)
    requires req.amount.Some?
    ensures forall q :: q != pid ==>
      ProductDetail(WithBid(t, pid, req, nextBidId, now), q) == ProductDetail(t, q)
  {
    var row := NewBidRow(nextBidId, pid, req, now);
    forall q | q != pid
      ensures ProductDetail(WithBid(t, pid, req, nextBidId, now), q) == ProductDetail(t, q)
    {
      BidsOfAppend(t.bids, row, q);
      assert BidsOf(t.bids + [row], q) == BidsOf(t.bids, q);
    }
  }

  /* -------------------------------------------------------- creation */

  /** The images field of a request, with an absent list read as empty. */
  function GivenImages(input: ProductInput): seq<string> {
    if input.images.Some? then input.images.value else []
  }

  /** The row `createProduct` inserts: `active` and `created_at` take their
      column defaults, true and the insertion time. */
  function CreatedRow(id: nat, input: ProductInput, now: int): ProductRow {
    ProductRow(id, input.title, input.description, input.startingPrice, input.endTime,
               StoredCategory(input.categoryId), true, now)
  }

  /** The tables after a successful `createProduct`. */
  function Created(t: Tables, input: ProductInput, now: int): Tables {
    var id := t.nextProductId;
    t.(products := t.products[id := CreatedRow(id, input, now)],
       images := t.images + ImageRowsFor(id, GivenImages(input)),
       nextProductId := id + 1)
  }

  /** Adding a listing under the next serial id, with its images, keeps the
      constraints. */
  lemma CreationKeepsConsistent(t: Tables, nextBidId: nat, input: ProductInput, now: int)
    requires Consistent(t, nextBidId)
    ensures Consistent(Created(t, input, now), nextBidId)
  {
  }

  /** A created listing reads back with exactly the given images in the
      given order, no bid, and its starting price as current price; every
      other listing's page is as it was. */
  lemma {:induction false} CreatedReadsBack(t: Tables, nextBidId: nat, input: ProductInput, now: int)
    requires Consistent(t, nextBidId)
    ensures t.nextProductId !in t.products
    ensures ProductDetail(Created(t, input, now), t.nextProductId).Some?
    ensures ProductDetail(Created(t, input, now), t.nextProductId).value.images == GivenImages(input)
    ensures ProductDetail(Created(t, input, now), t.nextProductId).value.bids == []
    ensures ProductDetail(Created(t, input, now), t.nextProductId).value.currentPrice == input.startingPrice
    ensures forall q :: q != t.nextProductId ==>
      ProductDetail(Created(t, input, now), q) == ProductDetail(t, q)
  {
    var id := t.nextProductId;
    var after := Created(t, input, now);
    ImagesRoundTrip(t.images, id, GivenImages(input));
    FilterKeepsNone(t.bids, OfProduct(id));
    forall q | q != id
      ensures ProductDetail(after, q) == ProductDetail(t, q)
    {
      ImagesOfAppendOther(t.images, id, GivenImages(input), q);
    }
  }

  /* ---------------------------------------------------------- update */

  /** The row `updateProduct` writes over `prior`: every field from the
      request, the creation time kept. */
  function UpdatedRow(pid: nat, input: ProductInput, prior: ProductRow): ProductRow {
    ProductRow(pid, input.title, input.description, input.startingPrice, input.endTime,
               StoredCategory(input.categoryId), input.active, prior.createdAt)
  }

  /** The tables after a successful `updateProduct`: the row, if any, is
      overwritten; given images replace the listing's image rows. */
  function Updated(t: Tables, pid: nat, input: ProductInput): Tables {
    t.(products := if pid in t.products then t.products[pid := UpdatedRow(pid, input, t.products[pid])]
                   else t.products,
       images := if input.images.Some? then RemoveImagesOf(t.images, pid) + ImageRowsFor(pid, input.images.value)
                 else t.images)
  }

  /** An update that does not break the image foreign key keeps the
      constraints. */
  lemma UpdateKeepsConsistent(t: Tables, nextBidId: nat, pid: nat, input: ProductInput)
    requires Consistent(t, nextBidId)
    requires pid in t.products || input.images.None? || input.images.value == []
    ensures Consistent(Updated(t, pid, input), nextBidId)
  {
  }

  /** After an update, given images are the listing's images exactly, in
      order, absent images leave them alone, and no other listing's images
      change. */
  lemma {:induction false} UpdatedImagesReadBack(t: Tables, pid: nat, input: ProductInput)
    ensures input.images.Some? ==> ImagesOf(Updated(t, pid, input).images, pid) == input.images.value
    ensures input.images.None? ==> Updated(t, pid, input).images == t.images
    ensures forall q :: q != pid ==> ImagesOf(Updated(t, pid, input).images, q) == ImagesOf(t.images, q)
  {
    if input.images.Some? {
      var kept := RemoveImagesOf(t.images, pid);
      ImagesRoundTrip(kept, pid, input.images.value);
      forall q | q != pid
        ensures ImagesOf(Updated(t, pid, input).images, q) == ImagesOf(t.images, q)
      {
        ImagesOfOthersUnchanged(t.images, pid, input.images.value, q);
      }
    }
  }

  /* -------------------------------------------------------- deletion */

  /** The tables after `deleteProduct`: the row goes, and the cascade takes
      its bids and image rows. */
  function Deleted(t: Tables, pid: nat): Tables {
    t.(products := t.products - {pid},
       bids := Filter(t.bids, NotOfProduct(pid)),
       images := RemoveImagesOf(t.images, pid))
  }

  /** Removing a listing together with its bids and images keeps the
      constraints. */
  lemma RemovalKeepsConsistent(t: Tables, nextBidId: nat, pid: nat)
    requires Consistent(t, nextBidId)
    ensures Consistent(Deleted(t, pid), nextBidId)
  {
    RemoveListingKeepsIncrease(t.bids, pid);
  }

  /** After a deletion the listing is not found and every other listing's
      page is as it was. */
  lemma {:induction false} DeletedReadsBack(t: Tables, pid: nat)
    ensures ProductDetail(Deleted(t, pid), pid).None?
    ensures forall q :: q != pid ==> ProductDetail(Deleted(t, pid), q) == ProductDetail(t, q)
  {
    forall q | q != pid
      ensures ProductDetail(Deleted(t, pid), q) == ProductDetail(t, q)
    {
      DeletionLeavesPage(t, pid, q);
    }
  }

  lemma {:induction false} DeletionLeavesPage(t: Tables, pid: nat, q: nat)
    requires q != pid
    ensures ProductDetail(Deleted(t, pid), q) == ProductDetail(t, q)
  {
    DeletionLeavesBids(t.bids, pid, q);
    DeletionLeavesImages(t.images, pid, q);
    SamePage(Deleted(t, pid), t, q);
  }

  lemma {:induction false} DeletionLeavesBids(bids: seq<BidRow>, pid: nat, q: nat)
    requires q != pid
    ensures DisplayBids(Filter(bids, NotOfProduct(pid)), q) == DisplayBids(bids, q)
  {
    FilterNarrow(bids, NotOfProduct(pid), OfProduct(q));
  }

  lemma {:induction false} DeletionLeavesImages(images: seq<ImageRow>, pid: nat, q: nat)
    requires q != pid
    ensures ImagesOf(RemoveImagesOf(images, pid), q) == ImagesOf(images, q)
  {
    ImagesOfOthersUnchanged(images, pid, [], q);
    assert RemoveImagesOf(images, pid) + ImageRowsFor(pid, []) == RemoveImagesOf(images, pid);
  }

  /* --------------------------------------------------------- the store */

  class Database {
    var products: map<nat, ProductRow>
    var bids: seq<BidRow>
    var images: seq<ImageRow>
    var categories: seq<Category>
    var nextProductId: nat
    var nextBidId: nat

    /** The tables as the read views see them. */
    function Snapshot(): Tables
      reads this
    {
      Tables(products, bids, images, categories, nextProductId)
    }

    /** The database constraints, see `Consistent`. */
    ghost predicate Valid()
      reads this
    {
      Consistent(Snapshot(), nextBidId)
    }

    /** An empty auction with the given categories. */
    constructor(cats: seq<Category>)
      ensures Valid()
      ensures products == map[] && bids == [] && images == [] && categories == cats
    {
      products := map[];
      bids := [];
      images := [];
      categories := cats;
      nextProductId := 1;
      nextBidId := 1;
    }

    /** `POST /products/:id/bids`. A refused request changes nothing and
        reports the refusal `Decide` names; an accepted one appends one bid
        row and answers with the listing as `GET /products/:id` now shows
        it, whose current price is the new bid. */
    method PlaceBid(pid: nat, req: BidRequest, now: int) returns (r: Result<Product, BidError>)
      requires Valid()
      modifies this
      ensures Valid()
      ensures r.Failure? <==> Decide(old(Snapshot()), pid, req).Some?
      ensures r.Failure? ==> r.error == Decide(old(Snapshot()), pid, req).value && unchanged(this)
      ensures r.Success? ==>
        && req.amount.Some?
        && Snapshot() == WithBid(old(Snapshot()), pid, req, old(nextBidId), now)
        && nextBidId == old(nextBidId) + 1
        && r.value.currentPrice == req.amount.value
        && ProductDetail(Snapshot(), pid) == Some(r.value)
    {
      ghost var before := Snapshot();
      if req.bidderName == "" || req.phoneNumber == "" || req.amount.None? || req.amount.value == 0 {
        return Failure(MissingFields);
      }
      var maxAmount := MaxAmount(BidsOf(bids, pid));
      if pid !in products {
        return Failure(ProductNotFound);
      }
      var currentPrice := if maxAmount.Some? && maxAmount.value != 0 then maxAmount.value
                          else products[pid].startingPrice;
      var amount := req.amount.value;
      if amount <= currentPrice {
        return Failure(BidTooLow);
      }
      ghost var id := nextBidId;
      InsertBid(pid, req, now);
      AcceptedBidTopsPage(before, id, pid, req, now);
      var shown := ProductDetail(Snapshot(), pid).value;
      r := Success(shown.(currentPrice := amount));
    }

    /** The `INSERT INTO bids` of an accepted bid, under the next bid id. */
    method InsertBid(pid: nat, req: BidRequest, now: int)
      requires Valid() && Decide(Snapshot(), pid, req).None?
      modifies this`bids, this`nextBidId
      ensures Valid()
      ensures Snapshot() == WithBid(old(Snapshot()), pid, req, old(nextBidId), now)
      ensures nextBidId == old(nextBidId) + 1
    {
      AcceptedBidKeepsConsistent(Snapshot(), nextBidId, pid, req, now);
      bids := bids + [NewBidRow(nextBidId, pid, req, now)];
      nextBidId := nextBidId + 1;
    }

    /** Appends one image row per url, with display orders 0, 1, ... */
    method InsertImages(pid: nat, urls: seq<string>)
      modifies this`images
      ensures images == old(images) + ImageRowsFor(pid, urls)
    {
      for i := 0 to |urls|
        invariant images == old(images) + ImageRowsFor(pid, urls[..i])
      {
        assert ImageRowsFor(pid, urls[..i + 1]) == ImageRowsFor(pid, urls[..i]) + [ImageRow(pid, urls[i], i)];
        images := images + [ImageRow(pid, urls[i], i)];
      }
      assert urls[..|urls|] == urls;
    }

    /** `POST /admin/products`. A falsy title, description, start price or
        end time is refused and changes nothing; otherwise the tables become
        `Created`, and the new id is the serial's next value. */
    method CreateProduct(input: ProductInput, now: int) returns (r: Result<nat, AdminError>)
      requires Valid()
      modifies this
      ensures Valid()
      ensures r.Failure? <==>
        input.title == "" || input.description == "" || input.startingPrice == 0 || input.endTime == 0
      ensures r.Failure? ==> r.error == MissingProductFields && unchanged(this)
      ensures r.Success? ==>
        && r.value == old(nextProductId)
        && Snapshot() == Created(old(Snapshot()), input, now)
        && nextBidId == old(nextBidId)
    {
      if input.title == "" || input.description == "" || input.startingPrice == 0 || input.endTime == 0 {
        return Failure(MissingProductFields);
      }
      CreationKeepsConsistent(Snapshot(), nextBidId, input, now);
      var id := nextProductId;
      products := products[id := CreatedRow(id, input, now)];
      nextProductId := nextProductId + 1;
      if input.images.Some? && |input.images.value| > 0 {
        InsertImages(id, input.images.value);
      } else {
        assert ImageRowsFor(id, GivenImages(input)) == [];
        assert images + [] == images;
      }
      r := Success(id);
    }

    /** `PUT /admin/products/:id`. No field is checked. For an unknown id
        with a non-empty image list the image insert breaks the foreign key
        and the whole request is rolled back; otherwise the tables become
        `Updated`. */
    method UpdateProduct(pid: nat, input: ProductInput) returns (r: Result<(), AdminError>)
      requires Valid()
      modifies this
      ensures Valid()
      ensures r.Failure? <==> pid !in old(products) && input.images.Some? && input.images.value != []
      ensures r.Failure? ==> r.error == StorageError && unchanged(this)
      ensures r.Success? ==> Snapshot() == Updated(old(Snapshot()), pid, input) && nextBidId == old(nextBidId)
    {
      if pid !in products && input.images.Some? && input.images.value != [] {
        return Failure(StorageError);
      }
      UpdateKeepsConsistent(Snapshot(), nextBidId, pid, input);
      if pid in products {
        products := products[pid := UpdatedRow(pid, input, products[pid])];
      }
      if input.images.Some? {
        images := RemoveImagesOf(images, pid);
        InsertImages(pid, input.images.value);
      }
      r := Success(());
    }

    /** `DELETE /admin/products/:id`: the tables become `Deleted`; an
        unknown id changes nothing. */
    method DeleteProduct(pid: nat)
      requires Valid()
      modifies this
      ensures Valid()
      ensures Snapshot() == Deleted(old(Snapshot()), pid) && nextBidId == old(nextBidId)
    {
      RemovalKeepsConsistent(Snapshot(), nextBidId, pid);
      products := products - {pid};
      bids := Filter(bids, NotOfProduct(pid));
      images := RemoveImagesOf(images, pid);
    }
  }
}
