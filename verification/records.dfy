/** The shapes of the auction data: the rows of the database tables the
    back end reads and writes, and the JSON objects the client works with
    (`Bid`, `Product`, `BidFormValues`, the admin product). Money amounts are
    whole units (`int`); times are milliseconds since the epoch (`int`). */
module Records {
  import opened Wrappers

  /* ------------------------------------------------------ table rows */

  /** A row of `products`. `categoryId` is `NULL` when the listing has no
      category. */
  datatype ProductRow = ProductRow(
    id: nat,
    title: string,
    description: string,
    startingPrice: int,
    endTime: int,
    categoryId: Option<nat>,
    active: bool,
    createdAt: int)

  /** A row of `bids`. */
  datatype BidRow = BidRow(
    id: nat,
    productId: nat,
    firstName: string,
    lastName: string,
    phoneNumber: string,
    amount: int,
    isAnonymous: bool,
    createdAt: int)

  /** A row of `product_images`. */
  datatype ImageRow = ImageRow(productId: nat, url: string, displayOrder: nat)

  /** A row of `categories`. */
  datatype Category = Category(id: nat, name: string)

  /** The whole database at one instant: the four tables and the next value
      of the `products.id` serial sequence. */
  datatype Tables = Tables(
    products: map<nat, ProductRow>,
    bids: seq<BidRow>,
    images: seq<ImageRow>,
    categories: seq<Category>,
    nextProductId: nat)

  /* ---------------------------------------------------- JSON objects */

  datatype Bid = Bid(
    id: nat,
    bidderName: string,
    phoneNumber: string,
    amount: int,
    isAnonymous: bool,
    timestamp: int)

  /** The product object of the public API. `bidsCount` is present in the
      list view, where `bids` is left empty. */
  datatype Product = Product(
    id: nat,
    title: string,
    description: string,
    images: seq<string>,
    startingPrice: int,
    currentPrice: int,
    endTime: int,
    bids: seq<Bid>,
    bidsCount: Option<nat>,
    category: string,
    active: bool)

  /** The product object of the admin API. */
  datatype AdminProduct = AdminProduct(
    id: nat,
    title: string,
    description: string,
    images: seq<string>,
    startingPrice: int,
    currentPrice: int,
    endTime: int,
    category: string,
    categoryId: Option<nat>,
    active: bool,
    bidsCount: nat)

  /** The body of `POST /products/:id/bids`. A field the client leaves out is
      the empty string, or `None` for the amount. */
  datatype BidRequest = BidRequest(
    bidderName: string,
    phoneNumber: string,
    amount: Option<int>,
    isAnonymous: bool)

  /** The body of the admin create and update requests. A missing or empty
      start price or end time is `0`, the falsy value the controller tests
      for; `images` is `None` when the field is absent. */
  datatype ProductInput = ProductInput(
    title: string,
    description: string,
    startingPrice: int,
    endTime: int,
    categoryId: Option<nat>,
    images: Option<seq<string>>,
    active: bool)

  /** What the amount field of the bid form holds: the empty string, a text
      that `Number` reads as a whole number, or a text it reads as `NaN`. */
  datatype FormAmount = Blank | Numeric(value: int) | NotANumber

  datatype BidFormValues = BidFormValues(
    firstName: string,
    lastName: string,
    phoneNumber: string,
    amount: FormAmount,
    isAnonymous: bool)
}
