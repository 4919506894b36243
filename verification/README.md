# Auction store and bid rule, in Dafny

This project models the core of a small online auction application. It has
a Node back end over PostgreSQL and a React front end.

- **Database.** Four tables hold the data: products (listings), bids,
  product images and categories. `Records.Tables` captures them at one
  instant. `AuctionDb.Database` is the store whose methods change them.
- **Bid rule (`POST /products/:id/bids`).** The checks run in this order:
  1. the bidder name, phone and amount are present (the amount 0 counts
     as missing);
  2. the listing exists;
  3. the amount is strictly above the current price. The current price is
     the largest bid on the listing, or its starting price when there is
     none.

  An accepted bid appends exactly one row. Its bidder name is stored split
  at the first space. The reply is the listing's page with the bid as its
  price. `BidRules.Decide` states the rule as a function, and
  `Database.PlaceBid` runs the checks step by step.
- **Read views.**
  - The public list shows active listings only, newest first, with a
    derived price and a bid count.
  - The product page shows all bids, highest first, ties most recent
    first. Its price is the first bid's amount or the starting price.
  - The admin list includes inactive listings. Categories are sorted by
    name.
  - A listing without a category shows `'Autres'`.

  These are all functions of `Tables`, in `Catalog`.
- **Admin writes.**
  - Create refuses a falsy title, description, starting price or end time.
    It stores image `i` with display order `i`.
  - Update overwrites every field and replaces the image list when one is
    given.
  - Delete removes the listing, and with it its bids and images.

  Each write is a pure transition on `Tables`: `WithBid`, `Created`,
  `Updated` or `Deleted`. The store's methods are proved to perform that
  transition, and lemmas prove what the read views show afterwards. The
  database's constraints are collected in `AuctionDb.Consistent`, and every
  write is proved to keep them, including "each listing's bids strictly
  increase".
- **Client.**
  - The product cache of the front-end service keeps the products in an
    array. Its updates are replace-first and replace-or-append.
  - The bid form is checked in order: required fields, the phone pattern
    `^0\d{9}$`, then an amount of at least the shown price + 1.
  - The image carousel moves modulo the image count. On the product page a
    swipe also moves it when the finger travels more than 50 px.
  - The countdown splits the time left into days, hours, minutes and
    seconds.
  - The product card shows a bid count and a link.
  - The admin forms check their fields and let the user edit the list of
    image urls.
  - The home page filters products by title.
- **Shared panel.** The product page and the product modal share the bid
  form, the carousel and the synchronisation with the list, modelled once as
  the class `BidPanel.Panel`. Only the product page has swipe handlers
  (`Front/components/ProductPage.tsx:121-146`). `TouchStart`, `TouchMove` and `TouchEnd`
  model those handlers, and the modal never calls them.

I/O becomes parameters or is left out:

- a network reply becomes a `Result` argument;
- the current time `now` and the time left are plain integers;
- lower-casing is the function parameter `lower`.

Money is whole units (`int`), and times are milliseconds (`int`). Where
the JavaScript tests for falsiness, the model tests for the empty string,
`None` or `0` explicitly. JavaScript's `x % 0` gives `NaN`, which is
`Carousel.ImageIndex.NaN`.

The client's form check agrees with the server's rule:
`BidForm.FormAcceptedServerAccepts` proves a bid the form lets through is
accepted when the price the form showed is current and not negative.
`BidForm.StalePriceRefused` proves that, with a stale price, the server
refuses it as too low.

## Model

| member | source | states |
|---|---|---|
| Text.SplitName | Back/controllers/BidController.js:20-22 | The first name contains no space. When the name has a space, first + " " + last is the name again. Without a space, the whole name is the first name and the last name is empty. |
| Text.NameRoundTrip | Back/controllers/BidController.js:20-22 | Splitting a name and showing it joined returns the name when it contains a space. Without a space, it returns the name with one trailing space. |
| Text.SplitJoinName | Front/components/ProductPage.tsx:186 | A name the form builds as first + " " + last, with a first name free of spaces, is split back by the server into exactly those two fields. |
| Text.BlankIffAllWhitespace | Front/pages/AdminPage.tsx:271-274 | `!s.trim()` holds exactly when every character of `s` is ECMAScript white space or a line terminator. |
| Pricing.BidsOf | Back/controllers/BidController.js:25-28 | The bids of a listing are exactly the stored bids with that product id, in storage order. |
| Pricing.BidsOfAppend | Back/controllers/BidController.js:48-52 | Appending a bid extends its own listing's bids by that bid and leaves every other listing's bids as they were. |
| Pricing.MaxAmount | Back/controllers/BidController.js:25-28 | `MAX(amount)`: none for no bids; otherwise an amount of some bid that no bid exceeds. |
| Pricing.CurrentPrice | Back/controllers/BidController.js:40 | `max \|\| starting_price`. With no bids the price is the starting price. When no stored amount is 0, the price is a bid's amount that no bid of the listing exceeds. |
| Pricing.AcceptedBidSetsPrice | Back/controllers/BidController.js:42-52 | After appending a bid above the current price, the listing's price is that bid's amount. The bid exceeds every earlier bid on the listing. |
| Pricing.OtherPriceUnchanged | Back/controllers/BidController.js:48-52 | A bid on one listing leaves every other listing's price unchanged. |
| Pricing.PriceNeverDecreases | Back/controllers/BidController.js:42-52 | Accepting a bid never lowers any listing's current price. |
| Pricing.AcceptKeepsIncrease | Back/controllers/BidController.js:42-52 | If each listing's bids strictly increase in storage order, they still do after an accepted bid. |
| Pricing.RemoveListingKeepsIncrease | SAADI-BOUFENISSA-AROUS-PROJET-DevOps/Back/controllers/AdminController.js:137 | Removing one listing's bids leaves it with no bids. Every other listing keeps exactly its bids, so all histories stay increasing. |
| BidRules.Decide | Back/controllers/BidController.js:14-45 | Each refusal holds exactly when the earlier checks pass and its own check fails. Missing fields (empty name or phone, no amount, amount 0) win over an unknown listing, which wins over a low amount. Acceptance holds exactly when all fields are present, the listing exists and amount > current price; the boundary amount == price is refused. |
| BidRules.NewBidRow | Back/controllers/BidController.js:20-52 | The stored row has the given id and creation time and carries the listing, amount, phone and anonymity flag of the request. Its first and last name are `SplitName` of the submitted name: cut at the first space, so they join back to the name when it contains a space. |
| BidRules.RepeatedBidRefused | Back/controllers/BidController.js:42-45 | Once a bid is accepted, the price equals its amount, and sending the same request again is refused as too low. |
| BidRules.OtherListingsUnaffected | Back/controllers/BidController.js:25-45 | A bid stored on one listing does not change the decision on any request for another listing. |
| Catalog.BidRankIsTotalPreorder | SAADI-BOUFENISSA-AROUS-PROJET-DevOps/Back/controllers/ProductController.js:79 | `ORDER BY amount DESC, created_at DESC` is total and transitive. |
| Catalog.DisplayBids | SAADI-BOUFENISSA-AROUS-PROJET-DevOps/Back/controllers/ProductController.js:75-81 | The displayed bids are a permutation of the listing's bids. They are ordered by amount descending, ties by time descending. |
| Catalog.FormatBids | SAADI-BOUFENISSA-AROUS-PROJET-DevOps/Back/controllers/ProductController.js:83-90 | One entry per row in the same order. Each entry has the row's id, amount and time, `firstname + " " + lastname` as its name, and the row's phone number and anonymity flag. |
| Catalog.FirstDisplayedIsMax | SAADI-BOUFENISSA-AROUS-PROJET-DevOps/Back/controllers/ProductController.js:92-94 | As many bids are displayed as are stored. The first displayed bid has the maximum amount. |
| Catalog.ImageOrderIsTotalPreorder | SAADI-BOUFENISSA-AROUS-PROJET-DevOps/Back/controllers/ProductController.js:70 | `ORDER BY display_order` is total and transitive. |
| Catalog.ImageRowsFor | SAADI-BOUFENISSA-AROUS-PROJET-DevOps/Back/controllers/AdminController.js:71-78 | One image row per submitted url, in order: row `i` belongs to the listing, has url `i` and display order `i`. |
| Catalog.ImagesOf | SAADI-BOUFENISSA-AROUS-PROJET-DevOps/Back/controllers/ProductController.js:69-72 | The urls are those of a reordering of exactly the listing's image rows (each row once), sorted by display order. |
| Catalog.RemoveImagesOf | SAADI-BOUFENISSA-AROUS-PROJET-DevOps/Back/controllers/AdminController.js:109 | The remaining image rows are exactly those of other listings. |
| Catalog.ImagesRoundTrip | SAADI-BOUFENISSA-AROUS-PROJET-DevOps/Back/controllers/AdminController.js:71-78 | Storing a url list for a listing without images and reading it back by display order gives the same list in the same order. |
| Catalog.ImageRowsSorted | SAADI-BOUFENISSA-AROUS-PROJET-DevOps/Back/controllers/AdminController.js:71-78 | The inserted rows are already in display order, so sorting them gives back their urls unchanged. |
| Catalog.ImagesOfOthersUnchanged | SAADI-BOUFENISSA-AROUS-PROJET-DevOps/Back/controllers/AdminController.js:108-119 | Replacing one listing's images leaves every other listing's image list unchanged. |
| Catalog.ImagesOfAppendOther | SAADI-BOUFENISSA-AROUS-PROJET-DevOps/Back/controllers/AdminController.js:71-78 | Adding images for one listing leaves every other listing's image list unchanged. |
| Catalog.FindCategory | SAADI-BOUFENISSA-AROUS-PROJET-DevOps/Back/controllers/ProductController.js:55-58 | `LEFT JOIN categories` gives a stored category with the listing's category id, and nothing only when there is none. |
| Catalog.CategoryLabel | SAADI-BOUFENISSA-AROUS-PROJET-DevOps/Back/controllers/ProductController.js:105 | The label is never empty. A found category with a non-empty name shows that name. A missing category shows `'Autres'`. Any other label is the category's name. |
| Catalog.JoinedCategoryId | SAADI-BOUFENISSA-AROUS-PROJET-DevOps/Back/controllers/AdminController.js:35 | `category_id \|\| null`: any id shown is the listing's own, non-zero category id. A found category with a non-zero id always shows it, and a missing one shows none. |
| Catalog.NameOrderIsTotalPreorder | SAADI-BOUFENISSA-AROUS-PROJET-DevOps/Back/controllers/AdminController.js:148 | Ordering categories by name is total and transitive. |
| Catalog.Categories | SAADI-BOUFENISSA-AROUS-PROJET-DevOps/Back/controllers/AdminController.js:148 | Every category appears once, as often as stored, sorted by name. |
| Catalog.ActiveRows | SAADI-BOUFENISSA-AROUS-PROJET-DevOps/Back/controllers/ProductController.js:15-16 | Exactly the active listings, each as often as stored (a reordering of the filtered rows), newest `created_at` first. When every row is stored under its own id, no id appears twice. |
| Catalog.AllRows | SAADI-BOUFENISSA-AROUS-PROJET-DevOps/Back/controllers/AdminController.js:14-16 | Every listing, active or not, each as often as stored, newest first. When every row is stored under its own id, no id appears twice. |
| Catalog.ActiveListing | SAADI-BOUFENISSA-AROUS-PROJET-DevOps/Back/controllers/ProductController.js:5-47 | One list entry per active row, in the rows' order. Each entry shows the derived price, the bid count and no bid details. |
| Catalog.ProductDetail | SAADI-BOUFENISSA-AROUS-PROJET-DevOps/Back/controllers/ProductController.js:50-107 | Not found exactly for an unknown id. Otherwise the page shows the stored title, description, starting price, end time and active flag, the listing's images (`ImagesOf`), its category label (`CategoryLabel`), and `FormatBids` of the listing's bids ordered amount descending then time descending (`DisplayBids`). The price is the starting price without bids, else the maximum amount, which is also the first bid's. |
| Catalog.AdminListing | SAADI-BOUFENISSA-AROUS-PROJET-DevOps/Back/controllers/AdminController.js:5-47 | One entry per listing, active or not, in list order. |
| Catalog.ListAndDetailAgree | SAADI-BOUFENISSA-AROUS-PROJET-DevOps/Back/controllers/ProductController.js:32-35 | When no stored amount is 0, the list and the page agree on a listing's price. The list's bid count is the page's number of bids. |
| AuctionDb.StoredCategory | SAADI-BOUFENISSA-AROUS-PROJET-DevOps/Back/controllers/AdminController.js:65 | `categoryId \|\| null`: a non-zero id is kept; 0 or none is stored as NULL. |
| AuctionDb.AcceptedBidKeepsConsistent | Back/controllers/BidController.js:48-52 | Storing an accepted bid keeps every constraint of the database, strictly increasing bids included. |
| AuctionDb.AcceptedBidTopsPage | Back/controllers/BidController.js:70-93 | After an accepted bid the listing's page exists and shows the bid's amount as current price, as the reply says. |
| AuctionDb.BidLeavesOtherPages | Back/controllers/BidController.js:48-52 | A bid on one listing leaves every other listing's page exactly as it was. |
| AuctionDb.CreationKeepsConsistent | SAADI-BOUFENISSA-AROUS-PROJET-DevOps/Back/controllers/AdminController.js:63-78 | Adding a listing under the next serial id, with its images, keeps the database's constraints. |
| AuctionDb.CreatedReadsBack | SAADI-BOUFENISSA-AROUS-PROJET-DevOps/Back/controllers/AdminController.js:63-78 | The new id was unused. Its page exists, with the submitted images in order, no bid and the starting price as price. Every other page is unchanged. |
| AuctionDb.UpdateKeepsConsistent | SAADI-BOUFENISSA-AROUS-PROJET-DevOps/Back/controllers/AdminController.js:102-119 | An update that does not break the image foreign key keeps the constraints. |
| AuctionDb.UpdatedImagesReadBack | SAADI-BOUFENISSA-AROUS-PROJET-DevOps/Back/controllers/AdminController.js:108-119 | Given images become the listing's images exactly, in order. Absent images leave them alone. Other listings' images never change. |
| AuctionDb.RemovalKeepsConsistent | SAADI-BOUFENISSA-AROUS-PROJET-DevOps/Back/controllers/AdminController.js:137 | Deleting a listing, with its bids and images, keeps the constraints. |
| AuctionDb.DeletedReadsBack | SAADI-BOUFENISSA-AROUS-PROJET-DevOps/Back/controllers/AdminController.js:137 | The deleted listing is not found. Every other listing's page is unchanged. |
| AuctionDb.Database.PlaceBid | Back/controllers/BidController.js:4-98 | It fails exactly when `Decide` refuses, with `Decide`'s reason, and then changes nothing. Otherwise it appends the one row `WithBid` describes and uses the next bid id. It answers with the listing's new page, whose price is the bid's amount. |
| AuctionDb.Database.InsertBid | Back/controllers/BidController.js:48-52 | The insert of an accepted bid performs `WithBid` and keeps the constraints. |
| AuctionDb.Database.InsertImages | SAADI-BOUFENISSA-AROUS-PROJET-DevOps/Back/controllers/AdminController.js:71-78 | The loop appends exactly `ImageRowsFor(pid, urls)`: url `i` with display order `i`. |
| AuctionDb.Database.CreateProduct | SAADI-BOUFENISSA-AROUS-PROJET-DevOps/Back/controllers/AdminController.js:50-90 | It is refused exactly when the title, description, starting price or end time is falsy, and then nothing changes. Otherwise it performs `Created` and returns the serial's next id. |
| AuctionDb.Database.UpdateProduct | SAADI-BOUFENISSA-AROUS-PROJET-DevOps/Back/controllers/AdminController.js:93-131 | It checks no field. It fails, and rolls back, only when new images would reference an unknown listing. Otherwise it performs `Updated`. |
| AuctionDb.Database.DeleteProduct | SAADI-BOUFENISSA-AROUS-PROJET-DevOps/Back/controllers/AdminController.js:134-143 | It performs `Deleted`; an unknown id changes nothing. |
| AuctionCache.FindIndex | Front/services/auctionService.ts:55 | `findIndex`: -1 exactly when no entry has the id; otherwise the first position holding it. |
| AuctionCache.Find | Front/services/auctionService.ts:30-32 | `find`: nothing exactly when no entry has the id; otherwise the first such entry. |
| AuctionCache.ReplaceFirst | Front/services/auctionService.ts:55-58 | Same length. The first entry with the id is replaced and all others are kept. Without such an entry the cache is unchanged and nothing is appended. |
| AuctionCache.Upsert | Front/services/auctionService.ts:76-81 | Replaces the first entry with the id, or appends when there is none, so the length grows by at most one. |
| AuctionCache.FindAfterUpsert | Front/services/auctionService.ts:76-81 | After storing a product under its own id, looking up that id finds it. |
| AuctionCache.ReplaceKeepsOtherLookups | Front/services/auctionService.ts:55-58 | Replacing one id's entry leaves the lookup of every other id unchanged. |
| AuctionCache.AuctionService.constructor | Front/services/auctionService.ts:6 | The cache starts empty. |
| AuctionCache.AuctionService.LoadProducts | Front/services/auctionService.ts:13-24 | A successful reply becomes the whole cache; a failed one changes nothing. |
| AuctionCache.AuctionService.PlaceBid | Front/services/auctionService.ts:34-66 | An error reply is raised again and leaves the cache alone. A product reply performs `ReplaceFirst`. |
| AuctionCache.AuctionService.FetchProductWithBids | Front/services/auctionService.ts:68-88 | An error reply leaves the cache alone. A product reply performs `Upsert`, after which `getProductById` finds it. |
| BidForm.ValidateBidForm | Front/components/ProductPage.tsx:161-186 | Each message holds exactly when the earlier checks pass and its own fails: missing field, then phone pattern, then an amount that is blank, not a number or below price + 1. An accepted form sends first + " " + last, the phone, and an amount above the price. |
| BidForm.FormAcceptedServerAccepts | Front/components/ProductPage.tsx:173-180 | A request the form accepts against the server's current, non-negative price is accepted by the server's rule. |
| BidForm.StalePriceRefused | Front/components/ProductPage.tsx:173-180 | If the form's price is stale and the server's price is at least the amount, the server refuses the request as too low. |
| BidForm.NameShownAsTyped | Front/components/ProductPage.tsx:186 | The bid list shows the name exactly as the form sent it, though the server stores it split. |
| Carousel.Next | Front/components/ProductPage.tsx:111-113 | It is `NaN` exactly for a `NaN` index or no images. Otherwise the index stays in [0, n), advances by one, and wraps from n-1 to 0. |
| Carousel.Prev | Front/components/ProductPage.tsx:115-119 | It is `NaN` exactly for a `NaN` index or no images. Otherwise the index stays in [0, n), goes back by one, and wraps from 0 to n-1. |
| Carousel.PrevAfterNext | SAADI-BOUFENISSA-AROUS-PROJET-DevOps/Front/components/ProductModal.tsx:55-63 | Going back after going forward returns to the same image. |
| Carousel.NextAfterPrev | SAADI-BOUFENISSA-AROUS-PROJET-DevOps/Front/components/ProductModal.tsx:55-63 | Going forward after going back returns to the same image. |
| Carousel.ForwardWraps | Front/components/ProductPage.tsx:111-113 | k steps forward from image i land on image (i + k) mod n. |
| Carousel.FullTurn | Front/components/ProductPage.tsx:111-113 | n steps forward return to the starting image. |
| Carousel.Swipe | Front/components/ProductPage.tsx:130-146 | Positions are real numbers, as `clientX` may be fractional. Nothing happens exactly when a position is the falsy 0. A distance over 50 px means next, under -50 px means previous, anything else means stay. |
| Carousel.SwipeMirror | Front/components/ProductPage.tsx:133-135 | The gesture reversed is the opposite move, and a stay remains a stay. |
| Countdown.Decompose | Front/components/ProductCard.tsx:21-28 | It is "ended" exactly when the time left is <= 0. Otherwise hours < 24, minutes < 60, seconds < 60, and the reading is within one second below the time left. |
| Countdown.Reconstruct | Front/components/ProductPage.tsx:44-49 | d·86400000 + h·3600000 + m·60000 + s·1000 <= time left < that + 1000, with the bounds above. |
| ProductCard.DisplayedBidCount | Front/components/ProductCard.tsx:86 | A reported count is shown as is, 0 included. Otherwise the length of the bid list is shown. |
| ProductCard.CardCountsStoredBids | Front/components/ProductCard.tsx:86 | Fed from either the list or the page, the card shows the number of stored bids. |
| ProductCard.ProductLink | Front/components/ProductCard.tsx:40 | The link is `/product/` followed by decimal digits only. |
| ProductCard.LinkNamesListing | Front/components/ProductCard.tsx:40 | The id reads back from the link, so different listings get different links. |
| AdminForm.ValidateProductForm | Front/pages/AdminPage.tsx:266-280 | A missing field is reported exactly when the title, description or end time is empty; the starting price is not checked. A blank image is reported exactly when those are present and an entry is blank. Every url sent is non-blank. |
| AdminForm.SentImagesAreEntries | Front/pages/AdminPage.tsx:280 | Once the blank check passes, the urls sent are the entries exactly, in order. |
| AdminForm.AddImageField | Front/pages/AdminPage.tsx:290-295 | One longer; earlier entries unchanged; the new last entry is empty. |
| AdminForm.RemoveImageField | Front/pages/AdminPage.tsx:297-302 | Exactly position k is removed and the others keep their order. An index outside the list changes nothing. |
| AdminForm.UpdateImage | Front/pages/AdminPage.tsx:304-309 | Only position k changes and the length is the same. An index outside the list changes nothing. |
| AdminForm.InitialImages | Front/pages/AdminPage.tsx:483 | The listing's images when it has any, otherwise one empty entry. |
| AdminForm.ImageListNeverEmpty | Front/pages/AdminPage.tsx:421 | Remove is offered only when there is more than one entry, so no sequence of offered edits empties the list. |
| HomeSearch.FilterByTitle | SAADI-BOUFENISSA-AROUS-PROJET-DevOps/Front/pages/HomePage.tsx:30-32 | Every result's lower-cased title contains the lower-cased term. Every matching product is kept. The result is no longer than the input. |
| HomeSearch.SearchKeepsOrder | SAADI-BOUFENISSA-AROUS-PROJET-DevOps/Front/pages/HomePage.tsx:30 | The results are a subsequence of the products: order is kept. |
| HomeSearch.EmptyTermShowsAll | SAADI-BOUFENISSA-AROUS-PROJET-DevOps/Front/pages/HomePage.tsx:30-32 | An empty term shows every product. |
| BidPanel.LastBidIsHighest | SAADI-BOUFENISSA-AROUS-PROJET-DevOps/Front/components/ProductModal.tsx:124 | On a page object, the last bid exists exactly when the listing has bids. It is then the highest bid, and its amount is the current price. |
| BidPanel.Panel.constructor | SAADI-BOUFENISSA-AROUS-PROJET-DevOps/Front/components/ProductModal.tsx:26-41 | The panel starts on the first image, with no touch, no message and an empty form proposing price + 1000. |
| BidPanel.Panel.Sync | SAADI-BOUFENISSA-AROUS-PROJET-DevOps/Front/components/ProductModal.tsx:44-53 | The product is always taken. The proposed amount is reset to price + 1000 only when the listing id changes, and otherwise the form is untouched. |
| BidPanel.Panel.NextImage | Front/components/ProductPage.tsx:111-113 | The index becomes `Next` of the old index. |
| BidPanel.Panel.PrevImage | Front/components/ProductPage.tsx:115-119 | The index becomes `Prev` of the old index. |
| BidPanel.Panel.SelectImage | Front/components/ProductPage.tsx:253 | A dot click shows that image. |
| BidPanel.Panel.TouchStart | Front/components/ProductPage.tsx:122-124 | The start position, possibly fractional, is recorded. |
| BidPanel.Panel.TouchMove | Front/components/ProductPage.tsx:126-128 | The end position, possibly fractional, is recorded. |
| BidPanel.Panel.TouchEnd | Front/components/ProductPage.tsx:130-146 | A gesture with a falsy position changes nothing. Otherwise the carousel moves as `Swipe` says and both positions return to 0. |
| BidPanel.Panel.Submit | Front/components/ProductPage.tsx:156-182 | Both messages are cleared. A failing check is shown and no request is made; a passing one yields exactly the validated request. |
| BidPanel.Panel.BidAccepted | Front/components/ProductPage.tsx:192-197 | The returned product is shown with success, and the proposed amount becomes its price + 1000. |
| BidPanel.Panel.BidRefused | Front/components/ProductPage.tsx:198-199 | The error shown is the server's message, or the default message when there is none. |

## Left out

- Transactions, connection handling and concurrency. Each request is one atomic step, and a refused request leaves every table as it was. The race between two concurrent bidders cannot be expressed in a sequential model.
- AuctionDb.Database.PlaceBid: the source commits the new bid before it reads the listing back for the reply (`Back/controllers/BidController.js:54-98`). If one of those reads fails, or the listing was deleted in between, the source answers 500 "Failed to place bid" although the bid stays stored. The model's read-back cannot fail, so it always answers with the new page after storing.
- SQL text, the connection pool, the Express server and the routes. The SQL queries become functions over `Tables`.
- The database schema is not part of this model. The model assumes:
  - foreign keys from bids and images to products, with `ON DELETE CASCADE`;
  - `active` defaults to true;
  - `created_at` defaults to the insertion time, which is the parameter `now`;
  - serial ids start at 1.
- Network calls, `EventTarget` events and the admin client service (`adminService.ts`). Each reply is a `Result` parameter.
- JSX rendering, React effects, timers, `Date.now`, scrolling and navigation. The time left is a parameter of `Countdown.Decompose`.
- Locale and number formatting (`toLocaleString`, `Intl.NumberFormat`).
- The admin list's end time as an ISO string (`toISOString`). End times are kept as milliseconds throughout.
- `toLowerCase` is the function parameter `lower` of the search.
- `Number(...)` on the amount field is abstracted as `FormAmount`: blank, a whole number, or not a number.
- `parseFloat` of numeric columns, fractional amounts and the string/number coercion in `amount <= currentPrice`. Amounts are whole `int`s.
- `handleInputChange` is not modelled: the form's fields are whatever the caller passes in.
- `isSubmitting` and the loading flags only disable buttons; they are not modelled.
- `getProducts` returns the cache array itself, so a caller can alias and mutate it. This model's cache is a value (`AuctionService.products`), and that aliasing is not captured.
- The back end never refuses a bid placed after the end time. The model does not add such a check.
- Catalog.Categories: names are compared by code point. The database orders them by its collation, which may place accented or capitalised names elsewhere.
- AuctionDb.Database.UpdateProduct: a request body that omits a field makes the source write NULL into that column. `ProductInput` always carries every field, so that case is not represented. The edit form keeps every field in its state and sends all of them (`Front/pages/AdminPage.tsx:477-485`, `Front/pages/AdminPage.tsx:505-508`).
- Catalog.ImagesOf: the database leaves the order of image rows with equal display order unspecified. The model sorts stably, which matters only when rows share a display order; the admin writes never create such rows.
