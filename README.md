# A verified model of the notification relay, shop and account logic of mystical-zhara-journey

mystical-zhara-journey is a site for an air-conditioning service. It has a
React front end, an Express/MySQL back end and a Telegram bot that relays
customer requests and orders to the shop owner. This project models in
Dafny the logic under that plumbing and proves what it promises:

- **The relay bot** (`src/Server/telegrambot.py`, module `TelegramBot`):
  - how a fetch response is normalised;
  - the total renderer for order and consultation messages;
  - the poll tick over the registered chat and the seen-id set, with its
    compaction from more than 1000 ids down to 500;
  - the manual check and `/start`.
- **The plain message builder** (`bot/handler.py`, `BotHandler`).
- **The admin's notification page** (`src/pages/AdminNotifications.tsx`,
  `AdminNotifications`):
  - order classification, the unread badge and expand toggling;
  - the parser of the marker-text order description: sections split on
    `======`, `[Товар N]` blocks, `▶ …:` and `• …:` lines, and the
    product id after `/shop/`. Hand-written matchers stand in for the
    regular expressions.
- **Pricing** (`Pricing`): `Math.round`, `toFixed(2)` and the discount
  price shared by the pages.
- **Catalogue pages:**
  - the price list (`PriceList`);
  - the shop filter (`Shop`);
  - the image carousel (`Carousel`);
  - the product page's normalisation of specs and images (`ProductDetails`);
  - the product card (`ProductCard`);
  - the admin panel's local updates (`AdminPanel`).
- **Product routes:**
  - the image-slot and discount logic of `src/Server/ProductRoutes.js`
    (`ProductRoutes`, over the table of `Catalog`);
  - the image routes of `src/Server/routes/products.js` (`ProductApi`).
- **Spec-list and image editing** in the edit form and the add dialog:
  `SpecList`, `ProductEditForm`, `AddProductDialog`.
- **The account life cycle:**
  - over a users table with the token in the row
    (`src/Server/UserRoutes.js`, `UserRoutes`);
  - over users plus a separate tokens table (`src/Server/routes/auth.js`,
    `AuthRoutes`).
- **Small page state machines:** password reset (`PasswordReset`),
  account verification (`AccountVerification`), the cookie banner
  (`CookieConsent`).

The shared modules are:

- `Wrappers`: `Option`.
- `Text`: search, split and join, strip, and number rendering.
- `Seqs`: filter, subsequence, and the first matching index, which stands in
  for `SELECT … results[0]`.
- `Js`: JavaScript values, numbers with `NaN`, and truthiness.
- `Fetch`: how a page reads a `fetch` reply.

State the source updates in place becomes a class, with `modifies` on its
methods:

- the bot's `Relay`;
- each page's component state;
- the database tables (`Catalog.Store`, `UserRoutes.UserTable`,
  `AuthRoutes.AuthStore`).

Pure computations become functions with lemmas.

Everything outside the program's own logic is a parameter:

- **Data sources:** the HTTP fetch, the database's answers (rows, a failed
  query or update), saving an uploaded image, and sending mail or a
  Telegram message.
- **Libraries and runtime:** bcrypt, the random token, the clock (an
  integer in milliseconds), `JSON.parse`/`JSON.stringify`, `Number`,
  `parseFloat` and date parsing.

The database answers come in as an outcome value or flags. The parsers
come in as functions.

Prices are integers. Percentages and discounts are reals.

- `Math.round(x)` is ⌊x + ½⌋.
- `toFixed(2)` rounds half away from zero on hundredths.
- JavaScript's `%` is modelled by `Carousel.JsRem`, whose sign follows the
  dividend.

Tables are sequences or maps in insertion order. A `SELECT` that takes the
first row is `Seqs.FirstIndex`.

## Model

| member | source | states |
|---|---|---|
| TelegramBot.Fetch | src/Server/telegrambot.py:48-60 | A 200 answer whose JSON is a list gives that list. Any other 200 JSON value gives a one-element list. A failure, a non-200 status or an unparsable body gives `[]`. |
| TelegramBot.NoDescriptionIsConsultation | src/Server/telegrambot.py:67-71 | A record without a description gets the default "—", so it is never classified as an order. |
| TelegramBot.DateText | src/Server/telegrambot.py:74-80 | A missing or unparsable `createdAt` (after "Z" is replaced by "+00:00") renders "Неизвестно". A parsable one renders the parser's text. |
| TelegramBot.NumberedBlocksAppend | src/Server/telegrambot.py:89-95 | For any block rendering, appending an item appends exactly its block, numbered after the earlier ones. |
| TelegramBot.ItemLinesAppend | src/Server/telegrambot.py:89-95 | Item lines are built item by item. Appending an item appends exactly its block, numbered after the earlier ones. |
| TelegramBot.RenderItems | src/Server/telegrambot.py:89-95 | The loop that accumulates `items_text` yields the item lines of all items numbered from 1, each with quantity, price and price × quantity. |
| TelegramBot.ItemsFallback | src/Server/telegrambot.py:96-103 | Without items, the text is the first `======` section containing "ЗАКАЗАННЫЕ ТОВАРЫ", with the heading removed everywhere and stripped. With no such section it is "Информация о товарах недоступна". |
| TelegramBot.TotalDigits | src/Server/telegrambot.py:106 | Removing the group separators from a non-zero total's rendering gives the number's decimal digits followed by "₽". |
| TelegramBot.TotalGroups | src/Server/telegrambot.py:106 | A non-zero total renders as its sign, then digit groups separated by single spaces (a leading group of one to three digits, every later group exactly three), then " ₽". |
| TelegramBot.FormatLayout | src/Server/telegrambot.py:71-130 | The order layout (title "🛒 НОВЫЙ ЗАКАЗ") is chosen exactly when the description contains the order marker, otherwise the consultation layout. Both end with the date text. |
| TelegramBot.LayoutsDiffer | src/Server/telegrambot.py:108-130 | An order and a consultation never render to the same message. |
| TelegramBot.Messages | src/Server/telegrambot.py:155-157 | One send per record to the registered chat, in order, each carrying that record's rendering. |
| TelegramBot.MessagesAppend | src/Server/telegrambot.py:155-157 | Sending a batch one record longer appends exactly that record's message. |
| TelegramBot.KeysOf | src/Server/telegrambot.py:146 | The de-duplication key of each record: its id, or its text form when it has none. |
| TelegramBot.BatchIgnoresLater | src/Server/telegrambot.py:144-149 | Whether a record is selected depends only on the seen set up to its own position in the batch. |
| TelegramBot.AdmitBound | src/Server/telegrambot.py:149-153 | After each insertion the seen set holds at most 1000 keys. When compaction fires it holds exactly 500. |
| TelegramBot.StaysSeen | src/Server/telegrambot.py:147-153 | A key in the seen set stays there until a compaction happens. |
| TelegramBot.DeliveredTwiceNeedsCompaction | src/Server/telegrambot.py:146-153 | At most once while retained: a key selected twice in a run had a compaction in between. |
| TelegramBot.NotResent | src/Server/telegrambot.py:146-149 | A key already seen at the start of a run is not selected again as long as no compaction happens. |
| TelegramBot.MarkedWhenSelected | src/Server/telegrambot.py:147-149 | A selected key is in the seen set right after its step unless that step compacted. This is the marking that precedes any send. |
| TelegramBot.AdmitTraceAppend | src/Server/telegrambot.py:144-153 | The de-duplication of two consecutive batches is the de-duplication of their concatenation. |
| TelegramBot.SubsetOfSize | src/Server/telegrambot.py:153 | Compaction is possible: every set has a subset of each smaller size. |
| TelegramBot.SentCount | src/Server/telegrambot.py:155-158 | With no send failure the whole batch goes out. A failure at position k stops after the first k sends. |
| TelegramBot.Relay.constructor | src/Server/telegrambot.py:21-22 | At start no chat is registered and nothing has been seen. |
| TelegramBot.Relay.Start | src/Server/telegrambot.py:30-34 | `/start` registers the asking chat, leaves the seen set alone and replies with the ready message. |
| TelegramBot.Relay.ManualCheck | src/Server/telegrambot.py:39-45 | "Нет новых уведомлений." goes to the asker exactly when the fetch is empty. Otherwise every fetched record is sent to the registered chat. The check neither reads nor writes the seen set. |
| TelegramBot.Relay.Note | src/Server/telegrambot.py:146-152 | One record's key: it is new exactly when it was not in the seen set, and the seen set takes one admissible step (unchanged, the key added, or cut to 500 entries past 1000). |
| TelegramBot.Relay.Mark | src/Server/telegrambot.py:144-153 | The de-duplication loop: the seen set moves along an admissible trace, and the selected records are exactly the batch the trace determines, in fetch order. |
| TelegramBot.Relay.Tick | src/Server/telegrambot.py:133-159 | Without a chat nothing changes and nothing is sent. Otherwise every new record is marked seen, and the sends are the selected records in order, cut off at the first failing send, with the marks kept. |
| TelegramBot.SendAll | src/Server/telegrambot.py:155-157 | The send loop sends the first `count` records of the batch in order. |
| BotHandler.BuildMessage | bot/handler.py:6-10 | The message is the title, content and timestamp lines, plus the "ℹ️" line exactly when the additional info is non-empty. |
| BotHandler.MessageOpening | bot/handler.py:6-7 | The message starts with "📢 *title*\n\n", followed by the content and "\n\n". |
| BotHandler.InfoLineAppended | bot/handler.py:9-10 | Non-empty additional info appends exactly one "ℹ️ info\n" line. Empty info adds nothing. |
| BotHandler.EndsWithTimestamp | bot/handler.py:8-10 | Without additional info the message ends with "🕒 timestamp\n". |
| AdminNotifications.OrderClassificationAgrees | src/pages/AdminNotifications.tsx:73-75 | The page and the bot classify the same description the same way: an order exactly when it contains the marker. |
| AdminNotifications.BadgeIffUnread | src/pages/AdminNotifications.tsx:86-88 | The badge is shown exactly when the unread count is positive. |
| AdminNotifications.Toggled | src/pages/AdminNotifications.tsx:65-70 | Only the entry for `id` flips, a missing entry counting as collapsed. Every other entry is kept and no other key appears. |
| AdminNotifications.ToggleTwice | src/pages/AdminNotifications.tsx:65-70 | Toggling twice restores every entry's expanded state. |
| AdminNotifications.NotificationsPage.constructor | src/pages/AdminNotifications.tsx:16 | Nothing is expanded at first. |
| AdminNotifications.NotificationsPage.ToggleExpand | src/pages/AdminNotifications.tsx:65-70 | `toggleExpand` replaces the map with the toggled one. |
| AdminNotifications.FirstCapture | src/pages/AdminNotifications.tsx:228-232 | The first position after `from` where the label is followed by a non-empty capture, and no earlier one. None exactly when there is no such position. |
| AdminNotifications.Capture | src/pages/AdminNotifications.tsx:228-232 | A `label([^\n]+)` match: found exactly when some position holds the label followed by an allowed character. The capture is the longest run of allowed characters after the leftmost such label, ending at a disallowed character or the end. |
| AdminNotifications.NoTagNoCapture | src/pages/AdminNotifications.tsx:228-238 | Text without the label has no match. |
| AdminNotifications.CaptureRoundTrip | src/pages/AdminNotifications.tsx:228-232 | A value written after its label, ended by a disallowed character or the end, is read back exactly. |
| AdminNotifications.ItemBodies | src/pages/AdminNotifications.tsx:215-216 | The captures of `\[Товар \d+\]([^[]+)` in order. Each is a non-empty text without '['. |
| AdminNotifications.NoOpenNoItems | src/pages/AdminNotifications.tsx:215-220 | A section without "[Товар " has no item blocks, so the page shows "Список товаров пуст". |
| AdminNotifications.ItemBodiesOfBlocks | src/pages/AdminNotifications.tsx:215-216 | Parsing a concatenation of `[Товар n]body` blocks gives back exactly their bodies, in order. |
| AdminNotifications.ProductId | src/pages/AdminNotifications.tsx:241-247 | A product id exists exactly when the URL is non-empty and contains `/shop/` followed by a digit. It is then a non-empty run of digits. |
| AdminNotifications.ProductIdOfLink | src/pages/AdminNotifications.tsx:241-247 | The link to `/shop/n` yields product id n, written in decimal. |
| AdminNotifications.ItemViewOf | src/pages/AdminNotifications.tsx:225-247 | The product id is the one read from the item's link, and an item shows a product link only when it has a URL. |
| AdminNotifications.ItemViewFields | src/pages/AdminNotifications.tsx:228-238 | Each field is its label's capture, or its default when the label does not match: "Неизвестный товар" for the name, "" for quantity, price and sum, null for the URL. A found URL is trimmed. |
| AdminNotifications.NoArrowNoCapture | src/pages/AdminNotifications.tsx:228-232 | Text without "▶ " matches none of the item labels. |
| AdminNotifications.ItemDefaults | src/pages/AdminNotifications.tsx:234-238 | Field by field: an item whose text lacks a label shows that field's default; without the link label there is no URL and no product id. |
| AdminNotifications.ItemWithoutLines | src/pages/AdminNotifications.tsx:225-238 | An item without any "▶ " line shows "Неизвестный товар", an empty quantity, price and sum, and no URL or link. |
| AdminNotifications.ItemsViewOf | src/pages/AdminNotifications.tsx:210-225 | With no items section nothing is rendered. A section without blocks gives the empty-list message. Otherwise there is one entry per block, and entry k is the view of block k's text. |
| AdminNotifications.ItemsViewOfRendered | src/pages/AdminNotifications.tsx:210-238 | For an items section made of a heading and rendered item blocks, the view has one entry per item, and entry k is the view of item k's body. |
| AdminNotifications.LabelledValue | src/pages/AdminNotifications.tsx:290-308 | Address, total and customer name are null without their section. With it, a value is found exactly when the section holds the label followed by a character other than a newline, and it is a non-empty single-line value. |
| AdminNotifications.LabelledValueOfLine | src/pages/AdminNotifications.tsx:290-308 | A value written on its label's line in the section, with the label's first occurrence there, is read back exactly. |
| AdminNotifications.LabelledValueMissing | src/pages/AdminNotifications.tsx:290-308 | A section without the label gives null. |
| AdminNotifications.CommentsOf | src/pages/AdminNotifications.tsx:311-316 | Comments are null without the section and never equal "Комментариев нет". |
| AdminNotifications.ParseOrder | src/pages/AdminNotifications.tsx:201-207 | The "no information" message appears exactly for an empty description. |
| AdminNotifications.CommentsRoundTrip | src/pages/AdminNotifications.tsx:311-316 | A stripped comment other than "Комментариев нет" written under the heading is read back exactly. |
| Pricing.Round | src/pages/PriceList.tsx:67 | `Math.round`: the integer within half of x, halves rounded up. |
| Pricing.RoundMonotone | src/pages/PriceList.tsx:67 | Rounding preserves order. |
| Pricing.RoundInteger | src/pages/PriceList.tsx:67 | Rounding leaves integers unchanged. |
| Pricing.Fixed2 | src/pages/AdminPanel.tsx:130-134 | `toFixed(2)`: a whole number of hundredths, within half a hundredth of x. |
| Pricing.Fixed2Nearest | src/pages/AdminPanel.tsx:130-134 | No whole number of hundredths is closer to x than the result. |
| Pricing.Fixed2Idempotent | src/pages/AdminPanel.tsx:130-134 | Rounding to hundredths twice is rounding once. |
| Pricing.DiscountPrice | src/pages/ProductDetails.tsx:134-140 | An invalid percentage (NaN or negative) leaves the price. Otherwise the price is Math.round(price × (1 − p/100)). |
| Pricing.DiscountZero | src/pages/ProductDetails.tsx:134-140 | A 0% discount keeps the price. |
| Pricing.DiscountBounds | src/pages/ProductDetails.tsx:134-140 | For 0 ≤ p ≤ q ≤ 100, the discounted price lies between 0 and the price and falls as the percentage grows. |
| PriceList.UpdatePrices | src/pages/PriceList.tsx:57-71 | An invalid percentage returns the data unchanged. The number of categories is always kept. |
| PriceList.UpdatePricesItems | src/pages/PriceList.tsx:63-70 | Every category keeps its fields and its items in order. Each item keeps its service, its `oldPrice` becomes the old price, and its price becomes the discount price. |
| PriceList.UpdatePricesBounds | src/pages/PriceList.tsx:66-68 | For 0 ≤ p ≤ 100, every new price lies between 0 and the old price. |
| PriceList.ZeroPercentKeepsPrices | src/pages/PriceList.tsx:66-68 | A 0% update keeps every price. |
| PriceList.Restore | src/pages/PriceList.tsx:63-70 | Moving each `oldPrice` back keeps the number of categories. |
| PriceList.RestoreUpdatePrices | src/pages/PriceList.tsx:63-70 | On data without old prices, restoring after `updatePrices` gives the data back. |
| PriceList.FilteredCategories | src/pages/PriceList.tsx:74-90 | "full" returns every category. "basic" returns, in order, exactly the categories among the four basic names. |
| PriceList.Rendered | src/pages/PriceList.tsx:150-153 | A zero discount renders the categories as they are. Any other discount renders them through `updatePrices`. |
| PriceList.UpdatePricesCommutesWithFilter | src/pages/PriceList.tsx:82-90 | Discounting then filtering equals filtering then discounting. |
| PriceList.PriceListPage.constructor | src/pages/PriceList.tsx:28-30 | The page starts with discount 0, no categories and the basic view. |
| PriceList.PriceListPage.GetPrice | src/pages/PriceList.tsx:33-52 | A non-empty answer sets the discount from its first record and the categories to the rest, in order. A failed or empty answer changes nothing. |
| PriceList.PriceListPage.SetViewMode | src/pages/PriceList.tsx:110 | Switching the tab changes only the view mode. |
| PriceList.LoadedPageShows | src/pages/PriceList.tsx:43-48 | After loading, the basic view shows the basic categories of the records after the header, discounted by the header's discount when it is non-zero. |
| Shop.Loaded | src/pages/Shop.tsx:39-45 | A failed fetch gives no products; otherwise the fetched list. |
| Shop.FilteredProducts | src/pages/Shop.tsx:52-59 | The result is an order-preserving subsequence. Every kept product matches the category ("all" matches all) and lies within each non-empty bound, and every matching product is kept. A non-empty bound that is NaN keeps nothing. |
| Shop.NoFilterShowsAll | src/pages/Shop.tsx:53-56 | Category "all" with empty bounds shows every product. |
| Shop.FilteredSplits | src/pages/Shop.tsx:52-59 | Filtering works product by product: filtering a concatenation concatenates the results. |
| Shop.CategoryNarrows | src/pages/Shop.tsx:53 | Choosing a category keeps a subsequence of what "all" shows. |
| Carousel.JsRem | src/components/product/ProductImageCarousel.tsx:17-23 | JavaScript `%`: a non-negative dividend gives the remainder in [0, n); a negative one gives a result in (−n, 0]. |
| Carousel.NextIndex | src/components/product/ProductImageCarousel.tsx:17-19 | The next index stays in [0, n), steps up by one and wraps to 0 after the last. |
| Carousel.PrevIndex | src/components/product/ProductImageCarousel.tsx:21-23 | The previous index stays in [0, n), steps down by one and wraps to n − 1 from 0. |
| Carousel.NextPrevInverse | src/components/product/ProductImageCarousel.tsx:17-23 | Previous after next, and next after previous, give the original index. |
| Carousel.NextTimes | src/components/product/ProductImageCarousel.tsx:14-19 | Any number of steps forward stays in [0, n). |
| Carousel.NextTimesFromStart | src/components/product/ProductImageCarousel.tsx:14-19 | k steps forward from the first image reach k mod n. |
| Carousel.Carousel.constructor | src/components/product/ProductImageCarousel.tsx:14 | A carousel over a non-empty list starts at image 0. |
| Carousel.Carousel.Next | src/components/product/ProductImageCarousel.tsx:17-19 | `nextImage` moves to the next index and keeps the index valid. |
| Carousel.Carousel.Previous | src/components/product/ProductImageCarousel.tsx:21-23 | `previousImage` moves to the previous index and keeps the index valid. |
| Carousel.Carousel.Dots | src/components/product/ProductImageCarousel.tsx:54-60 | One dot per image, and exactly the dot at the current index is highlighted. |
| Js.Or | src/pages/ProductDetails.tsx:181-185 | `a \|\| b` is a when a is truthy, else b. |
| ProductDetails.CommaSpecs | src/pages/ProductDetails.tsx:53 | The comma fallback gives one spec per comma-separated piece. |
| ProductDetails.Specs | src/pages/ProductDetails.tsx:46-58 | A falsy field gives `[]` and an array is kept. A non-empty string is JSON-parsed, falling back to the comma split. Any other value gives `[]`. |
| ProductDetails.CommaSpecsRoundTrip | src/pages/ProductDetails.tsx:50-53 | Trimmed specs without commas, joined with commas and not valid JSON, are read back as the same list. |
| ProductDetails.SpecsToRender | src/pages/ProductDetails.tsx:188 | The specs rendered are the array's elements, or none when specs is not an array. |
| ProductDetails.ImagesPrecedence | src/pages/ProductDetails.tsx:61-72 | A truthy `images` field decides alone, whatever `image` holds. An unparsable `images` string becomes a one-element list of itself. |
| ProductDetails.LegacyImageText | src/pages/ProductDetails.tsx:73-87 | Without `images`, a non-empty `image` string gives an array: the parsed array when it parses to one, else `[image]`. |
| ProductDetails.CarouselImages | src/pages/ProductDetails.tsx:181-185 | The carousel list is never empty. It is `images` if that is a non-empty array, else `image` if that is one, else `[image \|\| '/placeholder.jpg']`. |
| ProductDetails.CartImageIsFirstSlide | src/pages/ProductDetails.tsx:114-118 | The image put in the cart is the carousel's first image. |
| ProductDetails.EditFormOf | src/pages/ProductDetails.tsx:93-101 | The edit form carries the normalised specs and images. A falsy price becomes "0" and a string price is kept. |
| ProductDetails.EditFormTextDefaults | src/pages/ProductDetails.tsx:93-101 | No text field of the edit form is undefined or null. For each of name, description, full description and category, a falsy value becomes "" and a truthy one is kept. |
| ProductDetails.NoStrikeFullPrice | src/pages/ProductDetails.tsx:216-222 | When no strike-through is shown, the price shown is the full price. |
| ProductDetails.StrikeLowersPrice | src/pages/ProductDetails.tsx:216-222 | When the strike-through is shown (discount at most 100), the price shown lies between 0 and the full price. |
| ProductCard.CardDiscount | src/components/shop/ProductCard.tsx:89 | The card's discount is always a number: the given non-zero discount, or 0 when it is missing, zero, falsy or NaN. |
| ProductCard.Initial | src/components/shop/ProductCard.tsx:30-33 | The initial product data is the given product with its discount replaced by `discount || 0`: a non-zero number is kept, anything else becomes 0. Every other field is kept. |
| ProductCard.CardDiscountIdempotent | src/components/shop/ProductCard.tsx:30-33 | Defaulting an already defaulted discount changes nothing. |
| ProductCard.Shown | src/components/shop/ProductCard.tsx:35-48 | A failed fetch falls back to the initial data; otherwise the fetched product. |
| ProductCard.ImageUrlShape | src/components/shop/ProductCard.tsx:74-87 | The image URL is either the placeholder or starts with the server's address. |
| ProductCard.ImageUrlOfStoredPaths | src/components/shop/ProductCard.tsx:74-87 | A stored JSON list of paths gives the server's address followed by the first path. |
| ProductCard.ImageUrlFallback | src/components/shop/ProductCard.tsx:74-87 | Text that does not parse to a non-empty array gives the placeholder. |
| ProductCard.CardAgreesWithPage | src/components/shop/ProductCard.tsx:91-96 | The card shows the same price as the product page for the same discount, and shows the original price exactly when the page shows the strike-through. |
| AdminPanel.ToggledSelect | src/pages/AdminPanel.tsx:136-140 | `selected` flips on the products with that id only. Length, order and every other field are kept. |
| AdminPanel.ToggleSelectTwice | src/pages/AdminPanel.tsx:136-140 | Toggling twice restores the list. |
| AdminPanel.WithDiscount | src/pages/AdminPanel.tsx:130-134 | Only the matching products' discount changes, to the value rounded to hundredths. |
| AdminPanel.WithDiscountStable | src/pages/AdminPanel.tsx:130-134 | Re-entering the rounded value changes nothing. |
| AdminPanel.Discounted | src/pages/AdminPanel.tsx:149-153 | Target "all" sets every discount. "selected" sets only the selected products' discount and leaves the others untouched. |
| AdminPanel.SelectedMatchesAll | src/pages/AdminPanel.tsx:149-153 | With every product selected the two targets agree. With none selected, "selected" changes nothing. |
| AdminPanel.WithStatus | src/pages/AdminPanel.tsx:103-113 | Only the matching order's status changes. |
| AdminPanel.WithStatusOverrides | src/pages/AdminPanel.tsx:103-113 | The later of two status updates wins. |
| AdminPanel.StatusBadge | src/pages/AdminPanel.tsx:191-199 | An unknown status is shown as itself with the default variant. |
| AdminPanel.StatusLabelsDistinct | src/pages/AdminPanel.tsx:191-199 | The four known statuses get four different labels, none equal to the status name. |
| AdminPanel.DisplayedPriceRounds | src/pages/AdminPanel.tsx:299 | The panel's unrounded price price − price × d/100, once rounded, is the shop's discount price. |
| AdminPanel.Panel.constructor | src/pages/AdminPanel.tsx:57-61 | The panel starts empty, with no input and target "all". |
| AdminPanel.Panel.ToggleSelect | src/pages/AdminPanel.tsx:136-140 | `toggleSelect` applies `ToggledSelect` and changes nothing else. |
| AdminPanel.Panel.UpdateDiscount | src/pages/AdminPanel.tsx:130-134 | `updateDiscount` applies `WithDiscount` and changes nothing else. |
| AdminPanel.Panel.ApplyDiscount | src/pages/AdminPanel.tsx:142-174 | A non-numeric input sends nothing and leaves the products. Otherwise the products are discounted for the chosen target before any answer, and the new list is sent. |
| AdminPanel.Panel.UpdateOrderStatus | src/pages/AdminPanel.tsx:94-120 | On success only that order's status changes. On failure the orders are unchanged. |
| Catalog.SpecsText | src/Server/ProductRoutes.js:32 | Specs are stored as JSON text exactly when truthy, else NULL. |
| Catalog.Store.constructor | src/Server/ProductRoutes.js:30-31 | An empty products table whose first id is 1. |
| Catalog.Store.Insert | src/Server/ProductRoutes.js:30-38 | `INSERT` stores the row under a fresh id and changes nothing else. |
| ProductRoutes.UploadPaths | src/Server/ProductRoutes.js:28 | One stored path per uploaded file. |
| ProductRoutes.UploadPathsNames | src/Server/ProductRoutes.js:28 | Path k is "/uploads/" followed by file k's name. |
| ProductRoutes.PostProduct | src/Server/ProductRoutes.js:18-41 | More than three files, or a file the upload cannot store, gives 500 before the handler. Otherwise no files gives 400 and a failed insert 500, each inserting nothing. 201 exactly otherwise, with one to three files and the new row: specs as JSON or NULL, and the upload paths in order. |
| ProductRoutes.DiscountOrZero | src/Server/ProductRoutes.js:46 | An undefined discount defaults to 0; any other value is kept. |
| ProductRoutes.Updated | src/Server/ProductRoutes.js:52-56 | The update leaves the image column alone. |
| ProductRoutes.PutProduct | src/Server/ProductRoutes.js:44-68 | 400 exactly when a required field is falsy. Then 500 when the update fails, 404 when no row has the id, otherwise 200 with only that row updated. |
| ProductRoutes.PutImage | src/Server/ProductRoutes.js:101-145 | A missing file, or an index that is NaN or outside 0..2, gives 400. A 200 happens exactly when the product exists, the index is below its image count and the update succeeds. It replaces only slot `index` with the upload path. Any other answer leaves the table. |
| ProductRoutes.ApplyEntriesOnlyDiscounts | src/Server/ProductRoutes.js:239-241 | Applying a batch changes no id and no column but `discount`. |
| ProductRoutes.ApplyEntriesLastWins | src/Server/ProductRoutes.js:236-241 | A product not named in the batch is unchanged. A named one ends with the discount of its last entry, an undefined discount counting as 0, at two decimals. |
| ProductRoutes.StageEntries | src/Server/ProductRoutes.js:227-250 | The staged writes fail exactly when one write fails. When none fails they give the batch applied in order. |
| ProductRoutes.UpdateDiscountsAsWritten | src/Server/ProductRoutes.js:205-275 | A missing or empty list gives 400. A bad entry, a failed write or a failed connection gives 500 and rolls back. A failed commit is answered 200 although the rows are unchanged. |
| ProductRoutes.UpdateDiscounts | src/Server/ProductRoutes.js:205-275 | As above, but a failed commit is 500. Every 200 has applied the whole batch, and every other answer leaves the table. |
| ProductRoutes.CommitFailureReported | src/Server/ProductRoutes.js:253-264 | On a one-entry batch whose commit fails, the handler as written answers 200 and the corrected one 500, both with the table unchanged. |
| ProductApi.SlotWritten | src/Server/routes/products.js:30-32 | Writing the slot keeps the list's length. |
| ProductApi.PutImageAsWritten | src/Server/routes/products.js:10-44 | The ordered answers: an index that is not a number in range gives 400; then 500 for a failed lookup, 404 for no product, 500 for a NULL image column, 400 past the end, 500 for a failed save or update. A 200 stores the written slot. |
| ProductApi.PutImage | src/Server/routes/products.js:10-44 | With whole indices required: a fraction or NaN gives 400. Every 200 replaces exactly slot `index` and keeps the length and the other slots. Any other answer leaves the table. |
| ProductApi.FractionalIndexReported | src/Server/routes/products.js:15-17 | Index 1.5 on a two-image product is answered 200 as written and 400 as corrected, with the stored list unchanged. |
| ProductApi.KeepFulfilled | src/Server/routes/products.js:54-58 | No more paths than images. The list is empty exactly when every save failed. |
| ProductApi.KeepFulfilledAppend | src/Server/routes/products.js:54-58 | Failed saves are dropped and the order of the saved ones is kept: the result for a concatenation is the concatenation of the results. |
| ProductApi.KeepFulfilledAll | src/Server/routes/products.js:54-58 | When every save succeeds, every path is kept in order. |
| ProductApi.StoredSpecs | src/Server/routes/products.js:64-67 | Specs are stored as NULL exactly when undefined. |
| ProductApi.PostProduct | src/Server/routes/products.js:46-74 | `image` that is not an array of 1 to 3 entries gives 400. All saves failing gives 400 with nothing inserted. A 201 inserts the row with the saved paths in order; a failed insert gives 500. |
| SpecList.SpecChanged | src/components/product/ProductEditForm.tsx:47-54 | Copying the list and writing slot i sets spec i and keeps the length and every other spec. |
| SpecList.AddedSpec | src/components/product/ProductEditForm.tsx:56-61 | Adding appends exactly one blank spec after the unchanged earlier ones. |
| SpecList.AddedSpecsInOrder | src/components/shop/AddProductDialog.tsx:64-69 | Adding n times appends n blanks. |
| ProductEditForm.ImageSlots | src/components/product/ProductEditForm.tsx:214-226 | One file input per existing image, in slot order. |
| ProductEditForm.ImageChange | src/components/product/ProductEditForm.tsx:63-74 | No request without a chosen file. Otherwise the file is put to "/api/products/<id>/image". |
| ProductEditForm.UploadNamesItsSlot | src/components/product/ProductEditForm.tsx:68 | The index sent with slot k's file reads back as k, below the image count. |
| ProductEditForm.Editor.constructor | src/components/product/ProductEditForm.tsx:29-30 | The form holds the product it is given. |
| ProductEditForm.Editor.HandleSpecChange | src/components/product/ProductEditForm.tsx:47-54 | Spec i becomes the value. The length, the other specs and the other fields are kept. |
| ProductEditForm.Editor.HandleAddSpec | src/components/product/ProductEditForm.tsx:56-61 | One empty spec is appended and nothing else changes. |
| AddProductDialog.WithImages | src/components/shop/AddProductDialog.tsx:174-178 | The read images are appended after the existing ones in selection order, and nothing else changes. |
| AddProductDialog.SelectionsAccumulate | src/components/shop/AddProductDialog.tsx:161-178 | Two selections add up to one selection of both: the cap applies per selection, not to the list. |
| AddProductDialog.RequestBody | src/components/shop/AddProductDialog.tsx:29-43 | The price is sent as null exactly when it does not parse. Images and specs go as arrays of the same length and contents. |
| AddProductDialog.Dialog.constructor | src/components/shop/AddProductDialog.tsx:19-27 | The form starts with empty fields, specs `['']` and no images. |
| AddProductDialog.Dialog.HandleAddSpec | src/components/shop/AddProductDialog.tsx:64-69 | One empty spec is appended and nothing else changes. |
| AddProductDialog.Dialog.HandleSpecChange | src/components/shop/AddProductDialog.tsx:71-78 | Only spec i changes. |
| AddProductDialog.Dialog.SelectFiles | src/components/shop/AddProductDialog.tsx:156-179 | More than 3 files raise the alert and change nothing. Otherwise the images are appended. |
| AddProductDialog.Dialog.Added | src/components/shop/AddProductDialog.tsx:45-61 | Success resets the form to its initial state. An error leaves it. |
| AddProductDialog.TwoSelectionsRefused | src/components/shop/AddProductDialog.tsx:161-178 | Two selections of three files pass the per-selection cap, but the six images are refused with 400 by `POST /` in routes/products.js. |
| UserRoutes.NewUser | src/Server/UserRoutes.js:38-48 | A new account is unverified and holds its token, expiring 24 hours after creation. |
| UserRoutes.Verified | src/Server/UserRoutes.js:151-154 | Verifying sets the flag, clears the token and the expiry, and changes nothing else. |
| UserRoutes.View | src/Server/UserRoutes.js:188-189 | The login answer carries the id, name, email and admin flag of the row. |
| UserRoutes.ViewHidesSecrets | src/Server/UserRoutes.js:188-189 | The login answer does not depend on the password hash, the token or its expiry. |
| UserRoutes.RegisteredTokenVerifies | src/Server/UserRoutes.js:131-148 | A freshly registered token is found, and is not expired within its validity. |
| UserRoutes.TokenSpent | src/Server/UserRoutes.js:151-154 | After verifying, no row holds the token, so it cannot verify again. |
| UserRoutes.UserTable.constructor | src/Server/UserRoutes.js:26 | An empty table whose first id is 1. |
| UserRoutes.UserTable.Register | src/Server/UserRoutes.js:26-69 | In order: a failed lookup 500, an existing email 400, a failed insert 500, each inserting nothing. Otherwise the new unverified row is appended, and the answer is 201, or 500 when the mail fails. 201 exactly when nothing failed and the email is new. Ids and emails stay distinct. |
| UserRoutes.UserTable.ResendVerification | src/Server/UserRoutes.js:72-119 | In order: a failed lookup 500, an unknown email 404, a verified account 400, a failed update 500, each keeping the old token. Otherwise that account's token and expiry are replaced, and the answer is 200, or 500 when the mail fails. |
| UserRoutes.UserTable.VerifyAccount | src/Server/UserRoutes.js:122-161 | A missing or empty token gives 400 before any query. Then: a failed lookup 500, an unknown token 404, an expired one 400, a failed update 500. Every answer but 200 changes nothing; 200 verifies the holder. |
| UserRoutes.UserTable.Login | src/Server/UserRoutes.js:163-194 | In order: a failed lookup 500, unknown email 401, a throwing comparison 500, wrong password 401, unverified 403. 200 exactly otherwise, with the matching row's view. Nothing changes. |
| AuthRoutes.Upsert | src/Server/routes/auth.js:31-40 | The user's token row is replaced when present, else appended. |
| AuthRoutes.UpsertKeepsKeysUnique | src/Server/routes/auth.js:31-40 | Upserting keeps one token row per user, holds the new row, and keeps every other user's row. |
| AuthRoutes.DeleteToken | src/Server/routes/auth.js:128 | Exactly the rows with other tokens remain, in order. |
| AuthRoutes.DeleteKeepsValid | src/Server/routes/auth.js:128 | Deleting a token keeps one row per user and every row's user id valid. |
| AuthRoutes.MarkVerified | src/Server/routes/auth.js:120-126 | Only the rows with that id become verified. |
| AuthRoutes.MarkVerifiedIdempotent | src/Server/routes/auth.js:120-126 | Verifying twice is verifying once, and other users are untouched. |
| AuthRoutes.AuthStore.constructor | src/Server/routes/auth.js:89-97 | Empty users and tokens tables. |
| AuthRoutes.AuthStore.ResendVerification | src/Server/routes/auth.js:10-49 | In order: failed lookup 500, unknown email 404, verified 400, failed upsert 500. Otherwise the user's token row is upserted with a one-hour expiry and the answer is 200, or 500 when the mail fails. Users are never changed. |
| AuthRoutes.AuthStore.Register | src/Server/routes/auth.js:78-106 | A failed lookup, an existing email or a failed insert change nothing (500, 400, 500). Otherwise the user is inserted unverified and not admin, the token row is added unless its insert fails, and 201 exactly when nothing failed. |
| AuthRoutes.AuthStore.VerifyEmailAsWritten | src/Server/routes/auth.js:108-134 | An unknown token gives 400 and a failed update 500. Otherwise 200 marks the owner verified and deletes the token, whatever its expiry. |
| AuthRoutes.AuthStore.VerifyEmail | src/Server/routes/auth.js:108-134 | As above, but an expired token gives 400 with nothing changed. 200 exactly for a known, unexpired token and a successful update. |
| AuthRoutes.AuthStore.LoginAsWritten | src/Server/routes/auth.js:51-76 | Unknown email 401 and unverified 403. Every verified account gets 500: destructuring the resolved row as an array throws, and the comparison after it reads the absent `Password` property. |
| AuthRoutes.AuthStore.Login | src/Server/routes/auth.js:51-76 | In order: unknown email 401, unverified 403, wrong password 401. Otherwise 200 with the whole matching row. |
| AuthRoutes.AuthStore.VerifiedLoginFails | src/Server/routes/auth.js:55-67 | For a verified account with the right password, the handler as written answers 500 and the corrected one 200. |
| PasswordReset.TokenChecked | src/pages/AccountPasswordReset.tsx:18-57 | "ready" exactly when there is a token and the check answered ok; otherwise "error". |
| PasswordReset.ResetAnswered | src/pages/AccountPasswordReset.tsx:85-106 | "success" exactly when the answer reads as success; otherwise "error". |
| PasswordReset.ResetPage.constructor | src/pages/AccountPasswordReset.tsx:10-12 | The page starts loading with empty fields. |
| PasswordReset.ResetPage.CheckToken | src/pages/AccountPasswordReset.tsx:18-58 | A request is sent exactly when there is a token. The status follows `TokenChecked` and the fields are kept. |
| PasswordReset.ResetPage.SetNewPassword | src/pages/AccountPasswordReset.tsx:11 | Only the new password changes. |
| PasswordReset.ResetPage.SetConfirmPassword | src/pages/AccountPasswordReset.tsx:12 | Only the confirmation changes. |
| PasswordReset.ResetPage.HandlePasswordReset | src/pages/AccountPasswordReset.tsx:63-107 | Mismatched passwords send nothing and leave the status. Otherwise the token and password are sent and the status follows `ResetAnswered`. |
| PasswordReset.NoTokenNoReset | src/pages/AccountPasswordReset.tsx:18-27 | Without a token the page ends in "error" and never shows the submit button. |
| AccountVerification.Settled | src/pages/AccountVerification.tsx:23-66 | "success" exactly when there is a token and the answer reads as success. The page never stays loading. |
| AccountVerification.VerificationPage.constructor | src/pages/AccountVerification.tsx:11 | The page starts loading. |
| AccountVerification.VerificationPage.VerifyAccount | src/pages/AccountVerification.tsx:23-66 | A request carrying the token is sent exactly when there is a token. The status becomes `Settled`. |
| CookieConsent.ShownOnMount | src/components/common/CookieConsent.tsx:11-15 | With nothing stored the banner is shown; otherwise its visibility is left. |
| CookieConsent.Banner.constructor | src/components/common/CookieConsent.tsx:7 | The banner starts hidden. |
| CookieConsent.Banner.Mount | src/components/common/CookieConsent.tsx:9-16 | Mounting shows the banner exactly when no choice is stored. |
| CookieConsent.Banner.AcceptCookies | src/components/common/CookieConsent.tsx:18-22 | "accepted" is stored and the banner hides. |
| CookieConsent.Banner.DeclineCookies | src/components/common/CookieConsent.tsx:24-28 | "declined" is stored and the banner hides. |
| CookieConsent.ChoiceRemembered | src/components/common/CookieConsent.tsx:9-35 | A first visit shows the banner. After accepting or declining, the next visit does not. |
| Text.IndexOfFrom | src/Server/telegrambot.py:71 | Substring search: the first occurrence at or after `from`, or none exactly when there is no occurrence. |
| Text.Split | src/Server/telegrambot.py:98 | `split`: the pieces join back to the text and none contains the separator. |
| Text.SplitJoin | src/pages/AdminNotifications.tsx:207 | Splitting text joined from separator-free pieces gives the pieces back. |
| Text.FirstWith | src/Server/telegrambot.py:99 | The first piece containing the heading, and no earlier one. None exactly when no piece contains it. |
| Text.ReplaceAll | src/Server/telegrambot.py:101 | Python `replace`: text without the pattern is unchanged. |
| Text.ReplaceFirst | src/pages/AdminNotifications.tsx:314 | JavaScript `replace` with a string: text without the pattern is unchanged; otherwise one occurrence is replaced. |
| Text.TrimStart | src/Server/telegrambot.py:101 | The leading whitespace is removed, and nothing else. |
| Text.TrimEnd | src/Server/telegrambot.py:101 | The trailing whitespace is removed, and nothing else. |
| Text.StripSpec | src/Server/telegrambot.py:101 | `strip` gives the text between maximal leading and trailing whitespace. |
| Text.StripIdempotent | src/pages/AdminNotifications.tsx:314 | Stripping twice is stripping once. |
| Text.NatToString | src/Server/telegrambot.py:92 | Decimal digits without a leading zero. |
| Text.NatToStringRoundTrip | src/Server/telegrambot.py:92 | The decimal text reads back as the number. |
| Text.IntToStringInjective | src/Server/telegrambot.py:92 | Different numbers render differently. |
| Text.GroupedNatDigits | src/Server/telegrambot.py:106 | Grouping digits in threes with spaces only inserts spaces. |
| Text.JoinSnoc | src/Server/telegrambot.py:106 | Joining one more piece appends the separator and that piece. |
| Text.GroupedNatGroups | src/Server/telegrambot.py:106 | The `{:,}` rendering with spaces is the digit groups joined by single spaces: the leading group has one to three digits, every later group exactly three. |
| Text.GroupedNatSplit | src/Server/telegrambot.py:106 | Splitting the rendering at its spaces gives back exactly the digit groups. |
| Seqs.Filter | src/pages/PriceList.tsx:82-90 | `filter`: an order-preserving subsequence holding exactly the elements that pass. |
| Seqs.FilterAppend | src/pages/Shop.tsx:52-59 | Filtering a concatenation concatenates the results. |
| Seqs.FirstIndex | src/Server/UserRoutes.js:31-35 | The first row matching a `WHERE`, with no earlier match. None exactly when no row matches. |

## Left out

- **I/O:** HTTP, the database driver, multer and file storage, nodemailer
  and the Telegram API are outside the model. Their outcomes are
  parameters: a response value, failure flags, the saved path, and the
  result of a send.
- **Concurrency:** the asyncio scheduling of the bot is not modelled: the
  five-second sleep and the interleaving of commands with the poll task.
  One tick and one command are sequential methods.
- **Promise parallelism in update-discounts:** only its all-or-nothing
  outcome is modelled.
- **Floating point:** prices are integers and percentages reals. IEEE
  rounding of `Math.round`, `toFixed(2)`, `parseFloat` and `Number` is not
  modelled.
- **Library calls:** date parsing, the Moscow time zone and `strftime`
  are one partial parser parameter. `JSON.parse` and `JSON.stringify` are
  parameters too.
- **Seen-set compaction:** `set(list(s)[-500:])` keeps a subset chosen by
  CPython's iteration order. The model allows any 500-element subset.
- **A `description` that is present but null** makes the bot raise on the
  `in` test. The model's description is a string or absent.
- **Bot items:** items without a quantity or price are not modelled (in
  the source, multiplying `None` raises). Totals are integers.
- **Ids:** the bot's de-duplication keys keep numeric ids and text forms
  apart. How Python compares an int id with an equal string is not
  modelled.
- **`manual_check` send failures:** not modelled; every send succeeds.
- **Whitespace:** `strip` and `trim` remove ASCII whitespace only. The
  Unicode spaces JavaScript and Python also remove are not modelled.
- **`statusMap` prototype keys:** a status named like an `Object.prototype`
  member is not modelled.
- **Stored image columns:** a product image column holding text that is
  not JSON is not modelled. `JSON.parse` throws there, which the handler
  answers 500.
- **Null discounts in update-discounts:** a discount sent as `null`
  passes the check, since `isNaN(null)` is false, and `parseFloat` then
  gives NaN. What the database does with the text "NaN" is not modelled;
  an entry's discount is absent, a number or NaN.
- **Expiry times:** token expiry is computed as now + 24 hours (or + 1
  hour). `setHours` across a daylight-saving change is not modelled.
- **Row order:** `SELECT` answers in insertion order.
- **Concurrent requests:** concurrent registrations with the same email
  are not modelled.
- **Password hashing:** a failure of bcrypt's hash on a missing password
  is not modelled; the hash is an input.
- **Mail content:** the content and links of the mails are not modelled.
- **UI:** JSX markup, toasts, navigation, React Query caching and the
  component's fullscreen state are not modelled.
- **Carousel:** the image list changing under a mounted carousel is not
  modelled. The list is fixed at construction.
- **ProductCard's failed `json()`:** this failure is not modelled. A
  failed fetch falls back to the initial data.
- ProductEditForm.Editor.HandleSpecChange: requires the specs to be an
  array. Spreading a string or an object is not modelled.
- ProductEditForm.Editor.HandleAddSpec: requires the specs to be an
  array, for the same reason.
- **The verification page's endpoint:** the page posts to
  `/api/verify-email`, which no router mounted by `src/Server/Server.js`
  serves. Server.js:12-17 and 56-61 mount six route files: `UserRoutes.js`
  (whose route is `/api/verify-account`), `ProductRoutes.js`,
  `pricelistRoutes.js`, `blogpostsRoutes.js`, `NotificationsRoutes.js` and
  `OrderRoutes.js`. The page is modelled on its own, with the answer as a
  parameter.
- **Unmounted routers:** `src/Server/routes/products.js` (`ProductApi`) and
  `src/Server/routes/auth.js` (`AuthRoutes`) are among none of those six,
  so the server never serves them. They are modelled as written, and three
  of the four Findings below sit in this unserved code.
- **Email case:** `UserRoutes` and `AuthRoutes` find a user by exact
  equality of the email text. Under MySQL's default collation `WHERE email
  = ?` ignores letter case; the users schema is not part of this model, so
  which collation applies is not modelled.
- **Notification records that are not objects:** `fetch_notifications`
  (telegrambot.py:48-60) wraps a JSON reply that is not a list into a
  one-element list, so a record can be a string or a number, as can any
  element of a list reply.
  `notification.get` (telegrambot.py:146) then raises after the earlier ids
  of that batch were added to the seen set: nothing from the batch is sent,
  and, unless compaction later drops them, those ids are never retried.
  The `Notification` record cannot hold
  such a value, so this path is not modelled.
- ProductRoutes.PostProduct: `storageFails` stands for every error of the
  upload middleware other than a fourth file (a file over 5 MB, a disk
  error). The file filter is not part of this router.
- ProductRoutes.PutImage: a rejection by the upload middleware (a file over
  5 MB, a second file) is answered 500 by Express before the handler runs;
  this path is not modelled.

## Findings

The last three rows are in `src/Server/routes/products.js` and
`src/Server/routes/auth.js`. `src/Server/Server.js` mounts neither router,
so the server as shipped never runs this code.

| source | as written | input that shows it | evidently intended | confidence | as-written member | corrected member |
|---|---|---|---|---|---|---|
| src/Server/ProductRoutes.js:253-264 | When the commit fails, the rollback callback answers 500. Execution then falls through to `res.json(...)`, which sends success (200) at once. | a valid one-entry batch whose commit fails | answer 500 after the rollback and return | medium, not executed | ProductRoutes.UpdateDiscountsAsWritten | ProductRoutes.UpdateDiscounts |
| src/Server/routes/products.js:15-17, 30-32 | `typeof index === 'number'` admits fractions (and NaN, though a JSON body cannot carry NaN). `updatedImages[1.5] = path` creates a property that is not an element, so the list is stored unchanged. The handler still reports 200 with the new image. | index 1.5 on a product with two images | reject indices that are not whole numbers with 400 | high, not executed | ProductApi.PutImageAsWritten | ProductApi.PutImage |
| src/Server/routes/auth.js:55-67 | Two defects. Line 55 resolves a single row object (`results[0]`) and then destructures it with `const [user] = ...`; a plain object is not iterable, so this throws a TypeError, and lines 73-74 answer 500. Line 67 then compares against `user.Password`, but the column is `password` (routes/auth.js:90), so bcrypt would get `undefined` and throw. Either defect alone makes every verified login 500. | a verified account with the right password | bind the resolved row directly (`const user = ...`) and compare against `user.password`; both changes are needed | high, not executed | AuthRoutes.AuthStore.LoginAsWritten | AuthRoutes.AuthStore.Login |
| src/Server/routes/auth.js:111-129 | verify-email never consults `expires_at`, although its 400 message says the token is invalid or expired. An expired token still verifies. | a token row whose expiry lies before the request time | answer 400 for an expired token, as UserRoutes.js:143-148 does | medium, not executed | AuthRoutes.AuthStore.VerifyEmailAsWritten | AuthRoutes.AuthStore.VerifyEmail |
