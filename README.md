# Storefront core, modelled and verified in Dafny

This project models the sequential logic of a small Django clothing shop,
and proves properties of it. The model has four parts:

- **The product-description filter** `format_product_description`
  (`product_filters.dfy`). It works in four phases:
  - a line-by-line state machine with an `in_list` flag that turns bullet
    lines into `<ul>`/`<li>` blocks;
  - a second loop that joins the lines with `<br>`;
  - the bold and italic regular-expression rewrites;
  - the collapse of runs of three or more `<br>` into `<br><br>`.
- **The trending-products block** of the storefront's index view
  (`trending.dfy`). It sums the quantity of every line item per code over
  all stored orders, ranks the codes by total with a stable sort, takes the
  top six, turns each code into a product id, and lists the catalogue
  products in rank order.
- **The order model** (`shop_models.dfy`):
  - the status choices and their default;
  - the order-update summary;
  - the rendering of an order's items (`formatted_items`);
  - an `Order` class holding the fields that the views update in place.
- **The shop views** (`shop_views.dfy`):
  - the carousel slide count;
  - the "no products" message built from a category slug;
  - the shop page as a whole;
  - the order records that checkout and the payment callback create or
    update;
  - the fields derived for the owner's order notification.

Shared modules:

- `wrappers.dfy` holds Option and Result.
- `json.dfy` holds decoded JSON values.
- `text.dfy` holds the Python string operations used. `strip()`,
  `isspace()` and the `\s` of the collapse pattern use Python's whole
  whitespace set: the ASCII controls 0x09-0x0D and 0x1C-0x1F, the space,
  U+0085, U+00A0 and the Unicode space and line separators. There is also
  `split` on one character, `join` and `str(n)`.
- `seqs.dfy` holds generic sequence facts:
  - the first-occurrence order of a Python dict (`Dedup`);
  - a loop that stops at its first exception (`MapAll`).

Design choices:

- **Bullet markers.** The marker list is a parameter of the filter:
  - `AsWrittenMarkers` is the list exactly as the source spells it;
  - `IntendedMarkers` is the list the source evidently means (see Findings).
- **Renderers as parameters.** Python's `str()` of a JSON value is the
  `show` parameter. `json.loads` is the `loads` parameter; it gives `None`
  when the text is not JSON.
- **Orders.** The views update orders through the `Order` class. A view
  that creates an order returns a fresh `Order`. The id it gets and the
  request data are parameters.
- **Shipping fields.** The views store `shipping_method` and
  `shipping_cost` on orders, but `shop/models.py` declares no such fields.
  The model follows the views and gives the order both fields.

## Model

| member | source | states |
|---|---|---|
| ProductFilters.FormatProductDescription | shop/templatetags/product_filters.py:8-78 | An empty description gives the empty string. Otherwise the result is the four phases in order. No run of three or more `<br>` units is left in the result. |
| ProductFilters.FormatLine | shop/templatetags/product_filters.py:24-45 | One pass of the first loop. The line is stripped. A blank line gives `""`. A bullet gives `<li>` + the rest of the line, stripped again, + `</li>`. Any other line is kept as it is. A `<ul>` comes first when an item starts a list, and a `</ul>` when a non-item line ends one. The new flag is true exactly when the line was an item. |
| ProductFilters.FormatLines | shop/templatetags/product_filters.py:21-49 | The first loop yields the lines rendered one by one, with `<ul>` before and `</ul>` after each maximal run of items. A list still open at the end is closed. |
| ProductFilters.EntriesWellNested | shop/templatetags/product_filters.py:26-49 | The brackets of the first phase are balanced and never nested. Items stand only inside a list, and blank and plain lines only outside one. |
| ProductFilters.EntriesRenderEachLine | shop/templatetags/product_filters.py:24-45 | With the brackets taken out, the first phase holds exactly one rendered entry per input line, in input order. |
| ProductFilters.LoneMarkerIsPlain | shop/templatetags/product_filters.py:34 | A line that is only `-` or only `*` is ordinary text, not an empty bullet. |
| ProductFilters.BoldLineIsBullet | shop/templatetags/product_filters.py:34-39 | A line that opens with bold markup `**` counts as a bullet and loses its first `*`. |
| ProductFilters.AsWrittenBulletMisses | shop/templatetags/product_filters.py:34 | With the markers as written, a line that starts with the bullet character U+2022 is never an item. |
| ProductFilters.AsWrittenMarkerLeavesResidue | shop/templatetags/product_filters.py:34-39 | With the markers as written, a line that starts with the three-character literal becomes an item that still begins with U+20AC U+00A2. |
| ProductFilters.IntendedBulletStripsMarker | shop/templatetags/product_filters.py:34-40 | With the intended one-character markers, a marker followed by text becomes an item holding exactly that text, stripped. |
| ProductFilters.JoinLines | shop/templatetags/product_filters.py:52-65 | The second loop computes the join of the formatted lines, one piece per line in order. |
| ProductFilters.JoinClassifiesEntries | shop/templatetags/product_filters.py:53-65 | The join, stated on entry kinds. A blank entry gives `<br>` unless it is last. Brackets and items give their text with no `<br>`. A plain line gives its text, then `<br>` unless it is last or its text itself begins like a list tag. |
| ProductFilters.CloseBold | shop/templatetags/product_filters.py:70 | The lazy `(.*?)` search finds the first `**` after the opening one. It fails when a newline comes first. |
| ProductFilters.BoldKeepsStarFree | shop/templatetags/product_filters.py:70 | Text without an asterisk goes through the bold rewrite unchanged. |
| ProductFilters.BoldPair | shop/templatetags/product_filters.py:70 | `**x**`, with x free of asterisks and newlines, becomes `<strong>x</strong>`. |
| ProductFilters.ItalicKeepsStarFree | shop/templatetags/product_filters.py:73 | Text without an asterisk goes through the italic rewrite unchanged. |
| ProductFilters.ItalicPair | shop/templatetags/product_filters.py:73 | `*x*`, with a non-empty x free of asterisks, becomes `<em>x</em>`. |
| ProductFilters.CollapseKeepsStart | shop/templatetags/product_filters.py:76 | The collapse keeps the first character of its input. It starts with `<br>` exactly when the input does, and it is empty exactly when the input is. |
| ProductFilters.CollapseLeavesNoRun | shop/templatetags/product_filters.py:76 | After the collapse, no position starts three or more `<br>` units, each unit `<br>` followed by optional whitespace. |
| ProductFilters.Render | shop/templatetags/product_filters.py:25-45 | Defines how one line renders on its own. The stripped line is blank, or an item holding the rest after its marker, stripped again, or a plain line. EntriesRenderEachLine and FormatLine prove the first loop matches it. |
| ProductFilters.Entries | shop/templatetags/product_filters.py:21-49 | Defines the reference first phase: the rendered lines, with `<ul>` before and `</ul>` after each maximal run of items. FormatLines proves the loop computes it, and EntriesWellNested proves its nesting. |
| ProductFilters.Bold | shop/templatetags/product_filters.py:70 | Defines the bold rewrite as a left-to-right scan. At `**` with a closing `**` found by CloseBold, it emits `<strong>`, the text between and `</strong>`, then goes on after the closing pair. Otherwise it copies one character. BoldPair and BoldKeepsStarFree state its behaviour. |
| ProductFilters.Italic | shop/templatetags/product_filters.py:73 | Defines the italic rewrite as a scan. A `*` not preceded by `*`, a non-empty run without `*`, then a `*` not followed by `*` becomes `<em>` and the run and `</em>`. ItalicPair and ItalicKeepsStarFree state its behaviour. |
| ProductFilters.CollapseBreaks | shop/templatetags/product_filters.py:76 | Defines the collapse as a greedy scan. A run of three or more `<br>` units, each with optional whitespace after it, becomes `<br><br>`, and the scan goes on after the whole run. CollapseLeavesNoRun and CollapseKeepsStart state its behaviour. |
| ProductFilters.DescriptionHtml | shop/templatetags/product_filters.py:13-78 | Defines the whole filter. Empty text gives empty text. Otherwise the phases apply in order: split on `\n`, the first phase, the join, the concatenation, bold, italic, the collapse. FormatProductDescription proves the method computes it. |
| Text.StripEnds | shop/templatetags/product_filters.py:25 | A stripped line neither starts nor ends with whitespace. It is empty exactly when the line was all whitespace. |
| Text.StripIdempotent | shop/templatetags/product_filters.py:39 | Stripping twice is the same as stripping once. |
| Text.JoinSplit | shop/templatetags/product_filters.py:20 | Splitting on `\n` loses nothing: joining the pieces gives the text back. |
| Trending.Quantity | abadas/views.py:31 | `details[0]` added to an int. A number counts as itself and `true`/`false` as 1/0. Any value that is not an array fails with BadQuantity. |
| Trending.LineOf | abadas/views.py:30-31 | An item member gives its code and a quantity, or fails exactly when its quantity fails. |
| Trending.TallyTotals | abadas/views.py:27-31 | A code is in the counts exactly when some line has it, and its count is the sum of its quantities. A code on no line has total 0. |
| Trending.AddMembers | abadas/views.py:30-31 | The inner loop over one order's members extends the key order and the counts exactly as the reference accumulation does, or stops with the first member's fault. |
| Trending.Accumulate | abadas/views.py:27-31 | The nested loop over all orders gives the reference key order and counts, or the first fault (not JSON, not an object, a bad quantity). |
| Trending.InsertPermutes | abadas/views.py:33 | One insertion step of the sort adds exactly the inserted code. |
| Trending.InsertSorted | abadas/views.py:33 | Inserting into a list sorted by count, highest first, keeps it sorted. |
| Trending.InsertIsStable | abadas/views.py:33 | An inserted code goes behind every code of equal count already there. |
| Trending.RankSpec | abadas/views.py:33 | The ranking is a permutation of the keys, sorted by count from the highest down. Codes of equal count keep the dict's insertion order. |
| Trending.Top | abadas/views.py:33 | `[:6]` gives the first min(6, n) ranked codes. |
| Trending.KeysOfTally | abadas/views.py:27-31 | The dict has one key per distinct code, and each key counts the sum of its quantities. |
| Trending.TopOfTally | abadas/views.py:27-33 | The top list has min(6, distinct codes) entries, each a code that some order has, sorted by count. No code left out has a higher count than a code shown. |
| Trending.TopOfAccumulated | abadas/views.py:27-33 | When the stored orders can all be read, the top list has min(6, distinct codes) entries, each a code that some order has, sorted by count. No code left out has a higher count than a code shown. |
| Trending.ParseIntText | abadas/views.py:34 | `int()` reads back the decimal text of every integer, negative ones included. |
| Trending.ProductIdRoundTrip | abadas/views.py:34 | A code made of two characters, an integer's text, and nothing or `_...` after it gives that integer as its product id. |
| Trending.ProductIdExample | abadas/views.py:34 | `"id5_a"` gives id 5; `"x_9"` gives an `int()` failure. |
| Trending.ShownSpec | abadas/views.py:34-35 | The products shown are exactly the top ids that are in the catalogue, each once, ordered by the first rank position of their id. |
| Trending.OneBadOrderFails | abadas/views.py:28-31 | One unreadable order makes the whole block fail, since nothing catches the exception. |
| Trending.TrendingProducts | abadas/views.py:27-35 | The block computes its reference: the accumulation, the ranking, the top six, the ids, then the catalogue lookup in rank order. |
| Trending.SharedIdExample | abadas/views.py:27-35 | Codes `id5_S`, `id7_M` and `id5_L` are ranked separately, and product 5 appears once, behind 7. |
| Trending.Tally | abadas/views.py:27-31 | Defines the counts as the dict after the loop: each line adds its quantity to its code, starting from 0. TallyTotals proves each count is that code's total. |
| Trending.Accumulated | abadas/views.py:27-31 | Defines the pair of dict key order and counts over all orders' lines, or the first fault. Accumulate proves the nested loop computes it. |
| Trending.Rank | abadas/views.py:33 | Defines `sorted(..., key=..., reverse=True)` as an insertion of each key from the last one on. RankSpec proves it is a stable permutation, highest count first. |
| Trending.ProductId | abadas/views.py:34 | Defines `int(code.split('_')[0][2:])`. ProductIdRoundTrip and ProductIdExample state its results. |
| Trending.Shown | abadas/views.py:34-35 | Defines the catalogue lookup: each id once, in order of first rank, kept only when it is in the catalogue. ShownSpec states its properties. |
| Trending.Trending | abadas/views.py:27-35 | Defines the whole block: accumulation, ranking, the top six, the ids, then the lookup. Each stage can fail with the first fault. TrendingProducts proves the method computes it. |
| ShopModels.Code | shop/models.py:84-89 | Every status code fits the field's 10 characters and is the one listed in the choices. |
| ShopModels.Label | shop/models.py:84-88 | A status's label is the one listed in the choices. |
| ShopModels.ParseStatus | shop/models.py:84-89 | A stored code is read back only as the status whose code it is. |
| ShopModels.StatusCodes | shop/models.py:84-89 | Status codes round-trip. A code is accepted exactly when the choices list it. The default status is `"PLACED"`. |
| ShopModels.UpdateSummary | shop/models.py:124 | The summary is the first min(7, n) characters of the description, then `"..."`. |
| ShopModels.UpdateSummaryEqual | shop/models.py:124 | Two summaries are equal exactly when the descriptions agree on their first 7 characters. |
| ShopModels.ShortUpdateShownWhole | shop/models.py:124 | A description of at most 7 characters is shown whole, followed by `"..."`. |
| ShopModels.Unpack | shop/models.py:96 | Unpacking into six names gives six values when it succeeds. It raises TypeError (not iterable) exactly when the details are a scalar. |
| ShopModels.EntryBlock | shop/models.py:95-96 | An entry gives a block exactly when its details unpack. The block's fields are the six values in order: quantity, name, price, color, size, image. |
| ShopModels.EntryBlocks | shop/models.py:95-96 | The loop over the entries unpacks each one in order and stops at the first that does not unpack. |
| ShopModels.BlocksExactly | shop/models.py:95-96 | The blocks exist exactly when every entry unpacks, and then block i comes from entry i. |
| ShopModels.HtmlOfLength | shop/models.py:94-106 | The listing is empty exactly when there are no blocks. A non-empty listing is longer than the sentinel, so it cannot be mistaken for it. |
| ShopModels.InvalidExactly | shop/models.py:92-109 | For text that is not JSON, or a JSON object, the result is the sentinel `"Invalid items format"` exactly when decoding failed or some entry does not unpack. |
| ShopModels.OneBlockPerEntry | shop/models.py:95-107 | For an object whose entries all unpack, the rendering is one block per entry, in entry order. |
| ShopModels.EmptyAndNonObject | shop/models.py:94-108 | An empty object renders as the empty text. A decoded value that is not an object is an error the `except` clause does not catch. |
| ShopModels.BadEntrySpoilsAll | shop/models.py:96-109 | One entry that does not unpack gives the sentinel for the whole order, never a partial listing. |
| ShopModels.SixLetterDetails | shop/models.py:96 | A six-character string unpacks into its six characters. |
| ShopModels.BlockHtml | shop/models.py:97-106 | Defines the f-string text of one item block, field by field. |
| ShopModels.ItemsHtml | shop/models.py:91-109 | Defines `formatted_items`. Text that is not JSON gives the sentinel. A value that is not an object is an uncaught fault. An entry that does not unpack gives the sentinel. Otherwise the blocks are concatenated. InvalidExactly and OneBlockPerEntry state its behaviour. |
| ShopModels.Order.Snapshot | shop/models.py:66-89 | The field values of an order, read as a record. |
| ShopModels.Order.constructor | shop/models.py:66-89 | A new order holds exactly the given field values. |
| ShopModels.Order.FormattedItems | shop/models.py:91-109 | The method computes the reference rendering of the order's stored items. |
| ShopViews.SlideCount | shop/views.py:26 | Defines `n // 4 + ceil((n / 4) - (n // 4))` over exact reals. SlideCountIsCeiling proves it is ceil(n/4). |
| ShopViews.Title | shop/views.py:19 | `title()` keeps the text's length. TitleSpec states it character by character. |
| ShopViews.CategoryName | shop/views.py:19 | Defines `category.replace("-", " ").title()`. CategoryNameSpec states its properties. |
| ShopViews.ShopPage | shop/views.py:13-43 | Defines the page: a category page when a non-empty category is selected, else the page of all active categories. ShopPageSpec states its properties. |
| ShopViews.CheckoutRecord | shop/views.py:79-143 | Defines the order checkout leaves: the placed record, then the PayID step only for the method `"payid"`. CheckoutPayment states its properties. |
| ShopViews.SlideCountIsCeiling | shop/views.py:26 | `n // 4 + ceil(n/4 - n//4)` is ceil(n/4): (n+3) div 4, n div 4 plus one when 4 does not divide n. It is the least k with n <= 4k. |
| ShopViews.Range1 | shop/views.py:27 | `range(1, k)` is 1, 2, …, k-1. |
| ShopViews.TitleFromSpec | shop/views.py:19 | `title()`, position by position: a letter is upper case exactly when no letter comes right before it. Other characters are unchanged. |
| ShopViews.TitleSpec | shop/views.py:19 | The same for the whole text. |
| ShopViews.TitleIdempotent | shop/views.py:19 | Title-casing twice is title-casing once. |
| ShopViews.ReplaceChar | shop/views.py:19 | `replace("-", " ")` changes every `-` into a space and nothing else. |
| ShopViews.CategoryNameSpec | shop/views.py:19 | The category name has the slug's length. It has a space exactly where the slug has `-` or a space, and no `-` remains. A letter is upper case exactly when it starts a word. |
| ShopViews.NoProductsMessage | shop/views.py:21 | The message starts with its fixed head `No products available in the '` and ends with its fixed tail `' category. Please check back later!`. Between them stands exactly the category name. |
| ShopViews.MessageNamesCategory | shop/views.py:19-21 | The message holds the category name between head and tail. Two slugs get the same message exactly when their names agree. |
| ShopViews.GroupOf | shop/views.py:25-27 | A group holds the category's products, its slide numbers and its slide count. |
| ShopViews.ShopPageSpec | shop/views.py:16-43 | The page has a message exactly when it has no group. A selected category gets the slug message exactly when it is missing, inactive or empty. Without a selection, each active category gets one group with ceil(n/4) slides. |
| ShopViews.PlacedRecord | shop/views.py:79-94 | The created order copies the form. Its user is set exactly when someone is signed in, and it is a guest order exactly when there is no user. An empty shipping cost becomes `"0"`. Its status is the default, and no payment field is set. |
| ShopViews.WithPayId | shop/views.py:139-143 | The PayID step sets the payment status to `"PayID"`. It replaces the proof only when a file was uploaded, and touches no other field. |
| ShopViews.RecordPayId | shop/views.py:139-143 | The in-place update of the order is the PayID step. |
| ShopViews.CheckoutPayment | shop/views.py:97-148 | Checkout never changes what the customer entered. The order is left unpaid exactly when the method is not `"payid"`. With `"payid"` it records that status and the upload. |
| ShopViews.Checkout | shop/views.py:60-148 | An order is created exactly for a post with a parseable amount. It is fresh, created before any payment step, and ends as the checkout record. |
| ShopViews.PaidByPayPal | shop/views.py:177-181 | A confirmed PayPal payment sets the status to `"Paid"`, the oid to the payment id and the amount paid to the amount. Every other field is unchanged. |
| ShopViews.RecordPayPal | shop/views.py:177-181 | The in-place update of the order is the PayPal step. |
| ShopViews.DirectRecord | shop/views.py:212-231 | The directly posted order copies the form. Its status is `"Success"` and it has no proof. User, guest flag and shipping cost follow the same rules as checkout. |
| ShopViews.PaymentSuccess | shop/views.py:162-238 | With no order id in the session (or 0) or no such order, nothing changes and nothing is created. PayPal's two parameters with an executed payment mark the order paid. A declined or failing execution leaves it as it was. Without the parameters, a separate fresh order is created from the form. |
| ShopViews.Notice | shop/views.py:260-287 | The notice never shows an empty payment status: `"Pending"` stands in for an empty one. The user type is `"Registered User"` exactly when the order has a user. The proof link appears exactly when a proof is stored. The order status is its code. |
| ShopViews.NoticeNamesOrder | shop/views.py:270 | The subject ends with the order id in decimal, which reads back as the id. |
| ShopViews.PayIdCheckoutNotice | shop/views.py:137-146 | After a PayID checkout the notice shows `"PayID"`. It calls the customer a guest exactly when the order is a guest order, and links a proof exactly when one was uploaded. |
| ShopViews.PayPalNotice | shop/views.py:177-185 | After a PayPal payment the notice shows `"Paid"` and the same user type as before. |

## Left out

- JSON text parsing is not modelled. `json.loads` is a parameter that gives a decoded value or nothing. A decoded object is assumed to name each member once; Python keeps the last of duplicate names.
- Python's `str()` of a decoded value, used by the f-string, is the `show` parameter.
- The escaping and brace handling of `format_html`, and `mark_safe`, are library behaviour and are not modelled.
- ShopModels.Order.FormattedItems: the loop collects the blocks and renders them afterwards, instead of growing one string as it goes. The text is the same.
- Amounts are opaque text. They are copied, never computed. Only the failure of `float()` on the posted amount is modelled, as a missing amount.
- The PayPal SDK (`create`, `find`, `execute`) is reduced to an outcome parameter. The approval redirect is left out.
- Email sending, template rendering, redirects, flash messages and the session are I/O. The session's order id and the request data are parameters.
- ORM queries are taken as inputs: category lookups, product lists, the catalogue's ids, the next order id, and "no such order".
- Image resizing in `product.save` is not modelled.
- `title()` and `int()` are modelled on ASCII only: Unicode cased letters and Unicode digits are not modelled. Whitespace follows Python's full set.
- Trending.Quantity: JSON numbers are integers in this model, so float quantities such as `1.5` or `1e2` are not summed. Prices in `formatted_items` are likewise integers or text.
- ShopViews.PaymentSuccess: posted fields that are absent on the direct path are taken as empty text, not `None`.
- ShopViews.PaymentSuccess: the exception handler of the direct path is not modelled.
- ShopViews.PaymentSuccess: a declined PayPal execution makes the view return nothing, which Django rejects. The model only says that the order is left unchanged.
- ShopViews.SlideCountIsCeiling: proved over exact reals. Python's float division agrees only while n stays below 2^53.
- ProductFilters.BoldPair and ProductFilters.ItalicPair: the rewrites are modelled as concrete scans. Their properties are proved only for simple inputs: single pairs, and text free of asterisks.
- The product search, the category counts and the rest of the index view are not modelled. Neither are the admin registration and `shop/utils.py`.

## Findings

| source | as written | input that shows it | evidently intended | confidence | as-written member | corrected member |
|---|---|---|---|---|---|---|
| shop/templatetags/product_filters.py:34 | the bullet marker is the three-character text U+00E2 U+20AC U+00A2 (the UTF-8 bytes of `•` read as Windows-1252), and line 39 drops only one character | the line `• Soft cotton` stays an ordinary line; the line `â€¢ Soft cotton` becomes the item `€¢ Soft cotton` | the marker U+2022 `•`, a single character, as with `-` and `*` | high (not executed) | ProductFilters.AsWrittenBulletMisses, ProductFilters.AsWrittenMarkerLeavesResidue | ProductFilters.IntendedBulletStripsMarker |
