# Shelf Crafters storefront — a Dafny model of its logic

The storefront is a presentational web UI for a custom-shelving retailer. Three
pieces of it hold real logic, and this project models each as pure Dafny
functions with proved contracts:

- **Catalog client** (`src/lib/shopify.js`). `ShopifyFetch` classifies a
  Storefront API exchange. With no domain or token, nothing is sent and an empty
  product list comes back. Otherwise a non-ok HTTP status fails first, then a
  truthy `errors` field fails, and anything else returns the decoded body.
  `GetFeaturedProducts` then maps every raw product node to the display record.
  Every optional field gets its fallback: `'Shelving'`, `[]`, `''`, the first
  gallery image, or `null`.
- **Product gallery** (`src/components/product-gallery.jsx`). It derives the
  category list (`'All'` plus the distinct non-empty product types). It resets a
  category that is no longer listed. It applies a category filter and then a
  case-insensitive search over title and tags. It shows "no products", "no
  matches" or the grid.
- **Cart badge** (`src/components/cart/cart-provider.jsx`). An integer counter
  with increment, clamped decrement and reset. It is loaded from one
  client-storage entry at start-up and written back as `String(count)` whenever
  it changes.

Modules: `Wrappers` (Option/Result), `Seqs` (order-preserving filter,
subsequences, first occurrences), `Text` (`trim`, `toLowerCase`, `includes`,
`String`/`Number` for integers), `Catalog`, `Gallery`, `Cart`.

The HTTP exchange, the environment and the storage entry are inputs:
- a `Response` carries the status, the raw body text and the decoded body;
- an `Env` carries the optional domain and token;
- the stored value is an `Option<string>`.

`Number(amount)` for prices is a parameter `toNumber`, and so is
`JSON.stringify` in the error message.

Two behaviours of the code are worth stating plainly:
- An `errors` field holding `[]` or `{}` still fails the call, because the test
  at `src/lib/shopify.js:36` is a truthiness test.
- A non-numeric stored cart value leaves the count unchanged. At start-up the
  count is still 0, so the badge starts at 0.

## Model

| member | source | states |
|---|---|---|
| `Catalog.FeaturedVariables` | src/lib/shopify.js:82-86 | the request variable `first` is the caller's count, or 12 when none is given |
| `Catalog.Configured` | src/lib/shopify.js:6-9 | configuration counts as present only when both domain and token are present, and an empty domain or token counts as missing |
| `Catalog.JsonTruthy` | src/lib/shopify.js:36 | `null`, `false` and `""` are falsy, while every array and object, even an empty one, is truthy |
| `Catalog.ShopifyFetch` | src/lib/shopify.js:11-41 | a request is issued exactly when domain and token are both non-empty, and it carries them and the variables. Without them the result is the empty edge list. Otherwise a non-ok status fails with that status and raw body, then a truthy `errors` field fails with that value. The call succeeds exactly when neither applies, and it then returns the decoded body |
| `Catalog.UnconfiguredIgnoresTransport` | src/lib/shopify.js:12-15 | without configuration the outcome is the same whatever the transport would have answered |
| `Catalog.EmptyErrorArrayFails` | src/lib/shopify.js:36-38 | an `errors` field holding an empty array still fails the call, because the check is a truthiness test |
| `Catalog.Message` | src/lib/shopify.js:29-38 | a transport failure's message starts with the fixed prefix, then has the status code right after it, then one space, then the raw body, and nothing else. A GraphQL failure's message is the fixed prefix followed by the serialised errors |
| `Catalog.ImagesOf` | src/lib/shopify.js:90 | `images` lists the image-edge nodes in order, and is empty when the connection or its edges are absent |
| `Catalog.MinVariantPrice` | src/lib/shopify.js:100 | the optional chain reaches the min-variant price only through a present price range |
| `Catalog.ToProduct` | src/lib/shopify.js:89-107 | `id`, `title` and `handle` are copied. `productType` is the source's when truthy, else `'Shelving'`, so it is never empty. `tags` defaults to `[]` and `description` to `''`. `image` is the featured image, else `images[0]`, and it is absent exactly when both are missing. `price` is absent exactly when the min-variant price is; otherwise it copies the currency and converts the amount |
| `Catalog.EdgesOf` | src/lib/shopify.js:88 | the product edges of the body, or `[]` when any link of the chain is missing |
| `Catalog.MapEdges` | src/lib/shopify.js:89 | one normalised product per edge, at the same index |
| `Catalog.GetFeaturedProducts` | src/lib/shopify.js:82-108 | requests `first` = count or 12. Without configuration it succeeds with no products. It fails exactly when the fetch fails, with the same error. Otherwise it returns one product per edge, in edge order |
| `Catalog.BareNodeExample` | src/lib/shopify.js:91-106 | a node with only id, title, handle, empty tags, no images and price "42" USD normalises to type `'Shelving'`, empty description, no image, no images and price 42 USD |
| `Catalog.ToRaw` | src/lib/shopify.js:91-106 | writes a display record back as a raw node with every field present: the same identity fields, its image as the featured image, and its price as the min-variant price |
| `Catalog.NormalFormRoundTrip` | src/lib/shopify.js:91-106 | a product with a non-empty type, whose image is set whenever it has images, maps back to itself through its raw form, provided the amount conversion reads back. The mapper's own outputs always meet the conditions on type and image |
| `Text.Trim` | src/components/product-gallery.jsx:26 | the result is an infix of the input with only white space around it, and it neither starts nor ends with white space |
| `Text.Lower` | src/components/product-gallery.jsx:31-33 | same length, and each ASCII capital becomes its small letter while every other character is kept |
| `Text.LowerIsLower` | src/components/product-gallery.jsx:26 | a lower-cased string has no ASCII capitals, and lower-casing again leaves it unchanged |
| `Text.LowerTrim` | src/components/product-gallery.jsx:26 | trimming then lower-casing gives the same result as lower-casing then trimming |
| `Text.Contains` | src/components/product-gallery.jsx:32-33 | `includes` holds exactly when the needle occurs at some offset of the haystack |
| `Text.IntToString` | src/components/cart/cart-provider.jsx:21 | `String(i)` is the canonical decimal text of `i`: a `-` exactly when `i` is negative, then digits without leading zeros whose value is the magnitude of `i` |
| `Text.StringToInt` | src/components/cart/cart-provider.jsx:14 | the result is `NaN` exactly when the trimmed string is neither blank nor a signed or unsigned integer literal. A blank string reads as 0, and a literal reads as its decimal value, negated after `-` |
| `Text.IntStringRoundTrip` | src/components/cart/cart-provider.jsx:14-21 | reading `String(i)` back with `Number` gives `i`, for every integer |
| `Gallery.Unique` | src/components/product-gallery.jsx:10-12 | no duplicates and no empty strings. The result holds exactly the non-empty input strings, in order of their first occurrence in the input |
| `Seqs.Filter` | src/components/product-gallery.jsx:27-35 | `.filter`: the result is an order-preserving subsequence of the input, holds only elements that pass, and holds every element that passes (`Seqs.FilterCount` adds that every copy is kept) |
| `Seqs.FilterCount` | src/components/product-gallery.jsx:27-35 | `.filter` keeps every copy of an element that passes and no copy of one that fails |
| `Gallery.ProductTypes` | src/components/product-gallery.jsx:16 | one product type per product, at the same index |
| `Gallery.Types` | src/components/product-gallery.jsx:16 | `types` has no duplicates, holds exactly the non-empty types of the products, and lists them in order of their first occurrence among the products |
| `Gallery.Filters` | src/components/product-gallery.jsx:37 | `'All'` comes first and is followed by exactly `types`. So a label is listed exactly when it is `'All'` or a non-empty type of some product |
| `Gallery.NormalisedTypesListed` | src/components/product-gallery.jsx:16 | every product with a non-empty type, as the catalog always produces, has its type in `types` |
| `Gallery.ReconcileActive` | src/components/product-gallery.jsx:20-22 | the active category afterwards is `'All'` or a listed type. It is unchanged exactly when it was `'All'` or listed, and otherwise it becomes `'All'` |
| `Gallery.ReconcileIdempotent` | src/components/product-gallery.jsx:20-24 | running the reset again changes nothing |
| `Gallery.InCategory` | src/components/product-gallery.jsx:28 | under `'All'` every product passes; otherwise a product passes exactly when its type equals the active category |
| `Gallery.MatchesQuery` | src/components/product-gallery.jsx:29-35 | an empty key keeps every product. A non-empty key keeps a product exactly when it occurs in the lower-cased title or in some lower-cased tag |
| `Gallery.Filtered` | src/components/product-gallery.jsx:27-35 | the filtered list is no longer than the product list, and every product in it passes the category stage and the search stage |
| `Gallery.SearchKey` | src/components/product-gallery.jsx:26 | the key is an infix of the query, lower-cased character by character, with only white space around it in the query. It neither starts nor ends with white space and holds no ASCII capital |
| `Gallery.SearchIgnoresCase` | src/components/product-gallery.jsx:26-35 | two queries that agree after lower-casing give the same key, and so the same filtered list |
| `Gallery.FilteredSpec` | src/components/product-gallery.jsx:27-35 | the filtered list is an order-preserving subsequence of the products. A product is in it exactly when it passes the category stage (`'All'`, or an equal type) and the search stage |
| `Gallery.FilteredCounts` | src/components/product-gallery.jsx:27-35 | a product that passes both stages keeps every one of its copies, and a product that fails keeps none |
| `Gallery.FilteredAllBlank` | src/components/product-gallery.jsx:28-30 | under `'All'` with a blank query, every product is shown in its original order |
| `Gallery.Render` | src/components/product-gallery.jsx:77-104 | "no products" exactly when there are none. Else "no matches" exactly when the filtered list is empty. Else the grid of the filtered products |
| `Gallery.SettledBlankQueryShowsGrid` | src/components/product-gallery.jsx:20-86 | once the stale-category reset has run, a non-empty product list with a blank query always shows the grid, so "no matches" can only come from the search |
| `Cart.Increment` | src/components/cart/cart-provider.jsx:29 | the count grows by exactly one |
| `Cart.Decrement` | src/components/cart/cart-provider.jsx:30 | the result is `max(0, c - 1)`: never negative, and exactly `c - 1` when `c` is positive |
| `Cart.Reset` | src/components/cart/cart-provider.jsx:31 | the count returns to the initial 0, whatever it was |
| `Cart.Step` | src/components/cart/cart-provider.jsx:29-31 | an action raises the count by at most one (or yields 0), keeps a non-negative count non-negative, and a reset yields 0 |
| `Cart.Run` | src/components/cart/cart-provider.jsx:29-31 | no actions leave the count unchanged, and a run of increments adds exactly its length |
| `Cart.RunNonNegative` | src/components/cart/cart-provider.jsx:29-31 | from a non-negative count, no sequence of increments, decrements and resets goes below zero |
| `Cart.RunBounded` | src/components/cart/cart-provider.jsx:29-31 | from a non-negative count, a sequence of actions raises the count by at most its length |
| `Cart.DecrementUndoesIncrement` | src/components/cart/cart-provider.jsx:29-30 | on a non-negative count, a decrement undoes an increment |
| `Cart.BadgeExample` | src/components/cart/cart-provider.jsx:9-30 | from 0, three increments and a decrement give 2, and a decrement at 0 stays at 0 |
| `Cart.Load` | src/components/cart/cart-provider.jsx:14-15 | a missing or empty stored value gives 0. A value that reads as a number replaces the count. A value that reads as `NaN` leaves the count unchanged |
| `Cart.Persist` | src/components/cart/cart-provider.jsx:21 | the stored text is the canonical decimal `String(count)`: a `-` exactly for a negative count, then digits without leading zeros whose value is its magnitude |
| `Cart.PersistLoadRoundTrip` | src/components/cart/cart-provider.jsx:14-21 | loading what was persisted restores the count, whatever was in memory |
| `Cart.Startup` | src/components/cart/cart-provider.jsx:9-23 | after mounting, the count is the loaded value (0 for an unreadable one), and storage holds `String(count)` |
| `Cart.Dispatch` | src/components/cart/cart-provider.jsx:19-31 | every action keeps storage equal to `String(count)`, and storage is rewritten only when the count changes |
| `Cart.ReloadRestoresCount` | src/components/cart/cart-provider.jsx:12-23 | after any action, starting up again from storage gives back the same count |

## Left out

- The HTTP call itself is not modelled. This covers the URL built from the domain and `SHOPIFY_API_VERSION` (default `2024-10`), the headers, the token header, the `revalidate: 60` cache hint and the GraphQL query text. The model takes the exchange as a `Response` input.
- Reading the environment is not modelled; `Env` is an input.
- JSON decoding is not modelled. A body that fails to parse makes `res.json()` throw. A body that decodes to `null` makes `json.errors` throw. Neither case is modelled: the decoded body is a typed `Payload`.
- Catalog.ShopifyFetch: a rejected `fetch` (a network, DNS or TLS failure; the code sets no timeout) or a rejected `res.text()` propagates its own exception. The model always has a `Response`, so `Catalog.GetFeaturedProducts` fails only with the two classifier errors.
- Catalog.ToProduct: `Number(amount)` is the parameter `toNumber`, so the amount is only related to the source through it.
- Catalog.Message: `JSON.stringify` is the parameter `stringify`.
- Catalog.GetFeaturedProducts: at most `first` products come back only if the remote API promises it; the code does not enforce this, and neither does the model.
- Text.Lower: lower-cases ASCII letters only. The full Unicode case mapping of `toLowerCase` is not modelled.
- Text.StringToInt: reads only integer literals. `Number` also accepts fractions, exponents, hexadecimal/octal/binary forms and `Infinity`; the model reads all of these as `NaN`. Long digit strings are read exactly, whereas `Number` rounds them to the nearest double once they pass 2^53.
- Cart.Load: because of `Text.StringToInt`, stored values such as `"1e3"`, `"1.0"` and `"0x10"` leave the count unchanged in the model. The source sets the integers 1000, 1 and 16 for them, and `"2.5"` sets the non-integer count 2.5.
- Cart.Increment: counts are exact integers. JavaScript numbers are doubles, so above 2^53 `c + 1` can leave `c` unchanged; the model does not reproduce this.
- Text.IntToString: writes every digit. `String(n)` switches to exponent form from 1e21 on; the model does not reproduce this.
- Cart.RunNonNegative: holds only from a non-negative count. A stored negative value (for example `"-3"`) is loaded as is and breaks the invariant until the next decrement or reset. The raw `setCount` exposed to consumers can also set any value.
- Storage access failures, which the source silently ignores, are not modelled.
- At mount the persist effect briefly writes `"0"` before the loaded count is written; only the settled state is modelled.
- React context, effect timing and re-rendering are not modelled. This includes `useCart` throwing outside a provider, and the reset effect firing only when the joined type list changes.
- Gallery.MatchesQuery: the `(p.tags || [])` fallback is vacuous, because a normalised product always has a tag sequence.
- The presentational components are not part of this model. This covers the header, hero, footer, reviews marquee, FAQ, announcement bar, search dialog, product card (with its `Intl.NumberFormat`-based `formatMoney`) and the customizer dialog.
