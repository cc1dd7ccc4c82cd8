# Velô storefront core, modelled in Dafny

This project models the business logic of the Velô car storefront. The
storefront is a React single-page app with a Supabase back end and one Deno
edge function. The model covers five parts:

- **Pricing and the configurator store** (`Catalog`, `ConfiguratorStore`). This covers:
  - the fixed price table and `calculateTotalPrice`;
  - the configuration setters, `toggleOptional` and `resetConfiguration`;
  - the local order list with its e-mail "login", `getUserOrders` and `logout`;
  - the `migrate` step applied to an older persisted state.
- **Checkout** (`Checkout`): the order form schema, the ordered credit rule table, the financing arithmetic, the sanitising of optionals, and `handleSubmit`. `handleSubmit` is an orchestration: it validates the form, then (for financing) calls the credit service, then `createOrder`, then resets the configuration.
- **Order records** (`Orders`): the `VLO-XXXXXX` order code, the row `createOrder` inserts, the mapping `dbOrderToOrder` back to an order, and `getOrderByNumber`.
- **The `credit-analysis` edge function** (`CreditAnalysis`): the CORS preflight, stripping the CPF mask to digits, and the map from each outcome to an HTTP status.
- **The order lookup page** (`OrderLookup`): `handleSearch`, when the search button is disabled, and the status badge.

Supporting modules are shared by the parts above:

- `Common`: `Option`, subsequences, `Filter`.
- `Json`: JSON values with JavaScript truthiness and property access.
- `Strings`: `split`/`join`, `trim` with the ECMAScript whitespace set, and ASCII `toUpperCase`.

Everything outside the program's own logic is an input:

- **The credit service.** Its reply is a `CreditReply`.
- **The database.** The insert's reply is an `InsertReply`, and reads are a function from the queried key to a `ReadReply`.
- **`fetch` to the credit bureau.** Its reply is an `Upstream`.
- **`Math.random`.** It is replaced by the six draws it would produce.

Orchestrations return the external calls they make, in order. This makes "never calls the credit service" and "stops before `createOrder`" statable.

Money in the checkout is exact `real` arithmetic. Prices from the table are `int`.

Where the code and its comments or description differ, the model follows the code:

- **Financed price.** The price sent to `createOrder` for financing is `entry + (max(0, total − entry) / 12 × 1.02) × 12`, which is the financed amount times 1.02. It is not the compound-interest `calculateInstallment`, which no submission path calls.
- **Rule 4 of the credit table.** The comment says "score ≤ 500", but rule 4 is a plain `else`. It therefore also refuses scores strictly between 500 and 501, and the model keeps that.
- **Order of normalisation.** `getOrderByNumber` trims first and upper-cases second.

## Model

| member | source | states |
|---|---|---|
| Catalog.ItemPrice | src/store/configuratorStore.ts:75-79 | Once its key is converted, an optional item adds 5500, 5000 or nothing. It adds something exactly when its key names a code of the price table. |
| Catalog.AnyKeyConversionThrowsConcat | src/store/configuratorStore.ts:75-76 | A list has an item whose key conversion throws iff one of its two parts has. |
| Catalog.AddOptionals | src/store/configuratorStore.ts:75-80 | The `forEach` throws iff some item's key conversion throws. Otherwise the running total grows by the surcharges of all the items. |
| Catalog.CalculateTotalPrice | src/store/configuratorStore.ts:69-82 | It throws exactly when `optionals` is an array holding an item whose key conversion throws: an object with its own `toString`, or an array containing one. Otherwise the total is 40000 + the wheel surcharge + the items' surcharges, so at least 40000 (42000 with sport wheels). A non-array `optionals` adds nothing. |
| Catalog.ThrowingItemFailsPrice | src/store/configuratorStore.ts:75-76 | One item whose key conversion throws makes the whole calculation throw, wherever it sits in the list. |
| Catalog.ObjectItemExamples | src/store/configuratorStore.ts:75-76 | `{"toString": 1}` throws, alone or inside a one-element array. `{"valueOf": 1}` converts to `[object Object]` and costs nothing. |
| Catalog.OptionalsTotalConcat | src/store/configuratorStore.ts:75-80 | The surcharges of two lists laid end to end add up. |
| Catalog.UnknownItemAddsNothing | src/store/configuratorStore.ts:74-80 | An item that converts without throwing but is not a priced code (unknown text, an inherited name, a number, an object without its own `toString`) leaves the result unchanged wherever it sits. |
| Catalog.Price | src/store/configuratorStore.ts:69-82 | A typed configuration holds only strings, so `calculateTotalPrice` on its optionals always returns, and returns at least 40000. |
| Catalog.StringsConvert | src/store/configuratorStore.ts:75-76 | No string item throws on key conversion. |
| Catalog.CodesTotal | src/store/configuratorStore.ts:75-80 | The surcharge of a list of codes is 5500 per `precision-park` plus 5000 per `flux-capacitor` it contains. |
| Catalog.PriceFormula | src/store/configuratorStore.ts:54-82 | Price = 40000 + 2000 for sport wheels + 5500 × (number of `precision-park`) + 5000 × (number of `flux-capacitor`). |
| Catalog.PriceOfDuplicateFree | src/store/configuratorStore.ts:54-82 | Without duplicates, each optional that is present is paid once, so the price lies between 40000 and 52500. |
| Catalog.AtMostOnce | src/store/configuratorStore.ts:129-134 | In a duplicate-free list, as `toggleOptional` keeps it, a code occurs once if present and never otherwise. |
| Catalog.PriceExamples | src/store/configuratorStore.ts:102-107 | The initial configuration costs 40000. Sport wheels with both optionals cost 52500. |
| ConfiguratorStore.SetExteriorColor | src/store/configuratorStore.ts:112-116 | Only the exterior colour changes, the view switches to exterior, and the price stays the same. |
| ConfiguratorStore.SetInteriorColor | src/store/configuratorStore.ts:118-122 | Only the interior colour changes, the view switches to interior, and the price stays the same. |
| ConfiguratorStore.SetWheelType | src/store/configuratorStore.ts:124-127 | Only the wheel type changes. The price moves by exactly the difference of the two wheel surcharges. |
| ConfiguratorStore.SetViewMode | src/store/configuratorStore.ts:140 | The view mode is set and nothing else changes. |
| ConfiguratorStore.Toggle | src/store/configuratorStore.ts:131-134 | The code is present afterwards exactly when it was absent before. Every other code keeps its presence. A duplicate-free list stays duplicate-free. |
| ConfiguratorStore.ToggleOptional | src/store/configuratorStore.ts:129-138 | Only the optionals change, and they change by the toggle. |
| ConfiguratorStore.ToggleTwiceAbsent | src/store/configuratorStore.ts:129-138 | Toggling an absent code twice restores the exact list. |
| ConfiguratorStore.ToggleTwicePresent | src/store/configuratorStore.ts:129-138 | Toggling a present code twice keeps the same set of codes (the same multiset when there are no duplicates), with that code moved to the end. |
| ConfiguratorStore.ToggleOptionalTwice | src/store/configuratorStore.ts:129-138 | On the store, toggling an absent code twice restores the whole state. |
| ConfiguratorStore.AddOrder | src/store/configuratorStore.ts:142-145 | The order is appended and nothing else changes. |
| ConfiguratorStore.HasOrdersForMeans | src/store/configuratorStore.ts:149 | The `some` test holds exactly when some stored order carries that e-mail. |
| ConfiguratorStore.Login | src/store/configuratorStore.ts:147-155 | Login is accepted iff some stored order has that customer e-mail. Acceptance sets the current user and changes nothing else. Rejection leaves the state unchanged. |
| ConfiguratorStore.Logout | src/store/configuratorStore.ts:157 | The current user is cleared and nothing else changes. |
| ConfiguratorStore.GetUserOrders | src/store/configuratorStore.ts:159-163 | With no user (or the empty e-mail) the result is []. Otherwise it is exactly the stored orders with that e-mail, each as many times as it is stored, in stored order. |
| ConfiguratorStore.LogoutHidesOrders | src/store/configuratorStore.ts:157-163 | After logout, no orders are listed. |
| ConfiguratorStore.AddedOrderIsListed | src/store/configuratorStore.ts:142-163 | After an order is added, its customer can log in with its e-mail and then sees it. |
| ConfiguratorStore.ResetConfiguration | src/store/configuratorStore.ts:165-173 | The configuration becomes glacier-blue / carbon-black / aero / no optionals, priced 40000. The rest of the state is unchanged. |
| ConfiguratorStore.FreshStore | src/store/configuratorStore.ts:101-110 | A fresh store costs 40000, has no user and so lists no orders. Resetting it changes nothing. |
| ConfiguratorStore.Migrate | src/store/configuratorStore.ts:178-187 | A state without a configuration object passes untouched. Otherwise only `configuration.optionals` changes. It becomes an array of the input's priced-code strings, each as many times as it occurred, in order. It is empty for a non-array. The filter is the corrected own-key one, not the `in` test (see Findings). |
| ConfiguratorStore.MigratedPriceDefined | src/store/configuratorStore.ts:178-187 | After the migration, pricing the stored configuration cannot throw, and it charges each kept code. |
| ConfiguratorStore.PricedItemsConvert | src/store/configuratorStore.ts:182-184 | Items that are priced-code strings never throw on key conversion. |
| ConfiguratorStore.MigrateIdempotent | src/store/configuratorStore.ts:178-187 | Migrating twice is migrating once. |
| ConfiguratorStore.MigrateNonArray | src/store/configuratorStore.ts:180-181 | A stored `optionals` that is not an array becomes []. |
| ConfiguratorStore.MigrateAsWrittenKeepsInheritedName | src/store/configuratorStore.ts:182-184 | The migration as written keeps `"toString"` in the optionals. The corrected one drops it. |
| ConfiguratorStore.MigrateAgreesOffPrototype | src/store/configuratorStore.ts:178-187 | When no stored optional is a string naming an `Object.prototype` member, the migration as written and the corrected one give the same state. |
| Strings.Split | src/hooks/useOrders.ts:31 | `split(' ')` gives at least one piece, no piece contains the separator, and joining the pieces gives the input back. |
| Strings.Leading | src/hooks/useOrders.ts:107 | `trim` removes exactly the leading whitespace: every character before this index is whitespace and the one at it is not. |
| Strings.End | src/hooks/useOrders.ts:107 | `trim` removes exactly the trailing whitespace: every character from this index on is whitespace and the one before it is not. |
| Strings.SplitJoin | src/hooks/useOrders.ts:31-33 | Joining separator-free pieces and splitting again returns the pieces. |
| Strings.Trim | src/hooks/useOrders.ts:107 | `trim()` is the slice between the leading and trailing whitespace: both ends are non-whitespace, and everything removed is whitespace. |
| Strings.TrimEmpty | src/pages/OrderLookup.tsx:101 | The trim is empty iff the input is all whitespace. |
| Strings.TrimIdempotent | src/hooks/useOrders.ts:107 | Trimming twice is trimming once. |
| Strings.TrimDecompose | src/hooks/useOrders.ts:107 | A string is its leading whitespace, then its trim, then its trailing whitespace. |
| Strings.TrimBetweenWhitespace | src/hooks/useOrders.ts:107 | A trimmed text between two runs of whitespace is exactly what `trim` returns. |
| Strings.TrimIgnoresPadding | src/hooks/useOrders.ts:107 | Whitespace added on either side does not change the trim. |
| Strings.ToUpper | src/hooks/useOrders.ts:107 | Upper-casing keeps the length and maps each lower-case letter to its capital. |
| Strings.ToUpperIdempotent | src/hooks/useOrders.ts:107 | Upper-casing leaves no lower-case letter, so doing it twice is doing it once. |
| Strings.ToUpperEqual | src/hooks/useOrders.ts:107 | Two strings upper-case to the same string iff they differ at most in ASCII letter case. |
| Orders.DrawOf | src/hooks/useOrders.ts:22-25 | Every code character is the alphabet entry at some draw. |
| Orders.GenerateOrderNumber | src/hooks/useOrders.ts:21-28 | The code is `VLO-` followed by six characters from [A-Z0-9]. Character 4+i is the alphabet entry at draw i. |
| Orders.EveryCodeIsGenerated | src/hooks/useOrders.ts:21-28 | Every well-formed code is produced by some draws. |
| Orders.DrawsRecovered | src/hooks/useOrders.ts:21-28 | Different draws give different codes. |
| Orders.BuildRow | src/hooks/useOrders.ts:76-88 | `customer_name` is name + " " + surname. The order number, contact fields, price and optionals are copied. Colour, wheel type, payment method and status are stored as their string codes. |
| Orders.SplitCustomerName | src/hooks/useOrders.ts:31-33 | The name is the text before the first space (all of it when there is none). The surname is everything after that space. |
| Orders.NameRoundTrip | src/hooks/useOrders.ts:31-33 | Splitting the joined name gives back (name, surname) iff the name has no space. |
| Orders.NameWithSpaceReadsBackDifferently | src/hooks/useOrders.ts:31-33 | "Ana Maria" + "Silva" reads back as "Ana" + "Maria Silva". |
| Orders.DbOrderToOrder | src/hooks/useOrders.ts:30-56 | The id is the order number and the name is split back. A null optionals column gives []. The exterior colour, wheel type, optionals, total price, payment method, status and creation time are copied from the row. The interior is always `cream`, the store is "", and no installment is set. |
| Orders.CreateOrder | src/hooks/useOrders.ts:58-101 | The row carries the code generated from the draws, which is well formed. An insert error gives `{null, message}`. Success gives the row read back, with the code as id, the caller's store, and the requested price and status. |
| Orders.CreatedOrderMatchesRequest | src/hooks/useOrders.ts:72-100 | A created order matches its request in price, status, payment, colour, wheels, optionals and creation time. Its customer block matches iff the name has no space. |
| Orders.NormalizeOrderNumber | src/hooks/useOrders.ts:107 | The key is the trimmed input upper-cased. It is as long as the trim, and each character is the capital of the input character at the same place after the leading whitespace. It has no whitespace at either end and no lower-case letter. |
| Orders.SameKeyUpToCase | src/hooks/useOrders.ts:107 | Two inputs query the same key iff their trimmed texts differ at most in ASCII letter case. |
| Orders.NormalizeIgnoresPadding | src/hooks/useOrders.ts:107 | Whitespace typed before or after the code does not change the key. |
| Orders.NormalizeIdempotent | src/hooks/useOrders.ts:107 | Normalising a key twice is normalising it once. |
| Orders.OrderCodeIsNormal | src/hooks/useOrders.ts:107 | A well-formed order code is its own key. |
| Orders.NormalizeExample | src/hooks/useOrders.ts:107 | " vlo-abc123 " and "VLO-ABC123" both query "VLO-ABC123". |
| Orders.GetOrderByNumber | src/hooks/useOrders.ts:103-120 | The three outcomes stay distinct. A read error gives `{null, message}`, no row gives `{null, null}`, and a row gives `{order, null}`. |
| Orders.LookupIgnoresCaseAndPadding | src/hooks/useOrders.ts:103-108 | Two inputs whose trimmed texts differ at most in ASCII letter case get the same reply. So do an input and its normalised form. |
| Orders.CreatedOrderIsFound | src/hooks/useOrders.ts:103-120 | Looking up the code of a created order finds that order, with the store reading back empty. |
| Checkout.CreditRulesTotal | src/pages/Order.tsx:154-170 | Some rule of the ordered table always applies. |
| Checkout.DecideCredit | src/pages/Order.tsx:156-170 | First match wins. Approval happens iff (entry ≥ 50% and score < 700) or score > 700. Analysis happens iff 501 ≤ score ≤ 700 and rule 1 does not apply. Refusal happens iff score < 501 and entry < 50%. |
| Checkout.HighEntryTakesPrecedence | src/pages/Order.tsx:156-158 | An entry of at least half the total approves, even with a score ≤ 500. |
| Checkout.ScoreSevenHundredInAnalysis | src/pages/Order.tsx:156-166 | A score of exactly 700 goes to analysis, for every entry ratio. |
| Checkout.IntegerScoreBands | src/pages/Order.tsx:159-170 | Without a high entry, whole-number scores fall into bands: > 700 approved, 501..700 analysis, ≤ 500 refused. |
| Checkout.CreditBoundaryTable | src/pages/Order.tsx:156-170 | The boundary cases at 500, 500.5, 501, 650, 700 and 701. |
| Checkout.AmountToFinance | src/pages/Order.tsx:101 | Never negative. Zero iff the entry covers the total. Otherwise entry + amount = total. |
| Checkout.TotalFinanced | src/pages/Order.tsx:101-103 | The installment × 12 equals the financed amount × 1.02, which is at least the amount. |
| Checkout.InstallmentIsTwelfth | src/pages/Order.tsx:102-103 | The installment shown is one twelfth of the financed total. |
| Checkout.InterestIsTwoPercent | src/pages/Order.tsx:101-103 | The interest is the amount / 50: never negative, and positive iff the entry is below the total. |
| Checkout.FinalPrice | src/pages/Order.tsx:186-188 | Cash pays the plain total. Financing with an entry up to the total costs total + (total − entry)/50. With a non-negative entry that lies between the total and 1.02 × total, and equals the total when the entry pays it all. An entry above the total is itself the price. |
| Checkout.ValidateForm | src/pages/Order.tsx:61-69 | A field has an error iff its rule fails (name/surname ≥ 2, e-mail, phone/CPF ≥ 14, store ≥ 1, terms accepted). The error carries that rule's message. |
| Checkout.ValidateFormPasses | src/pages/Order.tsx:116-125 | The error map is empty iff every rule holds. |
| Checkout.SanitizeOptionals | src/pages/Order.tsx:190-194 | The result keeps the priced codes of the list, each as many times as it occurs, in order, and nothing else. Sanitising again changes nothing. This is the corrected own-key filter (see Findings). |
| Checkout.SanitizeKeepsPrice | src/pages/Order.tsx:190-194 | Dropping unpriced codes never changes the optionals' surcharge. |
| Checkout.SanitizedPrice | src/pages/Order.tsx:196-199 | The persisted configuration costs what the current one costs. |
| Checkout.SanitizeAsWrittenKeepsInheritedName | src/pages/Order.tsx:190-194 | Sanitised as written, `["precision-park", "toString"]` keeps `toString`. The corrected filter drops it. |
| Checkout.AsWrittenAgreesOffPrototype | src/pages/Order.tsx:190-194 | The filter as written and the corrected one give the same list exactly when no code names an `Object.prototype` member. |
| Checkout.RequestAsWritten | src/pages/Order.tsx:190-199 | Without such names among the optionals, the request carries what the filter as written keeps. |
| Checkout.CreditScore | src/pages/Order.tsx:134-149 | A score exists iff the call did not throw, returned no error, returned data, and the data's `score` is a number. That number is the score. |
| Checkout.OrderStatusFor | src/pages/Order.tsx:129-170 | Cash is approved without a score. Financing gets a status iff a score exists, and that status is the rule table on the score and entry/total. |
| Checkout.OrderRequestFor | src/pages/Order.tsx:190-214 | The request carries the configuration with sanitised optionals (nothing else changed), the final price, the form's customer block, the payment method and the status. The optionals go through the corrected own-key filter, not the `in` test at Order.tsx:192 (see Findings). |
| Checkout.PlaceOrder | src/pages/Order.tsx:201-233 | A failed insert shows its message, or "Tente novamente mais tarde." when there is none, and clears `isSubmitting`. Success returns the order `createOrder` returned, under the code generated from the draws, with the installment added (financing only) and the form's store, then resets the configuration. |
| Checkout.HandleSubmit | src/pages/Order.tsx:112-234 | An invalid form records ValidateForm's errors and calls nothing. A financed order without a score stops after the single credit call. Otherwise the request built from the decided status goes to `createOrder`, with optionals from the corrected own-key filter (see Findings). |
| Checkout.CashSkipsCreditCheck | src/pages/Order.tsx:129-132 | A cash order never calls the credit service. When placed, it is `APROVADO` at the plain table price. |
| Checkout.SubmitTrace | src/pages/Order.tsx:132-232 | A submission that reaches `createOrder` makes these calls: the credit call when financing, then `createOrder`, then the reset when the insert succeeded. |
| Checkout.StoppedEarlyCalls | src/pages/Order.tsx:117-183 | A submission that stops before `createOrder` places no order. It made no call, or only the credit call of a financed order. |
| Checkout.PlacedOrderSteps | src/pages/Order.tsx:112-234 | A placed order implies a valid form, a decided status and a successful insert. What follows is `PlaceOrder` on the request built from them. |
| Checkout.CreditCallComesFirst | src/pages/Order.tsx:132-136 | The credit service is called at most once, as the first call, only for financing, and with the form's CPF. |
| Checkout.CreateOrderCalledOnce | src/pages/Order.tsx:201-214 | `createOrder` is called at most once, only for a valid form with a decided status, with the request built from them. |
| Checkout.ResetComesLast | src/pages/Order.tsx:216-232 | The configuration is reset only after a placed order, as the last call. |
| Checkout.SubmitFailureOutcomes | src/pages/Order.tsx:112-234 | `isSubmitting` stays true only when an order is placed. An order fails iff the form is valid, a status was decided, and the insert failed. |
| Checkout.PlacedOrderCarriesCode | src/pages/Order.tsx:201-233 | A placed order is shown under the code generated from the draws, and that code is well formed. |
| Checkout.PlacedFinancedOrder | src/pages/Order.tsx:226-229 | A placed financed order costs entry + amount × 1.02. Its installment is one twelfth of the financed total. |
| CreditAnalysis.DigitsOnly | supabase/functions/credit-analysis/index.ts:39 | The cleaned CPF holds only digits: the input's digits, each as many times as it occurs, in order. |
| CreditAnalysis.DigitsOnlyIdempotent | supabase/functions/credit-analysis/index.ts:39 | Cleaning twice is cleaning once. |
| CreditAnalysis.DigitsOnlyConcat | supabase/functions/credit-analysis/index.ts:39 | Cleaning distributes over concatenation. |
| CreditAnalysis.DigitsOnlyOfDigits | supabase/functions/credit-analysis/index.ts:39 | A string of digits is unchanged. A string without digits becomes empty. |
| CreditAnalysis.MaskCpf | src/pages/Order.tsx:319-322 | The mask `999.999.999-99` turns 11 digits into 14 characters, the length the form schema requires. |
| CreditAnalysis.StripUndoesMask | supabase/functions/credit-analysis/index.ts:39 | Cleaning a masked CPF gives back its 11 digits. |
| CreditAnalysis.ReadCpf | supabase/functions/credit-analysis/index.ts:26 | Reading throws iff the body is not JSON or is `null`. Otherwise the result is the `cpf` field, or undefined. |
| CreditAnalysis.AnswerReply | supabase/functions/credit-analysis/index.ts:63-98 | Not ok gives 502. An unreadable or null body gives 503. A non-number score gives 502. Otherwise 200, with the score unchanged and `status` = data.status if truthy, else "Done". |
| CreditAnalysis.HandleRequest | supabase/functions/credit-analysis/index.ts:19-111 | OPTIONS gives 200 with the CORS headers, no body and no call. The bureau is called iff the CPF is a non-empty string, with its digits. A falsy or absent CPF gives 400. Other failures before the call give 503. |
| CreditAnalysis.EveryAnswerAllowsAnyOrigin | supabase/functions/credit-analysis/index.ts:19-111 | Every answer allows any origin. Its status is 200, 400, 502 or 503. |
| CreditAnalysis.ScoreComesFromBureau | supabase/functions/credit-analysis/index.ts:74-98 | A 200 answer to a POST carries exactly the score of an ok reply to a digits-only query. |
| CreditAnalysis.MaskedCpfQuery | supabase/functions/credit-analysis/index.ts:39-61 | A masked CPF is sent to the bureau as its 11 digits. |
| CreditAnalysis.MissingCpfRefused | supabase/functions/credit-analysis/index.ts:28-36 | A missing or falsy CPF gets 400 with no bureau call. |
| OrderLookup.EditOrderId | src/pages/OrderLookup.tsx:93 | Typing changes only the text. |
| OrderLookup.SearchDisabled | src/pages/OrderLookup.tsx:101 | The button is disabled iff a search is loading or the input is all whitespace. |
| OrderLookup.SearchInFlight | src/pages/OrderLookup.tsx:47-49 | A search first clears the result and the not-found flag, and sets loading. |
| OrderLookup.HandleSearch | src/pages/OrderLookup.tsx:45-65 | Loading ends. Exactly one of the result and the not-found card shows. The result is the order iff the read found a row. |
| OrderLookup.InitialSearchDisabled | src/pages/OrderLookup.tsx:40-43 | The page opens with an empty input and no result, so the search button starts disabled. |
| OrderLookup.InFlightDisablesSearch | src/pages/OrderLookup.tsx:101 | The button is disabled while a search runs. |
| OrderLookup.SearchForgetsPreviousResult | src/pages/OrderLookup.tsx:45-65 | The outcome depends only on the typed text, not on what was shown before. |
| OrderLookup.EnabledSearchHasKey | src/pages/OrderLookup.tsx:101 | A search the button allows never queries the empty key. |
| OrderLookup.StatusBadge | src/pages/OrderLookup.tsx:150-154 | The badge is green iff the status is `APROVADO`. |
| OrderLookup.BadgeOfDecision | src/pages/OrderLookup.tsx:150-154 | Only approval is green. Analysis shows the same red as refusal. |
| OrderLookup.SearchShowsCreatedOrder | src/pages/OrderLookup.tsx:45-65 | Searching for a created order's code (in any case, padded or not) shows that order. Its badge is green iff the credit decision approved it. |

## Left out

- `calculateInstallment` (src/store/configuratorStore.ts:84-90): it uses floating-point `Math.pow` and `Math.round`, and no modelled path calls it.
- `formatPrice`: locale formatting through `Intl.NumberFormat`.
- Floating-point behaviour of the finance math: money is exact `real`, so rounding of `/ 12 * 1.02 * 12` is not modelled.
- I/O is not modelled; each operation appears only through its reply, supplied as an input:
  - the Supabase `insert`, `select` and `functions.invoke`;
  - `fetch` to the bureau;
  - Deno `serve`;
  - the `localStorage` persistence;
  - `toast`;
  - `navigate`.
- `crypto.getRandomValues` and the bearer token built from it, the console logging, and the bureau's URL from the environment (supabase/functions/credit-analysis/index.ts:9-17, 41-44): they do not affect any answer.
- `createOrder` throwing: the Supabase client reports failures in its `error` field, so an exception escaping `handleSubmit` after the credit step is not modelled.
- `Checkout.ValidateForm`: the e-mail check is an opaque predicate `isEmail`, not zod's regular expression. Lengths count characters, not UTF-16 code units.
- `Checkout.DecideCredit`: the score is a real number; a JavaScript `NaN` or infinite score is not modelled.
- `Strings.ToUpper`: only ASCII letters are upper-cased. The rest of Unicode case mapping is not modelled; order codes are ASCII.
- ConfiguratorStore.ToggleOptional: the store's configuration is typed, so its optionals are always a list of codes. The `|| []` guard at src/store/configuratorStore.ts:131, which handles a rehydrated `null` or missing list, is not modelled, and neither is a rehydrated list holding non-strings. Only `Catalog.CalculateTotalPrice` takes the raw JSON value.
- `ConfiguratorStore.Migrate`: a truthy `configuration` that is not an object (a string, a number, an array) is not modelled. A JSON value with fields is always an object here.
- `Orders.CreateOrder`: the database is taken to store and return the inserted values unchanged. Only `id`, `created_at` and `updated_at` come from it.
- `CreditAnalysis.HandleRequest`: the headers are modelled as a map of names to values. Header-name case-insensitivity is not modelled.
- The presentational pages and components, and the browser tests under `playwright/`: they hold no logic beyond what is modelled here.

## Findings

| source | as written | input that shows it | evidently intended | confidence | as-written member | corrected member |
|---|---|---|---|---|---|---|
| src/store/configuratorStore.ts:182-184 | `opt in OPTIONAL_PRICES` is also true for names inherited from `Object.prototype` | persisted optionals `["toString"]` survive the migration | keep only own keys of the price table | not executed | ConfiguratorStore.MigrateAsWritten | ConfiguratorStore.Migrate |
| src/pages/Order.tsx:190-194 | the same `in` test when sanitising the optionals of a new order | optionals `["precision-park", "toString"]` are persisted unchanged | persist only priced codes | not executed | Checkout.SanitizeOptionalsAsWritten | Checkout.SanitizeOptionals |

The lemmas `ConfiguratorStore.MigrateAsWrittenKeepsInheritedName` and `Checkout.SanitizeAsWrittenKeepsInheritedName` state both counterexamples. Neither slip changes a price: the inherited members are functions or objects, which `calculateTotalPrice` skips (`Catalog.UnknownItemAddsNothing`). They do let an unknown code reach the `orders` table.
