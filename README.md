# Price-alert bot: a Dafny model

This project models the core of a Telegram bot that watches product prices on
three Russian marketplaces (Ozon, Wildberries, Yandex Market) and alerts a user
once a product's price has reached the target the user set for it.

The parts modelled:

- **The price checker.** For each product stored for a user, it fetches the
  current price. When the price is truthy and at most the target, and the
  product's URL is not yet in the user's `parsed` set, it sends one alert and
  then adds the URL to the set. A monitoring cycle does this for every product
  of every user the store lists. (`PriceChecking`, `Notifications`)
- **The Redis adapter.** Each user owns three keys: the `user:{id}` hash with
  `token` and `is_active`, the `products:{id}` list, and the `parsed:{id}` set.
  The adapter also walks the `SCAN` cursor over `user:*` keys. (`RedisStore`)
- **The pure helpers.** `to_snake_case`, `normalize_keys`, `validate_url` and
  `extract_product_id`. (`Helpers`)
- **The price text rules.** Which CSS selector is read for which shop, how the
  element text is cleaned into a number, and how every failure of `get_price`
  becomes `None`. (`PriceParser`)
- **The watch-list API.** It saves and reads back a user's products, both
  behind a token check. The save stores each product's `dict()` with its
  camel-case keys, as the code does. A second, separately named save applies
  `normalize_keys` first, which is what the price checker needs (see
  Findings). (`BackendApi`)
- **The account handlers.** Register unless a token is stored; delete
  unconditionally. The handlers as written `await` the synchronous adapter;
  both that and the awaitable variant are modelled (see Findings).
  (`Accounts`)

The remaining modules are support. `PyBuiltins` holds the Python string and
integer built-ins the code relies on, such as `str.replace`, `str.split`,
`int()` and `str()`. `JsonValue` holds decoded JSON values and `d[key]`.
`Wrappers` holds `Option` and `Result`.

Three collaborators become parameters:

- the HTTP fetch and the HTML selector lookup;
- the chat platform's answer to `send_message`;
- the token generator.

Prices are `real` numbers. A Python exception is a value of the `Exception`
datatype, returned in a `Result` or as an `Option` error.

State that the source changes in place is modelled imperatively:

- `RedisStore.RedisClient` keeps the three key families as maps and updates
  them in its methods. Each method ensures that the new `State()` is the
  matching specification function (`AfterSaveUser`, `AfterSaveProducts`, …)
  applied to the old state.
- `PriceChecking.PriceChecker` runs the checks against that client and a
  `NotificationService` whose log of delivered alerts grows.
- Its loops are proved against the left folds `CheckProducts`, `CheckUsers`
  and `Cycle`. The properties of the checker are lemmas about those folds:
  at most one alert per (user, URL), and nothing left to alert after a clean
  cycle.

## Model

| member | source | states |
|---|---|---|
| PyBuiltins.ReplaceAll | bot/utils/helpers.py:34 | `str.replace` leaves a string without the pattern unchanged |
| PyBuiltins.ReplaceChar | bot/services/parser.py:32 | replacing one character by another keeps the length, puts the new character at every position of the old one and leaves every other position as it was |
| PyBuiltins.Split | database/redis_client.py:39 | `key.split(':')` gives at least one part, no part holds `:`, and joining the parts with `:` gives back the key |
| PyBuiltins.ParseIntOfDecimal | database/redis_client.py:39-40 | `int(str(n)) == n` for every integer, negative ones included |
| JsonValue.Subscript | bot/services/price_checker.py:14 | `product[key]` succeeds exactly when the record is a dict holding the key and then yields its value; a dict without the key raises `KeyError(key)` |
| JsonValue.NumericValue | bot/services/price_checker.py:15 | a target compared with `<=` is a number or a bool (as 0/1); anything else raises `TypeError` |
| Helpers.ToSnakeCase | bot/utils/helpers.py:7-8 | the result has no capital letters and is empty exactly when the input is |
| Helpers.ToSnakeCaseAppend | bot/utils/helpers.py:7-8 | read left to right, each character is lower-cased and a capital after position 0 gets an underscore before it |
| Helpers.ToSnakeCaseKeepsSnake | bot/utils/helpers.py:8 | a name without capitals is returned unchanged |
| Helpers.ToSnakeCaseIdempotent | bot/utils/helpers.py:8 | applying `to_snake_case` twice equals applying it once |
| Helpers.ToSnakeCaseOneCapital | bot/utils/helpers.py:7-8 | a lower-case name with one capital inside becomes the name with `_` and that letter in lower case in its place (`targetPrice` to `target_price`, `productUrl` to `product_url`, `imageUrl` to `image_url`) |
| Helpers.Put | bot/utils/helpers.py:14 | a dict assignment makes the key map to the new value, keeps every other key and keeps keys distinct |
| Helpers.NormalizeKeys | bot/utils/helpers.py:10-16 | lists are mapped element by element with the same length and order; dicts stay dicts with distinct keys; scalars are unchanged |
| Helpers.NormalizeFields | bot/utils/helpers.py:14 | the dict comprehension over the first pairs never holds a key twice |
| Helpers.NormalizeKeysLookup | bot/utils/helpers.py:14 | a renamed key holds the normalized value of the last original key renamed to it, so on a collision the later key wins |
| Helpers.MarketplaceIn | bot/utils/helpers.py:48-49 | the first of ozon.ru, wildberries.ru, market.yandex.ru occurring as a substring; `None` exactly when none occurs |
| Helpers.UrlSplit | bot/utils/helpers.py:29 | `urlparse` raises only `ValueError`; a non-empty netloc comes from text starting with `//` after the scheme |
| Helpers.ValidateUrl | bot/utils/helpers.py:26-38 | returns the URL itself or `None`; it accepts exactly when the scheme and netloc are non-empty and the netloc, with every `www.` removed, ends with a supported domain |
| Helpers.ValidateUrlOfHost | bot/utils/helpers.py:29-36 | for `scheme://host` plus a path, the URL is accepted exactly when the host is non-empty and ends with a supported domain after removing `www.` |
| Helpers.ValidateUrlAcceptsWww | bot/utils/helpers.py:34-36 | `https://www.ozon.ru…` is accepted whatever path follows |
| Helpers.ValidateUrlAcceptsLookAlike | bot/utils/helpers.py:33-36 | any host without `www.` that ends with a supported domain is accepted, whatever comes before the domain, so a look-alike such as `xozon.ru` passes |
| Helpers.SupportedSuffix | bot/utils/helpers.py:33-36 | `any(domain.endswith(d) for d in supported_domains)` holds exactly when the domain ends with the domain of some marketplace |
| Helpers.PortUnsupported | bot/utils/helpers.py:34-36 | a netloc `host:port` with a digit port ends with no supported domain even after `www.` is removed |
| Helpers.ValidateUrlRejectsPort | bot/utils/helpers.py:33-36 | a netloc with an explicit port ends with a digit and is always refused |
| Helpers.IdRun | bot/utils/helpers.py:43-45 | the greedy capture: the longest prefix of id characters (`\d` for Wildberries, `[^/?]` otherwise) |
| Helpers.FirstMatch | bot/utils/helpers.py:50 | `re.search` finds the leftmost index where the pattern matches, or `None` when it matches nowhere |
| Helpers.ExtractProductId | bot/utils/helpers.py:40-52 | no supported domain gives `None`; a found id is non-empty and comes from a supported domain |
| Helpers.ExtractProductIdNone | bot/utils/helpers.py:48-52 | `None` exactly when no domain occurs or the pattern of the first domain found matches nowhere; later domains are never tried |
| Helpers.ExtractProductIdFound | bot/utils/helpers.py:50-51 | a found id is the capture of the leftmost match of the first domain's pattern |
| Helpers.ExtractProductIdChars | bot/utils/helpers.py:43-45 | a Wildberries id is all digits; other ids hold no `/` and no `?` |
| PriceParser.KeepPriceChars | bot/services/parser.py:32 | keeps only digits and points, never lengthens the text, and is the identity on such text |
| PriceParser.CleanPriceText | bot/services/parser.py:32 | the cleaned text holds only digits and points |
| PriceParser.CleanPriceTextConcat | bot/services/parser.py:32 | cleaning works piece by piece: cleaning `a + b` gives `clean(a) + clean(b)` |
| PriceParser.CleanPriceTextIdempotent | bot/services/parser.py:32 | cleaning twice equals cleaning once |
| PriceParser.CleanPriceTextOfNoise | bot/services/parser.py:32 | text without digits, points or commas cleans to the empty string |
| PriceParser.CleanPriceTextOfDigits | bot/services/parser.py:32 | a digit string cleans to itself |
| PriceParser.CleanPriceTextChars | bot/services/parser.py:32 | cleaning first turns every comma into a point and then keeps only the digits and points |
| PriceParser.CleanPriceTextOfComma | bot/services/parser.py:32 | a comma cleans to a point |
| PriceParser.CommaPrice | bot/services/parser.py:32 | digits, a decimal comma and digits clean to the same digits around a decimal point |
| PriceParser.ParseDecimal | bot/services/parser.py:32 | `float()` of cleaned text is non-negative and needs at least one digit |
| PriceParser.ParseDecimalOfNat | bot/services/parser.py:32 | `float(str(n)) == n` for a whole number |
| PriceParser.ParsePrice | bot/services/parser.py:18-34 | an unsupported URL or a missing element gives `None`; otherwise the element that the shop's selector (`Selector`, parser.py:21-26) picks is cleaned, and the result is its number or, when the cleaned text is no number, `ValueError`, the only exception |
| PriceParser.GetPrice | bot/services/parser.py:7-16 | a failed request or a status other than 200 gives `None`; on a 200 page the result is `_parse_price`'s, with `ValueError` turned into `None`; a price is non-negative |
| PriceParser.ParseGroupedPrice | bot/services/parser.py:32 | a price shown as `thousands units sign` reads as the number its digits spell |
| PriceParser.ParseThousandRoubles | tests/test_price_parser.py:6-18 | on a 200 page whose price element reads `1 000 ₽`, `_parse_price` and `get_price` both give 1000 |
| PriceParser.GetPriceSwallowsValueError | bot/services/parser.py:9-16 | element text with no digit makes `_parse_price` raise `ValueError`, and `get_price` returns `None` |
| RedisStore.UserHash | database/redis_client.py:30-31 | a user without a hash reads as the empty dict |
| RedisStore.TokenOf | database/redis_client.py:12-13 | the token is present exactly when the hash has a `token` field, and is that field's value |
| RedisStore.ProductsOf | database/redis_client.py:24-28 | a missing list reads as `[]` |
| RedisStore.AfterSaveUser | database/redis_client.py:8-10 | sets `token` and `is_active = "1"` in this user's hash; other users, products and parsed sets are untouched; Redis validity is kept |
| RedisStore.AfterDeleteUser | database/redis_client.py:15-17 | removes this user's hash and product list; other users and every parsed set are untouched |
| RedisStore.AfterSaveProducts | database/redis_client.py:19-22 | the user's list becomes exactly the given products in order; other users' lists are untouched |
| RedisStore.AfterMarkParsed | tests/test_redis_client.py:81-86 | adds the URL to this user's parsed set only |
| RedisStore.ReadsDetermineKeyspace | database/redis_client.py:12-31 | two keyspaces Redis can hold that give the same answers to `HGETALL`, `LRANGE` and `SMEMBERS` for every user are the same keyspace |
| RedisStore.SaveUserThenRead | database/redis_client.py:8-13 | after `save_user` the token reads back, `is_active` is `"1"` and the products are unchanged |
| RedisStore.SaveUserIdempotent | database/redis_client.py:8-10 | saving a user twice with one token equals saving once |
| RedisStore.DeleteUserForgets | database/redis_client.py:15-17 | after delete there is no token and no product, and the parsed set is unchanged |
| RedisStore.SaveProductsReplaces | database/redis_client.py:19-22 | a second save replaces the first entirely |
| RedisStore.MarkParsedIdempotent | tests/test_redis_client.py:72-86 | a marked URL is parsed, and marking it twice equals marking once |
| RedisStore.KeyUserId | database/redis_client.py:39-40 | a key without `:` raises `IndexError`; the only other failure is `ValueError` |
| RedisStore.KeyUserIdOfUserKey | database/redis_client.py:39-40 | `int(f"user:{id}".split(':')[1]) == id` |
| RedisStore.ScanStep | database/redis_client.py:37 | the keys from a cursor are that page's keys followed by the keys of the pages after it |
| RedisStore.UserIds | database/redis_client.py:38-40 | a successful listing has one id per key |
| RedisStore.UserIdsAt | database/redis_client.py:38-40 | the id at each position is parsed from the key at that position |
| RedisStore.UserIdsFailureSticks | database/redis_client.py:38-40 | after a malformed key raises, later keys do not change the outcome |
| RedisStore.UserIdsOfParsed | database/redis_client.py:38-40 | keys that each parse list exactly their ids, in order |
| RedisStore.UserIdsStep | database/redis_client.py:38-40 | one more key either appends its id or ends the whole listing with its exception |
| RedisStore.UserIdsOfUserKeys | database/redis_client.py:38-40 | the keys `user:{id}` list their ids back in order |
| RedisStore.ListedCoversStored | database/redis_client.py:33-43 | when the scan pages hold the key of every stored user, a successful listing names every stored user |
| RedisStore.GetAllUsersTwoPages | tests/test_redis_client.py:64-70 | scan pages `user:12345` (cursor 1) then `user:67890` (cursor 0) list `[12345, 67890]` |
| RedisStore.TwoPages | database/redis_client.py:33-43 | two one-key pages, whatever the middle cursor, list the two ids in page order |
| RedisStore.ScanPage | database/redis_client.py:36-42 | one page of the walk: the keys seen grow by the page, and a key that raises there ends the listing with that exception |
| RedisStore.IsZeroText | database/redis_client.py:41 | `cursor == '0'` holds exactly for the text `"0"`, never for an `int` cursor |
| RedisStore.IntCursorNeverEnds | database/redis_client.py:36-42 | with the `int` cursors of the client library, no number of `SCAN` calls ends the loop |
| RedisStore.RedisClient.constructor | database/redis_client.py:4-5 | a new client sees the keyspace of the database it connects to |
| RedisStore.RedisClient.SaveUser | database/redis_client.py:8-10 | two `HSET`s; the new state is `AfterSaveUser` of the old one |
| RedisStore.RedisClient.GetUserToken | database/redis_client.py:12-13 | returns `TokenOf` the current state |
| RedisStore.RedisClient.DeleteUser | database/redis_client.py:15-17 | two `DEL`s; the new state is `AfterDeleteUser` of the old one |
| RedisStore.RedisClient.SaveProducts | database/redis_client.py:19-22 | `DEL`, then an `RPUSH` loop; the new state is `AfterSaveProducts` of the old one |
| RedisStore.RedisClient.GetProducts | database/redis_client.py:24-28 | returns the stored list, `[]` for none |
| RedisStore.RedisClient.GetUser | database/redis_client.py:30-31 | returns the whole hash |
| RedisStore.RedisClient.IsAlreadyParsed | tests/test_redis_client.py:72-79 | true exactly when the URL is in the user's parsed set |
| RedisStore.RedisClient.MarkAsParsed | tests/test_redis_client.py:81-86 | the new state is `AfterMarkParsed` of the old one |
| RedisStore.RedisClient.GetAllUsers | database/redis_client.py:33-43 | the cursor loop returns the ids of all keys on all pages up to the one handed back with cursor `"0"`, or the first key's exception |
| RedisStore.AppendUserIds | database/redis_client.py:38-40 | the inner loop extends the ids by those of one page, stopping at the first malformed key |
| Notifications.NotificationService.SendPriceAlert | bot/services/notification_service.py:8-18 | a delivered alert is appended to the log; a refused one raises and the log is unchanged |
| PriceChecking.FetchedPrice | bot/services/price_checker.py:14 | a price is only fetched for a string URL |
| PriceChecking.Decide | bot/services/price_checker.py:13-24 | an alert carries the user, title, fetched price, target and URL of a record whose price is truthy, `<=` the target and not yet parsed; a missing `product_url` raises first; no or zero price is quiet |
| PriceChecking.DecideNotifies | bot/services/price_checker.py:15-23 | conversely, such a record gets exactly that alert, equality with the target included |
| PriceChecking.DecideAboveTarget | bot/services/price_checker.py:15 | a price above the target never alerts |
| PriceChecking.DecideQuietStays | bot/services/price_checker.py:16 | a quiet decision stays quiet when the parsed set grows |
| PriceChecking.VerdictError | bot/services/price_checker.py:13-24 | a check raises nothing exactly when it was quiet or its alert was delivered |
| PriceChecking.CheckProduct | bot/services/price_checker.py:13-24 | marks the URL and logs the alert only when the alert was delivered; otherwise the store and log are unchanged; users and products are never touched and the parsed sets only grow |
| PriceChecking.CheckProducts | bot/services/price_checker.py:31-32 | the checks of one user's products leave users and products unchanged, grow the parsed sets and extend the log |
| PriceChecking.CheckUsers | bot/services/price_checker.py:29-32 | the same for all users, each user's products read when the user's turn comes |
| PriceChecking.CheckUsersStops | bot/services/price_checker.py:29-32 | once a user's checks raised, later users are not checked |
| PriceChecking.Cycle | bot/services/price_checker.py:27-33 | a cycle whose listing raised changes nothing; otherwise it checks every listed user |
| PriceChecking.CheckProductKeepsAlertsOnce | bot/services/price_checker.py:16-24 | a check keeps the invariant that every sent alert's URL is parsed and no (user, URL) is alerted twice |
| PriceChecking.CheckProductsKeepsAlertsOnce | bot/services/price_checker.py:31-32 | the checks of one user keep the invariant |
| PriceChecking.CheckUsersKeepsAlertsOnce | bot/services/price_checker.py:29-32 | the checks of all users keep the invariant |
| PriceChecking.CycleKeepsAlertsOnce | bot/services/price_checker.py:26-33 | every cycle keeps it, so any number of cycles alerts each (user, URL) at most once |
| PriceChecking.CheckProductSettles | bot/services/price_checker.py:16-24 | after a check that raised nothing, the same product is quiet |
| PriceChecking.CheckProductsSettles | bot/services/price_checker.py:31-32 | after a user's checks raised nothing, each of that user's products is quiet |
| PriceChecking.CheckUsersSettles | bot/services/price_checker.py:28-32 | after a clean cycle every product of every listed user was checked and is quiet |
| PriceChecking.CycleSettlesStoredUsers | bot/services/price_checker.py:26-32 | after a clean cycle over a scan that covers the stored users, every product of every stored user is quiet |
| PriceChecking.PriceChecker.CheckPriceForProduct | bot/services/price_checker.py:13-24 | the store, the alert log and the raised exception are those of `CheckProduct` |
| PriceChecking.PriceChecker.CheckUserProducts | bot/services/price_checker.py:30-32 | the loop over one user's products ends in the state `CheckProducts` describes |
| PriceChecking.PriceChecker.RunCycle | bot/services/price_checker.py:28-32 | one pass of the monitoring loop ends in the state `Cycle` describes for the listing `get_all_users` returns |
| PriceChecking.OneOfTwoAlerts | tests/test_price_checker.py:93-119 | of two products, one at or below and one above its target, only the first is alerted and marked |
| PriceChecking.OneOfTwoRecords | tests/test_price_checker.py:93-119 | for two stored records of a user with nothing marked, one fetched at or below and one above its target, exactly the first is alerted and only its URL is marked |
| PriceChecking.TwoProductsOneAlert | tests/test_price_checker.py:93-119 | prices 900 against 950 and 1900 against 1800 send exactly the alert for `Product 1` |
| BackendApi.ProductDict | backend_api.py:45 | `product.dict()` is a dict with the six declared fields under their camel-case names |
| BackendApi.ProductDicts | backend_api.py:45 | one dict per submitted product, in request order |
| BackendApi.ReadProduct | backend_api.py:28-34 | a record reads as a product only when it is a dict holding the six fields with the right kinds under the given names, and the product's URL is the one under the fifth name (`productUrl` for `Product` validation, `product_url` for the checker) |
| BackendApi.ProductDictFields | backend_api.py:45 | each field of the product is found in its dict under its declared name |
| BackendApi.ProductDictRoundTrip | backend_api.py:28-45 | a product's dict validates back into the same product |
| BackendApi.AfterApiSave | backend_api.py:41-59 | 403 `Invalid token` exactly when the token differs from the stored one (none for an unknown user), with nothing written; otherwise the list is replaced by the products' dicts in order and nothing else changes |
| BackendApi.ApiGet | backend_api.py:61-74 | 403 exactly when the token differs; otherwise the stored list |
| BackendApi.SaveThenGet | backend_api.py:52-70 | save and then get with a valid token return the products' dicts in the same order, each validating back into the product sent |
| BackendApi.SaveKeepsToken | backend_api.py:47-55 | a save never changes any user's token |
| BackendApi.CheckerRejectsProductDict | backend_api.py:45 | a product dict has no `product_url`, so the checker raises `KeyError('product_url')` on it |
| BackendApi.SavedProductsRaise | backend_api.py:45-55 | after a successful save, the checker raises `KeyError('product_url')` on every product in that user's list |
| BackendApi.CheckProductsAllRaise | bot/services/price_checker.py:31-32 | checks that all raise one exception send nothing, mark nothing and leave that exception |
| BackendApi.SavedProductsNeverAlert | backend_api.py:45-55 | the user's checks after a save send no alert, mark no URL, and a non-empty list ends in `KeyError('product_url')` |
| BackendApi.NormalizedRecord | bot/utils/helpers.py:10-16 | the product dict after `normalize_keys` is still a dict |
| BackendApi.NormalizedRecords | bot/utils/helpers.py:10-12 | one normalized record per product, in order |
| BackendApi.LastRenamedAt | bot/utils/helpers.py:14 | the last pair whose key renames to a name is the one the comprehension keeps |
| BackendApi.NormalizedRecordFields | bot/utils/helpers.py:14 | each field of a normalized record is found under its snake-case key |
| BackendApi.NormalizedRecordRoundTrip | bot/utils/helpers.py:10-16 | a normalized record reads back as the submitted product |
| BackendApi.AfterApiSaveNormalized | backend_api.py:41-59 | the save with `normalize_keys` applied: the same 403 cases; otherwise the list becomes the normalized records in order and nothing else changes |
| BackendApi.SaveThenGetNormalized | backend_api.py:52-70 | with the keys renamed, save and then get return records that read as the same products in the same order |
| BackendApi.CheckerReadsNormalizedRecord | bot/services/price_checker.py:14-23 | a normalized record whose fetched price is non-zero, at most its target and not yet parsed alerts with its title, price, target and URL |
| BackendApi.NormalizedSaveAlerts | backend_api.py:52-55 | after a save with the keys renamed, each product whose price reached its target alerts with its own fields |
| BackendApi.Api.SaveProducts | backend_api.py:41-59 | the endpoint returns 403 and leaves the store unchanged, or ends in the state `AfterApiSave` describes |
| BackendApi.Api.GetProducts | backend_api.py:61-74 | the endpoint answers `ApiGet` of the current state |
| Accounts.AfterRegistration | bot/handlers/registration.py:13-22 | a user with a non-empty token is left as is; any other user gets the generated token and `is_active = "1"`; products and parsed sets never change |
| Accounts.RegistrationReply | bot/handlers/registration.py:15-22 | "already registered" exactly when a non-empty token is stored; otherwise the reply shows the generated token |
| Accounts.RegisterTwiceKeepsFirst | bot/handlers/registration.py:15-22 | registering twice keeps the first token and the second call only answers "already registered" |
| Accounts.DeleteThenRegister | bot/handlers/registration.py:82-84 | after deleting, registration succeeds with the new token and an empty list |
| Accounts.EmptyTokenIsReplaced | bot/handlers/registration.py:17 | a stored empty token is falsy and is overwritten |
| Accounts.Invoke | bot/handlers/registration.py:15 | a call hands back a coroutine exactly when the adapter is asynchronous |
| Accounts.Await | bot/handlers/registration.py:15 | `await` of a coroutine gives its result; of a plain value raises `TypeError` |
| Accounts.RegistrationAsWritten | bot/handlers/registration.py:13-22 | `RegistrationHandler` with the synchronous adapter raises `TypeError` and writes nothing, so a user without a token stays without one |
| Accounts.RegistrationAwaited | bot/handlers/registration.py:13-22 | `RegistrationHandler` with awaitable calls has the store effect `AfterRegistration` and the reply `RegistrationReply` |
| Accounts.DeleteAccountAsWritten | bot/handlers/registration.py:82-95 | `DeleteAccountHandler` with the synchronous adapter deletes the user and then raises `TypeError`, so no confirmation is sent |
| Accounts.DeleteAccountAwaited | bot/handlers/registration.py:82-95 | `DeleteAccountHandler` with awaitable calls deletes the user and confirms |
| Accounts.Handlers.Registration | bot/handlers/registration.py:12-22 | reads the token, then saves the user only if none was stored; the state and reply are `AfterRegistration` and `RegistrationReply` |
| Accounts.Handlers.RegistrationCallback | bot/handlers/registration.py:47-57 | the same store effect and reply as the command |
| Accounts.Handlers.DeleteAccount | bot/handlers/registration.py:81-84 | deletes the user whatever the state |
| Accounts.Handlers.DeleteAccountCallback | bot/handlers/registration.py:98-101 | the same store effect as the command |

## Left out

- The `while True` loop, `asyncio.sleep(3600)` and the concurrency of `asyncio.gather` (bot/services/price_checker.py:26-33). One pass is modelled, with the checks run one after the other in list order. Under `gather`, two products of one user with the same URL could both pass the `parsed` test before either is marked. The sequential model does not capture that race.
- PriceChecking.CheckProducts: when a check raises, the model still runs the remaining checks of that user and keeps the first exception, then ends the cycle. Under `gather` the remaining tasks keep running while the exception leaves `start_monitoring`, which ends the monitoring loop; a stopped monitor is not modelled.
- PriceChecking.Cycle: the price source `priceOf` and the delivery answer `deliver` are fixed within a cycle; changing pages and a flaky chat platform are only modelled between cycles.
- The `parsed` set is never cleared by the code. A user is therefore alerted at most once per URL, even after the price rises and falls again, or after the account is deleted and re-created. The model keeps this behaviour of the code. No operation of the code removes a URL from `parsed:{id}`.
- `is_already_parsed` and `mark_as_parsed` are called by the checker but not defined in database/redis_client.py. They are modelled as `SISMEMBER` and `SADD` on `parsed:{id}`.
- Accounts.Handlers: the class methods model the handlers with awaitable adapter calls, the behaviour the handlers evidently intend. The handlers as written with the synchronous adapter are `RegistrationHandler` and `DeleteAccountHandler` (see Findings).
- Float behaviour: `float()` is read as an exact decimal (`ParseDecimal`), and the `<=` comparison is exact on reals. Binary rounding, `inf`/`nan` and exponent notation are left out.
- The `print` logging calls (backend_api.py:57 and 72, bot/services/parser.py:15) are console output only and are left out.
- `format_price` and the message text of the alert are left out. The alert keeps only its five arguments.
- Python's `int()` also accepts surrounding whitespace, underscores between digits and non-ASCII digits; `ParseInt` accepts only an optional sign and ASCII digits. `str.lower` and `\d` are modelled for ASCII only.
- `urlparse` is modelled for the parts `validate_url` reads. It strips leading C0 and space characters, removes tab, CR and LF, splits off a scheme of ASCII letters, digits, `+`, `-` and `.`, and takes the netloc after `//`. An unbalanced `[` or `]` raises `ValueError`. Two further checks are not modelled: the validation of an IPv6 address inside brackets, and the NFKC check on a non-ASCII netloc. Both raise `ValueError` in Python, which `validate_url` turns into `None`; in the model such URLs are judged by the suffix test alone.
- Token generation (`uuid4`, and the MD5-of-timestamp helper) is a parameter of the registration handlers.
- The HTTP fetch, HTML parsing (BeautifulSoup `select_one`), `bot.send_message`, FastAPI/CORS set-up and the Redis connection are all parameters or left out. `ParsePrice` takes the selector lookup as a function; `GetPrice` takes the fetch result as a value.
- JSON encoding: the store keeps decoded values, so `json.loads(json.dumps(x)) == x` is taken as given.
- The `SCAN` server is a function from a cursor to a reply, and the number of pages is bounded by a ghost `fuel`. A server whose cursor never returns to `"0"` is not modelled; the source would loop forever on it.
- Keys of other shapes (`user:1:extra`, non-`user:` keys that the `MATCH` filter lets through) are parsed as the source does. The `MATCH user:*` filtering itself belongs to the server.
- bot/services/session_manager.py, bot/handlers/notifications.py, main.py and config/settings.py are not part of this model.
- The reply texts and keyboards of the handlers are reduced to the kind of reply and the token shown.
- A stored target price that is a JSON bool compares as 0 or 1, as in Python. `format_price` of such a target is not modelled.

## Findings

| source | as written | input that shows it | evidently intended | confidence | as-written member | corrected member |
|---|---|---|---|---|---|---|
| backend_api.py:45 | `save_products` stores `product.dict()` with the camel-case keys `productUrl`, `targetPrice` and `imageUrl`, while the price checker reads `product['product_url']`, `product['target_price']` and `product['title']` (bot/services/price_checker.py:14-22) | any product saved through `POST /api/save-products`: its first check raises `KeyError('product_url')` and no alert is ever sent for it | the keys are renamed with `normalize_keys` (bot/utils/helpers.py:10-16, defined but never called) before the record is stored | medium, not executed | BackendApi.SavedProductsNeverAlert | BackendApi.NormalizedSaveAlerts |
| bot/handlers/registration.py:15 | the handler awaits `get_user_token`, a synchronous method of database/redis_client.py that returns a `str` or `None` | `/registration` from a user without a token: `await None` raises `TypeError`, nothing is saved and no reply is sent | the adapter calls are awaitable (or not awaited), so the token is checked and saved | medium, not executed | Accounts.RegistrationAsWritten | Accounts.RegistrationAwaited |
| bot/handlers/registration.py:84 | the handler awaits `delete_user`, which deletes both keys and returns `None` | any `/delete_account`: the data is deleted, then `await None` raises `TypeError` and the confirmation is not sent | the call is awaitable (or not awaited), so the user is told the account was deleted | medium, not executed | Accounts.DeleteAccountAsWritten | Accounts.DeleteAccountAwaited |
| database/redis_client.py:41 | the loop ends when `cursor == '0'`, but the Redis client library returns the cursor of `SCAN` as an `int`, and an `int` never equals the text `'0'` | any call of `get_all_users` against a real server: even when `SCAN` answers with cursor `0`, the test fails, the loop restarts from cursor 0 and never returns | the loop ends once the server hands back cursor 0 (compared as `0`, or as the text the test double returns); the rest of the model walks the pages with text cursors and stops at `"0"` | medium, not executed | RedisStore.IntCursorNeverEnds | RedisStore.ListedCoversStored |
