# nearby-connect: discovery ranking and authentication, in Dafny

This project models two parts of nearby-connect, a web application that
finds places of a category (hospitals, banks, parks, ...) around a city and
sits behind a log-in.

* The discovery page (`frontend/src/App.jsx`). It computes a
  deterministic pseudo-rating for each place. It turns raw
  point-of-interest features into place records and writes the status
  line. It sorts the list by rating, name or distance, and fetches
  autocomplete suggestions. Its `handleSearch` steps through the page's
  state. The page is the class `Discovery.DiscoveryPage`. The React sort
  effect is its `Commit` step. Each network answer is a parameter of the
  step that awaits it.
* The authentication server (`backend/server.js`). Its four routes,
  register, login, verify and logout, work over a table of accounts keyed
  by normalised email. The server is the class `Accounts.Server`. Each
  route is also a pure function (`RegisterResult`, `LoginResult`,
  `VerifyResult`, `LogoutResult`), and the method is proved equal to it.
  The lemmas are stated over these functions. bcrypt is a pair of
  functions, `hash` and `matches`, given to the server. JSON web tokens
  are symbolic: the signature is the term `Hs256(secret, claims)`. The
  browser's cookie store is a map from (name, path) to cookie.

Modules, in dependency order:

| file | module | contents |
|---|---|---|
| `js_text.dfy` | `JsText` | the JavaScript string built-ins the code relies on: truthiness, `toLowerCase`, `toUpperCase`, `trim`, UTF-16 length and code units, `String(n)`, an order for names |
| `ranking.dfy` | `Ranking` | `generateRealRating`, the feature-to-place mapping, the status label |
| `place_sort.dfy` | `PlaceSort` | the comparator and the stable sort, with its uniqueness |
| `discovery.dfy` | `Discovery` | the page state and its steps |
| `session.dfy` | `Session` | tokens, cookie options, the browser's cookie store |
| `accounts.dfy` | `Accounts` | the account table, the four routes, the server class |

Ratings and distances are integer tenths, so 4.2 is 42 and 3.1 km is 31.
Times are whole seconds.

## Model

| member | source | states |
|---|---|---|
| JsText.Lower | backend/server.js:65 | `toLowerCase` keeps the length and every letter up to case, and leaves no ASCII capital |
| JsText.LowerIsIdempotent | backend/server.js:65 | after `toLowerCase` no ASCII capital is left; lowering twice is lowering once |
| JsText.Trim | backend/server.js:65 | `trim` returns a slice of the input with only white space cut on either side and none left at its ends |
| JsText.TrimOfTrimmed | backend/server.js:44 | trimming a string without edge white space changes nothing |
| JsText.LowerKeepsSpaces | backend/server.js:65 | lower-casing neither creates nor removes trimmable characters |
| JsText.CharUnits | frontend/src/App.jsx:104 | a code point below U+10000 is one code unit, itself; any other is a high and a low surrogate that decode back to it |
| JsText.JsLength | frontend/src/App.jsx:94 | `city.length` is exactly the number of the string's UTF-16 code units, between one and two per character |
| JsText.DecimalString | frontend/src/App.jsx:104 | `String(osm_id)` is a non-empty run of digits without a leading zero whose decimal value is `osm_id` |
| JsText.CompareNames | frontend/src/App.jsx:113 | the name comparison answers -1, 0 or 1; its ordering is stated by the three lemmas below |
| JsText.CompareNamesMeaning | frontend/src/App.jsx:113 | a proper prefix comes first, and otherwise the first differing character decides |
| JsText.CompareNamesFlip | frontend/src/App.jsx:113 | the name order is antisymmetric and reports 0 exactly for equal names |
| JsText.CompareNamesTransitive | frontend/src/App.jsx:113 | the name order is transitive |
| Ranking.RatingOf | frontend/src/App.jsx:103-106 | every rating lies in 3.7 .. 4.9 |
| Ranking.CodeSumIsUnitSum | frontend/src/App.jsx:104 | the seed is the sum of the key's UTF-16 code units, the values the `reduce` adds up |
| Ranking.CodeSumAppend | frontend/src/App.jsx:104 | the seed of a concatenation is the sum of the seeds |
| Ranking.CodeSumOfPermutation | frontend/src/App.jsx:104 | the seed depends only on the multiset of characters |
| Ranking.RatingDependsOnCharactersOnly | frontend/src/App.jsx:103-106 | equal ids, and rearranged ids, get equal ratings |
| Ranking.EveryRatingOccurs | frontend/src/App.jsx:103-106 | each of 3.7, 3.8, ..., 4.9 is the rating of `String(osm_id)` for some id, so 4.9 is the maximum and 5.0 never occurs |
| Ranking.ToPlace | frontend/src/App.jsx:142-154 | a place keeps the feature's name; its address falls back city, district, searched name; its type falls back to the category; its rating is in range |
| Ranking.ToPlaces | frontend/src/App.jsx:141-155 | no more places than features; all named and rated in range; no empty address or type when the search name or category is not empty |
| Ranking.NamedFeatures | frontend/src/App.jsx:141 | the filter keeps only features with a truthy name |
| Ranking.ToPlacesIsFilterThenMap | frontend/src/App.jsx:141 | the places are exactly the images of the named features, one for one and in order |
| Ranking.RatingKey | frontend/src/App.jsx:151 | the rating key is never empty: the digits of a truthy `osm_id`, which read back as that id, or else the name |
| Ranking.RatingFollowsIdentity | frontend/src/App.jsx:151 | a truthy `osm_id` alone fixes the rating; without one the name does |
| Ranking.Capitalize | frontend/src/App.jsx:139 | the first character is upper-cased and the rest of the category is kept as it is |
| Ranking.StatusLabel | frontend/src/App.jsx:139 | the label is the category's first character upper-cased, the rest of the category unchanged, then "s in ", then the city; an empty category gives just "s in " and the city |
| PlaceSort.CompareMeaning | frontend/src/App.jsx:111-116 | the comparator puts the higher rating, the earlier name or the nearer place first, ties equal values, and ties everything under any other key |
| PlaceSort.CompareFlip | frontend/src/App.jsx:111-116 | swapping the two places negates the comparison |
| PlaceSort.CompareTransitive | frontend/src/App.jsx:111-116 | "may stand before" is transitive for every key |
| PlaceSort.TiesAreEquivalent | frontend/src/App.jsx:111-116 | two places that tie with a third tie with each other |
| PlaceSort.Ties | frontend/src/App.jsx:111-116 | a tie group holds only members of the list that compare equal to the given place |
| PlaceSort.Insert | frontend/src/App.jsx:111 | inserting adds exactly the one place |
| PlaceSort.SortPlaces | frontend/src/App.jsx:111 | the sort of the copy returns a permutation of the places |
| PlaceSort.InsertSorted | frontend/src/App.jsx:111 | inserting into a sorted list keeps it sorted |
| PlaceSort.TiesCons | frontend/src/App.jsx:111 | the tie group of a list with a known first place |
| PlaceSort.InsertTies | frontend/src/App.jsx:111 | an inserted place goes in front of the rest of its tie group, whether or not the list was sorted |
| PlaceSort.SortPlacesCorrect | frontend/src/App.jsx:111-117 | the result is sorted, a permutation, and keeps every tie group in its prior order |
| PlaceSort.TiesWithItself | frontend/src/App.jsx:111-116 | every place ties with itself |
| PlaceSort.FirstTiesWithItself | frontend/src/App.jsx:111-116 | the first place of a list leads its own tie group |
| PlaceSort.StableSortIsUnique | frontend/src/App.jsx:111 | two sorted lists with the same tie groups are equal, so a stable sort has one possible result |
| PlaceSort.StableSortAgrees | frontend/src/App.jsx:111 | any stable sort of the places returns what SortPlaces returns |
| PlaceSort.UnknownKeyKeepsOrder | frontend/src/App.jsx:115 | with a key other than rating, name or distance the order is unchanged |
| PlaceSort.SortedResultOrder | frontend/src/App.jsx:112-114 | ratings come out non-increasing, distances non-decreasing, names in order |
| Discovery.SearchError | frontend/src/App.jsx:128-138 | the alerted message is the geocoder's error, "Location not found" for no hit, or the point-of-interest error |
| Discovery.RatingsInRangeKept | frontend/src/App.jsx:117 | re-ordering keeps every shown rating in range |
| Discovery.DiscoveryPage.constructor | frontend/src/App.jsx:60-69 | the initial state: empty city and list, hospitals, sorted by rating, map on the fixed anchor |
| Discovery.DiscoveryPage.Commit | frontend/src/App.jsx:109-119 | the effect re-sorts only a non-empty list whose key or length changed; the shown list is then sorted and a permutation of the old one |
| Discovery.DiscoveryPage.TypeCity | frontend/src/App.jsx:171 | typing changes the city and keeps the shown places |
| Discovery.DiscoveryPage.SuggestionTimerFires | frontend/src/App.jsx:92-101 | from 4 code units on, suggestions are the geocoder's answer; below that they are empty |
| Discovery.DiscoveryPage.ChooseCategory | frontend/src/App.jsx:173 | choosing a category keeps the shown places |
| Discovery.DiscoveryPage.ChooseSortKey | frontend/src/App.jsx:182 | choosing a sort key re-orders the same places by it without a new search |
| Discovery.DiscoveryPage.HandleSearch | frontend/src/App.jsx:121-159 | an empty name only clears suggestions; otherwise the first render shows no places and the spinner; a failure alerts and leaves no places; success shows the named features sorted by the current key, with the status label; the spinner is off at the end |
| Discovery.DiscoveryPage.StartSearch | frontend/src/App.jsx:122-125 | the spinner goes on and the list is emptied before the geocoder is asked |
| Discovery.DiscoveryPage.FinishSearch | frontend/src/App.jsx:158 | the spinner goes off and the new places are shown sorted |
| Discovery.DiscoveryPage.ReceiveAnswers | frontend/src/App.jsx:127-157 | the map centres on the first hit; an error alerts its message; otherwise status and places are set |
| Discovery.DiscoveryPage.ChooseSuggestion | frontend/src/App.jsx:194 | clicking a suggestion sets the city to its text and then behaves as HandleSearch with that text: an empty text only clears the suggestions; otherwise the same alert, places, status line and map centre; category and sort key unchanged |
| Session.Sign | backend/server.js:83 | a token names the account's id and expires one hour after issue |
| Session.SignedTokenLifetime | backend/server.js:83 | a signed token verifies under its key exactly during the hour after issue, and never under another key |
| Session.ValidToken | backend/server.js:54 | `jwt.verify` accepts a token only when it carries the key's own signature over its claims and has not expired; a forged signature never verifies |
| Session.TamperedClaimsFail | backend/server.js:54 | altering any claim invalidates the token |
| Session.Receive | backend/server.js:86-92 | a Set-Cookie replaces the cookie with the same name and path; a clear removes it; others are untouched |
| Session.Sent | backend/server.js:51 | the browser sends the stored `token` cookie for path "/" only |
| Session.LoginCookieLifetime | backend/server.js:86-92 | the login cookie is sent back for exactly one hour |
| Session.LogoutDropsLoginCookie | backend/server.js:103-108 | the logout header removes the cookie login created, so none is sent afterwards |
| Accounts.Normalize | backend/server.js:65 | the normalised email is trimmed, has no capitals and is no longer than the input |
| Accounts.SliceKeepsNoUpper | backend/server.js:65 | trimming cannot bring back capitals |
| Accounts.NormalizeIdempotent | backend/server.js:69 | the schema setters applied to a normalised email change nothing |
| Accounts.NormalizeOfTrimmed | backend/server.js:80 | for an email without edge white space, register's key and login's key agree |
| Accounts.StoredEmailIsFixpoint | backend/server.js:44 | the emails the schema stores are exactly the non-empty fixpoints of its setters |
| Accounts.SecretKey | backend/server.js:12 | the secret is JWT_SECRET when set, else a fixed non-empty default |
| Accounts.RegisterResult | backend/server.js:60-75 | 400 iff a field is missing; 409 iff the normalised email is taken; 500 iff it normalises to ""; 201 otherwise, adding exactly one account holding the password's hash; nothing changes unless 201 |
| Accounts.RegisterKeepsInvariant | backend/server.js:65-69 | register keeps stored emails normalised and ids distinct |
| Accounts.AddAccountKeepsInvariant | backend/server.js:69 | creating an account under a new normalised email with the next id keeps the invariant |
| Accounts.DuplicateRegisterRejected | backend/server.js:65-66 | once registered, any case or white-space variant of the email gets 409 and changes nothing |
| Accounts.LoginResult | backend/server.js:77-100 | 200 with the one-hour token cookie iff the lower-cased email is stored and the password matches; every 401 is the same "Invalid credentials" without a cookie; 500 iff the email is missing, or the password is missing for a stored email |
| Accounts.RegisterThenLogin | backend/server.js:65-83 | a fresh registration can log in with the same credentials, and the token names the new id |
| Accounts.LoginUntrimmedFails | backend/server.js:80 | login does not trim: an email with edge white space always gets 401 |
| Accounts.RegisteredWithSpacesCannotLogIn | backend/server.js:80 | registering " a@b.c " succeeds, but logging in with the same text fails |
| Accounts.VerifyResult | backend/server.js:50-58 | 401 iff no cookie; 200 iff a token signed with the secret and not expired, answering its id; 403 otherwise |
| Accounts.LoginThenVerify | backend/server.js:50-57 | after login, verify answers 200 with the account's id for one hour, then 401 |
| Accounts.RegisterLoginVerify | backend/server.js:60-100 | register, login and verify within the hour give back the id the account was created with |
| Accounts.LogoutResult | backend/server.js:102-110 | always 200 "logged out", clearing `token` with login's path, httpOnly, secure and sameSite |
| Accounts.LogoutThenVerify | backend/server.js:102-110 | after logout verify answers 401, while a copy of a valid token still verifies: nothing is revoked |
| Accounts.Server.constructor | backend/server.js:43-46 | the server starts with an empty, valid table |
| Accounts.Server.Register | backend/server.js:60-75 | the handler answers and updates the table as RegisterResult says, keeping the invariant |
| Accounts.Server.Login | backend/server.js:77-100 | the handler answers as LoginResult says |
| Accounts.Server.Verify | backend/server.js:50-58 | the handler answers as VerifyResult says |
| Accounts.Server.Logout | backend/server.js:102-110 | the handler answers as LogoutResult says |

## Where the code departs from its evident design

The model follows the code in each case.

- The rating range is 3.7 to 4.9, since `seed % 13` is at most 12. A
  rating of 5.0 never occurs.
- The cookie has `sameSite: 'none'`, so the browser sends it on
  cross-site requests too.
- Login lower-cases the email but does not trim it, while register does
  both. So an email registered with surrounding white space cannot log in
  with the same text (`RegisteredWithSpacesCannotLogIn`). Also, "register
  then login with the same credentials succeeds" holds only when the
  lower-cased email has no edge white space. This holds for the handler as
  written. Whether it holds once deployed depends on Mongoose: see the
  line on the schema setters under "Left out".
- `handleSearch` has no supersession token. The model runs steps one at a
  time and promises nothing about overlapping searches.
- A failed search leaves an empty list, because the list is cleared before
  geocoding. The earlier results are not kept.

## Left out

- `getDistance`: haversine trigonometry and `toFixed` rounding are floating point. The distance is a parameter `distanceTo` returning tenths of a km.
- Network calls (`fetch`, `axios`) to the geocoder, the point-of-interest service and the backend are not modelled. Their answers, or their errors, are parameters of the steps.
- The 300 ms debounce and its `clearTimeout` cleanup are timer behaviour. `SuggestionTimerFires` is the callback once the timer has fired.
- Concurrency is not modelled: overlapping searches, a search and a sort click racing, and two registrations of the same email racing between the lookup and `User.create`.
- `Math.random()` fallback ids are random. They are `RandomId`, and the rating then comes from the name.
- `localeCompare` is replaced by code-point lexicographic order (`CompareNames`). It differs from a locale's collation in two ways. It answers 0 only for identical names, whereas `localeCompare` also answers 0 for canonically equivalent strings such as "é" and "e\u0301". And it orders by code point, so "Banana" comes before "apple", which an English collation puts the other way round. The sort lemmas use only antisymmetry and transitivity, which a collation has too.
- `toLowerCase` and `toUpperCase` are modelled on ASCII letters only.
- JavaScript strings holding lone surrogates cannot be written: Dafny characters are Unicode scalar values.
- bcrypt internals (salt, cost 10, 72-byte truncation) and the JWT encoding are foreign libraries. `hash`, `matches` and `Hs256` stand for them. The signature is assumed unforgeable without the key.
- Account ids are Mongo ObjectIds, which reach the token as hex strings. They are natural numbers here.
- Query casting by Mongoose is not modelled. Recent Mongoose versions run the schema's `lowercase` and `trim` setters on query filters when they cast them. Under such a version login trims too, the login asymmetry above disappears, and `LoginUntrimmedFails` and `RegisteredWithSpacesCannotLogIn` do not describe the deployed server. The model follows the handler as written, where login applies only `toLowerCase`.
- Database errors other than the schema's `required` check, the MongoDB connection, CORS and `app.listen` are I/O and deployment.
- A point-of-interest answer that parses as JSON but lacks the `features` array, or has a feature without `properties` or `geometry`, is not modelled. The code sets the status label and then throws, so the page alerts the error and shows an empty list under the new label. The model's answer is either a list of well-formed features or an error that arrives before the label is set.
- Request bodies whose `email` or `password` is present but not a string, such as `{"email": 5}`, are not modelled. They pass the truthiness check, then `toLowerCase` throws and register and login answer 500. The model's fields are optional strings, so `RegisterResult` and `LoginResult` do not cover this 500.
- `Sent` looks only at the `token` cookie stored for path "/". A browser would also send a `token` cookie stored under "/api" or "/api/verify" with a request to /api/verify, and cookie-parser would keep the first one. The server only sets the cookie for "/", so that case arises only from cookies set by something else. `LogoutDropsLoginCookie` promises nothing about such cookies.
- Rendering is not modelled: Leaflet, `MapController`, the detail modal, `frontend/src/components/MapView.jsx` and `frontend/src/components/Auth.jsx`. The session check at page load is just a call to `/api/verify`.
- The search button calls `HandleSearch` with the current city. It has no member of its own.
- The rating string: `toFixed(1)` is the same number in tenths, and the comparator's `-` turns it back into a number.
