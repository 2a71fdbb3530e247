# Currency converter core and inventory exercises, in Dafny

This project models four small pieces of the TymeX-Program repository and
proves properties of them.

- **HTTP client** of the currency converter. It covers the
  `NetworkError` cases and their messages. It also covers `handleError`,
  which turns a completed data task into either a decoded payload or one
  error. Finally, it covers the pure part of `request`: the target string,
  the query items (the access key first, then the caller's parameters),
  the `Authorization: Bearer` header, and a `Content-Type` header when
  there is a body.
- **Rates view model**: `CurrencyViewModel` holds the rate table and the
  last error message. On a completed fetch, success replaces the whole
  table, and failure shows the error's description.
- **Product inventory**: over an array of products, the model covers
  total stock value, the first most expensive product, availability by
  name, and an in-place stable sort by name, price or quantity.
- **Missing number**: the Gauss-sum formula. A lemma proves that it finds
  the one value missing from 1 .. n.

Modules:
- `Wrappers` is `Option` and `Result`.
- `Decimal` is Swift's decimal formatting of an `Int`, with a round trip.
- `HTTPRequests` is `HTTPRequests.swift`.
- `ExchangeRatesModel` holds the record shapes of `ExchangeRates.model.swift`.
- `ExchangeRatesViewModel` is `ExchangeRatesViewModel.swift`.
- `Inventory` is `product-inventory-management.py`.
- `MissingNumber` is `array-manipulation-and-missing-number.py`.

Foreign calls are not modelled and enter as function parameters instead.
These are the JSON inspection of an error body, the JSON decoder, the
`URLComponents` parser and URL builder, and `JSONSerialization`. Each one
either answers or fails, and the model handles both outcomes. The
configured base URL and API key are an `APIConfig` parameter. A Swift
dictionary's iteration order is the parameter `order`, which lists every
key exactly once.

Python prices are whole cents (`int`). The view model's rates are `real`.

Points of the code that the model keeps:
- `handleError` checks status 429 before it looks at the provider's
  `{code, info}` body.
- A 401 response without a provider body becomes `httpError(401)`; only
  its message is special.
- A transport error is passed on as it is, not wrapped in a
  `NetworkError`.
- On success the view model assigns the rates and never clears
  `errorMessage`; on failure it assigns the message and keeps the rates.

## Model

| member | source | states |
|---|---|---|
| `Decimal.NatToDigits` | currency-converter/currency-converter/Networks/HTTPRequests.swift:39 | The decimal digits of a non-negative code are all digits, there is at least one, and they start with '0' exactly when the number is 0. A number below 10 has exactly one digit, so 0 is "0" and no number has a leading zero. |
| `Decimal.DigitsRoundTrip` | currency-converter/currency-converter/Networks/HTTPRequests.swift:39 | Reading the digits of n back gives n. |
| `Decimal.IntToString` | currency-converter/currency-converter/Networks/HTTPRequests.swift:39 | The interpolated status code is a numeral (an optional '-', then digits) whose value is the code. It starts with '-' exactly when the code is negative, and a non-zero code has no leading zero. The code 0 is exactly "0". |
| `HTTPRequests.ErrorDescription` | currency-converter/currency-converter/Networks/HTTPRequests.swift:24-46 | The message of each error case: 401 gives the unauthorized text, 429 gives the monthly-limit text, and any other HTTP code n gives "HTTP error with status code n.". A provider error gives its `info`, a decoding error gives its cause's description, and the fixed cases give their fixed texts. |
| `HTTPRequests.HttpErrorDescriptionNamesStatus` | currency-converter/currency-converter/Networks/HTTPRequests.swift:32-40 | Two HTTP codes other than 401 and 429 get the same generic message only when they are the same code: the message names the code. |
| `HTTPRequests.LocalizedDescription` | currency-converter/currency-converter/Networks/HTTPRequests.swift:16-46 | What a completion's error shows: a client error shows its `errorDescription`, and a transport error shows its own description. |
| `HTTPRequests.HandleError` | currency-converter/currency-converter/Networks/HTTPRequests.swift:68-108 | The cases are checked in this order. (1) A transport error yields that same error, whatever the response. (2) A missing or non-HTTP response yields noData. (3) Status 429 yields httpError(429), whatever the body. (4) Any other status outside 200-299 yields potentialError with the body's own code and info when the body parses, and httpError(status) otherwise (401 included). (5) A 2xx status with no body yields noData. (6) A 2xx status with a body yields the decoded value, or decodingError when decoding fails. The result is a success exactly when there is no error, the response is HTTP with a 2xx status, a body is present and it decodes. |
| `HTTPRequests.RateLimitIgnoresBody` | currency-converter/currency-converter/Networks/HTTPRequests.swift:79-83 | With status 429, any two bodies and any two body parsers give the same httpError(429). |
| `HTTPRequests.ProviderCodeComesFromBody` | currency-converter/currency-converter/Networks/HTTPRequests.swift:85-91 | For any two failing statuses other than 429, the same data with a parsed provider body yields the same potentialError(body code, body info): the reported code never depends on the HTTP status. |
| `HTTPRequests.UnauthorizedMessageFor401` | currency-converter/currency-converter/Networks/HTTPRequests.swift:93 | A 401 response without a provider body yields httpError(401), whose message is the unauthorized text. |
| `HTTPRequests.ParameterItems` | currency-converter/currency-converter/Networks/HTTPRequests.swift:127-129 | The caller's parameters become query items in the dictionary's iteration order: item i names the i-th key of that order. There is one item per key, each with that key's value, no name appears twice, and every key appears. |
| `HTTPRequests.QueryItems` | currency-converter/currency-converter/Networks/HTTPRequests.swift:126-130 | The query list starts with `access_key` set to the API key, followed by exactly the caller's parameters. Without parameters it holds only the access key. |
| `HTTPRequests.BuildRequest` | currency-converter/currency-converter/Networks/HTTPRequests.swift:121-144 | The only failure is invalidURL, and it happens exactly when the target string does not parse or the URL with its query cannot be formed. On success: the target is "https://" + baseURL + endpoint, the query is `QueryItems`, the method is the given verb, and Authorization is "Bearer " + apiKey. Content-Type is application/json exactly when a body is given. There are no other headers. The body is the serialisation of the given body, if any. |
| `HTTPRequests.GetRequest` | currency-converter/currency-converter/Networks/HTTPRequests.swift:152-154 | `get` fails only with invalidURL, exactly when the URL cannot be formed. On success it is a GET request to the built target with the built query, its only header is the Bearer Authorization header, and it has no body. |
| `HTTPRequests.PostRequest` | currency-converter/currency-converter/Networks/HTTPRequests.swift:156-158 | `post` fails only with invalidURL, exactly when the URL cannot be formed. On success it is a POST request to the built target with the built query and the Bearer header. Content-Type is application/json exactly when a body is given, and the body is its serialisation. |
| `Inventory.TotalValueAppend` | challenge-2/product-inventory-management.py:7-11 | The stock value of two lists joined is the sum of their values. |
| `Inventory.TotalOfProduct` | challenge-2/product-inventory-management.py:7-11 | Returns the sum of price × quantity over the list: 0 for an empty list. |
| `Inventory.FirstMostExpensiveIsUnique` | challenge-2/product-inventory-management.py:13-18 | At most one position is the first position holding the highest price. |
| `Inventory.FindMostExpensiveProduct` | challenge-2/product-inventory-management.py:13-18 | For a non-empty list, returns the name of the product at the first position whose price no product exceeds. Every earlier product is strictly cheaper, because the comparison is a strict `>`. |
| `Inventory.CheckProductAvailability` | challenge-2/product-inventory-management.py:20-24 | Returns true exactly when some product's name equals the given name. |
| `Inventory.StrLessEqTotal` | challenge-2/product-inventory-management.py:28 | The name order, lexicographic by code point, is total. |
| `Inventory.StrLessEqTrans` | challenge-2/product-inventory-management.py:28 | The name order is transitive. |
| `Inventory.StrLessEqAntisym` | challenge-2/product-inventory-management.py:28 | Two names that are each at most the other are equal. |
| `Inventory.KeyForOption` | challenge-2/product-inventory-management.py:26-32 | Option 1 selects the name key, 2 the price key and 3 the quantity key; every other option selects none. |
| `Inventory.KeyLessEqTotal` | challenge-2/product-inventory-management.py:26-32 | Each of the three key orders is total. |
| `Inventory.KeyLessEqTrans` | challenge-2/product-inventory-management.py:26-32 | Each of the three key orders is transitive. |
| `Inventory.SameKeyIsSameField` | challenge-2/product-inventory-management.py:26-32 | Two products have equal keys exactly when they have the same name, price or quantity, for the chosen key. |
| `Inventory.SortBySorted` | challenge-2/product-inventory-management.py:26-32 | The sorted list is non-decreasing by the chosen key. |
| `Inventory.SortByPermutes` | challenge-2/product-inventory-management.py:26-32 | The sorted list is a permutation of the input. |
| `Inventory.SortByStable` | challenge-2/product-inventory-management.py:26-32 | Sorting is stable: for every product p, the products whose key equals p's key appear in the same relative order before and after sorting. |
| `Inventory.SortByTotalValue` | challenge-2/product-inventory-management.py:26-33 | Sorting does not change the total stock value. |
| `Inventory.ShiftLarger` | challenge-2/product-inventory-management.py:26-32 | Moves every element of the sorted prefix whose key exceeds x's one place right, in place, and returns the gap where x belongs. |
| `Inventory.InsertInPlace` | challenge-2/product-inventory-management.py:26-32 | Inserts a[i] into the sorted prefix a[..i] in place, after the equal keys. The rest of the array is unchanged. |
| `Inventory.InsertionSort` | challenge-2/product-inventory-management.py:26-32 | Sorts the array in place to exactly the stable sort of its old contents. |
| `Inventory.SortProduct` | challenge-2/product-inventory-management.py:26-33 | With option 1, 2 or 3 it sorts the list in place by name, price or quantity. The result is sorted, a permutation of the input and stable. Any other option leaves the list unchanged. Either way it returns the same list. |
| `MissingNumber.ConsecutiveProductIsEven` | challenge-2/array-manipulation-and-missing-number.py:3 | n(n+1) is even, so the floor division by 2 is exact. |
| `MissingNumber.MissingNumber` | challenge-2/array-manipulation-and-missing-number.py:1-4 | With L the list length, twice (result + sum) is exactly (L+1)(L+2), so the result is (L+1)(L+2)/2 − sum and the division drops nothing. |
| `MissingNumber.SumOfPermutation` | challenge-2/array-manipulation-and-missing-number.py:4 | `sum` depends only on the multiset of values. |
| `MissingNumber.SumOfRange` | challenge-2/array-manipulation-and-missing-number.py:3 | 1 + ... + n equals n(n+1)/2. |
| `MissingNumber.MissingNumberCorrect` | challenge-2/array-manipulation-and-missing-number.py:1-4 | If the list holds every value of 1 .. L+1 except k, each exactly once, the result is k. |
| `MissingNumber.MissingLastNumber` | challenge-2/array-manipulation-and-missing-number.py:1-4 | The list 1 .. n itself yields n + 1: the missing value may be the last one. |
| `ExchangeRatesViewModel.LatestQueryItems` | currency-converter/currency-converter/Views/ExchangeRates/ExchangeRatesViewModel.swift:8 | What `API.request` would build from the view model's query `["base": "USD"]` with its one iteration order: the query list access_key, then base=USD. |
| `ExchangeRatesViewModel.LatestRatesRequest` | currency-converter/currency-converter/Views/ExchangeRates/ExchangeRatesViewModel.swift:8 | The latest-rates request, sent through `get`, fails only with invalidURL. On success it is a GET with no body to "https://" + baseURL + "latest", with the query access_key, then base=USD. |
| `ExchangeRatesViewModel.FallbackLatestTarget` | currency-converter/currency-converter/Networks/HTTPRequests.swift:121 | With the fallback base URL "http://localhost:3000" from the configuration, the latest-rates target is "https://http://localhost:3000latest": a second scheme, and no separator before the endpoint. |
| `ExchangeRatesViewModel.CurrencyViewModel.constructor` | currency-converter/currency-converter/Views/ExchangeRates/ExchangeRatesViewModel.swift:4-5 | A new view model has an empty rate table and no error message. |
| `ExchangeRatesViewModel.CurrencyViewModel.FetchExchangeRates` | currency-converter/currency-converter/Views/ExchangeRates/ExchangeRatesViewModel.swift:7-18 | On success, the rates become exactly the response's rates and the error message is unchanged. On failure, the error message becomes the error's description and the rates are unchanged. |
| `ExchangeRatesViewModel.StaleErrorAfterRecovery` | currency-converter/currency-converter/Views/ExchangeRates/ExchangeRatesViewModel.swift:11-14 | After a failed fetch and then a successful one, the new rates are shown and the old error message is still there. |
| `ExchangeRatesViewModel.RateLimitedFetch` | currency-converter/currency-converter/Views/ExchangeRates/ExchangeRatesViewModel.swift:8-14 | When the fetch gets a 429 response, the view model shows the monthly-limit message and keeps its earlier rates. |

## Left out

- The connectivity monitors are left out: `NWPathMonitor` in `API.init`, and the per-request monitor that can also fail a request with `disconnected`. They are asynchronous callbacks that race the response, so the model never produces `disconnected`.
- `URLSession.dataTask`, `resume` and the `DispatchQueue` hops are asynchronous I/O. `HandleError` takes their outcome (response, data, error) as inputs. `FetchExchangeRates` takes the completed result as an input.
- JSON parsing, JSON decoding, `URLComponents` and `JSONSerialization` are foreign library calls and enter as oracle functions. Percent-encoding and serialising the final URL string are not modelled: `URL` keeps the target string and the query items.
- `APIConfig` reads `API_BASE_URL` and `API_KEY` from the app bundle, and both fall back to "http://localhost:3000". This is platform configuration; the model takes the two strings as an `APIConfig` parameter.
- `NetworkManager.shared.request` and the `ExchangeRates` type that the view model uses are not part of this model. The call is abstracted as its result, a `Result` over `IExchangeRates` and the client's error type. The constants `LatestEndpoint` and `LatestQuery` record what the view model asks for. `LatestQueryItems`, `LatestRatesRequest` and `RateLimitedFetch` assume that this manager is `API`'s `get`. That is, it builds the request as `GetRequest` does and hands the view model what `HandleError` makes of the response. `API` is shown, but the manager that would call it is not.
- The SwiftUI views and the app entry point are UI only.
- The Python `main` functions are console input and output loops, including the check that the entered length is positive.
- Floating point is not modelled: prices are whole cents and rates are reals.
- `Inventory.InsertionSort`: Python's `list.sort` is Timsort. The model sorts by insertion, which gives the same result, because both are stable sorts by the same key and the stable sorted order is unique.
- `Inventory.FindMostExpensiveProduct`: the Python code raises `IndexError` on an empty list. The model requires a non-empty list instead of modelling the exception.
- `IExchangeRateResult` is a record shape only: the conversion request that returns it is not part of this model.
