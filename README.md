# Coding-challenge app: verified model of its core logic

This project models, in Dafny, the four pieces of logic of a small coding-challenge
app that have a contract worth proving:

- **Summation** (`client/src/utils.ts`): the three ways of computing 1 + … + n
  (a loop, the closed form n(n+1)/2, recursion) behind one guard that rejects a
  negative n. The loop is a method proved equal to the closed form; the recursion
  is proved equal to it by induction; the closed form's division is proved exact.
- **Amount input filter** (`SwapInputGroup.tsx`): the pattern `^\d*\.?\d*$` that
  a keystroke must match, characterised as "only ASCII digits and '.', at most one
  '.'", proved prefix-closed; and the group's two change handlers as methods on the
  (amount, currency) slots the group is given.
- **Swap form** (`SwapForm.tsx`): `normalizePrices`, which keeps one row per
  currency (the latest by date, the first seen on ties) in first-appearance order;
  the price lookup with default 1; and the form's four state slots, with
  `swapDirection` and the recalculation handlers.
- **Users API controller** (`user-controller.ts`): create / read / search / list /
  update / delete over the `users` table, modelled as a map from id to row plus the
  AUTOINCREMENT counter, with the response status and body of every handler and the
  exact change to the table. Email uniqueness is an invariant of the controller.

Files: `wrappers.dfy` (Option, Result), `summation.dfy`, `swap_input_group.dfy`,
`swap_form.dfy`, `users.dfy`; one module each.

Modelling choices:

- Integers are unbounded; dates are integer timestamps; prices are `real`.
- A JavaScript `Map` is the datatype `SwapForm.JsMap` (keys in insertion order plus
  entries); `map.set` on an existing key keeps its position.
- The React state setters become field updates of `InputGroup` objects: the form's
  "Sell" group holds the fromCurrency/fromAmount slots, the "Buy" group the
  toCurrency/toAmount slots. A call of the `recalculate` callback is the value
  `OnInputChange` returns.
- The floating-point conversion `(Number(amount) * a / b).toFixed(3)` is the
  function `quote`, given to the form at construction.
- `Number(s)` being a number is modelled for strings over digits and '.' only
  (`SwapForm.IsNumeric`); those are the only strings the filter lets through.
- A request field is `Option<string>`: `None` is an absent (or null) field.
- An error the handler does not catch is the response `Unhandled`.

Behaviour the model takes from the code rather than from the controller's OpenAPI
comments (the first is a gap in those comments; the other two are points the comments
leave open):

- `updateUser` is documented with 200 and 404 only. An email that another row
  already has violates UNIQUE, and the handler has no try/catch. The model answers
  `Unhandled("SQLITE_CONSTRAINT")` and leaves the table unchanged.
- `updateUser` merges with `COALESCE`, which keeps the old value only for NULL. A
  field sent as "" therefore stores "", although `createUser` rejects empty names
  and emails.
- `findUser` has no ORDER BY, so the model promises some matching row, not the
  first one.

## Model

| member | source | states |
|---|---|---|
| `Summation.AssertValidN` | client/src/utils.ts:1-5 | passes exactly for n ≥ 0; otherwise fails with the one message "n must be a non-negative integer" |
| `Summation.ProductOfConsecutiveIsEven` | client/src/utils.ts:21 | n(n+1) is even for every n ≥ 0, so the closed form divides exactly |
| `Summation.SumToNB` | client/src/utils.ts:19-22 | rejects exactly n < 0 with the guard's message; otherwise twice the result is n(n+1), i.e. the integer result equals JavaScript's real division |
| `Summation.SumToNC` | client/src/utils.ts:25-30 | the recursion succeeds exactly for n ≥ 0 (every recursive call passes the guard) and fails otherwise with the guard's message |
| `Summation.SumToNCAgreesWithClosedForm` | client/src/utils.ts:25-30 | for every integer n the recursion and the closed form give the same outcome: n(n+1)/2, or the same error |
| `Summation.SumToNA` | client/src/utils.ts:8-16 | the loop returns the closed form's outcome for every n: rejects n < 0 before looping, else n(n+1)/2 (invariant: 1 ≤ i ≤ n+1 and 2·sum = (i-1)·i) |
| `Summation.SumOfZeroIsZero` | client/src/utils.ts:19-30 | the closed form and the recursion map 0 to 0 (the loop too, by `SumToNA`'s contract) |
| `SwapInputGroup.AcceptsAmount` | client/src/components/CurrencySelect/SwapInputGroup.tsx:74 | definition of the pattern test read off `^\d*\.?\d*$`: the string splits into a run of ASCII digits, then either nothing or a '.' and a second run of digits; its meaning is proved by the three lemmas below |
| `SwapInputGroup.AcceptsAmountIff` | client/src/components/CurrencySelect/SwapInputGroup.tsx:74 | the pattern accepts a string iff every character is an ASCII digit or '.' and there is at most one '.' |
| `SwapInputGroup.AcceptsAmountPrefixClosed` | client/src/components/CurrencySelect/SwapInputGroup.tsx:74 | every prefix of an accepted string is accepted |
| `SwapInputGroup.AcceptsAmountExamples` | client/src/components/CurrencySelect/SwapInputGroup.tsx:74 | "", ".", "12." and ".5" are accepted; "1.2.3" and "1a" are refused |
| `SwapInputGroup.InputGroup.OnInputChange` | client/src/components/CurrencySelect/SwapInputGroup.tsx:72-78 | on an accepted string the amount becomes that string and `recalculate` receives the same string; on a refused one the amount is unchanged and nothing is recalculated; the currency never changes |
| `SwapInputGroup.InputGroup.OnCurrencyChange` | client/src/components/CurrencySelect/SwapInputGroup.tsx:80-82 | only the currency changes; the amount is untouched and no recalculation is issued |
| `SwapInputGroup.InputGroup.constructor` | client/src/components/SwapForm.tsx:32-35 | a group starts with the given currency and an empty amount |
| `SwapForm.KeptAtUnique` | client/src/components/SwapForm.tsx:20-23 | for each currency at most one input row is the kept one (latest date, earliest on ties) |
| `SwapForm.FirstSeenAtUnique` | client/src/components/SwapForm.tsx:19-22 | a currency has one first-appearance index |
| `SwapForm.MapSet` | client/src/components/SwapForm.tsx:22 | `map.set` keeps the map well formed (each key once, exactly the keys with entries); an existing key keeps its position, a new key goes last |
| `SwapForm.Values` | client/src/components/SwapForm.tsx:26 | `Array.from(map.values())` lists one entry per key, in key order |
| `SwapForm.Visit` | client/src/components/SwapForm.tsx:20-23 | definition of one loop iteration: store the row when its currency has no entry or its date is strictly later than the stored one's; its step properties are `SwapForm.VisitStep` |
| `SwapForm.VisitStep` | client/src/components/SwapForm.tsx:20-23 | one iteration keeps the map well formed, adds exactly the row's currency to the keys, leaves an entry at least as recent as the row, and changes nothing when the stored entry is at least as recent |
| `SwapForm.Fill` | client/src/components/SwapForm.tsx:17-24 | definition of the map after the loop has visited the first n rows, starting from the empty map; `SwapForm.FillIsNormalization` states what it holds after all rows |
| `SwapForm.FillWellFormed` | client/src/components/SwapForm.tsx:17-24 | the loop's map stays well formed: each key once, exactly the keys that have entries |
| `SwapForm.FillKeys` | client/src/components/SwapForm.tsx:19-24 | after the loop has seen n rows, a currency is a key iff it occurs among those rows |
| `SwapForm.FillEntryKept` | client/src/components/SwapForm.tsx:20-23 | the entry stored for a currency is an input row of that currency with no later row of it and only strictly older earlier rows (strict `>` keeps the first on ties) |
| `SwapForm.FillOrder` | client/src/components/SwapForm.tsx:19-24 | the map's keys stand in the order in which their currencies first appear |
| `SwapForm.FillIsNormalization` | client/src/components/SwapForm.tsx:16-27 | the map's values after the whole loop have one row per currency, exactly the input currencies, each the kept input row, in first-appearance order |
| `SwapForm.IsNormalizationOf` | client/src/components/SwapForm.tsx:16-27 | definition of the promised output, stated without the loop: distinct currencies, exactly the input currencies, each row the latest input row of its currency (first seen on ties), in first-appearance order |
| `SwapForm.NormalizePrices` | client/src/components/SwapForm.tsx:16-27 | the loop's output has one row per currency, the same set of currencies as the input, each row the input row with the latest date for its currency (first seen on ties), in first-appearance order |
| `SwapForm.Find` | client/src/components/SwapForm.tsx:38 | `find` answers None iff no row has the currency; otherwise a row of the input with that currency |
| `SwapForm.FindIsFirst` | client/src/components/SwapForm.tsx:38 | `find` answers with the row at the currency's first index |
| `SwapForm.PriceOf` | client/src/components/SwapForm.tsx:37-43 | the price of the first row whose currency matches, or 1 when none does |
| `SwapForm.PriceOfNormalized` | client/src/components/SwapForm.tsx:30-43 | on the normalized table the lookup gives the price of that currency's latest input row |
| `SwapForm.IsNumeric` | client/src/components/SwapForm.tsx:46-47 | definition of "`Number(amount)` is not NaN" for strings of digits and '.': the empty string (Number("") is 0), or a filter-accepted string with at least one digit |
| `SwapForm.ClearsOpposite` | client/src/components/SwapForm.tsx:46-47 | definition of the guard `!amount || Number.isNaN(Number(amount))`, shared by `recalcTo` and `recalcFrom` (lines 56-57); `SwapForm.ClearsOppositeOnAccepted` says which accepted strings meet it |
| `SwapForm.ClearsOppositeOnAccepted` | client/src/components/SwapForm.tsx:45-50 | of the strings the input filter accepts, exactly "" and "." make a recalculation clear the other amount |
| `SwapForm.Swapped` | client/src/components/SwapForm.tsx:66-69 | definition of the four setter calls of `swapDirection`, each reading the slots from before the call; `SwapForm.SwappedTwice` proves it an involution |
| `SwapForm.SwappedTwice` | client/src/components/SwapForm.tsx:65-70 | swapping twice restores all four slots |
| `SwapForm.Form.constructor` | client/src/components/SwapForm.tsx:29-35 | the table is a normalization of the fetched rows; the slots start as ETH / USDC / "" / "" |
| `SwapForm.Form.State` | client/src/components/SwapForm.tsx:32-35 | definition of the four state slots, read from the Sell and Buy groups |
| `SwapForm.Form.FromPrice` | client/src/components/SwapForm.tsx:37-39 | definition of the `fromPrice` memo: `SwapForm.PriceOf` at the Sell group's currency |
| `SwapForm.Form.ToPrice` | client/src/components/SwapForm.tsx:41-43 | definition of the `toPrice` memo: `SwapForm.PriceOf` at the Buy group's currency |
| `SwapForm.Form.Recalculated` | client/src/components/SwapForm.tsx:45-53 | definition of what a recalculation writes: "" when the guard holds, else `quote(amount, numerator, denominator)` |
| `SwapForm.Form.RecalcTo` | client/src/components/SwapForm.tsx:45-53 | an empty or non-numeric amount sets toAmount to ""; otherwise toAmount is the quote at fromPrice/toPrice; no other slot changes |
| `SwapForm.Form.RecalcFrom` | client/src/components/SwapForm.tsx:55-63 | an empty or non-numeric amount sets fromAmount to ""; otherwise fromAmount is the quote at toPrice/fromPrice; no other slot changes |
| `SwapForm.Form.SwapDirection` | client/src/components/SwapForm.tsx:65-70 | both currencies and both amounts are exchanged, using the values from before the swap |
| `SwapForm.Form.SellInputChange` | client/src/components/SwapForm.tsx:90-100 | an accepted string becomes fromAmount and recalculates toAmount from it; a refused one changes no slot |
| `SwapForm.Form.BuyInputChange` | client/src/components/SwapForm.tsx:104-113 | an accepted string becomes toAmount and recalculates fromAmount from it; a refused one changes no slot |
| `SwapForm.Form.SellCurrencyChange` | client/src/components/SwapForm.tsx:90-100 | only fromCurrency changes |
| `SwapForm.Form.BuyCurrencyChange` | client/src/components/SwapForm.tsx:104-113 | only toCurrency changes |
| `Users.Truthy` | server/src/contexts/users/api/user-controller.ts:96 | definition of JavaScript truthiness of a string field: present and not "" (also used for the query at lines 197-214) |
| `Users.EmailsUnique` | server/src/contexts/users/api/user-controller.ts:54 | definition of the UNIQUE constraint on `email`: no two rows share an email |
| `Users.EmailTakenBy` | server/src/contexts/users/api/user-controller.ts:114-119 | definition of the constraint violation: some other row already has the email |
| `Users.MatchesFilters` | server/src/contexts/users/api/user-controller.ts:203-217 | definition of the WHERE clause built from the query: the row equals every truthy filter, ANDed |
| `Users.Coalesce` | server/src/contexts/users/api/user-controller.ts:284-285 | definition of `COALESCE(?, column)`: the bound value unless it is NULL (the field is absent) |
| `Users.EmailFilterMatchesAtMostOne` | server/src/contexts/users/api/user-controller.ts:206-219 | with a unique email column and an email filter, at most one row matches the search, so its answer is determined |
| `Users.UserController.constructor` | server/src/contexts/users/api/user-controller.ts:50-56 | a new table is empty, its counter 0, and the invariant (ids match keys, ids ≤ counter, emails unique) holds |
| `Users.UserController.CreateUser` | server/src/contexts/users/api/user-controller.ts:93-125 | a missing or empty name or email gives 400 and no change; an email already present gives 409 and no change; otherwise exactly one row {counter+1, name, email} is added and returned with 201, its id above every earlier id; the invariant is kept |
| `Users.UserController.GetUser` | server/src/contexts/users/api/user-controller.ts:148-163 | 200 with the row of that id, or 404 iff the id is absent; read-only |
| `Users.UserController.FindUser` | server/src/contexts/users/api/user-controller.ts:191-228 | no truthy filter gives 400; otherwise 200 iff some row matches every given filter, the body being such a row of the table, and else exactly 404 "User not found"; read-only |
| `Users.UserController.GetAllUsers` | server/src/contexts/users/api/user-controller.ts:245-248 | 200 with a list holding every row of the table exactly once; read-only |
| `Users.UserController.UpdateUser` | server/src/contexts/users/api/user-controller.ts:277-305 | an absent id gives 404 and no change; otherwise only that row changes, each omitted field keeps its value, and the merged row is returned with 200, unless its email belongs to another row, which escapes as an unhandled constraint error with no change; the invariant is kept |
| `Users.UserController.DeleteUser` | server/src/contexts/users/api/user-controller.ts:324-339 | removes exactly the row with that id and gives 204; an absent id gives 404 and no change; the counter never goes back |

## Left out

- `formatLargeNumber` and `formatRecalculatedAmount` (client/src/utils.ts:32-55): floating-point division, `toFixed`/`toPrecision` and locale-dependent formatting; not modelled.
- The ratio arithmetic of `recalcTo`/`recalcFrom` (client/src/components/SwapForm.tsx:51-52, 61-62): floating-point multiply, divide and `toFixed(3)`; it is the opaque parameter `quote`.
- `SwapForm.IsNumeric`: decides `Number(s)` only for strings of digits and '.'; JavaScript also accepts surrounding whitespace, signs, exponents, `Infinity` and hex/octal/binary literals, which the model counts as not a number. The input filter lets none of them through.
- Summation.SumToNC: JavaScript's call-stack limit is not modelled. `sum_to_n_c` (client/src/utils.ts:25-30) nests n+1 calls, so an engine throws a RangeError once n reaches its stack depth (a few thousand to tens of thousands of frames, depending on the engine). The model has no stack bound, and its contract and `Summation.SumToNCAgreesWithClosedForm` promise the closed form's value for every n ≥ 0.
- JavaScript numbers: the 2^53 safe-integer range of the summation (client/src/utils.ts:18) and `Number.isInteger` on non-integral input; the model's integers are unbounded and integral.
- Date strings and `new Date(...)` parsing in `normalizePrices`, including invalid dates (NaN, for which `>` is false): dates are integer timestamps.
- Fetching prices, retry and cache policy (client/src/components/SwapFormContainer.tsx): network I/O through a third-party library.
- UI rendering and visual state of the input group (focus, scale and opacity, event listeners), and the display-only components.
- Opening the SQLite file and the logger (server/src/contexts/users/api/user-controller.ts:44-60); a fresh table is the constructor, an existing file is any state satisfying `Valid()`.
- Express request and response objects, the router, swagger, `main.ts`: wiring. Request fields are optional strings; JSON values of other types are not modelled.
- The 500 branch for driver errors other than a constraint violation (server/src/contexts/users/api/user-controller.ts:121-123), and the AUTOINCREMENT ceiling (SQLITE_FULL at 2^63-1).
- Ids arrive as path strings and rely on SQLite's type affinity; here they are integers.
- Users.UserController.UpdateUser: every handler is modelled as one atomic step on the table, with no other request interleaved. `updateUser` awaits two statements, the UPDATE (server/src/contexts/users/api/user-controller.ts:281-291) and then the SELECT (line 299). A request that runs between them, such as a DELETE of the same id, makes the reply 200 with no user and not the merged row; a concurrent PUT makes it the other request's row. The other handlers run a single statement each.
- `Users.UserController.FindUser` and `Users.UserController.GetAllUsers`: without ORDER BY the row order is unspecified, so the contracts say "some matching row" and "every row once", not which row or which order.
