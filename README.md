# Developer panel core, modelled in Dafny

This project models the logic inside a small admin dashboard. The dashboard's UI is built from third-party components, but four pieces of its logic are deterministic and are modelled here:

- **Session store** (`AuthStore`, `auth_store.dfy`). The process-wide store holds the logged-in user, the bearer token, the `isAuthenticated` flag and the permission tags. A `map<string, string>` stands for `localStorage`. `Login` and `Logout` are the two mutators. The store also answers two queries: `hasPermission(prefix)`, which is a prefix match, and `hasAnyPermission(prefixes)`, which ORs that match over several prefixes. `CompleteLogin` is the login page's final check: an inactive identity is never stored.
- **Sidebar** (`AppLayout`, `app_layout.dfy`):
  - which permission-gated menu sections are shown, and in what order;
  - the selected key for the current path;
  - the open section for the current path.
- **Metrics reshaper** (`PspMetrics`, `psp_metrics.dfy`). The PSP metrics page groups flat per-(period, vendor) records into one wide row per period. For each record it writes seven `"{psp}_{field}"` cells, and a later record for the same pair overwrites an earlier one. It then sorts the rows by period. The model is generic in the measure type `V`. The module also models the "Fetch Metrics" guard.
- **Error recognition and notifications** (`ApiErrors`, `api_errors.dfy`; `ErrorHandler`, `error_handler.dfy`):
  - `isHitmanApiError` is modelled over a `JsValue` datatype for untyped JavaScript values.
  - The handler's three-way choice of notice is modelled: recognised error, `Error` instance, or anything else.
  - A `Notifier` class holds the emitted notices and the notices on screen. Its `ShowErrorDetails` closes any open details panel before opening a new one.

`js_strings.dfy` holds `startsWith` and the string order used for sorting. It also proves that this order is a strict total order. `options.dfy` holds `Option`.

Three details of the code shape the model:

- Each metric record carries seven measures, including `verificationDelayAverageInMillis`, and the reshaper writes all seven.
- A recognised error's notice has a fingerprint line only when the fingerprint is non-empty.
- `hasPermission` and `hasAnyPermission` read only the `permissions` list and never look at `user`. Under the store invariant `Store.Valid`, no user means no permissions, so both answer false when nobody is logged in.

## Model

| member | source | states |
|---|---|---|
| `JsStrings.StartsWith` | src/stores/useAuthStore.ts:51 | `s.startsWith(prefix)` holds exactly when `prefix` is a prefix of `s` |
| `JsStrings.LessIrreflexive` | src/pages/projectx/PspMetricsPage.tsx:82 | no period sorts before itself |
| `JsStrings.LessTransitive` | src/pages/projectx/PspMetricsPage.tsx:82 | the period order is transitive |
| `JsStrings.LessTotal` | src/pages/projectx/PspMetricsPage.tsx:82 | any two distinct periods are ordered one way or the other, so the sorted order is unique |
| `JsStrings.LessAsymmetric` | src/pages/projectx/PspMetricsPage.tsx:82 | two periods are never each before the other |
| `JsStrings.LessAfterCommonPrefix` | src/pages/projectx/PspMetricsPage.tsx:82 | strings that agree up to a position and are larger at it in the second string compare as ascending |
| `JsStrings.InsertAscending` | src/pages/projectx/PspMetricsPage.tsx:82 | inserting a new period into an ascending list keeps it ascending and adds exactly that element |
| `AuthStore.SomeStartsWith` | src/stores/useAuthStore.ts:49-52 | the `.some` scan is true iff some permission starts with the prefix |
| `AuthStore.SomePrefixHeld` | src/stores/useAuthStore.ts:53-58 | the nested `.some` is true iff some prefix in the list is matched by some permission |
| `AuthStore.Store.constructor` | src/stores/useAuthStore.ts:26-30 | the initial store has no user, no token, `isAuthenticated` false and no permissions, and `localStorage` is untouched |
| `AuthStore.Store.Login` | src/stores/useAuthStore.ts:31-39 | from any state, the store holds `u`, `u.token` and `u.permissions` and is authenticated; `localStorage['token']` is `u.token` and all other keys are unchanged; the store invariant holds; `u.active` is not consulted |
| `AuthStore.Store.Logout` | src/stores/useAuthStore.ts:40-48 | from any state, all four fields are back at their initial values; only the `'token'` entry is removed from `localStorage`; the store invariant holds |
| `AuthStore.Store.HasPermission` | src/stores/useAuthStore.ts:49-52 | true iff some held permission starts with the prefix; false with no permissions; the empty prefix is true iff any permission is held; false whenever the store is valid and nobody is logged in; reads the store and changes nothing |
| `AuthStore.Store.HasAnyPermission` | src/stores/useAuthStore.ts:53-58 | true iff `HasPermission` holds for some prefix in the list; false for an empty list; equal to `HasPermission` for a one-element list; false whenever the store is valid and nobody is logged in; changes nothing |
| `AuthStore.Store.CompleteLogin` | src/pages/LoginPage.tsx:18-27 | logs in exactly when the verified user is active; an inactive user leaves the store unchanged |
| `AuthStore.LoginThenLogout` | src/stores/useAuthStore.ts:27-48 | login followed by logout, from any state, gives the initial field values and no stored token |
| `AuthStore.LogoutTwice` | src/stores/useAuthStore.ts:40-48 | a second logout leaves the same state as the first (idempotence) |
| `AppLayout.MenuMembership` | src/components/layout/AppLayout.tsx:51-124 | Home is always shown, and each gated section is shown exactly when its permission answer is yes |
| `AppLayout.MenuOrder` | src/components/layout/AppLayout.tsx:51-124 | the menu has 1 to 4 sections, starts with Home, holds only the four known sections, and keeps them in sidebar order |
| `AppLayout.MenuItems` | src/components/layout/AppLayout.tsx:51-124 | Home is always present and first; ProjectX is present iff `hasPermission('projectx')`, Agents iff `hasAnyPermission(['saman','sepehr','behpardakht','ap'])`, Ledger iff `hasPermission('yal')`; sections are strictly in the order Home, ProjectX, Agents, Ledger; there are 1 to 4 of them |
| `AppLayout.SelectedKeys` | src/components/layout/AppLayout.tsx:126-129 | always the one-element list holding the path, so the `'/'` branch is the general case |
| `AppLayout.OpenRulesExclusive` | src/components/layout/AppLayout.tsx:131-137 | no path starts with two of `/home`, `/projectx`, `/agents`, `/ledger`, so the order of the tests does not matter |
| `AppLayout.OpenKeys` | src/components/layout/AppLayout.tsx:131-137 | the open section is the one whose prefix the path starts with; with no matching prefix it is `home` |
| `ApiErrors.IsHitmanApiError` | src/types/errors.ts:9-26 | the `typeof`/truthiness tests accept exactly an object whose `response.data` is an object with a numeric `httpStatusCode` and string `code`, `message` and `fingerprint` |
| `ApiErrors.AsApiError` | src/types/errors.ts:9-26 | returns a body exactly when the value is recognised, and the body's fields are those found in `response.data`, including whatever `details` holds |
| `ApiErrors.RecognizeRoundTrip` | src/types/errors.ts:1-25 | every well-typed error body, wrapped as `response.data`, is recognised and read back unchanged, whatever extra fields it carries and whether or not it is an `Error` instance |
| `ApiErrors.PartialMatchRejected` | src/types/errors.ts:19-25 | a body with any one of the four required fields of the wrong type, or missing, is not recognised |
| `ApiErrors.NotObjectRejected` | src/types/errors.ts:10-17 | non-objects, `null`, and objects without an object `response.data` are not recognised |
| `ErrorHandler.DescriptionParts` | src/services/errorHandler.tsx:16-25 | the body starts with the message, and has a fingerprint line, carrying the fingerprint, iff the fingerprint is non-empty |
| `ErrorHandler.ErrorNotice` | src/services/errorHandler.tsx:11-65 | every notice is an error titled `Error` at `topRight`; the duration is 6 for a recognised error and 4 otherwise; "Show Details" is present iff the error is recognised and `details` is truthy, and it opens that error; the description is the recognised body's lines, or an `Error` instance's `message`, or the fixed fallback text |
| `ErrorHandler.DetailsNotice` | src/services/errorHandler.tsx:70-108 | the details panel is an info notice under key `error-details` with duration 0; it always lists code, message and fingerprint, and has a Details block iff `details` is truthy |
| `ErrorHandler.WithoutKey` | src/services/errorHandler.tsx:71 | the result holds only displayed notices without the key, is no longer than the display, and contains every displayed notice without the key; counts and order are in the two lemmas below |
| `ErrorHandler.WithoutKeyCounts` | src/services/errorHandler.tsx:71 | every notice without the key survives exactly as many times as it was displayed, and none with the key survives |
| `ErrorHandler.WithoutKeyConcat` | src/services/errorHandler.tsx:71 | destroying a key acts on each part of the display separately, so the surviving notices keep their relative order |
| `ErrorHandler.Notifier.HandleApiError` | src/services/errorHandler.tsx:11-65 | each call emits and displays exactly one notice, `ErrorNotice(error)`, and changes nothing else |
| `ErrorHandler.Notifier.ShowErrorDetails` | src/services/errorHandler.tsx:70-109 | any open details panel is closed and the new one is appended, so afterwards exactly one displayed notice has the `error-details` key, the last one |
| `ErrorHandler.HandlerScenariosWithDetails` | src/services/errorHandler.test.ts:20-88 | a recognised error with `details` gets duration 6 and a "Show Details" action that opens that error |
| `ErrorHandler.HandlerScenariosWithoutDetails` | src/services/errorHandler.test.ts:90-108 | a recognised error without `details` gets no action |
| `ErrorHandler.HandlerScenariosUnrecognised` | src/services/errorHandler.test.ts:110-154 | `Error('Network error')` gets its message and duration 4; unrecognised objects get the fallback text |
| `PspMetrics.UnderscoreJoinInjective` | src/pages/projectx/PspMetricsPage.tsx:72-78 | `p + "_" + a` determines `p` and `a` when `a` and `b` contain no `_`, which holds for every measure name |
| `PspMetrics.VendorKeyInjective` | src/pages/projectx/PspMetricsPage.tsx:71-78 | distinct (vendor, measure) pairs never write the same property name |
| `PspMetrics.VendorKeyIsNotPeriodKey` | src/pages/projectx/PspMetricsPage.tsx:69-78 | no vendor write can overwrite a row's `timePeriod` cell |
| `PspMetrics.WriteMeasuresUnfolded` | src/pages/projectx/PspMetricsPage.tsx:72-78 | the seven writes, in source order, are the fold of the measure list |
| `PspMetrics.WriteFieldsEffect` | src/pages/projectx/PspMetricsPage.tsx:72-78 | after writing a list of measures, each written key holds the record's measure, no other key is added, and every other key is unchanged |
| `PspMetrics.WriteMeasuresEffect` | src/pages/projectx/PspMetricsPage.tsx:72-78 | the same, for all seven measures of a record |
| `PspMetrics.RowSpecUnique` | src/pages/projectx/PspMetricsPage.tsx:67-80 | the row specification (period cell, the vendors present, the last-write values, no other keys) determines a row completely |
| `PspMetrics.FreshRowSpec` | src/pages/projectx/PspMetricsPage.tsx:68-70 | a period's first record starts from `{timePeriod}`, which meets the specification for the records before it |
| `PspMetrics.WriteMeasuresCell` | src/pages/projectx/PspMetricsPage.tsx:71-78 | after writing a record, each vendor key is present exactly when that vendor has a record for the period, and holds the last such record's measure |
| `PspMetrics.WriteMeasuresSpec` | src/pages/projectx/PspMetricsPage.tsx:71-78 | writing a record into its period's row keeps the specification, with that record as its vendor's last |
| `PspMetrics.RowSpecOtherPeriod` | src/pages/projectx/PspMetricsPage.tsx:67-80 | a record for one period leaves the rows of other periods meeting their specification |
| `PspMetrics.OccursSnoc` | src/pages/projectx/PspMetricsPage.tsx:67-70 | the periods present after one more record are the old ones plus that record's period |
| `PspMetrics.GroupSnoc` | src/pages/projectx/PspMetricsPage.tsx:67-80 | the grouped object for one more record is one more reducer step |
| `PspMetrics.AccumulateSpec` | src/pages/projectx/PspMetricsPage.tsx:67-80 | one reducer step keeps the invariant "one row per period present, each meeting its specification" |
| `PspMetrics.GroupSpec` | src/pages/projectx/PspMetricsPage.tsx:67-80 | the grouped object has a row exactly for each period in the input, and each row has its period cell, each present vendor's seven keys holding that vendor's last record, and nothing else |
| `PspMetrics.GroupDeterminedByLastRecords` | src/pages/projectx/PspMetricsPage.tsx:67-82 | two inputs with the same periods and the same last record per (period, vendor) group identically, so any reordering that keeps the relative order within each (period, vendor) pair changes nothing |
| `PspMetrics.SortPeriods` | src/pages/projectx/PspMetricsPage.tsx:82 | the sorted periods are strictly ascending and are a permutation of the input |
| `PspMetrics.WriteRecord` | src/pages/projectx/PspMetricsPage.tsx:72-78 | the seven assignments, in source order, leave the row equal to the fold of the measure writes, so `WriteMeasuresEffect` describes them |
| `PspMetrics.AccumulateKeys` | src/pages/projectx/PspMetricsPage.tsx:68-70 | one reducer step adds exactly the record's period to the grouped object's keys |
| `PspMetrics.AddRecord` | src/pages/projectx/PspMetricsPage.tsx:67-80 | the reducer callback creates the period's row on first sight, records the period in insertion order, then performs the seven writes (one `Accumulate` step) |
| `PspMetrics.TracksStep` | src/pages/projectx/PspMetricsPage.tsx:68-70 | recording a period only on first sight keeps the period list duplicate-free and equal, as a set, to the keys |
| `PspMetrics.GroupRecords` | src/pages/projectx/PspMetricsPage.tsx:67-80 | the `reduce` computes the grouped object and lists its periods once each |
| `PspMetrics.RowsOfSortedPeriods` | src/pages/projectx/PspMetricsPage.tsx:82 | looking up the ascending periods in the grouped object gives one row per distinct period, in ascending order, each meeting its specification |
| `PspMetrics.Reshape` | src/pages/projectx/PspMetricsPage.tsx:64-83 | absent or empty `elements` give no rows; otherwise there is exactly one row per distinct period, strictly ascending; each row carries its period and, for each vendor seen with that period, exactly the seven keys holding the last such record's measures; there is no zero-filling |
| `PspMetrics.ReshapeRecords` | src/pages/projectx/PspMetricsPage.tsx:67-83 | for a present response: no records give no rows; otherwise one row per distinct period, strictly ascending, each meeting its specification |
| `PspMetrics.FetchOnClick` | src/pages/projectx/PspMetricsPage.tsx:162 | a request is issued iff the vendor selection is non-empty, and it carries the selection, dates and granularity unchanged |
| `PspMetrics.PeriodOrderExample` | src/pages/projectx/PspMetricsPage.tsx:82 | `1404-09-09` sorts before `1404-09-10` |
| `PspMetrics.LastWriteWinsExample` | src/pages/projectx/PspMetricsPage.tsx:71-78 | for two SAMAN records for period A with down-times 1 then 2, the row holds 2 |

## Left out

- Rendering is left out: JSX, antd components, recharts charts, layout and styling. The model records notices as descriptor values, not as rendered nodes.
- The zustand `persist` middleware is left out. It saves and restores the whole store under `auth-storage`. Only the `'token'` entry that `login`/`logout` write and remove is modelled.
- The axios client is left out. This includes the bearer header and the 401 interceptor that clears `localStorage['token']` and redirects.
- The asynchronous login flow is left out: token verification and navigation. Only its "store only an active user" step is kept, as `CompleteLogin`.
- The react-query lifecycle is left out: loading and error flags, refetch, and the unhandled race between out-of-order responses.
- The Jalali calendar, dayjs formatting and date-picker state are left out. Periods and dates are opaque strings.
- `localeCompare` is modelled as character-code lexicographic order (`JsStrings.Less`). The two agree for the fixed-width, zero-padded ASCII `YYYY-MM-DD` periods the upstream sends. Locale collation itself is not modelled.
- Some JavaScript plain-object behaviour is not modelled:
  - Periods are assumed not to be names inherited from `Object.prototype`, such as `constructor`. For such a name, `acc[p]` would already be truthy.
  - `Object.values` order is taken to be insertion order. Integer-like keys would be listed first, but the sort makes that order irrelevant.
- The sort is modelled on the periods rather than on the rows. The model sorts the distinct period keys and then looks up each key's row. This gives the same rows, because each row's `timePeriod` is its key.
- A row is modelled as a value that is reassigned. In the source it is an object mutated in place, but it is reachable only through the accumulator, so no aliasing is lost.
- JavaScript numbers are modelled as integers. NaN, floats and `-0` are left out. This affects `typeof` only through `number` and truthiness only through zero.
- Property reads see only an object's own properties. Inherited `response`, `data` or `message` properties are not modelled. For an `Error` instance without its own `message`, the inherited empty string is used.
- Notices are never auto-closed after their duration, because that needs a clock. antd's own placement and stacking are not modelled.
- In the details panel, React would print a falsy non-string `details` such as `0` as text. The model omits the Details block for every falsy value.
- The "Show Details" button is a notice's `showDetails` field. Clicking it corresponds to calling `Notifier.ShowErrorDetails` with that error.
- Routing, bootstrap, the ledger pages and the home page are configuration or rendering only.
