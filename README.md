# ERP access control, audit trail and order forms — a Dafny model

This project models the security and bookkeeping core of a small ERP
application (an Express server with a React client) and proves properties
of the model:

- **Request gates** (`server/middleware/auth.js`). Bearer-token
  authentication loads the user into the request. `checkRole` is the role
  gate. `checkIP` is the IP allow-list gate, whose entries match as
  substrings of the client address.
- **Registration and login** (`server/routes/auth.js`). Registration checks
  run in a fixed order, then the role is defaulted and the user inserted.
  Login checks the email, then the IP restriction, then the password, and
  writes an audit row.
- **Audit trail** (`server/utils/audit.js`). `logAction` is a best-effort
  append to the `AuditLog` table.
- **Navigation shell** (`client/src/components/Layout.jsx`). It covers
  which sidebar entries each role sees, which entry is highlighted, and the
  header title.
- **CSV export** of the reports page (`client/src/pages/Reports.jsx`).
- **Order-line editors and request payloads** of the sales-order form
  (`client/src/pages/Sales.jsx`) and the customer bulk-order form
  (`client/src/pages/PlaceOrder.jsx`), plus the catalog title lookup.

One Dafny module per source file, plus shared helper modules:

| module | file | role |
|---|---|---|
| `Wrappers` | `wrappers.dfy` | `Option` |
| `JsStrings` | `js_strings.dfy` | JavaScript string built-ins: `includes`, `length`, `split`, `join`, `trim`, `String(n)`, `parseInt` |
| `Json` | `json.dfy` | JavaScript values, `JSON.stringify`, `String(v)` |
| `Users` | `users.dfy` | the `User` table: lookups and insert |
| `Audit` | `audit.dfy` | `logAction` on a class holding the log |
| `AuthMiddleware` | `auth_middleware.dfy` | `authMiddleware`, `checkRole`, `checkIP` |
| `AuthRoutes` | `auth_routes.dfy` | `/register`, `/login` |
| `Layout` | `layout.dfy` | navigation shell |
| `Reports` | `reports.dfy` | `handleExport` |
| `FormLines` | `form_lines.dfy` | order-line objects shared by both forms |
| `Sales` | `sales.dfy` | sales-order form |
| `PlaceOrder` | `place_order.dfy` | bulk-order form and `getBookTitle` |

Code that changes state is written imperatively:

- The user table, the audit log, the request object and the two forms are
  classes.
- Their operations are methods with `modifies` clauses.
- An order line is an object whose properties `updateItem` assigns in place.

Decisions are pure functions, and the properties are lemmas about them.

Given functions stand for code outside the model. Each is a function-typed
parameter:

- JWT verification: a token to the user id it carries, or `None`.
- bcrypt hashing and comparison.
- `parseFloat`, with `None` standing for `NaN`.

A storage failure is a boolean parameter chosen by the caller: `storeFails`,
`writeFails`, `auditFails`.

## Model

| member | source | states |
|---|---|---|
| `Users.FindByEmail` | server/routes/auth.js:22 | the lookup by email finds a row with that email when one exists, and reports none exactly when no row has it |
| `Users.FindById` | server/middleware/auth.js:19-21 | the lookup by primary key finds a row with that id, and reports none exactly when no row has it |
| `Users.UserStore.Create` | server/routes/auth.js:33-40 | an insert succeeds exactly when storage works and the email is unused; it appends one row with the next id and no IP restriction, and a failed insert changes nothing; id and email uniqueness are preserved |
| `AuthMiddleware.BearerToken` | server/middleware/auth.js:8-12 | there is a token exactly when the header is present and starts with "Bearer "; the token is the header after that prefix |
| `AuthMiddleware.Authenticate` | server/middleware/auth.js:4-33 | no bearer header gives 401 "No token provided"; a token that does not verify gives 401 "Invalid or expired token"; a storage failure while loading the user gives 500; an unknown user id gives 401 "User not found"; authentication succeeds exactly when the token verifies, storage works and the user id exists, and the session user is that row |
| `AuthMiddleware.RunAuthMiddleware` | server/middleware/auth.js:4-33 | the request passes exactly when authentication succeeds, and only then is `req.user` assigned; a rejection leaves `req.user` as it was |
| `AuthMiddleware.CheckRole` | server/middleware/auth.js:35-51 | the request passes exactly when there is a user whose role is listed; no user gives 401; an unlisted role gives 403 carrying the required roles and the user's role |
| `AuthMiddleware.AllowList` | server/middleware/auth.js:58 | one entry per comma-separated piece, in order, each the trimmed piece, none with white space at either end |
| `AuthMiddleware.CheckIP` | server/middleware/auth.js:54-66 | it passes without a user or without an allow-list, and otherwise exactly when the client address contains some entry; a refusal is 403 naming the address; with no address at all the handler throws |
| `AuthMiddleware.ClientIp` | server/middleware/auth.js:57 | the request address is used when truthy, otherwise the connection's remote address; there is no address exactly when neither is available |
| `AuthMiddleware.IpAllowed` | server/middleware/auth.js:60 | an address is refused only when every allow-list entry is non-empty (an empty entry admits everything) |
| `AuthMiddleware.RunCheckIP` | server/middleware/auth.js:54-66 | the handler answers the gate's decision for the request's user and client address, and a refusal is always 403 |
| `AuthMiddleware.EntryAdmitsContainingAddress` | server/middleware/auth.js:60 | an entry admits every address that contains it |
| `AuthMiddleware.PrefixEntryAdmitsLongerAddress` | server/middleware/auth.js:60 | the entry "10.0.0.1" admits the address "10.0.0.12" |
| `AuthMiddleware.EmptyEntryAdmitsAll` | server/middleware/auth.js:58-60 | an empty entry admits every address |
| `AuthMiddleware.EmptyPieceEmptyEntry` | server/middleware/auth.js:58 | an empty comma-separated piece becomes an empty entry |
| `AuthMiddleware.SplitTrailingSeparator` | server/middleware/auth.js:58 | a trailing comma adds one empty piece to the split |
| `AuthMiddleware.TrailingCommaAdmitsAll` | server/middleware/auth.js:58-60 | an allow-list ending in a comma admits every address |
| `AuthMiddleware.AllowListOfJoin` | server/middleware/auth.js:58 | trimmed, comma-free entries joined by commas read back as exactly those entries, in order |
| `AuthRoutes.RegistrationError` | server/routes/auth.js:14-26 | missing fields are reported first, then a password shorter than 6 UTF-16 code units, then a taken email; there is no error exactly when all fields are present, the password has at least 6 code units and no row has the email |
| `AuthRoutes.SupplementaryPasswordLength` | server/routes/auth.js:18 | three characters outside the Basic Multilingual Plane already reach the minimum password length |
| `AuthRoutes.StoredRole` | server/routes/auth.js:28-29 | the stored role is always a valid role: the requested one when valid, otherwise SALES |
| `AuthRoutes.StoredId` | server/routes/auth.js:38-39 | an absent or empty id is stored as null, and a supplied one as `parseInt` of it (`NaN` also becomes null, see Left out) |
| `AuthRoutes.StoredIdOfDecimal` | server/routes/auth.js:38-39 | an id sent in decimal is stored as that number |
| `AuthRoutes.Register` | server/routes/auth.js:10-61 | a rejected request answers the first failing check and leaves the table unchanged; an insert failure answers 500 and changes nothing; otherwise exactly one user is appended, with the hashed password, the defaulted role and the parsed ids, and returned without the hash |
| `AuthRoutes.LoginClientIp` | server/routes/auth.js:76 | a truthy request address is used; otherwise a truthy remote address; otherwise the empty text |
| `AuthRoutes.LoginAddressFallsBack` | server/routes/auth.js:76 | the login address is the gate's client address, with the empty text in place of none |
| `AuthRoutes.LoginDecision` | server/routes/auth.js:64-90 | an unknown email gives 401; a blocked address gives 403 whatever the password; an allowed address with a wrong password gives the same 401 as an unknown email; login succeeds exactly when the email is known, the address is allowed and the password matches; login never registers anyone |
| `AuthRoutes.LoginRecord` | server/routes/auth.js:92 | the LOGIN row names the user, the action LOGIN and the entity User, and its details are stored as text |
| `AuthRoutes.LoginRecordDetails` | server/routes/auth.js:92 | the LOGIN row's details are the JSON text `{"ip":...}` of the request address, or `{}` without one; its entityId is the user id's decimal text |
| `AuthRoutes.Login` | server/routes/auth.js:64-113 | the answer is the login decision; the audit log gains one LOGIN row only on success when the write does not fail, and a failed audit write does not change the answer |
| `Audit.DetailsColumn` | server/utils/audit.js:3-10 | an omitted argument and `null` are stored as the text "null"; objects and arrays are stored as exactly their `JSON.stringify` text; other values are kept as they are |
| `Audit.EntityIdColumn` | server/utils/audit.js:9 | a text entity id is stored unchanged |
| `Audit.NumericEntityIdsDistinct` | server/utils/audit.js:9 | two different numeric entity ids are never stored as the same text |
| `Audit.NewRecord` | server/utils/audit.js:5-11 | the row keeps the user id, action and entity as given, and stores object-typed or omitted details as text |
| `Audit.AuditLog.LogAction` | server/utils/audit.js:3-16 | exactly one row is appended, or none when the write fails; existing rows are never changed or removed |
| `Json.Stringify` | server/utils/audit.js:10 | `JSON.stringify` of any value other than `undefined` is non-empty text |
| `Json.StringifyOneMember` | server/utils/audit.js:10 | an object with one defined member prints as `{"key":value}` |
| `Json.StringifyUndefinedMember` | server/utils/audit.js:10 | an object whose only member is `undefined` prints as `{}` |
| `Json.ToJsString` | server/utils/audit.js:9 | `String(v)` keeps a string unchanged and gives a number's text that `parseInt` reads back as that number |
| `JsStrings.IncludesIff` | server/middleware/auth.js:60 | `includes` holds exactly when the text occurs at some position |
| `JsStrings.Includes` | server/middleware/auth.js:60 | a text only includes texts no longer than itself |
| `JsStrings.Split` | server/middleware/auth.js:58 | `split` yields at least one piece, and no piece contains the separator |
| `JsStrings.Join` | client/src/pages/Reports.jsx:70-71 | joining no pieces gives the empty text, and the result starts with the first piece |
| `JsStrings.JoinSplit` | server/middleware/auth.js:58 | joining the pieces of a split with the separator gives back the original text |
| `JsStrings.SplitJoin` | server/middleware/auth.js:58 | splitting separator-free pieces joined by the separator gives back those pieces |
| `JsStrings.Trim` | server/middleware/auth.js:58 | `trim` leaves no white space at either end and never lengthens the text |
| `JsStrings.TrimPadded` | server/middleware/auth.js:58 | `trim` removes exactly the white-space padding around a trimmed text |
| `JsStrings.JsLength` | server/routes/auth.js:18 | `length` counts UTF-16 code units: at least one and at most two per character |
| `JsStrings.JsLengthAppend` | server/routes/auth.js:18 | the length of a concatenation is the sum of the lengths |
| `JsStrings.JsLengthOfBasic` | server/routes/auth.js:18 | a text without supplementary characters has one code unit per character |
| `JsStrings.IntToString` | server/utils/audit.js:9 | `String(n)` of an integer (taken as unbounded, see Left out) is non-empty, begins with a digit or a minus sign, and is digits after that |
| `JsStrings.IntToStringInjective` | server/utils/audit.js:9 | distinct integers have distinct decimal forms |
| `JsStrings.IntToStringSign` | server/utils/audit.js:9 | `String(n)` starts with a minus sign exactly for negative `n`, followed by the digits of the magnitude |
| `JsStrings.ParseInt` | server/routes/auth.js:38-39 | `parseInt` of white space or the empty text is `NaN` |
| `JsStrings.ParseIntOfDecimal` | server/routes/auth.js:38-39 | `parseInt` reads back any integer's decimal form after leading white space and before text that does not start with a digit, `x` or `X` |
| `JsStrings.ParseIntOfIntToString` | client/src/pages/PlaceOrder.jsx:42-43 | `parseInt(String(n))` is `n` |
| `Layout.SidebarMembers` | client/src/components/Layout.jsx:80-83 | the sidebar holds exactly the entries whose roles admit the signed-in user's role, entries without roles being shown to everyone |
| `Layout.Sidebar` | client/src/components/Layout.jsx:101-102 | filtering never adds entries; which ones remain is stated by `SidebarMembers` |
| `Layout.CanAccess` | client/src/components/Layout.jsx:80-83 | with nobody signed in, exactly the entries without roles are accessible |
| `Layout.InSidebar` | client/src/components/Layout.jsx:101-102 | an entry is rendered exactly when `canAccess` admits its roles |
| `Layout.RestrictedEntry` | client/src/components/Layout.jsx:80-83 | an entry restricted to some roles is rendered exactly when the signed-in user holds one of them |
| `Layout.SidebarKeepsOrder` | client/src/components/Layout.jsx:101-102 | filtering keeps the navigation order |
| `Layout.UsersEntryByRole` | client/src/components/Layout.jsx:72-77 | Users is shown exactly to ADMIN and HO |
| `Layout.CustomersEntryByRole` | client/src/components/Layout.jsx:43-48 | Customers is shown exactly to ADMIN, HO, BRANCH and SALES |
| `Layout.CustomerEntriesByRole` | client/src/components/Layout.jsx:50-61 | My Orders and Place Order are shown exactly to CUSTOMER |
| `Layout.SignedOutSidebar` | client/src/components/Layout.jsx:27-83 | without a user the sidebar is exactly Dashboard, Inventory, Sales Orders, Purchases and Reports, in that order |
| `Layout.FirstActive` | client/src/components/Layout.jsx:143 | the found entry's path starts the current path and no earlier entry's does; none is found exactly when no path starts it |
| `Layout.IsActive` | client/src/components/Layout.jsx:108 | an entry is only active for a path at least as long as its own |
| `Layout.HeaderTitle` | client/src/components/Layout.jsx:143 | the header title is never empty, and is 'Dashboard' when no entry is active |
| `Layout.NavigationPrefixFree` | client/src/components/Layout.jsx:27-78 | no navigation path is a prefix of another |
| `Layout.NavigationWellFormed` | client/src/components/Layout.jsx:27-78 | the navigation list is prefix-free and every entry has a label |
| `Layout.AtMostOneActive` | client/src/components/Layout.jsx:108 | at most one sidebar entry is highlighted for any path |
| `Layout.ActiveUnique` | client/src/components/Layout.jsx:108 | in any prefix-free list at most one entry is active for a path |
| `Layout.HeaderTitleOfActive` | client/src/components/Layout.jsx:143 | for any prefix-free, labelled list the header names the active entry, and shows 'Dashboard' when none is active |
| `Layout.HeaderTitleNamesActiveEntry` | client/src/components/Layout.jsx:143 | the header shows the label of the highlighted entry, and 'Dashboard' when none is highlighted |
| `Reports.ExportRows` | client/src/pages/Reports.jsx:57-66 | the rows are the data when it is a list, else its details, else the analysis rows; an analysis with byBranch but no byMonth throws; an object with none of these gives no rows |
| `Reports.HandleExport` | client/src/pages/Reports.jsx:53-71 | no data does nothing; no rows raises the alert; otherwise the download is the CSV of the flattened rows |
| `Reports.AnalysisRowsShape` | client/src/pages/Reports.jsx:64-65 | analysis rows are one per branch then one per month, each with the keys Type, Name and Amount, the first ones typed Branch and the rest Month, carrying the names and totals in order |
| `Reports.AnalysisExport` | client/src/pages/Reports.jsx:62-68 | an analysis exports its analysis rows, alerts when both lists are empty, and crashes without byMonth |
| `Reports.AnalysisRows` | client/src/pages/Reports.jsx:64-65 | there is one row per branch total and one per month total |
| `Reports.Csv` | client/src/pages/Reports.jsx:70-71 | the file starts with the header line of the first row's keys |
| `Reports.CsvLines` | client/src/pages/Reports.jsx:70-71 | with newline-free keys and values the file has exactly one line more than there are rows: the header, then each row's line in order |
| `Reports.LineCells` | client/src/pages/Reports.jsx:71 | with comma-free values a line splits back into the row's values, each in double quotes, in order |
| `Reports.HeaderKeys` | client/src/pages/Reports.jsx:70 | with comma-free keys the header splits back into the first row's keys |
| `FormLines.ParseIntValue` | client/src/pages/Sales.jsx:55 | the empty text does not parse and a number is kept |
| `FormLines.ParseIntField` | client/src/pages/Sales.jsx:57-58 | a missing property does not parse |
| `FormLines.ParseIntFieldOfDecimal` | client/src/pages/PlaceOrder.jsx:42-43 | a typed decimal integer is sent as that number |
| `FormLines.WithoutIndexRemovesOne` | client/src/pages/Sales.jsx:156 | filtering out an index removes exactly that element and keeps the rest in order; an index outside the list removes nothing |
| `FormLines.WithoutIndex` | client/src/pages/Sales.jsx:156 | filtering out an index in range removes one element, and an index out of range removes none |
| `FormLines.DistinctWithoutIndex` | client/src/pages/PlaceOrder.jsx:106 | removing a line keeps the line objects distinct |
| `FormLines.Map` | client/src/pages/PlaceOrder.jsx:41 | `map` keeps the length and maps each element at its own position |
| `Sales.SalesOrderForm.constructor` | client/src/pages/Sales.jsx:10-13 | the form starts with no customer and exactly one blank line whose discount is 0 |
| `Sales.SalesOrderForm.SetCustomer` | client/src/pages/Sales.jsx:133 | the customer id input changes the customer id only |
| `Sales.SalesOrderForm.AddItem` | client/src/pages/Sales.jsx:40-42 | one new blank line is appended and the existing lines are the same objects with the same contents |
| `Sales.SalesOrderForm.UpdateItem` | client/src/pages/Sales.jsx:44-48 | only the given property of the given line changes; the list holds the same objects and every other line and property is unchanged |
| `Sales.SalesOrderForm.RemoveItem` | client/src/pages/Sales.jsx:156 | removal, offered only after the first line, deletes exactly that line, keeps the rest in order with their contents, and keeps the first line |
| `Sales.Discount` | client/src/pages/Sales.jsx:59 | a missing, empty or zero discount is sent as 0, a number as itself, typed text through `parseFloat` |
| `Sales.ItemPayload` | client/src/pages/Sales.jsx:57-59 | a book id or quantity is only sent when the line has that property, and a line without a discount sends 0 |
| `Sales.OrderPayload` | client/src/pages/Sales.jsx:54-61 | the payload carries the parsed customer id and as many items as lines |
| `Sales.PayloadItems` | client/src/pages/Sales.jsx:56-60 | each line gives the item at its own position |
| `Sales.BlankLinePayload` | client/src/pages/Sales.jsx:57-59 | a blank line builds an item with no book id, no quantity and a discount of 0 |
| `Sales.FilledLinePayload` | client/src/pages/Sales.jsx:57-59 | a line with decimal book id and quantity and no discount builds an item with those numbers and 0 |
| `Sales.PayloadAfterAdd` | client/src/pages/Sales.jsx:41 | adding a line appends one blank item to the payload |
| `Sales.PayloadAfterRemove` | client/src/pages/Sales.jsx:156 | removing a line removes exactly its item from the payload |
| `Sales.PayloadAfterUpdate` | client/src/pages/Sales.jsx:44-48 | editing one line changes only that line's payload item |
| `PlaceOrder.BulkOrderForm.constructor` | client/src/pages/PlaceOrder.jsx:7 | the form starts with exactly one blank line |
| `PlaceOrder.BulkOrderForm.AddItem` | client/src/pages/PlaceOrder.jsx:26-28 | one new blank line is appended and the existing lines are unchanged |
| `PlaceOrder.BulkOrderForm.UpdateItem` | client/src/pages/PlaceOrder.jsx:30-34 | only the given property of the given line changes |
| `PlaceOrder.BulkOrderForm.RemoveItem` | client/src/pages/PlaceOrder.jsx:105-106 | removal, offered only while there is more than one line, deletes exactly that line and keeps the rest in order, so the list is never empty |
| `PlaceOrder.BulkPayload` | client/src/pages/PlaceOrder.jsx:40-45 | one payload item per line |
| `PlaceOrder.BulkPayloadItems` | client/src/pages/PlaceOrder.jsx:41-44 | each item holds only the line's parsed book id and quantity; other properties of a line never reach the payload |
| `PlaceOrder.ItemPayload` | client/src/pages/PlaceOrder.jsx:42-43 | a book id or quantity is only sent when the line has that property |
| `PlaceOrder.BlankLinePayload` | client/src/pages/PlaceOrder.jsx:42-43 | a blank line builds an item with no book id and no quantity |
| `PlaceOrder.FilledLinePayload` | client/src/pages/PlaceOrder.jsx:42-43 | a line with decimal book id and quantity builds an item with those numbers |
| `PlaceOrder.BulkPayloadAfterAdd` | client/src/pages/PlaceOrder.jsx:26-28 | adding a line appends one blank item to the payload |
| `PlaceOrder.BulkPayloadAfterRemove` | client/src/pages/PlaceOrder.jsx:105-106 | removing a line removes exactly its item from the payload |
| `PlaceOrder.BulkPayloadAfterUpdate` | client/src/pages/PlaceOrder.jsx:30-34 | editing one line changes only that line's payload item |
| `PlaceOrder.FindBook` | client/src/pages/PlaceOrder.jsx:58 | the found entry matches the id and no earlier entry does; none is found exactly when no entry matches |
| `PlaceOrder.TitleOf` | client/src/pages/PlaceOrder.jsx:60 | a non-empty nested title wins, otherwise the entry's own title |
| `PlaceOrder.GetBookTitle` | client/src/pages/PlaceOrder.jsx:57-61 | an id that does not parse, or matches nothing, gives ''; otherwise the title of the first matching entry |
| `PlaceOrder.FindBookAppend` | client/src/pages/PlaceOrder.jsx:58 | a match is found at the same place after more entries are appended |
| `PlaceOrder.FirstEntryWins` | client/src/pages/PlaceOrder.jsx:58-60 | appending entries never changes a title that is already found |
| `PlaceOrder.TitleOfTypedId` | client/src/pages/PlaceOrder.jsx:57-61 | an id typed in decimal finds the first entry carrying that id, as `bookTitleId` or `id`, and gives that entry's title |

## Left out

- JWT signing and verification, bcrypt and `parseFloat` are given functions.
  The model proves nothing about them beyond their use. Issuing a token after
  registration or login is not modelled.
- Row ids and `createdAt` come from the database. The model takes ids from a
  counter in the store, and `createdAt` is absent from the model.
- The 500 answers of `/register` and `/login` come from exceptions.
  `Register` models one: the insert failing (`storeFails`).
- `Register`, `Login`: a failing `User.findOne`, or a failing hash or
  compare, is not modelled.
- `Authenticate`: a storage failure while loading the user is modelled as
  the 500 answer. An exception inside the token verifier is not modelled.
- `CheckIP`: with no client address, `includes` throws. This is modelled as
  `Fault`, because the framework's error handler answers it and is not part
  of the model.
- `StoredId`: a supplied id that does not parse (`NaN`) is stored as null;
  what the database makes of `NaN` is not modelled.
- `RegisterBody`, `RegistrationError`: only string fields are modelled. A
  numeric `branchId` of 0 (falsy, so stored as null) and a numeric password
  (which has no `length`, skips the length check and makes the hash throw,
  answering 500) are not.
- `Sidebar`: its own contract only bounds the length; membership is stated
  by `SidebarMembers` and order by `SidebarKeepsOrder`.
- `IntToString`, `ParseInt`: numbers are modelled as unbounded integers,
  while JavaScript numbers are IEEE doubles. `String(n)` switches to
  exponent form (`"1e+21"`) once |n| reaches 10^21, and integers of
  magnitude above 2^53 are rounded, so `parseInt` of a longer numeral is
  not exact. The round trips `ParseIntOfDecimal`, `ParseIntOfIntToString`,
  `IntToStringInjective`, `StoredIdOfDecimal`, `ParseIntFieldOfDecimal`,
  `Sales.FilledLinePayload`, `PlaceOrder.FilledLinePayload`,
  `TitleOfTypedId`, `Json.ToJsString` and `NumericEntityIdsDistinct` hold
  in the original only for |n| < 2^53, and `IntToString`'s digits-only form
  only for |n| < 10^21. `Register` may therefore store an id that the
  original would round.
- Numbers are integers. Fractional amounts, and `parseFloat` beyond its
  result, are not modelled.
- `JSON.stringify` and `String(v)` are modelled for integers, strings,
  booleans, null, arrays and plain objects. Lone surrogates are not
  escaped. Object keys keep their given order; JavaScript's placement of
  integer-like keys first is not modelled.
- `Reports.ExportRows`: a `details` or `byBranch` property that is present
  but is not a list is not modelled.
- Rendering, the sidebar toggle, the Blob download and its date-stamped
  file name, `alert` and `window.print` are not modelled. The data fetches
  in `useEffect` are not modelled either.
- React state replacement (`setItems`, `setNewOrder`) is modelled as
  assigning the form's fields. React's previous state, whose line objects
  `updateItem` also changes, is not modelled.
- The order lifecycle, stock, credit, invoice and GST code lives in route
  files that are not part of this model.
