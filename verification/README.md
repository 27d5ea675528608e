# Food-ordering storefront: a Dafny model of its client-side logic

The storefront is a Next.js application. Customers browse a menu, fill a cart
and pay through a payment link. Administrators manage customers, items and
orders. Most of the code renders pages and forwards requests to a REST
backend. Between those calls sit small pieces of sequential logic, and this
project models them as pure functions over immutable datatypes:

- the cart reducer, its selectors and the checkout handler that turns a cart
  into order details and a payment request;
- the user-profile reducer;
- the string helpers: price grouping, Vietnamese accent stripping, the
  fallback-avatar initial, date composition, menu filtering by role and the
  token-lifetime test;
- `toastError`, the management-area menu table, the registration and sign-in
  handlers, and the `/login` redirect of the edge middleware;
- the list pages' search, category, status and tab filters, and their
  create, delete, edit and status updates;
- the client-side order-status moves (Pending to Ready by the administrator,
  Ready to Received by the customer);
- the two notification bells with their unread counters.

Backend calls, the session lookup and the clock are parameters. A call is
either a response value or a "threw" variant carrying the error the catch
block hands to `toastError` (`Global.Call`); a handler's result pairs the page
state with the error toast it showed (`Global.Handled`). A session is a
boolean and the time is an integer number of milliseconds. A date is handed over as its UTC
fields.

Modules follow the source files:

| module | file | models |
|---|---|---|
| `Models` | models.dfy | the records of the models directory, role and audience constants |
| `Seqs` | seqs.dfy | `filter`, `map` on matching entries, `reverse`, counting, sublists |
| `Text` | text.dfy | decimal rendering and parsing, `includes`, `padStart`, `split`/`join`, case mapping |
| `Cart` | cart.dfy | slices/cart.ts |
| `CartPage` | cart_page.dfy | src/pages/cart.tsx |
| `UserSlice` | user_slice.dfy | slices/user.ts and the profile merge of src/pages/account/index.tsx |
| `Helpers` | helpers.dfy | utils/helpers.ts |
| `Global` | global.dfy | utils/global.tsx |
| `Register` | register.dfy | components/auth/RegisterSection.tsx |
| `Login` | login.dfy | components/auth/LoginSection.tsx |
| `Middleware` | middleware.dfy | src/middleware.ts |
| `AdminItems` | admin_items.dfy | src/pages/admin/item.tsx |
| `OrderStatus` | order_status.dfy | the status moves shared by the two order pages |
| `ManageOrders` | manage_orders.dfy | src/pages/admin/manage-order.tsx |
| `AccountOrders` | account_orders.dfy | src/pages/account/orders.tsx |
| `ManageUsers` | manage_users.dfy | src/pages/admin/manage-user.tsx |
| `Home` | home.dfy | src/pages/index.tsx |
| `Invoices` | invoices.dfy | src/pages/account/invoices.tsx |
| `Notifications` | notifications.dfy | components/notification/NotificationDropdown.tsx and layout/components/header/HeaderManagePage.tsx |

Two behaviours of the code are easy to misread, and the model keeps them as
written. `toastError` shows "An error occurred" for an error shape it does
not recognise, and a plain message string is such a shape. So the
notification handlers, which pass their failure text as a string, show that
generic text (see Findings). Checkout clears the cart whenever the payment
call returns, even when the answer carries no URL to redirect to.

## Model

| member | source | states |
|---|---|---|
| Cart.FindLine | slices/cart.ts:22-24 | the index of the first line carrying the id, or -1 exactly when no line carries it |
| Cart.FindLineFindsPresent | slices/cart.ts:22-25 | the lookup succeeds exactly when some line has the id |
| Cart.FindLineUnique | slices/cart.ts:35 | with one line per id, the lookup finds that one line |
| Cart.AddToCart | slices/cart.ts:21-30 | afterwards the cart has a line for the item; the line count grows by one exactly when no line had its id |
| Cart.AddAbsentAppends | slices/cart.ts:27-29 | an item not in the cart is appended at the end as a new line with quantity 1 and nothing else changes |
| Cart.AddPresentIncrements | slices/cart.ts:22-26 | an item already in the cart raises that line's quantity by one; the line count, every item record and all other lines stay the same |
| Cart.AddPreservesValid | slices/cart.ts:21-30 | adding keeps one line per item id and every quantity at least 1 |
| Cart.RemoveFromCart | slices/cart.ts:31-33 | no line with the id is left and the cart does not grow |
| Cart.RemoveKeepsOthers | slices/cart.ts:31-33 | every other line survives in its order (a sublist), and removing an absent id changes nothing |
| Cart.FilterKeepsUniqueIds | slices/cart.ts:32 | filtering lines never creates two lines with one id |
| Cart.RemovePreservesValid | slices/cart.ts:31-33 | removing keeps one line per id and quantities at least 1 |
| Cart.UpdateQuantity | slices/cart.ts:34-39 | the line count is unchanged |
| Cart.UpdateQuantityEffect | slices/cart.ts:34-39 | with one line per id, only the line with the id gets the new quantity, whatever its value; an absent id is a no-op |
| Cart.UpdateKeepsUniqueIds | slices/cart.ts:34-39 | whatever the quantity, updating never gives two lines the same id |
| Cart.UpdatePositivePreservesValid | slices/cart.ts:34-39 | a quantity of at least 1 keeps the cart valid |
| Cart.UpdateQuantityAcceptsZero | slices/cart.ts:34-39 | the reducer itself accepts 0, so the guard against non-positive values must come from the page |
| Cart.ClearCart | slices/cart.ts:40-42 | the cart ends up with no lines |
| Cart.ClearCartValid | slices/cart.ts:40-53 | a cleared cart is valid, with zero lines and a zero total |
| Cart.ItemsCount | slices/cart.ts:49-50 | the number of lines: zero only for an empty cart, and in a valid cart at most the number of units, equal to it exactly when every line holds one unit |
| Cart.LinesWithinUnits | slices/cart.ts:49-50 | lines of positive quantity number at most their units, and exactly as many when every quantity is 1 |
| Cart.CartTotal | slices/cart.ts:51-53 | with no negative quantity the total is never negative and is at least each line's price × quantity |
| Cart.TotalCoversLines | slices/cart.ts:51-53 | a reduce sum of non-negative line amounts is non-negative and bounds each of them |
| Cart.TotalAppend | slices/cart.ts:51-53 | the reduce total of a list with one more line grows by that line's price × quantity |
| Cart.TotalUpdate | slices/cart.ts:51-53 | replacing one line changes the total by the difference of the two line amounts |
| Cart.AddRaisesTotal | slices/cart.ts:21-53 | adding an item raises the total by exactly one unit price: the price stored in the cart if the item is there, else the item's price |
| Cart.UpdateQuantityTotal | slices/cart.ts:34-53 | setting a quantity moves the total by price × (new − old quantity) |
| Cart.AddSameItemTwice | slices/cart.ts:49-50 | adding the same item twice to an empty cart gives one line with quantity 2, so the count selector reports 1 line while the quantities sum to 2 |
| CartPage.InputValue | src/pages/cart.tsx:136 | `value \|\| 1`: an empty or zero input becomes 1, anything else passes through |
| CartPage.HandleQuantityChange | src/pages/cart.tsx:44-48 | a value of 0 or less dispatches nothing; for integer quantities the cart stays valid, and it keeps its length |
| CartPage.OnQuantityInput | src/pages/cart.tsx:136 | in a valid cart, an emptied or zeroed input sets the line's quantity to 1 and changes no other line; a valid cart stays valid |
| CartPage.OrderDetails | src/pages/cart.tsx:58-61 | one detail per cart line, in order, copying item id and quantity |
| CartPage.OrderDetailsOfValidCart | src/pages/cart.tsx:58-61 | the details of a valid cart name each item once with a positive quantity |
| CartPage.BuildOrder | src/pages/cart.tsx:63-68 | the order is Pending (status 1) for the signed-in user, carries the note and the cart's details |
| CartPage.Checkout | src/pages/cart.tsx:54-99 | the payment request carries the cart total and the order's details; the cart is cleared exactly when the payment call returned, and a thrown call leaves the cart and the browser alone and shows `toastError`'s text for the error (the default text for a bare string); a redirect happens exactly when a non-empty URL came back |
| UserSlice.InitialUser | slices/user.ts:4-12 | the initial user is signed out: no ids and empty text fields |
| UserSlice.SignedOutIsInitial | slices/user.ts:4-12 | there is exactly one signed-out state |
| UserSlice.SetUserProfile | slices/user.ts:20-22 | `Object.assign`: each field present in the payload is taken, each absent one is kept |
| UserSlice.SetCompleteProfile | slices/user.ts:20-22 | a complete profile replaces the state whatever it was |
| UserSlice.SetUserProfileIdempotent | slices/user.ts:20-22 | applying the same payload twice is applying it once |
| UserSlice.MergeProfileUpdate | src/pages/account/index.tsx:62-79 | the saved profile takes the form's name, email, phone, address and avatar and keeps the user and role ids |
| UserSlice.UpdateDispatchIsPartialAssign | src/pages/account/index.tsx:62-79 | dispatching the merged record, whatever the store held, equals `Object.assign` of only the five edited keys onto the user data |
| UserSlice.DeleteUser | slices/user.ts:23-25 | the result is the signed-out state |
| UserSlice.DeleteUserForgets | slices/user.ts:23-25 | the result does not depend on the previous state |
| Helpers.IsExpiredTimeToken | utils/helpers.ts:7-11 | true exactly while now is before login + lifetime minutes (the session is still alive); an unparsable login date gives false |
| Helpers.TokenLifetimeMonotone | utils/helpers.ts:7-11 | once the test is false it stays false as time goes on |
| Helpers.FilterMenuByRole | utils/helpers.ts:13-19 | no role gives no menu; otherwise a sublist of entries that all carry the role, containing every entry that does |
| Helpers.FilterMenuByRoleIsMaximal | utils/helpers.ts:18 | no longer order-preserving sublist of entries with the role exists |
| Helpers.BaseLetter | utils/helpers.ts:24-30 | a listed accented letter or "đ" becomes a plain letter a–y; any other character is kept |
| Helpers.BaseOfLowerIsLower | utils/helpers.ts:22-30 | after lower-casing, the replacements produce lower-case letters |
| Helpers.LowerBase | utils/helpers.ts:22-30 | lower-casing then the seven replacements, one character at a time, leaves lower-case text with no listed accented letter |
| Helpers.StripAccents | utils/helpers.ts:21-34 | the result is lower-case, no longer than the input, and contains no listed accented letter and no listed combining mark |
| Helpers.StripAccentsKeepsPlain | utils/helpers.ts:21-34 | plain lower-case text is returned unchanged |
| Helpers.StripAccentsIdempotent | utils/helpers.ts:21-34 | a second pass changes nothing |
| Helpers.StripAccentsOfLetter | utils/helpers.ts:24-30 | each accented letter, in either case, becomes its plain lower-case base letter |
| Helpers.StripAccentsOfMark | utils/helpers.ts:31-32 | a lone combining mark is deleted |
| Helpers.AvatarInitial | utils/helpers.ts:39-41 | at most one character, lower-case and unaccented; "" for an empty name |
| Helpers.AvatarInitialIsStrippedFirst | utils/helpers.ts:39-41 | upper-casing the first character first makes no difference: the initial is the stripped first character |
| Helpers.AvatarInitialOfFirst | utils/helpers.ts:39-41 | the initial is the first character's base letter, or "" when that character is a combining mark |
| Helpers.StripDots | src/pages/admin/item.tsx:128 | no "." is left |
| Helpers.StripDotsAppend | src/pages/admin/item.tsx:128 | stripping distributes over concatenation |
| Helpers.Group | utils/helpers.ts:82 | the grouping regex on a numeral yields the grouped shape and loses no digit: removing the dots gives the numeral back |
| Helpers.GroupedIsGroup | utils/helpers.ts:82 | every string of the grouped shape is the grouping of its own digits, so the shape fixes the output |
| Helpers.GroupedSplit | utils/helpers.ts:82 | a grouped string longer than three characters is a grouped string, ".", and three digits |
| Helpers.GroupedExtend | utils/helpers.ts:82 | appending "." and three digits keeps the grouped shape |
| Helpers.FormatPrice | utils/helpers.ts:72-83 | "" for a falsy or non-numeric input; otherwise digits grouped by three from the right with no leading or trailing ".", whose digits are the decimal numeral of the value |
| Helpers.FormatPriceRoundTrip | utils/helpers.ts:78-82 | removing the dots from a formatted positive price gives its decimal numeral, and that grouped string is the only one that does |
| Helpers.FormatPriceZero | utils/helpers.ts:73 | the number 0 formats as "" while the string "0" formats as "0" |
| Helpers.FormatPriceExample | utils/helpers.ts:72-83 | 1234 formats as "1.234" |
| Helpers.TwoDigitsShape | utils/helpers.ts:112 | `padStart(2, '0')` of a number below 100 is two digits with that value |
| Helpers.DateTimeLayout | utils/helpers.ts:120 | the composed string has the fields at fixed positions: `HH:mm \| DD/MM/` and the year from position 14 |
| Helpers.FormatDateTimeVN | utils/helpers.ts:102-121 | an invalid date is the "Invalid date format" error; a valid one yields `HH:mm \| DD/MM/YYYY` with 2-digit hour, minute, day and month (0-based month + 1) |
| Helpers.FormatDateTimeVNRoundTrip | utils/helpers.ts:109-120 | the composed string determines the date fields: reading it back gives them all |
| Global.SliderMenuByRole | utils/global.tsx:22-47 | role 0 sees User, Order and Item in that order; role 1 sees only User; any other or no role sees nothing |
| Global.SliderMenuWellFormed | utils/global.tsx:22-47 | every entry's roles are 0 or 1, and the keys are distinct |
| Global.FirstNonEmpty | utils/global.tsx:56 | `a \|\| b \|\| c`: the first non-empty candidate, else the fallback |
| Global.ToastError | utils/global.tsx:49-58 | a non-empty array of server messages without line breaks is shown joined by "\n" (splitting gives it back); an empty array shows ""; every other shape shows a non-empty text; a plain string shows "An error occurred" |
| Global.ToastErrorPriority | utils/global.tsx:56 | the server message first, then the error's own message, then "An error occurred" |
| Global.ToastErrorIntended | utils/global.tsx:49-58 | as toastError, except that a non-empty plain string is itself the text shown |
| Global.ToastErrorDropsPlainString | components/notification/NotificationDropdown.tsx:91 | toastError turns "Failed to mark notification as read" into "An error occurred" |
| Register.IndexOf | components/auth/RegisterSection.tsx:49 | the first position of the character, or the length when it does not occur |
| Register.EmailScanIffPattern | components/auth/RegisterSection.tsx:49-50 | the scan accepts exactly the strings `/^[^\s@]+@[^\s@]+\.[^\s@]+$/` matches |
| Register.EmailValid | components/auth/RegisterSection.tsx:49-50 | `emailRegex.test(email)`: true exactly when the address matches the pattern, as the pattern itself defines a match |
| Register.PhoneValid | components/auth/RegisterSection.tsx:56 | `/^\d{10}$/`: true exactly for ten characters that removing non-digits leaves unchanged; such a number is its own value printed and zero-padded back to ten digits |
| Register.EmailRejections | components/auth/RegisterSection.tsx:49 | "a@bvn", "a@b@c.vn" and "a @b.vn" are rejected |
| Register.ValidateRegistration | components/auth/RegisterSection.tsx:34-86 | the empty-field, email, phone, password-match and terms checks run in order and the first failing one alone gives the message; a form passing all of them becomes a role-1 payload with no address and no avatar, carrying the form's fields |
| Register.RegistrationExample | components/auth/RegisterSection.tsx:34-72 | a complete, well-formed form is accepted |
| Register.HandleRegister | components/auth/RegisterSection.tsx:31-107 | a rejected form sends nothing; an accepted one sends the payload, goes to /account exactly when the sign-in after it succeeds, and toasts exactly when the request threw |
| Login.HomeOfRole | components/auth/LoginSection.tsx:51-55 | role 1 goes to /account, role 0 to /admin/manage-user, any other role nowhere |
| Login.HandleLogin | components/auth/LoginSection.tsx:27-62 | an empty username or password sets the error and does not call signIn; "Wrong login information!" exactly when signIn reported an error; navigation exactly on success with a known role; the form error exactly when signIn threw |
| Login.LoginRouting | components/auth/LoginSection.tsx:46-55 | customer and administrator land on different pages and a failed sign-in never navigates |
| Login.HandleForgotPassword | components/auth/LoginSection.tsx:64-87 | an empty email sends nothing and keeps the dialog open; the new password is shown, and the dialog closed, exactly when the request answered |
| Login.ForgotPasswordGuard | components/auth/LoginSection.tsx:64-87 | without an email the outcome does not depend on the call; with one, a thrown request keeps the dialog open with toastError's text and no password, and an answered request shows its message and password and closes the dialog |
| Middleware.Decide | src/middleware.ts:12-18 | a redirect to the origin exactly when the path is /login, a token exists and the session is still alive; every other request continues |
| Middleware.RedirectStopsAfterExpiry | src/middleware.ts:13-15 | once a session no longer redirects it never does again |
| Middleware.RedirectWithinLifetime | src/middleware.ts:13-15 | a session within its lifetime is redirected away from /login |
| AdminItems.ApplyFilters | src/pages/admin/item.tsx:85-104 | no filter keeps the list; otherwise the name search (case-insensitive) and the category filter ("Others" = neither Food nor Beverage) keep exactly the passing items, in order |
| AdminItems.ApplyFiltersIsOneFilter | src/pages/admin/item.tsx:88-100 | the two filters in a row are one filter by their conjunction |
| AdminItems.ApplyFiltersIsSublist | src/pages/admin/item.tsx:85-104 | the table is an order-preserving sublist of everything fetched and the longest one of passing items |
| AdminItems.Settle | src/pages/admin/item.tsx:85-104 | after the effect the table is in step with the filters and the full list is untouched |
| AdminItems.ClearFilters | src/pages/admin/item.tsx:106-110 | clearing shows the full list and is in step with the cleared filters |
| AdminItems.CreateItem | src/pages/admin/item.tsx:142-143 | the created item is put in front of both lists; the filters stay |
| AdminItems.HandleCreate | src/pages/admin/item.tsx:139-148 | an error toast is shown exactly when the call threw, with `toastError`'s text, and then both lists stay; an answered call puts the returned item in front |
| AdminItems.CreateThenSettle | src/pages/admin/item.tsx:142-143 | the prepend agrees with the filter effect exactly when the new item passes the filters |
| AdminItems.DeleteItem | src/pages/admin/item.tsx:270-275 | no item with the id is left in either list and every other item stays, in order |
| AdminItems.HandleDelete | src/pages/admin/item.tsx:265-278 | an error toast is shown exactly when the call threw, with `toastError`'s text, and then nothing is removed; an answered call deletes; the full list never gains an item |
| AdminItems.DeleteKeepsSynced | src/pages/admin/item.tsx:270-275 | deleting from both lists keeps the table in step with the filters |
| AdminItems.EditItem | src/pages/admin/item.tsx:483-501 | in both lists exactly the entries with the selected id become the updated record with that id; lengths and other entries stay |
| AdminItems.HandleEdit | src/pages/admin/item.tsx:481-508 | an error toast is shown exactly when the call threw, with `toastError`'s text, and then both lists stay; an answered call applies the edit; both lengths stay either way |
| AdminItems.EditThenSettle | src/pages/admin/item.tsx:483-501 | when the new record passes the filters exactly when the entries it replaces did, the in-place edit of the shown list is what the filter effect would show |
| AdminItems.EditFailingRecordLeaves | src/pages/admin/item.tsx:483-501 | a record that fails the filters is absent from the table once the filter effect has run |
| AdminItems.PriceFieldOnChange | src/pages/admin/item.tsx:369-375 | the field is empty exactly when no digit was typed, otherwise grouped by three |
| AdminItems.SubmittedPrice | src/pages/admin/item.tsx:128 | the submitted price holds no "." |
| AdminItems.PriceFieldRoundTrip | src/pages/admin/item.tsx:469 | what is submitted is the typed number without the dots and without leading zeros |
| AdminItems.KeepDigitsOfGrouped | src/pages/admin/item.tsx:539-545 | keeping the digits of a grouped price is removing its dots |
| AdminItems.PriceFieldStable | src/pages/admin/item.tsx:539-545 | re-formatting a formatted field changes nothing |
| AdminItems.EditFormPrice | src/pages/admin/item.tsx:518 | the edit form opens with a non-empty grouped price, zero included |
| AdminItems.EditPriceRoundTrip | src/pages/admin/item.tsx:469 | saving without touching the price sends the stored price back |
| OrderStatus.SetStatus | src/pages/admin/manage-order.tsx:73-75 | every order with the id gets the status; ids, length and other orders stay |
| OrderStatus.SetStatusIdempotent | src/pages/account/orders.tsx:76-80 | setting a status twice is setting it once; an absent id changes nothing |
| OrderStatus.Click | src/pages/admin/manage-order.tsx:162 | "Ready to Delivery" is offered only on Pending and "Confirm receipt" only on Ready; an offered action moves the status one step, otherwise nothing happens |
| OrderStatus.ClientTransitions | src/pages/account/orders.tsx:100 | the client only moves Pending to Ready and Ready to Received; Canceled and Received offer nothing |
| OrderStatus.ClickAllMonotone | src/pages/account/orders.tsx:100 | over any run of clicks a known status never goes back or leaves 0..3, and Canceled stays Canceled |
| OrderStatus.PendingToReceived | src/pages/admin/manage-order.tsx:162 | Pending reaches Received by the two clicks in order, not in the other order |
| ManageOrders.AdminStatusLabel | src/pages/admin/manage-order.tsx:32-37 | a label exists exactly for statuses 0 to 3 |
| ManageOrders.AdminStatusLabelsDistinct | src/pages/admin/manage-order.tsx:32-37 | the four labels are distinct |
| ManageOrders.ApplyFilters | src/pages/admin/manage-order.tsx:210-226 | no filter keeps the list; otherwise the orders whose decimal id contains the text and whose decimal status equals the filter, in order |
| ManageOrders.ApplyFiltersIsOneFilter | src/pages/admin/manage-order.tsx:213-223 | the two filters in a row are one filter by their conjunction |
| ManageOrders.StatusFilterSelectsStatus | src/pages/admin/manage-order.tsx:219-223 | the status filter keyed by a status selects exactly the orders with that status |
| ManageOrders.Settle | src/pages/admin/manage-order.tsx:210-226 | after the effect the table is in step with the filters |
| ManageOrders.ClearFilters | src/pages/admin/manage-order.tsx:228-232 | clearing shows the full list |
| ManageOrders.MarkReadyAsWritten | src/pages/admin/manage-order.tsx:73-78 | afterwards the full list is the shown list, with the shown list's length, so the orders the filters hid are gone |
| ManageOrders.MarkReadyAsWrittenLosesHiddenOrder | src/pages/admin/manage-order.tsx:73-78 | with the status filter on Pending, a hidden Received order disappears from the full list |
| ManageOrders.MarkReady | src/pages/admin/manage-order.tsx:73-75 | the order becomes Ready in both lists; lengths, ids, other orders and the filters stay |
| ManageOrders.HandleMarkReadyAsWritten | src/pages/admin/manage-order.tsx:63-83 | an error toast is shown exactly when the call threw, with `toastError`'s text, and then both lists stay; an answered call stores the updated shown list as both lists |
| ManageOrders.HandleMarkReady | src/pages/admin/manage-order.tsx:63-83 | with the corrected update: an error toast exactly when the call threw, and then both lists stay; both lengths stay either way |
| ManageOrders.MarkReadyAgreesWithoutFilters | src/pages/admin/manage-order.tsx:73-78 | with no filter active the update as written and the corrected one agree |
| ManageOrders.MarkReadyKeepsEveryOrder | src/pages/admin/manage-order.tsx:73-78 | every order id of the full list is still there after the corrected update |
| AccountOrders.CustomerStatusLabel | src/pages/account/orders.tsx:26-31 | a caption exists exactly for statuses 0 to 3, and status 2 reads "Ready for Delivery" |
| AccountOrders.KeyOfStatus | src/pages/account/orders.tsx:66 | a status renders as a one-digit key exactly when it is that digit |
| AccountOrders.TabFilter | src/pages/account/orders.tsx:64-67 | "all" shows every order; another tab shows exactly the orders whose decimal status is the key |
| AccountOrders.TabOfStatus | src/pages/account/orders.tsx:64-67 | the tab keyed by a status shows exactly the orders with that status |
| AccountOrders.TabsPartition | src/pages/account/orders.tsx:184-190 | with statuses 0 to 3 only, the sizes of the four status tabs add up to the number of orders |
| AccountOrders.ConfirmReceipt | src/pages/account/orders.tsx:76-80 | the matching order becomes Received and the others stay |
| AccountOrders.HandleConfirmReceipt | src/pages/account/orders.tsx:69-85 | an error toast is shown exactly when the call threw, with `toastError`'s text, and then the list stays; an answered call confirms the order; the length stays either way |
| AccountOrders.ConfirmMovesTab | src/pages/account/orders.tsx:76-80 | a confirmed order shows on the "Received" tab and no longer on "Ready" |
| AccountOrders.LineTotal | src/pages/account/orders.tsx:155 | price × quantity: never negative, and at least the price for a positive quantity |
| ManageUsers.SearchUsers | src/pages/admin/manage-user.tsx:128-138 | an empty search keeps all users; otherwise a sublist holding exactly the users whose lower-cased name contains the lower-cased text |
| ManageUsers.Settle | src/pages/admin/manage-user.tsx:128-138 | after the effect the table is the search result whatever the status filter |
| ManageUsers.StatusFilterIgnored | src/pages/admin/manage-user.tsx:128-138 | the status filter has no effect on the table |
| ManageUsers.ClearFilters | src/pages/admin/manage-user.tsx:140-144 | clearing shows the full list |
| ManageUsers.SearchNarrows | src/pages/admin/manage-user.tsx:131-135 | typing more narrows the list: the results for a longer text are a sublist of the results for its prefix |
| ManageUsers.SearchIgnoresCase | src/pages/admin/manage-user.tsx:131-135 | within the model's case table, an upper-cased query finds the same users |
| Home.FetchItems | src/pages/index.tsx:35-55 | a missing or empty list sets "No items available at the moment" and clears the menu; a list shows a sublist holding exactly its available items; a throw keeps the menu and shows the server message or "Error loading items" |
| Home.FetchKeepsAvailable | src/pages/index.tsx:44-46 | no unavailable item ever reaches the menu |
| Home.TabItems | src/pages/index.tsx:57-60 | "all" shows every item; another tab exactly the items whose lower-cased category is the key |
| Home.CategoriesOnTabs | src/pages/index.tsx:57-60 | Food items show on "food", Beverage items on "beverage", Others items only on "all" |
| Home.AddToCartGate | src/pages/index.tsx:159-169 | without a session only the sign-in prompt appears and the cart is unchanged; with one the item is added and the cart stays valid |
| Invoices.InvoiceNumber | src/pages/account/invoices.tsx:108 | the id's decimal string left-padded with "0" to at least six characters; for an id of 0 or more, all digits with the id's value |
| Invoices.InvoiceNumberWidth | src/pages/account/invoices.tsx:108 | ids below a million take exactly six digits |
| Invoices.InvoiceNumberInjective | src/pages/account/invoices.tsx:108 | different invoice ids never show the same number |
| Invoices.NumeralLength | src/pages/account/invoices.tsx:108 | a number below 10^k has at most k digits (one digit when k is 0) |
| Invoices.StatusTag | src/pages/account/invoices.tsx:53-62 | "success" gives Success, "canceled" gives Canceled, anything else Processing |
| Invoices.LineTotalPerUnit | src/pages/account/invoices.tsx:97-98 | the Total column is the order page's line total: one unit costs the price, and each unit more or less moves the total by the price |
| Invoices.NoteText | src/pages/account/invoices.tsx:159 | a non-empty note is shown as it is; an empty one as "No notes provided" |
| Notifications.Decrement | components/notification/NotificationDropdown.tsx:88 | one less, never below zero |
| Notifications.ShownOfAnswer | components/notification/NotificationDropdown.tsx:43-45 | the filtered, reversed answer holds only and all of the audience's notifications, as many as the answer has, in reverse order |
| Notifications.FetchInbox | components/notification/NotificationDropdown.tsx:34-55 | with a token and an answer, the list holds exactly the notifications for the audience, as many as the answer has, in reverse order of the answer (newest first), and the badge counts the unread ones; otherwise nothing changes |
| Notifications.FetchCountsUnread | layout/components/header/HeaderManagePage.tsx:108-115 | the badge after a load is the number of unread notifications for the audience in the answer |
| Notifications.MarkOne | components/notification/NotificationDropdown.tsx:76-88 | entries with the id become read, the others stay, and the badge goes down by one but not below zero |
| Notifications.MarkOneKeepsConsistent | components/notification/NotificationDropdown.tsx:64-88 | marking a listed unread notification keeps the badge equal to the number of unread ones |
| Notifications.MarkAsRead | components/notification/NotificationDropdown.tsx:63-93 | a read notification sends nothing; a failure changes nothing, and because toastError is handed the bare string "Failed to mark notification as read" it shows "An error occurred" |
| Notifications.DropdownClick | components/notification/NotificationDropdown.tsx:115-126 | the click marks as read, then opens the order history for a customer notification |
| Notifications.DropdownClickKeepsConsistent | components/notification/NotificationDropdown.tsx:115-126 | whatever is clicked, the dropdown's badge stays right |
| Notifications.MarkAllAsRead | components/notification/NotificationDropdown.tsx:95-113 | with a session and success everything is read and the badge is 0; a failure changes nothing and shows "An error occurred", toastError's text for the bare string "Failed to mark all as read"; no session changes nothing |
| Notifications.MarkAllKeepsConsistent | layout/components/header/HeaderManagePage.tsx:45-63 | after marking everything read the badge is right |
| Notifications.SeenNotification | layout/components/header/HeaderManagePage.tsx:65-99 | without a token nothing happens; with one the request is sent whether or not the notification is unread; success marks it and decrements the badge, and a failure changes nothing and toasts, exactly then |
| Notifications.OnDotClick | layout/components/header/HeaderManagePage.tsx:252 | the dot only acts on an unread notification |
| Notifications.HeaderClickAsWritten | layout/components/header/HeaderManagePage.tsx:135-146 | the header click calls seenNotification unguarded, then opens order management for an administrator notification |
| Notifications.HeaderClickAsWrittenMiscounts | layout/components/header/HeaderManagePage.tsx:135-136 | clicking a read notification while another is unread clears the badge, which no longer counts the unread one |
| Notifications.HeaderClick | layout/components/header/HeaderManagePage.tsx:135-146 | with the dot's guard a read notification only navigates |
| Notifications.HeaderClickKeepsConsistent | layout/components/header/HeaderManagePage.tsx:135-146 | the guarded click keeps the header's badge right |
| Notifications.DotClickAsWritten | layout/components/header/HeaderManagePage.tsx:223-253 | a click on the dot of an unread notification also runs the row's handler: with a token both send a request, and when both succeed the badge drops by two |
| Notifications.DotClickAsWrittenMiscounts | layout/components/header/HeaderManagePage.tsx:223-253 | with two unread notifications, a click on the first one's dot clears the badge while the second is unread; the dot's handler alone leaves 1 |
| Notifications.DotClickKeepsConsistent | layout/components/header/HeaderManagePage.tsx:250-253 | the dot's own handler, with the click kept from the row, keeps the badge right |

## Left out

- The `services` modules, the URL table and the request interceptor are thin HTTP wrappers. Each backend call is a response parameter of the handler that makes it.
- The Firebase image upload, the SVG/`btoa` avatar data URL and the next-auth session and JWT plumbing are foreign libraries. Only the avatar's initial is modelled.
- `formatCurrencyToVND` is left out because it depends on `parseFloat` and `toLocaleString("vi-VN")`, which are locale and floating-point behaviour.
- Date parsing (`new Date`, `moment`) is left out. Helpers.FormatDateTimeVN takes the UTC fields or "invalid". Helpers.IsExpiredTimeToken takes the login time in milliseconds, or None when it does not parse, plus the current time.
- Helpers.FormatPrice: agrees with JavaScript only for values below 2^53. Above that `Number` rounds and `toString` switches to exponent notation from 10^21, while the model formats the exact integer. The model also omits `Math.floor` of fractions, exponent notation and JavaScript's other numeric strings (signs, spaces, hexadecimal), because those are floating-point parsing.
- Helpers.AvatarInitial: the bound of one character and "upper-casing then lower-casing gives the lower case" hold only within the case table of Text.ToLower. JavaScript's `toUpperCase` maps some characters to several ("ß" becomes "SS", so the initial would be "ss"), and it maps "ı" and "ſ" to letters whose lower case differs from theirs.
- Helpers.AvatarInitialIsStrippedFirst: holds within the case table only, for the same reason as Helpers.AvatarInitial.
- Helpers.AvatarInitialOfFirst: holds within the case table only, for the same reason as Helpers.AvatarInitial.
- ManageUsers.SearchIgnoresCase: holds within the case table of `Text.ToUpper` and `Text.ToLower` only. JavaScript's `toUpperCase` turns "ß" into "SS" and "µ" into Greek "Μ", whose lower cases are "ss" and "μ"; "ı" and "ſ" also change under the round trip. With such a letter in the query, the upper-cased query searches for other text and can find other users.
- Text.ToLower: maps ASCII, Latin-1 and Vietnamese letters only. Full Unicode case mapping is a table outside this model. `charAt(0)` counts UTF-16 units, and the model counts code points; the two agree on every letter the storefront uses.
- Prices are natural numbers. The records carry them as digit strings, and `Number(price)` of such a string is its value.
- CartPage.HandleQuantityChange: quantities are modelled as integers. The page's guard `value > 0` (src/pages/cart.tsx:44-48) would pass a fraction in (0,1) on to `updateQuantity`, leaving the line below 1; only the InputNumber's `min={1}` (src/pages/cart.tsx:132-137, which sets no `precision`) keeps such values out. With integers, `Valid(c) ==> Valid(r)` follows from the type as well as the guard.
- CartPage.OnQuantityInput: quantities are modelled as integers, so fractional inputs such as 0.5 or 1.5, which the InputNumber without `precision` can deliver, are not modelled; below 1 only its `min={1}` keeps them out, as for CartPage.HandleQuantityChange.
- Logging out is left out: HeaderHomePage.tsx:124-125 dispatches `deleteUser` and `clearCart` without calling them, so nothing is cleared there.
- Rendering, loading flags, success toasts and the `isLoading` resets are left out because they do not change the modelled state.
- The notification fetch failure toasts and the page-level `toastError` on a failed list fetch are left out. These failures leave the lists unchanged, and that is modelled.
- The account profile form's upload and the `isExpiredTimeTokenSecondHandle` helper are left out because they are I/O.

## Findings

| source | as written | input that shows it | evidently intended | confidence | as-written member | corrected member |
|---|---|---|---|---|---|---|
| layout/components/header/HeaderManagePage.tsx:135-136 | the header's click calls seenNotification without the `is_new` guard the dot icon has (line 252), so clicking a read notification still decrements the badge | notifications #1 unread and #2 read with a badge of 1; clicking #2 sets the badge to 0 while #1 is unread | the click path checks `noti.is_new` like the dot and the customer dropdown, so the badge keeps counting unread notifications | not executed | Notifications.HeaderClickAsWritten | Notifications.HeaderClick |
| src/pages/admin/manage-order.tsx:73-78 | the delivery update maps the filtered `processingData` and stores the result in `originalData` too, so every order the filters were hiding leaves the full list | orders #1 Pending and #2 Received, status filter "1"; marking #1 Ready leaves originalData with #1 only | the update applies to `originalData` and `processingData` separately, as the item page's edit does | not executed | ManageOrders.MarkReadyAsWritten | ManageOrders.MarkReady |
| utils/global.tsx:56 | `toastError` reads `error.message`, which a string does not have, so the notification handlers' plain-string messages are replaced by the generic text | `toastError("Failed to mark notification as read")` shows "An error occurred" | the string passed is the message shown | not executed | Global.ToastError | Global.ToastErrorIntended |
| layout/components/header/HeaderManagePage.tsx:250-253 | the dot's onClick sits inside the row's onClick (line 227) and does not stop the click, so both handlers call seenNotification and each takes one off the badge | #1 and #2 unread with a badge of 2; clicking #1's dot sends two requests and leaves the badge at 0 while #2 is unread | the dot marks its notification read once, with the click kept from the row | not executed | Notifications.DotClickAsWritten | Notifications.OnDotClick |
