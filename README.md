# Kiosk admin dashboard — verified model

A Dafny model of the logic at the centre of a restaurant kiosk back office.
The dashboard keeps a menu, an inventory and recipes (bills of materials) in a
relational store. It mirrors the menu to kiosks over an MQTT broker and takes
kiosk orders back into a staging table. It also draws charts and headline
figures from the order history.

The model covers four groups of behaviour:

- **Kiosk sync layer** (`mqtt.dfy`, `order_processor.dfy`, `staging.dfy`,
  `orders_route.dfy`, `mqtt_initialize.dfy`).
  - The shared broker client is the class `Mqtt.MqttBridge`. It holds the
    reconnect counter capped at five, the topic-to-callbacks registry with
    its count of attached `message` listeners, and the `isInitialized` flag.
  - Broker events (connection acknowledged, error, close, timeout, message)
    are method calls. Every call made to the broker is recorded in a ghost
    log.
  - The staging table is the class `Staging.TempOrderTable`. Two writers
    change it: `processOrder`, an upsert keyed by the order's external id,
    and `POST /api/orders`, which only inserts.
  - The initialisation route subscribes to kiosk orders at most once per
    process.
- **Aggregations over the order history** (`best_sellers.dfy`,
  `metrics.dfy`, `analytics_orders.dfy`, `sales_by_category.dfy`, with the
  shared `tally.dfy` and `sorting.dfy`).
  - These are grouping folds, a stable descending sort, hourly, daily and
    monthly bucketing, and the busiest-hour search.
  - The properties proved are conservation of counts and amounts, one
    group per key, sortedness with permutation, and bucket contents.
- **Validators and normalisers of the API routes** (`order_history.dfy`,
  `bom_route.dfy`, `menu_items_route.dfy`, `user_credentials.dfy`).
  - The JavaScript coercions they rely on are stated over explicit values
    in `js.dfy`: truthiness, `Number`, `parseFloat`, `parseInt`, `trim`,
    `split`, `toUpperCase` and `String(n)`.
- **Client-side list editing** (`bom_list.dfy`, `bom_actions.dfy`,
  `inventory_list.dfy`, `edit_order_option_modal.dfy`,
  `order_options_list.dfy`).
  - Covered: recipe grouping, ingredient-set editing, stock status, choice
    editing, and the option upsert that assigns `max(id) + 1`.
  - Component state that the source replaces through setters is a class
    whose methods state the new state as a function of the old one.

Some inputs cannot be computed inside the model, so they are parameters:

- The wall clock and calendar. Each order arrives with its hour, day, month
  and formatted labels, and local midnight is an input.
- Store and fetch failures, which are boolean `fault` parameters.
- `Math.random()` and bcrypt hashes.
- The broker's answers.

JSON text is abstract. The model says only that what is stringified parses
back to the same value.

The source's quirks are modelled as written and exhibited by lemmas:

- Every `subscribeToTopic` call attaches another `message` listener.
- When hour 0 is the busiest hour, its count is reported as 0.
- An empty loaded option list makes the new option id `-Infinity`.
- A recipe id of 0 is never deleted.
- The recipe dialog can open two sets with one id.
- The dialog's `parseFloat` and the server's `Number` disagree on
  quantities such as "2kg".

In the order chart, an unrecognised `range` gets the week's start date and
format. It gets 31 day buckets, not 7, because the day count compares
the range with `'week'` again (`AnalyticsOrders.RangeDefaults`).

## Model

| member | source | states |
|---|---|---|
| Mqtt.Parse | src/lib/mqtt.ts:139-147 | parsing succeeds exactly on well-formed JSON text; a parse failure is the caught exception |
| Mqtt.ParseStringify | src/lib/mqtt.ts:93-143 | what `publishToTopic` sends parses back to the same message |
| Mqtt.SubscribeCountAppend | src/lib/mqtt.ts:126 | a broker call adds one to the subscription count of its topic name only when it is a subscribe to that name |
| Mqtt.CloseStep | src/lib/mqtt.ts:22-76 | a close below the cap of 5 counts up by one; at or above the cap it ends the client and leaves the counter alone; the counter never passes the cap |
| Mqtt.ClosesSaturate | src/lib/mqtt.ts:68-76 | `k` consecutive closes raise the counter to `min(attempts + k, 5)` |
| Mqtt.SixthCloseEnds | src/lib/mqtt.ts:68-76 | from a fresh counter a close ends the client exactly when five closes came before it, so the sixth is the first that does |
| Mqtt.Settlement | src/lib/mqtt.ts:46-66 | a `connect` resolves with the new client, an `error` on an unconnected client rejects, a timeout leaves the promise pending |
| Mqtt.Registered | src/lib/mqtt.ts:122-136 | the callback is added to the topic's set, the set is created for a new name, every other entry is unchanged |
| Mqtt.MqttBridge.constructor | src/lib/mqtt.ts:21-23 | no client, counter 0, no subscriptions, not initialised |
| Mqtt.MqttBridge.ConnectToMqtt | src/lib/mqtt.ts:25-88 | a connected client is reused with no broker call; otherwise a stale client is ended and cleared, exactly one connect is issued, and the first event settles the promise; the registry is untouched |
| Mqtt.MqttBridge.RetireStale | src/lib/mqtt.ts:32-40 | a stale shared client is ended and forgotten, with one `end` in the broker log; with no client nothing changes; the registry and the counter are untouched |
| Mqtt.MqttBridge.OpenClient | src/lib/mqtt.ts:42-58 | the next client becomes the shared client and issues one connect; an acknowledgement resets the counter and resolves with it, an error rejects, a timeout ends it and leaves the promise pending |
| Mqtt.MqttBridge.OnConnect | src/lib/mqtt.ts:53-58 | a `connect` marks the client connected and resets the counter to 0 |
| Mqtt.MqttBridge.OnError | src/lib/mqtt.ts:60-66 | an `error` rejects exactly when the shared client is not connected; nothing changes |
| Mqtt.MqttBridge.OnClose | src/lib/mqtt.ts:68-76 | the counter moves by `CloseStep`; at the cap the shared client is ended; the counter stays at most 5 |
| Mqtt.MqttBridge.PublishToTopic | src/lib/mqtt.ts:90-107 | on a live client the log gains exactly one publish of the JSON text to the mapped topic name, and the broker's answer decides success or failure; otherwise the log gains exactly the connection's calls, plus that one publish when the connection is acknowledged; there is no retry |
| Mqtt.MqttBridge.SubscribeToTopic | src/lib/mqtt.ts:113-158 | a QoS 1 subscribe only for a name not yet registered, the callback added under the name, and one more `message` listener on every call |
| Mqtt.MqttBridge.Register | src/lib/mqtt.ts:122-139 | the registry gains the callback, the client gains a listener, the log gains a subscribe only for a new name |
| Mqtt.MqttBridge.Unsubscribe | src/lib/mqtt.ts:151-153 | removes only this callback; the topic entry and the broker subscription remain |
| Mqtt.MqttBridge.Deliver | src/lib/mqtt.ts:139-149 | every listener calls every callback registered for the received name once; a name with no entry or an unparsable payload calls nothing |
| Mqtt.MqttBridge.DeliverOrder | src/lib/mqtt.ts:139-175 | an order message runs `processOrder` once per listener and callback; failures are caught; the table ends as one successful run leaves it |
| Mqtt.MqttBridge.SubscribeToOrders | src/lib/mqtt.ts:166-176 | a fresh callback that runs `processOrder` is registered under the orders topic |
| Mqtt.MqttBridge.InitializeMQTT | src/lib/mqtt.ts:178-197 | a no-op once initialised; otherwise one request, and the flag becomes true only on an ok answer |
| Mqtt.ReceivedOrder | src/lib/mqtt.ts:143-171 | an order message hands its event to `processOrder`; any other value fails the id/date check |
| Staging.TempOrderTable.constructor | src/lib/order-processor.ts:40-42 | the staging table starts empty |
| Staging.TempOrderTable.FindUnique | src/lib/order-processor.ts:40-42 | finds the row stored under the id, reports absence, or fails on a store fault |
| Staging.TempOrderTable.Update | src/lib/order-processor.ts:46-57 | succeeds only for an existing key, and then replaces exactly that row |
| Staging.TempOrderTable.Create | src/lib/order-processor.ts:63-74 | succeeds only for a new key, and then adds exactly that row |
| OrderProcessor.Process | src/lib/order-processor.ts:24-82 | invalid without a truthy id and date; a store fault fails; otherwise update when the id exists and create when it does not; the row has the given time or the clock's, and the totals as `Number()` reads them, unvalidated |
| OrderProcessor.Apply | src/lib/order-processor.ts:44-74 | after a successful call the event's row is under its id and every other row is unchanged |
| OrderProcessor.ProcessOrder | src/lib/order-processor.ts:24-82 | the method's outcome is `Process`, and the table changes to `Apply` only when the order was staged |
| OrderProcessor.ApplyIdempotent | src/lib/order-processor.ts:40-60 | processing the same event again at the same clock reading changes nothing |
| OrderProcessor.ReplayLastWins | src/lib/order-processor.ts:40-74 | after a sequence of events, each key holds the row of the latest accepted event with that id, and keys never named are untouched |
| OrderProcessor.ReplayTwice | src/lib/order-processor.ts:40-74 | replaying the same events a second time leaves the table unchanged |
| OrderProcessor.ReplayKeyed | src/lib/order-processor.ts:40-74 | every row stays under its own primary key |
| OrdersRoute.NewRow | src/app/api/orders/route.ts:19-42 | the created row carries the body's id, time, items and the `Number()` totals |
| OrdersRoute.Answer | src/app/api/orders/route.ts:17-49 | 400 exactly without a truthy `time`; 201 only for a new id with no store fault; 500 otherwise |
| OrdersRoute.After | src/app/api/orders/route.ts:31-44 | insert-only: no existing row is replaced, and only a 201 adds the body's row |
| OrdersRoute.Post | src/app/api/orders/route.ts:17-49 | the handler answers `Answer` and leaves the table as `After` |
| InitializeRoute.ValidItems | src/app/api/mqtt/initialize/route.ts:29-31 | exactly the items that have a category are published, none added |
| InitializeRoute.ValidItemsAppend | src/app/api/mqtt/initialize/route.ts:29-31 | the filter keeps the items in their order |
| InitializeRoute.Guard | src/app/api/mqtt/initialize/route.ts:39-43 | `subscribeToOrders` is invoked exactly when the flag is unset; the flag becomes set once an invocation completes |
| InitializeRoute.AtMostOnce | src/app/api/mqtt/initialize/route.ts:10-43 | over any run of requests at most one subscription to orders completes |
| InitializeRoute.BothPublished | src/app/api/mqtt/initialize/route.ts:34-37 | the pair of publishes succeeds only when both do and fails when either does |
| InitializeRoute.PublishMenu | src/app/api/mqtt/initialize/route.ts:33-37 | the categories and then the items are handed to `publishToTopic`; when both resolve, both are in the broker log past the old entries, categories first and on the same client; on a live client they are the next two log entries and their outcomes follow the broker's answers; the subscription registry is untouched |
| InitializeRoute.Route.constructor | src/app/api/mqtt/initialize/route.ts:10 | a new process starts unsubscribed |
| InitializeRoute.Route.Post | src/app/api/mqtt/initialize/route.ts:12-53 | a failed load answers 500 and publishes nothing; otherwise the categories and then the items with a category are handed to `publishToTopic`; success only after both publishes resolved, and then both are in the broker log, categories first; a rejected publish answers 500 and leaves the flag and the registry alone; on a live client both go out one after the other; a set flag leaves the order subscription alone and the first success registers it |
| Sorting.Insert | src/app/api/best-sellers/route.ts:36-37 | inserting into a list sorted by descending key keeps it sorted and is a permutation of the list plus the element |
| Sorting.SortDesc | src/app/api/best-sellers/route.ts:36-37 | the result is sorted by descending key and is a permutation of the input |
| Sorting.SortKeepsMembers | src/app/api/best-sellers/route.ts:36-37 | sorting neither adds nor drops an element |
| Sorting.SplitRanks | src/app/api/best-sellers/route.ts:37-38 | cutting a descending list splits its elements into a sorted front that ranks no lower than anything in the sorted back |
| BestSellers.Limit | src/app/api/best-sellers/route.ts:7 | the limit is never 0: a falsy `Number()` falls back to 5 |
| BestSellers.LimitDefaults | src/app/api/best-sellers/route.ts:7 | an absent, empty, `"0"` or non-numeric parameter gives 5 |
| BestSellers.KeyCollision | src/app/api/best-sellers/route.ts:22 | for any names, the items (`a-b`, `c`) and (`a`, `b-c`) are different yet share the key `${menuName}-${category}`, so their quantities land in one group |
| BestSellers.IndexOfKey | src/app/api/best-sellers/route.ts:23 | finds the first group with the key, or reports that there is none |
| BestSellers.Conservation | src/app/api/best-sellers/route.ts:20-33 | before the cut, the group totals add up to the quantity of all completed items |
| BestSellers.GroupsByKey | src/app/api/best-sellers/route.ts:20-33 | one group per key, a group for exactly the keys that occur, each total the quantity summed over its key |
| BestSellers.AggregateSnoc | src/app/api/best-sellers/route.ts:21-31 | one more item is one step of the reduce |
| BestSellers.SalesByItem | src/app/api/best-sellers/route.ts:10-33 | the loops compute the aggregate of the completed orders' items |
| BestSellers.AddOrderItems | src/app/api/best-sellers/route.ts:21-31 | the inner `forEach` adds one order's items to the aggregate |
| BestSellers.WithImages | src/app/api/best-sellers/route.ts:39-42 | each group gets the placeholder image and keeps its fields and position |
| BestSellers.Get | src/app/api/best-sellers/route.ts:4-52 | 500 exactly on a store fault; otherwise the top sellers: as many entries as `slice(0, limit)` keeps, in descending order of total, each aggregated group listed at most once, no group left out selling more than a listed one, each with the placeholder image |
| BestSellers.CutIsTop | src/app/api/best-sellers/route.ts:36-38 | sorting by descending total and cutting with `slice(0, limit)` keeps the right number of groups, in order, taken from the groups, and outselling every group it leaves out |
| Metrics.CountsOf | src/app/api/analytics/metrics/route.ts:68-72 | one counter for each of the 24 hours |
| Metrics.CountsAreOccurrences | src/app/api/analytics/metrics/route.ts:68-72 | the entry for hour h counts exactly today's orders placed in hour h |
| Metrics.CountsSum | src/app/api/analytics/metrics/route.ts:68-72 | the counts add up to the number of orders fetched |
| Metrics.HourCounts | src/app/api/analytics/metrics/route.ts:68-72 | the `forEach` loop computes those counts |
| Metrics.MostActiveFromLeads | src/app/api/analytics/metrics/route.ts:74-79 | each step of the reduce keeps the accumulator leading over the hours visited so far |
| Metrics.MostActiveIsBusiest | src/app/api/analytics/metrics/route.ts:74-79 | the reported hour has the most orders and every lower hour has fewer (ties go to the lower hour); its count is reported, except 0 when hour 0 wins |
| Metrics.MostActiveOfNoOrders | src/app/api/analytics/metrics/route.ts:74-79 | with no orders today the answer is hour 0 with 0 orders |
| Metrics.Growth | src/app/api/analytics/metrics/route.ts:87-101 | with orders or sales yesterday the growth is the relative change in percent; with none yesterday it is 100 when today has some and 0 otherwise; for non-negative inputs its sign follows today against yesterday and it is never below -100 |
| Metrics.GrowthSign | src/app/api/analytics/metrics/route.ts:89-98 | the sign and the lower bound of `(today - yesterday) / yesterday * 100` |
| Metrics.FindGroup | src/app/api/analytics/metrics/route.ts:139-148 | `find` returns a group of the given delivery type, or none when no group has it |
| Metrics.DeliveryStats | src/app/api/analytics/metrics/route.ts:135-154 | always two entries, dine-in then takeaway; a missing type reports 0 orders and 0 sales; a present type reports its group's count and its summed total price, 0 when the sum is null |
| Metrics.WeeklyCountsAndSums | src/app/api/analytics/metrics/route.ts:167-175 | the reduce counts the week's orders and sums their prices |
| Metrics.Get | src/app/api/analytics/metrics/route.ts:4-197 | 500 exactly on a store fault; otherwise today's and all-time counts, sales and averages passed through with null as 0, the growth rules, the busiest hour with ties to the lower hour, the weekly count and sum, a daily average of a seventh of the weekly sales, and the delivery entries of `DeliveryStats`: dine-in then takeaway, 0 for a missing type |
| AnalyticsOrders.RangeDefaults | src/app/api/analytics/orders/route.ts:14-53 | a missing or empty range draws the 7-day week view; any unrecognised range gets the week's settings but 31 day buckets |
| AnalyticsOrders.RangeViews | src/app/api/analytics/orders/route.ts:22-53 | today is hourly from the start of the day, week 7 days from the start of the week, month 31 days from the start of the month, year 12 months from the start of the year, all by formatted month from the start of the previous year |
| AnalyticsOrders.WithKey | src/app/api/analytics/orders/route.ts:95-136 | the filter keeps exactly the orders whose hour (or month) is the bucket's, and never grows the list |
| AnalyticsOrders.WithKeyAppend | src/app/api/analytics/orders/route.ts:95-136 | the bucket filter keeps the orders in their order |
| AnalyticsOrders.OnDate | src/app/api/analytics/orders/route.ts:115-121 | the filter keeps exactly the orders on the bucket's day of month and month |
| AnalyticsOrders.HourNameDigits | src/app/api/analytics/orders/route.ts:101 | hour h is named by its two decimal digits, zero padded, followed by ':00' |
| AnalyticsOrders.HourNamesDistinct | src/app/api/analytics/orders/route.ts:101 | different hours get different names |
| AnalyticsOrders.HourNames | src/app/api/analytics/orders/route.ts:93 | the hourly chart has 24 buckets |
| AnalyticsOrders.KeyedView | src/app/api/analytics/orders/route.ts:93-142 | one bucket per name, in order |
| AnalyticsOrders.DayView | src/app/api/analytics/orders/route.ts:112-127 | one bucket per calendar day, named by that day's label, counting and summing exactly the orders on that day and month |
| AnalyticsOrders.KeyedConservation | src/app/api/analytics/orders/route.ts:93-142 | when every order's hour or month names a bucket, the bucket counts add up to the number of orders and the bucket sales to their total price |
| AnalyticsOrders.MonthEntries | src/app/api/analytics/orders/route.ts:76-85 | each order is filed under its formatted month with its total price |
| AnalyticsOrders.MonthEntriesAmount | src/app/api/analytics/orders/route.ts:84 | the filed amounts add up to the orders' total price |
| AnalyticsOrders.HoldsIffHasMonth | src/app/api/analytics/orders/route.ts:78-82 | a month key gets a record exactly when some order falls in that month |
| AnalyticsOrders.AllMonthsView | src/app/api/analytics/orders/route.ts:74-90 | the `forEach` over the orders followed by `Object.entries` computes the per-key totals of the filed entries |
| AnalyticsOrders.Get | src/app/api/analytics/orders/route.ts:12-150 | a store failure is a 500; the hourly chart has 24 buckets and the yearly one 12, each named, counting and summing exactly the orders of its hour or month, together conserving count and sales; the day charts are the first 7 or 31 calendar days; the 'all' chart is the accumulator's entries in the order their months first appear, with distinct month keys, exactly the months with orders, each with its count and sum, conserving the totals |
| OrderHistoryRoute.StoreItem | src/app/api/order-history/route.ts:36-42 | an item is stored with its name, quantity and price unchanged, an absent or empty category as '' and absent options as [] |
| OrderHistoryRoute.StoreItems | src/app/api/order-history/route.ts:36 | every item is stored, in order |
| OrderHistoryRoute.DeliveryNormalised | src/app/api/order-history/route.ts:29-32 | the stored delivery type is dine-in exactly when the body's is the exact dine-in text, and take-away otherwise |
| OrderHistoryRoute.Post | src/app/api/order-history/route.ts:4-58 | a missing date, time, delivery type or items, an items text that is not JSON, a date or time with a part that is not a number (an Invalid Date), or a store failure is a 500; otherwise the record keeps id, time and totals, is marked completed, normalises the delivery type, takes its date from the split date and time and stores every item |
| OrderHistoryRoute.DayMissingRefused | src/app/api/order-history/route.ts:11-22 | a date without a day part, such as "2024-01", makes an Invalid Date, so nothing is stored and the answer is 500 |
| OrderHistoryRoute.SplitThree | src/app/api/order-history/route.ts:11-12 | three fields free of the separator split back into those three fields |
| OrderHistoryRoute.DateSplit | src/app/api/order-history/route.ts:11-20 | 'Y-M-D' and 'H:M:S' give `new Date` the six numbers in order, the month made zero-based |
| OrderHistoryRoute.TakeOf | src/app/api/order-history/route.ts:64 | a limit is never zero |
| OrderHistoryRoute.TakeDefaults | src/app/api/order-history/route.ts:64 | an absent, empty or zero limit means no limit |
| OrderHistoryRoute.QueryOf | src/app/api/order-history/route.ts:63-86 | the query carries the limit, and a window from local midnight of the given date to 23:59:59.999 exactly when a non-empty date that parses is given |
| OrderHistoryRoute.InWindow | src/app/api/order-history/route.ts:69-74 | the window keeps exactly the rows with midnight <= date < end |
| OrderHistoryRoute.Evaluate | src/app/api/order-history/route.ts:77-87 | the store returns rows of the window only, each at most as often as it is there, newest first; all of them without a limit; with a positive limit the `min(limit, n)` newest, with a negative one the `min(-limit, n)` oldest |
| OrderHistoryRoute.TakeRows | src/app/api/order-history/route.ts:83-86 | `take` on newest-first rows keeps the order, returns as many rows as its magnitude allows, and keeps the newest for a positive take and the oldest for a negative one |
| OrderHistoryRoute.WindowEndsEarly | src/app/api/order-history/route.ts:71-72 | the window excludes the day's final millisecond 23:59:59.999 and includes every earlier moment of that day |
| OrderHistoryRoute.Get | src/app/api/order-history/route.ts:60-94 | a store failure, a date parameter that is not a date or a fractional limit is a 500; otherwise the query has the parsed whole limit and a window exactly when a date is given |
| BomRoute.ValidIngredients | src/app/api/bom/route.ts:41-43 | the filter keeps exactly the ingredients with a truthy inventory id and a `Number` quantity that is not NaN and is positive |
| BomRoute.ValidIngredientsAppend | src/app/api/bom/route.ts:41-43 | the kept ingredients stay in input order |
| BomRoute.ConvertAll | src/app/api/bom/route.ts:59-62 | every kept ingredient is created, in order, with `parseInt` inventory id and `parseFloat` quantity |
| BomRoute.TargetOf | src/app/api/bom/route.ts:55-57 | type 'menu' links the item id as menu item, any other type as option choice |
| BomRoute.Post | src/app/api/bom/route.ts:36-88 | absent ingredients or a store failure is a 500; no kept ingredient is a 400 with nothing created; otherwise the recipe carries the name, the target and exactly the converted kept ingredients |
| BomRoute.StoredQuantityPositive | src/app/api/bom/route.ts:42-61 | a kept quantity given as text or number is stored as the same positive number |
| BomRoute.BooleanQuantityKept | src/app/api/bom/route.ts:42-61 | a quantity of `true` passes the filter but is stored as NaN |
| MenuItemsRoute.ParsedCategory | src/app/api/menu-items/route.ts:61-63 | a falsy category id gives no category, a truthy one its `parseInt` reading |
| MenuItemsRoute.Check | src/app/api/menu-items/route.ts:49-73 | the body passes exactly when both names are non-empty, `parseFloat` of the price is a number and a truthy category id reads as an integer; the draft keeps the names, the parsed price, and a category exactly when the id was truthy, namely the integer `parseInt` reads |
| MenuItemsRoute.FalsyCategoryIgnored | src/app/api/menu-items/route.ts:61-73 | a category id of 0 or '' is not a 400 but leaves the item without a category |
| MenuItemsRoute.FindCategory | src/app/api/menu-items/route.ts:96 | the loaded category is one with the item's category id, and none is loaded when no category has it |
| MenuItemsRoute.MenuTable.constructor | src/app/api/menu-items/route.ts:82 | an empty item table whose ids start at 1 |
| MenuItemsRoute.MenuTable.Create | src/app/api/menu-items/route.ts:82-98 | a create that throws leaves the table unchanged; otherwise exactly one item with a fresh id is appended and returned |
| MenuItemsRoute.Post | src/app/api/menu-items/route.ts:41-138 | a body that fails the checks is a 400 with nothing written or published; a failing create is a 500 with nothing written or published; once created the item stays; a failing listing is a 500 with nothing published; with a connected client the whole item list is published as the one new broker call, a rejected publish being a 500; with no connection a connect error is a 500 and a timeout never answers; 201 exactly when the create, the listing and the publish all succeed |
| UserCredentials.BranchById | src/app/api/user-credentials/route.ts:8-16 | the loaded branch is one with the user's branch id; none when the user has no branch id or no branch has it |
| UserCredentials.CredentialOf | src/app/api/user-credentials/route.ts:12-17 | id, username and role are copied; an administrator shows '-', anyone else the loaded branch's name or '' |
| UserCredentials.Get | src/app/api/user-credentials/route.ts:5-27 | a store failure is a 500; otherwise one credential per user, in order, none carrying a password |
| UserCredentials.BranchByName | src/app/api/user-credentials/route.ts:43-45 | the branch found has the given name; none is found only when no branch has it |
| UserCredentials.BranchIdFor | src/app/api/user-credentials/route.ts:41-47 | a branch id is set exactly for a manager with a non-empty branch name that an existing branch has, and it is that branch's id |
| UserCredentials.UserTable.constructor | src/app/api/user-credentials/route.ts:51 | an empty user table whose ids start at 1 |
| UserCredentials.UserTable.Post | src/app/api/user-credentials/route.ts:29-71 | a missing username, password or role is a 400, a store failure a 500, both with nothing written; otherwise one user is appended with the hashed password and the branch id rule, and the answer has no password and shows '-' for an administrator, otherwise the submitted branch name |
| UserCredentials.ManagerBranchShown | src/app/api/user-credentials/route.ts:16-47 | a manager created with a branch id is listed with that branch's name, when branch ids are unique |
| BomList.GroupsByMenuItem | src/components/bom/bom-list.tsx:173-198 | the record holds exactly one group per menu item some recipe is linked to, in ascending id order; a group's main recipe is the last recipe linked directly to that item (a later one replaces an earlier one), its option recipes are those linked only through a choice, in input order; unlinked recipes are dropped |
| BomList.PlaceKeeps | src/components/bom/bom-list.tsx:174-196 | one step of the `reduce` keeps that description true for the recipes seen so far |
| BomList.UnlinkedIsEmpty | src/components/bom/bom-list.tsx:178-192 | a new group starts with no main recipe and no option recipes |
| BomList.GroupBoms | src/components/bom/bom-list.tsx:173-198 | the loop that creates and updates the record's groups computes the grouping |
| BomList.ValidBomGroups | src/components/bom/bom-list.tsx:200-202 | the filter keeps exactly the groups with a main recipe or an option recipe |
| BomList.AllGroupsValid | src/components/bom/bom-list.tsx:200-202 | the filter keeps every group the grouping produced |
| BomList.Toggle | src/components/bom/bom-list.tsx:93-97 | the toggled id changes its membership, every other id keeps it |
| BomList.WithoutAppend | src/components/bom/bom-list.tsx:95 | the filter keeps the remaining ids in their order |
| BomList.ToggleOrder | src/components/bom/bom-list.tsx:93-97 | an expanded id is filtered out of its place, a new one goes last, and the other ids keep their order |
| BomList.Without | src/components/bom/bom-list.tsx:95 | the filter keeps exactly the other ids |
| BomList.ToggleTwice | src/components/bom/bom-list.tsx:93-97 | toggling the same id twice leaves the same ids expanded |
| BomList.ConfirmDelete | src/components/bom/bom-list.tsx:135-140 | a delete is issued exactly for a present non-zero id (never id 0), for that id, and the dialog is always closed and cleared |
| BomActions.Available | src/components/bom/bom-actions.tsx:67 | exactly the menu items without a recipe can be chosen |
| BomActions.AvailableAppend | src/components/bom/bom-actions.tsx:67 | the filter keeps the menu items in their order |
| BomActions.FindMenu | src/components/bom/bom-actions.tsx:82 | the item found has the given id text; none is found only when no item has it |
| BomActions.FindOption | src/components/bom/bom-actions.tsx:102-104 | the option found has the given id text; none is found only when no option has it |
| BomActions.FindChoice | src/components/bom/bom-actions.tsx:109-111 | the choice found has the given id text; none is found only when no choice has it |
| BomActions.FindMenuById | src/components/bom/bom-actions.tsx:82 | looking up the text of an id finds an item exactly when one has that id, and it has that id |
| BomActions.MenuSet | src/components/bom/bom-actions.tsx:87-95 | the menu set is 'menu-<id>' of type 'menu' for that item, with one empty row |
| BomActions.ChoiceSet | src/components/bom/bom-actions.tsx:115-124 | the choice set is 'choice-<id>' of type 'option' named '<option> - <choice>', with one empty row |
| BomActions.AddRow | src/components/bom/bom-actions.tsx:127-142 | every set with the id gets one empty row appended and nothing else changes; other sets are unchanged |
| BomActions.RemoveRow | src/components/bom/bom-actions.tsx:144-156 | every set with the id loses exactly row i; other sets are unchanged |
| Common.DropIndexRemoves | src/components/bom/bom-actions.tsx:150 | filtering out position i removes exactly that element and keeps the others in order; an index outside the list removes nothing |
| BomActions.ChangeAt | src/components/bom/bom-actions.tsx:169-171 | only row i changes, and only in the named field |
| BomActions.ChangeRow | src/components/bom/bom-actions.tsx:158-177 | every set with the id has that one field of row i rewritten; other sets are unchanged |
| BomActions.ValidateIngredients | src/components/bom/bom-actions.tsx:179-183 | the filter keeps exactly the rows with a non-empty inventory id and quantity whose `parseFloat` is positive |
| BomActions.ValidSets | src/components/bom/bom-actions.tsx:189-191 | exactly the sets with a usable row are submitted |
| BomActions.ValidSetsAppend | src/components/bom/bom-actions.tsx:189-191 | the filter keeps the sets in their order |
| BomActions.FormsOf | src/components/bom/bom-actions.tsx:198-204 | one form per submitted set with its type, target id, name and usable rows |
| BomActions.Requests | src/components/bom/bom-actions.tsx:189-204 | nothing is sent exactly when no set has a usable row; otherwise one form per set with a usable row, in the sets' order, carrying that set's type, target id, target name and exactly its usable rows |
| BomActions.BomForm.constructor | src/components/bom/bom-actions.tsx:42-78 | the dialog starts closed, with nothing selected and no sets, offering the items without a recipe, or none when a fetch fails |
| BomActions.BomForm.HandleMenuChange | src/components/bom/bom-actions.tsx:80-99 | an unknown id changes nothing; otherwise the item is selected and the sets become its one menu set |
| BomActions.BomForm.HandleOptionChange | src/components/bom/bom-actions.tsx:101-106 | the selected option becomes the selected item's option with that id, or none |
| BomActions.BomForm.HandleChoiceChange | src/components/bom/bom-actions.tsx:108-125 | an unknown choice changes nothing; otherwise a choice set is appended without checking for an open set with the same id |
| BomActions.BomForm.AddIngredient | src/components/bom/bom-actions.tsx:127-142 | the sets become `AddRow` of the old sets |
| BomActions.BomForm.RemoveIngredient | src/components/bom/bom-actions.tsx:144-156 | the sets become `RemoveRow` of the old sets |
| BomActions.BomForm.HandleIngredientChange | src/components/bom/bom-actions.tsx:158-177 | the sets become `ChangeRow` of the old sets |
| BomActions.BomForm.HandleSubmit | src/components/bom/bom-actions.tsx:185-235 | with no usable row the error message is raised and nothing changes; a failed request leaves the dialog as it was; a full success sends the forms, closes the dialog and clears the sets |
| BomActions.DuplicateChoiceSets | src/components/bom/bom-actions.tsx:108-142 | choosing the same choice twice opens two sets with one id, and adding a row adds it to both |
| BomActions.ServerIngredients | src/components/bom/bom-actions.tsx:203-209 | every usable row is sent, in order, as text fields |
| BomActions.ServerKeptIsUsable | src/components/bom/bom-actions.tsx:181 | a row the server's filter keeps is one the dialog accepts |
| BomActions.UsableNotKept | src/components/bom/bom-actions.tsx:181 | the converse fails: quantity "2kg" is accepted by the dialog (`parseFloat` gives 2) and dropped by the server (`Number` gives NaN) |
| BomActions.SubmittedTargets | src/components/bom/bom-actions.tsx:199-202 | a menu set is stored against its menu item and a choice set against its choice |
| InventoryList.Divide | src/components/inventory/inventory-list.tsx:121 | a non-zero reorder point gives the exact quotient; a zero one gives NaN for quantity 0 and an infinity of the quantity's sign otherwise |
| InventoryList.GetStatus | src/components/inventory/inventory-list.tsx:120-141 | critical exactly when the ratio is at most 0.5, reorder exactly when it is above 0.5 and at most 1, normal otherwise, every comparison with NaN being false |
| InventoryList.StatusWithPositiveReorderPoint | src/components/inventory/inventory-list.tsx:120-141 | with a positive reorder point r and quantity q: critical iff 2q <= r, reorder iff r < 2q <= 2r, normal iff q > r |
| InventoryList.RatioAtMost | src/components/inventory/inventory-list.tsx:121-128 | dividing by a positive reorder point keeps the comparison: q / r <= c iff q <= c·r |
| InventoryList.GetLowStockItems | src/components/inventory/inventory-list.tsx:143-145 | exactly the items whose quantity is at most their reorder point are listed |
| InventoryList.LowStockAppend | src/components/inventory/inventory-list.tsx:143-145 | the notifications keep the inventory's order |
| InventoryList.LowIffNotNormal | src/components/inventory/inventory-list.tsx:120-145 | with a positive reorder point an item is listed as low exactly when its status is not normal |
| InventoryList.NonPositiveReorderPointDisagrees | src/components/inventory/inventory-list.tsx:120-145 | without a positive reorder point the two rules part: (0, 0) and (-4, -2) are listed as low but shown as normal |
| EditOrderOptionModal.NamedChoices | src/components/menu/edit-order-option-modal.tsx:35-54 | the filter keeps exactly the choices with a non-blank trimmed Thai or English name |
| EditOrderOptionModal.NamedChoicesIdempotent | src/components/menu/edit-order-option-modal.tsx:35-37 | filtering an already filtered list changes nothing |
| EditOrderOptionModal.NamedChoicesAppend | src/components/menu/edit-order-option-modal.tsx:35-37 | the filter keeps the choices' order |
| EditOrderOptionModal.Initial | src/components/menu/edit-order-option-modal.tsx:30-58 | a missing option opens with id 0, empty names, type 'single', menu item 0 and no choices; a given one opens unchanged except that an empty type becomes 'single' and exactly its named choices are kept |
| EditOrderOptionModal.ReopenSame | src/components/menu/edit-order-option-modal.tsx:30-58 | opening the option the dialog opened with opens the same state |
| EditOrderOptionModal.FilledRowNamed | src/components/menu/edit-order-option-modal.tsx:73-80 | a choice made by trimming a filled row's names is itself named |
| EditOrderOptionModal.WithChoice | src/components/menu/edit-order-option-modal.tsx:72-88 | a blank row leaves the option unchanged; a filled row appends exactly one choice, with the trimmed names, the random id and the option's id, and keeps everything else |
| EditOrderOptionModal.AddedChoiceKept | src/components/menu/edit-order-option-modal.tsx:72-88 | an added choice survives the next opening, after the surviving older choices |
| EditOrderOptionModal.WithoutChoice | src/components/menu/edit-order-option-modal.tsx:90-95 | exactly choice i is removed and the others keep their order; an index outside the list changes nothing |
| EditOrderOptionModal.RenamedChoice | src/components/menu/edit-order-option-modal.tsx:164-196 | only the edited field of choice i changes |
| EditOrderOptionModal.BlankedChoiceDroppedOnReopen | src/components/menu/edit-order-option-modal.tsx:164-196 | blanking a choice's only name in place keeps it in the option; it is dropped only when the option is next opened |
| EditOrderOptionModal.OptionDialog.constructor | src/components/menu/edit-order-option-modal.tsx:30-42 | the dialog opens with the initial state and an empty new-choice row |
| EditOrderOptionModal.OptionDialog.OptionChanged | src/components/menu/edit-order-option-modal.tsx:44-58 | a new option resets the state to its initial state; a missing one keeps the current state |
| EditOrderOptionModal.OptionDialog.HandleInputChange | src/components/menu/edit-order-option-modal.tsx:60-65 | only the named field changes |
| EditOrderOptionModal.OptionDialog.HandleTypeChange | src/components/menu/edit-order-option-modal.tsx:67-70 | only the type changes |
| EditOrderOptionModal.OptionDialog.TypeNewChoice | src/components/menu/edit-order-option-modal.tsx:205-225 | only the typed field of the new-choice row changes |
| EditOrderOptionModal.OptionDialog.HandleAddChoice | src/components/menu/edit-order-option-modal.tsx:72-88 | the option becomes `WithChoice` of the old option and row; the row is cleared exactly when it was added |
| EditOrderOptionModal.OptionDialog.HandleRemoveChoice | src/components/menu/edit-order-option-modal.tsx:90-95 | the option becomes `WithoutChoice` of the old option |
| EditOrderOptionModal.OptionDialog.HandleChoiceInput | src/components/menu/edit-order-option-modal.tsx:164-196 | the option becomes `RenamedChoice` of the old option |
| EditOrderOptionModal.OptionDialog.HandleSubmit | src/components/menu/edit-order-option-modal.tsx:97-101 | the edited option is what is saved |
| OrderOptionsList.MaxId | src/components/menu/order-options-list.tsx:71 | `Math.max` returns one of its arguments that no other argument is above, and `-Infinity` exactly when every argument is `-Infinity`, in particular for none |
| OrderOptionsList.Succ | src/components/menu/order-options-list.tsx:71 | adding 1 to an integer id gives an id above it; `-Infinity + 1` stays `-Infinity` |
| OrderOptionsList.Ids | src/components/menu/order-options-list.tsx:71 | the ids of the loaded options, in order |
| OrderOptionsList.NextIdOfNothing | src/components/menu/order-options-list.tsx:71 | before the list has loaded the new id is 1; for a loaded empty list it is `-Infinity` |
| OrderOptionsList.NextIdAboveAll | src/components/menu/order-options-list.tsx:68-72 | when some loaded id is an integer, the new id is above every loaded id |
| OrderOptionsList.WithoutId | src/components/menu/order-options-list.tsx:47-48 | deleting keeps exactly the loaded options whose id differs, and gives [] before the list has loaded |
| OrderOptionsList.Filter | src/components/menu/order-options-list.tsx:48 | the filter keeps exactly the options whose id differs |
| OrderOptionsList.FilterAgain | src/components/menu/order-options-list.tsx:44-50 | deleting the same id twice is deleting it once |
| OrderOptionsList.Replace | src/components/menu/order-options-list.tsx:62-65 | the list keeps its length; each option with the edited id becomes the edited option, every other stays; [] before the list has loaded |
| OrderOptionsList.ReplaceMembers | src/components/menu/order-options-list.tsx:61-67 | an update leaves only the edited option and options with other ids, and the edited option is in the list exactly when some option had its id |
| OrderOptionsList.Append | src/components/menu/order-options-list.tsx:69-73 | the old list, or [] before loading, followed by the edited option under the new id |
| OrderOptionsList.AppendedThenUpdated | src/components/menu/order-options-list.tsx:60-75 | an option appended to a list with an integer id gets an id no other option has, so saving it again after an edit replaces it alone |
| OrderOptionsList.OptionsPage.constructor | src/components/menu/order-options-list.tsx:28-34 | the page starts with the fetched list, the user's role and no dialog |
| OrderOptionsList.OptionsPage.HandleEdit | src/components/menu/order-options-list.tsx:36-42 | an administrator opens the dialog on the option; anyone else gets the edit error and nothing changes |
| OrderOptionsList.OptionsPage.HandleDelete | src/components/menu/order-options-list.tsx:44-58 | an administrator's delete replaces the cache with `WithoutId` and reports success, or on a rejected update reports the failure and keeps the cache; anyone else gets the delete error and nothing changes |
| OrderOptionsList.OptionsPage.HandleSave | src/components/menu/order-options-list.tsx:60-77 | a truthy id replaces (`Replace`) and reports an update, id 0 appends (`Append`) and reports an addition; the dialog closes either way |
| OrderOptionsList.OptionsPage.CloseDialog | src/components/menu/order-options-list.tsx:129 | the dialog closes |
| SalesByCategory.ItemEntries | src/components/sales/sales-by-category.tsx:71-74 | each item of an order is filed under its category with price·quantity |
| SalesByCategory.ItemEntriesAmount | src/components/sales/sales-by-category.tsx:72 | an order's filed amounts add up to the sum of price·quantity over its items |
| SalesByCategory.SaleEntriesAmount | src/components/sales/sales-by-category.tsx:67-79 | all filed amounts add up to the grand total of price·quantity over all orders |
| SalesByCategory.HoldsIffSold | src/components/sales/sales-by-category.tsx:73 | a category gets a key exactly when some item of some order is in it |
| SalesByCategory.AddSale | src/components/sales/sales-by-category.tsx:73 | one `acc[item.category] = (acc[item.category] or 0) + sales` step adds the item to its category's total, opening it at the end when new |
| SalesByCategory.AddOrder | src/components/sales/sales-by-category.tsx:71-74 | the inner `forEach` adds every item of one order to the totals |
| SalesByCategory.CategorySales | src/components/sales/sales-by-category.tsx:67-79 | the `reduce` computes the per-category totals of all items of all orders |
| SalesByCategory.ChartData | src/components/sales/sales-by-category.tsx:82-87 | one slice per key, in order, with the category's name and total |
| SalesByCategory.ValuesOfChartData | src/components/sales/sales-by-category.tsx:82-87 | the slices are worth what the totals are worth |
| SalesByCategory.SlicesPerCategory | src/components/sales/sales-by-category.tsx:67-87 | every category appears once, exactly the sold categories appear, each slice is worth the price·quantity of its category and the slices add up to the grand total |
| SalesByCategory.ColorOf | src/components/sales/sales-by-category.tsx:127-133 | every slice gets one of the six colours |
| SalesByCategory.ColorsCycle | src/components/sales/sales-by-category.tsx:130 | the colours repeat every six slices and six consecutive slices all differ |
| SalesByCategory.LabelShownIff | src/components/sales/sales-by-category.tsx:41 | a slice is labelled exactly when it is more than one twentieth of the total |
| SalesByCategory.View | src/components/sales/sales-by-category.tsx:101-109 | loading shows the loading text, no data the empty text, and otherwise the pie of exactly the data |
| SalesByCategory.SalesPanel.constructor | src/components/sales/sales-by-category.tsx:57-58 | the panel starts loading with no data |
| SalesByCategory.SalesPanel.FetchAndProcess | src/components/sales/sales-by-category.tsx:60-99 | a failed fetch leaves no data, a successful one the chart data of the history; loading ends either way |
| Tally.TotalsSnoc | src/app/api/analytics/orders/route.ts:80-84 | keyed accumulation of one more entry is one `Add` step on the totals so far |
| Tally.GroupsByKey | src/app/api/analytics/orders/route.ts:74-90 | a keyed record lists each key once, exactly the keys some entry has, each with its entries' count and sum |
| Tally.Conservation | src/app/api/analytics/orders/route.ts:74-90 | the counts of a keyed record add up to the number of entries and the sums to their total amount |
| Tally.AmountOfAppend | src/components/sales/sales-by-category.tsx:67-79 | the amount of a concatenation is the sum of the amounts |
| Js.Trim | src/components/menu/edit-order-option-modal.tsx:38-81 | `trim` leaves no whitespace at either end and never lengthens the text |
| Js.TrimInfix | src/components/menu/edit-order-option-modal.tsx:38-81 | `trim` returns the text itself with only whitespace cut from its two ends |
| Js.TrimEmptyIff | src/components/menu/edit-order-option-modal.tsx:38-73 | a text trims to empty exactly when it is all whitespace |
| Js.StringToNumberAgreesWithParseFloat | src/app/api/bom/route.ts:42-61 | where `Number` reads non-blank text as a value, `parseFloat` reads the same value |
| Js.PositiveAgreesWithParseFloat | src/app/api/bom/route.ts:42-61 | a positive `Number` reading of a text or number is also what `parseFloat` returns |
| Js.BooleanQuantityDisagrees | src/app/api/bom/route.ts:42-61 | `true` is positive to `Number` but NaN to `parseFloat` |
| Js.SplitJoin | src/app/api/order-history/route.ts:11-12 | `split` loses nothing: joining the parts with the separator gives the text back |
| Js.ToUpper | src/app/api/order-history/route.ts:30 | upper-casing keeps the length and maps each character on its own |
| Js.UpperMatchesOnlyItself | src/app/api/order-history/route.ts:30 | for a target without Latin letters, the upper-cased text equals it exactly when the text itself does |
| Js.NatToStringInjective | src/components/bom/bom-actions.tsx:82-89 | distinct natural numbers have distinct decimal text |
| Js.IntToStringInjective | src/components/bom/bom-actions.tsx:82-89 | distinct integers have distinct decimal text |
| Js.SliceTo | src/app/api/best-sellers/route.ts:38 | `slice(0, end)` keeps a prefix, of length `end` truncated toward zero and capped by the length, or counted back from the length for a negative end |

## Left out

- React rendering, SWR, dialogs, alerts and toasts are left out. Only the state each handler computes is modelled. The `setAlertState` calls in the recipe dialog name a setter the component never declares; the model does not follow them.
- The broker library's own networking is left out: keepalive, `reconnectPeriod`, its retry loop and its timers. Timeouts and closes are event methods. The `offline` and `reconnect` events only log, so they are not modelled.
- A failed broker subscribe makes its callback log and rethrow. The throw happens inside the broker library's callback, outside any caller's promise, so it is not modelled.
- Concurrency is left out. Parallel `connectToMqtt` calls and the `Promise.all` publishes of the initialisation route are serialised. So are the `Promise.all` requests of the recipe dialog's submit: it is modelled as all requests sent, then one success-or-failure answer.
- Prisma is left out: schemas, `include`, relations and aggregates. Tables are sequences or maps, query results are inputs, and a store failure is a parameter.
- `OrderHistoryRoute.Evaluate` takes any whole `take`. A limit beyond the range of Prisma's integer type is not modelled.
- `OrderHistoryRoute.Post` treats only a NaN part as an Invalid Date. A date whose parts are numbers but whose time value is out of JavaScript's range is not modelled.
- `Js.ToUpper` upper-cases only the Latin letters a to z. Other scripts' case mappings are not modelled; the one comparison it serves is against Thai text, which has no case.
- `JSON.stringify` and `JSON.parse` are abstract functions with a round-trip property. The serialised text itself is not modelled.
- Numeric text is read as a signed decimal numeral. The text `Infinity`, hexadecimal and exponent forms are not part of this model.
- The model stops at `Number`, `parseFloat` and `parseInt`. Floating-point rounding is not modelled.
- `InventoryList.Divide` gives exact quotients for finite results. Rounding is not modelled.
- `Math.round`, `toFixed`, `toLocaleString` and the chart's percentage text are left out.
- Recharts computes the percent of a pie label. `SalesByCategory.LabelShownIff` takes the slice value and the total instead.
- The calendar is an input: `date-fns` start dates, day arithmetic, Thai-locale formatting, time zones and daylight-saving shifts.
- The order processor's `formatTime` is the clock reading the model takes as an input.
- bcrypt hashing is the `hashed` parameter of `UserCredentials.UserTable.Post`. Authentication, JWT and cookies are not part of this model.
- The `image` field of a new menu item is passed to the store unchecked. The model does not carry it.
- `BomActions.BomForm.HandleIngredientChange` models only the two inputs of an ingredient row. Other field names written through `[field]: value` are not modelled.
- The inventory page's fetch, save and delete handlers are plain requests. They are not modelled; only `getStatus` and `getLowStockItems` are.
- `EditOrderOptionModal.Initial` assumes an option always carries a `choices` array, as its type requires. A missing array, which the source turns into `[]`, is not modelled.
- `EditOrderOptionModal.OptionDialog.HandleTypeChange` takes only 'single' or 'multiple', the two values the select offers and the handler's type allows.
- `Sorting.SortDesc` states sortedness and permutation. It does not state stability, which the insertion it is built from provides.
- `BomList.GroupsByMenuItem` does not state which of several snapshots of one menu item becomes the group's `menuItem`. It is the first one seen.
- `BomList.GroupsByMenuItem` lists groups in ascending id order, which holds because menu item ids are non-negative integer keys.
- `SalesByCategory.SlicesPerCategory` takes categories in insertion order. A category name that looks like an array index, such as "1", would be listed first by `Object.entries`. That ordering is not modelled.
- `AnalyticsOrders.AllMonthsView` makes the same assumption about month keys.
- The GET handlers of the recipe and menu-item routes are plain store reads and are not modelled.
- The thin CRUD routes (inventory, branches, categories, menu) and the fixture seed are not part of this model.
