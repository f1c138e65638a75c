# ChickenManagement core, modelled in Dafny

ChickenManagement is the ordering and stock system of a roast-chicken shop. Customers order whole or half chickens for a pick-up time, through a web form or by voice. Staff sell over the counter, confirm, cancel or fail orders, and watch the stock on admin dashboards. A forecasting service estimates the coming days' usage.

This project models the logic at the heart of that system. It proves properties of that logic.

**Server** (Express, TypeScript):
- **Stock accounting.** `prepareStockUpdate` computes the new initial, current and reserved stock for each of seven actions. `stockMiddleware` writes the stock row and a history entry (`StockMiddleware`).
- **Stock routes.** The GET view derives today's reservations from the pending orders. `/add`, `/remove` and `/reset` drive the state machine (`StockRoutes`).
- **Order routes.** The order lifecycle (create, confirm, error, PATCH and cancel, soft delete) is a class over the order table and the stock (`OrderRoutes`).
- **Accounts.** The login ladder, the `isAuthenticated` and `isHaykakan` guards, the first-admin bootstrap and the user-management rules (`AuthRoutes`).
- **Voice orders.** `processVoiceCommand` extracts the name, quantity, pick-up time and phone from a transcribed order (`VoiceCommand`, `VoiceTime`).
- **Route helpers.** The database browser's pagination, the path clean-up of the file-exists check, and the settings initializer over the rows of the settings table (`RouteHelpers`).

**Forecasting service** (Python):
- **Data preparation.** Daily usage from the stock history, the `(ds, y)` series, the hour, weekday and month distributions, the trailing average and the days-until-empty estimate (`DataProcessor`).
- **Regression forecaster.** Its calendar features and one-hot encoding, its forecast rows and band, its model state, and the top-importance selection (`MLPredictor`).
- **Service.** The service's guards, lazy training, historical metrics and 7/14/30-day rollups (`PredictionService`).

**Web client** (React):
- **Dashboards.** Stock history, stock levels (the full and the basic page) and the orders overview (`StockHistoryView`, `StockLevelsView`, `OrdersOverview`).
- **Order form.** The public order form (`OrderForm`), which has its own number input and calendar popover. Also two picker components the form does not render: a quantity picker and a pick-up time picker (`QuantitySelector`, `TimeSelector`).
- **WhatsApp link.** Building the link for an order (`WhatsApp`).
- **Other admin pages.** The opening-hours panel (`BusinessHoursDisplay`), the featured-menus page (`FeaturedMenus`) and the database table (`DataTable`).

**Shared modules:**
- `Outcomes`: Option and Result.
- `Seqs`: sums, filters, extremes and means.
- `Sorting`: a sort by a comparator, proved stable.
- `Tallies`: per-bucket counts in first-seen key order.
- `Calendar`: day numbers and civil dates.
- `Text`: JavaScript string helpers.
- `Rounding`: `Math.round`, and pandas' `round(1)`.
- `HalfSteps`: half-chicken quantities and how they are written.

**Modelling conventions:**
- Dates are integer day numbers and timestamps are integer seconds, both in the one time zone the application runs in.
- Quantities and amounts are exact reals. A JavaScript NaN is `None`.
- Every read of the current time is a parameter.
- Code that updates state in place is modelled as classes whose methods state the new state:
  - the order table;
  - the stock row and its history;
  - the user table and session;
  - the forecasters' model state;
  - the React component state (recorded together with the values passed to `onChange`);
  - the in-place sort of the fetched history.
- Pure code is modelled as functions, with lemmas relating them.

## Model

| member | source | states |
|---|---|---|
| StockMiddleware.PrepareStockUpdate | server/middleware/stockMiddleware.ts:69-127 | Fails exactly when there is no stock row; otherwise the new initial, current and reserved values are the action's transition of the stored ones, unreserved is current − reserved, and action, quantity and source are passed through |
| StockMiddleware.NextRow | server/middleware/stockMiddleware.ts:38-47 | The stored row after an update is the transition of the previous one with unreserved = current − reserved; no stock row stays no stock row |
| StockMiddleware.CreatedBy | server/middleware/stockMiddleware.ts:56 | The history entry's author is "admin" or "client" for that source and "system" exactly when no source was given |
| StockMiddleware.OnlyReservedChanges | server/middleware/stockMiddleware.ts:86-93 | Cancelling an order or marking it as an error lowers only the reserved stock by q, so unreserved rises by q |
| StockMiddleware.DeliveryConservesUnreserved | server/middleware/stockMiddleware.ts:94-98 | Delivering lowers current and reserved by q together and leaves unreserved unchanged |
| StockMiddleware.DirectSaleInverse | server/middleware/stockMiddleware.ts:99-106 | A direct sale and its correction by the same quantity undo each other in either order |
| StockMiddleware.NewOrderInverse | server/middleware/stockMiddleware.ts:86-110 | Reserving an order and then cancelling it or marking it as an error restores the stock exactly |
| StockMiddleware.ResetZeroes | server/middleware/stockMiddleware.ts:111-115 | A reset zeroes initial, current and reserved stock whatever the quantity |
| StockMiddleware.UnreservedBalance | server/middleware/stockMiddleware.ts:85-122 | Every action except reset keeps the initial stock and moves unreserved stock by the action's signed amount |
| StockMiddleware.StockLedger.Commit | server/middleware/stockMiddleware.ts:25-66 | Without an update nothing happens; without a stock row it fails and writes nothing; otherwise it stores the new row and appends one history entry with the previous and new current stock and the author |
| StockMiddleware.StockLedger.Perform | server/middleware/stockMiddleware.ts:25-127 | Prepare then commit: fails only without a stock row, stores the next row, and leaves the history as NextHistory gives it: one entry for the action, its quantity and its author |
| StockMiddleware.NextHistory | server/middleware/stockMiddleware.ts:49-59 | The history after a stock change: nothing is added without a stock row; otherwise exactly one entry is appended, recording the action, the quantity, the previous and the new current stock and the author ("system" without a source) |
| StockRoutes.ReservedTodayAppend | server/routes/stockRoutes.ts:21-29 | The reserved stock is a fold: one more order adds its quantity exactly when it is today's, pending and not deleted |
| StockRoutes.ReservedTodayNonNegative | server/routes/stockRoutes.ts:21-29 | With non-negative order quantities the reserved stock is non-negative |
| StockRoutes.GetStock | server/routes/stockRoutes.ts:9-46 | The response keeps the stored row, reports today's reserved stock, and reserved + unreserved equals the current stock (0 without a row) |
| StockRoutes.AddStock | server/routes/stockRoutes.ts:49-72 | Adding applies a direct-sale correction of the absolute quantity: fails only without a row, never lowers the current stock, and appends one history entry by 'admin' for that correction when there is a row (none otherwise) |
| StockRoutes.RemoveStock | server/routes/stockRoutes.ts:75-98 | Removing applies a direct sale of the absolute quantity: fails only without a row, never raises the current stock, and appends one history entry by 'admin' for that sale when there is a row (none otherwise) |
| StockRoutes.ResetStockRoute | server/routes/stockRoutes.ts:101-123 | A reset leaves an all-zero row, fails only without a row, and appends one history entry by 'admin' for a reset of quantity 0 when there is a row (none otherwise) |
| OrderRoutes.ApplyPatch | server/routes/orderRoutes.ts:143 | A patch keeps the id, sets every field it carries and leaves the others; the empty patch changes nothing |
| OrderRoutes.OrderBook.Create | server/routes/orderRoutes.ts:21-44 | The new order is stored as pending under the next id even when the stock step then fails; the stock gets a new-order reservation of its quantity and the history one new_order entry by 'client' with that quantity and the previous and new current stock (none without a row); the route succeeds exactly when there is a stock row |
| OrderRoutes.OrderBook.Confirm | server/routes/orderRoutes.ts:47-79 | An unknown id is a 404 that changes nothing; otherwise the stock records a delivery of the order's quantity, the history gains the matching order_delivered entry by 'admin' (none without a row), and, when that succeeds, the order becomes completed |
| OrderRoutes.OrderBook.MarkError | server/routes/orderRoutes.ts:82-115 | An unknown id is a 404 that changes nothing; otherwise the stock records an order error, the history gains the matching order_error entry by 'admin' (none without a row), and, when that succeeds, the order becomes an error and is deleted |
| OrderRoutes.OrderBook.Update | server/routes/orderRoutes.ts:118-149 | An unknown id is a 404; a patch that cancels a not yet cancelled order first releases its reservation and appends the matching order_cancelled entry by 'admin' to the history (none without a row), any other patch leaves stock and history alone; the patch is then applied |
| OrderRoutes.OrderBook.Delete | server/routes/orderRoutes.ts:152-161 | Deleting marks a known order as deleted and changes nothing else; an unknown id changes nothing |
| OrderRoutes.RecancelIsStockNeutral | server/routes/orderRoutes.ts:128 | Sending the same cancelling patch again does not release the stock a second time |
| OrderRoutes.CreateThenCancelRestoresStock | server/routes/orderRoutes.ts:26-30 | Creating an order and then cancelling it or marking it as an error leaves the stock row as it was (also lines 91-95, 129-133) |
| OrderRoutes.CreateThenConfirmSellsFromStock | server/routes/orderRoutes.ts:26-60 | Creating and then confirming an order lowers current and unreserved stock by its quantity and leaves the reserved stock as it was |
| AuthRoutes.Strip | server/routes/authRoutes.ts:57 | The user sent back keeps every field except the password hash (also lines 253-256) |
| AuthRoutes.IsAuthenticated | server/routes/authRoutes.ts:130-135 | The guard rejects exactly the requests without a session user, with status 401 |
| AuthRoutes.IsHaykakan | server/routes/authRoutes.ts:138-167 | The admin guard passes exactly a logged-in haykakan; no session is 401 and any other role is 403 |
| AuthRoutes.HaykakanImpliesAuthenticated | server/routes/authRoutes.ts:130-167 | Whatever passes the admin guard also passes the authentication guard |
| AuthRoutes.FindUser | server/routes/authRoutes.ts:27 | Finds the first user the key matches, or reports that none does; used by username here and by id at lines 115 and 291 |
| AuthRoutes.LoginDecision | server/routes/authRoutes.ts:27-47 | Login succeeds exactly for an existing, active user whose password matches; every refusal is 401, and an inactive user gets the inactive-account message |
| AuthRoutes.NewPasswordHash | server/routes/authRoutes.ts:300-311 | A non-empty new password without an equal, non-empty confirmation is refused; a missing or empty one keeps the stored hash; otherwise the new hash is stored |
| AuthRoutes.ListUsers | server/routes/authRoutes.ts:239-263 | The result is the listed users (everyone with showAll = 'true', otherwise the active ones) in table order, each stripped of its password, and nothing else |
| AuthRoutes.AuthServer.Login | server/routes/authRoutes.ts:18-73 | A refused login answers the decision's error and leaves the session; an accepted one stores id, username and role in the session and answers the user without password |
| AuthRoutes.AuthServer.Logout | server/routes/authRoutes.ts:76-106 | Logging out empties the session |
| AuthRoutes.AuthServer.Me | server/routes/authRoutes.ts:109-127 | Without a session it is 401; a session whose user is gone is destroyed with 401; otherwise the user is answered |
| AuthRoutes.AuthServer.Initialize | server/routes/authRoutes.ts:170-199 | With users present it is 400 and nothing changes; otherwise the only user becomes the active haykakan 'admin' with the hash of 'admin123' |
| AuthRoutes.AuthServer.CreateUser | server/routes/authRoutes.ts:202-236 | Behind the admin guard; a taken username is 400; otherwise the user is appended with the hashed password and the next id |
| AuthRoutes.AuthServer.GetUsers | server/routes/authRoutes.ts:239-263 | Behind the admin guard, answers the listing for showAll |
| AuthRoutes.AuthServer.UpdateUser | server/routes/authRoutes.ts:283-323 | Behind the admin guard; a non-numeric id is 400, an unknown one 404, mismatched passwords 400; otherwise only that user changes, by the patch and the password rule |
| AuthRoutes.AuthServer.ToggleActive | server/routes/authRoutes.ts:326-354 | Behind the admin guard; a non-numeric id is 400, an unknown one 404; otherwise only that user's active flag flips |
| AuthRoutes.ToggleTwice | server/routes/authRoutes.ts:340-341 | Toggling twice restores the user |
| VoiceTime.ValidateTime | server/routes.ts:258-271 | A text is accepted only as a valid zero-padded `HH:MM` (hour 0-23, minute 0-59) |
| VoiceTime.ValidateClockText | server/routes.ts:264-270 | `HH:MM` built from an hour and a minute is accepted unchanged exactly when the hour is at most 23 and the minute at most 59 |
| VoiceTime.DayPartAccepted | server/routes.ts:187-210 | "N de la tarde" is accepted for N up to 12, "de la mañana" for N up to 23, "de la noche" for N up to 11, and an accepted phrase gives the converted hour on the hour (also lines 250-252) |
| VoiceTime.TimeMapWithinOpeningHours | server/routes.ts:213-238 | Every spelled-out time lies between 10:00 and 21:30, on the hour or the half hour |
| VoiceTime.SpelledTimeAccepted | server/routes.ts:240-270 | A spelled-out time in the map, in any letter case and with surrounding blanks, gives its mapped `HH:MM` |
| VoiceTime.BareHourAccepted | server/routes.ts:128-130 | A bare hour up to 23 gets ":00" and is accepted (also lines 258-270) |
| VoiceTime.DigitsConvertToThemselves | server/routes.ts:240 | Digits are not in the time map, so the converter returns them as they are |
| VoiceTime.BareDigitsValidate | server/routes.ts:258-270 | Any digit string whose value is at most 23 becomes that hour on the hour, zero-padded |
| VoiceTime.ResolveTime | server/routes.ts:248-271 | A usable capture yields either "" (rejected) or a valid `HH:MM`, and "" exactly when validation rejects the converted text |
| VoiceTime.DefaultPickupTime | server/routes.ts:286-291 | The default one hour from now is a valid `HH:MM` that validation accepts unchanged |
| VoiceCommand.Words | server/routes.ts:141 | Splitting at runs of blanks yields non-empty words without blanks |
| VoiceCommand.CapitalizeWord | server/routes.ts:142 | The word keeps its length, its first letter upper-cased and the rest lower-cased |
| VoiceCommand.CapitalizeAll | server/routes.ts:142 | Every word capitalized, in order |
| VoiceCommand.WordsConcat | server/routes.ts:141 | A word followed by a blank-led text splits into that word and the words of the rest |
| VoiceCommand.WordsOfJoin | server/routes.ts:141-143 | Splitting words joined with single spaces gives the words back |
| VoiceCommand.CapitalizeWordShape | server/routes.ts:142 | A capitalized word is still a non-empty word, and capitalizing it again changes nothing |
| VoiceCommand.WordsOfCapitalizeName | server/routes.ts:139-144 | The words of a capitalized name are the capitalized words of the name |
| VoiceCommand.CapitalizeNameIdempotent | server/routes.ts:139-144 | Capitalizing a name twice is capitalizing it once |
| VoiceCommand.BlankNameIsEmpty | server/routes.ts:140 | A name made only of blanks becomes "" |
| VoiceCommand.FirstTruthy | server/routes.ts:148-154 | The index of the first present, non-empty capture, or none when there is none |
| VoiceCommand.ExtractName | server/routes.ts:146-154 | The loop returns the capitalized first truthy name capture, or "" |
| VoiceCommand.FirstMatched | server/routes.ts:158-160 | The index of the first pattern that matched at all, or none |
| VoiceCommand.ExtractQuantity | server/routes.ts:156-181 | The loop stops at the first matching pattern and sets the quantity that pattern gives; 1 when none matches |
| VoiceCommand.UnPolloShadowsYMedio | server/routes.ts:87 | "un pollo y medio" matches the "un pollo" pattern first, so the quantity is 1, not 1.5 (also lines 93, 158-169) |
| VoiceCommand.FirstUsableTime | server/routes.ts:245-247 | The index of the first time pattern with a truthy capture, or none |
| VoiceCommand.ExtractTime | server/routes.ts:243-274 | The loop stops at the first usable capture even when it is rejected; the result is "" or a valid `HH:MM` |
| VoiceCommand.RejectedTimeStopsSearch | server/routes.ts:204-210 | "12 de la noche" is rejected (24:00) and, because the loop stops there, no later pattern is tried (also line 272) |
| VoiceCommand.FirstPhone | server/routes.ts:278-280 | The index of the first capture of exactly nine characters, or none |
| VoiceCommand.ExtractPhone | server/routes.ts:276-284 | The phone is "" or a nine-character capture, the first such one |
| VoiceCommand.ProcessVoiceCommand | server/routes.ts:66-303 | An order is returned exactly when the name is non-empty and the quantity positive; it carries the extracted fields, with the default time when none was usable, and its pickup time is always a valid `HH:MM` |
| RouteHelpers.ParamOr | server/routes.ts:1212-1213 | `parseInt(q) \|\| fallback`: a missing, unparsable or zero parameter gives the fallback, any other value is kept |
| RouteHelpers.PageParam | server/routes.ts:1212 | The page used is never 0 |
| RouteHelpers.LimitParam | server/routes.ts:1213 | The limit used is never 0, so the page count is defined |
| RouteHelpers.TotalPages | server/routes.ts:1248 | `Math.ceil(total / limit)` is the least integer not below the quotient, for either sign of the limit |
| RouteHelpers.TotalPagesBounds | server/routes.ts:1248 | With a positive limit there are no pages exactly when there are no rows, and never more pages than rows |
| RouteHelpers.PagesCoverRows | server/routes.ts:1214-1248 | A page from 1 up is at most the page count exactly when its offset is inside the table |
| RouteHelpers.StripDotDot | server/routes.ts:1326 | Removing '..' left to right leaves no '..', keeps every other character in order and never lengthens the path |
| RouteHelpers.StripDotDotKeepsClean | server/routes.ts:1326 | A path without '..' is left as it is |
| RouteHelpers.StripDotDotIdempotent | server/routes.ts:1326 | Normalising twice is normalising once |
| RouteHelpers.GetSetting | server/storage.ts:316-322 | `value \|\| null`: a value exactly when the key's first row exists and is non-empty, and then that row's value |
| RouteHelpers.MissingKeys | server/routes.ts:732-760 | Exactly the featured-menu keys with no row stored under them, whatever a stored value holds, in declaration order |
| RouteHelpers.InitializeFeaturedMenus | server/routes.ts:763-768 | Appends a row with "0" for exactly the missing keys, in order; stored rows stay as they are; reports the missing keys; afterwards every key has a row and none is missing |
| RouteHelpers.InsertMissing | server/routes.ts:763-768 | For any key list: appends a "0" row for exactly the keys without a row, in order, leaving the stored rows as they are, so that every key ends up with a row |
| RouteHelpers.NoneMissing | server/routes.ts:756-760 | A key list whose keys all have a row has no missing key |
| RouteHelpers.DefaultRowsMembers | server/routes.ts:786-791 | A default's row is appended exactly when `getSetting` reads null for its key, which includes a key whose first row holds "" |
| RouteHelpers.InsertDefaults | server/routes.ts:786-791 | For keys given once each: the stored rows stay as they are and exactly the rows of the defaults whose keys read as null are appended, in order, since `updateSetting` then reads null again and inserts (storage.ts:341-352) |
| RouteHelpers.ReadAfterDefaults | server/routes.ts:786-791 | Afterwards a key without a row reads its default, a non-empty stored value is kept, and a key whose first row is "" still reads null although a default row was appended, so every later run appends another |
| RouteHelpers.DefaultSettingsFacts | server/routes.ts:771-784 | The twelve basic settings have distinct keys, none of them a featured-menu key, and non-empty defaults |
| RouteHelpers.InitializeSettings | server/routes.ts:756-795 | Featured-menu rows then basic-setting rows are appended and nothing stored changes; every featured-menu key then has a row; each basic setting reads its default if it had no row, keeps a non-empty value, and still reads null over an empty first row; exactly the missing featured-menu keys are reported |
| DataProcessor.FirstDay | ai_prediction/data_processor.py:39 | The earliest day of the rows, attained by one of them |
| DataProcessor.LastDay | ai_prediction/data_processor.py:40 | The latest day of the rows, attained by one of them |
| DataProcessor.Series | ai_prediction/data_processor.py:38-45 | One row per day from the first day on, each with that day's summed usage (0 when none) |
| DataProcessor.CalculateDailyUsage | ai_prediction/data_processor.py:11-47 | Fails exactly when there is no sell/remove row; otherwise one row per calendar day from the first to the last depletion day, consecutive, each with the day's summed depleted quantity |
| DataProcessor.IdleDayIsZero | ai_prediction/data_processor.py:44-45 | A day without depletion rows has usage 0 |
| DataProcessor.OtherActionsIgnored | ai_prediction/data_processor.py:22 | Adding a row whose action is neither sell nor remove changes nothing |
| DataProcessor.DayUsageCons | ai_prediction/data_processor.py:32 | A day's sum splits over the rows |
| DataProcessor.SumOfSeries | ai_prediction/data_processor.py:38-45 | The usage column of the series sums to the series total |
| DataProcessor.SeriesTotalAll | ai_prediction/data_processor.py:32-45 | When every row falls inside the range, the series total is the sum of all quantities |
| DataProcessor.UsageConserved | ai_prediction/data_processor.py:11-47 | The daily usage sums to the total quantity of the depletion rows: gap filling adds nothing and loses nothing |
| DataProcessor.Renamed | ai_prediction/data_processor.py:66-69 | The columns renamed to ds and y, row by row |
| DataProcessor.PrepareTimeSeries | ai_prediction/data_processor.py:49-74 | A permutation of the renamed rows, sorted by ds |
| DataProcessor.PrepareDailyUsageOnlyRenames | ai_prediction/data_processor.py:38-74 | On a daily-usage series the sort changes nothing: preparing it only renames |
| DataProcessor.ConsecutiveDates | ai_prediction/data_processor.py:38-41 | In a series of consecutive days the j-th day is the i-th plus j-i |
| DataProcessor.Distribute | ai_prediction/data_processor.py:97-108 | Exactly the observed buckets, each with its number of rows, and a percentage within 0-100 that is the share count / rows × 100 rounded by round(1), so within 0.05 of the exact share; empty maps for no rows (also lines 172-184, 254-266) |
| DataProcessor.HourDomain | ai_prediction/data_processor.py:97 | The hours 0 to 23 in order |
| DataProcessor.Hours | ai_prediction/data_processor.py:97-120 | The hour of each timestamp, in 0-23 |
| DataProcessor.WeekdayNames | ai_prediction/data_processor.py:152-173 | The Monday-first Spanish weekday name of each timestamp |
| DataProcessor.MonthNamesOf | ai_prediction/data_processor.py:229-255 | The Spanish month name of each timestamp |
| DataProcessor.CountsCoverRows | ai_prediction/data_processor.py:98-99 | Counting over a duplicate-free domain that holds every key gives back the number of rows |
| DataProcessor.HourlyCountsCoverRows | ai_prediction/data_processor.py:97-122 | Every hourly bucket is an hour of the day and the buckets count every row once |
| DataProcessor.WeeklyCountsCoverRows | ai_prediction/data_processor.py:172-199 | Every weekly bucket is a day name and the buckets count every row once |
| DataProcessor.MonthlyCountsCoverRows | ai_prediction/data_processor.py:254-281 | Every monthly bucket is a month name and the buckets count every row once |
| DataProcessor.NamesDistinct | ai_prediction/data_processor.py:152-160 | The seven day names and the twelve month names are all different (also lines 229-242) |
| DataProcessor.RecentDays | ai_prediction/data_processor.py:313-317 | The min(N, length) rows kept are rows of the series, newest first |
| DataProcessor.RecentDaysAreTheNewest | ai_prediction/data_processor.py:313-317 | No day left out is newer than a day kept |
| DataProcessor.AverageDailyUsage | ai_prediction/data_processor.py:299-322 | 0 for an empty series or window; otherwise the mean usage of the min(lastN, days) most recent days, which lies between their smallest and largest usage |
| DataProcessor.AverageDailyUsageNonNegative | ai_prediction/data_processor.py:299-322 | Non-negative usage gives a non-negative average |
| DataProcessor.DaysUntilEmpty | ai_prediction/data_processor.py:324-339 | Infinite exactly when the average is not positive; otherwise days times average is the stock |
| DataProcessor.DaysUntilEmptyMonotone | ai_prediction/data_processor.py:335-339 | More stock never runs out sooner |
| MLPredictor.Quarter | ai_prediction/models/ml_predictor.py:55 | `(month - 1) // 3 + 1` is the quarter 1-4 that contains the month |
| MLPredictor.Features | ai_prediction/models/ml_predictor.py:50-69 | Weekday 0-6 from Monday, month 1-12, its quarter, a day within the month's length; weekend exactly on Saturday and Sunday, month start exactly on day 1, month end exactly on the month's last day |
| MLPredictor.MonthEndBeforeMonthStart | ai_prediction/models/ml_predictor.py:57-58 | A date ends its month exactly when the next date starts one |
| MLPredictor.WeekendPattern | ai_prediction/models/ml_predictor.py:56 | The weekend flag repeats every seven days; a Saturday is followed by a weekend day and then by a weekday |
| MLPredictor.Least | ai_prediction/models/ml_predictor.py:62 | The smallest value of a feature, which the encoding drops |
| MLPredictor.DummyColumns | ai_prediction/models/ml_predictor.py:62 | `get_dummies(drop_first=True)` makes a column for each observed value except the smallest |
| MLPredictor.ConstantFeatureHasNoColumn | ai_prediction/models/ml_predictor.py:62 | A feature with a single value gets no column |
| MLPredictor.OneHot | ai_prediction/models/ml_predictor.py:62 | One 0/1 entry per column, at most one set, and none set exactly when the value has no column |
| MLPredictor.PrepareFeatures | ai_prediction/models/ml_predictor.py:39-64 | One row per date under the fixed column set; each categorical sets no column exactly for its baseline value |
| MLPredictor.DummyColumnsOfRange | ai_prediction/models/ml_predictor.py:62 | A feature covering lo..hi gets the columns lo+1..hi |
| MLPredictor.QuartersFromMonths | ai_prediction/models/ml_predictor.py:55 | Every quarter is present when every month is |
| MLPredictor.ObservedColumnsWhenAllPresent | ai_prediction/models/ml_predictor.py:62 | When every weekday and month occurs, the observed columns are the fixed ones |
| MLPredictor.AtMostOneColumn | ai_prediction/models/ml_predictor.py:62 | A feature that takes at most two values in a window gets at most one column |
| MLPredictor.WindowWithinTwoMonths | ai_prediction/models/ml_predictor.py:151 | Up to 30 dates from a start that is not the last day of its month fall in that month or the next |
| MLPredictor.ThreeMonthsInNineWeeks | ai_prediction/models/ml_predictor.py:82 | Any 63 or more consecutive dates, as in a daily training series, cover three distinct months |
| MLPredictor.ObservedColumnsDependOnWindow | ai_prediction/models/ml_predictor.py:62 | As written, training dates with three distinct months and a prediction window within two consecutive months get different month columns (also lines 82, 154) |
| MLPredictor.TrainingColumnsNeverFitPrediction | ai_prediction/models/ml_predictor.py:154-157 | As written, the columns of a training series of 63 or more consecutive days never equal those of a 1-30 day prediction that does not start on a month's last day, so `scaler.transform` is handed columns it was not fitted on |
| MLPredictor.FixedColumnsAgree | ai_prediction/models/ml_predictor.py:62 | With the fixed encoding, rows of any two windows have the same columns (also lines 154-157) |
| MLPredictor.Band | ai_prediction/models/ml_predictor.py:167-168 | The band keeps the prediction, its lower bound is never negative, and it brackets a non-negative prediction |
| MLPredictor.FutureDates | ai_prediction/models/ml_predictor.py:151 | `days` consecutive dates from the start |
| MLPredictor.Forecast | ai_prediction/models/ml_predictor.py:150-171 | One row per future date, with the model's estimate for its encoded features and a band around it |
| MLPredictor.ForecastDatesConsecutive | ai_prediction/models/ml_predictor.py:151 | Rows i and j are j-i days apart |
| MLPredictor.Predictor.constructor | ai_prediction/models/ml_predictor.py:24-37 | Nothing in memory; the saved files are whatever a previous run left |
| MLPredictor.Predictor.Train | ai_prediction/models/ml_predictor.py:71-118 | Fails exactly on fewer than two rows, where the 80/20 split leaves no training row; then no model is kept or saved, and the scaler is fitted only if there was a row. Otherwise the fitted model and a fitted scaler are kept in memory and saved |
| MLPredictor.Predictor.LoadModel | ai_prediction/models/ml_predictor.py:120-131 | Loads both objects exactly when both files exist; otherwise nothing changes and None is returned |
| MLPredictor.Predictor.Predict | ai_prediction/models/ml_predictor.py:133-171 | Loads a saved model when none is in memory; fails exactly when there is still none; otherwise returns the forecast |
| MLPredictor.SortedByImportanceFacts | ai_prediction/models/ml_predictor.py:234 | The sorted pairs are exactly the (importance, index) pairs, in ascending importance |
| MLPredictor.TopIndices | ai_prediction/models/ml_predictor.py:234-235 | The last 20 of the ascending order of importance, or all of them when fewer; equal importances in some order |
| MLPredictor.TopIndicesAreTheLargest | ai_prediction/models/ml_predictor.py:234-235 | The chosen indices are valid, ascending in importance, and no index left out is more important than one chosen |
| Calendar.LastDayOfMonth | ai_prediction/models/ml_predictor.py:66-69 | `_last_day_of_month` is between 28 and 31 |
| Calendar.LastDayOfMonthSteps | ai_prediction/models/ml_predictor.py:68-69 | Day 28 plus four days lands in the next month on day 32 minus the month length, and stepping back that many days reaches the month's last day |
| Calendar.LastDayOfMonthIsMonthLength | ai_prediction/models/ml_predictor.py:66-69 | The replace-add-subtract computation gives exactly the month's length, leap Februaries included |
| Rounding.RoundHalfEven | ai_prediction/data_processor.py:103 | Within half of the value, and a tie goes to the even neighbour, as NumPy rounds |
| Rounding.Round1 | ai_prediction/data_processor.py:103-126 | Ten times the result is the integer nearest ten times the input, the even one on a tie (round(1)), so the value moves by at most 0.05 |
| Rounding.RoundHalfEvenUnique | ai_prediction/data_processor.py:103 | Any integer within one half of x, and even when exactly one half away, is the half-to-even rounding of x, so round(1) has no other result |
| Rounding.JsRound | client/src/components/order-form.tsx:362 | `Math.round` lands above x − 0.5 and at most x + 0.5, so a tie goes up (also client/src/components/ui/quantity-selector.tsx:83) |
| Rounding.Round1Percent | ai_prediction/data_processor.py:103-126 | A share between 0 and 100 rounded to one decimal is still between 0 and 100 |
| PredictionService.Window | ai_prediction/prediction_service.py:143-145 | Exactly the forecast rows dated before the first date plus k days; non-empty for k > 0 |
| PredictionService.WindowsNested | ai_prediction/prediction_service.py:143-145 | The 7-day window lies in the 14-day one, which lies in the 30-day one |
| PredictionService.DailyWindow | ai_prediction/prediction_service.py:143-145 | On a daily forecast the k-day window is its first min(k, length) rows |
| PredictionService.Summarize | ai_prediction/prediction_service.py:157-173 | min <= mean <= max, every prediction within [min, max], and both bounds attained |
| PredictionService.SummaryMonotone | ai_prediction/prediction_service.py:143-173 | A longer window never has a smaller maximum or a larger minimum |
| PredictionService.RollupOfSubset | ai_prediction/prediction_service.py:157-173 | The rollup of a sub-window lies within the rollup of the whole |
| PredictionService.Historical | ai_prediction/prediction_service.py:130-155 | Days until empty is infinite exactly when the average is not positive, and otherwise stock over average; an empty series gives zeros |
| PredictionService.TotalUsageIsWholeHistory | ai_prediction/prediction_service.py:96-154 | The "last 30 days" total is the usage of the whole fetched history |
| PredictionService.AnalyzePatterns | ai_prediction/prediction_service.py:189-221 | Fails exactly for an empty history; otherwise the three distributions of the orders and operations |
| PredictionService.PatternsCountEveryOperation | ai_prediction/prediction_service.py:206-213 | Each distribution of the operations counts every history row exactly once |
| PredictionService.Service.constructor | ai_prediction/prediction_service.py:27-37 | Both forecasters empty in memory, the saved files as found |
| PredictionService.Service.TrainModels | ai_prediction/prediction_service.py:45-83 | Fails untouched on an empty history, on one without usage, and on a one-day series (the time-series fit raises first); succeeds exactly when the series has at least two days, and then both models are trained and saved and the report gives the series size and its first and last date |
| PredictionService.Service.PredictStockUsage | ai_prediction/prediction_service.py:85-187 | Fails untouched without history or stock; loads each saved model and trains only a missing one, failing exactly when a model must be trained on a one-day series; the result holds the first snapshot's stock, the historical metrics, the window rollups and the time-series forecast |
| PredictionService.Service.LoadOrTrain | ai_prediction/prediction_service.py:116-121 | Each forecaster ends up loaded from what is saved, or trained on the given fit and saved when nothing usable is saved; ready exactly when no training is needed on a series of fewer than two days |
| StockHistoryView.ZeroCounts | client/src/pages/admin/dashboards/stock-history.tsx:418-440 | The initialising loop gives every listed key, and only those, a count of 0 |
| StockHistoryView.Tally | client/src/pages/admin/dashboards/stock-history.tsx:405-445 | The counting loop adds to each key's starting count exactly the number of times it occurs |
| StockHistoryView.FilterHistoryByTime | client/src/pages/admin/dashboards/stock-history.tsx:382-400 | Newest first; "all" keeps every entry; "N days" keeps exactly the entries after the cutoff N days before now, each as often as in the history |
| StockHistoryView.DetailRows | client/src/pages/admin/dashboards/stock-history.tsx:348 | The first ten filtered entries, or all when fewer |
| StockHistoryView.ActivityPerDay | client/src/pages/admin/dashboards/stock-history.tsx:127 | The count divided by the filter's span in days (30 for "all"), never negative |
| StockHistoryView.Names | client/src/pages/admin/dashboards/stock-history.tsx:73-85 | Each entry's Spanish action name, or its raw action when unmapped (also line 406) |
| StockHistoryView.GetActionDistribution | client/src/pages/admin/dashboards/stock-history.tsx:402-413 | Each shown name once, exactly the names occurring, with its number of entries, most frequent first; the counts add up to the number of entries |
| StockHistoryView.EntryHours | client/src/pages/admin/dashboards/stock-history.tsx:424 | The local hour of each entry |
| StockHistoryView.GetActivityByHour | client/src/pages/admin/dashboards/stock-history.tsx:415-431 | 24 rows for hours 0-23 in order, each with its number of entries; the counts add up to the number of entries |
| StockHistoryView.WeekOrderFacts | client/src/pages/admin/dashboards/stock-history.tsx:434-456 | The Monday-first list names every day once and is the Sunday-first list rotated by one |
| StockHistoryView.EntryDays | client/src/pages/admin/dashboards/stock-history.tsx:443 | The Spanish name of each entry's `getDay()` |
| StockHistoryView.GetActivityByDay | client/src/pages/admin/dashboards/stock-history.tsx:433-457 | Seven rows Monday to Sunday, each with its number of entries; the counts add up to the number of entries |
| StockHistoryView.PointOf | client/src/pages/admin/dashboards/stock-history.tsx:465-478 | The point's level is the new stock and level minus change is the previous stock |
| StockHistoryView.StockTimeline | client/src/pages/admin/dashboards/stock-history.tsx:459-480 | One point per entry, a permutation of the entries' points, oldest first |
| StockLevelsView.SortByTime | client/src/pages/admin/dashboards/stock-levels.tsx:199-200 | The fetched array is sorted in place, oldest first, keeping its records (also client/src/pages/admin/dashboards/stock-levels-basic.tsx:66-67) |
| StockLevelsView.Timeline | client/src/pages/admin/dashboards/stock-levels.tsx:199-205 | One point per record, in order, with its time, new stock and quantity (also client/src/pages/admin/dashboards/stock-levels-basic.tsx:66-72) |
| StockLevelsView.UsageRate | client/src/pages/admin/dashboards/stock-levels.tsx:208-214 | Exactly the days that have a record, each with the summed quantity of that day's records (also client/src/pages/admin/dashboards/stock-levels-basic.tsx:75-81) |
| StockLevelsView.UsageRateStep | client/src/pages/admin/dashboards/stock-levels.tsx:210-213 | Folding one more record adds its quantity to its own day only |
| StockLevelsView.NoRowNoUsage | client/src/pages/admin/dashboards/stock-levels.tsx:212 | A day without records has usage 0 |
| StockLevelsView.UsageDays | client/src/pages/admin/dashboards/stock-levels.tsx:216 | The usage days, each once |
| StockLevelsView.UsageData | client/src/pages/admin/dashboards/stock-levels.tsx:208-219 | One bar per usage day, with the day's total of remove and sell records (also client/src/pages/admin/dashboards/stock-levels-basic.tsx:75-86) |
| StockLevelsView.UsageDataDays | client/src/pages/admin/dashboards/stock-levels.tsx:208-219 | The bar days are distinct and are exactly the days of the remove and sell records |
| StockLevelsView.OtherActionsIgnored | client/src/pages/admin/dashboards/stock-levels.tsx:209 | A record that is neither remove nor sell changes no bar |
| StockLevelsView.DayTotalsCoverRows | client/src/pages/admin/dashboards/stock-levels.tsx:210-214 | The day totals over the distinct days add up to the total quantity |
| StockLevelsView.UsageConserved | client/src/pages/admin/dashboards/stock-levels.tsx:208-219 | The bars add up to the total quantity of the remove and sell records |
| StockLevelsView.UsageDaysAscending | client/src/pages/admin/dashboards/stock-levels.tsx:199-216 | After the in-place sort the bars run in strictly increasing day order |
| StockLevelsView.AverageUsage | client/src/pages/admin/dashboards/stock-levels.tsx:222 | Never 0: the mean bar when the bars sum to non-zero, and 1 when there are no bars or they sum to 0 (also client/src/pages/admin/dashboards/stock-levels-basic.tsx:89) |
| StockLevelsView.AverageUsageIsPerUsageDay | client/src/pages/admin/dashboards/stock-levels.tsx:222 | The average is the total usage over the number of usage days, between the smallest and largest bar |
| StockLevelsView.DaysUntilEmpty | client/src/pages/admin/dashboards/stock-levels.tsx:223 | Days times the average usage is the unreserved stock (also client/src/pages/admin/dashboards/stock-levels-basic.tsx:90) |
| StockLevelsView.StockLevels | client/src/pages/admin/dashboards/stock-levels.tsx:199-223 | The array is sorted in place and kept as a permutation; the timeline, the ascending usage bars, the average and the days until empty are computed from the sorted array (also client/src/pages/admin/dashboards/stock-levels-basic.tsx:66-90) |
| StockLevelsView.Rows | client/src/pages/admin/dashboards/stock-levels.tsx:243-274 | One chart row per key, with its label and the two counts, 0 when missing |
| StockLevelsView.FormatWeekly | client/src/pages/admin/dashboards/stock-levels.tsx:238-248 | Nothing without a weekly report; otherwise seven rows Monday to Sunday with both counts |
| StockLevelsView.FormatMonthly | client/src/pages/admin/dashboards/stock-levels.tsx:251-264 | Nothing without a monthly report; otherwise twelve rows January to December with both counts |
| StockLevelsView.HourLabels | client/src/pages/admin/dashboards/stock-levels.tsx:271 | "0:00" to "23:00" |
| StockLevelsView.FormatHourly | client/src/pages/admin/dashboards/stock-levels.tsx:267-275 | Nothing without an hourly report; otherwise 24 rows with both counts per hour |
| StockLevelsView.BarsAreTallies | client/src/pages/admin/dashboards/stock-levels.tsx:245-273 | A bar is the number of rows with that key |
| StockLevelsView.WeeklyBarsCountEveryRow | ai_prediction/data_processor.py:172-174 | The weekly bars add up to the number of orders and of operations (also client/src/pages/admin/dashboards/stock-levels.tsx:243-247) |
| StockLevelsView.MonthlyBarsCountEveryRow | ai_prediction/data_processor.py:254-256 | The monthly bars add up to the number of orders and of operations (also client/src/pages/admin/dashboards/stock-levels.tsx:259-263) |
| StockLevelsView.HourlyBarsCountEveryRow | ai_prediction/data_processor.py:97-98 | The hourly bars add up to the number of orders and of operations (also client/src/pages/admin/dashboards/stock-levels.tsx:270-274) |
| StockLevelsView.Reduce | client/src/pages/admin/dashboards/stock-levels.tsx:678-679 | The fold's result has the most orders, and no later row has as many |
| StockLevelsView.MostActive | client/src/pages/admin/dashboards/stock-levels.tsx:676-713 | None exactly for no rows; otherwise a row with the most orders, the last such one |
| StockLevelsView.FormatForecast | client/src/pages/admin/dashboards/stock-levels.tsx:226-235 | Nothing without a forecast; otherwise one point per forecast row with its date, prediction and band |
| OrdersOverview.StatusOf | client/src/pages/admin/dashboards/orders-overview.tsx:61 | "unknown" exactly for a missing, empty or literally "unknown" status; otherwise the status itself |
| OrdersOverview.StatusSlicesCountEveryOrder | client/src/pages/admin/dashboards/orders-overview.tsx:60-69 | One slice per status that occurs, each once, with its number of orders; the slices add up to the number of orders |
| OrdersOverview.CreationDays | client/src/pages/admin/dashboards/orders-overview.tsx:75 | The calendar day of each order's creation |
| OrdersOverview.OrderTrend | client/src/pages/admin/dashboards/orders-overview.tsx:74-85 | One point per creation day that occurs, in increasing day order, with that day's number of orders; the points add up to the number of orders |
| OrdersOverview.Buckets | client/src/pages/admin/dashboards/orders-overview.tsx:89-90 | The whole number of chickens of each order |
| OrdersOverview.BucketLabelsDiffer | client/src/pages/admin/dashboards/orders-overview.tsx:97 | Different buckets get different labels |
| OrdersOverview.QuantityDistribution | client/src/pages/admin/dashboards/orders-overview.tsx:88-100 | One bar per bucket that occurs, labels distinct and in string order, each with its number of orders |
| OrdersOverview.QuantityBars | client/src/pages/admin/dashboards/orders-overview.tsx:95-100 | Any permutation of the labelled tallies sorted by label has these properties |
| OrdersOverview.TenBeforeTwo | client/src/pages/admin/dashboards/orders-overview.tsx:100 | Sorting by label puts "10 pollos" before "2 pollos" |
| OrdersOverview.CustomerRanking | client/src/pages/admin/dashboards/orders-overview.tsx:103-112 | Each customer once, with their number of orders, most orders first |
| OrdersOverview.CustomerTiesKeepFirstSeenOrder | client/src/pages/admin/dashboards/orders-overview.tsx:103-112 | Customers with equal order counts are ranked in the order of their first order |
| OrdersOverview.TopCustomers | client/src/pages/admin/dashboards/orders-overview.tsx:108-114 | The first five of the ranking, or all when fewer |
| OrdersOverview.TopCustomersRanked | client/src/pages/admin/dashboards/orders-overview.tsx:108-114 | At most five distinct customers, each with their order count, in non-increasing order |
| OrdersOverview.TopCustomersAreTheBusiest | client/src/pages/admin/dashboards/orders-overview.tsx:108-114 | No customer left out has more orders than one shown |
| HalfSteps.HalfText | client/src/components/order-form.tsx:368-372 | The JavaScript number text of a half step has a decimal point exactly when the quantity is not whole (also client/src/components/ui/quantity-selector.tsx:95) |
| HalfSteps.HalfTextInjective | client/src/components/order-form.tsx:372 | Different half steps are written differently (also client/src/components/ui/quantity-selector.tsx:95) |
| HalfSteps.QuantityText | client/src/components/order-form.tsx:368-372 | "1 pollo", "medio pollo", or the number followed by " pollos"; the plural ending exactly for the other quantities |
| HalfSteps.QuantityTextInjective | client/src/components/order-form.tsx:368-372 | Different half-step quantities get different texts |
| OrderForm.HalfRound | client/src/components/order-form.tsx:359-362 | `Math.round(q * 2) / 2` is a half step within a quarter of the typed quantity |
| OrderForm.HalfRoundKeepsHalfSteps | client/src/components/order-form.tsx:361-362 | A quantity that is already a half step is kept |
| OrderForm.HalfRoundIdempotent | client/src/components/order-form.tsx:361-362 | Rounding twice is rounding once |
| OrderForm.HalfRoundMonotone | client/src/components/order-form.tsx:361-362 | A larger quantity never rounds below a smaller one |
| OrderForm.TotalAmount | client/src/components/order-form.tsx:278 | The total is the quantity at 1200 cents per chicken, non-negative for a non-negative quantity (also line 365) |
| OrderForm.TotalOfHalfStep | client/src/components/order-form.tsx:365 | A half step costs a whole multiple of 600 cents |
| OrderForm.DetailsText | client/src/components/order-form.tsx:367-374 | The details text is the quantity text, or "NaN pollos" for an unparsable entry |
| OrderForm.SubmitDecision | client/src/components/order-form.tsx:222-293 | Refused for insufficient stock exactly when the quantity exceeds a known stock; sent exactly when the quantity is positive, in stock and the pickup time valid, with the total at 1200 per chicken; otherwise an invalid pickup date is refused first (its ISO text at line 255 throws), then a NaN quantity, then a non-positive one |
| OrderForm.SentQuantityIsHalfStepInStock | client/src/components/order-form.tsx:227-238 | A quantity that went through the input and is sent is a positive half step within the stock, costing at least 600 (also lines 258-278, 359-362) |
| OrderForm.ErrorDescription | client/src/components/order-form.tsx:202-205 | A message over 200 characters is cut to its first 197 plus "...", shorter ones are kept |
| OrderForm.ErrorDescriptionIdempotent | client/src/components/order-form.tsx:202-205 | Shortening a shortened message changes nothing |
| OrderForm.OrderFormState.constructor | client/src/components/order-form.tsx:41-51 | One chicken, total 0, no details, nothing sent |
| OrderForm.OrderFormState.QuantityChanged | client/src/components/order-form.tsx:356-374 | The field, the total and the details follow the rounded entry, and nothing is sent |
| OrderForm.OrderFormState.Submit | client/src/components/order-form.tsx:222-293 | The outcome is the submit decision on the current quantity, and exactly a sent order is appended to what was sent |
| WhatsApp.TargetPhone | client/src/lib/whatsapp.ts:16-17 | The given number if truthy, else the customer's, else the restaurant's default |
| WhatsApp.CleanPhone | client/src/lib/whatsapp.ts:20 | Only digits and '+' remain (also line 113) |
| WhatsApp.CleanPhoneKeeps | client/src/lib/whatsapp.ts:20 | Every digit and '+' is kept as often as it occurs, every other character removed |
| WhatsApp.CleanPhoneAppend | client/src/lib/whatsapp.ts:20 | Cleaning distributes over concatenation |
| WhatsApp.CleanPhoneOfClean | client/src/lib/whatsapp.ts:20 | A number of digits and '+' only is left as it is |
| WhatsApp.CleanPhoneIdempotent | client/src/lib/whatsapp.ts:20 | Cleaning twice is cleaning once |
| WhatsApp.IsValidWhatsAppNumber | client/src/lib/whatsapp.ts:109-118 | Valid exactly when non-empty and the cleaned number has at least 9 characters and starts with '+' or has at least 10 |
| WhatsApp.ValidityOfCleanedNumber | client/src/lib/whatsapp.ts:113 | Validity does not change when the number is cleaned first |
| WhatsApp.NineDigitsRejected | client/src/lib/whatsapp.ts:117 | A nine-digit Spanish mobile without prefix is rejected |
| WhatsApp.PlusNineAccepted | client/src/lib/whatsapp.ts:117 | A '+' number of nine characters is accepted |
| WhatsApp.TenDigitsAccepted | client/src/lib/whatsapp.ts:117 | Ten digits are accepted |
| WhatsApp.ShortCleanNumberRejected | client/src/lib/whatsapp.ts:117 | Any clean nine-character number not starting with '+' is rejected |
| WhatsApp.CleanNumberAccepted | client/src/lib/whatsapp.ts:117 | Any clean number of at least nine characters is accepted when it starts with '+' or has at least ten |
| WhatsApp.IsoTime | client/src/lib/whatsapp.ts:30 | `HH:MM` whose numbers are the UTC hour and minute of the pickup timestamp, given the application zone's offset from UTC |
| WhatsApp.TotalText | client/src/lib/whatsapp.ts:50-64 | "Por confirmar" exactly when the total is 0 |
| WhatsApp.TotalTextInjective | client/src/lib/whatsapp.ts:50 | Different totals get different texts, so the message never shows one total as another |
| WhatsApp.OrderQuantityText | client/src/lib/whatsapp.ts:33-36 | The quantity text ends in the plural exactly when the quantity is not 1 |
| WhatsApp.Compose | client/src/lib/whatsapp.ts:41-78 | The message kind follows the requested type; it carries the customer, quantity text, date and time, and the confirmation carries the total and details only when there are details |
| WhatsApp.TakeUntil | client/src/lib/whatsapp.ts:84 | The longest prefix without the separator |
| WhatsApp.GenerateWhatsAppMessage | client/src/lib/whatsapp.ts:10-87 | The URL starts with the wa.me prefix, the cleaned target phone is what comes before '?', and the encoded message ends it |
| WhatsApp.UrlParts | client/src/lib/whatsapp.ts:84 | The phone and the text can be read back from the URL |
| QuantitySelector.AllQuantities | client/src/components/ui/quantity-selector.tsx:39 | Twenty strictly increasing entries |
| QuantitySelector.AllQuantitiesAreTheHalves | client/src/components/ui/quantity-selector.tsx:38-39 | The drop-down holds exactly the half steps from 0.5 to 10 |
| QuantitySelector.PresetsAreOffered | client/src/components/ui/quantity-selector.tsx:24-39 | Every preset is in the drop-down |
| QuantitySelector.ManualQuantity | client/src/components/ui/quantity-selector.tsx:78-85 | Accepted exactly for a number within [min, max], snapped to the nearest step multiple within half a step |
| QuantitySelector.ManualQuantityWithinBounds | client/src/components/ui/quantity-selector.tsx:31-83 | With bounds on the step grid (the defaults 0.5, 50, 0.5) the snapped value stays within the bounds |
| QuantitySelector.FormatQuantityText | client/src/components/ui/quantity-selector.tsx:92-96 | "Medio pollo" for 0.5, otherwise the order-form text |
| QuantitySelector.FormatQuantityTextInjective | client/src/components/ui/quantity-selector.tsx:92-96 | Every drop-down entry has its own label |
| QuantitySelector.Selector.constructor | client/src/components/ui/quantity-selector.tsx:42-53 | Adopts the given value without reporting, or selects and reports one chicken; the manual flag matches the presets |
| QuantitySelector.Selector.ValueChanged | client/src/components/ui/quantity-selector.tsx:56-61 | A defined value is adopted without reporting; the flag stays consistent |
| QuantitySelector.Selector.PresetClicked | client/src/components/ui/quantity-selector.tsx:63-67 | Selects and reports the preset and clears the manual flag |
| QuantitySelector.Selector.SelectorChanged | client/src/components/ui/quantity-selector.tsx:69-74 | Selects and reports the entry, flag set from the presets |
| QuantitySelector.Selector.ManualChanged | client/src/components/ui/quantity-selector.tsx:76-90 | An accepted entry is selected and reported; an empty input selects 0 silently; anything else changes nothing; the flag is untouched |
| TimeSelector.PresetTimesSpellTheirMinutes | client/src/components/ui/time-selector.tsx:14 | Each preset is `HH:MM` naming 13:00, 13:30, 14:00 and 14:30 |
| TimeSelector.SuggestedSlot | client/src/components/ui/time-selector.tsx:17-38 | The hour/minute branches pick the first preset before 12:45, the second before 13:10, the third before 13:40, the last afterwards |
| TimeSelector.SuggestedTime | client/src/components/ui/time-selector.tsx:17-38 | The suggestion is always one of the presets |
| TimeSelector.SuggestionMonotone | client/src/components/ui/time-selector.tsx:22-37 | A later time never suggests an earlier preset |
| TimeSelector.SuggestionLeavesTime | client/src/components/ui/time-selector.tsx:22-37 | Before 14:15 the suggestion is at least 15 minutes ahead |
| TimeSelector.Picker.constructor | client/src/components/ui/time-selector.tsx:43-52 | Without a value the suggestion is selected and reported; with one it is adopted silently |
| TimeSelector.Picker.ValueChanged | client/src/components/ui/time-selector.tsx:55-59 | A non-empty value is adopted without reporting |
| TimeSelector.Picker.Pick | client/src/components/ui/time-selector.tsx:61-70 | A preset click or an edit selects the time and reports it |
| BusinessHoursDisplay.OrderedHours | client/src/components/business-hours-display.tsx:17-22 | The same rows, Monday first and Sunday last |
| BusinessHoursDisplay.DayName | client/src/components/business-hours-display.tsx:29-43 | A name exactly for day numbers 0 to 7, always one of the seven names |
| BusinessHoursDisplay.DayNameFollowsSortKey | client/src/components/business-hours-display.tsx:5-29 | The name of a day is the one at its place in the Monday-first week; 0 is "Domingo", 1 "Lunes" |
| BusinessHoursDisplay.DayNamesDiffer | client/src/components/business-hours-display.tsx:5-29 | Different days get different names |
| BusinessHoursDisplay.HoursText | client/src/components/business-hours-display.tsx:30-48 | "Cerrado" exactly for a closed day; otherwise the open and close times around " - " |
| BusinessHoursDisplay.Display | client/src/components/business-hours-display.tsx:14-56 | Nothing without hours; otherwise one row per entry in weekday order |
| BusinessHoursDisplay.WholeWeekInOrder | client/src/components/business-hours-display.tsx:5-29 | A week with each day once is shown "Lunes" to "Domingo" in order |
| FeaturedMenus.FeaturedList | client/src/pages/admin/featured-menus.tsx:33-42 | Exactly the featured menus, as a permutation of the filtered list, ordered by their order with a missing order as 0 |
| FeaturedMenus.FeaturedTiesKeepLoadOrder | client/src/pages/admin/featured-menus.tsx:36-38 | Featured menus with equal order are shown in the order they were loaded |
| Sorting.SortByStable | client/src/pages/admin/featured-menus.tsx:38 | For every value, the elements tied with it under the comparator keep their input order in the sorted output |
| FeaturedMenus.Move | client/src/pages/admin/featured-menus.tsx:85-87 | The moved list has the same elements, the dragged one at the destination (or last) and the others in their order |
| FeaturedMenus.MoveBack | client/src/pages/admin/featured-menus.tsx:85-87 | Dragging back to the source restores the list |
| FeaturedMenus.Renumber | client/src/pages/admin/featured-menus.tsx:93-99 | One update per menu, featured, with its position as order |
| FeaturedMenus.Applied | server/routes/menuRoutes.ts:49-51 | The server stores the flag and the order of each update, 0 for a missing order |
| FeaturedMenus.ReorderSurvivesReload | client/src/pages/admin/featured-menus.tsx:36-38 | After the renumbering is stored, a reload that returns those menus in any order, with any unfeatured ones, shows them in the dragged order (also lines 93-99, server/routes/menuRoutes.ts:49-51) |
| FeaturedMenus.FeaturedChange | client/src/pages/admin/featured-menus.tsx:73-78 | Featuring sends the current count as order; unfeaturing sends none |
| FeaturedMenus.NewlyFeaturedShowsLast | client/src/pages/admin/featured-menus.tsx:36-77 | A menu featured after a reorder shows last |
| FeaturedMenus.Page.MenusLoaded | client/src/pages/admin/featured-menus.tsx:33-42 | Loaded menus replace the list with the featured list; nothing is sent |
| FeaturedMenus.Page.HandleFeaturedChange | client/src/pages/admin/featured-menus.tsx:73-78 | One update sent; the list unchanged |
| FeaturedMenus.Page.HandleDragEnd | client/src/pages/admin/featured-menus.tsx:82-100 | No destination changes nothing; otherwise the list is moved and every menu is sent with its new position, in order |
| FeaturedMenus.Page.SendPositions | client/src/pages/admin/featured-menus.tsx:93-99 | Each item is sent in list order, featured, with its position as its order; the list is unchanged |
| DataTable.FormatValueAsWritten | client/src/components/ui/data-table.tsx:24-30 | "NULL" for null, JSON for every object (dates included), booleans as text, `String` otherwise |
| DataTable.DateShownAsJson | client/src/components/ui/data-table.tsx:26-28 | As written, a date cell is its quoted ISO text |
| DataTable.DateBranchNeverTaken | client/src/components/ui/data-table.tsx:26-28 | A concrete date whose local text differs from what the cell shows |
| DataTable.FormatValue | client/src/components/ui/data-table.tsx:24-30 | "NULL" for null, the local text of a date, and as written for every other value |
| DataTable.Table | client/src/components/ui/data-table.tsx:17-50 | No table exactly for missing or empty data; columns are the first row's keys; one formatted cell per row and column |
| DataTable.MissingKeyShowsUndefined | client/src/components/ui/data-table.tsx:22-47 | A row lacking a first-row key shows "undefined" |
| DataTable.RangeCountsThePage | client/src/components/ui/data-table.tsx:57-59 | For a page with rows the range starts after the skipped rows and counts exactly the page's rows (also server/routes.ts:1214, server/routes.ts:1248) |
| DataTable.ButtonsStayOnPages | client/src/components/ui/data-table.tsx:65-79 | Both buttons stay in range; one is disabled exactly when it would not move; enabled ones move by one page |

## Left out

- StockRoutes.AddStock: the quantity is a number. A body without a numeric `quantity` makes `Math.abs(parseFloat(quantity))` NaN (server/routes/stockRoutes.ts:56), and the program then passes NaN on to the stock update; NaN is not modelled.
- StockRoutes.RemoveStock: the quantity is a number, for the same reason as in `AddStock`: `Math.abs(parseFloat(quantity))` is NaN for a body without a numeric `quantity` (server/routes/stockRoutes.ts:82).
- AuthRoutes.AuthServer.Login: takes an already parsed username and password. When `loginSchema.parse` rejects the body, the program answers 400 "Datos de entrada inválidos" with the zod errors (server/routes/authRoutes.ts:62-68); that path is not modelled.
- AuthRoutes.AuthServer.CreateUser: takes already parsed fields. When `insertUserSchema.parse` rejects the body, the program answers 400 "Datos de entrada inválidos" (server/routes/authRoutes.ts:226-231); that path is not modelled.
- OrderRoutes.OrderBook.Create: takes an already parsed order. When `insertOrderSchema.parse` rejects the body, the catch answers 500 "Error al crear el pedido" and nothing is stored (server/routes/orderRoutes.ts:21-23, 40-42); that path is not modelled.
- OrderForm.ErrorDescription: lengths count Unicode scalar values. JavaScript's `length` and `substring` count UTF-16 code units, so a message holding characters outside the Basic Multilingual Plane is cut at a different place.
- Database and network I/O are not modelled. The SQL and drizzle storage layer, the Flask API, the prediction proxy route and the client's fetch and query-cache plumbing all fall outside the model. Stored rows are class fields, and what a query returns is a parameter.
- The fitted Prophet model and the fitted random forest and scaler are library objects. A forecaster is seen only through the values it returns. Training metrics, `train_test_split`, joblib persistence (beyond "both files exist") and every matplotlib plot, including `feature_importance`'s figure, are left out; the Prophet wrapper is not part of this model.
- The JSON files the forecasting service writes are not modelled.
- bcrypt hashing and comparison are function parameters.
- `new Date()`, `datetime.now()` and the browser's clock are parameters.
- Regular-expression matching is not modelled. For each pattern, what its match captured is an input, in pattern order. So the shadowing of one pattern by an earlier one is modelled only as far as the captures given.
- Floating point is exact reals. IEEE rounding, the JavaScript text of numbers other than half steps, and `toFixed(2)` beyond two-decimal amounts are not modelled. NaN is `None`.
- `toLocaleDateString`, `toLocaleString`, `encodeURIComponent` and the exact Spanish wording of the WhatsApp message are inputs. The time zone database is not modelled: the application zone's offset from UTC at the pick-up time is a parameter of `WhatsApp.IsoTime`.
- WhatsApp.GenerateWhatsAppMessage: the `default` branch of the message-type switch is not modelled. The parameter's type admits only the three kinds that have their own case.
- The zod validation that `form.handleSubmit` runs before `onSubmit` (the form schemas of the order and settings forms) is not modelled. Styling variants (the compact and card opening-hours panels), toasts and dialogs are presentation and are not modelled either.
- The festeros listing route only filters users by role and strips passwords. Password stripping is stated by `AuthRoutes.Strip`; the route itself is not modelled.
- FeaturedMenus.Page.HandleDragEnd requires a source index inside the list, which the drag library guarantees. The PATCH requests it sends are recorded, but their replies and failures are not modelled.
- QuantitySelector.Selector.ManualChanged models `handleManualQuantityChange` (client/src/components/ui/quantity-selector.tsx:76-90) as written, but no element of the component calls that handler. The state it can leave behind, with the manual flag out of step with the selection, is one that `ValueChanged`'s precondition does not cover.
- QuantitySelector.ManualQuantity requires a positive step. The component is always given 0.5.
- StockLevelsView: the basic dashboard page shares the model of the full page for its sort, timeline, usage rate, average and days until empty.
- The server's other handlers (PDF invoices, mail, uploads, backups, cron, speech transcription, seeding) are not part of this model.
- OrderRoutes: the responses' bodies beyond the status and the stored order are not modelled.
- DataProcessor.CalculateDailyUsage: with no sell or remove rows the source fails while building an empty date range. The model returns an error value instead of raising.
- StockMiddleware.StockLedger.Commit: the storage layer is not part of this model, and its `getCurrentStock` (server/storage.ts:206-219) inserts an all-zero row for today instead of returning nothing. So in the program the stock lookup never comes back empty, and the model's `NoStockFound` branch, kept from the middleware's own check, cannot be reached there.
- StockMiddleware.StockLedger.Perform: `updateStock` in the storage layer (server/storage.ts:264-271) writes a history row of its own on every change (action "update", the change of current stock as quantity, author "system") before the middleware writes its entry. The model's history holds only the middleware's entry, so it does not promise the second row; the same holds for every route whose history it states.
- StockLevelsView.MostActive: on an empty list the source's `reduce`, seeded with `weeklyData[0]`, returns `undefined`, and the following `.dia` read throws. The model returns `None` there.
- OrdersOverview.CustomerRanking: ties keep the first-appearance order of the names. `Object.entries` lists integer-like keys (a customer named "123") first, in ascending numeric order; the model does not capture that.
- PredictionService.Service.TrainModels: fitting on a one-day series raises in the source; the model returns `TooFewDays` instead. The time-series wrapper assigns its new, unfitted model before the fit raises; the model leaves the forecaster as it was.
- PredictionService.Service.PredictStockUsage: a forecaster that must be trained on a one-day series raises in the source; the model returns `TooFewDays`. The regression forecast is computed but reaches the report only as a plot, which is left out, so the model's report does not hold it.
- PredictionService.Service.PredictStockUsage: its regression forecast runs the corrected fixed-column encoding of the Findings table. As written, `scaler.transform` (ai_prediction/models/ml_predictor.py:157) raises ValueError whenever the prediction window's one-hot columns differ from the training ones, which `MLPredictor.TrainingColumnsNeverFitPrediction` shows is almost always, and `predict_stock_usage` then raises at ai_prediction/prediction_service.py:125. The model reports success there.
- PredictionService.Service.PredictStockUsage: the `EmptyForecast` error stands for the IndexError that `iloc[0]` would raise on an empty forecast (ai_prediction/prediction_service.py:143). The Prophet forecast includes the history rows, so in the program it is never empty.
- MLPredictor.PrepareFeatures: encodes every date with the fixed column set, the corrected encoding of the Findings table. As written, `_prepare_features` runs `get_dummies` on each window on its own; `ObservedColumns` states those columns.
- MLPredictor.Forecast: forecasts from the fixed-column rows. As written, `scaler.transform` raises ValueError at ai_prediction/models/ml_predictor.py:157 when the window's own columns differ from the training ones, and also on an empty window (no dates), which the model forecasts as no rows.
- MLPredictor.Predictor.Predict: returns the fixed-column forecast whenever a model exists. As written it raises ValueError in `scaler.transform` (ai_prediction/models/ml_predictor.py:157) on mismatched columns or an empty window. The model keeps no record of the columns the scaler was fitted on.
- MLPredictor.TopIndices: the model's sort is stable, so equal importances keep their index order. `np.argsort` uses its default unstable sort, so among equal importances the source may show other indices of the same importance.
- DataTable.Table: cells use the corrected formatter `DataTable.FormatValue` of the Findings table. As written, a `Date` cell shows its quoted ISO text (`DataTable.DateShownAsJson`); rows parsed from the API's JSON hold strings, not `Date` objects, so the difference shows only for dates built on the client.
- RouteHelpers.GetSetting: `getSetting` reads the first row its query returns, and the query has no ORDER BY; the model reads the first row in table order. The settings table's schema is not part of this model, so a uniqueness constraint on the key, under which the initializer's second insert for a key would fail, is not modelled.

## Findings

| source | as written | input that shows it | evidently intended | confidence | as-written member | corrected member |
|---|---|---|---|---|---|---|
| ai_prediction/models/ml_predictor.py:62 | `pd.get_dummies(..., drop_first=True)` is applied to each window on its own. The one-hot columns therefore depend on which weekdays, months and quarters occur in that window. | Train on 63 or more consecutive days, as a 90-day history gives, then predict up to 30 days from any date that is not the last of its month. The training series covers three months and so has at least two month columns; the prediction window lies within two months and has at most one. The scaler then rejects the prediction matrix. | One fixed column set for every category value except the baseline, so training and prediction rows agree | not executed | MLPredictor.TrainingColumnsNeverFitPrediction | MLPredictor.FixedColumnsAgree |
| client/src/components/ui/data-table.tsx:26-28 | The `typeof value === 'object'` test comes before the `instanceof Date` test, so the date branch is never taken. | A `Date` for 2026-10-15T11:30:00.000Z is shown as `"2026-10-15T11:30:00.000Z"`, quotes included, not as its local text | A date shows its `toLocaleString()` text | not executed | DataTable.DateBranchNeverTaken | DataTable.FormatValue |
