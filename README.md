# SaveBite screen logic in Dafny

SaveBite is a React Native app for tracking food before it expires. Users list their foods
and see how many days each one has left. They pick ingredients to have a recipe or a fertilizer
generated, keep a history of the generated texts, and get a local reminder the day before
a food expires. Administrators get a dashboard with login statistics and food categories. They
also get food and recipe lists they can filter and search, a user list where a super admin
changes roles, and a log of logins.

This project models the decision logic of those screens and of the notification service.
That covers the role gates and token guards, how server payloads are unwrapped and normalised,
the expiry arithmetic, grouping and filtering, the form rules, the selection state, and the
home screen's title machine. It proves what each of these promises.

Conventions used throughout:

- A server payload is a `JsValue.Value` (parsed JSON plus `undefined`).
- A request's outcome is an `Http.Reply`: the axios response, or the error a `catch` block sees.
- A stored session item is an `Option<string>`.
- Instants are integer milliseconds since the epoch. The device's local time is a fixed offset
  from UTC.
- `new Date(text)` is an abstract `parse` parameter, where None stands for an Invalid Date.
  Locale formatting is an abstract `format` parameter.
- An expression that would throw a TypeError (reading a property of `null`, calling `.map`
  on a non-array, calling `.replace` on a non-string) is modelled as None. Where the code
  sits in a `try`, the screen's `catch` block then handles it. The two filters that run
  outside any `try` (`filterFoods` in the food list and `handleSearch` in the recipe list)
  report the uncaught error in an `uncaught` result instead.

Component state becomes a class whose fields are the `useState` variables. Each handler
becomes a method specified against the pure function that states its effect.

Modules:

- `JsText`, `JsArray` and `JsValue` model the JavaScript built-ins the screens rely on: `trim`,
  `split(/\s+/)`, `includes`, `replace`, `filter`, `map`, `find`, `join`, truthiness, `||` and
  property access.
- `AiText` models the `#`/`*` stripping of generated text.
- `Http`, `Session`, `Clock` and `FormRules` hold what several screens share.
- Each remaining module is one screen or service.

## Model

| member | source | states |
|---|---|---|
| FoodsScreen.CeilDiv | app/screens/FoodsScreen.tsx:51 | `Math.ceil(a / d)`: the least q with a <= q·d |
| FoodsScreen.DaysUntil | app/screens/FoodsScreen.tsx:51 | the whole days left, rounded up; negative iff a full day or more has passed, at most 3 iff at most three days remain |
| FoodsScreen.GetExpiryStatus | app/screens/FoodsScreen.tsx:48-71 | expired exactly when the ceiling day count is < 0, warning exactly when it is 0..3, fresh otherwise; messages "Kadaluwarsa", "Segera kadaluwarsa (N hari)", "N hari lagi" with their colours; an Invalid Date falls through every comparison to fresh "NaN hari lagi" |
| FoodsScreen.ExpiryThresholds | app/screens/FoodsScreen.tsx:51-59 | the same three statuses stated in milliseconds: expired iff the expiry is at least a day past, warning iff less than a day past up to three days ahead, fresh iff further ahead |
| FoodsScreen.MessageCarriesDayCount | app/screens/FoodsScreen.tsx:62-68 | the number in a warning or fresh message reads back as the day count |
| FoodsScreen.GroupFoodsByStatus | app/screens/FoodsScreen.tsx:264-290 | the loop's three arrays are exactly the foods of each status, in list order |
| FoodsScreen.InBucketMembers | app/screens/FoodsScreen.tsx:270-286 | a food is in a status's bucket iff it is in the list and has that status |
| FoodsScreen.GroupingIsPartition | app/screens/FoodsScreen.tsx:264-290 | the three buckets together hold every food as often as the list does, and their sizes sum to its length |
| FoodsScreen.EachFoodInItsBucket | app/screens/FoodsScreen.tsx:270-286 | a food is in the bucket of its status and in no other; a food with no or an empty expiry date is in fresh |
| FoodsScreen.Toggled | app/screens/FoodsScreen.tsx:151-155 | a selected id is removed everywhere and nothing else changes membership; an unselected id is appended |
| FoodsScreen.ToggleTwiceKeepsIds | app/screens/FoodsScreen.tsx:151-155 | toggling the same id twice restores the set of selected ids |
| FoodsScreen.StoredQuantity | app/screens/FoodsScreen.tsx:192-195 | `selectedQuantities[id] or 1`: the stored quantity, or 1 when missing or 0 |
| FoodsScreen.ChangedQuantity | app/screens/FoodsScreen.tsx:175 | the clamped quantity `max(1, min(cur + change, limit))` in every case: the requested quantity when it is in range, the stock when it is above a positive stock, and 1 when it is below 1 or there is no stock |
| FoodsScreen.FindFood | app/screens/FoodsScreen.tsx:170 | `foods.find`: none iff no food has the id, otherwise a listed food with that id |
| FoodsScreen.QuantitiesAfterChange | app/screens/FoodsScreen.tsx:169-181 | an unknown food changes nothing; otherwise only its entry changes, to the clamped value |
| FoodsScreen.BuildIngredients | app/screens/FoodsScreen.tsx:192-195 | one entry per selected id, in order, carrying its stored quantity, each at least 1 when every stored quantity is |
| FoodsScreen.FoodSelection.constructor | app/screens/FoodsScreen.tsx:89-96 | nothing selected, no quantities |
| FoodsScreen.FoodSelection.ToggleSelection | app/screens/FoodsScreen.tsx:151-167 | the selection is toggled and a newly selected food gets quantity 1; every quantity stays at least 1 |
| FoodsScreen.FoodSelection.ChangeQuantity | app/screens/FoodsScreen.tsx:169-181 | the quantity map becomes the one after the change; the selection stays, and every quantity stays at least 1 |
| FoodsScreen.FoodSelection.Ingredients | app/screens/FoodsScreen.tsx:192-195 | the request body of the current selection, every quantity at least 1 |
| FoodsScreen.HandleGeneration | app/screens/FoodsScreen.tsx:208-217 | the text is shown, stripped of '#' and '*', exactly when the reply's recipe/fertilizer field is a non-empty string; otherwise "Format resep/pupuk tidak valid", or the server's error or the default on failure; the fertilizer handler at lines 248-257 is the same with its own messages |
| FoodsScreen.Generate | app/screens/FoodsScreen.tsx:183-195 | an empty selection stops with a warning before any request; otherwise the request carries the built ingredients; `generateFertilizer` (lines 223-235) is identical |
| NotificationService.FireTime | services/NotificationService.ts:17-20 | the fire time is 09:00:00 local time on the day before the expiry's local day, keeping the expiry's milliseconds |
| NotificationService.FireTimeBeforeExpiry | services/NotificationService.ts:17-20 | so it lies between 15 and 39 hours before the expiry |
| NotificationService.InvalidDatePassesGuard | services/NotificationService.ts:16-22 | as written, an unparseable expiry date is not skipped by the guard |
| NotificationService.GuardCorrection | services/NotificationService.ts:22 | the corrected guard agrees with the written one on valid dates, skips invalid ones, and lets only future fire times through |
| NotificationService.ReminderFor | services/NotificationService.ts:24-33 | title "⏰ Reminder Makanan", body "`<name>` akan kadaluarsa besok!", fire time 15–39 hours before the expiry |
| NotificationService.Reminders | services/NotificationService.ts:38-44 | at most one reminder per food |
| NotificationService.RemindersFollowFiring | services/NotificationService.ts:38-44 | exactly one reminder per food that fires, the i-th being the reminder of the i-th firing food |
| NotificationService.RemindersSnoc | services/NotificationService.ts:41-43 | one more food adds its reminder at the end if it fires and nothing otherwise |
| NotificationService.RemindersAreInTheFuture | services/NotificationService.ts:22 | every scheduled reminder fires after now |
| NotificationService.RequestNotificationPermission | services/NotificationService.ts:5-13 | permission is requested iff not yet granted; the refusal alert shows iff it was requested and not granted |
| NotificationService.Scheduler.ScheduleFoodReminder | services/NotificationService.ts:16-35 | the schedule gains the food's reminder when it fires, and nothing otherwise |
| NotificationService.Scheduler.ScheduleAllReminders | services/NotificationService.ts:38-44 | the loop appends exactly the reminders of the firing foods, in order, with no de-duplication |
| NotificationService.Scheduler.CancelAllReminders | services/NotificationService.ts:47-49 | nothing stays scheduled |
| NotificationService.CancelThenScheduleIsRepeatable | services/NotificationService.ts:38-49 | not a routine of the service but a client of its two methods: cancel then schedule-all, done twice with the same foods and clock, leaves the reminders that doing it once leaves |
| NotificationService.RequestFor | services/NotificationService.ts:17-33 | the request carries the reminder's title and body; its trigger is absent exactly when the expiry date does not parse, and otherwise is the 09:00 fire time |
| NotificationService.SubmitsAsWritten | services/NotificationService.ts:22 | as written, a food reaches the platform iff its date does not parse or its fire time is after now |
| NotificationService.RunAsWritten | services/NotificationService.ts:38-44 | as written, the run holds at most one request per food, only requests the platform accepted, each with the reminder title, and every valid trigger in it lies after now |
| NotificationService.RunSnoc | services/NotificationService.ts:40-43 | as written, one more food leaves a stopped run as it is, skips a food the guard stops, and otherwise adds the accepted request or stops the run |
| NotificationService.RejectionEndsTheRun | services/NotificationService.ts:40-43 | as written, once the platform rejects a request no later food is submitted |
| NotificationService.InvalidDateIsSubmitted | services/NotificationService.ts:17-24 | as written, a food with an unparseable date passes the guard and its request with an Invalid Date trigger goes to the platform |
| NotificationService.WrittenAgreesOnValidDates | services/NotificationService.ts:16-44 | where every date parses and the platform takes every request, the loop as written submits exactly the corrected model's reminders, in order, without stopping |
| NotificationService.SchedulerAsWritten.ScheduleFoodReminder | services/NotificationService.ts:16-35 | as written, the request is submitted iff the written guard lets it through; it is added iff the platform accepts it, and a rejection is reported |
| NotificationService.SchedulerAsWritten.ScheduleAllReminders | services/NotificationService.ts:38-44 | as written, the loop adds the accepted requests of the run in order and ends at the first rejection |
| FoodManagement.CheckAccess | app/screens/FoodManagement.tsx:54-62 | access iff the role is super_admin or admin_inventori |
| FoodManagement.ToAdminFood | app/screens/FoodManagement.tsx:96-103 | id, name, quantity, expiryDate, user and category map to food_id, food_name, quantity, expiry_date, username and category_name; a null entry throws; a scalar or array entry gives a row of undefined fields |
| FoodManagement.FetchFoods | app/screens/FoodManagement.tsx:78-113 | the payload array, else `.foods`, else `.data`, mapped record by record; a non-array or a null record fails with the server's error or "Gagal mengambil data makanan" |
| FoodManagement.FetchFoodsAcceptsEnvelopes | app/screens/FoodManagement.tsx:85-94 | a bare array, `{foods}` and `{data}` all load the same list |
| FoodManagement.ByUsername | app/screens/FoodManagement.tsx:120-124 | a case-insensitive substring filter on username, order kept, every copy of a passing food kept and none of a failing one; a non-string username throws |
| FoodManagement.ByCategory | app/screens/FoodManagement.tsx:127-131 | an exact category filter, order kept, every copy of a matching food kept and none of another; an empty category keeps everything |
| FoodManagement.FilterFoods | app/screens/FoodManagement.tsx:116-134 | a subsequence of the foods holding each food that passes both filters as many times as the list does, and nothing else; empty search and category keep the whole list |
| FoodManagement.UsernameTest | app/screens/FoodManagement.tsx:122 | throws iff the username is not a string; otherwise true iff the lower-cased search occurs in the lower-cased username |
| FoodManagement.CategoryMatches | app/screens/FoodManagement.tsx:129 | strict equality: only a string category name equal to the chosen one matches |
| FoodManagement.FormatDate | app/screens/FoodManagement.tsx:136-152 | an unparseable date gives "Tanggal tidak valid", a valid one its formatted text |
| FoodManagement.FoodList.Refilter | app/screens/FoodManagement.tsx:116-134 | the filtered list becomes the filter of the foods; when the filter throws, the uncaught error is reported and the list stays as it was |
| FoodManagement.FoodList.ApplyLoad | app/screens/FoodManagement.tsx:105-110 | on success the foods become the loaded ones and the shown list their refiltering by the current search and category (the loaded list itself if the filter throws, with the uncaught error reported); on failure nothing changes |
| FoodManagement.FoodList.SetSearchUsername | app/screens/FoodManagement.tsx:50-52 | the search text is stored and the shown list refiltered, or left as it was with the uncaught error reported when the filter throws |
| FoodManagement.FoodList.SetSelectedCategory | app/screens/FoodManagement.tsx:50-52 | the category is stored and the shown list refiltered, or left as it was with the uncaught error reported when the filter throws |
| AdminHome.LoadUserData | app/screens/AdminHome.tsx:45-61 | the dashboard loads iff both a role and a username are stored; otherwise the app resets to Login |
| AdminHome.FetchStats | app/screens/AdminHome.tsx:70-124 | totalUsers is the users array's length or 0; todayLogins counts successful logs with a timestamp on today's local day; failedLogins counts status 'failed'; a failed request gives "Gagal memuat statistik. Silakan coba lagi." |
| AdminHome.IsTodaySuccess | app/screens/AdminHome.tsx:90-102 | a log counts iff it is an object with a truthy timestamp that parses to an instant between today's local midnight and the next, and the status "success" |
| AdminHome.IsFailed | app/screens/AdminHome.tsx:104 | throws iff the log is null or undefined; true iff it is an object whose status is "failed" |
| AdminHome.CountsFitInLog | app/screens/AdminHome.tsx:90-104 | todayLogins + failedLogins never exceeds the number of logs |
| AdminHome.UntimedLogsNeverCount | app/screens/AdminHome.tsx:92 | a log without a timestamp is never counted as today's login |
| AdminHome.NonArrayLogsCountNothing | app/screens/AdminHome.tsx:88 | a non-array logs payload is an empty log |
| AdminHome.ToCategory | app/screens/AdminHome.tsx:147-150 | id is `id or category_id`, name is `name or category_name`; a null entry throws; a scalar or array entry gives a category with undefined id and name |
| AdminHome.FetchCategories | app/screens/AdminHome.tsx:126-163 | the payload array, else `.categories`, else `.data`, mapped; failures give the server's error or "Gagal mengambil data kategori" |
| AdminHome.CategoryFallbackNames | app/screens/AdminHome.tsx:147-150 | both field spellings the server may use give the same category |
| AdminHome.HandleAddCategory | app/screens/AdminHome.tsx:165-203 | a whitespace-only name is refused before any request; any other name is sent untrimmed; success needs a truthy `message` in the reply; failures give the server's error or "Gagal menambahkan kategori" |
| AdminHome.Dashboard.ApplyStats | app/screens/AdminHome.tsx:112-123 | the stats become the computed ones, and stay on failure |
| AdminHome.Dashboard.ApplyCategories | app/screens/AdminHome.tsx:152-162 | the categories become the loaded ones, and stay on failure |
| AdminHome.Dashboard.SubmitCategory | app/screens/AdminHome.tsx:165-203 | the input clears exactly when the category was added |
| UserListScreen.RolesOffered | app/screens/UserListScreen.tsx:31-36 | the roles offered are exactly admin_inventori, admin_resep, admin_user and user; super_admin is never offered |
| Session.UserAdminAccess | app/screens/UserListScreen.tsx:46-53 | access iff the role is super_admin or admin_user; `LoginLogsScreen.tsx` lines 124-131 repeat the same check |
| UserListScreen.HandleDeleteUser | app/screens/UserListScreen.tsx:95-101 | only a super admin reaches the confirmation |
| UserListScreen.FindUser | app/screens/UserListScreen.tsx:149 | `users.find` by id: absent iff no user has the id, otherwise the first user with it |
| UserListScreen.IsSelf | app/screens/UserListScreen.tsx:140-143 | true iff a non-empty stored id parses to the target's id; an absent or empty stored id is never the target |
| UserListScreen.OwnRoleRefused | app/screens/UserListScreen.tsx:140-146 | a super administrator whose non-empty stored id parses to the target's id is always refused with the own-role message |
| UserListScreen.TargetIsSuper | app/screens/UserListScreen.tsx:149-150 | true iff the first user with the id is a super administrator |
| UserListScreen.HandlePromoteUser | app/screens/UserListScreen.tsx:133-157 | refused, in this order, for a non super admin, for the actor's own id, for a super admin target; otherwise the modal opens with that user |
| UserListScreen.SuperAdminsAreNeverPromoted | app/screens/UserListScreen.tsx:149-154 | no actor can open the modal for a listed super admin |
| UserListScreen.RoleChangeOutcome | app/screens/UserListScreen.tsx:175-184 | success iff the request succeeded; a 403 is reported as forbidden; other failures give the server's error or "Gagal mengubah role user" |
| UserListScreen.RoleModal.Promote | app/screens/UserListScreen.tsx:133-157 | the modal opens with the user exactly when the promotion is allowed, and is untouched otherwise |
| UserListScreen.RoleModal.RoleSelect | app/screens/UserListScreen.tsx:159-189 | with no selected user nothing happens; otherwise the request names the user and role, and the modal closes and the selection clears whatever the outcome |
| LoginScreen.ValidateLogin | app/screens/LoginScreen.tsx:126-145 | no error iff both username and password are filled |
| LoginScreen.ValidLoginResponse | app/screens/LoginScreen.tsx:54 | accepted iff the payload is an object with a truthy token and a truthy role; the guard never throws |
| LoginScreen.MakeRequest | app/screens/LoginScreen.tsx:39-40 | username and password are sent trimmed |
| LoginScreen.RouteFor | app/screens/LoginScreen.tsx:66-79 | super_admin, admin_inventori, admin_resep and admin_user go to AdminHome, every other role to Home |
| LoginScreen.LoginErrorMessage | app/screens/LoginScreen.tsx:86-96 | ECONNABORTED text, then ERR_NETWORK text, then the server `error`, then `error.message`, then "Username atau password salah." |
| LoginScreen.SubmitLogin | app/screens/LoginScreen.tsx:37-99 | a login succeeds iff the reply has a token and a role; a reply without them fails with "Invalid response format: missing token or role" |
| LoginScreen.Store.OnSubmit | app/screens/LoginScreen.tsx:54-84 | on success the token, role and username are stored; on any failure those three keys are removed |
| LoginScreen.Store.FailureLeavesNoSession | app/screens/LoginScreen.tsx:84 | after a failed login no session key is left |
| RegisterScreen.IsValidEmail | app/screens/RegisterScreen.tsx:117 | true iff the text matches `^[a-zA-Z0-9._-]+@[a-zA-Z0-9.-]+\.[a-zA-Z]{2,4}$` |
| RegisterScreen.EmailShape | app/screens/RegisterScreen.tsx:117 | a valid email has exactly one '@' with a non-empty part before it, and ends in '.' and 2–4 letters |
| RegisterScreen.ComposedEmailAccepted | app/screens/RegisterScreen.tsx:117 | every non-empty local part and domain of the allowed characters followed by a dot and 2 to 4 letters is accepted, dots in the domain included |
| RegisterScreen.EmailRefused | app/screens/RegisterScreen.tsx:117 | an address ending in a five-letter top-level domain is refused |
| RegisterScreen.EmailError | app/screens/RegisterScreen.tsx:115-120 | "Email is required" when empty, "Invalid email format" when it does not match, nothing otherwise |
| RegisterScreen.UsernameError | app/screens/RegisterScreen.tsx:99 | no error iff a username is filled in, otherwise "Username is required" |
| RegisterScreen.PasswordError | app/screens/RegisterScreen.tsx:137-141 | "Password is required" when empty, the minimum-length message under 8 UTF-16 units, nothing otherwise |
| RegisterScreen.ShortPasswordRefused | app/screens/RegisterScreen.tsx:138-141 | a password of fewer than 4 characters is refused whatever those characters are |
| RegisterScreen.ValidateRegistration | app/screens/RegisterScreen.tsx:99-141 | no error iff username, email and password all pass their rules |
| RegisterScreen.RegistrationPayload | app/screens/RegisterScreen.tsx:51-56 | the payload carries the typed fields and always the role 'user' |
| RegisterScreen.HandleRegistration | app/screens/RegisterScreen.tsx:61-68 | success iff the request succeeded; otherwise the server's error or "Registration failed. Please try again." |
| RecipeManagement.CheckAdminAccess | app/screens/RecipeManagement.tsx:34-48 | access iff the role is super_admin or admin_inventori |
| RecipeManagement.RecipeList | app/screens/RecipeManagement.tsx:60-65 | the payload when it is an array, else a truthy `.recipes`, else the payload itself (an object without a truthy `.recipes`, or a scalar); a null or undefined payload throws |
| RecipeManagement.FetchRecipes | app/screens/RecipeManagement.tsx:50-81 | loads exactly when the list is an array of records with string recipes, each cleaned of '#' and '*'; otherwise "Failed to load recipes" |
| RecipeManagement.SearchRecipes | app/screens/RecipeManagement.tsx:83-93 | a blank search restores the full list; otherwise the subsequence whose createdBy contains the untrimmed text, case-insensitively, each match kept as many times as the list holds it |
| RecipeManagement.CreatorTest | app/screens/RecipeManagement.tsx:89 | throws unless the recipe is an object with a string createdBy; otherwise true iff the lower-cased text occurs in the lower-cased creator |
| RecipeManagement.RecipeSearch.ApplyLoad | app/screens/RecipeManagement.tsx:73-74 | both lists become the loaded recipes, and stay on failure |
| RecipeManagement.RecipeSearch.HandleSearch | app/screens/RecipeManagement.tsx:83-93 | the query is stored and the shown list becomes the search result; when the filter throws, the uncaught error is reported and the list stays as it was |
| HistoryScreen.FetchRecipes | app/screens/HistoryScreen.tsx:52-73 | a falsy payload is no recipes; an array is cleaned record by record; failures give the server's error or "Gagal mengambil data resep" |
| HistoryScreen.IngredientsLine | app/screens/HistoryScreen.tsx:136-140 | the line shows only for a non-empty list, as "Bahan: " and the items joined by ", " |
| HistoryScreen.IngredientsLineOfNames | app/screens/HistoryScreen.tsx:136-140 | for a list of names, the line is the names joined by ", " |
| HistoryScreen.History.Fetch | app/screens/HistoryScreen.tsx:40-74 | a missing token sends nothing and keeps the list; otherwise the list becomes the loaded one |
| HistoryScreen.History.DeleteRecipe | app/screens/HistoryScreen.tsx:86-100 | a successful delete leaves exactly the recipes with another id, in order |
| FertilizerHistory.NormaliseIngredients | app/screens/FertilizerHistory.tsx:64-66 | an array becomes its items joined by ", ", a truthy value is kept, anything else becomes "Tidak ada bahan"; the line is hidden exactly when an array joins to "" |
| FertilizerHistory.EmptyIngredientsHidden | app/screens/FertilizerHistory.tsx:64-66 | an empty ingredients array joins to "" and hides the line |
| FertilizerHistory.CleanFertilizer | app/screens/FertilizerHistory.tsx:59-67 | the text is stripped of '#' and '*', ingredients normalised, every other field kept; a non-string text throws |
| FertilizerHistory.FetchFertilizers | app/screens/FertilizerHistory.tsx:54-83 | a falsy payload is no fertilizers; an array is cleaned record by record; failures give the server's error or "Gagal mengambil data pupuk" |
| FertilizerHistory.Shorten | app/screens/FertilizerHistory.tsx:181 | text longer than 50 is cut to 50 plus "...", shorter text kept, so never more than 53 |
| FertilizerHistory.TitleFromFertilizer | app/screens/FertilizerHistory.tsx:178-182 | the title is never longer than 53 |
| FertilizerHistory.TitleOfWords | app/screens/FertilizerHistory.tsx:178-182 | for words separated by spaces, the title is the first at most five words joined by one space, shortened |
| FertilizerHistory.TitleOfSpacedWords | app/screens/FertilizerHistory.tsx:178-182 | for any text that is words apart by runs of whitespace, with whitespace around it, the title is its first five words (or all, when fewer) joined by single spaces, cut to fifty characters plus "..." when longer |
| FertilizerHistory.ShortTitleKept | app/screens/FertilizerHistory.tsx:178-182 | up to five words within 50 characters are shown verbatim |
| FertilizerHistory.BlankTitle | app/screens/FertilizerHistory.tsx:179-180 | blank text gives an empty title |
| FertilizerHistory.IsoText | app/screens/FertilizerHistory.tsx:144-153 | text holding both ' ' and ':' has its first space replaced by 'T'; other text is kept |
| FertilizerHistory.MySqlToIso | app/screens/FertilizerHistory.tsx:144-148 | "date time" in MySQL form becomes "dateTtime" |
| FertilizerHistory.ParseCreatedAt | app/screens/FertilizerHistory.tsx:134-161 | a missing, empty or non-string value gives no instant; otherwise the parse of the converted text |
| FertilizerHistory.FormatDateAsWritten | app/screens/FertilizerHistory.tsx:131-176 | null on every invalid path and undefined on the valid one |
| FertilizerHistory.FormattedDateIsLost | app/screens/FertilizerHistory.tsx:163-187 | as written, a valid date is never shown formatted: the line shows the raw value |
| FertilizerHistory.FormatDate | app/screens/FertilizerHistory.tsx:131-176 | corrected: the formatted text exactly for a valid date |
| FertilizerHistory.DateLineShowsFormatted | app/screens/FertilizerHistory.tsx:187 | with the correction a valid date is shown formatted; invalid dates fall back as before |
| FertilizerHistory.DateLine | app/screens/FertilizerHistory.tsx:187 | the date line is the formatted date when truthy, else a truthy createdAt, else "Tidak diketahui"; it is never empty |
| FertilizerHistory.FertilizerList.Fetch | app/screens/FertilizerHistory.tsx:41-84 | a missing token sends nothing and keeps the list; otherwise the list becomes the loaded one |
| FertilizerHistory.FertilizerList.DeleteFertilizer | app/screens/FertilizerHistory.tsx:96-110 | a successful delete leaves exactly the fertilizers with another id, in order |
| LoginLogsScreen.NormaliseLog | app/screens/LoginLogsScreen.tsx:82-89 | username, email, role, login_time and ip_address are the server's value when truthy and "" otherwise; a null entry throws |
| LoginLogsScreen.NormalisedFieldsAreNormal | app/screens/LoginLogsScreen.tsx:84-88 | every normalised field is truthy or "" |
| LoginLogsScreen.NormaliseIsProjection | app/screens/LoginLogsScreen.tsx:82-89 | normalising an already normal log changes nothing |
| LoginLogsScreen.Caught | app/screens/LoginLogsScreen.tsx:97-111 | a 403 is reported as forbidden; anything else gives the server's error or "Gagal mengambil data log login" |
| LoginLogsScreen.FetchLogs | app/screens/LoginLogsScreen.tsx:63-96 | the payload array, else `.logs`, else `.data`; a non-array is no logs; an array gives one normalised log per entry |
| LoginLogsScreen.ForbiddenIsNotAnError | app/screens/LoginLogsScreen.tsx:103-105 | a 403 is never shown as the generic error |
| LoginLogsScreen.EnvelopesGiveEveryLog | app/screens/LoginLogsScreen.tsx:66-74 | a bare array, `{logs}` and `{data}` each give one log per entry |
| LoginLogsScreen.LogList.constructor | app/screens/LoginLogsScreen.tsx:35-36 | no logs, spinner on |
| LoginLogsScreen.LogList.Open | app/screens/LoginLogsScreen.tsx:39-135 | a denied role sends nothing; a missing token resets to Login with no request; otherwise the list becomes the fetched logs, and the spinner stops |
| HomeScreen.HandleClick | app/screens/HomeScreen.tsx:77-117 | no-op once locked; otherwise "❌ Waste ❌" from count 0, "🌿SaveBite" from 1, "❌ Expired ❌" with the beam hidden from 2, and the count advances modulo 3 |
| HomeScreen.TitleEffect | app/screens/HomeScreen.tsx:36-39 | the SaveBite title sets the lock and shows the beam; other titles change nothing |
| HomeScreen.EventsPreserveValid | app/screens/HomeScreen.tsx:36-117 | a click and the end of the beam animation keep the count in 0..2, the title matching the count, the lock with SaveBite |
| HomeScreen.TitleSequence | app/screens/HomeScreen.tsx:30-111 | from the initial state one click shows Waste and two show SaveBite with the lock and the beam |
| HomeScreen.LockIsPermanent | app/screens/HomeScreen.tsx:78 | once locked every click is a no-op and the lock never clears |
| HomeScreen.ClicksStayValid | app/screens/HomeScreen.tsx:112-116 | every state reached by clicking is valid, so the reset branch never runs |
| HomeScreen.SaveBiteSticks | app/screens/HomeScreen.tsx:36-78 | from the second click on the title stays SaveBite |
| HomeScreen.HomeScreenState.constructor | app/screens/HomeScreen.tsx:30-33 | title "❌ Expired ❌", count 0, no beam, unlocked |
| HomeScreen.HomeScreenState.OnClick | app/screens/HomeScreen.tsx:36-117 | the state after a click is the click function's, and reachability is kept |
| HomeScreen.HomeScreenState.OnBeamDone | app/screens/HomeScreen.tsx:73 | the beam hides when its animation ends, and reachability is kept |
| AiText.StripMarkers | app/screens/HistoryScreen.tsx:57 | `replace(/[#*]/g, '')`: no '#' or '*' left, every other character kept in order, never longer |
| AiText.StripIdempotent | app/screens/HistoryScreen.tsx:57 | stripping twice is stripping once |
| AiText.StripKeepsPlainText | app/screens/HistoryScreen.tsx:57 | text without markers is unchanged |
| AiText.StripRemovesOnlyMarkers | app/screens/HistoryScreen.tsx:57 | kept and removed characters together are the text, and every removed one is a marker |
| AiText.CleanField | app/screens/RecipeManagement.tsx:68-71 | `{...r, key: r.key.replace(...)}`: defined iff the field is a string, only that field changes |
| AiText.CleanList | app/screens/HistoryScreen.tsx:55-58 | defined iff every record cleans, one cleaned record per record |
| JsValue.Unwrap | app/screens/FoodManagement.tsx:85-94 | the shared envelope unwrap never invents a value: it is the payload, the named field or `.data`; only objects are unwrapped, only by a truthy field, and a truthy named field wins over `.data` |
| JsValue.Truthy | app/screens/FoodManagement.tsx:120 | falsy exactly for undefined, null, false, 0 and "" |
| JsValue.Or | app/screens/AdminHome.tsx:148 | `a || b` is one of its operands, `a` when truthy, and truthy iff either operand is |
| JsValue.Prop | app/screens/RecipeManagement.tsx:63 | property access throws iff the value is null or undefined, reads the field of an object, and is undefined otherwise |
| JsValue.OptProp | app/screens/AdminHome.tsx:161 | `?.` never throws: it agrees with plain access wherever that does not throw, and is undefined where it would |
| JsValue.JoinValues | app/screens/FertilizerHistory.tsx:65 | `join(', ')` on values starts with the first element's text, and is empty iff the array is empty or its one element joins as "" |
| JsValue.UnwrapEnvelopes | app/screens/AdminHome.tsx:136-145 | all three envelope shapes give back the list they carry |
| JsValue.RemoveById | app/screens/HistoryScreen.tsx:99 | `prev.filter(x => x.id !== id)`: a subsequence, none with the id, every other record kept |
| JsValue.RemoveByIdPartition | app/screens/FertilizerHistory.tsx:109 | kept and removed records together are the list, and every removed one has the id |
| JsValue.RemoveAbsentId | app/screens/HistoryScreen.tsx:99 | deleting an id no record has changes nothing |
| JsArray.Filter | app/screens/FoodManagement.tsx:128-130 | `filter`: the passing elements, in order, none left out |
| JsArray.FilterPartition | app/screens/HistoryScreen.tsx:99 | kept and left-out elements together are the array, with multiplicity |
| JsArray.FilterCount | app/screens/HistoryScreen.tsx:99 | a filter keeps every copy of a passing element and no copy of a failing one |
| JsArray.FilterChecked | app/screens/RecipeManagement.tsx:88-90 | a filter whose callback may throw: defined iff no callback throws, then the plain filter |
| JsArray.MapChecked | app/screens/LoginLogsScreen.tsx:82 | a map whose callback may throw: defined iff no callback throws, then same length, element by element |
| JsText.Trim | app/screens/LoginScreen.tsx:39-40 | `trim()`: a slice of the text with only whitespace cut off either side, no whitespace left at either end, empty iff the text is all whitespace |
| JsText.SplitWs | app/screens/FertilizerHistory.tsx:179 | `split(/\s+/)` gives at least one piece and no piece holds whitespace |
| JsText.SplitGlued | app/screens/FertilizerHistory.tsx:179 | words apart by any non-empty runs of whitespace split back into exactly those words |
| JsText.TrimAround | app/screens/FertilizerHistory.tsx:179 | `trim()` removes exactly the whitespace around text whose ends are not whitespace |
| JsText.Join | app/screens/FertilizerHistory.tsx:180 | `join(sep)` starts with the first part, and with a non-empty separator is empty iff there are no parts or one empty part |
| JsText.Lower | app/screens/FoodManagement.tsx:122 | `toLowerCase()` keeps the length and lower-cases each character in place |
| JsArray.Find | app/screens/UserListScreen.tsx:149 | `find`: absent iff no element passes, otherwise a passing element, the first one |
| JsText.SplitJoinRoundTrip | app/screens/FertilizerHistory.tsx:179-180 | splitting words joined by single spaces gives the words back |
| JsText.ReplaceFirst | app/screens/FertilizerHistory.tsx:147 | `replace(' ', 'T')`: only the first occurrence changes |
| JsText.Includes | app/screens/FertilizerHistory.tsx:144 | `includes`: true iff the needle occurs somewhere |
| JsText.DecimalRoundTrip | app/screens/FoodsScreen.tsx:62-68 | the decimal text of a day count reads back as the count |
| JsText.Utf16Length | app/screens/RegisterScreen.tsx:138-141 | JavaScript's `length` lies between the character count and twice it |
| Session.TokenGuard | app/screens/HistoryScreen.tsx:44-48 | a request goes out iff a non-empty token is stored |
| Http.ServerErrorOr | app/screens/LoginLogsScreen.tsx:109 | `error.response?.data?.error or fallback`: the server's message iff it sent a truthy one |
| FormRules.RequiredError | app/screens/LoginScreen.tsx:126-145 | a rule's `required` message exactly when the field is empty |
| FormRules.Messages | app/screens/RegisterScreen.tsx:99-141 | the messages shown are empty iff every rule passes |

## Left out

- HTTP, AsyncStorage and the notification platform are not modelled as effects:
  - Requests are replaced by their `Reply`.
  - Stored items are parameters, except the login screen's store, which is a map.
  - Scheduled notifications are a sequence.
- Navigation and `Alert.alert` become returned outcome tags (`Start`, `Access`, `Message`). Confirmation dialogs are assumed to be confirmed.
- The loading and refreshing spinners are left out, except the login-log screen's `loading`. Rendering, styles and every animation are left out too, except the home screen's beam flag.
- Locale date formatting and `new Date(text)` parsing are abstract parameters (`format`, `parse`).
- A fixed UTC offset stands for the device's time zone, so daylight-saving changes are not modelled.
- `Math.random()`: the log-id fallback appears as an absent id.
- The clock: `scheduleAllReminders` reads `new Date()` anew for each reminder, and the food screen's `getExpiryStatus` reads it anew for each food while grouping. The model uses one `now` for a whole run (`Reminders`, `FoodsScreen.GroupFoodsByStatus`), so a run that straddles midnight or a fire time is not modelled.
- NotificationService.Scheduler.ScheduleAllReminders: the corrected scheduler assumes the platform accepts every request. A rejection is modelled only by `SchedulerAsWritten`, where the platform's answer is an abstract `accepts` predicate.
- Numbers are integers. `NaN` appears only in the expiry message of an Invalid Date.
- Built-in properties of strings and arrays read by name (`.length` aside) are `undefined` in the model.
- `toLowerCase` maps ASCII letters only. `\s` and `trim` use the ECMAScript whitespace set.
- FertilizerHistory.TitleFromFertilizer: counts the 50-character limit in Unicode scalar values rather than UTF-16 code units.
- LoginScreen.SubmitLogin: assumes the read-back of the stored token (lines 61-64) returns what was just written.
- HistoryScreen.IngredientsLine: a string `ingredients` value would throw a TypeError when rendered. The model shows no line for it.
- HistoryScreen, RecipeManagement, LoginLogsScreen and UserListScreen use `formatDate` only for display, through `toLocaleString`/`toLocaleDateString`. That formatting is left out.
- Some operations are outside the model, because they are a request and an alert with no decision logic beyond the token guard:
  - FoodsScreen: `fetchFoods`, `deleteFood` and the token check on mount.
  - FoodManagement: `fetchCategories`, which stores `response.data` as the category list or shows an alert.
  - UserListScreen: `fetchUsers` and the delete request.
  - AdminHome: `handleDeleteCategory`.
  - RecipeManagement: `handleDeleteRecipe`.
- The error alerts of the history and fertilizer deletes are not modelled. On failure the list is left as it was.
- The login-log entries are `{username}-{login_time}`-keyed list rows. Row keys are rendering and are left out.
- HomeScreen.HomeScreenState.OnClick: the title effect is taken as running right after the click that changed the title. A second click landing before React runs the effect is not modelled.
- FirstScreen, components/food.jsx, AddfoodScreen and CategoryManagementScreen are not part of this model, because they hold no logic beyond navigation and non-empty checks. Neither is services/FoodService.ts, because it is HTTP only.

## Findings

| source | as written | input that shows it | evidently intended | confidence | as-written member | corrected member |
|---|---|---|---|---|---|---|
| app/screens/FertilizerHistory.tsx:163-171 | `formatDate` computes `formatted` but has no `return`, so a valid date yields `undefined` and the card shows the raw `createdAt` | any valid `createdAt`, e.g. "2025-10-18 18:17:36" | return the formatted date | not executed | FertilizerHistory.FormattedDateIsLost | FertilizerHistory.DateLineShowsFormatted |
| services/NotificationService.ts:17-22 | the past-date guard compares an Invalid Date, which is false for every comparison, so an unparseable expiry date is not skipped and a notification with an invalid trigger date is requested | expiry_date "bukan tanggal" | skip foods whose expiry date does not parse | not executed | NotificationService.InvalidDateIsSubmitted | NotificationService.GuardCorrection |
