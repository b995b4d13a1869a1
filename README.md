# Sales tracker core, modelled in Dafny

This project models the logic of a small customer-relations web application.
Agents record calls with customers; supervisors and admins review and comment on them.
It has three roles (admin, supervisor, agent).
The model covers:

- **Input validation**: the three validators for users, customers and interactions, each building its error list step by step.
- **The in-memory cache**: a time-to-live map with lazy eviction on read and a periodic sweep. The time is a parameter.
- **Role-based access**: the role ranking, the permission test, route access, each role's landing page, and the middleware that gates page requests.
- **The database service**: a class over three record lists plus the cache. Each method is proved against the queries stated as functions (`Queries`): look-ups, updates, deletes, cached read-through listings, per-agent counts, pending follow-ups and joined interaction details.
- **The API handlers**: customers, interactions, users, the two statistics endpoints and the theme. Each is a function from the session, the request and the store to the reply, the new store and the cache keys it invalidates. The interactions GET also takes the cache and the time, and returns the cache it leaves: the agent's list and the detailed list are served from the cache while they are live.
- **The dashboards' client logic**:
  - the customer tables' search/filter/sort/paginate pipeline and the CSV export;
  - the agent table's edit snapshot and bulk selection, and the supervisor's comment saving;
  - the admin analytics and the supervisor's summary cards;
  - the interaction table's de-duplication and comment editing;
  - the role-filtered navigation bar;
  - the client event bus, and the bounded notification list.

Clocks, fresh ids, the password hash and failures of the database or the network are parameters:

- `now`, `id`, `hash`;
- `fault`, which stands for an exception caught by a handler's `catch`.

Records are Dafny datatypes. Strings are `seq<char>`; JavaScript's `length` is counted in UTF-16 code units. Dates are millisecond counts.

## Model

| member | source | states |
|---|---|---|
| Validation.VerdictOf | src/lib/validation.ts:24 | the verdict is success exactly when the error list is empty; a failure carries that (non-empty) list |
| Validation.Push | src/lib/validation.ts:6-7 | a message is in the list after a check exactly when it was before or the check failed, and the list grows by one exactly on failure |
| Validation.TrimsToNothing | src/lib/validation.ts:6 | true exactly when the field is missing, empty or only JavaScript white space |
| Validation.IsEmailMatchesPattern | src/lib/validation.ts:12 | the executable e-mail test holds exactly when the text matches `^[^\s@]+@[^\s@]+\.[^\s@]+$` |
| Validation.IsEmailSound | src/lib/validation.ts:12 | every text the e-mail test accepts has the pattern's shape |
| Validation.IsEmailComplete | src/lib/validation.ts:12 | every text with the pattern's shape passes the e-mail test |
| Validation.ValidateUser | src/lib/validation.ts:3-25 | the sequence of pushes returns the verdict of the user's error list, checks in source order |
| Validation.UserErrorsMembership | src/lib/validation.ts:6-22 | each user message is present exactly when its check fails |
| Validation.UserErrorsExactly | src/lib/validation.ts:6-22 | name required iff missing/blank; name too long iff non-blank and over 100 UTF-16 code units (exactly 100 accepted); e-mail iff missing or not matching; password iff missing or under 6 code units; role iff missing or not admin/supervisor/agent |
| Validation.LimitsCountCodeUnits | src/lib/validation.ts:8-16 | a password of three characters beyond U+FFFF is long enough and a name of sixty of them is too long, since `.length` counts code units |
| Strings.Utf16Length | src/lib/validation.ts:8 | `.length` lies between the number of characters and twice that number |
| Strings.Utf16LengthIsCount | src/lib/validation.ts:8 | `.length` equals the number of characters exactly when no character lies beyond U+FFFF |
| Strings.Utf16LengthIsDouble | src/lib/validation.ts:8 | `.length` is twice the number of characters exactly when every character lies beyond U+FFFF |
| Validation.ValidateCustomer | src/lib/validation.ts:27-53 | the sequence of pushes returns the verdict of the customer's error list |
| Validation.CustomerErrorsMembership | src/lib/validation.ts:30-50 | each customer message is present exactly when its check fails |
| Validation.CustomerErrorsExactly | src/lib/validation.ts:30-50 | optional fields fail only when present: title over 100, non-empty e-mail not matching, phone over 20; name and agentId required when blank |
| Validation.MinimalCustomerIsValid | src/lib/validation.ts:27-52 | a non-blank name of at most 100 UTF-16 code units and a non-blank agentId, with no optional field, give no error |
| Validation.ValidateInteraction | src/lib/validation.ts:55-89 | the sequence of pushes returns the verdict of the interaction's error list |
| Validation.InteractionRequiredMembership | src/lib/validation.ts:58-68 | customer id, agent id and duration messages are present exactly when their checks fail |
| Validation.InteractionOptionalMembership | src/lib/validation.ts:70-86 | follow-up, note, comment and call-status messages are present exactly when their checks fail |
| Validation.InteractionRequiredFields | src/lib/validation.ts:58-68 | customerId/agentId fail iff missing or blank; the duration fails iff present and not a number or negative (absent and 0 pass) |
| Validation.InteractionOptionalFields | src/lib/validation.ts:70-86 | a non-empty follow-up or call status outside its list fails; a note or comment over 1000 fails |
| Cache.ExpiryFor | src/lib/cache.ts:41-42 | the expiry is now plus the ttl, a missing or zero ttl meaning 300000 ms |
| Cache.Lookup | src/lib/cache.ts:27-37 | a value is returned exactly when the key is present and not expired (expiry not before now), and it is the stored data |
| Cache.AfterLookup | src/lib/cache.ts:31-35 | a read deletes the key exactly when its entry has expired, and changes nothing else |
| Cache.Live | src/lib/cache.ts:9-16 | the sweep keeps exactly the unexpired entries, unchanged |
| Cache.TtlCache.constructor | src/lib/cache.ts:4 | a new cache is empty |
| Cache.TtlCache.Get | src/lib/cache.ts:27-38 | returns the look-up of the old entries and leaves them as a read leaves them |
| Cache.TtlCache.Set | src/lib/cache.ts:41-44 | stores the data under the key with its computed expiry, replacing any entry |
| Cache.TtlCache.Delete | src/lib/cache.ts:47-49 | reports whether the key was present and removes only that key |
| Cache.TtlCache.Clear | src/lib/cache.ts:52-59 | empties the cache, after which the size is 0 |
| Cache.TtlCache.Sweep | src/lib/cache.ts:9-16 | the loop deleting while iterating leaves exactly the live entries |
| Cache.LookupMissing | src/lib/cache.ts:27-29 | a key never set, or deleted, reads as null |
| Cache.LookupAfterSet | src/lib/cache.ts:37-43 | before its expiry a key reads as the value most recently set |
| Cache.DefaultTtlServesFiveMinutes | src/lib/cache.ts:5 | with no ttl (or 0) a value is served for five minutes inclusive and gone one millisecond later |
| Cache.OtherKeysUnaffected | src/lib/cache.ts:31-49 | setting, deleting or evicting one key never changes what another key reads |
| Cache.LookupEvictionInvisible | src/lib/cache.ts:31-35 | lazy eviction on read never changes what a later read of that key returns |
| Cache.SweepInvisible | src/lib/cache.ts:9-16 | the sweep never changes what a later read returns |
| Cache.SweepIdempotent | src/lib/cache.ts:9-16 | after a sweep nothing is expired, and a second sweep at the same time changes nothing |
| Rbac.Rank | src/lib/rbac.ts:7-11 | each role ranks between 1 and 3 |
| Rbac.HasPermissionTable | src/lib/rbac.ts:13-15 | admin may act as anyone, supervisor as supervisor or agent, agent only as agent |
| Rbac.HasPermissionOrder | src/lib/rbac.ts:13-15 | the permission relation is reflexive, transitive, antisymmetric and total |
| Rbac.CanAccessRouteCases | src/lib/rbac.ts:17-40 | no session: no access; admin: everything; /admin only admin; /supervisor supervisor or admin; /agent the three roles; any other route open |
| Rbac.CanAccessRouteIsHierarchy | src/lib/rbac.ts:26-36 | for a known role, route access under each prefix is the permission test against that prefix's role |
| Rbac.DashboardPath | src/lib/rbac.ts:42-48 | each known role lands on "/" + its name, any other role on "/" |
| Rbac.DashboardAlwaysAccessible | src/lib/rbac.ts:42-48 | every signed-in user may open their own landing page |
| Middleware.Gate | middleware.ts:26-31 | a redirect to the login page carries the requested path as its callback |
| Middleware.RequiresAuthPrefixes | middleware.ts:6-22 | a path needs a token exactly when it starts with /agent, /supervisor or /admin |
| Middleware.GateCases | middleware.ts:12-42 | skipped and unprotected paths pass; no token redirects to login; /admin needs the admin role and /supervisor supervisor or admin; /agent passes with any token |
| Middleware.GateAgreesWithRouteAccess | middleware.ts:35-40 | on /supervisor and /admin pages the middleware lets a known role through exactly when the route check does |
| Models.ParseRole | src/lib/models.ts:8 | only the three role names parse, each back to its own name |
| Models.RoleNameRoundTrip | src/lib/models.ts:8 | every role's name parses back to that role |
| Models.ParseFollowUp | src/lib/models.ts:29 | only the four follow-up names parse, each back to its own name |
| Models.FollowUpNameRoundTrip | src/lib/models.ts:29 | every follow-up status's name parses back to it |
| Models.ParseCallStatus | src/lib/models.ts:32 | only the five call-status names parse, each back to its own name |
| Models.CallStatusNameRoundTrip | src/lib/models.ts:32 | every call status's name parses back to it |
| Queries.IndexOf | src/lib/dbService.ts:38-41 | `findOne` by id: the first record with that id, or none exactly when no record has it |
| Queries.FindFirst | src/lib/dbService.ts:33-36 | the record found has the key asked for, and none is found exactly when no record has it |
| Queries.DeleteFirst | src/lib/dbService.ts:58-62 | `deleteOne`: true exactly when a record had the id; then exactly the first such record is gone and the others keep their order, otherwise nothing changes |
| Queries.UpdateFirst | src/lib/dbService.ts:48-56 | `findOneAndUpdate`: the first matching record is replaced by its update and returned, or nothing changes and none is returned |
| Queries.Filter | src/lib/dbService.ts:86 | `find` with a test keeps exactly the records passing it, in order |
| Queries.FilterNone | src/lib/dbService.ts:86 | a test no record passes finds nothing |
| Queries.FilterAppend | src/lib/dbService.ts:86 | filtering a list extended by one record extends the result by it exactly when it passes |
| Queries.FilterPosition | src/lib/dbService.ts:86 | a passing record lands at the index that counts the passing records before it |
| Queries.FilterKeepsOrder | src/lib/dbService.ts:86 | of two passing records, the earlier one comes first in the result |
| Queries.CountWhere | src/lib/dbService.ts:147-177 | a per-agent count is at most the number of records, and 0 exactly when no record has that agent |
| Queries.Tally | src/lib/dbService.ts:160-165 | the grouped counts hold only agents that occur |
| Queries.TallyCounts | src/lib/dbService.ts:160-176 | an agent's count read with `\|\| 0` is the number of its records |
| Queries.SumCountsCoverAll | src/lib/dbService.ts:147-177 | when every record belongs to one of a list of distinct agents, their counts add up to the number of records |
| Queries.InsertByDate | src/lib/dbService.ts:270 | inserting into a date-sorted list adds exactly that record |
| Queries.SortByDateDesc | src/lib/dbService.ts:270 | sorting by date keeps exactly the same records |
| Queries.InsertByDateSorted | src/lib/dbService.ts:270 | inserting keeps the newest-first order |
| Queries.SortByDateDescSorted | src/lib/dbService.ts:270 | the result is newest-first and a permutation of the input |
| Queries.SortedFilterMembers | src/lib/dbService.ts:268-270 | a filtered, newest-first listing holds exactly the stored interactions that match the filter |
| Queries.LatestFor | src/lib/dbService.ts:108-118 | a customer's latest interaction exists exactly when it has one, and no interaction of it is dated later |
| Queries.Distinct | src/lib/dbService.ts:188-198 | the distinct ids are exactly the ids that occur, each once |
| Queries.OccurringIdsHaveLatest | src/lib/dbService.ts:188-198 | every customer with an interaction has a latest one |
| Queries.LatestPerCustomer | src/lib/dbService.ts:183-198 | `$sort` + `$group $first`: one row per customer that occurs, being its latest interaction |
| Queries.LatestPerCustomerOnePerCustomer | src/lib/dbService.ts:188-198 | every customer with an interaction is represented, and by one row only |
| Queries.Agents | src/lib/dbService.ts:150 | the agents are exactly the users with the agent role |
| Queries.CustomerCountByAgent | src/lib/dbService.ts:147-177 | one row per agent, in order, with its name and the number of its customers (0 when none) |
| Queries.OpenLatest | src/lib/dbService.ts:199-204 | keeps latest interactions whose follow-up is pending or in progress |
| Queries.PendingFollowUpsByAgent | src/lib/dbService.ts:179-218 | one row per agent with the number of its customers whose latest interaction is still open |
| Queries.PendingIgnoresEarlierInteractions | src/lib/dbService.ts:188-204 | when every customer's latest interaction is closed, every agent's count is 0, whatever earlier interactions say |
| Queries.AgentNameOf | src/lib/dbService.ts:119-130 | an agent name is found exactly when some user has that id |
| Queries.CustomersWithLatestInteraction | src/lib/dbService.ts:98-145 | rows are customers of the store that match the optional agent filter |
| Queries.CustomersWithLatestInteractionComplete | src/lib/dbService.ts:98-145 | every matching customer has its row |
| Queries.RowLatestInteraction | src/lib/dbService.ts:108-118 | a customer's row carries its latest interaction, dated no earlier than any of its interactions |
| Queries.OrElse | src/lib/dbService.ts:318-321 | `x \|\| fallback`: the value when non-empty, the fallback otherwise |
| Queries.InteractionsWithDetails | src/lib/dbService.ts:308-332 | one detail row per interaction |
| Queries.InteractionsOf | src/lib/dbService.ts:315-322 | the interactions inside the detail rows, in the same order |
| Queries.InteractionsWithDetailsOrdered | src/lib/dbService.ts:308-332 | the detail rows list every interaction once, newest first |
| Queries.CacheKeysDistinct | src/lib/dbService.ts:70-81 | customer, interaction and detail cache keys never collide, and each per-agent key names one agent |
| Queries.PatchUser | src/lib/dbService.ts:48-56 | `$set` of a user's given fields plus the update time, keeping id and creation time |
| Queries.PatchCustomer | src/lib/dbService.ts:220-228 | `$set` of a customer's given fields plus the update time |
| Queries.PatchInteraction | src/lib/dbService.ts:291-299 | an interaction update changes only the comment (when set, to text or to null) and the update time |
| Queries.PatchesIdempotent | src/lib/dbService.ts:48-56 | applying the same update twice at the same time equals applying it once |
| DbService.CountByKey | src/lib/dbService.ts:165-168 | the `countMap` loop builds exactly the grouped counts |
| DbService.AttachDetails | src/lib/dbService.ts:315-325 | the loop pushes the detail row of each interaction, in order |
| DbService.DatabaseService.constructor | src/lib/dbService.ts:10-12 | the store starts empty, over the given cache |
| DbService.DatabaseService.CreateUser | src/lib/dbService.ts:27-31 | appends the user with the new id and both timestamps set to now; other collections unchanged |
| DbService.DatabaseService.GetUserByEmail | src/lib/dbService.ts:33-36 | the first user with that e-mail, if any |
| DbService.DatabaseService.GetUserById | src/lib/dbService.ts:38-41 | the first user with that id, if any |
| DbService.DatabaseService.GetAllUsers | src/lib/dbService.ts:43-46 | all users, in store order |
| DbService.DatabaseService.UpdateUser | src/lib/dbService.ts:48-56 | patches the first user with the id and returns it after the update, or changes nothing and returns none |
| DbService.DatabaseService.DeleteUser | src/lib/dbService.ts:58-62 | removes the first user with the id and reports whether one was removed |
| DbService.DatabaseService.CreateCustomer | src/lib/dbService.ts:65-73 | appends the customer and invalidates exactly that agent's cached customer list |
| DbService.DatabaseService.GetCustomerById | src/lib/dbService.ts:75-78 | the first customer with that id, if any |
| DbService.DatabaseService.GetAllCustomers | src/lib/dbService.ts:93-96 | all customers, in store order |
| DbService.DatabaseService.GetCustomersByAgent | src/lib/dbService.ts:80-91 | a live cached list is returned as is; otherwise the agent's customers are read and cached for 2 minutes |
| DbService.DatabaseService.GetCustomersWithLatestInteraction | src/lib/dbService.ts:98-145 | returns the customer rows with their latest interaction and agent name |
| DbService.DatabaseService.GetCustomerCountByAgent | src/lib/dbService.ts:147-177 | returns the per-agent customer counts |
| DbService.DatabaseService.GetPendingFollowUpsByAgent | src/lib/dbService.ts:179-218 | returns the per-agent open follow-up counts |
| DbService.DatabaseService.UpdateCustomer | src/lib/dbService.ts:220-228 | patches the first customer with the id, leaving the rest of the store and the cache unchanged |
| DbService.DatabaseService.DeleteCustomer | src/lib/dbService.ts:230-234 | removes the first customer with the id and reports whether one was removed |
| DbService.DatabaseService.CreateInteraction | src/lib/dbService.ts:237-255 | appends the interaction, dated as given or now, and invalidates the agent's list and the detail list |
| DbService.DatabaseService.GetInteractionById | src/lib/dbService.ts:257-260 | the first interaction with that id, if any |
| DbService.DatabaseService.GetInteractionsByAgent | src/lib/dbService.ts:262-275 | returns and leaves in the cache exactly what ReadInteractionsByAgent states |
| DbService.DatabaseService.GetInteractionsByCustomer | src/lib/dbService.ts:277-282 | the customer's interactions, newest first |
| DbService.DatabaseService.GetAllInteractions | src/lib/dbService.ts:284-289 | all interactions, newest first |
| DbService.DatabaseService.UpdateInteraction | src/lib/dbService.ts:291-299 | patches the first interaction with the id, leaving the rest unchanged |
| DbService.DatabaseService.DeleteInteraction | src/lib/dbService.ts:301-305 | removes the first interaction with the id and reports whether one was removed |
| DbService.DatabaseService.GetInteractionsWithDetails | src/lib/dbService.ts:308-332 | returns and leaves in the cache exactly what ReadInteractionsWithDetails states |
| DbService.ReadInteractionsByAgent | src/lib/dbService.ts:262-275 | a live cached list is served as it is, whatever the store holds; otherwise the agent's interactions newest first, then cached for one minute; no other key changes |
| DbService.ReadInteractionsWithDetails | src/lib/dbService.ts:308-332 | a live cached list is served as it is; otherwise the joined rows from the store, then cached for one minute; no other key changes |
| Api.Refuse | src/app/api/customers/route.ts:15-20 | a refused request changes neither the store nor the cache |
| CustomersRoute.Listed | src/app/api/customers/route.ts:31-58 | the customers of either listing shape |
| CustomersRoute.Scope | src/app/api/customers/route.ts:32-56 | an agent is always scoped to itself; others get the `agentId` filter exactly when it is non-empty |
| CustomersRoute.GetStatus | src/app/api/customers/route.ts:15-65 | 401 without a session, 403 for a role outside agent/admin/supervisor, 200 otherwise unless the store fails |
| CustomersRoute.GetShape | src/app/api/customers/route.ts:31-58 | the rows carry the latest interaction exactly when `withLatest=true` |
| CustomersRoute.ListWithinScope | src/app/api/customers/route.ts:35-58 | every listed customer is in the store and, when scoped, belongs to that agent |
| CustomersRoute.ListComplete | src/app/api/customers/route.ts:35-58 | every customer of the store within the scope is listed |
| CustomersRoute.AgentSeesOnlyOwn | src/app/api/customers/route.ts:35-51 | an agent's listing ignores the `agentId` parameter and holds exactly its own customers |
| CustomersRoute.SupervisorChoosesScope | src/app/api/customers/route.ts:40-58 | a supervisor or admin sees one agent's customers when naming it, all customers otherwise |
| CustomersRoute.Stamped | src/app/api/customers/route.ts:90-92 | an agent's body has its own id as agentId; nothing else is changed |
| CustomersRoute.NewCustomer | src/app/api/customers/route.ts:103-111 | the contact title, e-mail and phone are each stored as given when non-empty, or as '' otherwise |
| CustomersRoute.PostCreatesIffValid | src/app/api/customers/route.ts:72-126 | a customer is created exactly for an agent or admin whose stamped body validates; 401/403 as the role checks say |
| CustomersRoute.PostEffect | src/app/api/customers/route.ts:113-118 | a created customer is appended and its agent's cache key invalidated; otherwise nothing changes |
| CustomersRoute.PostInvalid | src/app/api/customers/route.ts:95-101 | an invalid body gets 400 with the validator's messages |
| CustomersRoute.PostStores | src/app/api/customers/route.ts:88-118 | the stored customer has the new id and time, a valid name and agent, an agent's own id when an agent posts, and the body's contact fields (or '') |
| InteractionsRoute.GetStatus | src/app/api/interactions/route.ts:16-50 | 401 without a session; 403 only without customerId for an unknown role; 500 exactly when the store fails on a read that reaches it, so a live cached list is served even then; 200 otherwise |
| InteractionsRoute.GetByCustomer | src/app/api/interactions/route.ts:24-29 | any signed-in user gets exactly that customer's interactions, newest first, and the cache is left as it was |
| InteractionsRoute.AgentSeesOwn | src/app/api/interactions/route.ts:32-35 | with no live list cached for it, an agent gets exactly its own stored interactions, newest first, and that list is cached from then on |
| InteractionsRoute.AgentServedFromCache | src/app/api/interactions/route.ts:32-35 | with a live list cached for it, an agent gets that list whatever the store holds, and the cache stays as it was |
| InteractionsRoute.GetTouchesOnlyItsKey | src/app/api/interactions/route.ts:32-39 | a GET changes at most the cache entry of the list it read |
| InteractionsRoute.Stamped | src/app/api/interactions/route.ts:75-77 | an agent's body has its own id as agentId; nothing else is changed |
| InteractionsRoute.DurationOrZero | src/app/api/interactions/route.ts:90 | `callDuration \|\| 0` |
| InteractionsRoute.FollowUpOrPending | src/app/api/interactions/route.ts:91 | a given follow-up status is kept, a missing one becomes pending |
| InteractionsRoute.CallStatusOrCalled | src/app/api/interactions/route.ts:94 | a given call status is kept, a missing one becomes called |
| InteractionsRoute.DateOrNow | src/app/api/interactions/route.ts:95 | a given date is kept, a missing one becomes now |
| InteractionsRoute.PostRecordsIffValid | src/app/api/interactions/route.ts:57-99 | an interaction is recorded exactly for an agent or admin whose stamped body validates; 401/403 as the role checks say |
| InteractionsRoute.PostEffect | src/app/api/interactions/route.ts:101-105 | a recorded interaction is appended and the agent's and detail cache keys invalidated; otherwise nothing changes |
| InteractionsRoute.PostDefaults | src/app/api/interactions/route.ts:88-99 | the stored interaction takes the documented defaults: duration 0, pending, note '', no comment, called, date now |
| InteractionsRoute.PostStoresNew | src/app/api/interactions/route.ts:88-105 | the stored interaction is built from the stamped body |
| InteractionsRoute.PatchOf | src/app/api/interactions/route.ts:147-155 | the update sets the comment exactly when the body has the key: to the text, or to null for `null`; an omitted comment is left alone |
| InteractionsRoute.PutStatus | src/app/api/interactions/route.ts:122-164 | 401 without a session, 403 for other than supervisor/admin, 404 exactly when the id is unknown |
| InteractionsRoute.PutIgnoresOtherFields | src/app/api/interactions/route.ts:147-155 | fields other than the comment in a PUT body make no difference |
| InteractionsRoute.PutEffect | src/app/api/interactions/route.ts:147-167 | a successful PUT replaces only that interaction, changing only its comment (to the text, cleared by `null`, kept when omitted) and update time, and invalidates the detail list |
| InteractionsRoute.NullCommentClears | src/app/api/interactions/route.ts:150-151 | a supervisor's or admin's `{ id, supervisorComment: null }` on a stored interaction succeeds and clears its comment |
| InteractionsRoute.CommentReachesDetails | src/app/api/interactions/route.ts:166-167 | after a successful comment, a supervisor's or admin's next GET reads the detailed list from the store |
| InteractionsRoute.CommentLeavesAgentListCached | src/app/api/interactions/route.ts:157-167 | within a minute of an agent's GET that filled the cache, the agent's next GET returns the same list whatever the PUT stored |
| InteractionsRoute.StaleCommentExample | src/app/api/interactions/route.ts:157-167 | agent A lists its call, a supervisor comments "call back", and agent A is still shown the call without the comment the store now holds |
| InteractionsRoute.PutInvalidating | src/app/api/interactions/route.ts:157-167 | the corrected PUT: the same reply and store as the handler, and it also drops the list cached for the commented interaction's agent |
| InteractionsRoute.CommentReachesAgentList | src/app/api/interactions/route.ts:157-167 | with that eviction, the agent's next GET reads the store and shows the commented interaction as stored |
| UsersRoute.SanitizeForgetsOnlyHash | src/app/api/users/route.ts:36-44 | two users look the same without their hash exactly when they differ at most in the hash |
| UsersRoute.GetStatus | src/app/api/users/route.ts:16-66 | listing is admin-only; one user may be read by admin, supervisor or that user; 404 exactly when the id is unknown |
| UsersRoute.GetAllSanitised | src/app/api/users/route.ts:36-44 | an admin gets every user in order, each without the password hash |
| UsersRoute.PostStatus | src/app/api/users/route.ts:82-132 | only an admin creates users, and only for a valid body whose e-mail is not yet used |
| UsersRoute.PostEffect | src/app/api/users/route.ts:118-132 | the new user is appended with the hashed password, and the reply is it without the hash |
| UsersRoute.AcceptedUserFields | src/app/api/users/route.ts:99-106 | a body that passes validation has a name, an e-mail matching the pattern, a password of at least 6 code units and a known role |
| UsersRoute.PostKeepsEmailsUnique | src/app/api/users/route.ts:109-115 | creating users keeps e-mail addresses unique |
| UsersRoute.UpdatesAsWritten | src/app/api/users/route.ts:177-185 | as written, any non-empty role text is copied into the update |
| UsersRoute.UpdatesAsWrittenAdmitUnknownRole | src/app/api/users/route.ts:181 | as written, a body with role "owner" stores a role outside the three known ones |
| UsersRoute.PatchOf | src/app/api/users/route.ts:177-185 | each non-empty field is copied (the password hashed); a role is copied only as one of the three known roles |
| UsersRoute.PutStatus | src/app/api/users/route.ts:152-194 | only an admin updates; a missing id, an unknown role and an unknown user are refused |
| UsersRoute.PutEffect | src/app/api/users/route.ts:177-197 | only the named user changes: given fields replaced, others kept, update time now; the reply has no hash |
| UsersRoute.DeleteStatus | src/app/api/users/route.ts:217-258 | only an admin deletes; deleting oneself gets 400; an unknown id gets 404 |
| UsersRoute.DeleteEffect | src/app/api/users/route.ts:251-258 | a successful delete removes exactly the named user, the others keeping their order, and leaves customers and interactions alone |
| UsersRoute.DeleteNeverRemovesSelf | src/app/api/users/route.ts:244-249 | no delete request removes the caller's own account |
| StatsRoutes.Gated | src/app/api/agent-stats/route.ts:12-36 | 401 without a session, 403 unless supervisor/admin, 500 on a store failure, the data otherwise |
| StatsRoutes.AgentStatsRows | src/app/api/agent-stats/route.ts:27-29 | one row per agent with its customer count |
| StatsRoutes.PendingRows | src/app/api/pending-follow-ups/route.ts:27-29 | one row per agent with the count of its customers whose latest follow-up is open |
| ThemeRoute.ReadTheme | src/app/api/theme/route.ts:9-31 | a missing or unreadable file gives the fixed default theme |
| ThemeRoute.MergeLaws | src/app/api/theme/route.ts:66-81 | an empty body keeps the theme, a full body replaces it, merging twice equals once, each field taken from the body when non-null |
| ThemeRoute.MergeThen | src/app/api/theme/route.ts:66-81 | two successive merges equal one merge of the combined body |
| ThemeRoute.Status | src/app/api/theme/route.ts:42-60 | GET needs a session; PUT needs an admin and writes the file exactly when it succeeds |
| ThemeRoute.PutThenGet | src/app/api/theme/route.ts:54-81 | after an admin's PUT every signed-in reader gets the merged theme |
| CustomerTable.FromRow | src/app/agent/components/CustomerTable.tsx:229-232 | a fetched row holds its latest interaction as its only interaction, or none |
| CustomerTable.FetchedRowActivity | src/app/agent/components/CustomerTable.tsx:483-487 | a row is active exactly when its customer has an interaction, and its last-interaction time is the latest date |
| CustomerTable.BlankSearchKeepsAll | src/app/agent/components/CustomerTable.tsx:489-497 | a blank query keeps every row |
| CustomerTable.SearchFinds | src/app/agent/components/CustomerTable.tsx:489-497 | a row is found exactly when one of the four fields contains the trimmed, lowered query |
| CustomerTable.LexLessAsymmetric | src/app/agent/components/CustomerTable.tsx:583-588 | the name order is asymmetric |
| CustomerTable.PrecedesAsymmetric | src/app/agent/components/CustomerTable.tsx:583-592 | the row order for each key and direction is asymmetric |
| CustomerTable.Insert | src/app/agent/components/CustomerTable.tsx:583-592 | insertion adds exactly one row |
| CustomerTable.InsertOrdered | src/app/agent/components/CustomerTable.tsx:583-592 | insertion keeps the order |
| CustomerTable.Sort | src/app/agent/components/CustomerTable.tsx:583-592 | sorting keeps exactly the same rows |
| CustomerTable.SortOrdered | src/app/agent/components/CustomerTable.tsx:583-592 | the sorted rows are in the chosen order |
| CustomerTable.FilterFilter | src/app/agent/components/CustomerTable.tsx:560-581 | two successive filters equal one filter by both tests |
| CustomerTable.SearchIsFilter | src/app/agent/components/CustomerTable.tsx:489-497 | the search is a filter by the match test |
| CustomerTable.FiltersAreKeep | src/app/agent/components/CustomerTable.tsx:489-581 | the four filters in sequence equal one filter by their conjunction |
| CustomerTable.FilteredAllExactly | src/app/agent/components/CustomerTable.tsx:489-592 | the filtered, sorted rows are a permutation of the rows passing every filter, in the chosen order |
| CustomerTable.FilterSame | src/app/agent/components/CustomerTable.tsx:560-581 | filters by equal tests agree |
| CustomerTable.FilterAll | src/app/agent/components/CustomerTable.tsx:561 | a test every row passes keeps the list |
| CustomerTable.FilteredAllMembership | src/app/agent/components/CustomerTable.tsx:489-592 | a row is shown exactly when it is in the data and passes every filter |
| CustomerTable.TotalPages | src/app/agent/components/CustomerTable.tsx:595 | at least one page, and just enough pages for the rows |
| CustomerTable.PageStartBound | src/app/agent/components/CustomerTable.tsx:596-597 | a valid page starts within the rows |
| CustomerTable.Slice | src/app/agent/components/CustomerTable.tsx:597 | `slice` clamps its bounds to the list |
| CustomerTable.Paginate | src/app/agent/components/CustomerTable.tsx:594-598 | the current page is the requested one clamped to the last; it shows at most a page of consecutive rows, and some row when there is one |
| CustomerTable.PagesArePrefix | src/app/agent/components/CustomerTable.tsx:594-598 | the first n pages together are the first n page-sizes of rows |
| CustomerTable.PagesPartition | src/app/agent/components/CustomerTable.tsx:594-598 | all pages together are exactly the rows |
| CustomerTable.RowPage | src/app/agent/components/CustomerTable.tsx:594-598 | every row appears on its page at its offset |
| CsvExport.Escape | src/app/agent/components/CustomerTable.tsx:625 | doubling quotes never shortens a cell and leaves quote-free text alone |
| CsvExport.AgentCells | src/app/agent/components/CustomerTable.tsx:611-622 | the nine cells of a row, empty where there is no latest interaction |
| CsvExport.SupervisorCells | src/app/supervisor/components/CustomerTable.tsx:308-329 | the supervisor's cells are the agent name followed by the agent table's cells |
| CsvExport.SplitLine | src/app/agent/components/CustomerTable.tsx:627 | splitting at the first line feed recovers the line and the rest |
| CsvExport.ReadQuotedEscape | src/app/agent/components/CustomerTable.tsx:625-626 | reading a quoted, escaped cell gives back the text |
| CsvExport.ReadCellsRecord | src/app/agent/components/CustomerTable.tsx:623-627 | reading a record gives back its cells |
| CsvExport.ReadRecordsLines | src/app/agent/components/CustomerTable.tsx:627 | reading the joined records gives back every record |
| CsvExport.ReadCsvRoundTrip | src/app/agent/components/CustomerTable.tsx:623-627 | the written CSV reads back as its header line and its records |
| CsvExport.AgentCsvRoundTrip | src/app/agent/components/CustomerTable.tsx:610-627 | the agent export reads back as the header and one record per shown row |
| CsvExport.SupervisorCsvRoundTrip | src/app/supervisor/components/CustomerTable.tsx:308-329 | the supervisor export reads back as the header and one record per shown row |
| AgentTable.EditDefaults | src/app/agent/components/CustomerTable.tsx:319-332 | editing starts from the latest interaction's values, each with its default |
| AgentTable.Overlay | src/app/agent/components/CustomerTable.tsx:355-358 | override fields win over the form's; no override keeps the form |
| AgentTable.Snapshot | src/app/agent/components/CustomerTable.tsx:355-362 | the edit snapshot names the customer, the session user and the time, and drops the comment for an agent |
| AgentTable.RecordingBody | src/app/agent/components/CustomerTable.tsx:156-167 | the recording body carries the timed duration and defaults, and a comment only from a non-agent with a non-empty comment |
| AgentTable.AgentRecordsNoComment | src/app/agent/components/CustomerTable.tsx:165-167 | whatever an agent posts from the table, the stored interaction has no comment and the agent's own id |
| AgentTable.UnchangedEditRepeatsLatest | src/app/agent/components/CustomerTable.tsx:319-362 | saving an unchanged edit records the latest interaction's values again, for this customer at the new time |
| AgentTable.SelectedIds | src/app/agent/components/CustomerTable.tsx:81 | the selected ids are exactly the ticked keys |
| AgentTable.Deselect | src/app/agent/components/CustomerTable.tsx:656-659 | deleting the ids leaves the other entries unchanged |
| AgentTable.BulkDelete | src/app/agent/components/CustomerTable.tsx:655-659 | the rows left are the unticked ones in their original order, and no id stays selected |
| AgentTable.PageIds | src/app/agent/components/CustomerTable.tsx:913-915 | the non-empty ids of the rows on the page |
| AgentTable.SelectPage | src/app/agent/components/CustomerTable.tsx:913-915 | select-all sets every page id to the box's value and keeps the rest; then all visible rows are ticked, or not |
| SupervisorTable.EditStart | src/app/supervisor/components/CustomerTable.tsx:79-85 | the editor opens on the latest interaction's comment, or '' |
| SupervisorTable.LatestWithId | src/app/supervisor/components/CustomerTable.tsx:96-98 | the latest interaction of the edited row, when it has an id |
| SupervisorTable.SaveDecision | src/app/supervisor/components/CustomerTable.tsx:91-131 | with an interaction: PUT of the comment; without one, an admin POSTs a first interaction with the defaults, anyone else gets the error |
| SupervisorTable.SavedCommentIsStored | src/app/supervisor/components/CustomerTable.tsx:98-107 | a successful PUT stores the editor's text on that interaction and changes nothing else but the update time |
| SupervisorTable.AdminFirstInteraction | src/app/supervisor/components/CustomerTable.tsx:110-128 | an admin's first interaction records the comment with duration 0, pending, called and an empty note |
| SupervisorTable.LocalUpdate | src/app/supervisor/components/CustomerTable.tsx:135-144 | only the edited customer's row changes: its interaction takes the comment, or a row without one gets an element holding only the comment |
| SupervisorTable.CommentOnly | src/app/supervisor/components/CustomerTable.tsx:138-141 | the element spread from a missing interaction carries the comment and has no id |
| SupervisorTable.CommentOnlyRowPostsAgain | src/app/supervisor/components/CustomerTable.tsx:95-144 | after an admin's first interaction the row reopens on the comment, and saving again posts another interaction instead of updating one |
| SupervisorTable.LocalUpdateMatchesStore | src/app/supervisor/components/CustomerTable.tsx:98-144 | after a successful save the row shows the stored interaction, and the editor reopens on the saved text |
| AdminAnalytics.CustomersIn | src/app/admin/page.tsx:72-95 | a set never holds more customers than there are interactions |
| AdminAnalytics.CustomersInMembers | src/app/admin/page.tsx:81-95 | a customer is in a set exactly when one of its interactions falls in that bucket |
| AdminAnalytics.FollowUpCustomers | src/app/admin/page.tsx:81-95 | the loop fills the pending, completed and recent sets exactly |
| AdminAnalytics.StaleFollowUpCountsTwice | src/app/admin/page.tsx:83-89 | a customer with an older pending and a later completed interaction counts as both pending and completed |
| AdminAnalytics.RecentShrinks | src/app/admin/page.tsx:92-94 | a later cutoff never adds recent customers |
| AdminAnalytics.DurationOrZero | src/app/admin/page.tsx:129 | `callDuration \|\| 0` |
| AdminAnalytics.TotalDuration | src/app/admin/page.tsx:125-130 | an agent with no interaction has total duration 0 |
| AdminAnalytics.AgentOrderMembers | src/app/admin/page.tsx:124-133 | an agent is a key of the map exactly when it has an interaction |
| AdminAnalytics.AgentOrderDistinct | src/app/admin/page.tsx:124-133 | no agent is a key twice |
| AdminAnalytics.AgentMapKeys | src/app/admin/page.tsx:124-130 | an agent has an entry exactly when it is among the keys in insertion order |
| AdminAnalytics.AgentMapTotals | src/app/admin/page.tsx:124-130 | an agent's entry holds the number of its calls and the sum of their durations |
| AdminAnalytics.BuildAgentMap | src/app/admin/page.tsx:124-130 | the loop's map has one entry per agent with its call count and total duration |
| AdminAnalytics.RoundedAverage | src/app/admin/page.tsx:137 | `Math.round(total / calls)` for positive calls (half rounds up), 0 otherwise |
| AdminAnalytics.NameByIdKeys | src/app/admin/page.tsx:131-132 | an id has a name exactly when some user with the agent role has that id |
| AdminAnalytics.NameByIdLast | src/app/admin/page.tsx:131-132 | an agent's id maps to its name unless a later agent has the same id (the later one wins) |
| AdminAnalytics.DisplayName | src/app/admin/page.tsx:135 | the agent's non-empty name, else the first 6 characters of the id |
| AdminAnalytics.Entries | src/app/admin/page.tsx:133-137 | one row per agent, in map order, with its calls, display name and rounded average |
| AdminAnalytics.InsertByCalls | src/app/admin/page.tsx:138 | insertion adds the row and keeps the descending call order |
| AdminAnalytics.InsertByCallsPermutes | src/app/admin/page.tsx:138 | insertion adds exactly one row |
| AdminAnalytics.SortByCalls | src/app/admin/page.tsx:138 | the rows are a permutation, in descending call order |
| AdminAnalytics.TopPerformers | src/app/admin/page.tsx:138 | at most 8 rows from the entries, by calls descending |
| AdminAnalytics.TopPerformersAreTop | src/app/admin/page.tsx:138 | a row left out means 8 are shown, each with at least its calls |
| AdminAnalytics.CallsAddUp | src/app/admin/page.tsx:124-130 | the per-agent call counts add up to the number of interactions |
| AdminAnalytics.EntriesCountEveryCall | src/app/admin/page.tsx:124-137 | every call is counted once, and every agent row has at least one call |
| AdminAnalytics.Load | src/app/admin/page.tsx:66-166 | the cards: users, agents, prospects after the cutoff and the three customer counts, each 0 when its listing failed; the top performers |
| SupervisorPage.TotalCustomers | src/app/supervisor/page.tsx:84-86 | the sum is at least every agent's count, 0 for no agents |
| SupervisorPage.SumPending | src/app/supervisor/page.tsx:98-104 | the sum is at least every agent's count, 0 for no agents |
| SupervisorPage.TotalPendingFollowUps | src/app/supervisor/page.tsx:98-104 | the loop computes the sum of the pending counts |
| SupervisorPage.PendingMap | src/app/supervisor/page.tsx:89-95 | one key per listed agent, holding its last listed count |
| SupervisorPage.BuildPendingMap | src/app/supervisor/page.tsx:89-95 | the loop builds that map |
| SupervisorPage.CardPending | src/app/supervisor/page.tsx:188 | `map.get(id) \|\| 0` |
| SupervisorPage.AgentIds | src/app/supervisor/page.tsx:84-86 | the agents' ids, in listing order |
| SupervisorPage.TotalCustomersOfRows | src/app/supervisor/page.tsx:84-86 | the card's sum over per-agent counts is the sum of the counts |
| SupervisorPage.SumPendingOfRows | src/app/supervisor/page.tsx:98-104 | the card's sum over per-agent pending counts is the sum of the counts |
| SupervisorPage.TotalCustomersCountsEveryCustomer | src/app/supervisor/page.tsx:84-86 | when every customer belongs to an agent, the total is the number of customers |
| SupervisorPage.TotalPendingCountsOpenCustomers | src/app/supervisor/page.tsx:98-104 | the pending total is the number of customers whose latest interaction is open |
| SupervisorPage.CardShowsAgentsPending | src/app/supervisor/page.tsx:188 | each agent's card shows its own pending count |
| InteractionTable.Key | src/app/supervisor/components/InteractionTable.tsx:46 | the de-duplication key is the id when present |
| InteractionTable.FirstPos | src/app/supervisor/components/InteractionTable.tsx:44-48 | the first row with a key, if any |
| InteractionTable.FirstByKey | src/app/supervisor/components/InteractionTable.tsx:44-49 | the kept rows cover every key, each key once |
| InteractionTable.FirstByKeyKeepsFirst | src/app/supervisor/components/InteractionTable.tsx:47 | each kept row is the first fetched row with its key |
| InteractionTable.FirstByKeyInOrder | src/app/supervisor/components/InteractionTable.tsx:49 | kept rows come in the order their keys first appear |
| InteractionTable.FirstByKeyOfUnique | src/app/supervisor/components/InteractionTable.tsx:44-49 | a list without repeated keys is kept whole |
| InteractionTable.FirstByKeyIdempotent | src/app/supervisor/components/InteractionTable.tsx:44-49 | de-duplicating twice equals once |
| InteractionTable.Deduplicate | src/app/supervisor/components/InteractionTable.tsx:44-49 | the `forEach` over the map computes exactly the first rows by key |
| InteractionTable.Visible | src/app/supervisor/components/InteractionTable.tsx:111 | without an agent filter all rows; with one, exactly that agent's rows |
| InteractionTable.ErrorText | src/app/supervisor/components/InteractionTable.tsx:40-51 | the reply's message, the handler's default, the error's message, or 'An error occurred' |
| InteractionTable.AfterFetch | src/app/supervisor/components/InteractionTable.tsx:34-55 | a fetch ends loading with the de-duplicated rows, or with the error and the old rows |
| InteractionTable.EditComment | src/app/supervisor/components/InteractionTable.tsx:57-60 | editing opens that row on its comment, or '' |
| InteractionTable.SetComment | src/app/supervisor/components/InteractionTable.tsx:82-88 | rows with the saved id take the text; every other row is unchanged |
| InteractionTable.SaveComment | src/app/supervisor/components/InteractionTable.tsx:62-96 | success updates the rows and closes the editor; failure keeps rows and editor and shows the error |
| InteractionTable.CancelEdit | src/app/supervisor/components/InteractionTable.tsx:98-101 | cancel closes the editor and clears the text, changing no row |
| InteractionTable.Render | src/app/supervisor/components/InteractionTable.tsx:103-111 | loading text, else a non-empty error, else the visible rows |
| InteractionTable.EditCycle | src/app/supervisor/components/InteractionTable.tsx:57-101 | edit then cancel changes no row; after a save, editing that row starts from the saved text |
| InteractionTable.SavedRowMatchesStore | src/app/supervisor/components/InteractionTable.tsx:64-88 | the row updated after a successful save equals the stored interaction, up to its update time |
| Navigation.Items | src/components/Navigation.tsx:13-22 | nothing without a session; otherwise exactly the links whose roles include the user's |
| Navigation.ItemsUnrolled | src/components/Navigation.tsx:17-22 | the filter keeps each link in its place when the role sees it |
| Navigation.AdminItems | src/components/Navigation.tsx:17-22 | an admin sees all four links |
| Navigation.SupervisorItems | src/components/Navigation.tsx:17-22 | a supervisor sees Home, Agent and Supervisor dashboards, in order |
| Navigation.AgentItems | src/components/Navigation.tsx:17-22 | an agent sees Home and the Agent dashboard |
| Navigation.UnknownRoleItems | src/components/Navigation.tsx:22 | any other role sees no link |
| Navigation.ShownLinksAreOpenable | src/components/Navigation.tsx:17-22 | for a known role a link is shown exactly when the route check lets the user open it |
| Navigation.HrefsDiffer | src/components/Navigation.tsx:18-21 | the four links lead to four different routes, so each is a distinct list key |
| EventBus.ListenersOf | src/lib/websocket.ts:38-39 | a missing event has no listeners |
| EventBus.IndexOfCallback | src/lib/websocket.ts:29 | `indexOf`: -1 exactly when absent, else the first position |
| EventBus.RemoveFirst | src/lib/websocket.ts:29-32 | removes the first occurrence only, one fewer registration; an absent listener leaves the list alone |
| EventBus.Subscribed | src/lib/websocket.ts:18-23 | the listener is appended to its event's list, created if missing; other events unchanged |
| EventBus.Unsubscribed | src/lib/websocket.ts:26-34 | only that event's list loses the listener's first registration; other events unchanged |
| EventBus.SubscribeThenUnsubscribe | src/lib/websocket.ts:18-34 | subscribing a new listener and unsubscribing it restores every event's listeners |
| EventBus.UnsubscribeDropsOne | src/lib/websocket.ts:26-34 | unsubscribing lowers the listener's registrations by exactly one when it had any |
| EventBus.WebSocketService.constructor | src/lib/websocket.ts:6-8 | the registry starts empty |
| EventBus.WebSocketService.Subscribe | src/lib/websocket.ts:18-23 | the registry becomes the subscribed registry |
| EventBus.WebSocketService.Unsubscribe | src/lib/websocket.ts:26-34 | the registry becomes the unsubscribed registry |
| EventBus.WebSocketService.Emit | src/lib/websocket.ts:37-47 | every listener of the event is called once in order, a throwing one not stopping the rest; errors are the throwers in order |
| Notifications.OnInteractionsUpdated | src/components/Notification.tsx:20-40 | a non-empty update puts the new notice first, keeps at most 5 and shows the panel; an empty or missing one changes nothing |
| Notifications.Hide | src/components/Notification.tsx:36-38 | hiding keeps the list |
| Notifications.Remove | src/components/Notification.tsx:49-51 | exactly the notices with another id remain |
| Notifications.Rendered | src/components/Notification.tsx:53 | nothing when hidden or empty, else the list |
| Notifications.BoundedPreserved | src/components/Notification.tsx:32 | every change keeps at most five notices |
| Notifications.NewestFirst | src/components/Notification.tsx:32 | after two updates the later notice leads |
| Notifications.RemoveAbsent | src/components/Notification.tsx:49-51 | removing an id no notice has changes nothing |
| Notifications.RemovedNotRendered | src/components/Notification.tsx:49-53 | after removal no notice with that id is shown |

## Left out

- The MongoDB driver, connections and aggregation execution: queries are functions over in-memory lists. Ties between equal dates follow the store order (the source leaves them to the database).
- ObjectId parsing: ids are plain strings, so a malformed id is not an error here.
- bcrypt, next-auth sessions and JWT signing: the hash is a parameter and the session an input.
- Calendar windows (today, last 7 days, month or week picks) and the admin page's monthly trends (src/app/admin/page.tsx:101-121): they depend on local time. A window is given as two times.
- `localeCompare` and Unicode `toLowerCase`: names compare by ASCII-lowered lexicographic order.
- Timers: the cache's interval (only the sweep body is modelled), the recording timers, the event bus `startPolling` and the notification auto-hide timeout (modelled as the `Hide` step).
- `fetch`, JSON parsing and the concurrent `Promise.all` of the bulk delete: replies are inputs.
- Theme file reads and writes: the file content is an input and the written theme an output.
- ThemeRoute.Put: the file is modelled as a whole theme or none, and the write as always succeeding. A `theme.json` that parses but lacks `gradient` or `colors` makes the PUT throw for any field the body leaves out (src/app/api/theme/route.ts:68-79), and a failed `writeTheme` (line 83) throws too; both answer 500, which the model does not produce.
- JSX rendering, forms and the pages with no logic beyond wiring.
- The seeding, health, debug and test endpoints, and the node scripts.
- Durations that are fractions or NaN: durations are integers.
- The admin page reads the clock twice for its one-week cutoffs; the model uses one cutoff for both.
- Keys that look like array indexes or clash with object prototype names in `agentMap` and `nameById`: object keys keep insertion order here.
- The date part of the de-duplication key is the millisecond count rather than the ISO text the JSON carries; both are one-to-one in the date.
- Listeners that subscribe or unsubscribe while an event is emitted, and the payload passed to listeners.
- Cache entries of an unexpected shape: a cached value of the wrong kind is treated as a miss.
- The agent table's comment-only placeholder row, and `handleSaveInteraction` (src/app/agent/components/CustomerTable.tsx:420-446): the same POST as the edit snapshot.
- Middleware.GateCases: /agent pages pass with any token, while the route check also requires a known role; both behaviours are modelled as written.
- InteractionsRoute.PatchOf: a PUT changes only the comment, as the handler builds it; the store update accepts any field set. A comment that is neither text nor `null` (a number, an object) is not modelled.
- CustomerTable.Sort: stability of the JavaScript sort is not stated; rows equal in the sort key may come in any order.
- AdminAnalytics.SortByCalls: stability is not stated either.
- CustomersRoute.Get: the plain per-agent listing reads the store, while the handler goes through the two-minute cache of `getCustomersByAgent` (modelled in DbService.DatabaseService.GetCustomersByAgent). Every write of customers drops that key (src/lib/dbService.ts:70, src/app/api/customers/[id]/route.ts:105-107 and 142), so what is served is the same.
- SupervisorTable.CommentOnly: the element has no fields but the comment; the model gives the others the placeholder values "", `None`, `Pending`, `Called` and 0, which the page would show blank until it fetches the rows again.
- The singleton accessors `getInstance` of the cache, the store and the event bus: one instance is created explicitly.

## Findings

| source | as written | input that shows it | evidently intended | confidence | as-written member | corrected member |
|---|---|---|---|---|---|---|
| src/app/api/interactions/route.ts:167 | a comment PUT drops only the detailed list from the cache; the commented interaction's agent keeps its cached list | agent A lists its interactions at time t, a supervisor PUTs `{ id: I, supervisorComment: "call back" }` at t+1, and agent A's GET at t+2 shows I without the comment | the PUT also drops `interactions_agent_<agentId>`, as recording an interaction does (src/lib/dbService.ts:248-249) | medium; not executed | InteractionsRoute.StaleCommentExample | InteractionsRoute.CommentReachesAgentList |
| src/app/api/users/route.ts:181 | the PUT handler copies any non-empty `role` text into the update without checking it | PUT `{ id: "u1", role: "owner" }` by an admin stores role "owner", which no page or check recognises | the role is checked as on creation (one of admin, supervisor, agent) | medium; not executed | UsersRoute.UpdatesAsWrittenAdmitUnknownRole | UsersRoute.PutStatus |

Observations that are not errors, modelled as written:

- The admin page counts a customer as pending when any of its interactions is open. The supervisor statistics count only the latest interaction.
- An agent's POST of an interaction may carry a supervisor comment; only the tables drop it.
- GET of interactions by `customerId` does not check the caller's role or ownership.
- The users PUT handler does not validate a new e-mail or name.
- Renaming a user or a customer drops no cached list, so the detailed interaction list may show the old name for up to a minute.
