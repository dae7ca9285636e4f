# Verified model of the identity, notification, broker and database layers

The project models the services that keep users, sessions, events and messages of a multi-tenant
platform, and proves what they promise over whole runs:

- **Login, lockout and sessions.** User rows with a failure counter, a session store with leases, a
  clock and the history of everything issued form one state machine (`Sessions`). `SessionSafety`
  proves which tokens are ever accepted, `SessionRequests` exactly when each request succeeds and what it leaves, `Lockout` and `LockoutExact` how many wrong passwords are
  looked at, `TableSafety` what the tables keep meanwhile.
- **Directory.** Users, groups, roles and their relations (`Directory`), the invariants that every
  request keeps (`DirectoryInvariants`), exactly when each request succeeds and what it leaves column by column
  (`DirectoryRequests`), what requests leave behind and who may make them
  (`DirectoryEffects`), who can log in with what (`Credentials`, with the text lengths of `Utf8`), and
  the handlers as an object that works on a copy of the tables and commits it (`IdentityHandlers`).
- **Lists.** Filters folded into one query (`UserQuery`, `Like`), the event query and its builder
  (`EventQuery`), page numbers (`Paging`).
- **Broker.** The reconnect gate (`ReconnectGate`), the resubscribe delay (`Backoff`), deliveries and
  their settlement (`Delivery`).
- **Test-mode transactions** (`TestTransaction`), **event retention** (`Retention`), **tenant
  configuration** (`TenantConfig`, over the decimal text of `Decimal`) and **session keys**
  (`SessionKey`, padded URL-safe base64 of section 5 of RFC 4648).

Code that changes fields step by step is a class or a method with loops; its contract ties it to a
function on values, and the lemmas are about that function. `dafny verify dfyconfig.toml` checks
everything.

## Where the code does not do what one would expect

Each of these is a lemma or a contract, with the exact condition under which the expected property holds.

- The failure counter is a SMALLINT column (documents/database/cdm-cloud-ddl.sql:114). A count that no
  longer fits cannot be saved, and the error is only logged. The lockout bound holds for all runs up to a
  time exactly when the counter and what may still be added fit the column, or the account is too long to
  log in with; otherwise any number of wrong passwords is looked at (`LockoutExact.BoundedIffCounterFits`).
- An account is admitted with thirty characters but accepted at a login with thirty bytes: a user just
  added can log in exactly when his account has at most thirty bytes (`Credentials.AddedUserCanLogIn`), and
  with eleven Hangul syllables he never can (`Credentials.HangulAccountLocksOut`).
- Adding or updating a user asks only whether a group exists and belongs to the tenant. Deleted groups stay
  without members exactly through the requests that do not name one in this way
  (`DirectoryEffects.DeletedEmptyIffNotRevived`), and all through a run exactly when no request of it does
  (`DirectoryEffects.RunDeletedEmptyIffNeverRevived`).
- Name, department and position filters pass the text to LIKE unescaped: they mean "occurs in" exactly
  for texts without `%`, `_` and backslash (`Like.FindsSubstringsIffPlain`).
- The event query clamps the limit to 10..100 but the page numbers use the limit as requested: the pages
  cover the events exactly when the limit is in that range, or one page holds everything
  (`EventQuery.PagesCoverTheEvents`).
- A connection declares its persistent queues in a loop without end, and only the goroutine in that loop could
  replace a broken connection. When the link is lost there, by itself or by a disconnect, the loop is stuck for
  ever: the gate stays open and whoever waits at it never passes (`ReconnectGate.StuckNeverPasses`). A waiting
  subscriber can still pass exactly if the loop is not stuck (`ReconnectGate.WaiterPassesIffNotStuck`), and from
  within an attempt the loop comes back without being stopped exactly if the link is not lost while channels are
  opened or queues declared (`ReconnectGate.LoopSurvives`).
- An attempt that fails while channels are opened closes the close channel, as a disconnect does. The reconnect
  loop can come to return exactly when one of the two happened and it is not stuck
  (`ReconnectGate.LoopEndsIffStopped`, `ReconnectGate.LoopCanEndIffStopped`); after a half-way failure it returns
  with the connection marked connected, and a later break goes unnoticed
  (`ReconnectGate.HalfwayFailureEndsReconnecting`).
- After a disconnect the connection stays down in every schedule exactly if the loop has returned already or is
  stuck (`ReconnectGate.StaysDownIff`); any other loop may connect once more, so a disconnect leaves a schedule that
  ends connected exactly unless queues are left to declare at that moment
  (`ReconnectGate.DisconnectMayLeaveConnection`, with the input in `ReconnectGate.DisconnectWhileDeclaring`).
- A failed dial leaves no connection, and a disconnect then dereferences nil and panics: exactly if nothing stopped
  the service before and its last dial failed (`ReconnectGate.DisconnectDereferencesNil`).
- Session keys of negative numbers, and groups above the signed range, make a user list fail: the database refuses
  such ids (`UserQuery.GetUsers`).
- Every message that left a queue was handled without an error, in all runs, exactly when it is acknowledged
  by hand and requeued on errors (`Delivery.NothingLostIffRequeued`).
- A user update reports an unknown language under the name of the department parameter
  (services/identity/handler/user.go:380-382), exactly when nothing checked before it is wrong
  (`DirectoryEffects.BadLanguageNamesDepartment`).

## Model

| member | source | states |
|---|---|---|
| Decimal.PrintedNatParses | services/identity/handler/config.go:162-221 | every natural number printed in decimal parses back to itself |
| Decimal.NumbersAreDigits | services/identity/handler/config.go:88-160 | exactly the non-empty runs of digits are numbers |
| Decimal.PrintedIntParses | common/config/value.go:14-21 | every 64-bit value printed in decimal parses back, signed and, when not negative, unsigned |
| Decimal.PrintedBoolParses | common/config/value.go:9-11 | both booleans printed parse back |
| TenantConfig.AcceptedInRange | services/identity/handler/config.go:15-86 | an accepted configuration has every parameter the write needs, each within its boundary |
| TenantConfig.AcceptedIff | services/identity/handler/config.go:15-86 | a configuration is accepted if and only if everything is sent and known or in range; the two restriction numbers are looked at only while restriction is on |
| TenantConfig.RoundTrip | services/identity/handler/config.go:88-221 | a configuration accepted and written is read back equal, with the two restriction numbers blank when restriction is off, and other tenants are untouched |
| TenantConfig.OtherRowsStay | services/identity/handler/config.go:162-221 | rows that are no settings, and those of the restriction numbers while it is off, keep their text |
| TenantConfig.RestrictionReadsBack | services/identity/handler/session.go:217-266 | what the login code reads after a write is the restriction that was written, also when stale numbers of an earlier write are still stored |
| TenantConfig.RestrictionIff | services/identity/handler/session.go:217-266 | logins are restricted to so many tries per so many seconds if and only if the three stored texts say so |
| TenantConfig.AcceptedPolicy | services/identity/handler/session.go:84-126 | after an accepted write the session timeout and the restriction the login code sees are the ones accepted, within their bounds |
| TenantConfig.ReadableForever | services/identity/handler/config.go:88-160 | settings that can be read, or that one accepted write made readable, can be read after any later writes |
| TenantConfig.LastWriteWins | services/identity/handler/config.go:162-221 | of two accepted writes a reader sees nothing of the first |
| IdentityHandlers.SaveSettings | services/identity/handler/config.go:162-221 | saving key by key leaves the older rows overwritten by exactly the keys written, the two restriction keys only while restriction is on |
| IdentityHandlers.IdentityHandler.SetConfig | services/identity/handler/handler.go:760-786 | a refused configuration changes nothing; an accepted one changes only the tenant's rows and is read back for the answer as it was sent, the two restriction numbers blank when restriction is off |
| SessionKey.Base64RoundTrip | services/identity/handler/session.go:439-456 | decoding an encoded byte string gives it back |
| SessionKey.QuantaRoundTrip | services/identity/handler/session.go:59-75 | three bytes at a time, with padding at the end, symbols decode to the bytes they encode |
| SessionKey.QuantaCanonical | services/identity/handler/session.go:439-456 | symbols that decode and whose unused bits are zero are the encoding of what they decode to |
| SessionKey.DecodedIsEncoding | services/identity/handler/session.go:439-456 | a decodable text without line breaks is the encoding of its bytes exactly when its unused bits are zero |
| SessionKey.SplitAtDot | services/identity/handler/session.go:439-456 | two dot-free texts joined by a dot are split into exactly those two parts |
| SessionKey.ParsedIff | services/identity/handler/session.go:439-456 | a key is read if and only if it is two parts with one dot between them that both decode, and gives what they decode to |
| SessionKey.KeyRoundTrip | services/identity/handler/session.go:59-75 | parsing a printed session key gives back exactly payload and signature bytes |
| SessionKey.KeysDistinct | services/identity/handler/session.go:59-75 | distinct pairs of payload and signature give distinct keys |
| SessionSafety.LoginIsAllOrNothing | services/identity/handler/handler.go:569-617 | every login ends in one of three ways: one new session and a cleared count, one more recorded failure and the sessions untouched, or nothing changed at all |
| SessionRequests.LoginIff | services/identity/handler/session.go:217-336 | a login succeeds if and only if account and password are there and not too long, the password is the stored one, the address is known, there is no other session or it is forced, and the account has no failures, or restriction is off, or the failures are no multiple of the tries, or the time has passed; it fails on the password, the restriction or an older session under exactly the corresponding conditions |
| SessionRequests.UnknownAccount | services/identity/handler/handler.go:593-600 | nobody logs in under an account no user has, and nothing changes |
| SessionRequests.LoginLeaves | services/identity/handler/session.go:77-126 | the key handed out is of the user, for his address, and ends after the idle time of his tenant; it is stored with that lease, and the row shows time and address of the login and a cleared count |
| SessionRequests.PasswordDueIff | services/identity/handler/session.go:364-387 | a login marks the password as due if and only if it was marked or is at least as old as the change cycle, ninety days if none is set |
| SessionRequests.SettingsTakeEffect | services/identity/handler/handler.go:760-786 | an accepted configuration is from then on the idle time, change cycle and restriction of its tenant, and of no other |
| SessionRequests.VerifyIff | services/identity/handler/session.go:459-520 | a key is accepted if and only if it was issued, its user has a stored session of the same login and address, it has not expired, and the user can be read; it is then replaced by one of the same login |
| SessionRequests.LogoutIff | services/identity/handler/session.go:153-215 | a logout passes if and only if the key is of the caller and he has a session, and takes just that session away |
| SessionRequests.RevokeIff | services/identity/handler/session.go:171-215 | a revocation passes if and only if the user is of the tenant and has a session, of the built-in account only for an administrator, and takes just that session away |
| SessionRequests.SessionEndsIffAsked | services/identity/handler/handler.go:620-733 | a logout or revocation ends a session if and only if it was asked for by somebody who may |
| SessionRequests.FreshKeyIsAccepted | services/identity/handler/session.go:77-151 | a key just handed out is accepted when presented at once |
| SessionRequests.LapseIff | common/store/etcd_store.go:202-229 | a lease lapses in the second in which it ends, not before, and takes just its session away |
| SessionSafety.NextKeepsSound | services/identity/handler/session.go:77-151 | every step keeps: a stored session is the newest key of its user, belongs to his latest login and its lease ends with the key; a magic number belongs to one login |
| SessionSafety.RunKeepsSound | services/identity/handler/session.go:77-215 | the same over every run of the service with fresh magic numbers |
| SessionSafety.HistoryIsTheRun | services/identity/handler/session.go:77-151 | the recorded history is exactly what the run issued, logged in and last handed out |
| SessionSafety.AcceptedBelongsToLatestLogin | services/identity/handler/session.go:459-520 | a token accepted after any run was issued in that run and carries the magic number and address of that user's latest login |
| SessionSafety.EndedForEver | services/identity/handler/session.go:200-215 | after a logout or revocation was asked for by somebody who may, and after a new login, no token issued to the user before is ever accepted again |
| SessionSafety.WhoEndsSessions | services/identity/handler/session.go:153-215 | a session disappears only by its user's own logout, a revocation in his tenant, for the built-in account by an administrator, or with its lease |
| SessionSafety.NewestKeyAccepted | services/identity/handler/session.go:459-520 | strictly before its expiry the newest token of a user who was not logged out or revoked is accepted from the login address |
| SessionSafety.RejectedAfterExpiry | services/identity/handler/session.go:480-517 | strictly after the newest token's expiry every token of the user is rejected, also older ones issued under a longer timeout |
| SessionSafety.KeySpans | services/identity/handler/session.go:43-56 | a key lives between a minute and a day, and its entry's lease ends with it |
| SessionSafety.TickKeepsSound | common/store/etcd_store.go:202-229 | passing time takes away exactly the sessions whose key has expired by then and leaves the others as they are |
| TableSafety.RunKeepsTables | services/identity/handler/handler.go:127-218 | over every run of logins, sessions, configuration and directory requests the tables stay consistent and evolve as allowed |
| TableSafety.NextKeepsConsistent | services/identity/handler/session.go:268-437 | every single step keeps all table invariants |
| TableSafety.NeverNil | services/identity/handler/session.go:217-266 | no login reads a failure time that is not there: a positive count always has one |
| Lockout.AllowanceUsed | services/identity/handler/session.go:217-296 | one wrong password looked at uses up exactly one of the tries left until a given time |
| Lockout.AllowanceShrinks | services/identity/handler/session.go:217-266 | waiting never adds tries |
| Lockout.WrongPasswordEffect | services/identity/handler/session.go:268-296 | a wrong password is looked at only while the account is open, and then only the counter and its time change, if the count fits |
| Lockout.OtherStepsKeepCounter | services/identity/handler/session.go:298-437 | no step but a wrong password, a login, a profile update or a deletion touches an account's counter |
| Lockout.RateBoundIsProduct | services/identity/handler/session.go:217-266 | n tries per begun window are n * (floor(seconds / r) + 1) |
| Lockout.WrongPasswordsBounded | services/identity/handler/session.go:217-336 | between two times at most n * (floor((b - a) / r) + 1) wrong passwords are looked at in every undisturbed run, as long as the counter fits its column |
| LockoutExact.FullCounterNeverRestricts | services/identity/handler/handler.go:572-590 | with the column full an open account that a login can name is never restricted again, whatever the number of guesses |
| LockoutExact.Overrun | services/identity/handler/session.go:268-296 | when the tries left take the counter of such an account beyond its column, a run within the time looks at any number of wrong passwords |
| LockoutExact.LongAccountsAreNeverTried | services/identity/handler/session.go:303-305 | under an account of more than thirty bytes no password is ever looked at |
| LockoutExact.BoundedIffCounterFits | services/identity/handler/session.go:217-336 | the bound holds for all undisturbed runs up to a time if and only if the account has more than thirty bytes or counter and remaining tries fit the column |
| Directory.CheckGroups | services/identity/handler/user.go:221-232 | groups are accepted exactly when each exists and belongs to the tenant |
| Directory.CheckRoles | services/identity/handler/user.go:233-241 | roles are accepted exactly when each exists |
| Directory.CheckMembers | services/identity/handler/group.go:288-329 | members are accepted exactly when each is a user of the tenant |
| Directory.MembersReplaced | services/identity/handler/group.go:331-368 | membership rows of one group are replaced by the list, all others stay |
| IdentityModel.Replaced | services/identity/handler/user.go:392-429 | relation rows of one user are replaced by the list, all others stay |
| DirectoryInvariants.AddUserKeeps | services/identity/handler/user.go:155-264 | adding a user keeps all invariants |
| DirectoryInvariants.UpdateUserKeeps | services/identity/handler/user.go:271-389 | updating a user keeps all invariants, his account and his tenant |
| DirectoryInvariants.DeleteUserKeeps | services/identity/handler/user.go:580-630 | deleting a user keeps all invariants and never takes the built-in account away |
| DirectoryInvariants.AddGroupKeeps | services/identity/handler/group.go:84-157 | adding a group keeps live names unique within a tenant and everything else |
| DirectoryInvariants.UpdateGroupKeeps | services/identity/handler/group.go:159-238 | updating a group keeps its tenant, unique live names and everything else |
| DirectoryInvariants.DeleteGroupKeeps | services/identity/handler/group.go:240-286 | deleting a group keeps all invariants and keeps deleted groups deleted |
| DirectoryInvariants.SetGroupUsersKeeps | services/identity/handler/group.go:288-368 | setting members joins only existing users and groups of one tenant |
| DirectoryInvariants.RequestKeeps | services/identity/handler/handler.go:127-523 | every user and group request fails or keeps: memberships join within a tenant, role rows join, the built-in account is the sole administrator, accounts, e-mails and live group names are unique |
| DirectoryInvariants.EvolvesTransitive | services/identity/handler/user.go:286-339 | immutability composes over runs: nothing deleted comes back, no id is used twice |
| DirectoryInvariants.TenantsAreIsolated | services/identity/handler/user.go:286-339 | a request for one tenant leaves users, groups and relations of all others as they were |
| DirectoryEffects.AddedUserRelations | services/identity/handler/user.go:432-490 | a new user has exactly the roles and groups asked for and nobody else's change |
| DirectoryEffects.UpdatedUser | services/identity/handler/user.go:496-578 | which columns survive an update, and that roles and groups are replaced by those sent exactly for an administrator or a manager and a user other than the built-in one |
| DirectoryRequests.AddUserIff | services/identity/handler/user.go:155-264 | a user is added if and only if account, mail address, texts, groups and roles are right and free; his row shows what was sent |
| DirectoryRequests.UpdateUserIff | services/identity/handler/user.go:496-578 | a user is updated if and only if what was sent is right and the caller may; the row shows what was sent, and roles and groups are replaced exactly for callers who may change them |
| DirectoryRequests.DeleteUserIff | services/identity/handler/user.go:580-630 | a user is deleted if and only if he is of the tenant and does not hold the administrator role; his row and relations are gone, all others stay |
| DirectoryRequests.WhoChangesRoles | services/identity/handler/user.go:519-527 | an existing user's role rows change only with his deletion, or through an update by an administrator or a manager that sends the change, never for the built-in account |
| DirectoryRequests.WhoChangesGroups | services/identity/handler/user.go:519-527 | the same for membership rows, which deleting the group or setting its members changes too |
| DirectoryRequests.UpdatePasswordIff | services/identity/handler/user.go:769-859 | a password is changed if and only if its user names the current one and another that is not too long and, unless the tenant allows it, not the one before |
| DirectoryRequests.ResetPasswordIff | services/identity/handler/user.go:861-921 | a password is reset if and only if the user is of the tenant, of the built-in account not by a manager |
| DirectoryRequests.AddGroupIff | services/identity/handler/group.go:84-157 | a group is added if and only if its name is free among the live groups of the tenant and the texts are right; the row shows what was sent |
| DirectoryRequests.UpdateGroupIff | services/identity/handler/group.go:159-238 | a live group of the tenant is updated under the same conditions |
| DirectoryRequests.DeleteGroupIff | services/identity/handler/group.go:240-286 | a group is deleted if and only if it is a live one of the tenant and not called default; it loses its members and no other group does |
| DirectoryRequests.SetGroupUsersIff | services/identity/handler/group.go:288-368 | members are set if and only if the group is a live one of the tenant and all of them are its users; the members are then exactly those |
| DirectoryEffects.WhoMayChangeAUser | services/identity/handler/user.go:286-299 | whatever the request, a user's row changes or goes away only by an administrator, a manager or himself, by whoever names his current password, or by a reset or deletion in his tenant; the built-in account is deleted by nobody, updated by administrators only and never reset by managers |
| DirectoryEffects.GroupMembersSet | services/identity/handler/group.go:270-368 | a group has exactly the members set, and none after deletion; other groups keep theirs |
| DirectoryEffects.DeletedEmptyIffNotRevived | services/identity/handler/user.go:221-232 | after any request deleted groups are still without members if and only if the request did not add or update a user with a deleted group |
| DirectoryEffects.RunDeletedEmptyIffNeverRevived | services/identity/handler/user.go:341-366 | all through a run of the service deleted groups have no members if and only if no request revives one |
| DirectoryEffects.BadLanguageNamesDepartment | services/identity/handler/user.go:380-382 | the language error carries the name of the department exactly when the language is unknown and everything checked before is right |
| DirectoryEffects.ChangingBack | services/identity/handler/user.go:769-859 | changing a password straight back works exactly when old passwords may be used again |
| Credentials.OnlyResetPasswordLogsIn | services/identity/handler/user.go:861-921 | after a reset only the password it made logs the user in, through every run in which nobody resets it again or changes it with that password in hand |
| Credentials.AddedUserCanLogIn | services/identity/handler/session.go:298-336 | a user just added can log in if and only if his account has at most thirty bytes; otherwise every login with it overflows |
| Credentials.HangulAccountLocksOut | services/identity/handler/user.go:185-191 | a user with an account of eleven Hangul syllables can be added to any tenant and never logs in |
| Credentials.PasswordAges | services/identity/handler/session.go:364-391 | after a change of password a login asks for another exactly when the days of the change cycle have passed, after a reset always |
| IdentityHandlers.UpdateUserRoleRelations | services/identity/handler/user.go:412-429 | deleting all role rows and saving one per role replaces the user's rows |
| IdentityHandlers.UpdateUserGroupRelations | services/identity/handler/user.go:392-409 | the same for membership rows of a user |
| IdentityHandlers.ReplaceGroupMembers | services/identity/handler/group.go:331-368 | the same for the membership rows of a group |
| IdentityHandlers.IdentityHandler.Login | services/identity/handler/handler.go:569-617 | the handler, with its deferred failure recording, does what the login step says |
| IdentityHandlers.IdentityHandler.LoginTransaction | services/identity/handler/handler.go:592-616 | tables are committed only when a session was made |
| IdentityHandlers.IdentityHandler.LoginRow | services/identity/handler/session.go:338-437 | the working tables after the login row was saved, or the error |
| IdentityHandlers.IdentityHandler.StampLogin | services/identity/handler/session.go:350-391 | the row stamped field by field is the logged-in row |
| IdentityHandlers.IdentityHandler.OpenSession | services/identity/handler/session.go:77-126 | an existing session refuses the login unless forced, and then is replaced |
| IdentityHandlers.IdentityHandler.RecordFailedLogin | services/identity/handler/session.go:268-296 | the count is raised by one and the time set, if the count fits |
| IdentityHandlers.IdentityHandler.VerifySession | services/identity/handler/handler.go:659-703 | a session that verifies is refreshed with the same magic number, any other changes nothing |
| IdentityHandlers.IdentityHandler.Logout | services/identity/handler/handler.go:620-656 | only the caller's own session is deleted; a payload that is null is dereferenced |
| IdentityHandlers.IdentityHandler.RevokeSession | services/identity/handler/handler.go:706-733 | a session of a user of the tenant is deleted, the built-in one only by an administrator; a payload that is null is dereferenced |
| IdentityHandlers.IdentityHandler.DeleteSession | services/identity/handler/session.go:200-215 | the entry is removed, or reported missing |
| IdentityHandlers.IdentityHandler.AddUser | services/identity/handler/handler.go:127-162 | commits the tables with the new user and his relations, or nothing; a request without a user is dereferenced |
| IdentityHandlers.IdentityHandler.UpdateUser | services/identity/handler/handler.go:166-193 | commits the rewritten row and relations, or nothing |
| IdentityHandlers.IdentityHandler.DeleteUser | services/identity/handler/handler.go:196-218 | commits the tables without the user and his relations, or nothing |
| IdentityHandlers.IdentityHandler.UpdateUserPassword | services/identity/handler/handler.go:300-327 | commits the new password with the old one remembered, or nothing |
| IdentityHandlers.IdentityHandler.ResetUserPassword | services/identity/handler/handler.go:330-352 | commits the generated password, to be changed at the next login, or nothing |
| IdentityHandlers.IdentityHandler.AddGroup | services/identity/handler/handler.go:420-442 | commits the new group, or nothing |
| IdentityHandlers.IdentityHandler.UpdateGroup | services/identity/handler/handler.go:445-472 | commits the rewritten group, or nothing |
| IdentityHandlers.IdentityHandler.DeleteGroup | services/identity/handler/handler.go:475-497 | commits the group marked deleted and without members, or nothing |
| IdentityHandlers.IdentityHandler.SetGroupUsers | services/identity/handler/handler.go:501-523 | commits the replaced members, or nothing |
| Like.FindsSubstringsIffPlain | services/identity/handler/user_filter.go:122-144 | the text filters mean "occurs in" if and only if the text has no special character |
| Like.PlainFindsSubstrings | services/identity/handler/user_filter.go:122-144 | a plain text matches exactly the texts it occurs in |
| Like.SpecialFindsMore | services/identity/handler/user_filter.go:122-144 | any other text matches some non-empty text it does not occur in |
| UserQuery.ApplySolution | services/identity/handler/user_filter.go:26-60 | the two-stage id lists narrow the query by exactly the join of users, role rows and roles, also when a stage finds nothing |
| UserQuery.HoldersFetched | services/identity/handler/user_filter.go:26-60 | users found through a list of role ids are exactly those of the join |
| UserQuery.ApplyGroup | services/identity/handler/user_filter.go:96-114 | narrows the query to the members of the group, to nobody if it has none; a group above the signed range fails |
| UserQuery.ApplyExcludeGroup | services/identity/handler/user_filter.go:69-87 | narrows the query to those who are not members, to everybody if there is no member; a group above the signed range fails |
| UserQuery.ApplyLogin | services/identity/handler/user_filter.go:162-182 | narrows the query to users with a session key, skipping keys without a number; a negative one makes the list unsendable |
| UserQuery.ApplyFilter | services/identity/handler/user_filter.go:26-182 | every filter narrows the query by its relational meaning; the page leaves the conditions alone |
| UserQuery.GetUsers | services/identity/handler/user.go:659-676 | folding filters gives exactly the page of the tenant's users that meet all of them, or the error when a filter or its ids are refused |
| UserQuery.GetUsersPagination | services/identity/handler/user.go:730-767 | the total counts the same users without the page, wherever the page filter stands |
| UserQuery.OrderIsIrrelevant | services/identity/handler/user.go:665-752 | neither list nor page numbers depend on the order of the filters |
| UserQuery.MakeUserFilter | services/identity/handler/handler.go:220-256 | the filters made are exactly those the request asks for |
| UserQuery.FiltersMean | services/identity/handler/handler.go:220-256 | a user meets the filters made from a request exactly when he is what the request asks for |
| UserQuery.HandleGetUsers | services/identity/handler/handler.go:259-297 | the answer is the page of the users asked for with the numbers of the whole list, no content, or the error; every user listed is asked for by the columns of the tables, each once |
| UserQuery.ListedIffAskedFor | services/identity/handler/user.go:665-676 | the whole list holds a user if and only if he is of the tenant and asked for, by the columns and rows of the tables, each once and in table order |
| UserQuery.UnpagedAnswer | services/identity/handler/handler.go:259-297 | without a page the answer is everybody asked for, as one page, and no content exactly when there is nobody |
| UserQuery.EverybodyCollectedOnce | services/identity/handler/user.go:730-767 | the reported pages of any size together hold exactly the users asked for, each exactly once |
| UserQuery.AnswerableIff | services/identity/handler/user.go:632-654 | when a list request can be answered at all |
| UserQuery.PagesCoverTheList | services/identity/handler/user.go:730-767 | asking for pages one after another gives every user asked for exactly once and in order just when as many pages are asked for as reported |
| UserQuery.EveryPageAnswers | services/identity/handler/handler.go:259-297 | each page up to the reported count is answered with its users, its number and the same totals |
| UserQuery.SessionsListed | services/identity/handler/user_filter.go:162-182 | when the keys listed are those of the users with a session and others without a number, the login filter finds exactly these users |
| Paging.OffsetOnAPage | services/notification/handler/utils.go:140-154 | an offset below the total lies on the page reported for it, between 1 and the page count |
| Paging.PageCount | services/notification/handler/utils.go:140-154 | the page count is the least number of pages that hold the total, as long as total + limit - 1 does not wrap |
| Paging.PagesCoverIff | services/identity/handler/user.go:730-767 | the first pages hold every row exactly once if and only if there are at least as many as reported |
| Paging.WrongStepMismatch | services/notification/handler/handler.go:158-188 | pages whose size is not their distance repeat rows or leave some out |
| EventQuery.Clamp | services/notification/event/query.go:26-35 | the limit used lies between 10 and 100 and is the one asked for if that does |
| EventQuery.EventsQuery.Limit | services/notification/event/query.go:26-35 | sets the clamped limit and nothing else |
| EventQuery.EventsQuery.Offset | services/notification/event/query.go:38-41 | sets the offset and nothing else |
| EventQuery.MakeConditions | services/notification/event/event.go:215-236 | the conditions of the query are exactly those the criteria ask for |
| EventQuery.ConditionsMean | services/notification/event/event.go:215-236 | these conditions select exactly the events asked for, events of unknown code included only when nothing is asked of the code |
| EventQuery.OneListing | services/notification/event/event.go:241-241 | creation time and id, both descending, leave exactly one order |
| EventQuery.GetEvents | services/notification/event/event.go:208-267 | the rows are the slice of the ordered events asked for, latest first by creation time and then id; the count is of all of them |
| EventQuery.ListedIffAskedFor | services/notification/event/event.go:208-267 | the whole list holds an event if and only if it is asked for by its columns and those of its code, each once, later creation first and of the same time the greater id first |
| EventQuery.AnswerIsLatestFirst | services/notification/handler/handler.go:158-188 | every answer lists events asked for, latest first, and counts all of them; there is no content exactly when nothing is asked for |
| EventQuery.EverythingCollectedOnce | services/notification/handler/handler.go:158-188 | the reported pages of a limit in 10..100 together hold exactly the events asked for, each exactly once, latest first |
| EventQuery.HandleGetEvents | services/notification/handler/handler.go:133-191 | authorization, parameters and dates are checked in this order; then the answer joins rows of the clamped limit with page numbers of the limit as requested |
| EventQuery.CheckAuthorization | services/notification/handler/utils.go:91-103 | managers, administrators and holders of a role of the solution itself may read events, nobody else |
| EventQuery.ValidateGetEventsParams | services/notification/handler/utils.go:206-238 | parameters pass exactly when the texts have at most 100 bytes and the level is known; no limit is refused |
| EventQuery.ValidDates | services/notification/handler/utils.go:105-138 | dates pass exactly when those given can be read and an end given is not before the start |
| EventQuery.PagesCoverTheEvents | services/notification/handler/handler.go:158-188 | the reported pages give every event once, newest first, if and only if the limit is within 10..100, or one page holds all, or there is none |
| ReconnectGate.GatesAreSafe | common/broker/rabbitmq_connection.go:56-128 | in every interleaving no gate is closed twice, every gate but the current one is closed, and the current one is open exactly from a lost connection to the end of the next success |
| ReconnectGate.NobodyIsLeftWaiting | common/broker/rabbitmq.go:80-104 | whenever the loop is back at watching or has returned, every gate anybody waits at is closed |
| ReconnectGate.WaiterPassesIffNotStuck | common/broker/rabbitmq.go:80-104 | whoever waits at an open gate can still pass it if and only if the loop is not stuck declaring queues on a broken connection |
| ReconnectGate.StuckNeverPasses | common/broker/rabbitmq_connection.go:266-276 | once the link is lost while queues are declared the gate stays open for ever; whoever waits at it never passes, and quits only if the close channel is closed |
| ReconnectGate.WayHomeLeadsHome | common/broker/rabbitmq_connection.go:232-278 | any other attempt can be brought to its end, with the gate closed and the connection marked; only one that lost its link while opening channels stops the loop on the way |
| ReconnectGate.StoppedIffEverStops | common/broker/rabbitmq_connection.go:152-164 | the close channel is closed if and only if somebody disconnected or an attempt failed while opening channels, and stays so |
| ReconnectGate.LoopSurvives | common/broker/rabbitmq_connection.go:90-128 | without either the loop has not returned, and from within an attempt it can come back to watching without being stopped if and only if the link is not lost while channels are opened or queues declared |
| ReconnectGate.LoopEndsIffStopped | common/broker/rabbitmq_connection.go:90-128 | after any run the loop's own steps make it return if and only if it is not stuck and the run stopped it or its attempt must fail half-way |
| ReconnectGate.LoopCanEndIffStopped | common/broker/rabbitmq_connection.go:90-128 | some continuation without a further stop makes the loop return if and only if the run had one and the loop is not stuck |
| ReconnectGate.HalfwayFailureEndsReconnecting | common/broker/rabbitmq_connection.go:232-278 | after one half-way failure the loop returns for good, leaves the connection marked connected, and a later break goes unnoticed |
| ReconnectGate.StaysDownIff | common/broker/rabbitmq_connection.go:152-164 | after a disconnect the connection stays down in every schedule if and only if the loop has returned or is stuck |
| ReconnectGate.DisconnectMayLeaveConnection | common/broker/rabbitmq.go:279-289 | a disconnect of a service never stopped before leaves a schedule that ends with the connection marked connected if and only if no queue is left to declare at that moment |
| ReconnectGate.DisconnectWhileDeclaring | common/broker/rabbitmq_connection.go:266-276 | the link breaks, a dial succeeds and somebody disconnects while a queue is declared: the loop never returns, nothing connects, the gate stays open |
| ReconnectGate.DisconnectDereferencesNil | common/broker/rabbitmq_connection.go:152-164 | a disconnect dereferences nil if and only if nothing stopped the service before and its last dial failed |
| ReconnectGate.ConsumesIff | common/broker/rabbitmq.go:80-117 | a subscriber starts to receive if and only if a check past the gate finds the connection marked and consumes from it |
| ReconnectGate.WaitsUntil | common/broker/rabbitmq.go:80-104 | a waiting subscriber passes exactly when his gate is closed and quits only when the close channel is |
| ReconnectGate.NewSubscriberConsumes | common/broker/rabbitmq.go:188-248 | while the loop watches a marked connection a new subscriber gets through to it |
| ReconnectGate.LeavingForEver | common/broker/rabbitmq.go:64-90 | an unsubscribed subscriber that is not between gate and check never waits at a gate again |
| ReconnectGate.RabbitMQConn.Round | common/broker/rabbitmq_connection.go:90-128 | one round of the loop on the shared fields takes the steps of the state machine |
| ReconnectGate.RabbitMQConn.Close | common/broker/rabbitmq_connection.go:152-164 | closing twice is harmless; the first time dereferences nil exactly when the last dial failed |
| Backoff.Resubscribe | common/broker/rabbitmq.go:74-136 | the loop sleeps as the closed form says and stops at the first round that ends it |
| Backoff.StoredNext | common/broker/rabbitmq.go:118-125 | cutting and doubling the stored delay sleeps for min(100 * 2^k, 30000) |
| Backoff.FailuresInARow | common/broker/rabbitmq.go:74-129 | after a success the failures in a row sleep for min(100 * 2^k, 30000), k = 0, 1, ... |
| Backoff.FirstSleepsAre | common/broker/rabbitmq.go:75-125 | the sleep after the (k+1)-th failure in a row is min(100 * 2^k, 30000) ms |
| Backoff.SleepsInRange | common/broker/rabbitmq.go:75-76 | every sleep lies between 100 ms and 30 s |
| Backoff.StoredWithinAMinute | common/broker/rabbitmq.go:118-125 | the delay that is kept lies between 100 ms and 60 s |
| Delivery.Subscribe | common/broker/rabbitmq.go:188-206 | what an option list amounts to: acknowledged automatically unless disabled |
| Delivery.SubscribePersistentQueue | common/broker/rabbitmq.go:174-181 | whatever options are added, a persistent queue is durable, named after its topic and acknowledged by hand |
| Delivery.RunKeepsSound | common/broker/rabbitmq.go:217-240 | in every run each message is in exactly one place, and with manual acknowledgement each handler call is answered exactly once, in order and as it ended |
| Delivery.SettleKeeps | common/broker/rabbitmq.go:230-238 | an answer moves exactly the message it names, to the place it says; one for a tag not waited for moves none |
| Delivery.LossRequeues | common/broker/rabbitmq.go:130-134 | a lost connection gives everything in flight back to the queue, to be delivered again under new tags, and answers for old tags move nothing |
| Delivery.HandleAnswers | common/broker/rabbitmq.go:217-240 | one handler call adds one answer |
| Delivery.NothingLostIffRequeued | common/broker/rabbitmq.go:174-240 | a message leaves the queue only after a handler call without error, in all runs, if and only if acknowledgement is manual and errors requeue |
| Delivery.Consumer.OnDelivery | common/broker/rabbitmq.go:217-240 | the callback does what the handling step says |
| Delivery.Consumer.Drain | common/broker/rabbitmq.go:130-134 | the deliveries received are handled one after another |
| TestTransaction.NestedIsSimple | common/database/connection.go:221-253 | a nested block looks like "apply on success, ignore otherwise", whatever savepoints of whatever names lie below |
| TestTransaction.NestedAllIsApplied | common/database/connection.go:221-253 | for every sequence of blocks and names the view is that of the successful ones, and one savepoint leaks per failed block |
| TestTransaction.Connection.Transaction | common/database/connection.go:257-267 | outside a test the block is refused, inside it the view changes as the simple meaning says |
| TestTransaction.Connection.Test | common/database/connection.go:207-218 | the last view is that of the successful blocks, nothing is committed, and the transaction stays open only when a panic escapes |
| Retention.Cleaner.CleanExpiredTenantEvent | services/notification/event/cleaner.go:30-52 | exactly the tenant's expired events are removed |
| Retention.Cleaner.CleanExpiredEvent | services/notification/event/cleaner.go:54-77 | tenant by tenant exactly the expired events are removed |
| Retention.CutoffValue | services/notification/event/cleaner.go:31-47 | for accepted periods the cutoff is the last UTC midnight less period times 30 days, without overflow |
| Retention.CleaningIsExact | services/notification/event/cleaner.go:30-101 | right after a cleaning exactly the events ever inserted and not older than its cutoff are left, whatever ran before |
| Retention.KeptIff | services/notification/event/cleaner.go:30-52 | right after a cleaning an event ever inserted is there if and only if its tenant is unknown or keeps for ever, or it is not from before the last UTC midnight less so many times thirty days |
| Retention.PeriodRead | services/notification/event/cleaner.go:34-39 | a period written in decimal is the one used, twelve months without a readable one |
| Retention.InsertedIsThere | services/notification/event/event.go:168-181 | a new event of a known tenant is stored and stays until it has expired |
| Retention.NothingYoungIsRemoved | services/notification/event/cleaner.go:30-52 | at any time every missing event is older than its tenant's period, which is not zero |
| Retention.NothingOldStays | services/notification/event/cleaner.go:79-101 | until the next midnight no event that went through a cleaning is older than the period and a day |
| Retention.NextMidnightIsNext | services/notification/event/cleaner.go:79-84 | the ticker waits for the first midnight after now, at most a day |
| Retention.OwnPeriodOnly | services/notification/event/cleaner.go:30-77 | the events of a tenant depend on no other tenant's period |

## Left out

- RSA-PSS signatures, SHA-256 and JSON: a signature is valid when the key was issued; payloads that are no JSON are a case of their own.
- Tenant and user ids above the signed 64-bit range in headers and requests, which the database driver refuses; group ids and session keys of lists are modelled.
- The database, etcd and RabbitMQ themselves, gorm's SQL and its dropping of zero-valued conditions for zero ids: tables are maps and sets, ids are not zero.
- Failures of backing services, except a session store that cannot be listed; retries of serialization failures.
- Interleavings inside one identity handler: requests are taken one at a time.
- Missing request metadata (no tenant or user in the header); the client address may be missing and is modelled.
- The time zones that load, the mail domains that exist, password hashing and generation: parameters of the model.
- Created-at and updated-at columns, the table of event subscriptions of users, tenants' own add and update.
- Overflow of the failure time plus the restriction time, whose sum stays far below 64 bits for real clocks.
- Overflow of the password change cycle in nanoseconds, beyond 106751 days; the configuration accepts at most 180.
- The session data, roles and groups filled into list answers.
- A second connect while an older reconnect loop runs; the first connect; the names and addresses of servers. What follows a panic of a disconnect: the broker's lock is not released then.
- Which message a queue delivers first, redelivery flags, message bodies and headers, queues that disappear with their last consumer.
- A statement that fails inside a test block which then reports success: blocks are functions on the tables and an end.
- Transactions outside test mode, and statements run outside any transaction.
- Event contents and event streams; reading a date in the service's time zone is a parameter.
- What a nil dereference does beyond the request it ends: it is an error of its own and changes nothing.
- Directory: the order in which several users or groups are listed; user and group reads.
- Changes of a tenant's period during a run: the period is fixed per tenant.
- Lockout.WrongPasswordsBounded: one direction only, because LockoutExact.BoundedIffCounterFits states the exact condition.
