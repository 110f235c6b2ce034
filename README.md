# DLP-Analytics-System: identity, authorization and audit-trail core in Dafny

This project models the decision logic of DLP-Analytics-System, a data-loss-prevention
dashboard with an Express/Mongoose backend, a React/Redux client and a small Python ML
engine, and proves properties of that model. It covers these parts of the system:

- **Request gate.** `protect` and `authorize` from the backend's auth middleware, and the
  five route tables that chain them in front of each handler (`AuthGate`, `Routes`, `Roles`).
  The client's `ProtectedRoute` redirect decision is modelled in `RouteGuard`.
- **Credential store.** The user schema with its pre-save hashing hook, access-token payload
  and reset-token issue (`UserModel`). Also registration, login, forgot-password and
  reset-password (`AuthController`), and the administrator's user handlers (`UserController`).
- **Audit-trailed entities.** The policy, alert and incident schemas with their pre-save
  hooks (`PolicyModel`, `AlertModel`, `IncidentModel`) and their controllers
  (`PolicyController`, `AlertController`, `IncidentController`). Each controller's partial
  patch drops undefined keys with a loop (`Patch.DropUndefined`). The model keeps two write
  paths apart:
  - a hooked `save()`;
  - a hook-less `findByIdAndUpdate`.
- **Error middleware.** The ordered classification chain of `error.js`, in `ErrorHandler`.
- **Client state and forms.**
  - The Redux reducers of the auth and alert slices (`AuthSlice`, `AlertSlice`).
  - The helpers `truncateText`, `isEmptyObject` and `formatApiErrorMessage` (`Helpers`).
  - The policy editor (`PolicyEditor`), the user administration page (`UserManagement`)
    and the two sign-up screens (`Registration`), whose shared pieces are in `Forms`.
- **ML text clean-up.** `preprocess_text` from the ML engine, as a pipeline of composed
  string functions (`TextPreprocessing`).

## Modelling choices

- **Stores.** A MongoDB collection is a `seq` of documents in insertion order, held in the
  `docs` field of a `Collection<D>` object (`UserStore` for users). `findOne` and `findById`
  find the first match. The order matters: login's `$or` lookup can match two different
  users, and the first match keeps the result determined.
- **Handlers.** Every handler has two parts:
  - a pure `…Step` function from the old documents and the request to the new documents
    and the reply, which carries the properties as `ensures` and lemmas;
  - a method on the store whose `ensures` equate its effect with that function.
- **Uniqueness.** A store invariant (`StoreInvariant`, `Distinct`) is the unique index on
  username/email or name. Each handler is proved to keep it.
- **Cryptography.** bcrypt, SHA-256 and JWT signing are the function-valued fields of a
  `Crypto` value. `BcryptSound` and `Sha256Injective` state the assumptions a lemma needs,
  as hypotheses. Token verification is a `verify` parameter yielding
  `Verified(id) | Malformed | Expired | OtherFailure`.
- **External inputs.** Clocks (`now`), fresh ids, salts and raw reset tokens are parameters.
- **Mongoose setters.** The `lowercase`/`trim` setters apply to query values too, so
  lookups compare `Normalize(query)` (lower-case of trimmed) with the stored value.
- **Form validation.** The form library turns every `""` into `undefined` before the schema
  runs. A schema therefore treats the empty string as absent, and each path shows its first
  failing test. The schema library's email test is a parameter `isEmail`.
- **Source quirks.** These behaviours of the source are modelled as written, with lemmas
  that exhibit them:
  - registration honours a caller-supplied role;
  - the two forgot-password success texts differ;
  - the `resolvedAt` rule tests a status that is not in the enum;
  - alert creation lists the role `'System'`, which no account can hold;
  - the sign-up screens count a leading space that the server trims away.

## Model

| member | source | states |
|---|---|---|
| AuthGate.ExtractToken | backend/middleware/auth.js:9-11 | a token is extracted only from a header that starts with "Bearer"; it is the second space-separated word, so it never contains a space |
| AuthGate.BearerHeaderYieldsToken | backend/middleware/auth.js:9-11 | "Bearer <token>", with or without further words, yields exactly `<token>` (the bearer scheme of section 2.1 of RFC 6750) |
| AuthGate.BearerHeaderYieldsTokenAfter | backend/middleware/auth.js:9-11 | any space-free scheme word starting with "Bearer" followed by a token yields that token |
| AuthGate.SpacedBearerHeaderHasToken | backend/middleware/auth.js:9-11 | a "Bearer…" header that contains a space always yields some token |
| AuthGate.PrefixOnlyCheck | backend/middleware/auth.js:9 | the scheme test is a prefix test: "Bearerish abc" yields "abc" |
| AuthGate.LoadUser | backend/middleware/auth.js:23 | the user is found exactly when some stored user has the id, and it comes back with no password |
| AuthGate.ProtectOutcome | backend/middleware/auth.js:6-43 | no token gives 401 "no token"; `next()` happens iff the token is present and verified and the user exists and is active; only 401 and 403 are refusals; 403 iff the verified user exists and is inactive |
| AuthGate.VerificationFailures | backend/middleware/auth.js:33-42 | a malformed token, an expired token and any other failure each give 401 with its own message, never 403 |
| AuthGate.Request.constructor | backend/middleware/auth.js:6 | a request starts with its header and no user |
| AuthGate.Protect | backend/middleware/auth.js:6-43 | the step-by-step middleware decides as `ProtectOutcome`; `req.user` is written once the token verified, active or not, and is untouched otherwise |
| AuthGate.Authorize | backend/middleware/auth.js:46-59 | a missing user or role gives 401; a listed role gives `next()`; an unlisted role gives 403 with the role and the list in the text |
| AuthGate.AuthorizeByMembership | backend/middleware/auth.js:52 | two role lists with the same members decide alike |
| Routes.Admit | backend/routes/userRoutes.js:15-16 | public routes pass; otherwise a `protect` refusal is final; `authorize` runs only after `protect` called `next()` |
| Routes.ProtectRunsFirst | backend/routes/policyRoutes.js:14 | every non-public endpoint answers 401 "no token" to a request without a token, whatever its role list |
| Routes.AdmittedIff | backend/routes/incidentRoutes.js:15-29 | a guarded endpoint reaches its handler iff `protect` passes and the user's role is in the endpoint's list |
| Routes.UserRoutesShareOneList | backend/routes/userRoutes.js:16-25 | all five user-management endpoints share the one list {Admin, SuperAdmin} |
| Routes.UserRoutesRefuseNonAdmins | backend/routes/userRoutes.js:16 | User, Analyst and IncidentResponder are refused on every user route |
| Routes.PolicyRoutePermissions | backend/routes/policyRoutes.js:16-23 | list and read allow exactly Analyst, Admin and SuperAdmin; create, update and delete allow exactly Admin and SuperAdmin |
| Routes.AlertRoutePermissions | backend/routes/alertRoutes.js:17-24 | 'System' is no account role, so for account roles create and delete allow exactly Admin and SuperAdmin; list, read and update agree and refuse only User |
| Routes.IncidentDeleteIsStricter | backend/routes/incidentRoutes.js:17-26 | every role that may delete an incident may update one, and Analyst may update but not delete |
| Routes.PlainUserRefused | backend/routes/alertRoutes.js:18-24 | role User is refused on every guarded endpoint except `/me` |
| Routes.MeAdmitsAnyActiveUser | backend/routes/authRoutes.js:18 | `/me` admits every request that `protect` admits, and so any active user of any role |
| Routes.ResetTokenInPath | backend/routes/authRoutes.js:20 | the reset endpoint is `PUT /resetpassword/<token>` and is public |
| RouteGuard.ProtectedRoute | frontend/src/components/ProtectedRoute.tsx:13-27 | unauthenticated iff redirect to /login; redirect to /dashboard iff authenticated with a role outside a non-empty list; otherwise the children if given, else the outlet |
| RouteGuard.NoRolesAdmitsEveryone | frontend/src/components/ProtectedRoute.tsx:22-26 | with no or an empty role list, an authenticated user is rendered through |
| RouteGuard.AgreesWithAuthorize | frontend/src/components/ProtectedRoute.tsx:22 | for a user with a role and a non-empty list, the guard renders iff the server's `authorize` would call `next()` |
| RouteGuard.RolelessUserPassesGuard | frontend/src/components/ProtectedRoute.tsx:22 | an authenticated user with no role passes the guard whatever the list, while the server's `authorize` refuses them with 401 |
| UserModel.NewUser | backend/models/User.js:7-26 | a created user has trimmed lower-case username and email, the given role or User, `isActive` true unless given false, two-factor off, and no last login or reset fields |
| UserModel.UserIssues | backend/models/User.js:8-19 | no issue iff the user is valid (username of at least 3 characters, full name, email matching the pattern, password of at least 8 characters, role in the enum); at most one issue per path |
| UserModel.EmailExample | backend/models/User.js:12 | "jo@mail.com" matches the schema's email pattern |
| UserModel.PreSave | backend/models/User.js:29-34 | only the password may change; a modified password becomes its bcrypt hash; any other save leaves the document as it was |
| UserModel.SaveUser | backend/models/User.js:29-34 | a validating save of an invalid user is rejected with its issues; otherwise the pre-save hook's result is stored |
| UserModel.SavedPasswordMatches | backend/models/User.js:37-39 | under a sound bcrypt, `matchPassword` accepts the password that was just hashed |
| UserModel.AccessExpiry | backend/models/User.js:44 | the expiry is the configured `JWT_EXPIRE_ACCESS` when non-empty, else "1h" |
| UserModel.AccessToken | backend/models/User.js:42-46 | the access token signs exactly the payload {id, role, username} with that expiry |
| UserModel.IssueResetToken | backend/models/User.js:49-63 | the raw token is returned; only its SHA-256 hex digest is stored, with an expiry of now + 600000 ms; nothing else changes |
| UserModel.WithoutPassword | backend/models/User.js:14 | the read view has an empty password and otherwise equals the stored user |
| UserModel.QueryKey | backend/models/User.js:8-11 | a lookup value is normalised like the stored field (trimmed, lower-cased) |
| UserModel.InsertKeepsInvariant | backend/models/User.js:8-11 | adding a normalised user that clashes with no other keeps usernames and emails unique and normalised |
| UserModel.ReplaceKeepsInvariant | backend/models/User.js:8-11 | replacing a user by a normalised one that clashes with no other keeps the invariant |
| UserModel.RemoveKeepsInvariant | backend/models/User.js:8-11 | removing a user keeps the invariant |
| UserModel.UserStore.constructor | backend/models/User.js:68 | the store starts empty and valid |
| UserModel.UserStore.Find | backend/models/User.js:68 | `findOne`: the index of the first matching user, or -1 when none matches |
| UserModel.UserStore.Insert | backend/models/User.js:8-11 | an insert succeeds iff it clashes with no stored username or email; the store grows by that user only, and the invariant is kept |
| UserModel.UserStore.Replace | backend/models/User.js:8-11 | a replace succeeds iff it clashes with no other user; only position k changes, and the invariant is kept |
| UserModel.UserStore.Remove | backend/models/User.js:68 | exactly the user at k is removed, and the invariant is kept |
| AuthController.SessionFor | backend/controllers/authController.js:7-33 | the token response signs {id, role, username}, and its user view carries that user's id, role and username |
| AuthController.RequestedRole | backend/controllers/authController.js:51 | `role \|\| 'User'`: a non-empty supplied role is stored as given, any role included |
| AuthController.RegisterStep | backend/controllers/authController.js:38-63 | a missing email or username gives 500; an existing email or username gives 400 before any write; success, with 201, iff neither exists and the new user is valid; it then appends exactly the hashed new user and returns its session; failures leave the store alone |
| AuthController.RegisterHonoursRole | backend/controllers/authController.js:39-51 | a registered user's role is the caller-supplied one, defaulting to User only when none was given |
| AuthController.RegisterCheckCoversIndexes | backend/controllers/authController.js:41 | the duplicate check clears the unique indexes, so the insert itself cannot clash |
| AuthController.RegisteredPasswordMatches | backend/controllers/authController.js:46-52 | under a sound bcrypt, the stored hash matches the registered password |
| AuthController.RegisterKeepsInvariant | backend/controllers/authController.js:38-63 | registration keeps usernames and emails unique and normalised |
| AuthController.RegisterUser | backend/controllers/authController.js:38-63 | the handler's reply and new store are those of `RegisterStep` |
| AuthController.LoginStep | backend/controllers/authController.js:68-104 | missing credentials give 400; an unknown user gives 401; an inactive user gives 403, before the password check; a wrong password gives 401 with the same text as an unknown user; success writes only `lastLogin := now` and returns 200 with a session |
| AuthController.LoginSucceeds | backend/controllers/authController.js:76-99 | an active user with the right password always logs in |
| AuthController.LoginTouchesOnlyLastLogin | backend/controllers/authController.js:96-97 | a successful login changes no field but `lastLogin` in any stored user |
| AuthController.LoginKeepsInvariant | backend/controllers/authController.js:96-97 | login keeps the store invariant |
| AuthController.LoginUser | backend/controllers/authController.js:68-104 | the handler's reply and new store are those of `LoginStep` |
| AuthController.ForgotStep | backend/controllers/authController.js:126-165 | an unknown email gives 200 with the link-sent text and no write; a known one stores a fresh reset token and gives 200 with a different text |
| AuthController.ForgotIssues | backend/controllers/authController.js:129-137 | with a unique store, a known email always gets its reset fields written and the token-generated reply (see also line 159) |
| AuthController.ForgotSucceeded | backend/controllers/authController.js:136-137 | a successful issue writes only that user's reset fields and clashes with no other user |
| AuthController.ForgotKeepsInvariant | backend/controllers/authController.js:136-137 | forgot-password keeps the store invariant |
| AuthController.ForgotPassword | backend/controllers/authController.js:126-165 | the handler's reply and new store are those of `ForgotStep` |
| AuthController.ResetTarget | backend/controllers/authController.js:174-182 | the user found is one whose stored digest equals SHA-256 of the token and whose expiry is after now; none is found iff no user holds such a digest |
| AuthController.ResetStep | backend/controllers/authController.js:171-203 | no matching user gives 400 "Invalid or expired token"; success stores the new password hashed and clears both reset fields in the same save; an invalid new password gives 400 with the validation text; failures leave the store alone |
| AuthController.ResetSingleUse | backend/controllers/authController.js:189-194 | after a successful reset, the same raw token is refused with 400 at any later time |
| AuthController.ForgotKeepsDigestsDistinct | backend/controllers/authController.js:136-137 | issuing a digest that no user holds keeps stored digests distinct |
| AuthController.IssuedTokenRedeemsWithinWindow | backend/controllers/authController.js:136 | an issued token finds its user before now + 600000 ms and nobody from then on (see also lines 179-182) |
| AuthController.OnlyIssuedTokenRedeems | backend/controllers/authController.js:174-182 | with an injective SHA-256, only the raw token that was issued can redeem a user's reset fields |
| AuthController.ResetPasswordMatches | backend/controllers/authController.js:189-192 | under a sound bcrypt, the stored hash matches the new password after a reset |
| AuthController.ResetIgnoresDeactivation | backend/controllers/authController.js:179-194 | a reset neither checks nor changes `isActive` |
| AuthController.ResetKeepsInvariant | backend/controllers/authController.js:189-192 | reset keeps the store invariant |
| AuthController.ResetSucceeds | backend/controllers/authController.js:171-203 | with unique keys in the store, a live token and a new password the schema accepts always reset successfully: the save keeps id, username and email, so it cannot clash |
| AuthController.ResetPassword | backend/controllers/authController.js:171-203 | the handler's reply and new store are those of `ResetStep` |
| UserController.GetUserStep | backend/controllers/userController.js:20-34 | 404 iff no stored user has the id; otherwise 200 with that user, password left out |
| UserController.GetUser | backend/controllers/userController.js:20-34 | the handler answers as `GetUserStep` and changes nothing |
| UserController.DeleteUserStep | backend/controllers/userController.js:103-121 | 404 iff no stored user has the id, store unchanged; otherwise exactly the user found is removed and 200 is returned |
| UserController.DeleteRemovesId | backend/controllers/userController.js:105-111 | in a store of distinct ids, no user with the id is left after a delete |
| UserController.DeleteKeepsInvariant | backend/controllers/userController.js:105-111 | delete keeps usernames and emails unique and normalised |
| UserController.DeleteUser | backend/controllers/userController.js:103-121 | the handler's reply and new store are those of `DeleteUserStep`, and the store stays valid |
| UserController.CreateUserStep | backend/controllers/userController.js:39-55 | a missing email or username gives 500; an existing lower-cased email or username gives 400 before any write; success, with 201, iff neither exists and the new user is valid; it then appends exactly the hashed new user; failures leave the store alone |
| UserController.CreateKeepsInvariant | backend/controllers/userController.js:42-45 | creation keeps usernames and emails unique and normalised |
| UserController.CreateUser | backend/controllers/userController.js:39-55 | the handler's reply and new store are those of `CreateUserStep` |
| UserController.Patched | backend/controllers/userController.js:61-81 | the update never changes id, username, password, last login or reset fields |
| UserController.PatchIssues | backend/controllers/userController.js:81-84 | `runValidators` passes iff a given full name is non-blank, a given email matches the pattern and a given role is in the enum |
| UserController.UpdateMatchesPatch | backend/controllers/userController.js:61-81 | writing the defined keys left by the delete-undefined loop is the patch `Patched`, and validating them gives `PatchIssues` |
| UserController.UpdateLookups | backend/controllers/userController.js:61-65 | after the loop, each of the five keys holds the body's value exactly when the body gave one |
| UserController.UpdateUserStep | backend/controllers/userController.js:60-98 | an unknown id gives 404; a changed email held by another user gives 400 "Email already in use"; invalid fields give 400 with their messages; success writes only the patched user at its index and returns it without the password; failures leave the store alone |
| UserController.UpdateKeepsProtectedFields | backend/controllers/userController.js:61-65 | a successful update leaves every stored user's id, username, password, last login and reset fields unchanged |
| UserController.UpdateWritesOnlyGivenFields | backend/controllers/userController.js:61-81 | each of fullName, email, role, isActive and twoFactorEnabled takes the given value, normalised by its setter, and keeps its old value when undefined |
| UserController.EmptyUpdateAccepted | backend/controllers/userController.js:61-86 | an update with no recognised field is not rejected: it succeeds and changes nothing |
| UserController.SameEmailSkipsCheck | backend/controllers/userController.js:74 | an email equal to the stored one up to case skips the conflict check |
| UserController.PatchedKeepsKeysApart | backend/controllers/userController.js:74-78 | once the conflict check passed, the patched user clashes with no other user |
| UserController.UpdateNeverFailsOnIndex | backend/controllers/userController.js:74-84 | on a store that keeps the invariant, an update never ends in the 500 of a unique-index error |
| UserController.UpdateKeepsInvariant | backend/controllers/userController.js:60-98 | update keeps usernames and emails unique and normalised |
| UserController.UpdateUser | backend/controllers/userController.js:60-98 | the handler's reply and new store are those of `UpdateUserStep` |
| PolicyModel.CastCondition | backend/models/Policy.js:4-13 | a stored condition keeps field, operator and value, and its dataType defaults to 'string' |
| PolicyModel.CastConditions | backend/models/Policy.js:29 | every condition of the array is cast in place, in order |
| PolicyModel.RequiredEnumIssues | backend/models/Policy.js:6-20 | a required enum path has no issue iff its value is given and one of the enum's values |
| PolicyModel.ConditionIssues | backend/models/Policy.js:4-13 | a condition has no issue iff it has a field, an operator among the 12 and a dataType among the 5 |
| PolicyModel.ConditionsIssues | backend/models/Policy.js:29 | the conditions array has no issue iff every condition is valid |
| PolicyModel.ActionIssues | backend/models/Policy.js:15-22 | an action has no issue iff its type is one of the 7 |
| PolicyModel.ActionsIssues | backend/models/Policy.js:37 | the actions array has no issue iff every action is valid |
| PolicyModel.PolicyIssues | backend/models/Policy.js:24-47 | no issue iff the policy is valid: a name, valid conditions and actions, createdBy and updatedBy |
| PolicyModel.PolicyPreSave | backend/models/Policy.js:49-55 | `updatedAt` is set on every save; version goes up by exactly 1 when an existing document was modified, and never on creation or on an unmodified save; nothing else changes |
| PolicyModel.SavePolicy | backend/models/Policy.js:24-55 | an invalid policy is rejected with its issues; otherwise the hook's result is stored |
| PolicyModel.SavedPolicyValid | backend/models/Policy.js:49-55 | the hook keeps a valid policy valid |
| PolicyModel.InsertKeepsInvariant | backend/models/Policy.js:25 | adding a trimmed policy whose name no other policy holds keeps names unique and trimmed |
| PolicyModel.ReplaceKeepsInvariant | backend/models/Policy.js:25 | replacing a policy by a trimmed one whose name no other policy holds keeps the invariant |
| PolicyController.CreatePolicyStep | backend/controllers/policyController.js:40-64 | an invalid policy gives 400 with its messages; a taken name gives 400 "Policy name already exists."; otherwise 201 appends exactly one policy with version 1, createdBy = updatedBy = the actor, only name, description, isEnabled, conditions and actions copied, and defaults applied; failures leave the store alone |
| PolicyController.CreateKeepsInvariant | backend/controllers/policyController.js:43-61 | creation keeps policy names unique and trimmed |
| PolicyController.CreatePolicy | backend/controllers/policyController.js:40-64 | the handler's reply and new store are those of `CreatePolicyStep` |
| PolicyController.Merged | backend/controllers/policyController.js:96 | `Object.assign` keeps id, createdBy, version and updatedAt, sets updatedBy to the actor, and with an empty body changes nothing else |
| PolicyController.NothingToUpdateIff | backend/controllers/policyController.js:71-76 | after the delete-undefined loop, "only updatedBy is left" holds iff the body gave no field and the actor id is non-empty |
| PolicyController.AssignMatchesMerge | backend/controllers/policyController.js:73-96 | assigning the keys left by the loop is the merge `Merged` |
| PolicyController.UpdatePolicyStep | backend/controllers/policyController.js:69-122 | an empty body gives 400 "No fields to update provided."; an unknown id gives 404; a rename to a name another policy holds gives 400; an invalid merge gives 400 with its messages; success stores the merged, hooked policy at its index; failures leave the store alone |
| PolicyController.MergeVersion | backend/controllers/policyController.js:96-98 | the save sets updatedAt to now and adds 1 to the version exactly when the merge changed the policy; a new actor always changes it |
| PolicyController.UpdateSucceeded | backend/controllers/policyController.js:79-98 | a successful update stores, at the index found, the hooked save of the merge |
| PolicyController.UpdateKeepsAbsentFields | backend/controllers/policyController.js:96 | fields the body does not give keep their values; id and createdBy never change; updatedBy becomes the actor |
| PolicyController.SameNameSkipsCheck | backend/controllers/policyController.js:85 | keeping the same name skips the uniqueness check |
| PolicyController.MergedKeepsKeysApart | backend/controllers/policyController.js:85-98 | once the name check passed, the saved policy clashes with no other policy |
| PolicyController.MergedNameTrimmed | backend/models/Policy.js:25 | the saved name stays trimmed |
| PolicyController.UpdateKeepsInvariant | backend/controllers/policyController.js:69-122 | update keeps policy names unique and trimmed |
| PolicyController.UpdatePolicy | backend/controllers/policyController.js:69-122 | the handler, with its delete-undefined loop, gives the reply and new store of `UpdatePolicyStep` |
| PolicyController.DeletePolicy | backend/controllers/policyController.js:127-145 | 404 on an unknown id; otherwise exactly the policy found is removed |
| Documents.DeleteStep | backend/controllers/policyController.js:127-145 | a delete answers 404 iff no document has the id, store unchanged; otherwise exactly the first document with the id is removed and 200 is returned |
| Documents.DeleteRemovesAll | backend/controllers/incidentController.js:164-179 | in a store of distinct ids, no document with the id remains after a delete |
| Documents.DeleteById | backend/controllers/incidentController.js:164-179 | the lookup-then-`deleteOne` method's reply and new store are those of `DeleteStep` |
| Documents.Collection.Find | backend/controllers/policyController.js:79 | `findById`: the index of the first match, or -1 when there is none |
| Documents.Collection.Insert | backend/models/Policy.js:25 | an insert succeeds iff it clashes with no stored key; the collection grows by that document only |
| Documents.Collection.Replace | backend/models/Policy.js:25 | a replace succeeds iff it clashes with no other document; only position k changes |
| Documents.Collection.Remove | backend/controllers/policyController.js:135 | exactly the document at k is removed |
| Documents.InsertKeepsDistinct | backend/models/Policy.js:25 | a non-clashing insert keeps keys distinct |
| Documents.ReplaceKeepsDistinct | backend/models/Policy.js:25 | a non-clashing replace keeps keys distinct |
| Documents.RemoveKeepsDistinct | backend/models/Policy.js:25 | a removal keeps keys distinct |
| Patch.Defined | backend/controllers/policyController.js:73 | the delete-undefined loop keeps every defined key with its value, keeps nothing else, and leaves nothing iff every key was undefined |
| Patch.DefinedOrder | backend/controllers/alertController.js:85 | the keys that survive keep their relative order |
| Patch.LookupDefined | backend/controllers/userController.js:65 | with distinct keys, looking a key up after the loop gives exactly the body's value, undefined included |
| Patch.DropUndefined | backend/controllers/userController.js:65 | the loop method computes exactly `Defined` |
| Collections.FirstIndex | frontend/src/store/slices/alertSlice.ts:118 | the first index whose element satisfies the predicate, or none iff no element does |
| Collections.FindIndex | frontend/src/store/slices/alertSlice.ts:118 | the search loop returns -1 iff nothing matches, and otherwise the first match |
| AlertModel.EnumIssues | backend/models/Alert.js:14-27 | a required enum path has no issue iff its value is given and in the enum |
| AlertModel.SeverityIssues | backend/models/Alert.js:14-20 | severity has no issue iff it is one of the five severities |
| AlertModel.StatusIssues | backend/models/Alert.js:21-27 | status has no issue iff it is one of the six statuses |
| AlertModel.AlertIssues | backend/models/Alert.js:11-43 | no issue iff the alert has a title and a severity and status from their enums |
| AlertModel.AlertPreSave | backend/models/Alert.js:46-55 | saving an existing alert whose status changed appends exactly one entry; a new alert, or a save without a status change, is left as it was; only the history may change |
| AlertModel.SaveAlert | backend/models/Alert.js:11-55 | an invalid alert is rejected with its issues; otherwise the hook's result is stored |
| AlertModel.StatusEntryNamesStatus | backend/models/Alert.js:48-52 | the hook's entry reads "Status changed to <status>" and carries no user |
| AlertController.CreateAlertStep | backend/controllers/alertController.js:49-77 | an invalid alert gives 400 with its messages; success, with 201, appends exactly one alert with the trimmed title, status `status \|\| 'New'`, severity defaulting to Medium, and empty history and notes; failures leave the store alone |
| AlertController.CreatedAlertHasNoHistory | backend/controllers/alertController.js:67 | the stored alert is exactly the new document: creation runs no history hook |
| AlertController.CreateAlert | backend/controllers/alertController.js:49-77 | the handler's reply and new store are those of `CreateAlertStep` |
| AlertController.PathNames | backend/controllers/alertController.js:100 | each updated key is named by its path, in order |
| AlertController.GivenPaths | backend/controllers/alertController.js:83-89 | no key is left iff none of status, severity, notes and assignedTo was given |
| AlertController.Patched | backend/controllers/alertController.js:100 | the `$set`/`$push` write keeps id, title, description, tags, users involved and timestamp, and grows the history by exactly one entry after the old ones |
| AlertController.PatchIssues | backend/controllers/alertController.js:100-103 | `runValidators` passes iff a given status and a given severity are in their enums |
| AlertController.KeysAreGivenPaths | backend/controllers/alertController.js:84-86 | the keys the delete-undefined loop leaves are exactly the given fields, in body order |
| AlertController.UpdateMatchesPatch | backend/controllers/alertController.js:86-100 | setting the keys left by the loop and pushing the entry is the patch `Patched`; validating them gives `PatchIssues` |
| AlertController.UpdateAlertStep | backend/controllers/alertController.js:82-117 | no given field gives 400 "No fields to update provided."; an unknown id gives 404; invalid values give 400; success writes the patched alert at its index in one write; failures leave the store alone |
| AlertController.UpdateAppendsOneEntry | backend/controllers/alertController.js:100 | a successful update grows history by one entry, {actor, "Alert updated: <keys joined by ', '>", now}, and leaves earlier entries untouched |
| AlertController.UpdateSkipsStatusHook | backend/controllers/alertController.js:100 | the hook-less write adds no "Status changed to" entry, even when the status changes |
| AlertController.UpdateWritesGivenFields | backend/controllers/alertController.js:83-100 | given notes replace the stored notes wholesale; status, severity and assignedTo take given values and keep old ones otherwise; id and title never change |
| AlertController.UpdateNeverFailsOnIndex | backend/controllers/alertController.js:100 | with distinct ids, an update never ends in a 500 |
| AlertController.UpdateAlert | backend/controllers/alertController.js:82-117 | the handler, with its delete-undefined loop, gives the reply and new store of `UpdateAlertStep` |
| AlertController.DeleteAlert | backend/controllers/alertController.js:122-140 | 404 on an unknown id; otherwise exactly the alert found is removed |
| IncidentModel.RequiredEnumIssues | backend/models/Incident.js:22-35 | a required enum path has no issue iff its value is given and in the enum |
| IncidentModel.TitleIssues | backend/models/Incident.js:20 | the title has no issue iff it is given |
| IncidentModel.DescriptionIssues | backend/models/Incident.js:21 | the description has no issue iff it is given |
| IncidentModel.StatusIssues | backend/models/Incident.js:22-28 | status has no issue iff it is one of the eight statuses |
| IncidentModel.PriorityIssues | backend/models/Incident.js:29-35 | priority has no issue iff it is one of the four priorities |
| IncidentModel.SeverityIssues | backend/models/Incident.js:36-40 | severity has no issue iff it is one of the five severities |
| IncidentModel.UpdatedByIssues | backend/models/Incident.js:63 | updatedBy has no issue iff it is given |
| IncidentModel.CommentsIssues | backend/models/Incident.js:4-8 | the comments have no issue iff every comment has a user and a non-empty text (see also line 43) |
| IncidentModel.IncidentIssues | backend/models/Incident.js:19-64 | no issue iff the incident is valid: title, description, enums, valid comments, createdBy and updatedBy |
| IncidentModel.ResolvedNotAStatus | backend/models/Incident.js:24 | 'Resolved', which the `resolvedAt` rule tests for, is not in the status enum (see also line 76) |
| IncidentModel.IncidentPreSave | backend/models/Incident.js:66-81 | a modified existing incident gets exactly one "Incident updated" entry with no user; a new or unmodified one gets none; `resolvedAt` is set to now iff status was modified, equals 'Resolved' and `resolvedAt` was unset, and is never overwritten |
| IncidentModel.SaveIncident | backend/models/Incident.js:19-81 | an invalid incident is rejected with its issues; otherwise the hook's result is stored |
| IncidentModel.SaveNeverStampsResolvedAt | backend/models/Incident.js:24 | a save that validation accepts never changes the resolution details: the `resolvedAt` branch is unreachable (see also lines 76-79) |
| IncidentModel.InsertKeepsInvariant | backend/models/Incident.js:19-64 | adding a valid, non-clashing incident keeps ids distinct and all incidents valid |
| IncidentModel.ReplaceKeepsInvariant | backend/models/Incident.js:19-64 | replacing an incident by a valid, non-clashing one keeps the invariant |
| IncidentController.CreateIncidentStep | backend/controllers/incidentController.js:53-79 | an invalid incident gives 400 with its messages; success, with 201, appends exactly the new incident; failures leave the store alone |
| IncidentController.CreatedIncidentDefaults | backend/controllers/incidentController.js:56-67 | a created incident has createdBy = updatedBy = the actor, status Open, priority and severity Medium unless given, no comments, no history and no `resolvedAt` |
| IncidentController.CreateKeepsInvariant | backend/controllers/incidentController.js:69 | creation keeps ids distinct and every incident valid |
| IncidentController.CreateIncident | backend/controllers/incidentController.js:53-79 | the handler's reply and new store are those of `CreateIncidentStep` |
| IncidentController.Patched | backend/controllers/incidentController.js:86-104 | the `$set` write keeps id, comments, history and createdBy, sets updatedBy to the actor, keeps the resolution unless one is given, and with an empty body changes nothing else |
| IncidentController.PatchIssues | backend/controllers/incidentController.js:104-107 | `runValidators` passes iff a given title and description are non-blank, given enums are in their enums, and the actor id is set |
| IncidentController.NothingToUpdateIff | backend/controllers/incidentController.js:86-91 | after the delete-undefined loop, "only updatedBy is left" holds iff the body gave no field and the actor id is non-empty |
| IncidentController.KeptValues | backend/controllers/incidentController.js:86-88 | after the loop, each key holds the body's value exactly when the body gave one, and updatedBy holds the actor |
| IncidentController.UpdateMatchesPatch | backend/controllers/incidentController.js:88-104 | setting the keys left by the loop is the patch `Patched`; validating them gives `PatchIssues` |
| IncidentController.UpdateIncidentStep | backend/controllers/incidentController.js:84-121 | an empty body gives 400 "No fields to update provided."; an unknown id gives 404; invalid values give 400; success writes the patched incident at its index; failures leave the store alone |
| IncidentController.UpdateSkipsSaveHook | backend/controllers/incidentController.js:104 | the hook-less update adds no history entry, keeps the comments and does not touch `resolvedAt` unless the body gives resolution details |
| IncidentController.ResolvingIsRefused | backend/controllers/incidentController.js:99-107 | status 'Resolved' is refused by the enum validator with 400, so the commented-out resolution check never matters |
| IncidentController.UpdateKeepsValid | backend/controllers/incidentController.js:104-107 | a validated patch of a valid incident is valid |
| IncidentController.UpdateKeepsInvariant | backend/controllers/incidentController.js:84-121 | update keeps ids distinct and every incident valid |
| IncidentController.UpdateNeverFailsOnIndex | backend/controllers/incidentController.js:104 | with distinct ids, an update never ends in a 500 |
| IncidentController.UpdateIncident | backend/controllers/incidentController.js:84-121 | the handler, with its delete-undefined loop, gives the reply and new store of `UpdateIncidentStep` |
| IncidentController.Commented | backend/controllers/incidentController.js:137-144 | the new comment {actor, trimmed text, now} is put first, before the old comments; updatedBy becomes the actor; nothing else changes |
| IncidentController.AddCommentStep | backend/controllers/incidentController.js:126-158 | missing or empty text gives 400 before any lookup; an unknown id gives 404; success saves through the hook and answers 201 with the comment at index 0; failures leave the store alone |
| IncidentController.CommentLogsOneEntry | backend/controllers/incidentController.js:143-150 | a comment is prepended, newest first, is the one returned, sets updatedBy, appends exactly one "Incident updated" entry and leaves the resolution alone |
| IncidentController.BlankCommentIsServerError | backend/controllers/incidentController.js:128 | a whitespace-only text passes the `!text` test, fails the trimmed `required` check in `save()`, and so answers 500 (see also lines 145, 151-157) |
| IncidentController.CommentKeepsInvariant | backend/controllers/incidentController.js:143-145 | commenting keeps ids distinct and every incident valid |
| IncidentController.AddIncidentComment | backend/controllers/incidentController.js:126-158 | the handler's reply and new store are those of `AddCommentStep` |
| IncidentController.DeleteIncident | backend/controllers/incidentController.js:164-180 | 404 on an unknown id; otherwise exactly the incident found is removed |
| ErrorHandler.Send | backend/middleware/error.js:42-45 | the reply is always a failure, with status `statusCode \|\| 500` and text `message \|\| 'Server Error'` |
| ErrorHandler.HandleError | backend/middleware/error.js:3-46 | TokenExpiredError and JsonWebTokenError give 401; ValidationError gives 400 with the messages joined by ". "; code 11000 gives 400 naming the first duplicated field; a CastError of kind ObjectId gives 404; a later match overrides an earlier one; anything else keeps its own status, else 500, and message, else "Server Error" |
| ErrorHandler.LastMatch | backend/middleware/error.js:12-40 | the index of the last rule that applies, or none iff no rule applies |
| ErrorHandler.ClassifyIsLastMatch | backend/middleware/error.js:12-40 | the chain of rebinding ifs yields the draft of the last matching rule, or the error itself when none matches |
| ErrorHandler.OnlyDuplicateOverlaps | backend/middleware/error.js:12-40 | two different rules apply to one error only when one of them is the duplicate-key rule, which tests `code` and not `name` |
| AuthSlice.RejectedError | frontend/src/store/slices/authSlice.ts:131-147 | with a payload the error is the payload's `message`; without one it is the thrown error's message, else the fallback |
| AuthSlice.ServerErrorTextIsDropped | frontend/src/store/slices/authSlice.ts:32 | a rejection carrying the server's `{ success, error }` body leaves no error text, whatever the server said (see also line 131) |
| AuthSlice.RejectedWithoutPayloadHasText | frontend/src/store/slices/authSlice.ts:131-147 | without a payload the error text is never empty |
| AuthSlice.AuthState.constructor | frontend/src/store/slices/authSlice.ts:9-15 | the user is what parsing the stored text gave and the token is the stored one; it is authenticated iff both raw stored texts are non-empty, so a stored `"null"` signs in with no user record and breaks `Valid`; not loading, no error |
| AuthSlice.AuthState.Logout | frontend/src/store/slices/authSlice.ts:96-107 | user and token are cleared, not authenticated, no error, not loading |
| AuthSlice.AuthState.ClearAuthError | frontend/src/store/slices/authSlice.ts:108-110 | only the error changes, to none |
| AuthSlice.AuthState.Pending | frontend/src/store/slices/authSlice.ts:115-118 | every pending case sets loading and clears the error, and nothing else (see also lines 134-137, 150-153) |
| AuthSlice.AuthState.SignedIn | frontend/src/store/slices/authSlice.ts:119-144 | login and register fulfilled: authenticated with the payload's user and token, not loading, no error |
| AuthSlice.AuthState.LoginRejected | frontend/src/store/slices/authSlice.ts:126-132 | login rejected clears user, token and authentication; the error is the rejection text |
| AuthSlice.AuthState.RegisterRejected | frontend/src/store/slices/authSlice.ts:145-148 | register rejected changes only loading and the error |
| AuthSlice.AuthState.CurrentUserFetched | frontend/src/store/slices/authSlice.ts:154-159 | the user is set and authenticated; an existing token is kept, otherwise the stored one is read; the error is untouched |
| AuthSlice.AuthState.CurrentUserRejected | frontend/src/store/slices/authSlice.ts:160-165 | user, token and authentication are cleared; the error is untouched |
| AlertSlice.NumberOr | frontend/src/store/slices/alertSlice.ts:88-89 | `n \|\| fallback` on numbers: an absent or zero value gives the fallback |
| AlertSlice.RejectionText | frontend/src/store/slices/alertSlice.ts:94 | the payload's message, else the thrown error's message, else the fallback; never empty (see also lines 108, 125) |
| AlertSlice.ReplaceById | frontend/src/store/slices/alertSlice.ts:118-121 | the list keeps its length; with no element of the same id it is unchanged; otherwise only the first such element becomes the update |
| AlertSlice.ReplaceByIdIdempotent | frontend/src/store/slices/alertSlice.ts:118-121 | applying the same update twice gives the list of applying it once |
| AlertSlice.ReplaceByIdKeepsOthers | frontend/src/store/slices/alertSlice.ts:118-121 | an element with a different id is never changed |
| AlertSlice.AlertState.constructor | frontend/src/store/slices/alertSlice.ts:7-13 | no alerts, no current alert, not loading, no error, no pagination |
| AlertSlice.AlertState.ClearAlertError | frontend/src/store/slices/alertSlice.ts:71-73 | only the error changes, to none |
| AlertSlice.AlertState.FetchAlertsPending | frontend/src/store/slices/alertSlice.ts:79-82 | loading, error cleared, nothing else changes |
| AlertSlice.AlertState.AlertsFetched | frontend/src/store/slices/alertSlice.ts:83-91 | the list is replaced wholesale by the payload; page defaults to 0 and page size to 10 |
| AlertSlice.AlertState.FetchAlertsRejected | frontend/src/store/slices/alertSlice.ts:92-95 | not loading, error set to the rejection text, nothing else changes |
| AlertSlice.AlertState.FetchAlertPending | frontend/src/store/slices/alertSlice.ts:97-101 | loading; the current alert and the error are cleared |
| AlertSlice.AlertState.AlertFetched | frontend/src/store/slices/alertSlice.ts:102-105 | not loading; the current alert is the payload |
| AlertSlice.AlertState.FetchAlertRejected | frontend/src/store/slices/alertSlice.ts:106-109 | not loading, error set to the rejection text, nothing else changes |
| AlertSlice.AlertState.UpdateAlertPending | frontend/src/store/slices/alertSlice.ts:111-113 | loading, without clearing the error |
| AlertSlice.AlertState.AlertUpdated | frontend/src/store/slices/alertSlice.ts:114-122 | not loading; the current alert is the update; the list becomes `ReplaceById` of the old list, found by the `findIndex` loop |
| AlertSlice.AlertState.UpdateAlertRejected | frontend/src/store/slices/alertSlice.ts:123-126 | not loading, error set to the rejection text, nothing else changes |
| Helpers.TruncateText | frontend/src/utils/helpers.ts:61-67 | absent or empty text gives ''; text within the limit comes back unchanged; longer text gives its first `maxLength` characters followed by "...", `maxLength` + 3 long |
| Helpers.TruncateBounded | frontend/src/utils/helpers.ts:63-66 | the result is never longer than `maxLength` + 3 |
| Helpers.TruncateIdempotent | frontend/src/utils/helpers.ts:61-67 | truncating a truncated text again changes nothing |
| Helpers.IsEmptyObject | frontend/src/utils/helpers.ts:53-58 | null or undefined is empty; an object is empty iff it has no own keys and its constructor is `Object` |
| Helpers.ClassInstancesNeverEmpty | frontend/src/utils/helpers.ts:57 | an instance of any other class is never empty, even without keys |
| Helpers.FormatApiErrorMessage | frontend/src/utils/helpers.ts:24-45 | a string comes back unchanged; otherwise `message`, then a string `error`, then the first message of the first `errors` entry, then the fixed default |
| Helpers.ServerFailureShownVerbatim | frontend/src/utils/helpers.ts:34-36 | the backend's failure body `{ success: false, error }` is shown as its `error` text |
| Helpers.FormattedNeverEmpty | frontend/src/utils/helpers.ts:24-45 | unless the input itself carries an empty string where it is used, the text shown is never empty |
| PolicyEditor.OperatorsFor | frontend/src/components/policies/PolicyEditor.tsx:54-71 | the operator menu offers only server-known operators that take a value, and is empty exactly for a data type other than missing, `string` or `number` (see also line 155) |
| PolicyEditor.MenuActionTypesKnown | frontend/src/components/policies/PolicyEditor.tsx:73-78 | every action type the menu offers is one the policy model accepts |
| PolicyEditor.PickerFieldsAreStrings | frontend/src/components/policies/PolicyEditor.tsx:45-52 | every field the picker offers is a non-empty string field, so its operator menu is the string menu |
| PolicyEditor.ConditionRowIssues | frontend/src/components/policies/PolicyEditor.tsx:21-30 | a condition row has no issue iff it names a field and an operator and, unless the operator is `is_empty`/`is_not_empty`, a value; at most three issues |
| PolicyEditor.ConditionRowsIssues | frontend/src/components/policies/PolicyEditor.tsx:41 | the rows report nothing iff every row is complete |
| PolicyEditor.ActionRowsIssues | frontend/src/components/policies/PolicyEditor.tsx:32-42 | the action rows report nothing iff every action names a type |
| PolicyEditor.FormIssues | frontend/src/components/policies/PolicyEditor.tsx:37-43 | the policy form has no issue iff it has a name, at least one complete condition and at least one typed action |
| PolicyEditor.FreshFormIssues | frontend/src/components/policies/PolicyEditor.tsx:83-92 | a new, untouched policy form reports exactly the missing name, first field and first value |
| PolicyEditor.AcceptedRowsPassServerSchema | frontend/src/components/policies/PolicyEditor.tsx:37-43 | an accepted form whose rows were filled from the menus passes the policy model's condition and action validation (see also lines 54-78) |
| PolicyEditor.ServerOperatorsNeedValue | frontend/src/components/policies/PolicyEditor.tsx:24-28 | every operator the server knows requires a value in the form |
| PolicyEditor.InitialValues | frontend/src/components/policies/PolicyEditor.tsx:83-91 | a new policy starts enabled with one empty `contains` condition on strings and one Medium alert action; an edited policy's own name, description, flag, conditions and actions are loaded |
| PolicyEditor.StoredPolicyReloads | frontend/src/components/policies/PolicyEditor.tsx:83-91 | a valid stored policy whose values are all given reopens as an acceptable form |
| PolicyEditor.ChooseField | frontend/src/components/policies/PolicyEditor.tsx:132-136 | picking a field sets it and its data type and clears the operator, so the form is not acceptable until an operator is picked; other rows are untouched |
| PolicyEditor.ChooseOperator | frontend/src/components/policies/PolicyEditor.tsx:146-151 | picking an operator on a row with a field completes the row iff it has a value; other rows are untouched |
| PolicyEditor.EditValue | frontend/src/components/policies/PolicyEditor.tsx:163 | typing a non-empty value completes the row iff it has a field and an operator; other rows are untouched |
| PolicyEditor.AddCondition | frontend/src/components/policies/PolicyEditor.tsx:173 | appends one default condition and nothing else changes |
| PolicyEditor.RemoveCondition | frontend/src/components/policies/PolicyEditor.tsx:166 | removes exactly the row at the index, keeping order, and only while more than one row exists, so one always remains |
| PolicyEditor.ChooseActionType | frontend/src/components/policies/PolicyEditor.tsx:193-203 | picking a menu action type gives a valid action; other actions are untouched |
| PolicyEditor.AddAction | frontend/src/components/policies/PolicyEditor.tsx:236 | appends one Medium alert action and nothing else changes |
| PolicyEditor.RemoveAction | frontend/src/components/policies/PolicyEditor.tsx:229 | removes exactly the action at the index, keeping order, only while more than one exists |
| PolicyEditor.RowEditsKeepOneRow | frontend/src/components/policies/PolicyEditor.tsx:166 | adding and the enabled removals never leave the form without a condition or an action (see also lines 173, 229, 236) |
| PolicyEditor.Submit | frontend/src/components/policies/PolicyEditor.tsx:93-99 | the submitted data is the form's values, carrying the edited policy's id iff it has one |
| PolicyEditor.PolicyForm.constructor | frontend/src/components/policies/PolicyEditor.tsx:82-91 | the form opens on the initial values for the given policy |
| PolicyEditor.PolicyForm.PickField | frontend/src/components/policies/PolicyEditor.tsx:132-136 | the new values are `ChooseField` of the old |
| PolicyEditor.PolicyForm.PickOperator | frontend/src/components/policies/PolicyEditor.tsx:146-151 | the new values are `ChooseOperator` of the old |
| PolicyEditor.PolicyForm.TypeValue | frontend/src/components/policies/PolicyEditor.tsx:163 | the new values are `EditValue` of the old |
| PolicyEditor.PolicyForm.PushCondition | frontend/src/components/policies/PolicyEditor.tsx:173 | the new values are `AddCondition` of the old |
| PolicyEditor.PolicyForm.RemoveConditionAt | frontend/src/components/policies/PolicyEditor.tsx:166 | the new values are `RemoveCondition` of the old |
| PolicyEditor.PolicyForm.PickActionType | frontend/src/components/policies/PolicyEditor.tsx:193-203 | the new values are `ChooseActionType` of the old |
| PolicyEditor.PolicyForm.PushAction | frontend/src/components/policies/PolicyEditor.tsx:236 | the new values are `AddAction` of the old |
| PolicyEditor.PolicyForm.RemoveActionAt | frontend/src/components/policies/PolicyEditor.tsx:229 | the new values are `RemoveAction` of the old |
| PolicyEditor.PolicyForm.HandleSubmit | frontend/src/components/policies/PolicyEditor.tsx:92-107 | something is submitted iff the schema accepts the values, and then it is `Submit` of them |
| UserManagement.RoleChoicesAreAccountRoles | frontend/src/pages/admin/UserManagementPage.tsx:144 | the role menu offers exactly the account roles of the user model |
| UserManagement.EditValues | frontend/src/pages/admin/UserManagementPage.tsx:101-112 | editing a user loads its id, names, email, role and flag, with a blank password |
| UserManagement.PasswordIssues | frontend/src/pages/admin/UserManagementPage.tsx:25-29 | the password is acceptable iff, when creating, it has at least 8 characters, and when editing it is blank or has at least 8 |
| UserManagement.UserFormIssues | frontend/src/pages/admin/UserManagementPage.tsx:20-31 | the user form has no issue iff full name, email (valid) and role are given, the username has at least 3 characters and the password rule holds |
| UserManagement.FreshFormIssues | frontend/src/pages/admin/UserManagementPage.tsx:46-54 | a fresh form reports the full name, username, email and password as missing, but not the role |
| UserManagement.StripBlankPassword | frontend/src/pages/admin/UserManagementPage.tsx:59-62 | the payload carries the values, with the password dropped exactly when it is blank |
| UserManagement.SaveRequest | frontend/src/pages/admin/UserManagementPage.tsx:59-68 | an edit of a user with an id is a PUT to `/users/<id>`, anything else a POST to `/users`; both carry the stripped payload |
| UserManagement.SentPasswordIsStrong | frontend/src/pages/admin/UserManagementPage.tsx:25-29 | an accepted form always sends a password when creating, and any password sent has at least 8 characters (see also lines 59-68) |
| UserManagement.UntouchedPasswordIsKept | frontend/src/pages/admin/UserManagementPage.tsx:101-112 | reopening a user and saving without typing a password is accepted and sends a PUT without a password (see also lines 59-65) |
| UserManagement.DeleteRequest | frontend/src/pages/admin/UserManagementPage.tsx:134 | deleting is a DELETE of `/users/<id>` with no body |
| UserManagement.UserManagementPage.constructor | frontend/src/pages/admin/UserManagementPage.tsx:35-54 | the page starts with no users, loading, no error, both dialogs closed and the fresh form |
| UserManagement.UserManagementPage.FetchStarted | frontend/src/pages/admin/UserManagementPage.tsx:80-82 | fetching sets loading and clears the error, nothing else changes |
| UserManagement.UserManagementPage.FetchSucceeded | frontend/src/pages/admin/UserManagementPage.tsx:84-93 | the rows become the table and loading ends |
| UserManagement.UserManagementPage.FetchFailed | frontend/src/pages/admin/UserManagementPage.tsx:90-93 | the response's error, else the message, else "Failed to fetch users." is shown and loading ends |
| UserManagement.UserManagementPage.OpenEditor | frontend/src/pages/admin/UserManagementPage.tsx:101-117 | the editor opens on the user's values when editing and on the fresh form otherwise, keeping the form's id tied to the user being edited |
| UserManagement.UserManagementPage.Change | frontend/src/pages/admin/UserManagementPage.tsx:45-55 | editing the form changes only its values, never the hidden id |
| UserManagement.UserManagementPage.CloseEditor | frontend/src/pages/admin/UserManagementPage.tsx:119-124 | closing the editor forgets the user being edited, resets the form and clears the error |
| UserManagement.UserManagementPage.Submit | frontend/src/pages/admin/UserManagementPage.tsx:56-68 | a request goes out iff the schema accepts the values, and it is the save request for the user being edited; a POST always carries a password of at least 8 characters |
| UserManagement.UserManagementPage.SaveSucceeded | frontend/src/pages/admin/UserManagementPage.tsx:69-71 | after a save the table reloads and the editor closes on a fresh form (see also lines 80-82, 119-124) |
| UserManagement.UserManagementPage.SaveFailed | frontend/src/pages/admin/UserManagementPage.tsx:72-73 | the response's error, else the message, else "Failed to save user." is shown; the editor stays open with its values |
| UserManagement.UserManagementPage.ConfirmDelete | frontend/src/pages/admin/UserManagementPage.tsx:126-129 | only a row that is not a SuperAdmin can be put up for deletion, and the confirmation opens on it (see also line 187) |
| UserManagement.UserManagementPage.DeleteChosen | frontend/src/pages/admin/UserManagementPage.tsx:131-134 | a delete request goes out iff a user is up for deletion, and that user is never a SuperAdmin |
| UserManagement.UserManagementPage.DeleteFinished | frontend/src/pages/admin/UserManagementPage.tsx:134-141 | on success the table reloads; on failure the response's error, else the message, else "Failed to delete user." is shown; either way the confirmation closes |
| Registration.RegisterIssues | frontend/src/components/auth/RegisterForm.tsx:13-21 | the sign-up form has no issue iff it has a full name, a username of at least 3 characters, a valid email, a password of at least 8 characters and a matching confirmation; the page's schema at frontend/src/pages/RegisterPage.tsx:10-18 is the same |
| Registration.MismatchRefused | frontend/src/components/auth/RegisterForm.tsx:18-20 | a confirmation that differs from the password is always refused, with "Passwords must match" when it was given |
| Registration.Payload | frontend/src/components/auth/RegisterForm.tsx:44 | the request body is the values without the confirmation, and names no role |
| Registration.PageRequest | frontend/src/pages/RegisterPage.tsx:38-39 | the page posts that body to `/auth/register` |
| Registration.AcceptedPasswordPassesServer | frontend/src/components/auth/RegisterForm.tsx:17 | an accepted password also passes the user model's password length rule (backend/models/User.js line 14) |
| Registration.SignUpCreatesUser | frontend/src/components/auth/RegisterForm.tsx:44-46 | an account created by signing up always gets the User role |
| Registration.PaddedUsernameAcceptedByForm | frontend/src/components/auth/RegisterForm.tsx:15 | the form counts a leading space towards the username's three characters |
| Registration.PaddedUsernameTrimsShort | backend/models/User.js:8 | trimming `" ab"` leaves fewer than three characters |
| Registration.ShortTrimmedUsernameRefused | backend/models/User.js:8 | every sign-up whose username is shorter than three characters once trimmed is refused by the server's schema, whatever the form's own length rule said |
| Registration.PaddedUsernameRefusedByServer | backend/models/User.js:8 | the padded example is accepted by the form and refused by the server's username rule |
| Registration.RegisterScreen.constructor | frontend/src/components/auth/RegisterForm.tsx:27-39 | the screen opens on empty values, with no error and no navigation |
| Registration.RegisterScreen.Change | frontend/src/components/auth/RegisterForm.tsx:32-40 | editing changes only the values |
| Registration.RegisterScreen.Submit | frontend/src/components/auth/RegisterForm.tsx:40-46 | a body goes out iff the schema accepts the values; it is their payload, the error is cleared, and its password passes the server's rule |
| Registration.RegisterScreen.Succeeded | frontend/src/components/auth/RegisterForm.tsx:47-51 | a success calls `onSuccess` when one was given and otherwise goes to `/login` with the success notice (frontend/src/pages/RegisterPage.tsx:44) |
| Registration.RegisterScreen.Failed | frontend/src/components/auth/RegisterForm.tsx:52-54 | a failure shows the error's message, or "Registration failed. Please try again." when there is none, and stays on the screen (frontend/src/pages/RegisterPage.tsx:45-47) |
| Forms.FailureText | frontend/src/pages/admin/UserManagementPage.tsx:73 | a non-empty response error wins, then a non-empty message, then the fallback; with a non-empty fallback the text is never empty |
| TextPreprocessing.LowerCharPySpace | ml-engine/scripts/preprocess.py:29 | `lower()` is the same case mapping as the user model's (`Text.Lower`), and it never turns a character into Python white space or back |
| TextPreprocessing.RemovePunctuation | ml-engine/scripts/preprocess.py:38 | no ASCII punctuation character survives, and the text never grows |
| TextPreprocessing.Split | ml-engine/scripts/preprocess.py:44 | `split()` gives non-empty words with no white space in them |
| TextPreprocessing.StripStart | ml-engine/scripts/preprocess.py:54 | the result does not start with white space |
| TextPreprocessing.StripEnd | ml-engine/scripts/preprocess.py:54 | the result does not end with white space |
| TextPreprocessing.PreprocessText | ml-engine/scripts/preprocess.py:25-26 | anything that is not a `str` gives the empty text |
| TextPreprocessing.RemoveUrlsDeletes | ml-engine/scripts/preprocess.py:32 | removing URLs only deletes characters: the result is a subsequence of the input |
| TextPreprocessing.NoUrlSurvives | ml-engine/scripts/preprocess.py:32 | no position of the result starts a run the URL pattern would match |
| TextPreprocessing.RemoveEmailsDeletes | ml-engine/scripts/preprocess.py:35 | removing e-mail runs only deletes characters |
| TextPreprocessing.NoAtSurvives | ml-engine/scripts/preprocess.py:35 | no `@` survives the e-mail step |
| TextPreprocessing.RemovePunctuationDeletes | ml-engine/scripts/preprocess.py:38 | removing punctuation only deletes characters |
| TextPreprocessing.SplitJoin | ml-engine/scripts/preprocess.py:44-54 | splitting words joined by single spaces gives the words back |
| TextPreprocessing.CollapseFixed | ml-engine/scripts/preprocess.py:55 | a text whose white space is already single spaces is left alone by the final substitution |
| TextPreprocessing.OutputIsJoinedWords | ml-engine/scripts/preprocess.py:44-57 | the output is exactly the words of the cleaned text joined by single spaces: the final `strip` and substitution change nothing |
| TextPreprocessing.OutputShape | ml-engine/scripts/preprocess.py:15-57 | the output has no leading, trailing or doubled white space, and its words are those of the cleaned text |
| TextPreprocessing.OutputKeepsOrder | ml-engine/scripts/preprocess.py:15-57 | the output is a subsequence of the lower-cased input, with white space read as spaces: the pipeline only deletes and keeps order |
| TextPreprocessing.OutputCharacters | ml-engine/scripts/preprocess.py:15-57 | the output holds no punctuation, no upper-case letter and no white space other than a plain space |
| TextPreprocessing.PunctuationFree | ml-engine/scripts/preprocess.py:38 | any character left by the punctuation step is not punctuation |
| TextPreprocessing.LowerFree | ml-engine/scripts/preprocess.py:29 | any character left by lower-casing is not upper-case |
| TextPreprocessing.CaseInsensitive | ml-engine/scripts/preprocess.py:29 | lower-casing the input first does not change the output |
| TextPreprocessing.RemoveUrls | ml-engine/scripts/preprocess.py:32 | the URL step never lengthens the text (that it only deletes, and that no match survives, are the lemmas `RemoveUrlsDeletes` and `NoUrlSurvives`) |
| TextPreprocessing.RemoveEmails | ml-engine/scripts/preprocess.py:35 | the e-mail step never lengthens the text (see `RemoveEmailsDeletes` and `NoAtSurvives`) |
| TextPreprocessing.Collapse | ml-engine/scripts/preprocess.py:55 | the white-space substitution never lengthens the text (see `CollapseFixed`) |
| Text.Trim | backend/models/User.js:8-11 | the `trim` setter: the result neither starts nor ends with JavaScript white space and is no longer than the input |
| Text.LowerChar | backend/models/User.js:8-11 | one character lower-cased: never a capital afterwards, unchanged when not a capital, changed when it is one |
| Text.Lower | backend/models/User.js:8-11 | the `lowercase` setter applies `LowerChar` to each character and keeps the length (mappings outside ASCII, Latin-1 and basic Cyrillic are under Left out) |
| Text.LowerIdempotent | backend/models/User.js:8-11 | lower-casing twice is lower-casing once |
| Text.AccentedCapitalFolds | backend/models/User.js:8-11 | "Éva" and "éva" are stored as the same lower-cased text |
| Text.TrimLower | backend/models/User.js:8-11 | trimming and lower-casing commute, so the order the two setters run in does not matter |
| Text.NormalizeIdempotent | backend/models/User.js:8-11 | applying both setters to a stored value changes nothing |
| Text.SplitOnJoin | backend/middleware/auth.js:10 | `split(' ')` gives fields free of the separator that join back to the header |
| Text.TextOr | frontend/src/components/auth/RegisterForm.tsx:54 | `value \|\| fallback` on text: the fallback exactly when the value is missing or empty |
| Validation.Check | backend/models/User.js:8-14 | one schema test: no issue iff it passes, and any issue names the tested path |
| Validation.Messages | backend/middleware/error.js:27 | the validation error's messages, one per issue and in order |
| UserModel.InsertKeepsDistinct | backend/models/User.js:8-11 | appending a user whose username and email clash with no stored user keeps both unique indexes |
| UserModel.ReplaceKeepsDistinct | backend/models/User.js:8-11 | replacing a user by one that clashes with no other keeps both unique indexes |

## Left out

- Cryptography: bcrypt, SHA-256, JWT signing and verification and `crypto.randomBytes` are foreign code. They appear as function-valued parameters, and the properties a lemma needs of them (a sound bcrypt, an injective SHA-256) are hypotheses of that lemma.
- Clocks, randomness and fresh ids: `Date.now()`, the salt, the raw reset token and new ObjectIds are parameters. Timestamps are natural numbers of milliseconds.
- Persistence details: `populate`, `sort`, the connection and the casting of ids are not modelled. A failed ObjectId cast reaches the model only as the error middleware's `CastError` branch.
- Read-only handlers: `getMe`, `getUsers`, `getPolicies`, `getPolicy`, `getAlerts`, `getAlert`, `getIncidents` and `getIncident` are not modelled. Their work is a query with `populate`/`sort` and a 404 when nothing is found. `getUser` is modelled as the one representative of that shape.
- Stores as sequences: each collection is a sequence in insertion order rather than a map from id to record. A map cannot express login's `$or` lookup matching two different users. Ids are still kept distinct by the store invariant.
- Concurrency: requests are handled one at a time. Interleavings between handlers and last-writer-wins races are not modelled.
- Mixed-type fields: an alert's `dataSnapshot` and a history entry's `details`, `oldValue` and `newValue` are not modelled. No handler or hook of the core writes them.
- Client thunks: the network calls, `localStorage` reads and writes and the router of the async thunks in `authSlice.ts` and `alertSlice.ts` are not modelled. Their outcomes reach the reducers as parameters.
- Page and form requests: the requests the user page, the sign-up screens and the policy editor send are returned as values and never performed.
- Rendering: layout, colours, tooltips and disabled states are not modelled. The exception is the disabled states that guard an operation: removing the last condition or action, and deleting a SuperAdmin.
- `generateShortId` in `frontend/src/utils/helpers.ts` is not modelled, because it draws on `Math.random`.
- The schema library's email test is a parameter `isEmail`; its regular expression is not part of this model.
- PolicyEditor.InitialValues: the form's `tags` and `scope` are passed through to the submission untouched and are not part of the model's form values.
- PolicyEditor: editing an alert action's `severity` parameter is not modelled. The action keeps the parameters it was created with.
- PolicyEditor.OperatorsFor: a data type that names a property of `Object.prototype` (such as `constructor`) would make the lookup return a function in JavaScript. The model treats it as an unknown type with no operators. The field picker only ever sets `string`.
- UserManagement.UserManagementPage.FetchSucceeded: the rows arrive already mapped to table rows. The `id: user._id` copy over the response list is not modelled.
- Registration: the `registerUser` thunk that the form dispatches is reduced to the request body it carries. The auth slice's handling of its outcome is modelled in `AuthSlice`.
- AuthController.ForgotPassword: a request without an `email` field is not modelled separately. The model's body always carries an email text.
- Text.Lower: the case mapping shared by the user model and the text preprocessor covers the capitals of ASCII, Latin-1 and basic Cyrillic. Other scripts and the lower-casings that change a string's length ("İ" becomes two UTF-16 code units in JavaScript) are not modelled, so two usernames that differ only in such letters stay distinct in the model but clash in the source.
- Text: lengths count characters, not UTF-16 code units. The `minlength` rules, the form's `min` rules and the `substring` in `truncateText` count code units in the source, which differs for characters outside the Basic Multilingual Plane.
- AuthSlice.AuthState.constructor: text under `'user'` that is not valid JSON makes `JSON.parse` throw while the store loads; that case is not modelled, and the parsed user is a parameter.
- UserController.UpdateUserStep: a body field sent as JSON `null` is not modelled. In the source it survives the `=== undefined` filter and reaches `findByIdAndUpdate` as a `$set`: `isActive: null` is stored and `protect` then answers 403, while `fullName: null` is refused with 400. The model's body tells only a given field from an absent one.
- PolicyController.UpdatePolicyStep: a body field sent as JSON `null` is not modelled. In the source it reaches `Object.assign` and is stored as null where no validator refuses it, or refused with 400 where the path is required or enum-checked. The model's body tells only a given field from an absent one.
- AlertController.UpdateAlertStep: a body field sent as JSON `null` is not modelled except `assignedTo`. In the source any other null field reaches `$set` under `runValidators` and is stored as null or refused with 400 where the path is required or enum-checked.
- IncidentController.UpdateIncidentStep: a body field sent as JSON `null` is not modelled except `assignee`. In the source any other null field reaches `$set` under `runValidators` and is stored as null or refused with 400 where the path is required or enum-checked.
- TextPreprocessing.PreprocessText: the function is not idempotent in general, and the model claims no such property. Punctuation removed in a second pass can create a new URL or e-mail run. Only case-insensitivity and the output's shape are proved.
