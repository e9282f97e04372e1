# Tenant scoping and account flows of a multi-workspace training backend

The backend serves coaches and staff, who each work inside one or more
*workspaces* (tenants). Every scoped request carries a workspace id inside
its JSON Web Token. This project models, in Dafny, the code that decides
which workspace a request may see and how that id gets into the token:

- token issuing: the default workspace of a user, `get_token` and
  `generate_jwt_token`;
- the middleware, which copies the token's `workspace_id` claim onto the
  request;
- `CustomModelViewset`, the query gate of every tenant viewset;
- the login serializer, which chooses the workspace a login token is
  scoped to;
- the account endpoints: sign-up, social sign-up, switching workspace,
  the password reset pair, the rule of `UserViewSet.update` and the
  workspace list;
- Google sign-in after the ID token has been verified;
- the two public availability checks;
- staff invitations: their serializer, their create endpoint, their
  24-hour validity and `generate_random_code`;
- the feed: creating posts (with their images and videos), comments and
  likes through the gate; the post and comment lists; the post-likes
  view; and the nested post/comment views with their like flags.

The database is a value (`Store.Store`, one sequence per table in table
order) held by a `Store.Database` object, which the endpoints update in
place. The declared constraints (unique keys, one-to-one staff rows,
foreign keys, NOT NULL) are the predicate `Store.Valid`, and the lemmas
show which operations keep it. The request and the user object are
classes (`Http.Request`, `Tokens.UserObject`) because the source attaches
`workspace_id` to them at run time.

Endpoints appear twice. A method follows the view step by step on the
database. A function gives the store and the response it leaves, and
each method's `ensures` ties it to that function. The properties are
then proved about the functions.

Two views do not do what their authors evidently meant (see "## Findings").
For those, the program as written is modelled and its failure exhibited,
and the endpoint members, marked "corrected program" below, follow the
corrected definition.

What the model takes as inputs instead of computing:

- token signing and decoding are the `decode` parameter, and a token is
  its claims map;
- Google ID-token verification is the `verify` parameter;
- password hashing is the `hash` parameter;
- fresh UUIDs and the current time are arguments;
- the content types table is a `contentTypes` set, and the content-type
  ids of posts and comments are fields of `FeedViews.ViewContext`;
- sending e-mail is left out.

Times are whole seconds.

## Model

| member | source | states |
|---|---|---|
| Store.FindUser | src/core/authentication/api.py:124-125 | finds a user with that id, and none exactly when no user has it |
| Store.FindUserByEmail | src/core/authentication/api.py:56-59 | finds a user with that email, and none exactly when no user has it |
| Store.FindWorkspace | src/core/authentication/serializers.py:73-88 | finds the workspace with that id, and none exactly when the id is unknown |
| Store.MemberWorkspace | src/core/mixins.py:46-54 | answers a workspace exactly when one with that id exists and the user owns it or has its staff row |
| Store.AddUserKeepsValid | src/core/authentication/models.py:16-44 | a user with a fresh id and an unused email keeps every table constraint |
| Store.InvitationIsValid | src/workspace/models.py:157-159 | an invitation is valid exactly when less than 86400 seconds have passed since its creation |
| Store.InvitationExpiresAtBoundary | src/workspace/models.py:157-159 | valid one second before the 24-hour mark and invalid at that mark (strict `>`) |
| Store.InvitationStaysInvalid | src/workspace/models.py:157-159 | once invalid, an invitation stays invalid at every later time |
| Store.DeleteWorkspace | src/workspace/models.py:78-80 | deleting a workspace removes it and, by CASCADE, exactly the staff, athlete, invitation and feed rows scoped to it (their `workspace` foreign key); users, reset tokens and organization types are unchanged. Feed rows of other workspaces that point at the deleted posts or comments are not removed by the model (see Left out) |
| Store.DeleteWorkspaceKeepsValid | src/workspace/models.py:141-142 | the cascade keeps every constraint: no row refers to the deleted workspace |
| Store.NullCreatedBy | src/workspace/models.py:138-140 | SET_NULL keeps every invitation in place, changes nothing but `created_by`, leaves no row naming the deleted user, and leaves the rows it did not issue untouched |
| Store.NullCreatedByMembers | src/workspace/models.py:138-140 | after SET_NULL every row is an old row or one the deleted user issued with the creator cleared, and every old row survives in that form |
| Store.DeleteUser | src/workspace/models.py:41-43 | deleting a user removes exactly its row, the workspaces it owned, the staff and athlete rows of the user or of those workspaces, and its reset tokens; invitations to the remaining workspaces survive with the user cleared as creator; the other rows of those tables are kept. The feed tables are left unchanged by the model (see Left out) |
| Store.DeleteUserKeepsOthersWorkspaces | src/workspace/models.py:41-43 | with unique workspace ids, the remaining workspaces are exactly those the user did not own |
| Store.DeleteUserNullsInviter | src/workspace/models.py:138-140 | an invitation the deleted user issued to a workspace it did not own survives with `created_by` cleared |
| Store.DeleteUserKeepsValid | src/workspace/models.py:41-43 | deleting a user keeps every constraint |
| Store.DeleteUserKeepsOwners | src/workspace/models.py:41-43 | after the cascade, every remaining workspace owner still exists |
| Store.DeleteUserKeepsInvitations | src/workspace/models.py:134-142 | after the cascade, invitation codes stay unique and every invitation names an existing workspace and creator |
| Store.DeleteUserKeepsInvitationRefs | src/workspace/models.py:138-142 | after the cascade, every invitation names an existing workspace, and its creator, when set, still exists |
| Store.NullCreatedByKeepsCodes | src/workspace/models.py:134-136 | clearing creators keeps invitation codes (the primary key) unique |
| Tokens.EarliestOwned | src/core/authentication/models.py:57-66 | the earliest-created workspace the user owns, none exactly when it owns none |
| Tokens.DefaultWorkspaceId | src/core/authentication/models.py:57-66 | none for a superuser; otherwise the id of an owned workspace created no later than any other owned one, none exactly when the user owns none |
| Tokens.DefaultIgnoresStaff | src/core/authentication/models.py:57-66 | staff rows play no part in the default workspace |
| Tokens.GetToken | src/core/authentication/serializers.py:59-66 | the claims hold the user id, and a `workspace_id` claim exactly when the user object has the attribute, with its value even when that is None |
| Tokens.TokenWorkspace | src/core/authentication/models.py:76-84 | a truthy explicit id is used as given with no membership check; otherwise a non-superuser with a truthy default gets that default, and a superuser or a user who owns nothing gets the error |
| Tokens.JwtTokens | src/core/authentication/models.py:68-91 | issues a pair exactly when a workspace is found; the access token names that workspace and the user |
| Tokens.UserObject.GenerateJwtToken | src/core/authentication/models.py:68-91 | the method answers `JwtTokens` and leaves the workspace it used attached to the user object |
| Tokens.StaffOnlyUserHasNoDefault | src/core/authentication/models.py:57-66 | a user who only staffs workspaces gets no token without an explicit id, and one for any non-empty id |
| Tokens.SoleOwnedIsDefault | src/core/authentication/models.py:57-66 | a user who owns a single workspace gets it as its default |
| Text.RemoveAll | src/workspace/utils.py:13 | `str.replace(p, '')` never lengthens the text |
| Text.RemoveAllAbsent | src/core/middlewares.py:20-21 | text in which the pattern does not occur is left as it is |
| Text.RemoveAllLeading | src/core/middlewares.py:20-21 | a leading occurrence is removed and the scan resumes after it |
| Text.RemoveCharAppend | src/workspace/utils.py:13 | removing one character distributes over concatenation |
| Text.RemoveCharKeeps | src/workspace/utils.py:13 | removing one character keeps exactly the other characters |
| Text.RemoveCharAbsent | src/workspace/utils.py:13 | removing a character the text lacks changes nothing |
| Text.UpperChar | src/workspace/utils.py:11 | `upper()` on one ASCII character leaves no lower-case letter, changes exactly the lower-case letters, and maps each to the capital 32 code points below it |
| Text.Upper | src/workspace/utils.py:11 | `upper()` keeps the length, leaves no lower-case ASCII letter, keeps every other character in place and turns each lower-case letter into its capital |
| Text.SliceTo | src/workspace/utils.py:15 | `s[0:n]` is a prefix of length min(n, len) for n >= 0, and counts from the right for a negative n |
| Codes.GenerateRandomCode | src/workspace/utils.py:4-15 | the code has no hyphen and is a prefix of the upper-cased UUID text with its hyphens removed |
| Codes.UpperHexBlock | src/workspace/utils.py:11 | upper-casing hex digits yields upper-case hex digits and no hyphen |
| Codes.UpperAppend | src/workspace/utils.py:11 | upper-casing distributes over concatenation |
| Codes.StripJoin | src/workspace/utils.py:13 | removing hyphens from two parts joined by a hyphen strips each part |
| Codes.StripJoined | src/workspace/utils.py:13 | removing the four joining hyphens concatenates the five UUID groups |
| Codes.UpperUuidGroups | src/workspace/utils.py:9-11 | an upper-cased UUID text is its five upper-cased groups joined by hyphens |
| Codes.StrippedUuid | src/workspace/utils.py:9-13 | the stripped UUID text is 32 upper-case hex digits |
| Codes.CodeShape | src/workspace/utils.py:4-15 | for length >= 0 the code has min(length, 32) upper-case hex digits |
| Codes.DefaultCodeHasFiveCharacters | src/workspace/utils.py:4 | the default code has five characters |
| Codes.NegativeLengthCountsFromRight | src/workspace/utils.py:15 | a length of -2 keeps 30 characters, as Python slicing does |
| Fields.NatTextRoundTrip | src/workspace/serializers.py:13-16 | reading back the decimal text of a number gives the number |
| Fields.CharInput | src/core/authentication/serializers.py:14-19 | a `CharField` takes text as given and a number as non-empty text, and refuses null, booleans and lists |
| Fields.NumeralNamesSameKey | src/workspace/models.py:44-46 | an organization type sent as its numeral names the same key as the number |
| AuthSerializers.CreatedUserAsWritten | src/core/authentication/serializers.py:14-28 | the created row has the given id and email, is never staff or superuser, stores a hash for a non-empty password and "" otherwise, and is active only when `is_active` is True |
| AuthSerializers.CreatedUser | src/core/authentication/serializers.py:14-28 | the same row with `is_staff` taken from the data |
| AuthSerializers.StaffFlagDroppedAsWritten | src/core/authentication/serializers.py:14-19 | an `is_staff: True` is lost as written and kept once the field is declared |
| AuthSerializers.ReplacedSameKeys | src/core/authentication/api.py:124-125 | saving a user row that keeps its id and email leaves every position's id and email as it was |
| AuthSerializers.ReplacedKeepsUnique | src/core/authentication/api.py:124-125 | such a save keeps user ids and emails unique |
| AuthSerializers.ReplacedKeepsIds | src/core/authentication/api.py:124-125 | such a save keeps the set of user ids |
| AuthSerializers.CreateUser | src/core/authentication/serializers.py:21-28 | (corrected program, see Findings) succeeds exactly when the data is valid, and then appends `CreatedUser`, the row with the requested `is_staff`, hashed after the first insert; otherwise the store is unchanged |
| AuthSerializers.CreateUserKeepsValid | src/core/authentication/serializers.py:21-28 | a created user with a fresh id keeps every constraint |
| AuthSerializers.LoginOutcome | src/core/authentication/serializers.py:68-112 | an unknown supplied id is 404; a known one succeeds exactly for a superuser, its owner or its staff; without one, a non-superuser is scoped to its default workspace or refused; a superuser keeps its prior attribute; the user is embedded without its password |
| AuthSerializers.Validate | src/core/authentication/serializers.py:68-112 | the method answers `LoginOutcome` and attaches its workspace to the user object; with `UPDATE_LAST_LOGIN` the login time is recorded on every authenticated attempt, because the parent `validate` writes it before the workspace checks, and without it nothing is written |
| AuthSerializers.WithLastLoginTwice | src/core/authentication/serializers.py:69 | recording the same login time a second time leaves the user table as recording it once, so the second write after a successful login changes nothing |
| AuthSerializers.LoginAgreesWithGenerateJwtToken | src/core/authentication/serializers.py:90-103 | wherever a login scopes its token, the token is the one `generate_jwt_token` would issue |
| WorkspaceSerializers.InvitationFields | src/workspace/serializers.py:27-49 | accepted fields name an existing workspace (the one in the body), the body's non-empty email and code, and the body's creator, which must exist; a null or empty `created_by` is no creator |
| WorkspaceSerializers.ValidateInvitation | src/workspace/serializers.py:29-45 | accepted exactly when the creator equals the workspace owner (None equals None) and the workspace has no staff row; a staffed workspace always reaches the `fitler` typo |
| InvitationApi.InvitationPayload | src/workspace/api.py:12-15 | `created_by` defaults to the requester, then `workspace` to the attribute; client values are kept and no other key is added |
| InvitationApi.CreateOutcome | src/workspace/serializers.py:27-49 | a field error is 400 and a refused validation keeps its reason; with both checks passed, the row is stored exactly when its code is unused, and it carries the body's email, creator and workspace and the client's or the generated code; a stored invitation names a workspace its creator owns, with no staff row, and is valid at creation |
| InvitationApi.CreateInvitation | src/workspace/api.py:12-15 | the method defaults the body, answers `CreateOutcome` and appends exactly the new invitation on success |
| InvitationApi.OmittedCreatorMustOwn | src/workspace/api.py:13 | without a `created_by` in the body, only the owner of the workspace can invite |
| InvitationApi.CallerIsNotChecked | src/workspace/serializers.py:35 | a body naming its own `created_by` gets the same answer whoever sends it |
| InvitationApi.CreateKeepsValid | src/workspace/models.py:131-142 | storing an accepted invitation keeps every constraint |
| OAuth.VerifiedClaims | src/core/authentication/oauth.py:22-28 | failed verification is an error; verified claims pass exactly when the issuer is one of Google's two |
| OAuth.LoginWithGoogle | src/core/authentication/oauth.py:21-55 | a missing code, bad token or missing email claim raises; an unknown email is 401; a user who neither owns nor staffs is 403; an owner or staff member gets tokens exactly when it has a default workspace, so a superuser or a staff-only user fails at token issue; a success returns the default-workspace token of an owning non-superuser |
| OAuth.OwnerLogsInWithGoogle | src/core/authentication/oauth.py:21-55 | on a consistent database, a verified token carrying the email of a non-superuser owner logs that user in with a token for its default workspace |
| OAuth.GoogleUserData | src/core/authentication/oauth.py:67-76 | names and email come from the claims, phone from the argument, `is_active` is True, a password only when truthy, and no `is_staff` |
| OAuth.GoogleUserFromClaims | src/core/authentication/oauth.py:58-82 | a user built from complete claims carries them, is active and is neither staff nor superuser |
| OAuth.MissingNameRefused | src/core/authentication/oauth.py:67-69 | a token without a given or family name yields data the serializer refuses |
| OAuth.CreateUserWithGoogle | src/core/authentication/oauth.py:58-82 | a bad token changes nothing; otherwise a user is created from the claims exactly when the serializer accepts them |
| Middleware.TokenText | src/core/middlewares.py:20-21 | the text handed to the decoder is never longer than the header |
| Middleware.ProcessedAttr | src/core/middlewares.py:16-30 | without a user or a non-empty header the attribute is untouched; otherwise a decode failure raises and a success attaches the `workspace_id` claim (None when absent) |
| Middleware.ProcessRequest | src/core/middlewares.py:16-30 | the method updates the request's attribute as `ProcessedAttr` says and leaves the body alone |
| Middleware.MissingCharNoBearer | src/core/middlewares.py:20-21 | text missing a character of "Bearer " contains no "Bearer " |
| Middleware.BearerTokenText | src/core/middlewares.py:20-21 | a space-free token behind "Bearer " reaches the decoder unchanged |
| Middleware.RepeatedPrefixRemoved | src/core/middlewares.py:20-21 | any number of leading "Bearer " prefixes are all removed, not only the scheme's |
| Middleware.LowercaseSchemeKept | src/core/middlewares.py:20-21 | "bearer " is matched case-sensitively and stays in the decoded text |
| Middleware.BearerHeaderAttachesClaim | src/core/middlewares.py:17-28 | a bearer header attaches the decoded token's `workspace_id` claim |
| Middleware.IssuedWorkspaceReturns | src/core/middlewares.py:23-28 | a token from `generate_jwt_token`, sent back, attaches exactly the workspace it was issued for |
| Middleware.UnscopedTokenAttachesNone | src/core/middlewares.py:26-28 | a token without the claim attaches None, not "no attribute" |
| Gate.SetDefault | src/core/mixins.py:14-18 | `setdefault` adds the key only when absent and keeps every existing entry |
| Gate.PrepareCreate | src/core/mixins.py:14-18 | with the attribute present, the body's `workspace` defaults to it and a client value is kept |
| Gate.GetData | src/core/mixins.py:20-31 | succeeds exactly for a truthy attribute, overriding `workspace` with it and keeping every other key; fails with an unbound `data` otherwise |
| Gate.ClientWorkspaceSurvivesOnlyCreate | src/core/mixins.py:14-31 | a client-chosen workspace survives `create`'s default but not `_get_data`'s override |
| Gate.InWorkspace | src/core/mixins.py:56 | the filter keeps exactly the rows of the workspace |
| Gate.InWorkspaceKeepsDescending | src/core/mixins.py:56 | filtering an ordered queryset keeps its order |
| Gate.GetQueryset | src/core/mixins.py:33-58 | admits exactly a truthy workspace the user owns or staffs, and returns exactly its rows; refuses with 403 exactly when the attribute is falsy and the user is not both superuser and staff |
| Gate.GetQuerysetKeepsOrder | src/core/mixins.py:56 | the admitted queryset keeps table order |
| Gate.MemberTokenScopesQuery | src/core/mixins.py:33-58 | a member's token for a workspace, sent as a bearer header, yields exactly that workspace's rows |
| Endpoints.MissingOf | src/core/authentication/api.py:141-159 | the missing fields are exactly the required fields whose value is falsy |
| Endpoints.CollectMissing | src/core/authentication/api.py:144-151 | the loop collects exactly `MissingOf`, in declared order |
| Endpoints.EmptyBodyMissesAll | src/core/authentication/api.py:141-159 | an empty body misses every required field |
| SignUpApi.FinishSignUp | src/core/authentication/api.py:184-199 | invalid workspace data rolls back to the store before the user; otherwise the owned workspace is added and the token is `generate_jwt_token()` on the new store |
| SignUpApi.SignUp | src/core/authentication/api.py:132-199 | (corrected program, see Findings) missing fields, a taken email and a taken name are refused in that order with the store unchanged; every error inside the transaction leaves the store unchanged; a commit adds the user and its owned workspace and answers their token |
| SignUpApi.SignUpEndpoint | src/core/authentication/api.py:132-199 | (corrected program, see Findings) the method leaves the store and response `SignUp` describes |
| SignUpApi.SaveOwnedWorkspace | src/core/authentication/api.py:184-199 | the method leaves the store and response `FinishSignUp` describes |
| SignUpApi.SignUpKeepsValid | src/core/authentication/api.py:184-192 | with fresh ids, sign-up keeps every constraint |
| SignUpApi.SocialSignUpKeepsValid | src/core/authentication/api.py:250-264 | with fresh ids, social sign-up keeps every constraint |
| SignUpApi.NewOwnedWorkspaceKeepsValid | src/core/authentication/api.py:186-192 | a workspace with a fresh id, a free name and an existing owner keeps every constraint |
| SignUpApi.SignedUpRows | src/core/authentication/api.py:169-192 | (corrected program, see Findings) a committed sign-up appends exactly one user (active and staff, not superuser) and one workspace it owns |
| SignUpApi.NewOwnerDefault | src/core/authentication/models.py:57-66 | a user who owned nothing and is given one workspace has it as its default |
| SignUpApi.FinishSignUpScopesToken | src/core/authentication/api.py:194-195 | the token after the commit never fails and names the new workspace |
| SignUpApi.SignUpTokenNeverFails | src/core/authentication/api.py:194-195 | with fresh ids, sign-up never fails after committing |
| SignUpApi.DefaultDependsOnWorkspaces | src/core/authentication/models.py:57-66 | the default workspace depends on the workspace table only |
| SignUpApi.SignUpTokenScopesNewWorkspace | src/core/authentication/api.py:194-199 | (corrected program, see Findings) a 201 carries a token for the new workspace, which the new active staff user owns |
| SignUpApi.SocialSignUpTokenScopesNewWorkspace | src/core/authentication/api.py:266-273 | the social sign-up token is never refused and names the new workspace |
| SignUpApi.SignUpTransaction | src/core/authentication/api.py:250-264 | a refused user rolls back; a commit adds the user and its owned workspace |
| SignUpApi.SocialUser | src/core/authentication/api.py:250-258 | the saved user comes from verified claims (not the request's email): active, neither staff nor superuser, with a fresh email and the hashed password when one is given |
| SignUpApi.SocialSignUp | src/core/authentication/api.py:202-273 | every error before the token leaves the store unchanged; a commit adds the Google user and its owned workspace and answers their token |
| SignUpApi.SocialSignUpChecksFirst | src/core/authentication/api.py:211-237 | missing fields, then a taken email, are refused before anything is written |
| SignUpApi.SocialSignUpEndpoint | src/core/authentication/api.py:202-273 | the method leaves the store and response `SocialSignUp` describes |
| AccountApi.SwitchWorkspace | src/core/authentication/api.py:276-323 | missing fields are 400 and an anonymous caller fails; a named workspace succeeds exactly when the caller owns or staffs it, answering a token scoped to it |
| AccountApi.SwitchWorkspaceEndpoint | src/core/authentication/api.py:276-323 | the method answers `SwitchWorkspace` and leaves the new workspace attached to the caller's object |
| AccountApi.StaffMaySwitch | src/core/authentication/api.py:302-317 | a staff member may switch to a workspace it does not own |
| AccountApi.UpdatePermission | src/core/authentication/api.py:349-381 | allowed exactly for a superuser, the user itself, or a staff requester whose target owns the workspace in the body; a non-staff requester is refused with its own message |
| AccountApi.StaffNeedNotBelong | src/core/authentication/api.py:354-362 | a staff requester with no tie to a workspace may update any user who owns it |
| AccountApi.StaffedWorkspaceDoesNotCount | src/core/authentication/api.py:354-362 | a workspace the target only staffs lets no one else update the target |
| AccountApi.UserWorkspaces | src/core/authentication/api.py:392-398 | lists exactly the workspaces the caller owns or staffs |
| AccountApi.ListedWorkspacesAreSwitchable | src/core/authentication/api.py:302-311 | every listed workspace can be switched to, and the switch names that workspace |
| AccountApi.ListedWorkspacesPassGate | src/core/mixins.py:33-58 | every listed workspace passes the query gate |
| PasswordResetApi.ResetRequestUser | src/core/authentication/api.py:46-59 | a wrong method and a missing email are refused; an unknown email is 404 exactly when no user has it; a found user has the email |
| PasswordResetApi.ReplaceResetToken | src/core/authentication/api.py:77-78 | the user's old tokens are deleted and the new row kept only when it has `valid_through`; other users' tokens are untouched |
| PasswordResetApi.KeptTokens | src/core/authentication/api.py:77-78 | after clearing a user's tokens none of them remain, and the new row is the only one |
| PasswordResetApi.RequestResetTokenAsWritten | src/core/authentication/api.py:42-91 | as written, the view replaces the token with one the serializer built from `user` alone |
| PasswordResetApi.RequestFindsUser | src/core/authentication/api.py:51-59 | a request naming a user's email finds that user |
| PasswordResetApi.ResetRequestAsWrittenLosesTokens | src/core/authentication/api.py:61-78 | as written, every request for a registered email answers 500 after deleting that user's tokens |
| PasswordResetApi.RequestResetToken | src/core/authentication/api.py:42-91 | succeeds exactly when the user is found, then leaves exactly one token for that user, valid one hour, and other users' tokens as they were; errors change nothing |
| PasswordResetApi.CreatePasswordResetToken | src/core/authentication/api.py:42-91 | (corrected program, see Findings) the method leaves the store and response `RequestResetToken` describes |
| PasswordResetApi.RequestResetTokenKeepsValid | src/core/authentication/api.py:77-78 | with an unused token id, a request keeps every constraint |
| PasswordResetApi.WithNewPassword | src/core/authentication/api.py:124-127 | the token's user gets the new password and every other user row is unchanged; exactly the reset tokens with another id stay; the other tables are unchanged |
| PasswordResetApi.ResetPassword | src/core/authentication/api.py:94-129 | GET answers whether the token exists; a POST on an existing token with a non-empty text password whose user exists always succeeds, setting the hash and deleting the token without reading its expiry; a non-text password is a 500; every other answer leaves the store unchanged |
| PasswordResetApi.ResetPasswordEndpoint | src/core/authentication/api.py:94-129 | the method leaves the store and response `ResetPassword` describes |
| PasswordResetApi.ResetTokenSingleUse | src/core/authentication/api.py:127 | after a successful reset, GET and POST with the same token answer 404 |
| PasswordResetApi.IssuedTokenIsStored | src/core/authentication/api.py:61-78 | after a request for a user, its new token is the only row with that id and the users are unchanged |
| PasswordResetApi.IssuedTokenResetsPassword | src/core/authentication/api.py:94-129 | a just-issued token resets that user's password and only that user's |
| PasswordResetApi.WithNewPasswordKeepsValid | src/core/authentication/api.py:124-127 | replacing a password keeps ids and emails, so every constraint holds |
| PasswordResetApi.ResetPasswordKeepsValid | src/core/authentication/api.py:94-129 | a reset keeps every constraint |
| PublicApi.CheckEmailAvailability | src/core/authentication/public_api.py:17-33 | missing exactly for an empty parameter; available exactly when no user has the email; a taken email is answered with its owner's first name |
| PublicApi.AtMostOneWithEmail | src/core/authentication/models.py:16-44 | with unique emails, at most one user matches |
| PublicApi.TakenEmailIsReported | src/core/authentication/public_api.py:24-30 | a taken email is answered as taken, never as a server error |
| PublicApi.AvailableEmailSignsUp | src/core/authentication/api.py:161-163 | an email reported available passes sign-up's duplicate check |
| PublicApi.CheckWorkspaceNameAvailability | src/core/authentication/public_api.py:43-55 | missing exactly for an empty parameter, used exactly when a workspace has the name |
| PublicApi.AvailableNameSignsUp | src/core/authentication/api.py:165-167 | a name reported available passes sign-up's duplicate check |
| FeedApi.Relinked | src/feed/api.py:34 | `set()` links a media row to the post exactly when it is named, and leaves unrelated rows alone |
| FeedApi.SetRelation | src/feed/api.py:32-34 | every row keeps its id and workspace and is linked exactly when named; unrelated rows are unchanged |
| FeedApi.SetRelationIdempotent | src/feed/api.py:32-34 | setting the same relation twice is setting it once |
| FeedApi.RelinkAll | src/feed/api.py:32-34 | the loop over the media table computes `SetRelation` |
| FeedApi.Relinks | src/feed/api.py:29-41 | a falsy id list leaves the table as it is; a list sets the relation |
| FeedApi.AttachMedia | src/feed/api.py:29-41 | succeeds exactly when both id values are falsy or lists; only the media tables change; a bad image list stops before the videos |
| FeedApi.CreatePost | src/feed/api.py:20-48 | no attribute fails before writing; the body is refused exactly when invalid; a saved post has the forced workspace and stays even when the media ids raise; success adds the post with the body's author and content and relinks the media |
| FeedApi.CreatePostEndpoint | src/feed/api.py:20-48 | the method leaves the store and response `CreatePost` describes |
| FeedApi.ForeignImageAttached | src/feed/api.py:31-34 | an image of another workspace named in `image_ids` is attached to the new post |
| FeedApi.CreateComment | src/feed/api.py:78-86 | succeeds exactly for a truthy attribute and a valid body, appending a comment in the forced workspace, by the body's author, on an existing post with an existing or no parent, holding the submitted non-blank content of at most 254 characters; errors change nothing |
| FeedApi.CreateCommentEndpoint | src/feed/api.py:78-86 | the method leaves the store and response `CreateComment` describes |
| FeedApi.CommentRefsNotScoped | src/feed/api.py:78-86 | a comment is accepted on a post of another workspace and under a parent on another post |
| FeedApi.CreateActivity | src/feed/api.py:93-101 | succeeds exactly for a truthy attribute and a valid body, appending a like in the forced workspace by the body's user, on the submitted `object_id` and known `content_type`, that the same user had not given to the same object; errors change nothing |
| FeedApi.CreateActivityEndpoint | src/feed/api.py:93-101 | the method leaves the store and response `CreateActivity` describes |
| FeedApi.CreateActivityKeepsUniqueLikes | src/feed/models.py:42 | creating an activity keeps (activity type, object id, user) unique |
| FeedApi.DuplicateLikeRejected | src/feed/models.py:42 | a second like by the same user on the same object is refused |
| FeedApi.PostLikes | src/feed/api.py:58-71 | lists exactly the likes with that object id and content type 6 |
| FeedApi.OneLikePerUser | src/feed/api.py:58-71 | no user appears twice in a post's likes |
| FeedApi.PostList | src/feed/api.py:15-18 | admitted exactly as the gate admits; lists exactly the workspace's posts, newest first |
| FeedApi.CommentList | src/feed/api.py:74-77 | admitted exactly as the gate admits; lists exactly the workspace's comments, newest first |
| FeedViews.AuthorRow | src/feed/serializers.py:31-35 | an author view exists exactly when the user does |
| FeedViews.AuthorHidesAccount | src/feed/serializers.py:31-35 | the author view depends only on the id and the two names, so no credential, flag or contact field leaves the server |
| FeedViews.LikesOn | src/feed/models.py:65 | exactly the activities on that object |
| FeedViews.IsLiked | src/feed/serializers.py:70-81 | true exactly when there is a requester and it has an activity on the object |
| FeedViews.LikeId | src/feed/serializers.py:83-95 | none without a requester; otherwise the id of one of the requester's activities on the object |
| FeedViews.IsLikedIffLikeId | src/feed/serializers.py:70-95 | `is_liked` holds exactly when `like_id` is set |
| FeedViews.LikeIdIsTheLike | src/feed/serializers.py:83-95 | with unique likes, `like_id` is the id of the requester's like |
| FeedViews.Children | src/feed/serializers.py:62-68 | exactly the comments whose parent is this comment |
| FeedViews.CommentTree | src/feed/serializers.py:55-99 | the view copies the comment, counts its likes, shows the author view of its author (`AuthorRow`), sets `is_liked` and `like_id` to the requester's like on the comment (`IsLiked`, `LikeId`), agrees the two flags in the whole tree (nothing liked without a requester), and has one reply per child |
| FeedViews.PostComments | src/feed/serializers.py:126-127 | exactly the comments of the post |
| FeedViews.TopLevelComments | src/feed/serializers.py:129-131 | exactly the post's comments without a parent, newest first |
| FeedViews.MediaOf | src/feed/serializers.py:121-122 | the ids of exactly the media rows linked to the post |
| FeedViews.PostViewOf | src/feed/serializers.py:116-169 | the view copies the post, shows its author view, counts its likes and all its comments, sets `is_liked` and `like_id` to the requester's like on the post (`IsLiked`, `LikeId`, agreeing with each other), lists the images and videos linked to it (`MediaOf`), and shows the comment tree of each top-level comment, newest first |
| FeedViews.CreatedPostShownUnliked | src/feed/api.py:43-48 | the response of `PostViewset.create` serializes the new post without a request, so it is never shown as liked |
| FeedViews.PostCommentFlags | src/feed/serializers.py:129-163 | every comment in a post view agrees `is_liked` with `like_id`, and nothing is liked without a requester |
| FeedViews.CommentsCountIncludesReplies | src/feed/serializers.py:126-136 | `comments_count` is the number of top-level comments shown plus every reply |
| FeedViews.LikesCountMatchesLikesList | src/feed/models.py:79-81 | a post's `likes_count` equals the length of its likes list |

## Left out

- Token signing, expiry and signature checks are the `decode` parameter, and a token is its claims map; `jwt.decode` raising is an error the model returns.
- Google ID-token verification is the `verify` parameter, and password hashing is the `hash` parameter.
- E-mail sending (password reset, verification mail) is not modelled, because it produces no state the core reads.
- Email format validation, whitespace trimming by `CharField`, the text spellings DRF accepts for booleans, and malformed UUIDs are not modelled. A malformed id matches no row.
- Request bodies are already decoded: JSON parse errors and multipart uploads are not modelled.
- The credential check of `TokenObtainPairSerializer` is not modelled: `AuthSerializers.Validate` starts from the authenticated user.
- `UserViewSet.update` is modelled by its permission rule only. The serializer save, `update_workspace` and the verification mail after it are not modelled.
- Anonymous callers in the gate are not modelled. `request.user` is taken as an authenticated user, and for the middleware as the flag `userTruthy`.
- `ImageSerializer`, `VideoSerializer`, the file fields and URL builders are not modelled: a media row keeps only its id, workspace and post. `ImageViewSet` and `VideoViewSet` add nothing beyond the gate.
- The list and retrieve views of `ActivitySerializer` are not modelled. Its `content_object` method field has no getter, so they fail.
- Pagination of list responses is not modelled.
- Transactions are a savepoint the method restores.
- No settings file is part of this model, so `ATOMIC_REQUESTS` is taken as off. A post stays saved when its media ids raise.
- DeleteWorkspace: removes only the rows whose `workspace` is the deleted one. Django's CASCADE also removes rows of other workspaces that point at the deleted posts and comments, and the model keeps them. These are comments whose `post` or `parent` is deleted (src/feed/models.py:256-260), images and videos attached to a deleted post (src/feed/models.py:100-101, 221-222), and the activity rows (likes) that point at a deleted post or comment through the `likes` generic relation (src/feed/models.py:65, 265).
- DeleteUser: leaves the feed tables unchanged, where Django's CASCADE removes more. It removes the user's own posts, comments and activities (`Post.author`, `Comment.author` and `Activity.user`, src/feed/models.py:57-58, 253-254, 26-27). It removes every post, comment, activity, image and video of the workspaces the user owned, which `Workspace.owner` deletes (src/workspace/models.py:41-43), through their `workspace` keys (src/feed/models.py:22-24, 52-54, 93-95, 216-218, 249-251). Then, second-level, it removes the images and videos of every deleted post (src/feed/models.py:100-102, 221-223), the comments whose `post` or `parent` was deleted (src/feed/models.py:256-260), and the likes on deleted posts and comments (src/feed/models.py:65, 265). In the model, the feed rows of the owned workspaces stay and name a workspace that no longer exists.
- `HistoricalRecords` on `Post` (src/feed/models.py:60) and on `User` (src/core/authentication/models.py:39) writes a history row on every save and delete. No operation of the core reads these rows, so the history tables are not modelled.
- Validate: takes the parent `TokenObtainPairSerializer.validate` to record the login time whenever `UPDATE_LAST_LOGIN` is set, as simplejwt 4.4 and later do. The pinned simplejwt version is not part of this model.
- Database order among rows with equal `created_at` is taken as table order, because the sort is stable.
- `.first()` orders by primary key, and the model takes the first row in table order. Every `.first()` in the core reads a unique key, so the two agree (`FeedViews.LikeIdIsTheLike`, `Store.FindUserByEmail` with unique emails).
- FeedViews.CommentTree: replies are expanded to a depth of `|db.comments|` (a fuel bound), which is exact for every acyclic parent chain. A cyclic chain would make the source recurse until `RecursionError`, and the model instead stops.
- FeedViews.LikeId: states that the answer is one of the requester's likes on the object, not which one. With unique likes, `FeedViews.LikeIdIsTheLike` pins it to the one like.
- FeedViews.CommentTree: the replies of a view are stated by id and parent, and each reply's own flags through `FlagsAgree`. Equality of each reply with the tree of its child is not stated, because that recursive equation makes the proof search loop.
- Codes.GenerateRandomCode: takes the UUID text as input instead of drawing it, so its randomness and the chance of a collision are not modelled. A colliding code is `InvitationApi.CreateOutcome`'s `CodeCollision`.
- CreateUser: appends the corrected row `CreatedUser`, which keeps the requested `is_staff`. As written, `UserSerializer` drops the flag; `AuthSerializers.CreatedUserAsWritten` is that row.
- SignUp: builds the owner with the corrected `CreatedUser`, so the new owner is staff. As written it is stored as non-staff (`AuthSerializers.StaffFlagDroppedAsWritten`).
- SignUpEndpoint: follows the corrected `SignUp`, for the same reason.
- SignedUpRows: states that the new owner is staff, which holds of the corrected program only. As written the owner is not staff.
- SignUpTokenScopesNewWorkspace: states that the new owner is staff, which holds of the corrected program only.
- CreatePasswordResetToken: follows the corrected `RequestResetToken`, which saves `valid_through`. As written the view deletes the user's tokens and then fails with a 500 (`PasswordResetApi.ResetRequestAsWrittenLosesTokens`).
- FindWorkspace: compares ids as exact text. A Django `UUIDField` lookup also matches the upper-case and the hyphen-free spellings of an id, so for those spellings the model answers "not found" where the source finds the row.
- FindUser: compares user ids as exact text, so it does not match other spellings of a UUID.
- MemberWorkspace: compares workspace ids as exact text, so the gate's filter and `SwitchWorkspace` refuse other spellings of a UUID that the source accepts.
- LoginOutcome: compares the supplied workspace id as exact text, so another spelling of an existing id is a 404 in the model.
- FindUserByEmail: compares emails exactly. MySQL's default collation compares them case-insensitively, so the source also finds a user whose email differs only in letter case.
- CheckEmailAvailability: reports an email as available when only a case variant is taken. In the source's MySQL collation it is taken.
- CheckWorkspaceNameAvailability: compares names exactly, not case-insensitively as the MySQL collation does.
- SignUp: its duplicate email and name checks compare exactly, not case-insensitively as the MySQL collation does.
- LoginWithGoogle: finds the user by exact email, not case-insensitively as the MySQL collation does.
- Valid: its unique email and name constraints compare exactly, so it admits case variants that a case-insensitive MySQL unique index refuses.
- Time is whole seconds, so `timedelta(hours=24)` and `timedelta(hours=1)` are 86400 and 3600 and sub-second comparisons are not modelled.

## Findings

| source | as written | input that shows it | evidently intended | confidence | as-written member | corrected member |
|---|---|---|---|---|---|---|
| src/core/authentication/api.py:61-78 | the view computes `valid_through` but `PasswordResetTokenSerializer` (src/core/authentication/serializers.py:115-118) has `user` as its only field, so the token is inserted without it and the NOT NULL column refuses it, after the user's old tokens were already deleted | a POST with the email of any registered user | the token is saved with `valid_through` one hour ahead and replaces the user's old token | not executed | PasswordResetApi.ResetRequestAsWrittenLosesTokens | PasswordResetApi.RequestResetToken |
| src/core/authentication/api.py:169-174 | `sign_up` passes `is_staff: True`, but `UserSerializer` (src/core/authentication/serializers.py:14-19) does not declare `is_staff`, so the new owner is created as non-staff | any successful sign-up | the user who signs up and owns the new workspace is staff | not executed | AuthSerializers.StaffFlagDroppedAsWritten | AuthSerializers.CreatedUser |
