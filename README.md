# News portal: a Dafny model of the back end's rules and the client's state

The portal is an Express/MongoDB service with a React client. It serves news
posts and user accounts. This project models the parts of it that hold the
rules:

- **Back end.**
  - The pagination helper and the page windows the post handlers read.
  - The password policy middleware.
  - The e-mail template substitution.
  - The response envelope.
  - The JWT and role middleware.
  - The account handlers: signup, e-mail verification, login, password reset, the user's own profile and the admin user operations.
  - The one-off admin bootstrap.
  - The post handlers: all posts, recent, search, top by category, related, by slug and newest by category.
- **Client.**
  - The authentication store.
  - The three route guards.
  - The six-cell verification code input.
  - The user menu.
  - The header's two panel toggles.

The model is organised by source file:

| file | module | models |
|---|---|---|
| `wrappers.dfy` | `Wrappers` | `Option` |
| `text.dfy` | `Text` | decimal rendering and parsing of numbers; JavaScript truthiness of optional strings |
| `response_model.dfy` | `ResponseModel` | the `{success, statusCode, message, data, error}` envelope; the call-next-or-respond outcome of a middleware |
| `pagination.dfy` | `Pagination` | `paginate` |
| `validate_password.dfy` | `PasswordPolicy` | the five password rules; both password middlewares |
| `email_helper.dfy` | `EmailHelper` | `applyTemplateReplacements` as a fold of literal replace-all steps |
| `verify_token.dfy` | `VerifyToken` | `verifyToken`, which updates a `Request` object in place; the three role gates |
| `user_record.dfy` | `UserRecord` | the user document; its public view; the per-record changes the handlers make |
| `accounts.dfy` | `Accounts` | the user collection as an `AccountStore` class; one method per mutating handler; read handlers as functions |
| `post_query.dfy` | `PostQuery` | the post document; the query steps the handlers use: filter, sort descending, skip/limit window, first n |
| `posts.dfy` | `Posts` | the post handlers; `getPostBySlug` mutates a `PostStore` |
| `auth_store.dfy` | `ClientAuth` | the client store as a class; one method per action, taking the back end's answer or failure as input |
| `route_guards.dfy` | `RouteGuards` | `ProtectedRoute`, `RedirectAuthenticatedUser`, `AdminProtectedRoute` as decisions |
| `code_entry.dfy` | `CodeEntry` | the code input's cells and focus as a class; auto-submit and the submit button |
| `user_menu.dfy` | `UserMenu` | initials, as written and as intended; redirect target; menu label |
| `secondary_header.dfy` | `SecondaryHeader` | the header's panel flags as a class with the two toggles |

The model takes these from its environment as inputs:

- **The clock.** `now` is an integer of milliseconds.
- **The random verification code and reset token.**
- **bcrypt.** Comparison is the store's `matches` function. A new hash is an input that `matches` accepts for the new password.
- **The JWT library.** It is a function from token to decoded claims, or an exception message.
- **The mail transport.** Each send is a `Sent` or `MailFailed` outcome.
- **MongoDB's text index.** It is a `textMatch` predicate.
- **The client's HTTP call.** It is an `ApiOutcome`.

## Model

| member | source | states |
|---|---|---|
| Text.NatToString | backend/controllers/auth.controller.js:50 | a non-negative number is written as at least one decimal digit, with no leading zero |
| Text.DecimalRoundTrip | backend/utils/pagination.js:27-28 | reading back the decimal text of n gives n |
| Text.IntToString | backend/utils/pagination.js:27-28 | an integer is written as digits and a minus sign only, never empty |
| Text.IntRoundTrip | backend/utils/pagination.js:27-28 | parsing the text of any integer (negative included) gives that integer back |
| Text.IntToStringInjective | backend/utils/pagination.js:27-28 | two integers with the same text are equal, so page numbers in links are unambiguous |
| Text.FirstTruthy | frontend/src/store/authStore.js:34-37 | `a \|\| b \|\| fallback`: the first truthy (present and non-empty) string, else the fallback |
| ResponseModel.CreateResponse | backend/utils/responseModel.js:10-17 | the envelope carries each argument in its own field, unchanged |
| ResponseModel.OmittedFieldsAreNull | backend/utils/responseModel.js:10-16 | `data` and `error` are null when not given |
| ResponseModel.SuccessIsIndependentOfStatus | backend/utils/responseModel.js:10-17 | success and status are not checked against each other (success with 500, failure with 200) |
| Pagination.CeilDiv | backend/utils/pagination.js:14 | `Math.ceil(a / b)` as the least q with a <= q*b for positive b (and the mirror bound for negative b) |
| Pagination.ParseIntOr | backend/utils/pagination.js:11-12 | a present non-zero number is kept; a missing one or 0 (falsy) gives the fallback |
| Pagination.LinkRoundTrip | backend/utils/pagination.js:27-28 | a page link can be parsed back into its base URL, page number and limit, so the link names exactly that page |
| Pagination.ExampleLinks | backend/utils/pagination.js:27-28 | the links to pages 1 and 3 of "/x" at limit 10 read "/x?page=1&limit=10" and "/x?page=3&limit=10" |
| Pagination.Paginate | backend/utils/pagination.js:10-37 | page and limit fall back to 1 and 10 when missing or 0; totalPages is ceil(total/limit); error 400 with the fixed message iff page > totalPages > 0; prevPage present iff page > 1 and nextPage iff page < totalPages, each exactly `baseUrl?page=N&limit=L` for the neighbouring page and parsing back to it; total and currentTotal are returned unchanged |
| Pagination.PageCountForPositiveLimit | backend/utils/pagination.js:14 | for a positive limit, totalPages is (total + limit - 1) / limit |
| Pagination.FallbackLimitIsTen | backend/utils/pagination.js:11-12 | a missing or zero limit paginates exactly as a limit of 10, whatever the caller's own default |
| Pagination.EmptyCollectionIsNeverOutOfRange | backend/utils/pagination.js:17-24 | with no items there are 0 pages and no page is out of range; a next link appears only for a negative page number |
| Pagination.MiddlePageExample | backend/utils/pagination.js:14-28 | 25 items, limit 10, page 2: 3 pages, links to pages 1 and 3 |
| Pagination.PastTheEndExample | backend/utils/pagination.js:14-24 | 100 items, limit 10, page 11: error 400 with 10 pages |
| Pagination.EmptyExample | backend/utils/pagination.js:14-28 | an empty collection: 0 pages, no links |
| Pagination.PageLink | backend/utils/pagination.js:27-28 | the link is the base URL as it stands followed by `?page=`, even when the base URL already holds a `?` |
| PasswordPolicy.MatchesRunIffSomeRun | backend/middleware/validatePassword.js:14 | `/.{6,}/` matches iff six consecutive characters none of which is a line terminator occur somewhere |
| PasswordPolicy.FirstFailure | backend/middleware/validatePassword.js:33-40 | the index found is a failing rule with all earlier rules passing, and none is found iff every rule passes |
| PasswordPolicy.CheckPassword | backend/middleware/validatePassword.js:29-44 | calls next iff no rule fails; otherwise responds 400 with the message of the first failing rule; a missing field is matched against the rules as the text "undefined" |
| PasswordPolicy.ValidatePassword | backend/middleware/validatePassword.js:29-44 | calls next iff the body's `newPassword` (a missing one read as "undefined") passes all five rules; otherwise 400 with `success: false` and the first failing rule's message |
| PasswordPolicy.ValidateResetPassword | backend/middleware/validatePassword.js:55-70 | calls next iff the body's `password` (a missing one read as "undefined") passes all five rules; otherwise 400 with `success: false` and the first failing rule's message |
| PasswordPolicy.AcceptedIffAllFive | backend/middleware/validatePassword.js:14-18 | a password is accepted iff it has a six-character line, an uppercase letter, a lowercase letter, a digit and a character that is none of these |
| PasswordPolicy.BothMiddlewaresAgree | backend/middleware/validatePassword.js:29-70 | the same text in `newPassword` and in `password` gets the same verdict and message from the two middlewares |
| PasswordPolicy.FailsOnUppercase | backend/middleware/validatePassword.js:14-40 | a password with a six-character line but no uppercase letter is refused with 400 and the uppercase message |
| PasswordPolicy.WeakPasswordExample | backend/middleware/validatePassword.js:14-18 | "abc123" is refused with the uppercase message |
| PasswordPolicy.StrongPasswordExample | backend/middleware/validatePassword.js:14-18 | "Abcdef1!" is accepted |
| PasswordPolicy.MissingFieldFailsOnUppercase | backend/middleware/validatePassword.js:30-34 | a body without the field is refused with the uppercase message, not the length message |
| EmailHelper.Placeholder | backend/mail/emailHelper.js:10 | the pattern for key k is `{k}`, two characters longer than k |
| EmailHelper.Split | backend/mail/emailHelper.js:10 | cutting text at the matches gives at least one piece; the first piece begins the text and no piece contains the pattern |
| EmailHelper.ReplaceAll | backend/mail/emailHelper.js:10 | global replacement equals cutting the text into pieces free of the pattern and joining them with the value |
| EmailHelper.SplitJoinRoundTrip | backend/mail/emailHelper.js:10 | joining the pieces with the pattern restores the text |
| EmailHelper.ReplaceBySelfIsIdentity | backend/mail/emailHelper.js:10 | replacing a pattern by itself changes nothing |
| EmailHelper.NoMatchNoChange | backend/mail/emailHelper.js:10 | text without the pattern is unchanged |
| EmailHelper.ReplaceWholeMatch | backend/mail/emailHelper.js:10 | text that is exactly the pattern becomes exactly the value |
| EmailHelper.NoEntriesNoChange | backend/mail/emailHelper.js:8-12 | with no replacements the template is returned unchanged |
| EmailHelper.ApplyTemplateReplacements | backend/mail/emailHelper.js:7-13 | with no entries, or a template without any `{`, the template comes back unchanged |
| EmailHelper.SingleEntry | backend/mail/emailHelper.js:10 | one entry: the template is pieces free of `{k}` joined by `{k}`, and the answer is the same pieces joined by v, so every `{k}` is replaced and nothing else changes |
| EmailHelper.ApplyInSequence | backend/mail/emailHelper.js:8-12 | entries apply in order: applying a list is applying its first part, then the rest to that result |
| EmailHelper.AbsentKeyNoChange | backend/mail/emailHelper.js:10 | a template without `{k}` is not changed by entry k |
| EmailHelper.LaterEntrySeesEarlierValue | backend/mail/emailHelper.js:8-12 | a value that contains `{b}` is itself replaced by a later entry for b |
| VerifyToken.Request.constructor | backend/middleware/verifyToken.js:14-15 | a request starts with its cookie token and no user id or role |
| VerifyToken.Verify | backend/middleware/verifyToken.js:14-56 | no token: 401 "no token provided"; a falsy decode: 401 "invalid token"; a throwing decode: 500 "Server error" with the thrown message; next is called iff the token decodes, and then the request carries the decoded user id and role |
| VerifyToken.RoleGate | backend/middleware/verifyToken.js:65-116 | the shared shape of the three role gates: pass iff the role is one of the allowed names, exactly, else 403 with `success: false` and the gate's message |
| VerifyToken.IsAdmin | backend/middleware/verifyToken.js:65-76 | passes iff the role is exactly "ADMIN", otherwise 403 with `success: false` and "not an admin" |
| VerifyToken.IsUser | backend/middleware/verifyToken.js:85-96 | passes iff the role is exactly "USER", otherwise 403 with `success: false` and "not a user" |
| VerifyToken.IsAdminOrUser | backend/middleware/verifyToken.js:105-116 | passes iff IsAdmin or IsUser would pass, otherwise 403 with `success: false` and "not an admin or user" |
| VerifyToken.RoleNamesAreCaseSensitive | backend/middleware/verifyToken.js:65-116 | "admin", "user" and "Admin" are refused |
| VerifyToken.NoRoleNoPass | backend/middleware/verifyToken.js:65-116 | a request without a role passes none of the gates |
| UserRecord.ParseRole | backend/controllers/user.controller.js:219-223 | only "USER" and "ADMIN" name a role, and the role parsed is the one named |
| UserRecord.RoleRoundTrip | backend/controllers/user.controller.js:219-223 | every role's name parses back to it |
| UserRecord.View | backend/controllers/user.controller.js:19 | the view drops only the password: the view together with the user's hash rebuilds the user |
| UserRecord.ViewHidesOnlyThePassword | backend/controllers/user.controller.js:19 | two users have the same public view iff they differ at most in their password |
| UserRecord.NewUser | backend/controllers/auth.controller.js:49-59 | the given e-mail, hash and name, role USER, unverified, unsuspended, no reset pending, and a code that alone matches, exactly until 24 hours after issue |
| UserRecord.NewAdmin | backend/utils/createAdmin.js:26-34 | the given e-mail, hash and name, role ADMIN, verified, unsuspended, with no code or reset token to match |
| UserRecord.MarkVerified | backend/controllers/auth.controller.js:100-102 | verified, no code matches any more, every other field kept |
| UserRecord.AfterReset | backend/controllers/auth.controller.js:250-252 | the new hash stored, no reset token matches any more, every other field kept |
| UserRecord.NatToStringLength | backend/controllers/auth.controller.js:50 | a number between 10^(k-1) and 10^k - 1 has k decimal digits |
| UserRecord.SignupCodeHasSixDigits | backend/controllers/auth.controller.js:50 | every code in [100000, 999999] is written as exactly six digits |
| UserRecord.NewCodeLifetime | backend/controllers/auth.controller.js:52-59 | a new user's code matches its own text exactly until 24 hours after issue |
| UserRecord.VerifiedCodeIsSpent | backend/controllers/auth.controller.js:100-102 | after verification no code matches the user at any time |
| UserRecord.ResetTokenLifetime | backend/controllers/auth.controller.js:197-201 | a fresh reset token is matched by exactly that token, until one hour after issue |
| UserRecord.ResetTokenIsSpent | backend/controllers/auth.controller.js:250-252 | after a reset no token matches the user at any time |
| Accounts.ValidEmailIffParts | backend/controllers/auth.controller.js:34-37 | a single `@` and a later `.` with whitespace- and `@`-free text around them occur at some positions iff the text is local@host.tld with three non-empty such parts |
| Accounts.IsValidEmail | backend/controllers/auth.controller.js:34-37 | the e-mail check accepts exactly local@host.tld, three non-empty parts free of whitespace and `@` |
| Accounts.AccountStore.Signup | backend/controllers/auth.controller.js:24-76 | missing field: 400 "All fields are required"; bad shape: 400 "Invalid email"; known e-mail: 400 "User already exists"; each of these changes nothing. Otherwise exactly one USER is added with a six-digit code expiring in 24 hours, and the session cookie is set. A mail failure still keeps the user but answers 400 |
| Accounts.AccountStore.VerifyEmail | backend/controllers/auth.controller.js:84-117 | a user is verified iff some user holds the code unexpired; that user alone becomes verified with the code fields cleared; otherwise 400 "Invalid or expired verification code" and no change |
| Accounts.AccountStore.Login | backend/controllers/auth.controller.js:125-160 | the same 400 "Invalid credentials" for an unknown e-mail and for a wrong password, with no change; on success only lastLogin changes and the session cookie is set |
| Accounts.Logout | backend/controllers/auth.controller.js:168-175 | clears the session cookie and answers 200 |
| Accounts.AccountStore.ForgotPassword | backend/controllers/auth.controller.js:183-221 | unknown e-mail: 400 "User not found" and no change; otherwise that user alone gets the new token, expiring in one hour |
| Accounts.AccountStore.ResetPassword | backend/controllers/auth.controller.js:229-270 | given a new password, a reset happens iff some user holds the token unexpired; that user alone gets the new hash with both reset fields cleared; otherwise 400 "Invalid or expired reset token" and no change |
| Accounts.GetUserDetails | backend/controllers/user.controller.js:17-41 | succeeds iff the user exists and returns the view without the password; otherwise 400 "User not found" |
| Accounts.AccountStore.UpdateUserDetails | backend/controllers/user.controller.js:49-75 | unknown id: 400 "User not found" and no change; otherwise only the name changes, and only when a non-empty name is given |
| Accounts.AccountStore.ChangePassword | backend/controllers/user.controller.js:83-126 | unknown id: 400 "User not found"; wrong old password: 400 "Old password is incorrect", hash unchanged; otherwise only the hash changes, to one that matches the new password |
| Accounts.AccountStore.DeleteSelf | backend/controllers/user.controller.js:135-160 | removes exactly that user and clears the session cookie; unknown id: 400 and no change |
| Accounts.GetAllUsers | backend/controllers/user.controller.js:170-178 | answers every user, each by its view without the password |
| Accounts.GetUserById | backend/controllers/user.controller.js:186-199 | succeeds iff the user exists and returns the view without the password; otherwise 400 "User not found" |
| Accounts.AccountStore.UpdateUserRole | backend/controllers/user.controller.js:207-231 | unknown id is checked first (400 "User not found"); a role other than "USER" or "ADMIN": 400 "Invalid role" and no change; otherwise only the role changes |
| Accounts.AccountStore.DeleteUser | backend/controllers/user.controller.js:239-256 | removes exactly that user; unknown id: 400 and no change |
| Accounts.AccountStore.ApproveUserEmail | backend/controllers/user.controller.js:264-291 | unknown id: 400 "User not found"; already verified: 400 "User is already verified"; otherwise the user becomes verified with both code fields cleared and nothing else changes |
| Accounts.AccountStore.SuspendUser | backend/controllers/user.controller.js:299-317 | sets isSuspended and changes no other field or user; unknown id: 400 and no change |
| Accounts.ReadEndpointsHidePasswords | backend/controllers/user.controller.js:17-199 | changing any user's hash changes no answer of the three read endpoints |
| Accounts.VerifyingRemovesOnlyThatHolder | backend/controllers/auth.controller.js:87-103 | verifying a user removes that user, and only that one, from the holders of any code |
| Accounts.SecondVerificationFails | backend/controllers/auth.controller.js:87-103 | a code held by one user cannot be used a second time, now or later |
| Accounts.ResettingRemovesOnlyThatHolder | backend/controllers/auth.controller.js:234-253 | a reset removes that user, and only that one, from the holders of any token |
| Accounts.SecondResetFails | backend/controllers/auth.controller.js:234-253 | a reset token held by one user cannot be used a second time, now or later |
| Accounts.SignupCodeExpires | backend/controllers/auth.controller.js:50-90 | a signed-up user is found by its code iff less than 24 hours have passed since signup |
| Accounts.AccountStore.CreateAdmin | backend/utils/createAdmin.js:11-43 | with an admin present nothing changes; otherwise exactly one verified ADMIN is added whose hash matches the configured password (nothing when the e-mail is taken) |
| Accounts.AccountStore.CreateAdminTwice | backend/utils/createAdmin.js:18-37 | running the bootstrap twice creates nothing the second time and adds at most one user in all |
| PostQuery.Filter | backend/controllers/post.controller.js:67-70 | a post is selected iff it is in the collection and meets the condition |
| PostQuery.FilterCounts | backend/controllers/post.controller.js:67-70 | filtering keeps every copy of a kept post and drops every copy of the others |
| PostQuery.Insert | backend/controllers/post.controller.js:71 | inserting into a descending sequence keeps it descending and adds exactly that post |
| PostQuery.SortDesc | backend/controllers/post.controller.js:71 | the result is descending by the key and a permutation of the input |
| PostQuery.SortDescSameMembers | backend/controllers/post.controller.js:71 | sorting neither adds nor drops a post |
| PostQuery.FilterKeepsOrder | backend/controllers/post.controller.js:423-424 | filtering a descending sequence keeps it descending |
| PostQuery.Window | backend/controllers/post.controller.js:17-21 | the window is items skip, skip+1, … of the sequence, as many as the limit allows (limit 0: all; negative: its absolute value) |
| PostQuery.Take | backend/controllers/post.controller.js:266 | the first min(n, length) items |
| PostQuery.WindowKeepsOrder | backend/controllers/post.controller.js:70-73 | a window of a descending sequence is descending |
| PostQuery.ConsecutivePagesAdjoin | backend/controllers/post.controller.js:17-21 | two consecutive pages together are the double-size page: nothing skipped, nothing repeated |
| PostQuery.PageNonEmptyIffInRange | backend/controllers/post.controller.js:17-21 | with positive limit and totalPages = ceil(n/limit), page p >= 1 has items iff p <= totalPages |
| PostQuery.TakeIsTop | backend/controllers/post.controller.js:262-266 | no post left out of the first n of a descending sequence ranks above the last one kept |
| Posts.Summaries | backend/controllers/post.controller.js:428 | one summary per post, in order |
| Posts.ListPage | backend/controllers/post.controller.js:14-51 | a negative skip is a 500 "Internal server error"; a paginate error is answered with its status, message and totalPages; otherwise 200 with paginate's fields and the window of the selection |
| Posts.GetAllPosts | backend/controllers/post.controller.js:14-51 | the page is exactly the skip/limit window of all posts, whatever their status, default limit 10 |
| Posts.GetRecentPosts | backend/controllers/post.controller.js:60-105 | the page is exactly the skip/limit window of the published posts sorted newest first, default limit 6 |
| Posts.RecentPageIsPublishedNewestFirst | backend/controllers/post.controller.js:67-73 | every post on a recent page is published, and the page is newest first |
| Posts.SearchNews | backend/controllers/post.controller.js:114-173 | an empty query is 400 "Search value is required"; otherwise the page is exactly the skip/limit window of the published text matches, default limit 10 |
| Posts.SearchHitsMatch | backend/controllers/post.controller.js:130-141 | every search hit is published and matches the query |
| Posts.SearchLinksRepeatTheQueryMark | backend/controllers/post.controller.js:146 | next/prev links of a search page add a second `?` after `?q=…` |
| Posts.GetTopPostsByCategory | backend/controllers/post.controller.js:200-244 | the page is exactly the skip/limit window of the category's published posts, most visited first, default limit 5 |
| Posts.TopPageIsPublishedMostVisitedFirst | backend/controllers/post.controller.js:205-210 | every post on a top page is published and in the category, most visited first |
| Posts.GetRelatedPosts | backend/controllers/post.controller.js:249-283 | 404 "Post not found" iff no post has the id; otherwise 200 with the newest min(n, 4) of the n published posts of that post's category other than itself, newest first, no candidate left out being newer than the last shown |
| Posts.RelatedAreTheNewestFour | backend/controllers/post.controller.js:262-266 | the first four of the sorted candidates are min(n, 4) of them, newest first, and no candidate left out is newer than the last one kept |
| Posts.CategoryGroupIsReordering | backend/controllers/post.controller.js:423-431 | the published posts cut out for a category are a reordering of that category's published posts |
| Posts.NewestInCategoryMembers | backend/controllers/post.controller.js:423-435 | a category's group is newest first and holds only published posts of that category |
| Posts.NewestInCategoryIsTop | backend/controllers/post.controller.js:423-435 | a category's group holds min(n, 5) of its n published posts, and none left out is newer than the last one kept |
| Posts.NewestInCategoryIsNewestFive | backend/controllers/post.controller.js:423-435 | a category's group is its newest min(n, 5) published posts: that many, newest first, published and of the category, none left out newer than the last one kept |
| Posts.CategoryGroups | backend/controllers/post.controller.js:422-438 | one group per category that has a published post, each holding that category's newest five |
| Posts.GroupsNameThePublishedCategories | backend/controllers/post.controller.js:426-427 | a category names a group iff it has a published post |
| Posts.CategoriesOf | backend/controllers/post.controller.js:426-427 | the categories listed are exactly those of the posts given |
| Posts.GetAllNewsByCategory | backend/controllers/post.controller.js:420-450 | the answer maps exactly the categories with a published post, each to the summaries of its newest five |
| Posts.PageOfSortedIsSorted | backend/controllers/post.controller.js:70-73 | a page of a sorted selection is sorted |
| Posts.PageItemsComeFrom | backend/controllers/post.controller.js:20 | every post on a page comes from the selection |
| Posts.PostStore.GetPostBySlug | backend/controllers/post.controller.js:286-318 | unknown slug: 404 "Post not found" and no change; otherwise that post's visitCount grows by one, the updated post is returned and no other post changes |
| ClientAuth.FailureText | frontend/src/store/authStore.js:34-37 | the server's message when truthy, else the transport's when truthy, else the fallback, so never empty with a non-empty fallback |
| ClientAuth.AuthStore.constructor | frontend/src/store/authStore.js:11-17 | the store starts signed out, idle, with no error, no message and isCheckingAuth false |
| ClientAuth.AuthStore.Signup | frontend/src/store/authStore.js:19-40 | loading starts and the error clears; success signs the user in; an unsuccessful answer changes nothing more, so loading stays on; a failure records the error and keeps user and isAuthenticated |
| ClientAuth.AuthStore.Login | frontend/src/store/authStore.js:42-63 | as signup, but a failure also forces isAuthenticated false |
| ClientAuth.AuthStore.Logout | frontend/src/store/authStore.js:65-84 | success clears the user and isAuthenticated; a failure records the error |
| ClientAuth.AuthStore.VerifyEmail | frontend/src/store/authStore.js:86-107 | any answer, successful or not, sets the user and isAuthenticated; a failure records the error |
| ClientAuth.AuthStore.CheckAuth | frontend/src/store/authStore.js:109-127 | success sets the user and isAuthenticated; a failure signs out; loading, error and message are untouched; isCheckingAuth is never set true |
| ClientAuth.AuthStore.ForgotPassword | frontend/src/store/authStore.js:129-147 | success changes only message and loading; the user is never touched |
| ClientAuth.AuthStore.ResetPassword | frontend/src/store/authStore.js:149-167 | success changes only message and loading; the user is never touched |
| RouteGuards.ProtectedRoute | frontend/src/App.jsx:33-45 | signed out: to /login; signed in and unverified: to /verify-email; signed in and verified: render; signed in without a user: a type error |
| RouteGuards.RedirectAuthenticatedUser | frontend/src/App.jsx:48-65 | an authenticated ADMIN goes to /admin; an authenticated verified USER to /dashboard; anyone else sees the page |
| RouteGuards.AdminProtectedRoute | frontend/src/App.jsx:68-76 | never redirects to /login (a negated role is never "ADMIN"); fails only without a user |
| RouteGuards.AdminRoute | frontend/src/App.jsx:172-181 | signed out: to /login; unverified: to /verify-email; verified: render, whatever the role; signed in without a user: a type error |
| RouteGuards.AdminRouteIsOnlyProtected | frontend/src/App.jsx:172-181 | the /admin route decides exactly as ProtectedRoute |
| RouteGuards.VerifiedUserReachesAdmin | frontend/src/App.jsx:172-181 | a verified USER reaches the admin page |
| RouteGuards.UnverifiedUserSeesSignedOutPages | frontend/src/App.jsx:56-64 | an authenticated unverified USER is not redirected away from login and signup |
| RouteGuards.AdminRedirectIgnoresVerification | frontend/src/App.jsx:52-54 | an ADMIN goes to /admin verified or not |
| CodeEntry.LastFilledIndex | frontend/src/pages/Auth/EmailVerificationPage.jsx:26 | the last non-empty cell, or -1: every later cell is empty |
| CodeEntry.PastedLastFilled | frontend/src/pages/Auth/EmailVerificationPage.jsx:18-27 | after a paste the last filled cell is min(length, 6) - 1 |
| CodeEntry.Join | frontend/src/pages/Auth/EmailVerificationPage.jsx:48 | cells of one character each join to a code of that many characters, the i-th being cell i's character |
| CodeEntry.AutoSubmit | frontend/src/pages/Auth/EmailVerificationPage.jsx:59-63 | submits iff every cell is filled, and then submits the joined cells |
| CodeEntry.SubmitDisabled | frontend/src/pages/Auth/EmailVerificationPage.jsx:98 | disabled iff loading or some cell is empty |
| CodeEntry.ButtonAgreesWithAutoSubmit | frontend/src/pages/Auth/EmailVerificationPage.jsx:59-98 | when not loading, the button is enabled iff auto-submit fires |
| CodeEntry.JoinOfSingles | frontend/src/pages/Auth/EmailVerificationPage.jsx:19-22 | cells holding the characters of a text one by one join back to that text's prefix |
| CodeEntry.PastedCodeIsSubmittedVerbatim | frontend/src/pages/Auth/EmailVerificationPage.jsx:18-63 | pasting exactly six characters submits exactly those six characters |
| CodeEntry.CodeInput.constructor | frontend/src/pages/Auth/EmailVerificationPage.jsx:8 | six empty cells, focus on the first |
| CodeEntry.CodeInput.HandleChange | frontend/src/pages/Auth/EmailVerificationPage.jsx:14-38 | a paste refills all six cells from its first six characters, ignoring the index, and focuses min(length, 5); a single character changes only its cell and moves focus on iff non-empty and not in the last cell; six cells of at most one character are kept |
| CodeEntry.CodeInput.HandleKeyDown | frontend/src/pages/Auth/EmailVerificationPage.jsx:40-44 | Backspace in an empty cell after the first moves focus back one; cells never change |
| UserMenu.CharAt | frontend/src/components/Public/Header/HeaderCategory/UserMenu.jsx:15 | indexing past the end gives undefined |
| UserMenu.SpaceParts | frontend/src/components/Public/Header/HeaderCategory/UserMenu.jsx:13 | splitting at single spaces gives at least one part |
| UserMenu.GetUserInitials | frontend/src/components/Public/Header/HeaderCategory/UserMenu.jsx:12-17 | a one-part name gives at most two characters (the code as written) |
| UserMenu.InitialsOfTwoWords | frontend/src/components/Public/Header/HeaderCategory/UserMenu.jsx:14-15 | "First Last" and "First Last More" give the first letters of the first two words |
| UserMenu.InitialsOfOneWord | frontend/src/components/Public/Header/HeaderCategory/UserMenu.jsx:16 | a single word gives its first two characters, or fewer if shorter |
| UserMenu.PartsComeFromName | frontend/src/components/Public/Header/HeaderCategory/UserMenu.jsx:13 | every character of a part is a non-space character of the name |
| UserMenu.TrailingSpaceShowsUndefined | frontend/src/components/Public/Header/HeaderCategory/UserMenu.jsx:13-15 | a word followed by a space gives its first letter followed by "undefined" |
| UserMenu.SpacesOnlyShowNaN | frontend/src/components/Public/Header/HeaderCategory/UserMenu.jsx:13-15 | a name that is one space, or two, gives NaN |
| UserMenu.WordInitialsComeFromName | frontend/src/components/Public/Header/HeaderCategory/UserMenu.jsx:12-17 | initials taken from the space-separated words are non-space characters of the name, and there is at least one when the name has a non-space character |
| UserMenu.IntendedInitials | frontend/src/components/Public/Header/HeaderCategory/UserMenu.jsx:12-17 | at most two characters, all non-space characters of the name, and at least one when the name has one |
| UserMenu.IntendedAgreesOnWellSpacedNames | frontend/src/components/Public/Header/HeaderCategory/UserMenu.jsx:14-16 | on one word, or two words with one space, the corrected initials equal what the code shows |
| UserMenu.IntendedIgnoresTrailingSpace | frontend/src/components/Public/Header/HeaderCategory/UserMenu.jsx:13-16 | a trailing space does not change the corrected initials |
| UserMenu.AvatarText | frontend/src/components/Public/Header/HeaderCategory/UserMenu.jsx:37 | a name with a non-space character shows its initials (first characters of the first two words); no name, or a name of spaces only, shows "U"; always one or two characters |
| UserMenu.RedirectTarget | frontend/src/components/Public/Header/HeaderCategory/UserMenu.jsx:19-25 | /admin iff the role is exactly lowercase "admin", otherwise /dashboard |
| UserMenu.MenuLabel | frontend/src/components/Public/Header/HeaderCategory/UserMenu.jsx:48 | "Admin Panel" exactly when the redirect goes to /admin, otherwise "Dashboard" |
| UserMenu.Menu | frontend/src/components/Public/Header/HeaderCategory/UserMenu.jsx:29-66 | signed out: only a button to /login; signed in: the avatar, and the dropdown iff shown, with the label and target above |
| UserMenu.ServerRolesAlwaysGoToDashboard | frontend/src/components/Public/Header/HeaderCategory/UserMenu.jsx:20-24 | the roles the back end sends ("ADMIN", "USER") never open the admin panel from this menu |
| SecondaryHeader.HeaderPanels.constructor | frontend/src/components/Public/Header/HeaderCategory/SecondaryHeader.jsx:10-12 | no categories and both panels closed |
| SecondaryHeader.HeaderPanels.ToggleSearchBar | frontend/src/components/Public/Header/HeaderCategory/SecondaryHeader.jsx:28-31 | flips the search bar, closes the user menu, keeps the categories; at most one panel is open |
| SecondaryHeader.HeaderPanels.ToggleUserMenu | frontend/src/components/Public/Header/HeaderCategory/SecondaryHeader.jsx:33-36 | flips the user menu, closes the search bar, keeps the categories; at most one panel is open |

## Left out

- The user model file is not part of this model. E-mail uniqueness is taken from the documented schema and kept as the store's invariant. A save that would break it (createAdmin on a taken e-mail) is modelled as a failed save that changes nothing.
- Any database error other than a negative skip. This includes failed saves and failed lookups, and the 400/500 answers of the `catch` blocks they would reach.
- Query strings that are not decimal integers (`page=abc`, `limit=2.5`). page and limit are `Option<int>`, where None means absent.
- The query engine is assumed to behave as follows:
  - skip is `(page - 1) * limit` computed on the parsed numbers;
  - a negative skip is an error;
  - limit 0 means no limit;
  - a negative limit means its absolute value.
- The order of posts whose sort keys are equal is left unspecified by the engine. The model keeps collection order.
- MongoDB's `$text` search and its stemming are a `textMatch` parameter.
- The aggregation pipeline of getAllNewsByCategory is written as filter, sort and group over the post sequence.
- The client side:
  - Page rendering and navigation side effects.
  - DOM focus, which is a `focus` field.
  - Toasts.
  - The axios response shape beyond success, user and message.
- The e-mail bodies, the mail transports, the JWT signing and cookie options, bcrypt and the random sources are inputs.
- Concurrency:
  - Requests are applied one at a time, so the race between two resets for one user is not modelled.
  - The client's state updates are taken to be synchronous.
- deleteUser calls `user.remove()`, which some Mongoose versions no longer provide. It is modelled as removing the user.
- The unrouted or single-query handlers are not modelled: getDashboardNews, getDashboardSingleNews, getNews, getPopularNews, getLatestNews, getCategories. The webhook, the routes and the process setup are not modelled either.
- Accounts.AccountStore.Login: login checks neither isSuspended nor isVerified. The model states the same and adds no such property.
- Accounts.AccountStore.Signup: the signup answer includes the verification code in the user view. The model's view keeps every field but the password, as the code does.
- UserMenu.AvatarText: uses the corrected initials (see Findings), not the code as written.
- EmailHelper.ApplyTemplateReplacements: keys are modelled as letters, digits and `_`, and values as free of `$`.
  - Other keys would be regular-expression syntax in the source.
  - Other values would be replacement patterns in the source.
- Characters outside the Basic Multilingual Plane, such as emoji. A JavaScript string is a sequence of UTF-16 code units, while a character here is a whole Unicode scalar value. Three results differ on such characters:
  - PasswordPolicy.MatchesRun: `/.{6,}/` counts such a character as two, so "ab😀cd" passes the length rule in the source and fails it in the model.
  - CodeEntry.Pasted: `split("")` cuts such a character into its two halves, one per cell; the model keeps it whole in one cell.
  - UserMenu.GetUserInitials: `[0]` and `substring(0, 2)` can return half of such a character; the model returns whole characters.
- Request body fields that are absent or JSON `null`:
  - PasswordPolicy.CheckPassword: a JSON `null` field is matched as the text "null", which fails the length rule first. A field here is a string or absent, and only absence (matched as "undefined") is modelled.
  - Accounts.AccountStore.Login: a missing `password` makes bcrypt's compare throw, and the `catch` answers 400 with bcrypt's message (backend/controllers/auth.controller.js:136). The model's password argument is always a string.
  - Accounts.AccountStore.ResetPassword: with a valid token and a missing `password`, bcrypt's hash throws (backend/controllers/auth.controller.js:248). The `catch` answers 400 with bcrypt's message and no user changes (backend/controllers/auth.controller.js:262-268). No middleware guards this route (backend/routes/auth.route.js:24). The model's password argument is always a string.
  - Accounts.AccountStore.ChangePassword: a missing `oldPassword` makes bcrypt's compare throw, and the `catch` answers 500 with bcrypt's message (backend/controllers/user.controller.js:97). With a correct `oldPassword` and a missing `newPassword`, bcrypt's hash throws instead (backend/controllers/user.controller.js:108), and the same `catch` answers 500 with no change (backend/controllers/user.controller.js:117-123). The model's password arguments are always strings.

## Findings

| source | as written | input that shows it | evidently intended | confidence | as-written member | corrected member |
|---|---|---|---|---|---|---|
| frontend/src/components/Public/Header/HeaderCategory/UserMenu.jsx:13-15 | splits the name at each single space and takes the first letters of parts 0 and 1, which can be empty | "Ann " shows "Aundefined"; " " shows "NaN" | initials from the first two non-empty words, or the first two letters of a single word | not executed | UserMenu.TrailingSpaceShowsUndefined | UserMenu.IntendedInitials |
