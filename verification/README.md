# blog-api in Dafny

A model of the core of a REST blog back end (Express and Mongoose). It covers:

- the account lifecycle: signup with a six-digit email verification code, login, logout, forgotten and reset passwords, password change, the user listings, account deletion and access-token refresh;
- the JWT session cookies those handlers set;
- the two route guards, `verifyToken` and `verifyAdmin`;
- the Post and Comment schemas and their handlers;
- the newsletter subscriber list.

## How the model is built

Each collection is a sequence in insertion order. `findOne` and `findById` return the first match (`Base.FirstIndex`).

Handlers that write a collection are methods of a store class: `Accounts.UserStore`, `Posts.PostStore`, `Comments.CommentStore` and `Newsletter.NewsletterStore`. Their postconditions state the whole new collection and the response. Handlers that only read are functions of the collection.

`updatePost` passes `undefined` for a field the body does not carry; the model takes Mongoose 6 or later, which drops such keys from the update, so an absent field keeps its stored value (`Posts.ApplyUpdate`).

Some inputs come from outside the program, so they are parameters:

- the clock (`Date.now`);
- `Math.random` and `crypto.randomBytes`;
- the bcrypt salt;
- the id a new document receives;
- whether a token's `exp` has passed;
- the result of a Cloudinary upload.

A few primitives are modelled abstractly:

- A JWT is a `Signed(payload, secret, expiresIn)` value. `jwt.verify` accepts it exactly when the secrets agree and `exp` has not passed. It reports expiry exactly when the secrets agree and `exp` has passed.
- A bcrypt hash is `Digest(plain, salt)`. `bcrypt.compare` succeeds exactly on the same plain text.
- Cookie writes are a list of set/clear operations, and `Tokens.CookieAfter` replays them.
- The Cloudinary calls a handler makes are returned in order.

### Behaviour kept as written

- `login` never updates `lastLogin`.
- An unverified account with a wrong password gets 400, not 403, because the password is checked first.
- The cookies' `maxAge` is always 15 minutes and 7 days, whatever `ACCESS_TOKEN_EXPIRY` and `REFRESH_TOKEN_EXPIRY` say (`Tokens.CookieOptionsIgnoreExpirySettings`).
- `deleteUser` is mounted behind both guards and removes the caller's own account (`req.user._id`). When the caller is no longer stored, it sends 404 and does not return, so it attempts a second reply, which throws; the client sees only the 404.
- `resetPassword` does not check that `newPassword` is present. bcrypt then throws and the handler answers 500.
- `verifyToken` attaches the stored user, so `verifyAdmin` checks the role stored now, not the role in the token.
- `updateComment` lets only the owner edit. `deleteComment` also lets an administrator delete.
- `signup` sets the session cookies before the email is verified.
- `updatePost` destroys the old image before it uploads the new one. When the upload fails, the post is left pointing at the destroyed image (`Posts.FailedUploadKeepsDestroyedId`).

## Model

| member | source | states |
|---|---|---|
| Base.FirstIndex | controllers/users.js:62-65 | the first element satisfying the filter, and None exactly when no element does (`findOne`) |
| Base.RemoveAt | controllers/posts.js:174 | removing one document keeps the others in order; the multiset loses exactly that document |
| Base.Filter | controllers/comments.js:18 | `find(filter)` keeps exactly the matching documents, with their multiplicities |
| Base.SortBy | controllers/posts.js:7 | `sort` returns a permutation that is ordered by the key |
| Text.Trim | models/post.js:7 | `trim: true` yields a string with no leading or trailing white space, never longer |
| Text.TrimCutsOnlySpace | models/post.js:7 | trimming removes only white space, from the two ends, and keeps the middle slice |
| Text.TrimFixesTrimmed | models/post.js:7 | a trimmed string is left unchanged |
| Text.TrimIdempotent | models/comment.js:7 | trimming twice is trimming once |
| Text.Split | controllers/posts.js:75 | `split(",")` yields at least one piece, none containing the separator |
| Text.JoinSplit | controllers/posts.js:75 | joining the pieces of a split gives back the string |
| Text.SplitJoin | controllers/posts.js:75 | splitting the join of separator-free pieces gives back the pieces |
| Text.SplitCount | controllers/posts.js:75 | the number of pieces is the number of separators plus one |
| Text.Lowercase | models/post.js:29-34 | `lowercase: true` keeps the length, turns each upper-case letter into its own lower-case letter and changes nothing else |
| Text.LowercaseIdempotent | models/post.js:32 | lower-casing twice is lower-casing once |
| Text.DecimalString | controllers/users.js:30 | `toString()` on a natural number gives digits with no leading zero |
| Text.DecimalRoundTrip | controllers/users.js:30 | reading back the decimal string gives the number |
| Text.DecimalLength | controllers/users.js:30 | a number in [10^(k-1), 10^k) has k digits |
| Text.HexString | controllers/users.js:166 | `toString("hex")` gives two lower-case hex digits per byte |
| Text.HexRoundTrip | controllers/users.js:166 | decoding the hex string gives back the bytes |
| UserModel.ParseRole | models/user.js:8 | the role enum accepts exactly "user" and "admin" |
| UserModel.RoleRoundTrip | models/user.js:8 | every role survives being written and read back |
| UserModel.View | controllers/users.js:228-231 | the view with `-password` loses only the password: adding it back gives the user |
| UserModel.ViewHidesOnlyPassword | controllers/users.js:228-231 | two users have the same view exactly when they differ at most in the password |
| Tokens.Verify | middlewares/verifyToken.js:13 | `jwt.verify` decodes exactly a token signed with this secret and not expired, and reports expiry exactly for a well-signed expired token |
| Tokens.OrDefault | utils/generateTokenAndSetKookie.js:6 | an unset or empty setting falls back to the default |
| Tokens.SessionCookies | utils/generateTokenAndSetKookie.js:3-29 | both tokens carry {id, role} under their own secrets and the configured or default lifetimes; the cookies are httpOnly, Strict, secure outside development, 15 min / 7 days |
| Tokens.CookieOptionsIgnoreExpirySettings | utils/generateTokenAndSetKookie.js:19 | the cookie options do not depend on the token-lifetime settings |
| Tokens.IssuedSessionAuthenticates | utils/generateTokenAndSetKookie.js:15-28 | after issuing, the access and refresh cookies hold tokens that verify to the id and role |
| Accounts.Account | controllers/users.js:22 | the account found is a stored user with the email, and there is none exactly when no user has it |
| Accounts.VerificationCode | controllers/users.js:30 | `Math.floor(100000 + random*900000)` lies in 100000..999999 |
| Accounts.VerificationToken | controllers/users.js:30 | the verification token is a six-digit decimal string whose value lies in 100000..999999 |
| Accounts.ResetToken | controllers/users.js:166 | the reset token is 64 hex digits that decode to the 32 random bytes |
| Accounts.Login | controllers/users.js:94-137 | 400 exactly when a field is missing, the email is unknown or the password is wrong; 403 exactly for an unverified account with the right password; 200 sets the session cookies and returns the password-free view; nothing else sets cookies |
| Accounts.Logout | controllers/users.js:139-154 | 200, and both cookies are gone whatever they held |
| Accounts.GetUsers | controllers/users.js:218-244 | 400 exactly for an empty collection; otherwise every user's view, in order |
| Accounts.GetUserById | controllers/users.js:283-308 | 404 exactly when the caller's id is not stored; otherwise that user's view |
| Accounts.RefreshAccessToken | controllers/users.js:333-365 | 401 with no cookie; 200 exactly when the refresh token verifies and names a stored user, and then new cookies carry the stored role; the refresh cookie is cleared exactly when the token has expired |
| Accounts.ReplacePreservesValid | models/user.js:5 | replacing a user by a well-formed record with the same id and email keeps ids and emails unique |
| Accounts.RemovePreservesValid | models/user.js:5 | removing a user keeps the collection valid |
| Accounts.EmailLocates | models/user.js:5 | with unique emails, `findOne({email})` finds that user |
| Accounts.IdLocates | controllers/users.js:286 | with unique ids, `findById` finds that user |
| Accounts.ReplacePreservesEmails | models/user.js:5 | replacing a user without changing its email keeps emails unique |
| Accounts.UserStore.Signup | controllers/users.js:13-57 | 400 for a missing field or a taken email with nothing stored; otherwise exactly one new unverified user with a hashed password and a six-digit code valid for an hour, 201, and session cookies |
| Accounts.UserStore.VerifyEmail | controllers/users.js:59-92 | the first user with that unexpired code becomes verified and loses both code fields; 400 and no change otherwise |
| Accounts.UserStore.ForgotPassword | controllers/users.js:156-183 | 400 for an unknown email; otherwise only that user gains a 64-hex-digit reset token valid for an hour |
| Accounts.UserStore.ResetPassword | controllers/users.js:185-216 | 400 for an unknown or expired token; 500 with no change when no new password is given; otherwise only that user's password is replaced and the reset fields cleared |
| Accounts.UserStore.ChangePassword | controllers/users.js:246-281 | 400 for a missing field, 404 for a missing caller, 400 for a wrong old password; otherwise only the caller's password changes |
| Accounts.UserStore.DeleteUser | controllers/users.js:310-331 | removes exactly the caller; when the caller is already gone, 404 with the store unchanged, and the handler goes on to attempt a second reply; afterwards no stored user has that id |
| Accounts.VerificationTokenSingleUse | controllers/users.js:62-74 | after verifying, a code no other account holds matches nobody, at any later time |
| Accounts.VerifiedAccountNeverMatches | controllers/users.js:72-74 | a verified account never matches a verification lookup again |
| Accounts.ResetTokenSingleUse | controllers/users.js:189-203 | after a reset, a token no other account holds matches nobody |
| Accounts.LoginAfterPasswordReplaced | controllers/users.js:199-203 | after a verified account's password is replaced, login succeeds with the new password and fails with 400 for any other |
| Accounts.ChangePasswordTakesEffect | controllers/users.js:259-266 | after a verified account's password is changed, login succeeds with the new password and fails with 400 for the old one |
| Accounts.SignupVerifyLogin | controllers/users.js:13-137 | on an empty store: signup 201, login before verification 403, verification 200, login 200 |
| Accounts.ForgotResetLogin | controllers/users.js:156-216 | forgot 200, reset 200, then login with the old password 400 and with the new one 200 |
| Guards.Authenticate | middlewares/verifyToken.js:4-30 | the four 401 messages in order (no cookie, invalid, expired, unknown user); authenticated exactly when the token verifies and names a stored user, who is the caller |
| Guards.VerifyToken | middlewares/verifyToken.js:4-30 | `next()` with `req.user` set to the stored record exactly when authenticated; otherwise 401 with the message and `req.user` unchanged |
| Guards.VerifyAdmin | middlewares/verifyAdmin.js:1-7 | passes exactly when `req.user` is set and is an admin; otherwise 403 |
| Guards.AdminGate | routes/users.js:29 | the chain passes exactly when the cookie authenticates a user whose stored role is admin |
| Guards.IssuedAccessCookieAuthenticates | middlewares/verifyToken.js:13-23 | a freshly issued, unexpired access cookie authenticates its stored user |
| Guards.RefreshTokenNeverAuthenticates | middlewares/verifyToken.js:13 | with distinct secrets a refresh token is never taken as an access token |
| Guards.StoredRoleDecides | middlewares/verifyToken.js:17-23 | an admin token of a user now stored as "user" is refused by the admin gate |
| Guards.ExpiredSessionRefreshes | controllers/users.js:333-365 | an expired access token is refused; its refresh token yields cookies that authenticate the user with the stored role |
| PostModel.ParseCategory | models/post.js:11-17 | the enum accepts exactly the six category names |
| PostModel.CategoryRoundTrip | models/post.js:11-17 | every category survives being written and read back |
| PostModel.CastPost | models/post.js:1-74 | accepted exactly when every path passes its validator (trimmed title 3-200, category in the enum, trimmed excerpt 10-500, content, author, complete images); a stored document conforms and its fields are the trimmed inputs and the defaults |
| PostModel.CastConforming | models/post.js:1-74 | the schema accepts every conforming document unchanged |
| PostModel.LowercaseFixesLower | models/post.js:32 | a slug with no upper-case letter is stored as given |
| PostModel.MakePost | models/post.js:4-43 | accepted exactly when the title trims to 3-200 characters, content is non-empty and the author does not trim to ""; the stored post conforms and holds the trimmed title, author and tags |
| PostModel.MakeConforming | models/post.js:4-43 | every conforming post passes the casts unchanged |
| PostModel.TrimAllFixesTrimmed | models/post.js:65-70 | tags that are already trimmed are kept |
| Posts.ParseTags | controllers/posts.js:75 | empty means the fallback; otherwise one trimmed, comma-free tag per comma plus one |
| Posts.ParseJoinedTags | controllers/posts.js:134 | parsing comma-joined tags gives them back trimmed |
| Posts.ParseJoinedTrimmedTags | controllers/posts.js:134 | parsing comma-joined trimmed tags gives them back exactly |
| Posts.CreatePostAsWritten | controllers/posts.js:48-93 | as written: 400 exactly for a missing field, and otherwise always 500, never 201 |
| Posts.GetPosts | controllers/posts.js:5-21 | 200 with every post, newest first |
| Posts.GetPostById | controllers/posts.js:23-45 | 404 exactly for an unknown id; otherwise that stored post |
| Posts.ImageAfterUpdate | controllers/posts.js:108-126 | a new file destroys the old image and uploads; a failed upload is reported as not ok, after the same calls; `removeImage` destroys and clears; otherwise the image is kept |
| Posts.UpdateImage | controllers/posts.js:108-126 | the step-by-step image handling computes exactly `ImageAfterUpdate` |
| Posts.NoOrphanedImage | controllers/posts.js:111-126 | when the rule succeeds and the stored id changes, the old image was destroyed; the only image ever destroyed is the post's own, as the first call |
| Posts.FailedUploadKeepsDestroyedId | controllers/posts.js:111-120 | a failed upload comes after the old image was destroyed: 500, and the stored post keeps the destroyed id |
| Posts.RemoveImageTwice | controllers/posts.js:121-126 | asking twice to remove the image destroys it once |
| Posts.ApplyUpdate | controllers/posts.js:128-140 | the updated post conforms, keeps its id and creation time, and takes the new image and `updatedAt` |
| Posts.UpdateWithoutFields | controllers/posts.js:128-140 | an update with no fields changes only the image and `updatedAt` |
| Posts.UpdateFields | controllers/posts.js:128-140 | title and author are taken trimmed, content as given, tags parsed; each absent field is kept; refused exactly when a given field fails its validator |
| Posts.ReplacePreservesValid | controllers/posts.js:128-140 | replacing a post by a conforming one with the same id keeps the collection valid |
| Posts.CreateHelloPost | controllers/posts.js:48-93 | the finding's request (title "Hello", content "x", author "me") gets 500 as written and 201 from the corrected handler |
| Posts.PostStore.CreatePost | controllers/posts.js:48-93 | 400 for a missing field; the upload call; 500 when the upload fails or the casts refuse; otherwise exactly one new post with the upload's image and the parsed tags |
| Posts.PostStore.UpdatePost | controllers/posts.js:95-155 | 404 for an unknown id; the image rule's calls; 500 on a failed upload or refused fields; otherwise only that post is replaced by `ApplyUpdate` |
| Posts.PostStore.DeletePost | controllers/posts.js:157-188 | 404 for an unknown id; otherwise its image is destroyed if it has one and exactly that post is removed |
| CommentModel.CastCommentContent | models/comment.js:4-10 | content is accepted exactly when its trimmed form has 1 to 500 characters, and then the trimmed form is stored |
| CommentModel.BlankContentRefused | models/comment.js:4-10 | all-white-space content is refused |
| CommentModel.ConformingContentKept | models/comment.js:4-10 | trimmed content of 1 to 500 characters is stored as given |
| Comments.CommentsForPost | controllers/comments.js:4-32 | 404 exactly for an unknown post; otherwise exactly that post's comments, oldest first |
| Comments.CommentStore.CreateComment | controllers/comments.js:34-77 | 400 for empty content, 404 for an unknown post, 500 when the schema refuses; otherwise one new comment by the caller |
| Comments.CommentStore.UpdateComment | controllers/comments.js:79-130 | 400, 404, 403 for anyone but the owner, 500; otherwise only that comment's content and `updatedAt` change |
| Comments.CommentStore.DeleteComment | controllers/comments.js:132-169 | 404; removes exactly that comment when the caller owns it or is an admin; 403 otherwise |
| Newsletter.Emails | controllers/newsletter.js:6 | the set of subscribed emails is exactly the emails in the list |
| Newsletter.EmailsAppend | controllers/newsletter.js:14 | appending a subscriber adds exactly its email |
| Newsletter.AllSubscribers | controllers/newsletter.js:30-45 | 200 with every subscriber and `count` equal to their number |
| Newsletter.NewsletterStore.Subscribe | controllers/newsletter.js:3-27 | 400 and no change for a subscribed email; otherwise exactly that subscriber is appended; either way the email set gains exactly that email |
| Newsletter.SubscribeTwice | controllers/newsletter.js:3-27 | a second subscription of the same email is refused; the list is the original plus at most the first subscriber, and stays without duplicate emails |

## Left out

- Email sending (`nodemailer/emails.js`) is left out. Each sender catches and only logs its own transport errors, and it changes nothing stored, so it never affects a reply and is a no-op here.
- Database failures and the catch-all 500 replies they cause are not modelled. The exceptions are the schema refusals and the failed upload, which the model does cover.
- The `success` and `error` fields of the JSON bodies, and `populate("userId", "name email")` on comments, are not modelled.
- Accounts.UserStore.DeleteUser: the second reply attempted after the 404 throws ERR_HTTP_HEADERS_SENT, and so does the catch's 500; the rejected promise is handled by nothing (no error handler, no `unhandledRejection` handler). The model records only that the attempt happens (`repliedTwice`), not the exception or the unhandled rejection.
- Concurrency is not modelled: each request is one atomic step, so the check-then-insert races in `signup` and `subscribe` are not captured.
- Malformed ObjectIds, where `findById` throws a CastError and the handler answers 500, are not modelled; ids are naturals.
- An `undefined` value in a `findOne` filter, which Mongoose drops so that it matches any document, is not modelled; absent body fields are empty strings or `None`.
- bcrypt's truncation of inputs at 72 bytes is not modelled.
- JWT lifetimes like "15m" are not parsed; whether `exp` has passed is an input. An unset `JWT_ACCESS_SECRET` or `JWT_REFRESH_SECRET`, which makes `jwt.sign` throw, is not modelled.
- Accounts.VerificationCode: `Math.random` is a real number in [0, 1), not a double, so floating-point rounding is not modelled.
- Text.Lowercase: only ASCII letters are lower-cased, not the full Unicode case mapping.
- PostModel.CastPost, PostModel.MakePost and CommentModel.CastCommentContent measure `minlength` and `maxlength` in Unicode characters; Mongoose counts UTF-16 code units, so text with characters outside the Basic Multilingual Plane (emoji, for instance) is measured shorter here than by the source: 300 emoji are 600 code units, which the source refuses and the model accepts.
- The `slug` unique index is not modelled. No handler sets `slug`, and the index's collisions between posts without a slug are left out.
- The order among documents with equal `createdAt` after `sort` is not fixed by the model.
- A Cloudinary `destroy` that throws (500 after the upload) is not modelled; every destroy succeeds.
- The image-upload middleware, the Gemini helper, the route table (apart from the admin chain), `server.js` and the configuration loader are not part of this model.
- models/newsletter.js is not part of this model; a subscriber is taken to be its email and creation time.
- Deleting a user or a post does not cascade to comments in the source, and the model does not add it.
- `getPostBySlug` and `getAllComments` are referenced by the routes but not defined in the controllers, so they are not modelled.
- Posts.PostStore.UpdatePost and Posts.PostStore.DeletePost act on the post record that carries `imageUrl` and `cloudinaryId`. As written these paths are not in the schema, so strict mode never stores them and an update's image never persists. The model follows the corrected record of the finding below.

## Findings

| source | as written | input that shows it | evidently intended | confidence | as-written member | corrected member |
|---|---|---|---|---|---|---|
| controllers/posts.js:71-78 | `Post.create` is given no `category` and no `excerpt`, both required by models/post.js:11-24; strict mode also drops `imageUrl` and `cloudinaryId` | title "Hello", content "x", author "me": the schema refuses the document and the handler answers 500 | the post is stored with the given title, content, author, tags and image, and 201 is returned | not executed | Posts.CreatePostAsWritten | Posts.PostStore.CreatePost |
