# omukk posts and auth: a verified Dafny model

This project models the business logic of the omukk social-posting backend. That logic lives in its two
repository modules: posts and likes (`app/repositories/post.py`), and registration, login and
one-time email verification (`app/repositories/auth.py`).

The database and the Redis cache become in-memory state:

- `Store.Database` is a class with three tables updated in place: `users` (id to name, email,
  password hash, `isVerified`), `posts` (id to author, content, time) and `likes` (a set of
  (post, user) pairs). `Valid()` is its integrity: every post's author is a user, and no two
  users share an email.
- `Store.CodeCache` is the Redis cache, a map from key to value. A user's pending code lives under
  `"verify:" + id`.

Each repository function is a method over these objects, as the Python functions take a session.
The method either returns a classified failure (`Result.Err` carrying the HTTP status and detail
text the code raises) and leaves the state alone, or it changes the state as its `ensures` state.
The statuses are the ones the code uses:

- A non-author editing or deleting gets 401 "Unauthorized", not 403.
- A duplicate email gets 400, not 409.
- A missing or expired code gets 400.

The routers' "User is already verified" guard is folded into both verification methods as their
first check.

Modules, one file each: `Schemas` (rows, payloads, failures), `Text` (Python's `isspace` and
`strip`), `Store`, `PostRepository`, `AuthRepository`.

Things worth knowing about the model:

- The content check `not content or content.strip() == ""` is `Text.IsBlank`. Python's whitespace
  set is spelled out in full. The content check rejects exactly the strings made only of whitespace.
- `get_all_posts` receives the result of the ordered posts query as `rows`. `NewestFirst` states
  what that result is: every post once, by time descending. A lemma shows such a listing always
  exists. Another shows it is unique when no two posts share a time.
- A second `verify_code` after a successful one fails either way. A request that resolves the
  user afresh fails at the router guard ("already verified"). A request holding the old profile
  fails because the code was consumed ("expired or not found"). `SendThenVerifyTwice` shows both.
- `redis.get` returning `""` is falsy in the code, so an empty stored value counts as no code
  (`HasPendingCode`).

## Model

| member | source | states |
|---|---|---|
| `Text.Strip` | app/repositories/post.py:63 | `strip()` returns the contiguous piece `s[i..j]` such that everything before `i` and after `j` is whitespace and neither end of the piece is whitespace |
| `Text.IsBlank` | app/repositories/post.py:63 | defined as the content check `not content or content.strip() == ""`: the content is empty or strips to nothing (the same test guards edit at line 90) |
| `Text.TrimStart` | app/repositories/post.py:63 | the leading part `strip()` removes is all whitespace; what remains is a suffix starting with a non-space |
| `Text.TrimEnd` | app/repositories/post.py:63 | the trailing part `strip()` removes is all whitespace; what remains is a prefix ending with a non-space |
| `Text.StripEmptyIffAllSpace` | app/repositories/post.py:63 | `s.strip() == ""` holds exactly when every character of `s` is whitespace |
| `Text.BlankIffAllSpace` | app/repositories/post.py:90 | the empty-content check rejects exactly the all-whitespace strings, `""` included |
| `Text.NonSpacePassesCheck` | app/repositories/post.py:90 | content holding any non-whitespace character passes the check |
| `PostRepository.View` | app/repositories/post.py:42-56 | defined as the view assembly: the post's id, content and time, its author's profile looked up by `user_id`, the number of like rows naming the post, and whether the acting user has a like row on it (the same assembly is at lines 15-29) |
| `PostRepository.GetAllPosts` | app/repositories/post.py:11-32 | one view per post, newest first; each view's like count is the number of like rows for the post, `liked` says whether the acting user has one, and the author is looked up |
| `PostRepository.GetPost` | app/repositories/post.py:35-56 | 404 "Post not found" for a missing id; otherwise the view with the recounted likes and the acting user's `liked` |
| `PostRepository.CreatePost` | app/repositories/post.py:59-83 | blank content fails with 400 and adds nothing; otherwise exactly one post is added, owned by the acting user with the given content, and the returned view has likes 0 and liked false, which agree with the likes table |
| `PostRepository.EditPost` | app/repositories/post.py:86-124 | checks in order: blank content 400, missing post 404, non-author 401, with posts unchanged on each failure; the author's edit changes only that post's content (author and time kept) and returns the recounted likes and liked |
| `PostRepository.DeletePost` | app/repositories/post.py:127-144 | missing post 404, non-author 401, posts unchanged on failure; otherwise exactly that post is removed and the message is "Post deleted" |
| `PostRepository.ToggleLike` | app/repositories/post.py:147-172 | missing post 404, own post 400 "Can't like own post", likes unchanged on failure; otherwise the (post, user) like is removed ("Like removed") if present and added ("Liked") if not |
| `PostRepository.Toggled` | app/repositories/post.py:162-172 | defined as the toggle's effect on the likes table: the (post, user) row is deleted if present and added otherwise |
| `PostRepository.ToggleInvolution` | app/repositories/post.py:162-172 | toggling the same like twice restores the likes table |
| `PostRepository.ToggleEffect` | app/repositories/post.py:162-172 | a toggle changes the post's like count by exactly one (down if the user had liked it, up otherwise), flips the user's `liked`, and changes no other post's count and no other (post, user) `liked` |
| `PostRepository.ToggleTwice` | app/repositories/post.py:147-172 | two toggles in a row leave the likes table as it was, and the first says "Liked" exactly when the second says "Like removed" |
| `PostRepository.LikedIsCounted` | app/repositories/post.py:43-47 | a post the acting user liked shows at least one like |
| `PostRepository.NewestFirstExists` | app/repositories/post.py:12 | for any posts table, a listing of every post once by time descending exists |
| `PostRepository.NewestFirstUnique` | app/repositories/post.py:12 | when no two posts share a time, two such listings are equal |
| `PostRepository.NewestFirstExample` | app/repositories/post.py:12 | posts made at times 1, 2 and 3 are listed as third, second, first |
| `AuthRepository.EmailRegistered` | app/repositories/auth.py:15 | defined as the email query finding a row: some user has exactly this email (the same query is at line 40) |
| `AuthRepository.Register` | app/repositories/auth.py:12-36 | an email any user already has fails with 400 "Email already registered", and this check comes before the password check; mismatched passwords fail with 400 "Passwords do not match"; no user is added on failure; success adds exactly one unverified user with the name, email and hashed password and changes no other user |
| `AuthRepository.RegisterTwice` | app/repositories/auth.py:15-19 | registering an email that was just registered fails with "Email already registered", whatever the passwords |
| `AuthRepository.Login` | app/repositories/auth.py:39-55 | unknown email 404 "User not found"; a wrong password 401 "Incorrect password"; otherwise a token for that user and their stored verified flag (verification is not required); nothing changes |
| `AuthRepository.GenerateCode` | app/repositories/auth.py:63 | the code is six characters, each in '0'..'9', and each digit's value is the draw it came from (leading zeros kept) |
| `AuthRepository.HasPendingCode` | app/repositories/auth.py:84-86 | defined as the negation of `not stored_code`: the cache holds a value under `"verify:" + id` and that value is not the empty string |
| `AuthRepository.SendVerificationCode` | app/repositories/auth.py:58-75 | a verified user gets 400 "User is already verified" and nothing changes; otherwise the code is stored under the user's key, overwriting any previous code, equals the returned code, and no other user's code changes |
| `AuthRepository.VerifyCode` | app/repositories/auth.py:78-107 | a verified user gets 400 "User is already verified"; no pending code gives 400 "expired or not found"; a code not exactly equal to the stored one gives 400 "Invalid verification code"; users and codes are unchanged on failure; a match sets the user's `isVerified` (if their row exists, and changes no user otherwise) and deletes the code |
| `AuthRepository.SendThenVerifyTwice` | app/repositories/auth.py:58-107 | a code just sent verifies the user; resubmitting it fails with "already verified" for a freshly looked-up user and with "expired or not found" for the old profile, and no code remains pending |
| `AuthRepository.VerifyAfterExpiry` | app/repositories/auth.py:68 | once the code's time to live runs out, verification fails with "expired or not found" and no user changes |
| `Store.VerifyKeyInjective` | app/repositories/auth.py:67 | two users' cache keys are equal exactly when the users are the same |
| `Store.CodeCache.Expire` | app/repositories/auth.py:68 | expiry removes exactly that key from the cache |

## Left out

- The HTTP routers are not modelled, apart from the "already verified" guard (app/routers/auth.py:39-43 and 53-57). The guard is the first check of `SendVerificationCode` and `VerifyCode`.
- Resolving a bearer token to the acting user (`get_user`, `get_user_strict`) lives in `app.security`, which is not part of this model. The acting user is a `Profile` parameter.
- `get_password_hash`, `verify_password` and `create_jwt_token` are opaque. They are the function parameters `hashPassword`, `verifyPassword` and `createToken`.
- `random.choices` is the `picks` parameter: six positions in `string.digits`.
- Fresh UUIDs and creation times are inputs (`newId`, `now`). Times are integers.
- The Redis connection is replaced by `CodeCache`. The 600-second time to live has no clock: it is the explicit transition `CodeCache.Expire`.
- SQLAlchemy sessions, commits and refreshes are not modelled. Each operation is one atomic state update.
- Deleting a post does not touch the likes table in this model. Whether the database cascades the delete to likes is not visible in the code.
- Likes are a set, which assumes the database keeps (post, user) pairs unique. The models module is not part of this model.
- The posts query orders by `Post.created_at` while the view shows `post.time`. The model assumes both name the same creation time. The order of posts with equal times is left to the database.
- `Valid()` assumes every post's author exists, as a foreign key would ensure. So the failure of `schemas.User.model_validate(None)` on a missing author is not modelled.
- CreatePost: the hard-coded likes 0 and liked false are proved to agree with the likes table only under `FreshPostId`: no like row already names the new id, which holds because UUIDs are never reused.
- Console printing of the code (app/repositories/auth.py:71) and `EmailStr` validation and normalisation are not modelled.
- Concurrent requests (racing like toggles or verifications) are outside this sequential model.
