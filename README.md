# Framez client core, modelled in Dafny

Framez is a small photo-sharing client. This project models the client-side
logic around its backend, in one Dafny module per source file:

- **The posts provider** (`PostsContext`). It holds three views of posts:
  - the feed;
  - the signed-in user's own posts;
  - the user's saved posts.

  It also holds a loading flag and the time of the last feed fetch. The model
  covers:
  - the one-minute cooldown between unforced feed loads;
  - the reset when the auth state changes;
  - the per-view updaters: prepend, remap a like or a save, filter out a
    deleted post.
- **The like button** (`LikeButton`): the optimistic toggle, its revert when
  the answer reports failure, and the stuck state a rejected request leaves.
- **The like and save services** (`LikesService`). The model covers toggling a
  row in the `likes` or `saved_posts` table, counting a post's likes, and the
  two read projections. These projections turn joined rows into liked posts
  and into decorated saved posts.
- **The post service** (`PostService`). It covers:
  - the storage file name of an uploaded image;
  - the storage path recovered from an image URL when a post is deleted;
  - the upload guard of post creation;
  - the empty fallback of feed queries;
  - the loop that copies decoded base64 text into a byte buffer.
- **The post card** (`PostCard`): the relative-age text ("Just now", "5m ago",
  …), the avatar initial and the `@handle`.
- **The sign-up form** (`SignUp`): the ordered validation chain and the
  lower-casing of the username field.
- **The post composer** (`CreatePostScreen`): submit, image pick and removal,
  and whether the Post button is disabled.
- **The theme provider and switcher** (`ThemeContext`, `ThemeSwitcher`).

Two shared modules support the rest:

- `Common` provides:
  - an optional value;
  - JavaScript truthiness of an optional string;
  - the decimal rendering of a template literal;
  - ASCII case mapping;
  - the whitespace set of `String.prototype.trim`.
- `Types` provides the `Post` and `Profile` records.

Every backend call, storage access, permission prompt, image picker and clock
reading is a parameter of the operation that uses it. A remote call resolves
with a value or throws (`Outcome`). A query gives rows or an error (`Query`).
A write either fails or succeeds (a boolean). Where the source mutates state,
the model uses a class with `modifies` clauses:

- `PostsContext.PostsStore`;
- `LikeButton.LikeButtonState`;
- `LikesService.Tables`;
- `CreatePostScreen.Composer`;
- `ThemeContext.ThemeStore`.

Each such class has its state changes written out in its contracts. The pure
updaters, projections and formatters are functions, and lemmas state their
properties.

Where the code and the product's stated behaviour differ, the model follows
the code:

- **The like button does not write the backend's count back.** It keeps its
  optimistic count on success. It passes only the `liked` flag to its parent
  (src/components/LikeButton.tsx:26-28). The provider's `updatePostLike` does
  take the authoritative count.
- **The like button's call does not match the like service.** The button
  imports `likeService` (src/components/LikeButton.tsx:3), but the module
  exports only `likesService` (src/services/likes.ts:3). So, as written, the
  call at src/components/LikeButton.tsx:20 throws on every press before any
  request goes out: the request is rejected. The handler has no `finally`, so
  a rejection leaves the optimistic values showing with loading on, and every
  later press is ignored. Were the name to resolve, `toggleLike` resolves with
  `{ liked, count }` or null (src/services/likes.ts:5-49). The object has no
  `success` field, so every toggle the backend carries out reads as a failure:
  the button reverts it and does not tell its parent. A null result cannot be
  destructured, so it rejects. The model takes the backend's reply as an
  abstract parameter: an answer (success, liked) or a rejection.
  `ReplyOfToggle` gives the reply the service's result would produce. The
  component reads `post.isLiked` and `post.likeCount` when created. These
  fields are not in the post record, so the constructor takes the initial flag
  and count as arguments.
- **`loadAllPosts` passes the user id to `fetchPosts`, which ignores it.**
  Feed posts therefore carry whatever derived fields the returned rows hold.
  `FetchPosts` returns the rows unchanged.
- **The fetchers never throw.** `fetchPosts`, `fetchUserPosts` and
  `getUserSavedPosts` catch every error and resolve with `[]`
  (src/services/posts.ts:124-130, 152-158; src/services/likes.ts:221-224). So
  the provider's catch branches are not reached by a failed query. Instead, a
  failed feed query empties the feed and stamps the fetch time, which blocks
  unforced reloads for a minute. A failed user query empties the user view.

## Model

| member | source | states |
|---|---|---|
| Common.DecimalString | src/services/posts.ts:27 | `${n}` of a non-negative integer is at least one decimal digit, and has no leading zero unless the number is 0 |
| Common.DecimalRoundTrip | src/components/PostCard.tsx:25-27 | reading the rendered digits back gives the number (the rendering loses nothing) |
| Common.DecimalStringInjective | src/components/PostCard.tsx:25-27 | different numbers render differently, so distinct timestamps give distinct file names and distinct ages read differently |
| Common.ToLower | src/screens/Auth/SignUpScreen.tsx:83 | `toLowerCase` keeps the length, leaves no ASCII capital, and keeps every character that is not a capital |
| Common.TrimStart | src/screens/Post/CreatePostScreen.tsx:67 | drops exactly the leading whitespace: the result is a suffix that is empty or starts with non-whitespace |
| Common.TrimEnd | src/screens/Post/CreatePostScreen.tsx:67 | drops exactly the trailing whitespace: the result is a prefix that is empty or ends with non-whitespace |
| Common.Trim | src/screens/Post/CreatePostScreen.tsx:82 | `trim()` is never longer than its input and, when non-empty, starts and ends with non-whitespace |
| Common.TrimIsSlice | src/screens/Post/CreatePostScreen.tsx:82 | `trim()` is a contiguous slice of the input with whitespace-only text cut on each side |
| Common.TrimEmptyIff | src/screens/Post/CreatePostScreen.tsx:67 | `trim()` gives "" exactly when every character is whitespace |
| PostsContext.HasId | src/context/PostsContext.tsx:154 | `prev.some(p => p.id === postId)`, matched post by post: true exactly when some post in the view has the id |
| PostsContext.SetLike | src/context/PostsContext.tsx:133-134 | a post with the id gets the new like flag and count and keeps its other fields; any other post is returned as it is |
| PostsContext.MapLike | src/context/PostsContext.tsx:133-138 | every post with the id gets the new like flag and count and keeps all its other fields; other posts, the order and the length are unchanged |
| PostsContext.MapLikeAgrees | src/context/PostsContext.tsx:133-138 | after the remap, every copy of the post in the view shows the new like flag and count |
| PostsContext.SetSaved | src/context/PostsContext.tsx:145-146 | a post with the id gets the new saved flag and keeps its other fields; any other post is returned as it is |
| PostsContext.MapSave | src/context/PostsContext.tsx:145-149 | every post with the id gets the new saved flag and keeps all its other fields; other posts are unchanged |
| PostsContext.MapSaveAgrees | src/context/PostsContext.tsx:145-149 | after the remap, every copy of the post in the view shows the new saved flag |
| PostsContext.Without | src/context/PostsContext.tsx:165-169 | no post with the id remains, and every other post keeps its number of occurrences |
| PostsContext.WithoutConcat | src/context/PostsContext.tsx:166 | filtering distributes over concatenation, so the remaining posts keep their relative order |
| PostsContext.WithoutAbsent | src/context/PostsContext.tsx:159 | a view without the id is left exactly as it was |
| PostsContext.WithoutIdempotent | src/context/PostsContext.tsx:165-169 | removing a post twice equals removing it once |
| PostsContext.SavedAfterSave | src/context/PostsContext.tsx:151-160 | saving with a post prepends it marked saved unless its id is already there; saving without a post changes nothing; unsaving removes every entry with the id |
| PostsContext.SavedAfterSaveIdempotent | src/context/PostsContext.tsx:151-156 | saving the same post twice inserts it once, when the post carries the saved id |
| PostsContext.SkipsFetch | src/context/PostsContext.tsx:57-61 | a forced load, a store never fetched (or stamped 0, which is falsy), and a load a minute or more after the stamp are never skipped |
| PostsContext.SecondLoadWithinCooldownSkips | src/context/PostsContext.tsx:54-63 | after a fetch stamped at a non-zero time, an unforced load under a minute later is skipped and a forced load never is |
| PostsContext.PostsStore.constructor | src/context/PostsContext.tsx:35-39 | all three views start empty, not loading and never fetched |
| PostsContext.PostsStore.LoadAllPosts | src/context/PostsContext.tsx:51-79 | the fetch is issued exactly when the cooldown test fails; a skipped load changes nothing; a resolved fetch replaces the feed and stamps the fetch time; a throw keeps both; loading ends false; the other views are untouched |
| PostsContext.PostsStore.LoadUserPosts | src/context/PostsContext.tsx:81-94 | a resolved fetch replaces the user view; a throw keeps it; loading ends false |
| PostsContext.PostsStore.LoadSavedPosts | src/context/PostsContext.tsx:96-107 | a resolved fetch replaces the saved view; a throw empties it; loading ends false |
| PostsContext.PostsStore.OnAuthChange | src/context/PostsContext.tsx:108-124 | while auth is loading nothing changes; once it has settled, the user and saved views are cleared and the feed holds the forced fetch's posts with a fresh stamp, or stays empty with no stamp on a throw |
| PostsContext.PostsStore.AddPost | src/context/PostsContext.tsx:126-129 | the post is prepended to the feed and to the user view, with no duplicate check; the saved view is untouched |
| PostsContext.PostsStore.UpdatePostLike | src/context/PostsContext.tsx:131-141 | all three views are remapped, so every copy of the post in any view shows the same flag and count |
| PostsContext.PostsStore.UpdatePostSave | src/context/PostsContext.tsx:143-163 | the feed and user views are remapped with the saved flag; the saved view follows SavedAfterSave |
| PostsContext.PostsStore.RemovePost | src/context/PostsContext.tsx:165-169 | no view keeps a post with the id and each view is its own filter |
| PostsContext.RemovePostTwice | src/context/PostsContext.tsx:165-169 | two removals leave the store as one removal does |
| PostsContext.TwoLoadsWithinCooldown | src/context/PostsContext.tsx:51-79 | two unforced loads under a minute apart fetch once, and the feed and stamp are the first fetch's |
| PostsContext.FailedFeedQueryBlocksReload | src/context/PostsContext.tsx:66-76 | a failed feed query resolves with no posts (src/services/posts.ts:124-130), so the feed becomes empty and stamped, and an unforced reload within the minute is skipped |
| PostsContext.FailedUserQueryEmptiesView | src/context/PostsContext.tsx:83-86 | a failed user query resolves with no posts (src/services/posts.ts:152-158), so the user view becomes empty |
| LikeButton.Optimistic | src/components/LikeButton.tsx:13-17 | the flag flips; the count goes up by one when becoming liked and down by one when becoming unliked |
| LikeButton.Revert | src/components/LikeButton.tsx:24-25 | the flag becomes the opposite of the pressed state; the count goes down by one if the press liked and up by one if it unliked |
| LikeButton.RevertUndoesOptimistic | src/components/LikeButton.tsx:22-25 | the failure branch restores exactly the flag and count shown before the press |
| LikeButton.TwoPressesRestore | src/components/LikeButton.tsx:13-17 | two optimistic presses cancel out |
| LikeButton.LikeButtonState.constructor | src/components/LikeButton.tsx:5-7 | the button starts with the given flag and count and is not loading |
| LikeButton.LikeButtonState.Press | src/components/LikeButton.tsx:10-17 | a request goes out exactly when a user is signed in and none is in flight; otherwise nothing changes; if sent, the optimistic values are shown and loading is on |
| LikeButton.LikeButtonState.Settle | src/components/LikeButton.tsx:20-30 | an answer with `success` false reverts the press and tells the parent nothing; one with `success` true keeps the optimistic values and passes `liked` on; after an answer loading is off. A rejection changes nothing: loading stays on and the parent is not told |
| LikeButton.LikeButtonState.HandleLike | src/components/LikeButton.tsx:9-31 | a whole press: a failed answer shows exactly what was shown before; a successful one shows the optimistic values; a rejected request leaves the optimistic values showing with loading on |
| LikeButton.PressTwice | src/components/LikeButton.tsx:9-31 | two successful presses leave the shown flag and count as they were |
| LikeButton.ReplyOfToggle | src/components/LikeButton.tsx:20-22 | a resolved `{ liked, count }` is an answer that reads as a failure and carries `liked`; a null result or a thrown call is a rejection |
| LikeButton.SuccessfulToggleIsShownReverted | src/components/LikeButton.tsx:20-30 | a toggle the backend carries out is shown reverted: the button shows what it showed before the press, loading is off, and the parent is not told |
| LikeButton.PressAfterRejection | src/components/LikeButton.tsx:9-31 | after a rejected request the button keeps the optimistic values and loading on, and a later press sends nothing |
| LikesService.Likers | src/services/likes.ts:28-31 | the users with a row for the post are exactly those in the relation |
| LikesService.Toggled | src/services/likes.ts:18-50 | the (user, post) row is deleted if present and inserted if absent; no other row changes |
| LikesService.ToggledTwice | src/services/likes.ts:5-55 | toggling the same row twice restores the table |
| LikesService.CountAfterToggle | src/services/likes.ts:28-49 | an unlike lowers the post's count by one and a like raises it by one |
| LikesService.CountOfOtherPost | src/services/likes.ts:28-31 | a toggle on one post leaves every other post's count alone |
| LikesService.Tables.constructor | src/services/likes.ts:3 | the tables start with the given rows |
| LikesService.Tables.ToggleLike | src/services/likes.ts:5-55 | a failed write gives null and leaves the table; otherwise the row is toggled, `liked` says whether it is now present, and `count` is the post's row count afterwards, or 0 when the count query gives none |
| LikesService.Tables.GetLikeCount | src/services/likes.ts:58-71 | the number of users with a like row, or 0 on error |
| LikesService.Tables.HasUserLiked | src/services/likes.ts:74-89 | true exactly when the query succeeds and the user's row exists |
| LikesService.Tables.ToggleSave | src/services/likes.ts:126-162 | a failed write gives null and leaves the table; otherwise the row is toggled and the result says whether it is now present |
| LikesService.Tables.HasUserSaved | src/services/likes.ts:165-180 | true exactly when the query succeeds and the user's row exists |
| LikesService.ToggleLikeTwice | src/services/likes.ts:5-55 | two successful toggles give opposite flags and restore the table and the count |
| LikesService.Present | src/services/likes.ts:116 | `.filter(Boolean)` keeps exactly the present joined posts, never more entries than rows |
| LikesService.PresentConcat | src/services/likes.ts:210-211 | the filter keeps the row order (it distributes over concatenation) |
| LikesService.LikedBy | src/services/likes.ts:216 | true exactly when some joined like is the viewer's |
| LikesService.Decorate | src/services/likes.ts:212-218 | like count is the number of joined likes (0 when none), liked when one is the viewer's, always saved, every other field the post's own |
| LikesService.JoinsConcat | src/services/likes.ts:116 | `.map(item => item.posts)` keeps the row order: it distributes over concatenation |
| LikesService.DecorateAllConcat | src/services/likes.ts:212-218 | decorating keeps the order of the posts: it distributes over concatenation |
| LikesService.GetUserSavedPosts | src/services/likes.ts:183-225 | empty on error or null data; every result is marked saved |
| LikesService.SavedPostsConcat | src/services/likes.ts:209-218 | the saved-posts projection of concatenated rows is the concatenation of the projections, so row order is kept |
| LikesService.SavedPostsOfRow | src/services/likes.ts:209-218 | a row with a missing post contributes nothing; a row with a post contributes that post decorated |
| LikesService.GetUserLikedPosts | src/services/likes.ts:92-121 | empty on error or null data; otherwise a post is in the result exactly when some row carries it |
| PostService.FileName | src/services/posts.ts:26-27 | the name is the user id, a slash, the timestamp's decimal digits and ".jpg" |
| PostService.FileNameInjective | src/services/posts.ts:27 | uploads by one user at different times get different file names |
| PostService.FindFrom | src/services/posts.ts:166 | the first occurrence of "/post-images/" at or after a position, or none |
| PostService.SecondPiece | src/services/posts.ts:166 | `split("/post-images/")[1]` is undefined exactly when the separator does not occur; otherwise it is the text that starts after the first occurrence, holds no occurrence, and ends at the next occurrence or at the end |
| PostService.FindFromFirst | src/services/posts.ts:166 | an occurrence with none before it is the one the search finds |
| PostService.SecondPieceUnique | src/services/posts.ts:166 | conversely, text that meets that description is what the split gives |
| PostService.StoragePath | src/services/posts.ts:165-170 | a path is found exactly when the URL is present and non-empty and its second split piece is non-empty, and then it is that piece; a URL without the separator gives none |
| PostService.StoragePathAfterSegment | src/services/posts.ts:166-168 | "a/post-images/x" gives the path "x" |
| PostService.StoragePathOfBareSegment | src/services/posts.ts:166-168 | "a/post-images/" gives an empty piece, so nothing is removed |
| PostService.StoragePathOfPublicUrl | src/services/posts.ts:166 | the path split out of a public URL is the stored path, when the path holds no separator and the root does not run into it |
| PostService.FileNameSeparatorFree | src/services/posts.ts:26-27 | a file name `${userId}/${time}.jpg` for a slash-free user id is non-empty and holds no separator |
| PostService.UploadImage | src/services/posts.ts:9-56 | null exactly when the upload pipeline fails |
| PostService.UploadedImageIsRemovedOnDelete | src/services/posts.ts:27 | deleting a post whose image came from the upload removes exactly the file the upload stored |
| PostService.CreatePost | src/services/posts.ts:59-104 | a given image whose upload fails aborts before the insert; without an image the row's URL is null; with one it is the uploaded URL; the result is the inserted post or null |
| PostService.DeletePost | src/services/posts.ts:162-182 | the result is whether the row delete succeeded; a present URL with a non-empty second split piece removes exactly that piece; no image or no separator means no storage removal; a removed path is never empty |
| PostService.FetchPosts | src/services/posts.ts:107-159 | the rows on success; empty on error or null data |
| PostService.BinaryBytes | src/services/posts.ts:186-193 | one byte per character, each the character's code modulo 256 |
| PostService.BinaryBytesAreCharCodes | src/services/posts.ts:187-190 | on `atob` output (codes below 256), each byte is the character's code |
| PostService.Decode | src/services/posts.ts:186-193 | the loop fills a fresh buffer of the string's length with exactly BinaryBytes |
| PostCard.FloorDiv | src/components/PostCard.tsx:20-22 | `Math.floor(a / b)` brackets `a` between consecutive multiples of `b` |
| PostCard.AgeOf | src/components/PostCard.tsx:20-29 | the number shown is between 1 and 59 for minutes, between 1 and 23 for hours, and between 1 and 6 for days |
| PostCard.AgeThresholds | src/components/PostCard.tsx:19-29 | the buckets in milliseconds: under a minute, then minutes up to an hour, hours up to a day, days up to a week, then the date; each number shown is the difference floored to its unit |
| PostCard.FormatDate | src/components/PostCard.tsx:16-30 | "Just now" under a minute, including future times; the locale date from a week on |
| PostCard.FormatDateReadsBack | src/components/PostCard.tsx:25-27 | under an hour the text is minutes, under a day hours, under a week days; in each case the number is the difference floored to that unit |
| PostCard.AvatarInitial | src/components/PostCard.tsx:39 | under the ASCII case mapping: one character, never a lower-case ASCII letter: the username's first letter upper-cased, or "U" |
| PostCard.Handle | src/components/PostCard.tsx:44 | "@" followed by the username, or "@user" when there is none |
| SignUp.MatchesUsernamePattern | src/screens/Auth/SignUpScreen.tsx:46 | `/^[a-zA-Z0-9_]+$/`, matched character by character, accepts exactly the non-empty strings of letters, digits and underscores |
| SignUp.HandleSignUp | src/screens/Auth/SignUpScreen.tsx:34-61 | `signUp` is called with the form's fields exactly when all fields are filled, the username has at least 3 characters of `[a-zA-Z0-9_]`, the passwords match and the password has at least 8 characters |
| SignUp.FirstFailure | src/screens/Auth/SignUpScreen.tsx:36-58 | none exactly when every check passes; otherwise the message of a failing check with every earlier check passing |
| SignUp.HandleSignUpIsFirstFailure | src/screens/Auth/SignUpScreen.tsx:34-61 | the alert is the message of the first failing check in source order, and `signUp` runs exactly when none fails |
| SignUp.MismatchReportedBeforeLength | src/screens/Auth/SignUpScreen.tsx:50-58 | a short password that also differs from its confirmation reports the mismatch |
| SignUp.OnUsernameChange | src/screens/Auth/SignUpScreen.tsx:83 | under the ASCII case mapping: the stored username has the input's length, no ASCII capital, and every non-capital kept |
| SignUp.OnUsernameChangeIdempotent | src/screens/Auth/SignUpScreen.tsx:83 | re-entering the stored value changes nothing |
| SignUp.LowercasingKeepsPattern | src/screens/Auth/SignUpScreen.tsx:46 | under the ASCII case mapping: lower-casing does not change whether a username passes the character pattern |
| CreatePostScreen.NothingToPost | src/screens/Post/CreatePostScreen.tsx:67 | there is nothing to post exactly when the text is all whitespace and there is no image |
| CreatePostScreen.PostDisabled | src/screens/Post/CreatePostScreen.tsx:124 | disabled exactly when loading, or when the text is all whitespace and there is no image |
| CreatePostScreen.EnabledButtonPassesContentCheck | src/screens/Post/CreatePostScreen.tsx:67 | a press on the enabled button gets past the empty-post check |
| CreatePostScreen.Composer.constructor | src/screens/Post/CreatePostScreen.tsx:25-27 | the composer starts empty, with no image, not loading |
| CreatePostScreen.Composer.HandleCreatePost | src/screens/Post/CreatePostScreen.tsx:66-102 | an empty post is refused first, then a signed-out user, both changing nothing; otherwise `createPost` gets the trimmed text and the image; a created post clears the form; a null result or a throw keeps it with its own toast; loading ends false |
| CreatePostScreen.Composer.RemoveImage | src/screens/Post/CreatePostScreen.tsx:62-64 | the image is cleared and the text is kept |
| CreatePostScreen.Composer.PickImage | src/screens/Post/CreatePostScreen.tsx:31-60 | only a granted, non-cancelled pick with an asset replaces the image, using its first asset. A refusal shows "Please allow access". A thrown permission request or picker shows "Failed to pick image" |
| ThemeContext.IsDark | src/context/ThemeContext.tsx:21-22 | under "auto" dark exactly when the system is dark; otherwise dark exactly when the theme is "dark" |
| ThemeContext.ThemeColors | src/context/ThemeContext.tsx:24 | the dark colours exactly when the resolved theme is dark |
| ThemeContext.UnknownStoredThemeIsLight | src/context/ThemeContext.tsx:33-34 | a stored value that is not a theme name resolves to the light colours whatever the system says |
| ThemeContext.ThemeStore.constructor | src/context/ThemeContext.tsx:19 | the theme starts as "auto" |
| ThemeContext.ThemeStore.LoadTheme | src/context/ThemeContext.tsx:30-39 | a non-empty stored string replaces the theme unchecked; an empty or missing value or a failed read keeps it |
| ThemeContext.ThemeStore.SetTheme | src/context/ThemeContext.tsx:41-48 | the theme changes only when the storage write succeeds |
| ThemeSwitcher.RequestedTheme | src/components/ThemeSwitcher.tsx:9 | the requested theme is never "auto" and is dark exactly when the current one is not, under any system scheme |
| ThemeSwitcher.IconFor | src/components/ThemeSwitcher.tsx:10-14 | a sun exactly when dark |
| ThemeSwitcher.Press | src/components/ThemeSwitcher.tsx:9 | a persisted press flips the resolved theme, even from "auto", and leaves a concrete theme; a failed write changes nothing |

## Left out

- The backend (database queries, storage uploads and removals) is not modelled. Its outcomes are parameters: a thrown or resolved `Outcome`, a `Query` with rows or an error, or a boolean "fails".
- Device storage for the theme, the photo-library permission prompt and the image picker are also parameters.
- Clock readings (`Date.now()`, `new Date()`) are integer parameters. `formatDate` takes the millisecond difference directly. `toLocaleDateString` is an opaque string.
- Image compression and its float quality settings are not modelled, nor is reading a file as base64. `atob` is not modelled either: the byte-copy loop takes its output as input.
- Toasts, alerts, navigation, rendering and styles are not modelled. The toast shown is returned as a `Notice` value.
- React scheduling is not modelled: effects, the `lastFetchedAt` ref that trails the state by one render, and interleaved async handlers. Each handler runs to completion in one call. The auth effect is one step whose forced load sees the cleared stamp.
- `LikeButton.LikeButtonState.Settle`: the backend's reply is abstract: an answer (success, liked) or a rejection. `ReplyOfToggle` says which reply the service's result would give, but the service call itself is not modelled, and neither is the undefined import that makes every call throw.
- `LikesService.Tables.ToggleLike` and `LikesService.Tables.ToggleSave`: the first lookup's error is ignored in the source, so a failed lookup is treated as "no row". The model does not separate that case from a real absence: the lookup reads the relation directly.
- Duplicate (user, post) rows cannot be represented, because a table is a set of pairs. Row ids and `created_at` ordering of the joined queries are not modelled: rows come in the order given.
- `LikesService.GetUserSavedPosts`: its own contract states only the error case and the saved flag. The full contents are pinned down by `SavedPostsConcat` and `SavedPostsOfRow`.
- `Common.ToLower` and `Common.UpperChar` map ASCII letters only. The model does not capture Unicode case mapping or the length changes it can cause.
- `SignUp.OnUsernameChange`: holds only under the ASCII case mapping. JavaScript's `toLowerCase` turns "İ" into two characters and "Ä" into "ä", so the length and the kept non-capitals are not promised for such input.
- `SignUp.LowercasingKeepsPattern`: holds only under the ASCII case mapping. JavaScript lower-cases the Kelvin sign (U+212A), which fails the pattern, to "k", which passes it.
- `PostCard.AvatarInitial`: holds only under the ASCII case mapping and for characters in the BMP. JavaScript upper-cases "ß" to "SS", and `charAt(0)` takes one UTF-16 code unit, which can be half of a character.
- String lengths are counted in Unicode scalar values, not UTF-16 code units. This matters for the `username.length` and `password.length` checks and for `charAt(0)` with characters outside the BMP.
- `PostService.DeletePost` does not carry the post id that the row delete uses. The row delete is represented only by its failure flag.
- `PostService.UploadImage` does not model the image content. The stored file is identified only by its name.
- `PostsContext.PostsStore.LoadAllPosts` does not pass on the current user id, which `fetchPosts` ignores.
- The login screen and the auth provider are not part of this model. A signed-in user is an optional user id.
