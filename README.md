# Dream journal client core, modelled in Dafny

This project models the client-side core of a dream journal web application:

- the comment cache store, with its remote-backed fetch, add, like and delete operations and the realtime change handler for the `comments` table;
- the demo authentication store, with its local roster of users and its login, registration and logout;
- the dream feed hook: the selection its initial query makes and the reducers for `dreams` change events;
- the dream analysis adapter: a default analysis, gating on configuration, normalisation of the model's reply, and fallback;
- the dream image adapter: curated images per mood, validation of the mood the model returns, fallback, and the random pick;
- the sentence formatter applied to dream text before it is saved.

## Modules

- `Outcomes` (`outcomes.dfy`): `Option`, the value a JavaScript `throw` carries (`Thrown`), the outcome of a backend call (`Remote`), and how a store operation's promise settles (`Completion`).
- `Text` (`text.dfy`): the JavaScript string behaviour the core relies on.
  - White space as `\s` and `trim` see it.
  - ASCII case mapping.
  - The `<` order on strings.
  - `parseInt` and `toString` on decimal numerals.
- `Seqs` (`seqs.dfy`): the two list transforms the stores use. One rewrites the matching elements in place (`map`); the other drops them (`filter`).
- `Rows` (`rows.dfy`): the `dreams` and `comments` rows.
- `Comments` (`comments.dfy`): the class `CommentStore`, whose fields are updated by its methods. Beside it are the pure bucket transforms those methods call, and lemmas about them.
- `Auth` (`auth.dfy`): the class `AuthStore` and the pure lookups it uses. `AuthStore.Valid` is the invariant every method keeps:
  - a session is present exactly when `isAuthenticated` holds;
  - the signed-in user is in the roster;
  - every roster id is a decimal numeral;
  - no two users share an id value or an email, ignoring case.
- `Feed` (`feed.dfy`): the class `DreamFeed`, which holds the hook's state cells. Beside it are the pure selection and change reducers.
- `Analysis` (`analysis.dfy`): `AnalyzeDream`, a method. It reassigns its result as the source does. The model call and `JSON.parse` are inputs to it.
- `Imagery` (`imagery.dfy`): `GenerateDreamImage`, a function. The model's reply and the value of `Math.random()` are inputs to it.
- `Formatting` (`formatting.dfy`): the replacement with `(^|[.!?]\s+)([a-z])`, written two ways:
  - `StartsSentence`, which says declaratively where the pattern puts a capital;
  - `Capitalize`, a left-to-right scan with four states.

  The lemmas prove the scan capitalises exactly the positions `StartsSentence` names. They also prove the whole formatter is idempotent.

Two behaviours of the code are worth stating outright:

- **Realtime INSERT** (`src/store/commentStore.ts:154-174`) prepends the re-read row with no presence check. `Comments.InsertDuplicates` proves that a row already cached is then cached at least twice.
- **Feed selection** (`src/hooks/useSupabase.ts:21-25`): with a user id the hook selects only that user's dreams, whatever their privacy; without one, only the public dreams. See `Feed.OwnDreamsWhateverPrivacy`.

The demo password rule compares ids as strings (`user.id <= '3'`, `src/store/authStore.ts:67`), and the model keeps that comparison. `Auth.PasswordRuleOnNumbers` shows what it means for generated ids: users 10 to 29, 100 to 299 and so on also need the demo password, while user 4 does not.

## Model

| member | source | states |
|---|---|---|
| Outcomes.ErrorMessage | src/store/commentStore.ts:51 | Definition: the message of `e instanceof Error ? e : new Error(fallback)`. The store method contracts state which fallback each operation records. |
| Seqs.MapWherePointwise | src/store/commentStore.ts:105-109 | The conditional `map` keeps the length; each position is rewritten where the predicate holds and kept otherwise. |
| Seqs.MapWhereNoMatch | src/store/commentStore.ts:105-109 | When no element matches, the conditional `map` returns its input unchanged. |
| Seqs.RemoveWhereCount | src/store/commentStore.ts:132 | `filter` drops every matching element and keeps every other element exactly as often as before. |
| Seqs.RemoveWhereIsSubsequence | src/store/commentStore.ts:132 | `filter` keeps the surviving elements in their original relative order. |
| Seqs.RemoveWhereNoMatch | src/store/commentStore.ts:132 | When no element matches, `filter` returns its input unchanged. |
| Text.LowerCase | src/store/authStore.ts:65 | Definition: `toLowerCase`, character by character on the ASCII letters. |
| Text.LowerCaseNormalises | src/store/authStore.ts:65 | Lower-casing keeps the length, leaves no ASCII capital, keeps every other character in place, and is idempotent. |
| Text.Trim | src/services/imageService.ts:88 | The trimmed text neither starts nor ends with white space and is no longer than the input. |
| Text.TrimSpec | src/services/imageService.ts:88 | The trimmed text is an infix of the input; everything before and after it is white space. |
| Text.LexLess | src/store/authStore.ts:67 | Definition: JavaScript's string `<` as lexicographic order on characters, a proper prefix first. |
| Text.LexLeThree | src/store/authStore.ts:67 | Under JavaScript string order, a non-empty id is at most "3" exactly when its first character is below '3' or it is "3". |
| Text.NatToDecimal | src/store/authStore.ts:104 | `toString` on a natural number yields a non-empty string of decimal digits. |
| Text.DecimalValue | src/store/authStore.ts:104 | Definition: `parseInt` on a string of decimal digits. |
| Text.DecimalRoundTrip | src/store/authStore.ts:104 | `parseInt` reads back exactly the number that `toString` wrote. |
| Text.ToUpperAscii | src/utils/textFormatting.ts:7 | `toUpperCase` turns a lower-case ASCII letter into a different, upper-case letter and leaves every other character alone. |
| Auth.InitialDemoUsers | src/store/authStore.ts:24-49 | The starting roster has three users and satisfies the roster invariant: numeral ids, distinct id values, distinct emails ignoring case. |
| Auth.EmailTaken | src/store/authStore.ts:98 | Definition: `users.some(...)` with the emails compared ignoring case. |
| Auth.FindByEmail | src/store/authStore.ts:65 | `find` fails exactly when no user has the email, ignoring case. Otherwise it returns the first user whose email matches. |
| Auth.PasswordRefused | src/store/authStore.ts:67 | Definition: the password is not "demo" and the id is at most "3" in string order. |
| Auth.Authenticate | src/store/authStore.ts:64-68 | Definition: the user `find` returns, unless there is none or the password rule refuses that user. |
| Auth.AuthenticateSpec | src/store/authStore.ts:64-69 | Login signs in a roster user with the given email whom the password rule admits. It fails exactly when no user has the email, or the password rule refuses the user who has it. |
| Auth.DemoPasswordOpensEveryAccount | src/store/authStore.ts:67 | The password "demo" admits every user in the roster. |
| Auth.AuthenticateIgnoresCase | src/store/authStore.ts:65 | Two emails that differ only in letter case give the same login decision. |
| Auth.FindByEmailIgnoresCase | src/store/authStore.ts:65 | Two emails that differ only in letter case find the same user. |
| Auth.LunaSignsIn | src/store/authStore.ts:24-32 | With the starting roster, "luna@example.com" with the demo password signs in user 1. |
| Auth.UnknownEmailRefused | src/store/authStore.ts:65-68 | With the starting roster, the unknown email "invalid@example.com" is refused whatever the password. |
| Auth.PasswordRuleOnNumbers | src/store/authStore.ts:67 | For an id written by `toString`, a password other than "demo" is refused exactly when the id starts with 1 or 2, or is "3". |
| Auth.LeadingDigitNotZero | src/store/authStore.ts:104 | A positive id written by `toString` never starts with '0'. |
| Auth.RegisteredUsersTenAndFour | src/store/authStore.ts:67 | User "10" is refused a wrong password, while user "4" is let in with one. |
| Auth.MaxId | src/store/authStore.ts:104 | `Math.max` of the parsed ids is at least every id and is attained by some user. |
| Auth.NextId | src/store/authStore.ts:104 | The new id is a numeral, larger than every existing id and different from each of them. |
| Auth.AuthStore.constructor | src/store/authStore.ts:54-58 | The store starts signed out, not loading, without error, with the demo roster, and satisfies its invariant. |
| Auth.AuthStore.Login | src/store/authStore.ts:60-89 | Login keeps the invariant and the roster. It resolves exactly when authentication succeeds, then holds that user with no error. Otherwise it rejects with "Invalid email or password", clears the session and records that message. |
| Auth.AuthStore.Register | src/store/authStore.ts:91-128 | Registration rejects with "Email already registered" exactly when the email is taken, ignoring case, and then changes nothing but the error. Otherwise it appends the new user and signs them in. The new user has the next id, the generated avatar and no bio, and the invariant is kept. |
| Auth.AuthStore.Logout | src/store/authStore.ts:130-137 | Logout ends the session, clears the error and loading flag, keeps the roster, and is idempotent. |
| Comments.LikeEverywhere | src/store/commentStore.ts:101-112 | Definition: the conditional `map` of a like applied to every cached bucket. |
| Comments.LikeEverywhereSpec | src/store/commentStore.ts:101-112 | A like keeps every cached dream, every bucket's length and every position. It adds one to the count of each comment with that id, counting a missing value as 0, and leaves every other comment unchanged. |
| Comments.LikeRaisesByOne | src/store/commentStore.ts:107 | A liked comment's count becomes its old count plus one, a missing count being 0. |
| Comments.DeleteEverywhere | src/store/commentStore.ts:128-135 | Definition: the `filter` of a delete applied to every cached bucket. |
| Comments.DeleteEverywhereSpec | src/store/commentStore.ts:128-135 | A delete keeps every cached dream. It removes every comment with that id from every bucket and keeps the others, as often as before and in their order. |
| Comments.DeleteUnknownIsNoOp | src/store/commentStore.ts:128-135 | Deleting an id that no bucket holds leaves the cache unchanged. |
| Comments.TargetBucket | src/store/commentStore.ts:150 | Definition: `payload.new?.dream_id || payload.old?.dream_id`, absent when neither is truthy. `Comments.IgnoredEvents` and `Comments.ApplyChangeFrame` state what the handler does with it. |
| Comments.Overlay | src/store/commentStore.ts:181 | Definition: `{ ...comment, ...payload.new }`; the columns present in the event replace the cached ones, and the joined profile is kept. |
| Comments.ApplyChange | src/store/commentStore.ts:148-196 | Definition: the realtime handler as one step on the cache, given the re-read row for an INSERT. |
| Comments.IgnoredEvents | src/store/commentStore.ts:150-152 | An event with no truthy dream id, or for an uncached dream, leaves the cache unchanged and creates no bucket. |
| Comments.ApplyChangeFrame | src/store/commentStore.ts:148-196 | Every event keeps the set of cached dreams and changes only its own bucket. |
| Comments.InsertPrepends | src/store/commentStore.ts:154-174 | INSERT puts the re-read row at the head of its bucket. If the re-read fails, the cache is unchanged. |
| Comments.InsertDuplicates | src/store/commentStore.ts:167-174 | INSERT of a row already cached leaves it in the bucket at least twice. |
| Comments.UpdateInPlace | src/store/commentStore.ts:175-185 | UPDATE keeps the bucket's length and the id at every position. It overlays the event's columns onto the comments with the new row's id and leaves the others unchanged. |
| Comments.UpdateUnknownIsNoOp | src/store/commentStore.ts:175-185 | UPDATE for an id the bucket does not hold leaves the cache unchanged. |
| Comments.DeleteFilters | src/store/commentStore.ts:186-194 | DELETE removes every comment with the old row's id from the bucket and keeps every other comment, as often as before and in order. |
| Comments.CommentStore.constructor | src/store/commentStore.ts:22-25 | The store starts with an empty cache, not loading and without error. |
| Comments.CommentStore.FetchComments | src/store/commentStore.ts:27-55 | On success, fetch replaces the dream's bucket with the returned rows, or with an empty list for null data. On failure, it keeps the cache and records the error. It always ends not loading, and other buckets are untouched. |
| Comments.CommentStore.AddComment | src/store/commentStore.ts:57-91 | With no truthy `user?.id` from line 58, add rejects with "Must be logged in to comment" and changes nothing. With null data, it rejects with "Failed to create comment". On failure, it rejects with the thrown value and records the error. On success, it puts the new row at the head of the bucket, creating the bucket if needed. |
| Comments.CommentStore.LikeComment | src/store/commentStore.ts:93-117 | On success, the cache becomes the like transform of the old cache. On failure, the store records the error, rejects and keeps the cache. |
| Comments.CommentStore.DeleteComment | src/store/commentStore.ts:119-140 | On success, the cache becomes the delete transform of the old cache. On failure, the store records the error, rejects and keeps the cache. |
| Comments.CommentStore.OnChange | src/store/commentStore.ts:148-196 | The realtime handler replaces the cache with the event's change applied to it and touches nothing else. |
| Feed.Selected | src/hooks/useSupabase.ts:21-25 | Definition: the query's `eq` filter on `user_id` when a user id is given, on `privacy` otherwise. |
| Feed.Select | src/hooks/useSupabase.ts:16-25 | Definition: the rows of the table that pass the filter, in the order the query returns them. |
| Feed.SelectSpec | src/hooks/useSupabase.ts:16-25 | The initial selection holds exactly the selected rows of the table, each as often as there and in the table's order. |
| Feed.OwnDreamsWhateverPrivacy | src/hooks/useSupabase.ts:21-25 | With a user id, a dream is selected exactly when that user wrote it, whatever its privacy. Without one, exactly the public dreams are selected. |
| Feed.ApplyChange | src/hooks/useSupabase.ts:45-52 | Definition: the list update the subscription applies for one INSERT, UPDATE or DELETE event. |
| Feed.InsertPrepends | src/hooks/useSupabase.ts:45-46 | INSERT puts the new row first, growing the list by one, with no duplicate check or filter. |
| Feed.UpdateReplacesInPlace | src/hooks/useSupabase.ts:47-50 | UPDATE keeps the length. It replaces each dream with the new row's id by the new row and keeps the others in place. |
| Feed.UpdateUnknownIsNoOp | src/hooks/useSupabase.ts:47-50 | UPDATE for an id not in the list changes nothing. |
| Feed.DeleteFilters | src/hooks/useSupabase.ts:51-52 | DELETE removes every dream with the old id and keeps the others, as often as before and in order. |
| Feed.DeleteUnknownIsNoOp | src/hooks/useSupabase.ts:51-52 | DELETE for an id not in the list changes nothing. |
| Feed.DreamFeed.constructor | src/hooks/useSupabase.ts:9-11 | The feed starts empty, loading and without error. |
| Feed.DreamFeed.FetchDreams | src/hooks/useSupabase.ts:14-36 | On success, the list becomes the selection of the returned rows, empty for null data. On failure, the list is kept and the error recorded. Either way loading ends. |
| Feed.DreamFeed.OnChange | src/hooks/useSupabase.ts:43-54 | Each change event replaces the list by the reducer's result and leaves the flags alone. |
| Analysis.DefaultAnalysis | src/services/geminiService.ts:11-16 | The default analysis has three symbols, three themes, and a non-empty interpretation and mood. |
| Analysis.Slice | src/services/geminiService.ts:58 | Definition: `xs.slice(0, n)`. |
| Analysis.OrElse | src/services/geminiService.ts:59-60 | Definition: `s || fallback` on a string that may be absent. |
| Analysis.AnalyzeDream | src/services/geminiService.ts:42-81 | When unconfigured, on a failed call or on an unparsable reply, the result is the default analysis. Otherwise each list is the first three entries of the supplied non-empty list, or the default list; each text is the supplied non-empty text, or the default. There are always 1 to 3 symbols and themes. |
| Imagery.DreamImages | src/services/imageService.ts:11-42 | Every mood has four curated images. |
| Imagery.MoodNamed | src/services/imageService.ts:91 | A key names a mood exactly when it is that mood's key in the image table. |
| Imagery.Normalize | src/services/imageService.ts:88 | Definition: `text.toLowerCase().trim()`. |
| Imagery.AcceptedMood | src/services/imageService.ts:88-93 | Definition: the mood named by the normalised reply, if any; none when the call failed. |
| Imagery.RandomIndex | src/services/imageService.ts:97 | `Math.floor(Math.random() * n)` is a valid index below `n`. |
| Imagery.GenerateDreamImage | src/services/imageService.ts:70-114 | The URL is always one of the chosen mood's images. Unconfigured: mystical with the demo-mode note. An accepted mood: that mood and no note. Otherwise: mystical with the fallback note. |
| Imagery.AcceptedIffKey | src/services/imageService.ts:88-93 | A reply is accepted as a mood exactly when, lower-cased and trimmed, it is that mood's key. |
| Imagery.KeyAccepted | src/services/imageService.ts:88-93 | Each mood key, returned as it is, is accepted as its mood. |
| Imagery.EveryImageReachable | src/services/imageService.ts:95-100 | Every image of a mood is picked for some random value. |
| Formatting.StartsSentence | src/utils/textFormatting.ts:6-8 | Definition: where the pattern matches, namely a lower-case ASCII letter at the start of the text or right after `[.!?]\s+`. |
| Formatting.Scan | src/utils/textFormatting.ts:6-8 | The scan's output is as long as its input. |
| Formatting.Capitalize | src/utils/textFormatting.ts:6-8 | The replacement keeps the length of the text. |
| Formatting.RunClassifies | src/utils/textFormatting.ts:6 | After a prefix, the scan's state records whether that prefix is empty, ends with `[.!?]`, ends with `[.!?]\s+`, or none of these. |
| Formatting.ScanAt | src/utils/textFormatting.ts:6-8 | Each output position is the character the scan writes for the input character in the state reached just before it. |
| Formatting.CapitalizeAt | src/utils/textFormatting.ts:6-8 | A position changes exactly when the pattern matches there, and then becomes the upper-case letter. A match needs a lower-case ASCII letter at the start of the text or after `[.!?]\s+`. |
| Formatting.KeepsNonLower | src/utils/textFormatting.ts:6-8 | Punctuation, white space, capitals and everything else that is not a lower-case ASCII letter stays in place unchanged. |
| Formatting.ScanIdempotent | src/utils/textFormatting.ts:6-8 | Applying the replacement to its own output changes nothing. |
| Formatting.ScanAppend | src/utils/textFormatting.ts:6-8 | Replacing in a text with one more character extends the output by what the scan writes for that character. |
| Formatting.FormatDreamText | src/utils/textFormatting.ts:1-16 | The formatted text always ends with `.`, `!` or `?`, and is as long as the input or one longer. |
| Formatting.FormatSpec | src/utils/textFormatting.ts:6-13 | A full stop is appended exactly when the text does not end with `.`, `!` or `?`. Every original position keeps its character unless the pattern capitalises it. The empty text becomes ".". |
| Formatting.FormatIdempotent | src/utils/textFormatting.ts:1-16 | Formatting an already formatted text changes nothing. |

## Left out

- Network, backend and model calls are inputs (`Remote`, `ModelReply`, `MoodReply`, `refetched`). This covers the query builder, the RPC that increments likes, `supabase.auth.getUser`, and the model's `generateContent`. What they send is not modelled.
- The dream feed's selection is modelled: `Feed.Select` applies the query's `eq` filter to the table's rows, which come in the order the query asks for (newest first). The comment fetch's selection is an input: `FetchComments` takes the rows the backend returned for the dream, already filtered and ordered.
- Comments.CommentStore.AddComment: `sessionUserId` is the `user?.id` destructured from the result of `supabase.auth.getUser()` at `src/store/commentStore.ts:58`, taken as an input because the client library is not part of this model. If that library resolves the call to `{ data: { user }, error }`, as its version 2 does, the destructured `user` is always undefined and every call rejects with "Must be logged in to comment"; the contract's first clause covers that case, and the success clauses describe a library whose result carries `user` at the top level.
- `JSON.parse` of the analysis reply is an input: the reply is unparsable, or parsed into optional fields. JSON values of the wrong type in those fields are not modelled. Neither is the `trim` of the reply's text before parsing.
- Environment reading (`getEnvVar`, `validateEnvVars`) and model creation are one boolean, `configured`.
- `Math.random()` is an input: a real number in [0, 1). Floating-point rounding of `random * n` is not modelled.
- Simulated network delays, `await` interleavings and races between concurrent operations are not modelled. Each store operation and each realtime event is applied atomically to the state it finds.
- The intermediate `isLoading: true` / `loading: true` writes that operations make before awaiting are not modelled as observable states. Each method states the final value of these flags.
- The `persist` middleware of the auth store (local-storage persistence and rehydration) is not modelled. Neither is the UI.
- `Comments.CommentStore`: the error is kept as its message, not as the `Error` object. Realtime UPDATE columns carrying an explicit `null` are treated as absent.
- `Comments.ApplyChange`: plain-object key lookups (`comments[dreamId]`) are modelled as map membership. So a dream id that names an inherited object property (such as "constructor") does not count as cached, as it would in JavaScript.
- `Imagery.MoodNamed`: the lookup `DREAM_IMAGES[mood]` is modelled on the five own keys only. An inherited property name returned by the model (such as "constructor") does not pass validation here.
- `Text.LowerCase` and `Text.ToUpperAscii` map only ASCII letters. Full Unicode case mapping is not modelled.
- `Text.LexLess` orders characters by code point, while JavaScript compares UTF-16 code units; the two differ only above U+FFFF, which the digit-string ids never contain.
- Dates are kept as the strings the source writes or receives. `encodeURIComponent` and the current instant are inputs to `Register`.
- Auth.AuthStore.Register: it cannot reject on the `URIError` that `encodeURIComponent` throws for a name holding a lone surrogate, because the encoded name is an input.
- Numbers are unbounded integers. JavaScript's double-precision limits on counters and ids are not modelled.
- The analysis and image prompts are not modelled: they are text sent to the model, and the model is an input.
