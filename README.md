# Telegram video bot: a Dafny model of its core

This project models the core of a Telegram bot that hands out videos by
category. A video whose `_id` is an ObjectId is served at most once to
each user. Users can switch categories. Admins maintain the list of categories. The bot also
builds 24-hour token links. All of this is modelled in Dafny.

- **Store.** The MongoDB store is the class `Store.Database`. It has three
  collections, each a sequence of documents in natural order: `users`,
  `categories` and `videos`.
- **Store operations.** The model follows MongoDB's semantics:
  - `insert_one` appends;
  - `find_one` returns the first match;
  - `update_one` changes the first match only;
  - `$addToSet` appends only a value that is not already there;
  - `delete_one` removes the first match.

  Each write is a method on the `Database`. Its postcondition gives the new
  collections as functions of the old ones. The lemmas are stated over
  those functions.
- **Handlers.** The handlers in `handlers/user.py` and `handlers/admin.py`
  that write to the store are methods on the `Database`. Each returns the
  reply it sends as a value, and its new store is proved equal to a pure
  step function. `ShowCategoriesCallback` only reads the store; its
  postcondition states the reply directly. `admin_callback` never touches
  the store, so it is the function `AdminHandlers.AdminCallback`.
- **Run lemma.** `Session` runs sequences of updates through those step
  functions. It proves that a user's history only grows, so a video whose
  `_id` is an ObjectId is never served twice to the same user.
- **Text layers.** The token path is built from explicit models of the
  Python built-ins it uses:
  - UTF-8 `str.encode` / `bytes.decode`;
  - base64url with `=` padding, from section 5 of RFC 4648;
  - CPython's non-strict `binascii` decoder;
  - `str.strip`, `str.split`, `str.join`, `str.replace`, `int()` and
    `str()` of an integer.

  The round trip `b64_to_str(str_to_b64(s)) == s` is proved for every
  string of Unicode scalar values (see "Left out" for lone surrogates).

Modules, one file each:

| module | source |
|---|---|
| `Wrappers` | `Option` / `Result` |
| `PyText`, `Utf8`, `Base64` | the Python built-ins the code calls |
| `Helper` | `helper.py` |
| `UrlShortener` | `services/url_shortener.py` |
| `Config` | `config.py` |
| `Records`, `Store` | the documents and the database |
| `Models` | `db/models.py` |
| `DbUtils` | `db/utils.py` |
| `VideoService` | `services/video_service.py` |
| `Keyboards` | `keyboards/inline.py` |
| `Decorators` | `utils/decorators.py` |
| `AdminHandlers` | `handlers/admin.py` |
| `UserHandlers` | `handlers/user.py` |
| `Session` | runs of the handlers |

Other inputs:

- The clock (`time.time`, `datetime.utcnow`) is a parameter `now`.
- The HTTP request of the shortener is a parameter `HttpOutcome`.
- The environment is a parameter `Env`.
- `random.choice` is an arbitrary element of the candidate list, chosen with `:|`.

## Model

| member | source | states |
|---|---|---|
| Helper.StrToB64 | helper.py:6-8 | the encoding has length 4·⌈n/3⌉ for n UTF-8 bytes; it uses only the URL-safe alphabet and `=`, and never `+` or `/`; `=` fills exactly the last (3 - n mod 3) mod 3 positions, so it appears iff n is not a multiple of 3; the empty string encodes to the empty string and only it does |
| Helper.B64ToStr | helper.py:10-12 | a base64 error is returned as `binascii.Error` with its reason; bytes that are not UTF-8 give `UnicodeDecodeError`; decoding succeeds iff both layers accept, and then the string's UTF-8 bytes are exactly the bytes the base64 layer produced |
| Helper.RoundTrip | helper.py:6-12 | `b64_to_str(str_to_b64(s)) == s` for every string |
| Helper.StrToB64Injective | helper.py:6-8 | distinct strings have distinct encodings |
| Base64.Encode | helper.py:8 | `urlsafe_b64encode`: length 4·⌈n/3⌉; every character is URL-safe or `=`; `=` occurs exactly at the last PadLength(n) positions |
| Base64.EncodePadding | helper.py:8 | padding is at most two characters; the encoding contains no `+` and no `/`; it contains `=` iff n is not a multiple of 3 |
| Base64.SeparatedPadsIncomplete | helper.py:12 | `=` characters separated by data do not add up: `QU=ExQQ=` is rejected with incorrect padding |
| Base64.DecodeEncode | helper.py:8-12 | the non-strict `urlsafe_b64decode` of the ASCII bytes of an encoding gives back the original bytes |
| Utf8.DecodeEncode | helper.py:8-12 | `s.encode().decode() == s` for every string |
| Utf8.EncodeDecode | helper.py:12 | the strict decoder accepts only encoder output: a successful decode re-encodes to exactly its input bytes |
| UrlShortener.SearchKeys | services/url_shortener.py:18-26 | the key search returns the long link, the stripped response text, or a value of the parsed JSON object |
| UrlShortener.ShortenUrl | services/url_shortener.py:7-30 | a raised request and a non-200 status both give the long link unchanged; a 200 body that is not JSON gives the stripped text; any result is the long link, the stripped text or a value of the JSON object |
| UrlShortener.ObjectResponse | services/url_shortener.py:18-27 | for a JSON object, the result is the value of the first key present in the order shortenedUrl, short_url, shortened, url; with none present it is the long link |
| UrlShortener.NonObjectResponse | services/url_shortener.py:18-27 | for a parsed array, string or scalar, the result is the stripped text or the long link; for a scalar it is always the stripped text |
| UrlShortener.TokenPayload | services/url_shortener.py:37 | the payload is str(user_id), then one ':', then str(expiry), occupying exactly those positions |
| UrlShortener.GenerateTokenUrl | services/url_shortener.py:32-40 | the expiry is now + 86400; the link is the shortening of `https://telegram.dog/<bot>?start=token_<token>`; when the request raises or the status is not 200, the link is that long link itself |
| UrlShortener.TokenDecodes | services/url_shortener.py:36-37 | decoding the token yields exactly `"{user_id}:{expiry}"` |
| UrlShortener.TokenPayloadInjective | services/url_shortener.py:37 | the payload text determines both the user id and the expiry |
| UrlShortener.TokenIdentifiesGrant | services/url_shortener.py:37 | two grants with the same token have the same user and the same expiry |
| UrlShortener.FallbackLinkCarriesToken | services/url_shortener.py:36-40 | when shortening falls back, the link starts with the deep-link prefix, and the text after it decodes to the user id and the new expiry |
| Config.LoadConfig | config.py:8-19 | the failures come in source order: a bad ADMIN_IDS piece gives its error; with good ids, a VIDEO_LIMIT_PER_DAY int() rejects gives `BadVideoLimit` of that text; with both good, a missing or empty token or URI gives `MissingCredentials`. Loading succeeds iff all three pass. On success the settings hold the token, the URI, the parsed ids, DEFAULT_CATEGORY (default "general") and the parsed limit |
| Config.ParseIdListSucceeds | config.py:12 | the ADMIN_IDS comprehension succeeds iff every comma-separated piece is blank or an int() literal |
| Config.ParseIdListFirstRejected | config.py:12 | the ValueError names the first piece that is neither blank nor an integer |
| Config.AdminIdsRoundTrip | config.py:12 | ids written comma-separated parse back to the same list, with order and duplicates preserved, for ids of at most 4300 digits (those `str()` can print) |
| Config.BlankPieces | config.py:12 | blank pieces (empty, or whitespace only) contribute no id |
| Config.UnsetAdminIds | config.py:12 | an unset or empty ADMIN_IDS gives no admins |
| Config.Defaults | config.py:15-16 | with neither variable set, the default category is "general" and the limit is 20 |
| Config.MissingTokenFails | config.py:18-19 | an unset or empty token variable makes loading fail |
| PyText.Strip | services/url_shortener.py:26 | `str.strip()`: the result is the slice between the leading and the trailing whitespace, and it neither starts nor ends with whitespace |
| PyText.JoinSplit | config.py:12 | joining the pieces of `split(",")` gives the string back |
| PyText.SplitJoin | config.py:12 | splitting a join of comma-free pieces gives the pieces back |
| PyText.IntToStringParses | config.py:12 | `int(str(n)) == n` for every n of at most 4300 digits, the ones `str()` prints without raising |
| PyText.IntToStringOverLimit | config.py:12 | past 4300 digits the decimal form no longer parses: int() rejects it |
| PyText.TooManyDigitsRejected | config.py:16 | int() rejects a run of more than 4300 digits, so an over-long ADMIN_IDS piece or VIDEO_LIMIT_PER_DAY fails to load |
| PyText.ParseIntNotBlank | config.py:12 | every piece int() accepts also passes the `if uid.strip()` filter, so no parsed id is dropped as blank |
| PyText.SeparatorRejected | config.py:16 | int() rejects a string holding any of the separators 0x1C to 0x1F, even at either end where `str.strip()` would remove it |
| PyText.RemoveAllAbsent | handlers/user.py:67 | `replace(p, "")` leaves a string without an occurrence of p unchanged |
| PyText.RemoveAllPresent | handlers/user.py:67 | `replace(p, "")` shortens a string that contains p |
| Records.ParseObjectId | db/models.py:58 | ObjectId(text) succeeds iff the text is 24 hexadecimal digits in either case; the id's text is their lower-case form |
| Records.ParseObjectIdText | services/video_service.py:38 | `ObjectId(str(oid)) == oid` |
| Models.UserIndex | db/models.py:11-12 | the position find_one selects is the first document with that user_id; there is none iff no document has it |
| Models.GetUser | db/models.py:11-12 | get_user returns a document of the collection with that user_id, and returns one iff such a document exists |
| Models.CreateUser | db/models.py:14-24 | appends exactly one document (is_premium as given, empty history, no category, 0 tokens, daily 0, last_reset now) and returns it; the other collections are unchanged |
| Models.AddToSet | db/models.py:30 | `$addToSet`: the old array is a prefix of the result, the members are the old ones plus the value, nothing changes when the value is present, and an array without duplicates stays without them |
| Models.AddToSetIdempotent | db/models.py:30 | adding the same value twice equals adding it once |
| Models.Apply | db/models.py:26-36 | each update document changes only the fields it names: `$set` of the category, `$addToSet` to the history, or `$set` of both limit fields; user_id, is_premium and tokens never change |
| Models.UpdateOne | db/models.py:26-36 | update_one changes only the first document with that user_id; with no match the collection is unchanged |
| Models.UpdateOneLookup | db/models.py:26-36 | after an update the updated user reads back as the old document with the update applied, and every other user reads back unchanged |
| Models.AddToHistoryIdempotent | db/models.py:29-30 | add_video_to_history applied twice equals applying it once |
| Models.UpdateUserCategory | db/models.py:26-27 | the users collection becomes the `$set` of selected_category on the first match; categories and videos are unchanged |
| Models.AddVideoToHistory | db/models.py:29-30 | the users collection becomes the `$addToSet` of the id on the first match; categories and videos are unchanged |
| Models.ResetDailyLimits | db/models.py:32-36 | limits become (0, now) on the first match only; categories and videos are unchanged |
| Models.CategoryIndex | db/models.py:42-43 | the position find_one selects is the first category with that name; there is none iff no category has it |
| Models.GetCategory | db/models.py:42-43 | get_category returns a category with that name, or None iff there is no such category |
| Models.WithoutCategory | db/models.py:48-49 | delete_one removes only the first category with that name and keeps the order of the rest; with no match nothing changes |
| Models.AddCategory | db/models.py:45-46 | appends `{name, channel_id}` without checking the name |
| Models.RemoveCategory | db/models.py:48-49 | the categories collection becomes the one without the first match |
| Models.RemoveUniqueName | db/models.py:48-49 | with unique names, removing a name removes exactly the category of that name, keeps the names unique, and leaves the name absent |
| Models.ParseHistory | db/models.py:58 | the list comprehension of ObjectIds succeeds iff every history entry is an ObjectId's text; it keeps their order; otherwise it raises on an entry that is not one |
| Models.FirstUnseen | db/models.py:56-59 | find_one returns the first video of the category whose `_id` is not among the seen ObjectIds, or None iff there is no such video |
| Models.AvoidsParsed | db/models.py:56-59 | `$nin` over the parsed history excludes a video iff its `_id` is an ObjectId that some history entry denotes |
| Models.GetUnseenVideo | db/models.py:52-60 | raises without a user document or on an invalid history entry, and returns otherwise; a returned video is of the category and not in the history; None means every video of the category is in the history |
| Models.IsAdmin | db/models.py:70-71 | is_admin holds iff the id occurs in the admin list; is_user_admin (db/utils.py, lines 40-44) and the handlers' is_admin over ADMIN_IDS (handlers/admin.py, lines 9-10) are the same test |
| Models.AddVideo | db/models.py:62-67 | insert_one with an explicit `_id`: appends the video iff no video has that `_id`, and otherwise fails with a duplicate-key error and leaves the collection unchanged |
| DbUtils.GetOrCreate | db/utils.py:17-32 | an existing user is returned with the collection unchanged; a missing one is appended with the defaults (not premium, empty history, no category, 0 tokens, limits daily 0, last_reset None); afterwards the user is found as the returned document, and every other user is found as before |
| DbUtils.AppendLookup | db/utils.py:31 | inserting a document leaves every earlier match first, and the new document is found by its id when it was absent |
| DbUtils.GetOrCreateIdempotent | db/utils.py:17-32 | a second get_or_create_user inserts nothing and returns the same document |
| DbUtils.GetOrCreateUser | db/utils.py:17-32 | the method's returned document and new users collection are those of GetOrCreate; categories and videos are unchanged |
| DbUtils.GetCategoryList | db/utils.py:34-38 | same length and order as the collection; each entry carries the name and the channel id |
| DbUtils.ResetUserLimits | db/utils.py:46-54 | the same update as reset_daily_limits: limits (0, now) on the first match only |
| VideoService.ValidObjectIds | services/video_service.py:14-21 | the loop keeps exactly the ObjectIds of the entries that parse; the others are skipped without failing |
| VideoService.UnseenVideos | services/video_service.py:23-26 | the candidate list holds exactly the videos of the category whose `_id` is not a seen ObjectId |
| VideoService.AvoidsValid | services/video_service.py:16-26 | a video avoids the skipped-invalid ObjectId list iff no history entry denotes its `_id` |
| VideoService.FetchRandomVideo | services/video_service.py:5-31 | returns None without a user document; a returned video is in the category and no history entry names it; None with a user means every video of the category is named by the history |
| VideoService.MarkVideoAsSeen | services/video_service.py:33-42 | `$addToSet` of str(video_id) on the first match; nothing else changes |
| VideoService.SliceFrom | services/video_service.py:55 | Python's `xs[start:]` is a suffix of xs |
| VideoService.GetVideoHistory | services/video_service.py:44-55 | [] without a user document; otherwise a suffix of the history. For limit > 0 it has min(limit, len) entries, for limit == 0 it is the whole history, and for limit < 0 it drops the first -limit entries |
| Keyboards.VideoNavigationKeyboard | keyboards/inline.py:5-18 | two rows, `[prev_, next_]` and `[show_categories]` |
| Keyboards.CategoryKeyboard | keyboards/inline.py:20-29 | one single-button row per category, in order; each button has the name as its label and `"category_" + name` as its data |
| Keyboards.CategoryButtonsRouted | keyboards/inline.py:26 | every button's data starts with "category_", so it matches the category route |
| Keyboards.CategoryDataRoundTrip | handlers/user.py:67 | removing every "category_" from a button's data gives the name back iff the name does not contain "category_" |
| Decorators.AdminOnly | utils/decorators.py:6-20 | the handler runs iff the user is in ADMIN_IDS, and its result is passed through unchanged; a denied update gets the reply text on a message, the alert on a callback query, or nothing |
| Decorators.PremiumRequired | utils/decorators.py:22-39 | the handler runs iff the user has a document marked premium; denial notices are as for the admin gate, with the premium texts; the store is not written |
| Decorators.PremiumDeniesUnknown | utils/decorators.py:31-37 | a user without a document, or without a premium document, is turned away |
| AdminHandlers.AddCategoryStep | handlers/admin.py:13-33 | the guards are checked in order: a non-admin is refused before the arguments are checked, then fewer than two arguments give the usage text. The categories change iff an admin passes at least two arguments and the name is new, and then exactly `{name, channel_id}` is appended; an existing name replies "already exists" |
| AdminHandlers.AddCategoryCommand | handlers/admin.py:13-33 | the reply and the new categories are those of AddCategoryStep; users and videos are unchanged |
| AdminHandlers.RemoveCategoryStep | handlers/admin.py:36-55 | a non-admin is refused first and a missing argument gives the usage text. The categories change iff an admin names an existing category, and then exactly one document is removed; an absent name replies "does not exist" |
| AdminHandlers.RemoveCategoryCommand | handlers/admin.py:36-55 | the reply and the new categories are those of RemoveCategoryStep; users and videos are unchanged |
| AdminHandlers.AdminCallback | handlers/admin.py:58-66 | the answer is an alert iff the caller is not an admin, with the text "You are not authorized." for a non-admin and "Admin action performed." for an admin; it cannot touch the store |
| AdminHandlers.AddKeepsNamesUnique | handlers/admin.py:28-32 | /addcategory keeps category names unique |
| AdminHandlers.RemoveKeepsNamesUnique | handlers/admin.py:50-54 | /removecategory keeps names unique, and after a removal the name is gone |
| AdminHandlers.AddedIsFound | handlers/admin.py:32-33 | after a successful /addcategory, get_category finds the name with its channel id |
| AdminHandlers.AddRemoveScenario | handlers/admin.py:13-55 | an admin adding "movies" twice and then removing it twice gets added, already exists, removed, does not exist, and the categories end as they began |
| UserHandlers.EffectiveCategory | handlers/user.py:28 | a selected category that is None or "" falls back to "general"; any other value is used as is |
| UserHandlers.ServeStepFacts | handlers/user.py:24-41 | a served video is of the effective category and not in the history. Its id string is added to the user's history with set semantics, and other users are untouched. When nothing is served, only get-or-create may have written |
| UserHandlers.NotServedTwiceInARow | handlers/user.py:24-59 | a video with an ObjectId `_id` just served is not served again by the next /getvideo or Next/Previous tap |
| UserHandlers.GetVideoCommand | handlers/user.py:24-41 | the users collection and the reply follow the serve step: a video message with caption "Category: <category>", the "No more unseen videos … Try another category." text, or the exception |
| UserHandlers.NavigationCallback | handlers/user.py:44-59 | the same serve step as /getvideo for both "prev_" and "next_"; the reply edits the media or the caption |
| UserHandlers.CategoryCallback | handlers/user.py:62-69 | stores the data with every "category_" removed as the selected category of the first matching user (nothing for a missing user), and replies with the switch text |
| UserHandlers.SelectingAButton | handlers/user.py:62-68 | tapping the button of a category whose name has no "category_" selects exactly that category for the user |
| UserHandlers.ShowCategoriesCallback | handlers/user.py:86-98 | the reply is "Select a category:" with one button per category in order, with data "category_" + name |
| UserHandlers.StartCommand | handlers/user.py:12-21 | creates the user when missing and otherwise changes nothing; the reply is the welcome text with the single "getvideo" button |
| Session.StepKeepsHistory | handlers/user.py:41 | no handler removes a history entry or a user document, and none changes the videos |
| Session.RunKeepsHistory | db/models.py:29-30 | over any sequence of updates, every history entry of every user remains |
| Session.ServedIsRecorded | handlers/user.py:41 | once a video is served, its id is in that user's history |
| Session.NotServedFromHistory | db/models.py:56-59 | a video with an ObjectId `_id` named by the user's history is not served to that user |
| Session.NeverServedTwice | handlers/user.py:29-41 | a video with an ObjectId `_id` is never served twice to the same user, whatever updates come between |

## Left out

- I/O is not modelled:
  - The Telegram calls (`reply_text`, `reply_video`, `edit_message_*`, `query.answer`) appear only as the reply values the handlers return.
  - The handlers are asynchronous and take no locks. The model runs updates one at a time, so races between taps are not captured.
- `requests.get`, its timeout and the printed error are not modelled. The request's outcome is a parameter, and the parsed JSON is abstracted:
  - an object has string values only;
  - an array has string elements only;
  - any other value is a scalar.
- The clock (`time.time`, `datetime.utcnow`) is the parameter `now`. The truncation of a float time to int is not modelled.
- `random.choice` is `:|`, an arbitrary element of the candidate list. No distribution is claimed.
- `os.getenv` and `load_dotenv` are a map `Env`. The variable name that config.py:8 passes for the bot token is a parameter `tokenVar`; its literal is not reproduced. `URL_SHORTENER_API` (config.py:23) and its `.format` call (services/url_shortener.py:11) are not modelled, because the request they build is replaced by its outcome.
- `init_db`, `get_db`, bot.py (routing, polling), db/init.py and handlers/__init__.py are not part of this model. The prefixes bot.py routes on are reflected in `Keyboards.CategoryButtonsRouted`.
- `get_categories` (db/models.py:39-40) returns the categories collection as it is; in the model that is `db.categories`.
- `_id` fields of category and user documents are not modelled, so `get_category_list`'s projection cannot drop anything else.
- ObjectId values are kept in their canonical lower-case text form.
- A video `_id` that is not an ObjectId is `OtherId(text)`, carrying its `str()`. Values of other BSON types are not told apart.
- The `isinstance(history, list)` guard in get_video_history (services/video_service.py:53-54) is not modelled. Every document this code writes has a list there, so the guard cannot fire.
- For the same reason, a user document without `is_premium` (utils/decorators.py:32) does not arise.
- `DEFAULT_CATEGORY` is read but no handler uses it: the handlers hard-code "general" (handlers/user.py:28,50).
- user.py's own video_navigation_keyboard (handlers/user.py:72-83) ignores its argument. The stray reference at line 73 is dead code. Both handlers' keyboards are `Keyboards.VideoNavigationKeyboard`.
- PyText.ParseInt: accepts ASCII digits only. Python's int() also accepts other Unicode decimal digits; those are not modelled. The whitespace it skips is int()'s own (`PyText.IsIntSpace`): unlike `str.strip()`, it does not remove the separators 0x1C to 0x1F. The limit of 4300 digits is CPython's default (`PYTHONINTMAXSTRDIGITS` and `sys.set_int_max_str_digits` can change it; that is not modelled).
- PyText.IntToString: `str()` of an int of more than 4300 digits raises ValueError in CPython; the model still returns the digits (`PyText.WithinDigitLimit` names the printable ones). The ids and timestamps the bot prints are far shorter.
- Python strings may hold lone surrogates (U+D800 to U+DFFF), on which `str.encode()` raises `UnicodeEncodeError`. A Dafny `char` is a Unicode scalar value, so such strings cannot be represented, and that error of `str_to_b64` is not modelled.
- The base64 decoder is CPython's non-strict `binascii.a2b_base64` loop:
  - bytes outside the alphabet are skipped;
  - `-`/`+` and `_`/`/` both decode;
  - `=` ends the input once the quantum has enough padding, counting only the `=` characters since the last data character (a data character resets the count; a skipped byte does not).

  Its two error cases are modelled. Newer Python versions may differ, for instance with a strict mode; that is not modelled.
- Records.ParseObjectId: accepts exactly 24 hexadecimal digits. Any further leniency of bson's own parser, such as whitespace that `bytes.fromhex` skips, is not modelled.
- The code has no expiry check, token balance, subscription or cursor, and none is modelled. "Previous" serves another unseen video, like "Next".
