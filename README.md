# Antakshari song catalog — a Dafny model

This project models the core of a song-round game backend and its two list
pages. A catalog of songs, each tagged Hindi, Bengali or English with a short
code such as `H3`, is kept in a MongoDB collection. The pieces modelled here:

- **Round shuffle.** `shuffleSongs` clears every `is_selected` flag. It then draws up
  to five songs per language in an arbitrary order, flags the drawn songs and
  returns the flagged songs. The legacy router has a copy of the handler that
  does not skip empty languages.
- **Song insertion.** `addSong` checks the required fields. It rejects a name
  that already exists, ignoring case. It builds the short code from the
  language initial and the language's song count. The schema's unique index on
  `short_code` can refuse the insert.
- **Song schema.** `Song.js` gives the required paths, the language enum, the
  unique `short_code` and the `is_selected` default.
- **Rotation table.** `FIXED_ROTATION` is a constant list of four slots. The
  seeding script makes every code in it exist, creating placeholder songs only
  for codes that are missing.
- **Client list logic.**
  - The library page has a tab and search filter, a tab list and the list
    update after a delete.
  - The home page groups the shown songs by language, and on the first load it
    shuffles once if nothing is selected.
- **Auth decisions.**
  - Registration and login branch over a user collection.
  - The `protect` middleware parses the `Authorization` header. Its prefix test
    is a loose reading of the Bearer scheme of section 2.1 of RFC 6750: it does
    not require the space after `Bearer`.

How each part is modelled:

- The collection is a `seq<Song>` held by a class (`SongController.SongStore`,
  `AuthController.UserStore`). Its handlers are methods that change it in
  place, and each one's new state is stated against specification functions
  (`Selected`, `OfLanguage`, `Seeded`, ...).
- The random comparator sort followed by `slice(0, 5)` becomes an arbitrary
  index permutation chosen with `:|`, followed by the first five.
- Pages and schema checks are functions.
- Token signing and verification, password matching and user lookup are
  function parameters that the model does not interpret.

Modules, one per source file:

- `SongModel` (Song.js)
- `SongController` (song.controller.js)
- `LegacyApi` (routes/api.js)
- `RotationTable` (riggedSets.js)
- `EvilSeeder` (seed_evil_data.js)
- `LibraryPage` and `HomePage` (the two pages)
- `AuthController` and `AuthMiddleware`

Helper modules:

- `Seqs` holds `filter`, `[...new Set(..)]`, `split`, `startsWith`, `includes`
  and ASCII case mapping.
- `ShortCodes` holds the decimal rendering in `${initial}${count + 1}`.
- `Wrappers` holds `Option`.

## Model

| member | source | states |
|---|---|---|
| SongModel.ParseLanguage | backend/src/models/Song.js:24-28 | a language string is accepted exactly when it is the name of Hindi, Bengali or English, and then names that language |
| SongModel.ParseLanguageName | backend/src/models/Song.js:26 | each enum name parses back to its language |
| SongModel.Validate | backend/src/models/Song.js:3-42 | a document is built exactly when name, artist, audio url, short code are non-empty and the language is in the enum; it carries the given id, name, artist, url, code, language, album and `added_by`; `is_selected` defaults to false, `lyrics_link` to '' (corrected schema, see Findings) |
| SongModel.ValidateAsWritten | backend/src/models/Song.js:20-23 | with `lyrics_link` required as written, a document is built exactly when the corrected checks pass and the lyrics link is non-empty |
| SongModel.OptionalPaths | backend/src/models/Song.js:12-41 | `album` and `added_by` never decide whether a document is valid |
| SongModel.FreshId | backend/src/models/Song.js:3 | a new document gets an id above every stored id, so no stored song has it |
| SongModel.OfLanguageIsQuery | backend/src/controllers/song.controller.js:29 | `find({ language })` returns exactly the songs of that language, in collection order |
| SongModel.Selected | backend/src/controllers/song.controller.js:9 | `find({ is_selected: true })` returns exactly the flagged songs, in collection order |
| SongModel.CountByLanguageName | backend/src/controllers/song.controller.js:77 | `countDocuments({ language })` counts the songs of the named language, and 0 for a name outside the enum |
| SongModel.CountByLanguageNameIs | backend/src/controllers/song.controller.js:77 | counting by a language's name counts exactly that language's songs |
| SongModel.FindByShortCode | backend/seed_evil_data.js:22 | a lookup by short code finds a song exactly when some song carries that code |
| SongModel.Create | backend/src/models/Song.js:29-33 | `Song.create`: a validation error exactly when validation fails, a duplicate-key error exactly when a valid document's code is already taken, otherwise the validated document with a fresh id |
| SongModel.CreateAsWritten | backend/src/models/Song.js:20-23 | under the schema as written: a validation error whenever the lyrics link is empty or the corrected checks fail; with a lyrics link given, exactly the corrected create, duplicate-key answer included |
| SongModel.CreateKeepsCatalogValid | backend/src/models/Song.js:29-33 | a successful create keeps ids and short codes unique and every document valid |
| SongModel.LanguagePartition | backend/src/models/Song.js:24-28 | every song has exactly one of the three languages: the per-language lists add up to the catalog |
| SongModel.PresentLanguages | frontend/src/app/library/page.tsx:77 | the distinct languages of a list, without repeats, each present exactly when some song has it |
| SongModel.PresentLanguagesOrder | frontend/src/app/library/page.tsx:77 | the distinct languages come in the order of each language's first song |
| ShortCodes.ShortCode | backend/src/controllers/song.controller.js:78 | a short code is the initial followed by the decimal count, at least two characters |
| ShortCodes.ParseDecimalOfDecimal | backend/src/controllers/song.controller.js:78 | the decimal rendering of a number reads back as that number |
| ShortCodes.ParseShortCodeOfShortCode | backend/src/controllers/song.controller.js:78 | a generated code splits back into its initial and number |
| ShortCodes.ShortCodeInjective | backend/src/controllers/song.controller.js:78 | two generated codes are equal exactly when initial and number are equal |
| RotationTable.SlotCount | backend/src/config/riggedSets.js:1-26 | the table has exactly four slots |
| RotationTable.SlotShape | backend/src/config/riggedSets.js:3-25 | every slot has 15 codes, all distinct |
| RotationTable.SlotBalance | backend/src/config/riggedSets.js:3-25 | every slot has five codes each starting with H, B and E |
| RotationTable.CodesWellFormed | backend/src/config/riggedSets.js:3-25 | every code is one of H, B, E followed by a digit from 1 to 6 |
| RotationTable.SlotsCoverUniverse | backend/src/config/riggedSets.js:1-26 | the codes of all slots together are exactly the 18 codes H1..H6, B1..B6, E1..E6 |
| RotationTable.DistinctCodeCount | backend/src/config/riggedSets.js:1-26 | the flattened, de-duplicated table has 18 codes, exactly those 18 |
| SongController.ResetAll | backend/src/controllers/song.controller.js:22 | `updateMany({}, { is_selected: false })` changes only flags and leaves nothing selected |
| SongController.FlagIds | backend/src/controllers/song.controller.js:40-43 | `updateMany({ _id: { $in: ids } }, { is_selected: true })` changes only flags; a song ends flagged exactly when it was flagged or its id is listed |
| SongController.DrawUpToFive | backend/src/controllers/song.controller.js:33-34 | a draw takes min(5, n) of the found songs, only found songs, with distinct ids when the found songs have them |
| SongController.IdsOf | backend/src/controllers/song.controller.js:36 | the pushed ids are exactly the ids of the drawn songs |
| SongController.SelectionChangeKeepsCount | backend/src/controllers/song.controller.js:22-43 | changing only flags keeps each language's song count |
| SongController.SelectionChangeKeepsValid | backend/src/controllers/song.controller.js:40-43 | changing only flags keeps the collection invariant |
| SongController.FlaggedCount | backend/src/controllers/song.controller.js:40-43 | after a reset, flagging the drawn ids selects, per language, exactly as many songs as ids of that language were drawn |
| SongController.ChoiceStep | backend/src/controllers/song.controller.js:28-37 | the draw for one language settles that language and leaves the ids drawn for the others as they were |
| SongController.SettleStep | backend/src/controllers/song.controller.js:28-37 | each turn of the language loop moves the drawn set from k settled languages to k + 1 |
| SongController.ShuffleOutcome | backend/src/controllers/song.controller.js:39-46 | the flagged collection changes only flags, flags exactly the drawn ids, selects min(5, count) per language and at most 15 songs |
| SongController.Status | backend/src/controllers/song.controller.js:62-98 | 201 for an insert, 400 for missing fields or a taken short code, 409 for a taken name, 500 otherwise |
| SongController.NextShortCodeOfLanguage | backend/src/controllers/song.controller.js:77-78 | for a known language the new code is its initial (H, B, E) followed by its song count plus one, and parses back to that pair |
| SongController.NextShortCode | backend/src/controllers/song.controller.js:77-78 | the generated code parses back to the upper-cased initial of the language string and its count plus one |
| SongController.CompleteMeansAdmissible | backend/src/controllers/song.controller.js:61 | the guard `name && artist && language && url` (`Complete`) together with an enum language is exactly what validation demands of the new fields |
| SongController.NewSongFields | backend/src/controllers/song.controller.js:80-90 | the created object carries `lyrics` or '' as its lyrics link, `is_selected` false, the generated code and the requester's username |
| SongController.OmittedLyricsRejectedAsWritten | backend/src/controllers/song.controller.js:85 | as written, a request without lyrics always fails validation |
| SongController.OmittedLyricsAccepted | backend/src/controllers/song.controller.js:85 | with the corrected schema, a complete request without lyrics in a known language with a free code is created with lyrics link '' |
| SongController.SongStore.GetSelectedSongs | backend/src/controllers/song.controller.js:7-14 | returns exactly the flagged songs, in collection order |
| SongController.SongStore.Shuffle | backend/src/controllers/song.controller.js:19-52 | only flags change; a song is flagged exactly when it was drawn; per language min(5, count) are selected; at most 15; the result is the flagged songs |
| SongController.SongStore.AddSong | backend/src/controllers/song.controller.js:57-100 | 400 without name, artist, language or url; 409 on a case-insensitive name match; 500 without a user or with an unknown language; 400 on a taken code; otherwise exactly one song appended with the generated code, `is_selected` false, lyrics or '', and the requester; nothing changes on failure (corrected schema, see Findings) |
| LegacyApi.SelectedSongs | backend/src/routes/api.js:7-14 | returns exactly the flagged songs, in collection order |
| LegacyApi.LegacyShuffle | backend/src/routes/api.js:21-56 | same outcome as the controller's shuffle, with an empty draw for a language without songs |
| EvilSeeder.AllShortCodes | backend/seed_evil_data.js:14 | the code list has no repeats, 18 codes, exactly the codes of the table's slots, all well formed |
| EvilSeeder.InferLanguage | backend/seed_evil_data.js:26-28 | Hindi exactly for a code starting with H, Bengali exactly for B, English otherwise |
| EvilSeeder.InferredInitial | backend/seed_evil_data.js:26-28 | for every table code, the inferred language's initial is the code's first letter |
| EvilSeeder.DummyFields | backend/seed_evil_data.js:30-39 | a placeholder is named "Dummy Song " + code, carries the code and the inferred language, unselected |
| EvilSeeder.DummyAdmissible | backend/seed_evil_data.js:30-39 | a placeholder always passes validation, also under the schema as written |
| EvilSeeder.DummySong | backend/seed_evil_data.js:30-39 | for a missing code, the create succeeds with the placeholder and a fresh id |
| EvilSeeder.SeedStep | backend/seed_evil_data.js:22-40 | a turn adds one placeholder exactly when the code is missing, and otherwise changes nothing |
| EvilSeeder.Seeded | backend/seed_evil_data.js:20-43 | the collection after the loop visits the codes in order; existing songs are never modified: the old collection is a prefix of the new one |
| EvilSeeder.SeededOrigin | backend/seed_evil_data.js:30-39 | every new song is the unselected placeholder of a visited code, with its inferred language |
| EvilSeeder.SeededCovers | backend/seed_evil_data.js:20-43 | after the loop every visited code names a song |
| EvilSeeder.SeededKeepsOthers | backend/seed_evil_data.js:22-24 | a code not yet visited is missing after some turns exactly when it was missing before |
| EvilSeeder.SeededCount | backend/seed_evil_data.js:18-40 | the loop adds exactly one song per code missing beforehand |
| EvilSeeder.SeededValid | backend/seed_evil_data.js:30-39 | seeding keeps the collection invariant (unique ids and codes) |
| EvilSeeder.SeededWhenComplete | backend/seed_evil_data.js:22-24 | seeding a collection that has every code changes nothing |
| EvilSeeder.Idempotent | backend/seed_evil_data.js:20-45 | a second run finds no missing code and leaves the collection unchanged |
| EvilSeeder.EveryRotationCodeSeeded | backend/seed_evil_data.js:14-43 | after a run every code of every slot names a song |
| EvilSeeder.SeedTurn | backend/seed_evil_data.js:20-42 | one more loop turn, and one more creation exactly when the code is still missing |
| EvilSeeder.SeedEvilData | backend/seed_evil_data.js:14-45 | the loop leaves the seeded collection and counts exactly the codes missing beforehand |
| LibraryPage.FilterSongs | frontend/src/app/library/page.tsx:22-41 | a song is kept exactly when it is on the tab and, for a non-empty term, its lower-cased name, artist or present album contains the lower-cased term; `All` with an empty term keeps the list |
| LibraryPage.FilterSongsIsSubsequence | frontend/src/app/library/page.tsx:22-40 | the filtered list is an order-preserving subsequence of the list |
| LibraryPage.LanguageTabEmptyTerm | frontend/src/app/library/page.tsx:26-28 | a language tab with an empty term shows exactly that language's songs |
| LibraryPage.MatchesTerm | frontend/src/app/library/page.tsx:31-37 | the search condition; the empty term matches every song, as every text includes '' |
| LibraryPage.OnTab | frontend/src/app/library/page.tsx:26-28 | the `All` tab admits every song; a language tab admits exactly the songs the `{ language }` query selects |
| LibraryPage.Tabs | frontend/src/app/library/page.tsx:78 | the tab list starts with `All` |
| LibraryPage.TabsDistinct | frontend/src/app/library/page.tsx:77-78 | the tab list has no repeats and offers a language exactly when some song has it |
| LibraryPage.TabsOrder | frontend/src/app/library/page.tsx:77-78 | language tabs follow the order of first appearance |
| LibraryPage.AfterDelete | frontend/src/app/library/page.tsx:60-68 | on success exactly the songs with another id remain; on failure the list is unchanged |
| LibraryPage.AfterDeleteIsSubsequence | frontend/src/app/library/page.tsx:62 | a delete keeps the remaining songs in order |
| LibraryPage.AfterDeleteRemovesOne | frontend/src/app/library/page.tsx:62 | with unique ids, deleting a listed id removes exactly one song |
| HomePage.GroupTurn | frontend/src/app/page.tsx:44-50 | one more song extends its own language's group by that song and adds its language on first sight |
| HomePage.PushExisting | frontend/src/app/page.tsx:48 | pushing onto an existing group keeps the grouping exact |
| HomePage.PushNew | frontend/src/app/page.tsx:45-48 | creating a group for a new language and pushing keeps the grouping exact |
| HomePage.GroupByLanguage | frontend/src/app/page.tsx:44-53 | each group holds exactly its language's songs in input order; the keys are the present languages in first-appearance order |
| HomePage.SectionsPartition | frontend/src/app/page.tsx:44-50 | the group sizes add up to the number of songs |
| HomePage.ShuffleSelectsSome | backend/src/controllers/song.controller.js:28-37 | a shuffle of a non-empty collection selects at least one song |
| HomePage.InitialLoad | frontend/src/app/page.tsx:15-33 | shows the selected songs unchanged, or, when none is selected, shuffles once so that each language has min(5, its count) selected songs and shows that result; the shown list is what is flagged; with songs in the catalog it is never empty |
| AuthController.RegisterStatus | backend/src/controllers/auth.controller.js:19-43 | 201 exactly for a registration, 400 for the refusals |
| AuthController.LoginStatus | backend/src/controllers/auth.controller.js:62-71 | 200 exactly for a login, 401 otherwise |
| AuthController.FindByEmail | backend/src/controllers/auth.controller.js:24 | finds a user exactly when one has that email |
| AuthController.FreshUserId | backend/src/controllers/auth.controller.js:31-35 | a new user gets an id above every stored user id, so no stored user has it |
| AuthController.Login | backend/src/controllers/auth.controller.js:55-75 | logged in exactly when a user with that email exists and the password matches it, answering that user with a token signed for its id |
| AuthController.LoginFindsTheUser | backend/src/controllers/auth.controller.js:60-62 | with unique emails, login succeeds exactly when the password matches the one user with that email |
| AuthController.UserStore.Register | backend/src/controllers/auth.controller.js:15-50 | 400 without username, email or password; 400 for a used email; otherwise exactly one user appended and echoed with a signed token; emails stay unique; nothing changes on refusal |
| AuthMiddleware.TokenOf | backend/src/middleware/auth.middleware.js:14 | the token is the second space-separated field, when there is one, and holds no space |
| AuthMiddleware.Protect | backend/src/middleware/auth.middleware.js:5-30 | "no token" exactly when the header is absent or does not start with `Bearer`; on to the handler exactly when the token exists, is non-empty and verifies, with the user found for its id; "token failed" otherwise |
| AuthMiddleware.BearerTokenRoundTrip | backend/src/middleware/auth.middleware.js:10-14 | `Bearer <token>` passes the prefix test and yields the token back |
| AuthMiddleware.ProtectAcceptsBearer | backend/src/middleware/auth.middleware.js:8-22 | a well-formed header with a verifying token reaches the handler with that token's user |
| AuthMiddleware.GluedSchemeAccepted | backend/src/middleware/auth.middleware.js:10 | `Bearer` glued to further letters is treated as `Bearer` followed by a space |
| AuthMiddleware.LowerCaseSchemeRejected | backend/src/middleware/auth.middleware.js:10 | a lower-case `bearer` scheme counts as no token |
| AuthMiddleware.SchemeOnlyFails | backend/src/middleware/auth.middleware.js:14-25 | a header that is only `Bearer` fails as a bad token, not as a missing one |
| Seqs.Filter | frontend/src/app/library/page.tsx:27 | `filter` keeps exactly the elements that satisfy the condition |
| Seqs.FilterIsSubsequence | frontend/src/app/library/page.tsx:27 | `filter` keeps the survivors in order |
| Seqs.FilterFilter | frontend/src/app/library/page.tsx:23-38 | two filters in a row are one filter by both conditions |
| Seqs.FindFirst | backend/src/controllers/song.controller.js:66-68 | `findOne` finds a match exactly when one exists |
| Seqs.Dedupe | backend/seed_evil_data.js:14 | `[...new Set(xs)]` has no repeats and the same elements as `xs` |
| Seqs.DedupeFirstAppearance | frontend/src/app/library/page.tsx:77 | `new Set` keeps elements in order of first appearance |
| Seqs.DedupeNoDups | backend/seed_evil_data.js:14 | de-duplicating a list without repeats changes nothing |
| Seqs.FlattenMembership | backend/seed_evil_data.js:14 | `flat()` holds exactly the elements of the inner lists |
| Seqs.ContainsAt | frontend/src/app/library/page.tsx:34 | `includes` holds when the needle occurs at some offset |
| Seqs.Split | backend/src/middleware/auth.middleware.js:14 | `split` gives at least one field, none holding the separator |
| Seqs.JoinSplit | backend/src/middleware/auth.middleware.js:14 | joining the fields of a split gives the original string |
| Seqs.SplitAfterField | backend/src/middleware/auth.middleware.js:14 | a separator-free field followed by the separator splits off as the first field |

## Left out

- `dualModeShuffle`, `toggleLock`, `getGameState` and `deleteSong` are not modelled. `backend/src/routes/songRoutes.js` imports them, but the controller shown does not define them. The rotation cursor, the lock and `SystemState` are out for the same reason.
- `getAllSongs` and the legacy `GET /songs` are not modelled. The legacy route returns `Song.find()` unsorted. `getAllSongs` sorts by `createdAt`, a path the schema does not declare. The model keeps the collection in insertion order only.
- Randomness: the comparator sort is an arbitrary permutation. Nothing is claimed about how likely each draw is.
- Database I/O is not modelled. This covers connection handling, `process.exit`, database failures (the 500 `catch` branches of the read handlers) and the non-atomic gap between the reset and the flagging `updateMany`. Each handler is one sequential transition on an in-memory collection.
- MongoDB `_id` values are natural numbers. A new one is one more than the largest stored id.
- Request fields are strings or absent. Non-string JSON values and Mongoose casting are not modelled.
- The duplicate-name check is case-insensitive equality. Regular-expression metacharacters in the unescaped name are not modelled. Case mapping (`toUpperCase`, `toLowerCase`) is ASCII only.
- The file-upload and hosting path that would supply `url` (multer, cloudinary) is not part of this model. `AddSong` reads `url` from the request body as the controller does.
- The user model is not part of this model: its validation, password hashing and `matchPassword`. `Register` assumes `User.create` succeeds, so the `if (user)` else branch (400 "Invalid user data") and the 500 branch are not modelled. Login takes email and password as strings; absent fields are not modelled.
- JWT signing and verification (RFC 7519), `matchPassword` and `User.findById` are function parameters. A lookup that throws on a malformed id counts as a failed verification.
- In `protect`, an exception thrown by `next()` itself, which would also send a 401, is not modelled.
- Response bodies and messages are not modelled, only which answer is given and its status code. `NameTaken` carries the existing name that the 409 message quotes.
- `SongController.SongStore.AddSong` is built on the corrected `SongModel.Create`. As written, a complete request without `lyrics` gets a 500 (see Findings), and the add-song page sends no `lyrics` when its field is empty.
- `InitialLoad`: the page posts to `/songs/shuffle`, which the router sends to `dualModeShuffle`. That handler is not shown, so the model uses the controller's `shuffleSongs`. HTTP failures, which only log, are not modelled.
- The frontend pages receive `language` as a string. The model uses the three-language enum, which the schema enforces for stored songs.
- Not modelled: `backend/src/utils/cloudinary.js`, `backend/src/middleware/upload.middleware.js`, `SongCard`, `ShuffleButton`, the add-song page UI, `seed.js`, `ensure_admin.js`, `server.js` and `debug_routes.js`.

## Findings

| source | as written | input that shows it | evidently intended | confidence | as-written member | corrected member |
|---|---|---|---|---|---|---|
| backend/src/controllers/song.controller.js:85 | `lyrics_link: lyrics \|\| ''` passes an empty string to a path that backend/src/models/Song.js:20-23 marks `required`. A required string path rejects '', so `Song.create` fails validation and `addSong` answers 500. | a request with name, artist, language `Hindi` and url, and no `lyrics` | lyrics are optional and stored as '' (the `\|\| ''` default) | medium, not executed | SongModel.CreateAsWritten, SongController.OmittedLyricsRejectedAsWritten | SongModel.Create, SongController.OmittedLyricsAccepted, SongController.SongStore.AddSong |
