# api-to-sheets-bot: the resync pipeline in Dafny

The bot mirrors six collections of a JSON placeholder API into a relational
store and a spreadsheet: posts, comments, photos, albums, todos and users.
Each button press runs one cycle:

1. Fetch the collection and rewrite every dictionary key from camelCase to
   snake_case (`app/services/utils.py`).
2. Validate every item against its record shape (`app/services/schemas.py`).
3. Delete the collection's rows. For users the deletes cascade to their
   addresses, companies and geos (`app/database/models.py`,
   `app/database/dao.py`).
4. Insert one row, or for users one user graph, per record.
5. Build the sheet: a header row, then one row per record.
6. Report how many records were written (`app/handlers/handler.py`).

The model has one module per source file:

- `Json`: JSON values. Objects are ordered member lists with Python dict
  semantics: a later key wins and keeps the first position.
- `Utils`: `to_snake_case`, `convert_keys_to_snake_case`,
  `fetch_data_from_api` and `fetch_data`. The HTTP response is an input
  `(status, body)`. The body is the JSON text as parsed, where an object
  may repeat a key; `Decode` turns it into dicts as `response.json()`
  does.
- `Schemas`: the nine validation shapes and a required-field validator for
  each. Each validator accepts exactly the JSON that conforms to a shape
  description, and hands back what it read.
- `Models`: the nine tables as maps from primary key to row, plus:
  - the store invariant: every key is the row's own key, and every foreign
    key names a parent row;
  - the delete cascades;
  - insertion, and a run of insertions.
- `Dao`: a `Session` object holding the committed tables, and `BaseDao`
  with `Create`, `DeleteAll` and `CreateUser`. These methods update the
  session in place.
- `Handler`:
  - the row constructions and the user decomposition;
  - the sheet projections;
  - the pure specification `Synced` of one cycle;
  - the six callbacks as imperative methods proved equal to `Synced`;
  - the lemmas about `Synced`.

Replace-all is not atomic: `delete_all` commits on its own
(`app/database/dao.py:35`), and so does each `create`
(`app/database/dao.py:25`). A duplicate id at record k leaves the table
holding records 1..k-1 and nothing of the previous contents.
`Handler.RefusedKeepsPrefix` states this for every run, and
`Handler.ReplaceNotAtomic` shows it on a concrete store.

## Model

| member | source | states |
|---|---|---|
| Json.Build | app/services/utils.py:30 | the dict comprehension: keys are those of the input, unique, no more members than input pairs, and each key holds the value of its last occurrence |
| Utils.ToSnakeCase | app/services/utils.py:6-16 | the result has no ASCII uppercase letter; its length is the input's plus one per uppercase letter after index 0; its first character is the input's first, lowercased |
| Utils.LowerAll | app/services/utils.py:16 | `.lower()` keeps the length and lowercases each character in place |
| Utils.SnakeOfLower | app/services/utils.py:16 | a string with no uppercase letter comes back unchanged |
| Utils.SnakeIdempotent | app/services/utils.py:16 | converting twice is converting once |
| Utils.SnakeOfAcronym | app/services/utils.py:16 | every uppercase letter gets its own underscore: `userID` becomes `user_i_d` |
| Utils.SnakeOfLeadingCapital | app/services/utils.py:16 | a leading capital gets no underscore: `Id` becomes `id` |
| Utils.OneHump | app/services/utils.py:16 | a lowercase head, one capital and a lowercase tail become head, `_`, the lowered capital, tail |
| Utils.SnakeOfCatchPhrase | app/services/utils.py:16 | `catchPhrase` becomes `catch_phrase` |
| Utils.SnakeOfThumbnailUrl | app/services/utils.py:16 | `thumbnailUrl` becomes `thumbnail_url` |
| Utils.SnakeOfAlbumId | app/services/utils.py:16 | `albumId` becomes `album_id` |
| Utils.ConvertKeys | app/services/utils.py:19-34 | the result is normal (no uppercase key, no repeated key, at any depth); scalars come back unchanged; a list keeps its length and element i is the conversion of element i; a dict never grows |
| Utils.SnakePairs | app/services/utils.py:29-30 | one pair per dict item, in order, each key rewritten to snake case and each value normal |
| Utils.NormalIsFixed | app/services/utils.py:19-34 | a normal value is its own conversion |
| Utils.ConvertIdempotent | app/services/utils.py:19-34 | converting twice is converting once |
| Utils.ConvertListAppend | app/services/utils.py:31-32 | list conversion is element by element, in order: it distributes over concatenation |
| Utils.ConvertDict | app/services/utils.py:29-30 | the output keys are exactly the rewritten input keys; a key no input rewrites to is absent; a key holds the converted value of the last input key that rewrites to it |
| Utils.Decode | app/services/utils.py:53 | `response.json()`: the result has no repeated key at any depth; scalars are unchanged; a list keeps its length and decodes element by element; an object keeps its key set and never grows |
| Utils.DecodedIsFixed | app/services/utils.py:53 | a value with no repeated key at any depth is decoded unchanged |
| Utils.DecodeDict | app/services/utils.py:53 | in a decoded object a key holds the decoded value of its last occurrence in the text, and a key the text lacks is absent |
| Utils.RepeatedKeyDecodedFirst | app/services/utils.py:53-54 | the body `{"aB": 1, "a_b": 2, "aB": 3}` is fetched as `{"a_b": 2}`: decoding collapses `aB` first, then the key rewrite lets the later `a_b` win |
| Utils.FetchFromApi | app/services/utils.py:50-57 | a status other than 200 fails with that status; the result is data exactly when the status is 200 and the body decodes; the data is the decoded body converted by `ConvertKeys`, hence normal |
| Utils.Iterate | app/services/utils.py:72 | Python iteration over the payload: a list yields its items, a dict its keys, a string its characters (item i is the one-character string of character i), and anything else cannot be iterated |
| Utils.ValidateAll | app/services/utils.py:72 | all or nothing: success exactly when every item validates, with one record per item in order; otherwise the first failing item and its cause, every earlier item having passed |
| Utils.FetchData | app/services/utils.py:60-72 | a status other than 200 fails; success exactly when the payload iterates and every item validates, and then there is one validated record per item, in order |
| Utils.EmptyPayloads | app/services/utils.py:71-72 | an empty dict and an empty string give no records; `null` is not iterable |
| Schemas.ValidatePost | app/services/schemas.py:4-8 | accepts exactly the JSON objects that carry the declared fields with the declared kinds, and gives back the record whose encoding is that object restricted to the declared fields |
| Schemas.ValidateComment | app/services/schemas.py:11-16 | as for posts, with the comment fields |
| Schemas.ValidatePhoto | app/services/schemas.py:19-24 | as for posts, with the photo fields |
| Schemas.ValidateAlbum | app/services/schemas.py:27-30 | as for posts, with the album fields |
| Schemas.ValidateTodo | app/services/schemas.py:33-37 | as for posts, with the todo fields (`completed` boolean) |
| Schemas.ValidateGeo | app/services/schemas.py:40-42 | as for posts, with `lat` and `lng` as strings |
| Schemas.ValidateAddress | app/services/schemas.py:45-50 | as for posts; the nested geo must conform too |
| Schemas.ValidateCompany | app/services/schemas.py:53-56 | as for posts, with the company fields |
| Schemas.ValidateUser | app/services/schemas.py:59-67 | as for posts; the nested address (with its geo) and company must conform too |
| Schemas.Required | app/services/schemas.py:4-67 | no field has a default: a field is read exactly when present, and otherwise its path is reported missing |
| Schemas.UserConformsFields | app/services/schemas.py:59-67 | a user object conforms exactly when each of its eight declared fields does |
| Schemas.PostRoundTrip | app/services/schemas.py:4-8 | validating an encoded post gives the post back |
| Schemas.CommentRoundTrip | app/services/schemas.py:11-16 | the same for comments |
| Schemas.PhotoRoundTrip | app/services/schemas.py:19-24 | the same for photos |
| Schemas.AlbumRoundTrip | app/services/schemas.py:27-30 | the same for albums |
| Schemas.TodoRoundTrip | app/services/schemas.py:33-37 | the same for todos |
| Schemas.GeoRoundTrip | app/services/schemas.py:40-42 | the same for geos, at any path |
| Schemas.AddressRoundTrip | app/services/schemas.py:45-50 | the same for addresses, geo included |
| Schemas.CompanyRoundTrip | app/services/schemas.py:53-56 | the same for companies |
| Schemas.UserRoundTrip | app/services/schemas.py:59-67 | the same for users, the whole nest included |
| Schemas.MissingFieldFails | app/services/schemas.py:4-67 | an object lacking any declared field does not conform |
| Schemas.PostFieldsRequired | app/services/schemas.py:4-8 | a post lacking any of `user_id`, `id`, `title` or `body` is rejected |
| Schemas.PhotoNeedsUrls | app/services/schemas.py:19-24 | a photo lacking `url` or `thumbnail_url` is rejected |
| Schemas.TodoKinds | app/services/schemas.py:33-37 | an accepted todo has a JSON boolean `completed` and integer `id` and `user_id`, carried as they are |
| Schemas.GeoVerbatim | app/services/schemas.py:40-42 | an accepted geo's `lat` and `lng` are the input strings, never numbers |
| Schemas.UserNest | app/services/schemas.py:59-67 | a user validates if and only if its flat fields have their kinds and its address and company validate |
| Schemas.GeoSinksUser | app/services/schemas.py:45-67 | a geo that fails to validate rejects the user around it |
| Schemas.ConvertThree | app/services/utils.py:29-30 | a flat dict whose three keys rewrite to distinct names is converted member by member, in order |
| Schemas.CompanyWithoutCatchPhrase | app/services/schemas.py:53-56 | a company with a name but no `catch_phrase` is reported missing exactly that field |
| Schemas.CatchPhraseRejected | app/services/schemas.py:55 | a company still carrying the upstream key `catchPhrase` is rejected as missing `company.catch_phrase` |
| Schemas.CatchPhraseNormalised | app/services/schemas.py:55 | once its keys are normalised, a company whose keys rewrite to `name`, `catch_phrase` and `bs` validates to exactly those values |
| Schemas.PhotoWithoutUrl | app/services/schemas.py:19-24 | an upstream photo with only `albumId`, `id` and `title` keys is rejected after normalisation, as missing `url` |
| Schemas.PhotoWithoutUrlAt | app/services/schemas.py:19-24 | the same photo, already in snake case, is rejected as missing `url` |
| Models.ParentTable | app/database/models.py:57-82 | geo rows point at addresses, and address and company rows at users; the five flat tables and users have no parent |
| Models.Empty | app/database/models.py:8-105 | the store with nine empty tables is consistent |
| Models.Cascade | app/database/models.py:73-105 | deleting from a table reaches that table; deleting addresses reaches geos; deleting users reaches addresses and companies |
| Models.RemoveKeys | app/database/dao.py:33-35 | deleting keys touches only the reached tables, removes exactly those keys from them and keeps every remaining row |
| Models.Insert | app/database/dao.py:23-27 | an insert adds the row under its key and leaves every other table unchanged |
| Models.InsertConsistent | app/database/models.py:57-82 | an insert the store accepts keeps keys and foreign keys valid and adds exactly one row |
| Models.CascadeConsistent | app/database/models.py:73-105 | deleting through the cascades keeps the store consistent |
| Models.NoCascadeOrphans | app/database/models.py:100-105 | without the cascade, deleting a user would orphan its address |
| Models.FlatParentsMayDangle | app/database/models.py:8-14 | a post may name a user id that exists nowhere: flat parent ids carry no foreign key |
| Models.OneChildPerParent | app/database/models.py:64-87 | a user has at most one address and one company, and an address at most one geo |
| Models.DeleteAllUsers | app/database/models.py:73-105 | deleting every user empties users, addresses, companies and geos, and nothing else changes |
| Models.RemoveKeysTwice | app/database/dao.py:33-35 | deleting keys one batch after another is deleting their union |
| Models.StoredAppend | app/database/dao.py:25 | a run of inserts split in two is the second run on the result of the first |
| Models.StoredKeys | app/database/dao.py:25 | after a run of inserts a table's keys are its old keys plus those of the inserted rows |
| Models.StoredAt | app/database/dao.py:25 | a row not overwritten later in the run sits under its key |
| Models.StoredElsewhere | app/database/dao.py:25 | a run of inserts leaves untouched every table it does not write to |
| Models.StoredKeeps | app/database/dao.py:25 | a row that no insert in the run overwrites stays as it was |
| Dao.InsertError | app/database/dao.py:23-27 | a commit is refused exactly when the row's key is taken or its parent row is missing |
| Dao.UserFlushParentsFirst | app/database/dao.py:49 | the flush order holds exactly the four rows handed to `add_all`, and puts each row after the rows of the table its foreign key names (user before address and company, address before geo) |
| Dao.InsertAll | app/database/dao.py:48-52 | a unit of work that commits keeps the store consistent and leaves the tables it does not write to unchanged |
| Dao.BaseDao.Create | app/database/dao.py:23-27 | commits exactly when the store accepts the row; then the tables are the old ones plus that one row, and the row is returned; otherwise nothing changes and the error says why |
| Dao.BaseDao.DeleteAll | app/database/dao.py:29-35 | the new tables are the old ones minus every key of the model's table, in every table the cascade reaches; the model's table is empty; the store stays consistent |
| Dao.BaseDao.CreateUser | app/database/dao.py:48-52 | the four rows go in together in one commit, parents first, or none does; the store stays consistent |
| Dao.UserGraphAccepted | app/database/dao.py:48-52 | a user graph keyed by a new user id is accepted, adding one row to each of the four tables |
| Dao.UserGraphRefused | app/database/dao.py:48-52 | a user graph whose id is taken is refused as a duplicate user key |
| Handler.PostRowsOf | app/handlers/handler.py:68 | a post becomes one posts row keyed by its id, from which `PostOf` reads the same post back: every field is copied |
| Handler.CommentRowsOf | app/handlers/handler.py:108 | a comment becomes one comments row keyed by its id, from which `CommentOf` reads the same comment back |
| Handler.PhotoRowsOf | app/handlers/handler.py:148-149 | a photo becomes one photos row keyed by its id, from which `PhotoOf` reads the same photo back |
| Handler.AlbumRowsOf | app/handlers/handler.py:190 | an album becomes one albums row keyed by its id, from which `AlbumOf` reads the same album back |
| Handler.TodoRowsOf | app/handlers/handler.py:230 | a todo becomes one todos row keyed by its id, from which `TodoOf` reads the same todo back |
| Handler.RowsReadBack | app/handlers/handler.py:68 | the other direction: every flat row is the row built from the record it reads back as |
| Handler.Decompose | app/handlers/handler.py:270-298 | the geo, address, company and user rows all carry the user's id |
| Handler.JoinDecompose | app/handlers/handler.py:270-298 | joining the four rows on the user id gives back the validated user |
| Handler.DecomposeJoin | app/handlers/handler.py:270-298 | any four rows keyed by one user id are the decomposition of their join |
| Handler.UserRowsOf | app/handlers/handler.py:270-300 | a user becomes four rows, the user row first and keyed by the user id, none of the others in the users table |
| Handler.PostCells | app/handlers/handler.py:71-72 | a post's sheet row is as wide as the posts header |
| Handler.CommentCells | app/handlers/handler.py:111-112 | a comment's sheet row is as wide as the comments header |
| Handler.PhotoCells | app/handlers/handler.py:152-153 | a photo's sheet row is as wide as the photos header |
| Handler.AlbumCells | app/handlers/handler.py:193-194 | an album's sheet row is as wide as the albums header |
| Handler.TodoCells | app/handlers/handler.py:233-234 | a todo's sheet row is as wide as the todos header |
| Handler.UserCells | app/handlers/handler.py:302-316 | a user's sheet row is as wide as the 15-column users header |
| Handler.CellsOf | app/handlers/handler.py:71 | the sheet body has one row per record, in fetch order, row i being record i's cells |
| Handler.HeaderRow | app/handlers/handler.py:72-73 | the header row holds the header names, in order |
| Handler.Grid | app/handlers/handler.py:71-73 | the sheet is the header row followed by the record rows, in order |
| Handler.PostColumns | app/handlers/handler.py:71-72 | column c of a post's row is the post's field named by header c |
| Handler.CommentColumns | app/handlers/handler.py:111-112 | column c of a comment's row is the comment's field named by header c |
| Handler.PhotoColumns | app/handlers/handler.py:152-153 | column c of a photo's row is the photo's field named by header c |
| Handler.AlbumColumns | app/handlers/handler.py:193-194 | column c of an album's row is the album's field named by header c |
| Handler.TodoColumns | app/handlers/handler.py:233-234 | column c of a todo's row is the todo's field named by header c |
| Handler.UserColumns | app/handlers/handler.py:302-316 | column c of a user's row is the user's field at path c, so `address_street` is `address.street` and `geo_lat` is `address.geo.lat` |
| Handler.FirstRepeat | app/handlers/handler.py:67-69 | the insert loop stops at the first id already inserted: the ids before that point are distinct, and the id there repeats an earlier one |
| Handler.FirstRepeatAt | app/handlers/handler.py:67-69 | before the stop no id repeats an earlier one, and at the stop one does |
| Handler.Synced | app/handlers/handler.py:57-81 | a cycle: a failed fetch changes nothing and reports failure without a sheet; success exactly when the fetch succeeds and the ids are distinct, and then the count is the number of records and the sheet, under the given title, is the header row followed by one row of cells per record, in order |
| Handler.KeysSoFar | app/handlers/handler.py:67-69 | after the first i inserts into the emptied table, it holds exactly the first i ids |
| Handler.CreateEach | app/handlers/handler.py:67-69 | creates the records in order until the first refused one; reports whether all went in; the tables are those inserts applied to the tables before the loop |
| Handler.SyncFlat | app/handlers/handler.py:57-81 | a flat cycle: fetch and validate, delete all, create each, build the sheet; the reply, sheet and tables are those of `Synced` |
| Handler.CreateUsers | app/handlers/handler.py:269-300 | creates the user graphs in order until the first refused one; the tables are those graphs' rows applied to the tables before the loop |
| Handler.FetchUsersCallback | app/handlers/handler.py:259-325 | the users cycle: the reply, sheet and tables are those of `Synced` over users |
| Handler.FetchPostsCallback | app/handlers/handler.py:57-81 | the posts cycle: the reply, sheet and tables are those of `Synced` over posts |
| Handler.FetchCommentsCallback | app/handlers/handler.py:97-121 | the same for comments |
| Handler.FetchPhotosCallback | app/handlers/handler.py:137-163 | the same for photos |
| Handler.FetchAlbumsCallback | app/handlers/handler.py:179-203 | the same for albums |
| Handler.FetchTodosCallback | app/handlers/handler.py:219-243 | the same for todos |
| Handler.StoredRecords | app/handlers/handler.py:67-69 | with distinct ids, every row of every record sits under its key in its table after the inserts |
| Handler.NoRowsIn | app/handlers/handler.py:67-69 | records none of whose rows go to a table add nothing to it |
| Handler.FlatReplaced | app/handlers/handler.py:63-73 | a flat cycle over records with distinct ids: replies with their count; the table holds exactly their ids, each with its record's row; every other table is unchanged; the sheet is the header and then one row per record, in order |
| Handler.PostsReplaced | app/handlers/handler.py:63-73 | a posts cycle over posts with distinct ids leaves under each post's id a row that reads back as that post, and writes that post's cells as its sheet row |
| Handler.FlatStored | app/handlers/handler.py:63-69 | inserting records with distinct ids into the emptied table leaves it holding exactly those ids with their rows, and no other table changes |
| Handler.UsersReplaced | app/handlers/handler.py:265-317 | a users cycle over users with distinct ids: replies with their count; the users table holds exactly their ids; each id holds that user's user, address, company and geo rows; tables outside the cascade are unchanged; the sheet is the user header and then one row of user cells per user, in order |
| Handler.UsersStored | app/handlers/handler.py:269-300 | after inserting user graphs with distinct ids, each user's four rows are stored under its id |
| Handler.UserRowsCascade | app/handlers/handler.py:265-300 | every row of a user lands in a table the users' delete reaches |
| Handler.DoneCountsPayload | app/handlers/handler.py:76 | a successful cycle had status 200, and the reported count is the number of payload items |
| Handler.RefusedKeepsPrefix | app/handlers/handler.py:63-69 | a cycle whose ids repeat stops at the first repeat n: it fails and writes no sheet; the model's table holds exactly the ids of records 0..n-1, each of their rows sits under its id, and tables outside the cascade are unchanged |
| Handler.ReplaceNotAtomic | app/handlers/handler.py:63-69 | two posts with the same id over a table that held another post: the cycle fails, writes no sheet, and leaves only the first new post, since the old row is gone |

## Left out

- Telegram and aiogram: `start_command`, the keyboard, the progress and
  result messages, and `register_handlers`. The model's `Reply`
  (`Done(count)` or `Failed`) stands for the message sent.
- The aiohttp GET and the URL. The response is an input: a status and a
  JSON body that may fail to decode.
- `write_to_google_sheets` (google_sheets_service.py is not part of this
  model). A cycle produces the sheet it would write. The callbacks ignore
  its boolean result, so the reply does not depend on it.
- Configuration, engine and session setup (config.py, db.py), and the
  alembic migrations.
- Schemas.ValidatePost, and the other validators, check exact JSON kinds.
  Pydantic's lax coercion is not modelled (for example, `"1"` accepted as
  an int). Extra keys are ignored, as pydantic's default does.
- Schemas.ValidateUser, and the other validators, report the first
  violation found, not pydantic's list of every violation.
- Utils.ToSnakeCase lowercases ASCII `A`-`Z` only. Python's `str.lower`
  on other letters is not modelled.
- JSON numbers are integers. Floats are not modelled.
- async/await and concurrency. Each cycle runs sequentially.
- Database failures other than constraint violations (duplicate primary
  key, missing parent row): connection and transport errors are not
  modelled.
- Dao.InsertError does not model the width of the integer columns. They
  are 32-bit in the database (`Integer` in app/database/models.py), so an
  id or parent id outside [-2^31, 2^31) makes the insert fail. The model
  stores such a row and reports success.
- SQLAlchemy's session, identity map and flush internals. A commit is
  modelled by its effect on the tables. `create_user`'s flush order is
  fixed parents-first.
- `session.refresh` is modelled by returning the stored row unchanged.
