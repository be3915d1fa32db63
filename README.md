# Tom Troc MVC core in Dafny

This project models the framework core and the data layer of the Tom Troc book-exchange
application. That application is a small PHP MVC app. The model covers these parts:

- **Query builder** (`Sql`, query_builder.dfy). A class whose fluent calls accumulate the table,
  columns, WHERE fragments, bound parameters, ordering, grouping, joins, limit and offset. Its
  terminal calls produce the SQL text and the parameter list that would be sent to the database,
  or the exception the builder throws.
- **Router** (`Routing`, routing.dfy). A class with a path→handler map filled by `addRoute` and
  by `loadRoutesFromFile`. `dispatch` is a function from the routes, the request URI and the set
  of existing files to the response: a static file with its MIME type, a handler call, or the
  404 page.
- **Hydration** (`Hydration`, base_entity.dfy). The row-key→setter-name mapping of
  `BaseEntity::hydrate`, the fold that calls the setters in row order until one throws, and
  `camelToSnake`.
- **Entities** (`Entities`, entities.dfy). `UserEntity`, `BookEntity` and the part of
  `BookStatusEntity` that books link to, as classes with their typed properties. A property
  without a default is "unset" until it is first written. Setters apply PHP's coercive typing to
  row values. A getter called on an unset property, or one that returns null where an `int` or
  `string` is declared, gives the matching `Error`/`TypeError`.
- **Repositories** (`Repositories`, repositories.dfy). `BaseRepository` with its shared,
  never-reset builder, plus the user, book-status and book repositories. The database is an
  oracle that answers each statement.
- **Configuration and singletons** (`Configuration`, config.dfy; `Singletons`, singleton.dfy).
  The settings store, where an absent key reads as null, and the per-class instance registry
  behind `getInstance`.
- **URL helpers** (`Urls`, urls.dfy). `action_url` and `img_url`.
- **Error handler** (`Errors`, error_handler.dfy). The development/production branch of `handle`
  and the source-line window of `getCodeSnippet`, the latter as a loop proved equal to its
  specification.

PHP values are `Null | Int | Str`. A PHP array with string keys is a `Row`: a sequence of
key/value pairs with no key twice, kept in iteration order. Exceptions are the `Throwable`
datatype with the class and message the code throws. Operations that may throw return a
`Result` or an `Outcome`.

Route parameters are not implemented by the code: core/Router.php:7 carries a TODO, and only
exact paths match. The model follows the code.

## Model

| member | source | states |
|---|---|---|
| Sql.WithWhere | core/QueryBuilder.php:59-65 | a WHERE fragment and its parameter are appended together, so fragments and parameters stay aligned |
| Sql.WithOrderBy | core/QueryBuilder.php:75-86 | the direction is accepted exactly when its upper-case form is ASC or DESC; otherwise an InvalidArgumentException and no change; on success `column DIR` is appended |
| Sql.WithJoin | core/QueryBuilder.php:111-122 | the join type is accepted exactly when its upper-case form is INNER, LEFT or RIGHT; otherwise an InvalidArgumentException; on success the JOIN fragment is appended |
| Sql.PlaceholderListCount | core/QueryBuilder.php:197 | the VALUES list of `insert` holds exactly one `?` per column of the row |
| Sql.AssignmentListCount | core/QueryBuilder.php:216 | for column names free of `?`, the SET list of `update` holds exactly one `?` per column |
| Sql.QueryBuilder.constructor | core/QueryBuilder.php:11-25 | a new builder has no table, selects `*` and has no clauses |
| Sql.QueryBuilder.Table | core/QueryBuilder.php:33-37 | sets the table and nothing else |
| Sql.QueryBuilder.Select | core/QueryBuilder.php:45-49 | replaces the column list and nothing else |
| Sql.QueryBuilder.Where | core/QueryBuilder.php:59-65 | adds one fragment and one parameter; the alignment invariant is kept |
| Sql.QueryBuilder.OrderBy | core/QueryBuilder.php:75-86 | succeeds or throws as WithOrderBy says; a rejected direction leaves the builder unchanged |
| Sql.QueryBuilder.GroupBy | core/QueryBuilder.php:94-98 | appends the grouping columns to those already given |
| Sql.QueryBuilder.Join | core/QueryBuilder.php:111-122 | succeeds or throws as WithJoin says, with `inner` as the default type |
| Sql.QueryBuilder.Limit | core/QueryBuilder.php:130-134 | sets the limit and nothing else |
| Sql.QueryBuilder.Offset | core/QueryBuilder.php:142-146 | sets the offset and nothing else |
| Sql.QueryBuilder.Get | core/QueryBuilder.php:153-186 | the SELECT built by successive appends equals the clause-by-clause specification: WHERE, ORDER BY, GROUP BY, joins, then LIMIT and OFFSET only when positive; parameters in WHERE order |
| Sql.QueryBuilder.First | core/QueryBuilder.php:246-260 | SELECT, FROM and WHERE followed by LIMIT 1, with the WHERE parameters |
| Sql.QueryBuilder.Insert | core/QueryBuilder.php:194-202 | INSERT of the row's columns with one placeholder each; parameters are the row's values |
| Sql.QueryBuilder.Update | core/QueryBuilder.php:211-222 | throws the mass-update exception when there is no WHERE; otherwise UPDATE … SET … WHERE with the row's values followed by the WHERE parameters |
| Sql.QueryBuilder.Delete | core/QueryBuilder.php:230-239 | throws the mass-deletion exception when there is no WHERE; otherwise DELETE … WHERE with the WHERE parameters |
| Sql.ConditionHasOnePlaceholder | core/QueryBuilder.php:61 | each WHERE fragment holds exactly one `?` |
| Sql.GetPlaceholdersMatchParameters | core/QueryBuilder.php:153-186 | for identifiers free of `?`, the SELECT of `get` has exactly as many placeholders as bound parameters |
| Sql.FirstPlaceholdersMatchParameters | core/QueryBuilder.php:246-260 | the same for `first` |
| Sql.InsertPlaceholdersMatchParameters | core/QueryBuilder.php:194-202 | the same for `insert`: placeholders = parameters = columns |
| Sql.UpdatePlaceholdersMatchParameters | core/QueryBuilder.php:211-222 | the same for `update` |
| Sql.DeletePlaceholdersMatchParameters | core/QueryBuilder.php:230-239 | the same for `delete` |
| Sql.WhereKeepsTrusted | core/QueryBuilder.php:59-65 | adding a condition with `?`-free column and operator keeps every fragment at one placeholder |
| Sql.SqlIndependentOfValues | core/QueryBuilder.php:59-65 | values are never spliced into SQL: changing the values bound by `where`, and the values of the row given to `insert` or `update` (same keys), leaves the text of every statement unchanged |
| Sql.FirstIsGetLimitedToOne | core/QueryBuilder.php:246-260 | `first` ignores ordering, grouping, joins and offset: it is `get` of the same builder stripped of them with LIMIT 1 |
| Sql.GetOnFreshBuilder | core/QueryBuilder.php:153-186 | a builder with only a table gives `SELECT * FROM t` and no parameters |
| Sql.GuardStopsUnconditionalWrites | core/QueryBuilder.php:211-239 | UPDATE and DELETE fail exactly when there is no WHERE (table set); an UPDATE's parameters end with the WHERE parameters |
| Routing.NormalizePathShape | core/Router.php:25 | a route key starts with exactly one `/` followed by the path with its leading slashes removed |
| Routing.NormalizePathIdempotent | core/Router.php:25 | normalising a key again changes nothing |
| Routing.LeadingSlashesIgnored | core/Router.php:25 | `/p` and `p` register the same key |
| Routing.RequestPath | core/Router.php:74-78 | the request path is never empty; it is `/` exactly when the URI is all slashes, and otherwise the URI with trailing slashes removed |
| Routing.TrailingSlashIgnored | core/Router.php:74-78 | a trailing slash on the request does not change the path looked up |
| Routing.RequestPathFixedPoints | core/Router.php:74-78 | a path survives request normalisation exactly when it is `/` or does not end in `/` |
| Routing.Before | core/Router.php:47 | the text before the first `@` |
| Routing.After | core/Router.php:47 | the text after the first `@` |
| Routing.ControllerCallback | core/Router.php:46-50 | `Ctrl@action` resolves to the controller in the `App\Controllers\` namespace and that action |
| Routing.PlainCallbackPassesThrough | core/Router.php:44-52 | a callback without `@` is kept as a function name; a callable is kept as it is |
| Routing.RegisteredLastWins | core/Router.php:44-53 | after loading, every entry's key is routed, and it is routed to the handler of the last entry with that key |
| Routing.RegisteredKeepsOthers | core/Router.php:44-53 | keys that no entry mentions keep their previous handler; no other key appears |
| Routing.AfterLast | core/Router.php:85 | none exactly when the character does not occur; otherwise the text after its last occurrence, which does not contain it |
| Routing.Basename | core/Router.php:85 | the last `/`-separated component of the path: the whole path when it has no `/`, otherwise the text after the last `/` |
| Routing.AfterLastOf | core/Router.php:85 | when the character occurs `k` places from the end and not after that, the text after the last occurrence is those last `k` characters |
| Routing.Extension | core/Router.php:85 | `PATHINFO_EXTENSION`: empty when the basename has no `.`; otherwise the basename is its text before the last `.`, then `.`, then the extension, which holds no `.` and no `/` |
| Routing.ExtensionOfFile | core/Router.php:85 | the file `dir/name.ext` has extension `ext` when `name` holds no `/` and `ext` no `.` or `/` |
| Routing.MimeType | core/Router.php:88-109 | a listed extension gets its fixed MIME type; any other gets the detected one |
| Routing.Dispatch | core/Router.php:71-128 | a file is served exactly when the path starts with `/public` and that file exists; otherwise an exact key match calls its handler, and anything else is a 404 with body `404 - Page not found` |
| Routing.AddedRouteIsDispatched | core/Router.php:22-27 | a route that was just added is dispatched for its own normalised path, unless that key ends in `/` or names an existing public file |
| Routing.TrailingSlashKeyUnreachable | core/Router.php:74-78 | a key ending in `/` (other than `/`) can never be reached: removing it changes no dispatch |
| Routing.Router.constructor | core/Router.php:14 | a router starts with no routes |
| Routing.Router.AddRoute | core/Router.php:22-27 | the normalised path is mapped to the handler (last write wins) and every other entry is unchanged |
| Routing.Router.LoadRoutesFromFile | core/Router.php:39-60 | a missing file and a non-array file throw their messages and leave the routes unchanged; otherwise every entry is registered in order |
| Hydration.ReplaceChar | core/BaseEntity.php:26 | `str_replace('_', ' ', …)` on one character: same length, no `_` is left, and every other character stays in place |
| Hydration.ReplaceCharCount | core/BaseEntity.php:26 | every `_` became a space: the result has as many spaces as the key had `_` and spaces together |
| Hydration.UcWords | core/BaseEntity.php:26 | `ucwords`: same length; the first character and every character after a delimiter are no longer lower-case, and every other character is unchanged |
| Hydration.UcWordsOnlyCase | core/BaseEntity.php:26 | `ucwords` changes nothing but case: the lower-case forms of result and input are equal |
| Hydration.UcWordsIdempotent | core/BaseEntity.php:26 | applying `ucwords` to its own result changes nothing |
| Hydration.RemoveChar | core/BaseEntity.php:26 | `str_replace(' ', '', …)` leaves no space and shortens the text by exactly its number of spaces |
| Hydration.SetterNameOfWords | core/BaseEntity.php:26 | a key made of words joined by `_` or spaces (`w1_w2 w3…`) names the setter `set` + each word with its first letter capitalised |
| Hydration.UserIdSetter | core/BaseEntity.php:26 | the key `user_id` names `setUserId` |
| Hydration.SetterCalls | core/BaseEntity.php:25-30 | only keys whose setter exists are called, never more calls than keys |
| Hydration.SetterCallsAppend | core/BaseEntity.php:25-30 | the calls of a concatenated row are the calls of each part, in order |
| Hydration.UnknownKeySkipped | core/BaseEntity.php:27 | a key without a setter is silently skipped |
| Hydration.KnownKeyCalledInPlace | core/BaseEntity.php:27-28 | a key with a setter is called at its own position in the row |
| Hydration.CamelToSnake | core/BaseEntity.php:39-42 | the result has no upper-case letter |
| Hydration.CamelToSnakeLength | core/BaseEntity.php:41 | one `_` is added per upper-case letter after the first character |
| Hydration.CamelToSnakeIdentity | core/BaseEntity.php:41 | text with no upper-case letter is returned unchanged |
| Hydration.UserIdToSnake | core/BaseEntity.php:41 | `userId` becomes `user_id` |
| Entities.IntParam | app/entities/BookEntity.php:77-80 | an `int` parameter accepts an integer unchanged and a string exactly when it is an integer-numeric string within the 64-bit range; null is refused |
| Php.ParseIntToString | app/entities/BookEntity.php:77 | the decimal text of every 64-bit integer coerces back to that integer |
| Php.ParseIntOutOfRange | app/entities/BookEntity.php:77 | the decimal text of an integer beyond 64 bits is refused by an `int` parameter |
| Php.ParseIntPlus | app/entities/BookEntity.php:77 | a leading `+` on a digit string changes nothing |
| Entities.NullableIntParam | app/entities/BookEntity.php:27-30 | a `?int` parameter also accepts null |
| Entities.StringParam | app/entities/UserEntity.php:29-32 | a `string` parameter rejects only null |
| Entities.NullableStringParam | app/entities/BookEntity.php:47-50 | a `?string` parameter accepts everything, null as null |
| Entities.UserSetterChangesOneProperty | app/entities/UserEntity.php:19-62 | each user setter changes its own property and no other; it fails exactly on a value its parameter type refuses |
| Entities.NullAvatarRejected | app/entities/UserEntity.php:59-62 | a null `avatar` in a row stops hydration with a TypeError, keeping what was set before it |
| Entities.UserEntity.constructor | app/entities/UserEntity.php:8-12 | id and avatar start null; username, email and password start unset |
| Entities.UserEntity.New | core/BaseEntity.php:11-16 | a new user is the hydration of its row from the empty state, or the exception hydration throws |
| Entities.UserEntity.SetId | app/entities/UserEntity.php:19-22 | sets the id only |
| Entities.UserEntity.SetUsername | app/entities/UserEntity.php:29-32 | sets the username only |
| Entities.UserEntity.SetEmail | app/entities/UserEntity.php:39-42 | sets the email only |
| Entities.UserEntity.SetPassword | app/entities/UserEntity.php:49-52 | sets the password only |
| Entities.UserEntity.SetAvatar | app/entities/UserEntity.php:59-62 | sets the avatar only |
| Entities.UserEntity.Call | core/BaseEntity.php:28 | a dynamic setter call does what the setter table says, or throws and changes nothing |
| Entities.UserEntity.Hydrate | core/BaseEntity.php:23-31 | the row's setters run in order until the first exception; the state is that of the fold |
| Entities.BookStatusEntity.New | app/repositories/BookStatusRepository.php:11-14 | a status built from a row starts with a null id and is the hydration of that row, or the exception hydration throws |
| Entities.BookStatusEntity.SetId | app/repositories/BookStatusRepository.php:11-14 | sets the id that `getId` returns; this is the setter that `new BookStatusEntity($data)` calls for the row's `id` (its own file is not part of this model, see "Left out") |
| Entities.BookStatusEntity.Hydrate | core/BaseEntity.php:23-31 | only the `id` key has a setter; it runs as the fold says |
| Entities.BookSetterKeepsLinks | app/entities/BookEntity.php:87-112 | no setter reached from a row changes the linked user or status; `setUser` and `setStatus` from a row always throw |
| Entities.BookHydrationKeepsLinks | core/BaseEntity.php:23-31 | hydrating a book never links a user or status object |
| Entities.BookEntity.constructor | app/entities/BookEntity.php:10-20 | id, image, user and status start null; the other properties start unset |
| Entities.BookEntity.New | core/BaseEntity.php:11-16 | a new book is the hydration of its row, or the exception hydration throws |
| Entities.BookEntity.SetId | app/entities/BookEntity.php:27-30 | sets the (nullable) id only |
| Entities.BookEntity.SetTitle | app/entities/BookEntity.php:37-40 | sets the title only |
| Entities.BookEntity.SetAuthor | app/entities/BookEntity.php:47-50 | sets the (nullable) author only |
| Entities.BookEntity.SetImage | app/entities/BookEntity.php:57-60 | sets the image only |
| Entities.BookEntity.SetDescription | app/entities/BookEntity.php:67-70 | sets the (nullable) description only |
| Entities.BookEntity.SetUserId | app/entities/BookEntity.php:77-80 | sets the user id and leaves the linked user as it was |
| Entities.BookEntity.SetUser | app/entities/BookEntity.php:87-91 | links the user, then copies its id; when the user's `getId` throws, the link is kept and the old id stays |
| Entities.BookEntity.SetStatusId | app/entities/BookEntity.php:98-101 | sets the status id and leaves the linked status as it was |
| Entities.BookEntity.SetStatus | app/entities/BookEntity.php:108-112 | links the status, then copies its id, in the same order as SetUser |
| Entities.BookEntity.Call | core/BaseEntity.php:28 | a dynamic setter call does what the book setter table says, or throws and changes nothing |
| Entities.BookEntity.Hydrate | core/BaseEntity.php:23-31 | the row's setters run in order until the first exception |
| Repositories.FirstRow | core/QueryBuilder.php:259 | `fetch() ?: null`: a missing row and an empty row are both null |
| Repositories.FindsAccumulate | core/BaseRepository.php:33-38 | lookups through one repository never reset the builder: each adds one `id = ?` condition and its value |
| Repositories.FindOnFreshRepository | core/BaseRepository.php:33-38 | the first find gives `SELECT * FROM t WHERE id = ? LIMIT 1` with the key |
| Repositories.SecondFindConjoins | core/BaseRepository.php:33-38 | a second find on the same repository gives `… WHERE id = ? AND id = ? LIMIT 1` with both keys |
| Repositories.Repository.constructor | core/BaseRepository.php:18-25 | a repository's builder is bound to its table and has nothing else |
| Repositories.Repository.New | core/BaseRepository.php:18-25 | without a table the constructor throws `Repository must define a protected $table property.` |
| Repositories.Repository.Find | core/BaseRepository.php:33-38 | adds `id = ?` to the shared builder and returns what `first` reads, the key being the last parameter |
| Repositories.Repository.All | core/BaseRepository.php:45-48 | the rows of the builder's current SELECT |
| Repositories.Repository.Save | core/BaseRepository.php:59-67 | with a non-null `id`, an UPDATE restricted by it whose last parameter is the key (the guard never fires); otherwise an INSERT of the row, builder unchanged |
| Repositories.Repository.Delete | core/BaseRepository.php:75-80 | a DELETE restricted by the key; the guard never fires |
| Repositories.EmailLookupOnFreshRepository | app/repositories/UserRepository.php:16-23 | the first email lookup is `SELECT * FROM user WHERE email = ? LIMIT 1` |
| Repositories.UserRepository.constructor | app/repositories/UserRepository.php:9 | bound to table `user` |
| Repositories.UserRepository.FindUserByEmail | app/repositories/UserRepository.php:16-23 | adds `email = ?`; no row gives null, a row gives its hydrated user or the hydration exception |
| Repositories.UserRepository.FindUserById | app/repositories/UserRepository.php:25-34 | the same through `find` with the id |
| Repositories.BookStatusRepository.constructor | app/repositories/BookStatusRepository.php:9 | bound to table `book_status` |
| Repositories.BookStatusRepository.FindStatusById | app/repositories/BookStatusRepository.php:16-20 | `find` with the id; a falsy row gives null, otherwise the hydrated status |
| Repositories.BookRepository.constructor | app/repositories/BookRepository.php:16-21 | three distinct builders bound to `book`, `user` and `book_status` |
| Repositories.LinkedUser | app/repositories/BookRepository.php:27-28 | a user that `setUser` accepts has an id, so the book can copy it |
| Repositories.HydrateRowSucceeds | app/repositories/BookRepository.php:23-34 | `hydrate` on values succeeds exactly when the row makes a book with both ids set and both lookups return an entity with an id; the book is then the row's entity carrying the ids of its user and status, and each shared builder gains one `id = ?` condition on the row's id |
| Repositories.MissingLinkRejected | app/repositories/BookRepository.php:28-31 | a missing user row ends `hydrate` with the TypeError of `setUser(null)`; a missing status row, once the user is found, with that of `setStatus(null)` |
| Repositories.MapRowsFailed | app/repositories/BookRepository.php:45 | once a row has thrown, the remaining rows change neither the builders nor the outcome |
| Repositories.MapRowsOnePerRow | app/repositories/BookRepository.php:45 | a successful `array_map` gives exactly one result per row, each the step's result on its row from the state the rows before it left |
| Repositories.MapRowsFirstFailure | app/repositories/BookRepository.php:45 | a failed `array_map` throws the exception of the first row whose step fails, every earlier row having succeeded |
| Repositories.MapRowsGrow | app/repositories/BookRepository.php:45 | when every step grows a measured list by a fixed part, the whole map grows it by that part once per row |
| Repositories.HydrateRowsGrowBuilders | app/repositories/BookRepository.php:45 | hydrating n rows successfully adds exactly n `id = ?` conditions to the shared user builder and n to the status builder |
| Repositories.ShownIsLinked | app/repositories/BookRepository.php:23-34 | a book built by a successful `hydrate` is linked: its user and status ids are those of the linked entities |
| Repositories.BookRepository.LinkUser | app/repositories/BookRepository.php:27-28 | an unset `user_id` throws and changes nothing; otherwise the user builder gains `id = ?` and, as the value-level lookup says, either its exception is thrown with the book's other properties kept, or the book is linked to a new user in the found state and carries its id |
| Repositories.BookRepository.LinkStatus | app/repositories/BookRepository.php:30-31 | the same for the status: a missing status row is the `setStatus(null)` TypeError, and a found status's id becomes the book's `status_id` |
| Repositories.BookRepository.NewWithUser | app/repositories/BookRepository.php:25-28 | building the book from the row and linking its user behaves exactly as the value-level first half of `hydrate` says, success and every failure |
| Repositories.BookRepository.Hydrate | app/repositories/BookRepository.php:23-34 | both shared builders end in the state `hydrate` on values gives; it throws exactly what that gives, and on success returns a new book linked to a new user and status showing the value-level result |
| Repositories.BookRepository.FindBookById | app/repositories/BookRepository.php:36-40 | no row gives null and leaves the user and status builders alone; a found row is hydrated as `Hydrate` says, the book showing that row's result |
| Repositories.BookRepository.HydrateNext | app/repositories/BookRepository.php:45 | hydrating the next row extends the `array_map` fold by that row, its book showing the row's result |
| Repositories.BookRepository.HydrateAll | app/repositories/BookRepository.php:45 | the loop ends in the builders' state of the fold; it throws the fold's exception, or returns one new book per row, book k showing row k's result |
| Repositories.BookRepository.FindByUser | app/repositories/BookRepository.php:42-46 | adds `user_id = ?` to the book builder and selects; then every selected row is hydrated as `HydrateAll` says |
| Configuration.Setting | core/Config.php:41-44 | a value is non-null exactly when the key is stored with a non-null value |
| Configuration.StoredNullIsAbsent | core/Config.php:43 | a key stored as null reads exactly like an absent key |
| Configuration.Config.constructor | core/Config.php:9 | no settings at first |
| Configuration.Config.LoadFromFile | core/Config.php:21-31 | a missing or non-array file throws its message and keeps the settings; otherwise the settings are replaced, not merged |
| Configuration.Config.Get | core/Config.php:41-44 | the stored value, or null for an absent key |
| Singletons.Instance.Wakeup | core/Singleton.php:16-19 | always throws `Cannot unserialize singleton` |
| Singletons.Registry.constructor | core/Singleton.php:9 | no instances at first |
| Singletons.Registry.GetInstance | core/Singleton.php:25-34 | creates an instance only when the class has none, returns the registered one otherwise, and leaves other classes' entries unchanged |
| Urls.ActionUrl | app/helpers/url_helper.php:9-18 | base + `/` + the action without its leading slashes, followed by `?` and the query only when there are parameters |
| Urls.ActionLeadingSlashesIgnored | app/helpers/url_helper.php:12 | however many leading slashes the action has, the URL is the same |
| Urls.QueryMarkOnlyWithParams | app/helpers/url_helper.php:13-16 | for a base and action without `?`, the URL holds `?` exactly when there are parameters |
| Urls.ImgUrlShape | app/helpers/url_helper.php:25 | every image URL starts with base + `/public/img/`, with no further slash after it |
| Urls.ImgLeadingSlashesIgnored | app/helpers/url_helper.php:25 | leading slashes of the image path do not matter |
| Errors.Rows | core/ErrorHandler.php:85-92 | at most 11 lines, none when the window is empty; line numbers run from `max(0, line-6)+1` within the file and within 5 lines of the error; only the error line is highlighted |
| Errors.OneHighlight | core/ErrorHandler.php:90 | at most one line is highlighted |
| Errors.ErrorLineShown | core/ErrorHandler.php:85-92 | an error line inside the file is always shown, highlighted, with its own text |
| Errors.SnippetShape | core/ErrorHandler.php:82-95 | a missing file gives `Code unavailable.`; otherwise the snippet is wrapped in `<pre>` |
| Errors.CodeSnippet | core/ErrorHandler.php:80-96 | the loop's output equals the rendering of the window's rows |
| Errors.Handle | core/ErrorHandler.php:14-24 | the error page (status 500, escaped message, location, snippet, escaped trace with line breaks) exactly when `APP_ENV` is the string `development`; otherwise a log entry and the generic message |

## Left out

- PDO is not modelled. Statements are answered by a `Connection` oracle, and connection errors are not modelled.
- `get`'s debug dump and `die` (core/QueryBuilder.php:183) are not modelled. `get` is modelled as returning the rows its statement selects.
- Router I/O is not modelled: `header`, `readfile`, `echo` and `exit`. Dispatch returns the response as a value, `mime_content_type` is the `detect` parameter, and file existence is the `files` set.
- The request URI is taken as the path. A query string in `REQUEST_URI` is not separated.
- The `callable` type check of `addRoute` and the instantiation of controller classes are not modelled. Controller callbacks are kept as names.
- Integer keys in a routes file are not modelled; keys are strings.
- Routing.Basename does not drop trailing slashes as PHP's `basename` does. The path given to `pathinfo` always names an existing regular file, so it never ends in `/`.
- Loading a routes file or a configuration file is an input (missing, not an array, or the array); `require` itself is not modelled.
- `BaseEntity::toArray` (`get_object_vars`) is not modelled. It reflects over object properties, which Dafny has no counterpart for.
- The views, the controllers, `View`, `Database` and the front controller are not modelled.
- Entities.IntParam: coercion covers integers and integer-numeric strings (optional sign) only. Floats, booleans, leading or trailing whitespace and numeric strings with a fraction or exponent, and leading-numeric strings (`12abc`, which PHP 8 coerces to 12 with only a warning) are not modelled; the model refuses the last with a TypeError.
- Php values: `Value.Int` is an unbounded integer. PHP's 64-bit `int` and its overflow to float are not modelled, except that a numeric string beyond the 64-bit range is refused by an `int` parameter.
- Entities.StringParam: an integer is accepted through its decimal text. Floats and booleans are not modelled.
- app/entities/BookStatusEntity.php is not part of this model. Only what other files use is modelled: a nullable `id`, its `setId(int)` and `getId(): int`.
- `htmlspecialchars`, `nl2br` and `http_build_query` are uninterpreted functions. Errors uses one `escape` for all three `htmlspecialchars` calls, although core/ErrorHandler.php passes `ENT_QUOTES` and `UTF-8` to two of them (message and trace) and the defaults to the snippet's. The HTML template of the error page, `http_response_code`, the log file and the clock are left out; the timestamp is an input.
- `getCodeSnippet` on a file that exists but cannot be read (`file` returning false) is not modelled.
- Singletons.Registry: instances are identified by class name only. The construction of the concrete subclass (`new static()`) is not modelled, and neither is `__clone`.
- Strings are ASCII text: `strtoupper`, `strtolower`, `ucwords` and `lcfirst` act on ASCII letters only.
- Entities.ArgumentError: the TypeError message stops after the given type; PHP's `, called in … on line …` suffix (a file and line) is not modelled.
