# coursera_go homework, modelled in Dafny

This project models the core of six Go homework programs and proves properties of the model:

- **hw1_tree** prints a directory tree. Each entry gets a `├───` or `└───` label. Files show their size, or `(empty)`. Children are indented with `│\t` or `\t`. Files are dropped unless they are asked for.
- **hw2_signer** computes signatures in a pipeline.
  - SingleHash and MultiHash run their crc32/md5 calls in goroutines and put each result back into its slot.
  - CombineResults sorts the hashes and joins them with `_`.
- **hw3_bench** (FastSearch) reads users line by line. It reports the users who have both an Android and an MSIE browser, and it counts the distinct browsers of either kind.
- **hw4_test_coverage** is the search server used as the test double.
  - It checks the access token and the query parameters.
  - It filters rows by name or about text and sorts them by Name, Id or Age.
  - It slices the page by offset and limit.
- **hw5_codegen** has two parts:
  - the tag-reading helpers of the handler generator;
  - the HTTP layer it generated: the Unmarshall validators of the parameter structs, the handlers' decision order (method, then auth, then parameters) and the ServeHTTP routing.
- **hw6_db_explorer** builds UPDATE and INSERT statements from a JSON body and the table's column info. It also routes URL paths to actions, reads the paging parameters, and decides the status codes of the update and create handlers (400 for a body it refuses, a panic when an insert has no column).

The modules are:

- `Signer`, `LogScan`, `SearchServer`, `ApiHandlers`, `Codegen`, `DbExplorer` and `DirTree` model the programs.
- `GoStrings`, `Strconv` and `UrlValues` state the behaviour of the Go library calls the programs use. Examples: `strings.Split` always returns at least one part, `strings.Contains(s, "")` is true, `len` counts UTF-8 bytes, and `strconv.Atoi` accepts an optional sign and refuses `""`.
- `Seqs`, `Sorting` and `Wrappers` are shared helpers.

Where the Go code loops and updates variables, the model is a method with a loop that is proved against a specification function. Examples: `FastSearch`, `FilterByQuery`, `PrimaryKey`, `UpdateTableContent`, `CreateTableContent`, `DropFiles`, `FillSlots` and the `Get*` tag readers. The parameter structs are classes whose `Unmarshall` methods assign their fields. The search server's sort works in place on an array.

Some behaviours of the code are kept as written:

- `createTableContent` fills an absent NOT NULL column with `1` or `""`, and this includes an absent primary key.
- When no column is collected, `createTableContent` slices an empty string at `[:-1]`, which panics.
- `updateTableContent` refuses a body that names the primary key, with the ordinary "have invalid type" message.
- In the search server, `order_by`, `offset` and `limit` must all be present and be integers.
- A negative `limit`, or an `offset` past the filtered rows, panics at the slice.
- The path `/t/` with GET reaches `strconv.Atoi("")` and answers 400.

## Model

| member | source | states |
|---|---|---|
| Signer.FillSlots | hw2_signer/signer.go:40-45 | whatever order the goroutines' results arrive in, as long as each index arrives once, the slots end up holding exactly the digest computed for each index |
| Signer.ArriveIsPermutation | hw2_signer/signer.go:29-41 | the results that arrive on the channel, in any completion order, are a permutation of the tagged results |
| Signer.ArrivedRecord | hw2_signer/signer.go:12-15 | every record that arrives carries a valid index and the digest computed for that index |
| Signer.EveryIndexArrives | hw2_signer/signer.go:40-45 | every index has a record among those that arrive, so no slot is left empty |
| Signer.SingleHashItem | hw2_signer/signer.go:17-50 | for every order in which the two crc32 branches finish, the result is crc32(data) + "~" + crc32(md5(data)) |
| Signer.SingleHashSplit | hw2_signer/signer.go:45 | when neither digest contains "~", splitting a SingleHash result at "~" gives back the two digests |
| Signer.MultiHashItem | hw2_signer/signer.go:66-95 | for every order in which the six crc32 calls finish, the result is the concatenation of crc32(th+data) for th = 0..5, in th order |
| Signer.ConcatSlots | hw2_signer/signer.go:87-89 | appending the slots one by one gives their concatenation in slot order |
| Signer.ConcatPrefix | hw2_signer/signer.go:87-89 | the concatenation of the first j digests is a prefix of the whole MultiHash result |
| Signer.MultiHashSegment | hw2_signer/signer.go:76-89 | the digest of step th appears in the result right after the digests of the steps before it |
| Signer.StageResults | hw2_signer/signer.go:20-49 | a stage whose workers finish in any order emits the per-input results as a permutation of mapping the job over its input |
| Signer.SingleHashStage | hw2_signer/signer.go:17-50 | the SingleHash stage emits one result per input, and its results are a permutation of SingleHash of each input |
| Signer.MultiHashStage | hw2_signer/signer.go:66-95 | the MultiHash stage emits one result per input, and its results are a permutation of MultiHash of each input |
| Signer.CombineResults | hw2_signer/signer.go:97-105 | the collected results are sorted and joined with "_"; no input gives "" |
| Signer.CombinePermutationInvariant | hw2_signer/signer.go:97-105 | CombineResults does not depend on the order in which results arrive |
| Signer.CombineSplit | hw2_signer/signer.go:97-105 | splitting the combined string at "_" gives the inputs, sorted, when no input holds "_" |
| Signer.Pipeline | hw2_signer/signer.go:108-142 | for every scheduling of the goroutines, the pipeline's answer is CombineResults of MultiHash of SingleHash of each input |
| Strconv.AtoiItoa | hw2_signer/signer.go:21 | strconv.Atoi reads the text strconv.Itoa writes for an int64 back as the same integer |
| Strconv.AtoiRejects | hw5_codegen/api_handlers.go:182-185 | Atoi refuses the empty text and any text with a character that is neither a digit nor a leading sign |
| Strconv.DigitsOfNat | hw2_signer/signer.go:21 | the decimal digits written for a natural number have that number as their value |
| GoStrings.JoinSplit | hw5_codegen/handlers_gen/codegen.go:391-403 | joining the parts of a split with the same separator gives back the text |
| GoStrings.SplitJoin | hw5_codegen/handlers_gen/codegen.go:391-403 | splitting joined parts at a separator none of them contains gives the parts back |
| GoStrings.SplitPrefix | hw2_signer/signer.go:45 | splitting a + sep + b gives a followed by the parts of b, when a holds no sep |
| GoStrings.ReplaceCharRemoves | hw3_bench/fast.go:83 | after every "@" is replaced by a text without "@", no "@" is left |
| GoStrings.LessEqTotalOrder | hw2_signer/signer.go:102 | byte-wise string comparison, which sort.Strings uses, is a total order |
| Sorting.SortInPlace | hw4_test_coverage/client_test.go:177-209 | sort.Slice leaves the array sorted by the comparison and a permutation of what it held |
| Sorting.SortedUnique | hw4_test_coverage/client_test.go:172-218 | two sequences sorted by the same antisymmetric order with the same elements are equal |
| Sorting.SortedByKey | hw4_test_coverage/client_test.go:172-218 | any result of an unstable sort by a key has its keys in the one sorted order of the input's keys |
| ApiHandlers.EnumMembership | hw5_codegen/api_handlers.go:177-180 | the generated substring test on "\|a\|b\|…\|" admits a value without a bar exactly when it is one of the options |
| ApiHandlers.StatusEnum | hw5_codegen/api_handlers.go:177-180 | among values without a bar, the status test admits exactly "user", "moderator" and "admin" |
| ApiHandlers.ClassEnum | hw5_codegen/api_handlers.go:218-222 | among values without a bar, the class test admits exactly "warrior", "sorcerer" and "rouge" |
| ApiHandlers.StatusRunAdmitted | hw5_codegen/api_handlers.go:177-180 | the substring test also admits a run of options joined by "\|", which a plain membership test would refuse |
| ApiHandlers.CreateAccepts | hw5_codegen/api_handlers.go:157-197 | CreateParams accepts exactly a login of at least 10 bytes, a status in the enum (empty counts as "user") and an integer age from 0 to 128 |
| ApiHandlers.CreateErrorOrder | hw5_codegen/api_handlers.go:159-167 | a missing login is reported first, then a short one, before the status and the age are looked at |
| ApiHandlers.EmptyStatusIsUser | hw5_codegen/api_handlers.go:171-175 | an empty status defaults to "user", which passes the enum check |
| ApiHandlers.OtherCreateAccepts | hw5_codegen/api_handlers.go:199-239 | OtherCreateParams accepts exactly a username of at least 3 bytes, a class in the enum (empty counts as "warrior") and an integer level from 1 to 50 |
| ApiHandlers.ProfileParams.Unmarshall | hw5_codegen/api_handlers.go:146-155 | the login is read from the query, and the only error is an empty login |
| ApiHandlers.CreateParams.Unmarshall | hw5_codegen/api_handlers.go:157-197 | the error returned is the first failed check; the fields hold what was read up to that check and keep their old values beyond it |
| ApiHandlers.OtherCreateParams.Unmarshall | hw5_codegen/api_handlers.go:199-239 | the error returned is the first failed check; the fields hold what was read up to that check and keep their old values beyond it |
| ApiHandlers.CreateReplyOrder | hw5_codegen/api_handlers.go:62-102 | a create request is refused with 406 "bad method" for a method other than POST, then with 403 "unauthorized" for a bad X-Auth, then with 400 and the first validation error; only valid parameters reach the business method |
| ApiHandlers.ProfileHandler | hw5_codegen/api_handlers.go:23-60 | the handler's steps give the reply ProfileReply defines, whose meaning ProfileReplyOrder states |
| ApiHandlers.ProfileReplyOrder | hw5_codegen/api_handlers.go:23-60 | a method other than GET or POST gets 406 with the plain text "Bad method"; GET reads the login from the URL query only, so the body does not matter; POST reads r.Form, which gives the body's login when the body has one and the query's otherwise; an empty login gets 400 "login must me not empty"; any other login is passed to the business method and its outcome answered |
| UrlValues.ParseFormGet | hw5_codegen/api_handlers.go:34-35 | after ParseForm, r.Form holds a key's body values followed by its query values, so Get gives the body's first value when there is one and the query's otherwise |
| ApiHandlers.CreateHandler | hw5_codegen/api_handlers.go:62-102 | the answer is the method check, then the auth check, then validation, then the business call with the validated fields |
| ApiHandlers.OtherCreateHandler | hw5_codegen/api_handlers.go:104-144 | the handler's steps give the reply OtherCreateReply defines, whose meaning OtherCreateReplyOrder states |
| ApiHandlers.OtherCreateReplyOrder | hw5_codegen/api_handlers.go:104-144 | a request is refused with 406 "bad method" for a method other than POST, then with 403 "unauthorized" for a bad X-Auth, then with 400 and the first validation error; only valid parameters reach the business method |
| ApiHandlers.MyApiServeHttp | hw5_codegen/api_handlers.go:241-251 | /user/profile and /user/create reach their handlers; every other path gets 404 "unknown method" |
| ApiHandlers.OtherApiServeHttp | hw5_codegen/api_handlers.go:253-261 | /user/create reaches its handler; every other path gets 404 "unknown method" |
| Codegen.ParseTags | hw5_codegen/handlers_gen/codegen.go:391-403 | a tag is cut into at least one part, and no part holds a quote or a backquote |
| Codegen.ParseTagsJoin | hw5_codegen/handlers_gen/codegen.go:391-403 | joining the parts with "," gives back the cleaned tag |
| Codegen.ParseTagsNoComma | hw5_codegen/handlers_gen/codegen.go:391-403 | no part holds a comma |
| Codegen.FirstContaining | hw5_codegen/handlers_gen/codegen.go:328-336 | the index found is the first part containing the key, and when none is found no part contains it |
| Codegen.FindTagValue | hw5_codegen/handlers_gen/codegen.go:328-372 | the loop returns the first part containing the key with the key removed once, or the fallback |
| Codegen.TagValueAbsent | hw5_codegen/handlers_gen/codegen.go:335 | when no part contains the key, the fallback is returned |
| Codegen.TagValueFirst | hw5_codegen/handlers_gen/codegen.go:330-333 | when part k is the first one containing the key, that part is returned with the key removed once |
| Codegen.KeyPrefixStripped | hw5_codegen/handlers_gen/codegen.go:332 | a part that starts with the key gives the text after it |
| Codegen.GetMax | hw5_codegen/handlers_gen/codegen.go:328-336 | the first "max=" value, or "" |
| Codegen.GetMin | hw5_codegen/handlers_gen/codegen.go:337-345 | the first "min=" value, or "" |
| Codegen.GetEnum | hw5_codegen/handlers_gen/codegen.go:346-354 | the first "enum=" value, or "" |
| Codegen.GetParamName | hw5_codegen/handlers_gen/codegen.go:355-363 | the first "paramname=" value, or the field's name in snake case |
| Codegen.GetDefaultName | hw5_codegen/handlers_gen/codegen.go:364-372 | the first "default=" value, or "" |
| Codegen.GetRequired | hw5_codegen/handlers_gen/codegen.go:382-389 | true exactly when some part contains "required" |
| Codegen.IsParamStructFirstField | hw5_codegen/handlers_gen/codegen.go:405-418 | only the first field's tag decides; no fields, or a first field without a tag, is not a parameter struct |
| Codegen.ReadField | hw5_codegen/handlers_gen/codegen.go:311-323 | a field's parameters are its type name, its first name and the values read from its tag |
| Codegen.ReadAllInOrder | hw5_codegen/handlers_gen/codegen.go:310-324 | reading fails exactly when some field cannot be read; otherwise it gives one result per field, in order |
| Codegen.GetFieldParamsInOrder | hw5_codegen/handlers_gen/codegen.go:306-326 | the parameters collected are those of each field, in field order, or nothing when some field has no tag, no name or a type that is not a plain identifier |
| Codegen.GetFieldParams | hw5_codegen/handlers_gen/codegen.go:306-326 | the struct's name with the parameters of every field, or the panic case |
| Codegen.UnreadableStays | hw5_codegen/handlers_gen/codegen.go:312-316 | one field without a tag, without a name or with a type that is not a plain identifier makes the whole struct fail |
| DbExplorer.PrimaryKey | hw6_db_explorer/db_explorer.go:189-194 | the loop picks the primary-key column |
| DbExplorer.PrimaryKeyIsLastPri | hw6_db_explorer/db_explorer.go:189-194 | the primary-key column is the last column marked PRI, or "" when there is none |
| DbExplorer.ColumnArgRefuses | hw6_db_explorer/db_explorer.go:199-219 | a value is refused exactly when it is a non-number for an int column, or null for a NOT NULL text column, or neither null nor a string for a text column; the message is "field f have invalid type" |
| DbExplorer.CollectStep | hw6_db_explorer/db_explorer.go:196-226 | one more column either is skipped, or adds its column and value, or stops with its error |
| DbExplorer.CollectAligned | hw6_db_explorer/db_explorer.go:196-226 | the statement has as many values as columns |
| DbExplorer.CollectAt | hw6_db_explorer/db_explorer.go:196-226 | an emitted column sits at the position counted by the columns before it that were not skipped, with its own value at the same position |
| DbExplorer.CollectAccepts | hw6_db_explorer/db_explorer.go:196-226 | when no column is refused, the statement is built |
| DbExplorer.CollectRejects | hw6_db_explorer/db_explorer.go:196-226 | one refused column makes the whole statement fail |
| DbExplorer.UpdateTableContent | hw6_db_explorer/db_explorer.go:186-230 | the loop builds the UPDATE statement, or the first decoding error |
| DbExplorer.UpdateColumns | hw6_db_explorer/db_explorer.go:196-226 | the loop over the schema yields the SET columns with their values, or stops at the first refused column with its DecodingError message |
| DbExplorer.UpdateSetsPresentColumns | hw6_db_explorer/db_explorer.go:196-226 | the SET columns are the table's columns named in the body, in table order |
| DbExplorer.PresentCount | hw6_db_explorer/db_explorer.go:196-226 | the number of SET columns before a column is the number of earlier columns named in the body |
| DbExplorer.UpdateTakesGivenValues | hw6_db_explorer/db_explorer.go:196-226 | a column named in the body is set, at its place among the SET columns, to the value the body gives for it |
| DbExplorer.UpdateRefusesPrimaryKey | hw6_db_explorer/db_explorer.go:221-223 | a body that names the primary key is refused |
| DbExplorer.UpdateIgnoresUnknownKeys | hw6_db_explorer/db_explorer.go:196-197 | keys of the body that are not columns of the table change nothing |
| DbExplorer.UpdatePlaceholders | hw6_db_explorer/db_explorer.go:227-230 | the SET clause is "c=?" for every column, joined by "," |
| DbExplorer.CreateTableContent | hw6_db_explorer/db_explorer.go:271-321 | the loop builds the INSERT statement, or the first decoding error, or the slice panic |
| DbExplorer.InsertColumns | hw6_db_explorer/db_explorer.go:280-312 | the loop over the schema yields the columns to insert with their values, defaults included, or stops at the first refused column |
| DbExplorer.CreateColumns | hw6_db_explorer/db_explorer.go:280-312 | the inserted columns are those named in the body, except the primary key, plus every absent NOT NULL column, in table order |
| DbExplorer.InsertedCount | hw6_db_explorer/db_explorer.go:280-312 | the number of inserted columns before a column is the number of earlier columns the create rule keeps |
| DbExplorer.CreateFillsMissing | hw6_db_explorer/db_explorer.go:305-312 | every absent NOT NULL column is inserted, at its place among the inserted columns, with 1 when it is an int column and with "" otherwise |
| DbExplorer.CreateTakesGivenValues | hw6_db_explorer/db_explorer.go:281-303 | a column named in the body, other than the primary key, is inserted at its place with the value the body gives for it |
| DbExplorer.CreateDropsGivenPrimaryKey | hw6_db_explorer/db_explorer.go:281-282 | a primary key given in the body is not inserted |
| DbExplorer.InsertPlaceholders | hw6_db_explorer/db_explorer.go:316-317 | for n columns the VALUES list is n "?" joined by "," |
| DbExplorer.CreateWithoutColumnsPanics | hw6_db_explorer/db_explorer.go:280-317 | the slice of the placeholder string panics exactly when every column the body names is the primary key and every column it leaves out is nullable (an empty body, a body of unknown keys, or one naming only the primary key, on such a table) |
| DbExplorer.NothingCollected | hw6_db_explorer/db_explorer.go:196-226 | when every column is skipped, the statement has no columns and no values |
| DbExplorer.UpdateHandlerRefuses | hw6_db_explorer/db_explorer.go:155-184 | an update is answered 400 exactly when the body names the primary key or gives a value of the wrong type for a column of the table |
| DbExplorer.CreateHandlerRefuses | hw6_db_explorer/db_explorer.go:244-269 | a create is answered 400 exactly when the body gives a value of the wrong type for a column other than the primary key |
| DbExplorer.Route | hw6_db_explorer/db_explorer.go:70-115 | only "/" lists the tables; listing and reading need GET, update POST, delete DELETE and create PUT, each on a known table; a refused id comes only with GET, POST or DELETE and is a text Atoi refuses |
| DbExplorer.RouteUnknownTable | hw6_db_explorer/db_explorer.go:75-81 | a path whose first segment is not a table gets 404 "unknown table", answered at once |
| DbExplorer.RouteTable | hw6_db_explorer/db_explorer.go:82-86 | "/table" with GET lists the records, and with any other method does nothing, which answers an empty 200 |
| DbExplorer.RouteRecord | hw6_db_explorer/db_explorer.go:88-111 | "/table/x" with GET, POST or DELETE needs x to be an integer, else it is answered 400 at once; the id then selects get, update or delete |
| DbExplorer.PagingDefaults | hw6_db_explorer/db_explorer.go:507-523 | limit and offset are read with Atoi; a missing or unreadable value gives 5 and 0 |
| SearchServer.ToUser | hw4_test_coverage/client_test.go:162-170 | the user's name is first name, a space and last name; id, age, about and gender are copied |
| SearchServer.FilterByQuery | hw4_test_coverage/client_test.go:44-57 | the loop keeps the matching rows in order, and an empty query keeps them all |
| SearchServer.SelectedMembers | hw4_test_coverage/client_test.go:50-54 | a row is kept exactly when it is among the rows and its full name or about contains the query |
| SearchServer.SelectedConcat | hw4_test_coverage/client_test.go:50-54 | filtering keeps the rows' order |
| SearchServer.SelectedEmptyQuery | hw4_test_coverage/client_test.go:46-48 | the empty query keeps every row |
| SearchServer.KeyOrderIsOrder | hw4_test_coverage/client_test.go:172-218 | the comparisons on names and numbers, ascending or descending, are total, transitive and antisymmetric |
| SearchServer.RowOrderIsOrder | hw4_test_coverage/client_test.go:172-218 | comparing rows by one field is total and transitive |
| SearchServer.SortRows | hw4_test_coverage/client_test.go:172-218 | an unknown field gives ErrorBadOrderField and leaves the rows alone; order_by other than ±1 leaves them alone; otherwise they are sorted by the field and permuted |
| SearchServer.SortedRowKeys | hw4_test_coverage/client_test.go:177-209 | every sorted result has the same sequence of keys, whatever the unstable sort does with ties |
| SearchServer.TiesEitherOrder | hw4_test_coverage/client_test.go:204-209 | two rows with the same age are sorted in either order |
| SearchServer.Validate | hw4_test_coverage/client_test.go:58-107 | the parameters are accepted exactly when the token is not empty, the query is not one of the three test hooks, order_by is -1, 0 or 1, offset is an integer of at least 0 and limit is an integer; the query and order_field are kept as given |
| SearchServer.ValidateAccepts | hw4_test_coverage/client_test.go:58-107 | an empty token is 401; accepted parameters have order_by in -1..1, offset ≥ 0, and each is the integer read from the query |
| SearchServer.ValidateNeedsOrderBy | hw4_test_coverage/client_test.go:84-88 | a request without order_by is refused |
| SearchServer.Page | hw4_test_coverage/client_test.go:132-135 | the page is the rows from offset on, at most limit of them |
| SearchServer.SortSelected | hw4_test_coverage/client_test.go:118-124 | an unknown order field is ErrorBadOrderField; otherwise the rows come back permuted, unchanged unless order_by is ±1, and then sorted by the field |
| SearchServer.PageOfUsers | hw4_test_coverage/client_test.go:129-139 | the users of the rows from offset on, at most limit of them; an offset past the end or a negative limit panics |
| SearchServer.SearchService | hw4_test_coverage/client_test.go:58-145 | failed checks answer their error; otherwise the filtered rows are sorted as asked, then paged; an offset past the end or a negative limit panics |
| LogScan.ScanBrowsers | hw3_bench/fast.go:61-78 | the flags record whether some browser contains "Android" or "MSIE", and the seen set gains exactly this user's browsers of either kind |
| LogScan.ScanStep | hw3_bench/fast.go:47 | one more line adds that user's counted browsers to the distinct browsers |
| LogScan.FastSearch | hw3_bench/fast.go:35-88 | the output is the header, then one line per reported user with its line index, then the count of distinct browsers |
| LogScan.FoundLinesConcat | hw3_bench/fast.go:50-53 | line numbers count all lines read, reported or not |
| LogScan.FoundLinesSingle | hw3_bench/fast.go:80-83 | a user is printed exactly when both kinds of browser occur among theirs |
| LogScan.LineHidesAt | hw3_bench/fast.go:83 | a printed e-mail holds no "@" |
| LogScan.CountedBrowsers | hw3_bench/fast.go:61-78 | a browser of any user is counted exactly when it contains "Android" or "MSIE", whether or not its user is reported |
| LogScan.UncountedBrowsers | hw3_bench/fast.go:61-78 | a browser of neither kind is never counted |
| DirTree.DropFiles | hw1_tree/main.go:41-48 | the loop that removes in place keeps exactly the directories, in order |
| DirTree.DirsMembers | hw1_tree/main.go:41-48 | an entry survives exactly when it is among the entries and is a directory |
| DirTree.DirsConcat | hw1_tree/main.go:41-48 | dropping files keeps the entries' order |
| DirTree.DirsOfDirs | hw1_tree/main.go:41-48 | a list of directories only is left as it is |
| DirTree.LabelShape | hw1_tree/main.go:72-87 | myPrint's line starts with "└───" for the last entry and "├───" for the others, then the name; a directory gets nothing more, an empty file " (empty)", another file " (<size>b)" whose digits read back as the size; the line ends with a newline |
| DirTree.PrintDirTree | hw1_tree/main.go:34-70 | the text written is the rendering of the tree: one line per visible entry, depth first, each starting with its indentation |
| DirTree.DirTreeOf | hw1_tree/main.go:25-32 | the tree starts with no indentation |
| DirTree.TreeLinesIndented | hw1_tree/main.go:50-51 | every line of a subtree starts with the indentation it was given |
| DirTree.SubLinesIndented | hw1_tree/main.go:53-59 | the children of the last entry are indented by "\t", and those of the others by "│\t" |
| DirTree.TreeLinesCount | hw1_tree/main.go:34-70 | one line is printed per directory, and per file when files are printed |
| DirTree.CountVisible | hw1_tree/main.go:41-48 | dropping the files does not change what is counted |

## Left out

- Goroutines, channels, the mutex and sync.WaitGroup are not modelled as such. Each scheduling is a parameter: the order in which results arrive or workers finish. The proofs hold for every such order.
- ExecutePipeline's wiring of channels between arbitrary jobs, and the timing limits in main, are left out. `Signer.Pipeline` composes the three stages directly.
- DataSignerCrc32 and DataSignerMd5 are opaque functions given as parameters. Md5 is only called one at a time, and that is a timing concern.
- HTTP plumbing is left out: writers, headers, JSON encoding of bodies, and reading and closing request bodies. Replies are values.
  - ParseForm's decoding of the request body (content types, multipart, size limits) is left out. The body's url-encoded values are the request's `postForm`; only how r.Form merges them with the query is modelled.
- The SQL layer is left out: executing statements, LastInsertId, RowsAffected, reading rows and table info, and database errors.
  - Database errors are a parameter of `DbExplorer.UpdateHandlerStatus` and `DbExplorer.CreateHandlerAnswer`; they give 500. A body that does not decode as JSON is `None` there, and also gives 500.
  - The update handler's errIDNotAllowed branch is not modelled: updateTableContent never returns that error, and a body naming the primary key already gets a DecodingError.
  - deleteTableContentById, getTableContent and getTableContents are left out beyond their idColumn loop and paging.
  - utils.go is left out.
- JSON numbers are modelled as integers. The float64-to-int truncation of `int(val)` is not modelled.
- The generator's use of go/ast and its templates is left out. Only the tag-reading helpers and isParamStruct are modelled.
- ToSnakeCase is a parameter, because its regexp rewriting is not modelled.
- FastSearch's easyjson decoding and bufio reading are not modelled. The model takes the decoded users.
  - Fields that the reused `user` value keeps from an earlier line when a later line omits them are not modelled.
  - ReadLine's isPrefix for very long lines is not modelled.
- FastSearch's regexp replacement of "@" is modelled as a plain text replacement. The replacement text has no `$` expansions.
- The search server's reading of dataset.xml, and its "timeout" sleep, are left out. The rows are a parameter.
  - The error branch that writes 500 and then carries on is not modelled.
  - The Row fields the server never reads are left out.
- ReadDir errors, and the log.Fatal they cause, are left out. The order ReadDir returns is taken to be the children's order.
- main's reading of os.Args is left out.
- `Sorting.SortInPlace` is an insertion sort, not Go's pdqsort. Only the promises of sort.Slice are relied on: the result is sorted and a permutation. `SearchServer.SortedRowKeys` shows which key sequence any such result has.
- Strings are sequences of characters, not bytes. Go's byte-wise comparison of UTF-8 text orders strings the same way as comparing their characters, so `GoStrings.Less` compares characters. Lengths that Go counts in bytes are computed with `GoStrings.Utf8Len`.
