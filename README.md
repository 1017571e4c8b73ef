# go-db-rest-api core in Dafny

This project models two parts of a small Go REST service that runs SQL against
MySQL, PostgreSQL or SQL Server.

- **The SQL template processor.** `ProcessSQL` turns a query template and a
  parameter map into the SQL text that is executed, in two passes.
  - Pass 1 replaces every `{{main else alternative}}` block. It keeps the main
    fragment (trimmed, with a wrapping comment removed) when every `:name`
    the fragment uses is a parameter. Otherwise it takes the unquoted
    alternative, or nothing.
  - Pass 2 replaces every `:key` of every parameter with the value's literal.
- **The connection registry.** `OpenConnection` builds the data-source
  string for the configured backend, opens it and pings it. A
  `ConnectionManager` keeps the open handles by connection id.

Modules:

- `Wrappers`: `Option` and `Result`.
- `Strings`: the parts of Go's `strings` package the core uses, as
  recursive functions with their laws. These are `TrimSpace` with Go's white
  space set, `Split`, `Join`, `ReplaceAll`, `HasPrefix` and `HasSuffix`.
- `Decimal`: Go's `%d` rendering of integers, and its inverse.
- `SqlProcessor`: the template processor.
  - `Render` is the specification of the whole transformation.
  - The `ProcessSQL` method computes it with the source's loops and is
    proved equal to it. Its block scan `ReplaceBlocks` works one
    `ScanStep` at a time. Each block found goes to `ResolveBlock`, which
    runs the `HasAllParams` flag loop.
- `SqlExamples`: the cases of `handlers/sql_processor_test.go`. Each is
  proved for every template of the test's shape; the test's own strings are
  one instance.
- `DataSourceNames`: `DBConfig`, the per-backend data-source strings, and
  parsers that read the settings back.
- `Database`: handles, the driver, `OpenConnection` and `ConnectionManager`.
  They are classes with methods, as in the source.

Modelling choices:

- A Go map of parameters is a sequence of `(key, value)` pairs. The
  sequence order stands for the order in which `range` happens to visit
  the map.
- Parameter values are restricted to strings, integers, booleans and null.
  JSON arrays and objects, which the service also passes on, are left out
  (see below).
- The regular expressions are explicit scanners:
  - `CloseFrom` and `BlockAt` for the lazy `{{(.*?)}}`, which does not cross
    a newline.
  - `PlaceholderNames` for `:([a-zA-Z0-9_]+)`.
- The database library is abstract. A `Driver` opens `Handle`s and records
  every handle it has opened. What opening, pinging and closing return for
  one attempt is an `Outcome`, a parameter the caller supplies.

## Model

| member | source | states |
|---|---|---|
| SqlProcessor.StripQuotes | handlers/sql_processor.go:104-112 | exactly the first and last character are removed when the text has at least two characters and both are `'` or both are `"`; otherwise the text is returned unchanged |
| SqlProcessor.StripQuotesOfQuoted | handlers/sql_processor.go:104-112 | quoting a text with `'` or `"` and stripping the quotes gives the text back |
| SqlProcessor.NameLength | handlers/sql_processor.go:41 | the longest run of `[a-zA-Z0-9_]` at the front of a text: all of it are name characters and the next character is not |
| SqlProcessor.PlaceholderNames | handlers/sql_processor.go:41-42 | every name the placeholder scan captures is a non-empty run of name characters that follows a colon in the fragment |
| SqlProcessor.PlaceholderNamesEmpty | handlers/sql_processor.go:41-45 | the scan finds no name exactly when no colon in the text is followed by a name character |
| SqlProcessor.PlaceholderNamesSkip | handlers/sql_processor.go:41-42 | text without a colon contributes no names |
| SqlProcessor.PlaceholderNamesFront | handlers/sql_processor.go:41-42 | a colon followed by a maximal name contributes exactly that name, and the scan continues after it |
| SqlProcessor.UncommentWrapped | handlers/sql_processor.go:65-69 | one wrapping comment is removed whatever it holds |
| SqlProcessor.UncommentUnwrapped | handlers/sql_processor.go:65-69 | a fragment not wrapped in comment markers is kept as it is |
| SqlProcessor.UncommentAsWrittenAgrees | handlers/sql_processor.go:65-68 | the comment removal as written panics on exactly one text, slash-star-slash, and agrees with the corrected removal on every other text |
| SqlProcessor.ShortComment | handlers/sql_processor.go:66-67 | the only text shorter than four characters that passes both marker tests is slash-star-slash |
| SqlProcessor.SlashStarSlash | handlers/sql_processor.go:70-76 | slash-star-slash has no `else`, no surrounding white space and no placeholder, and passes both marker tests |
| SqlProcessor.BlockAsWrittenPanics | handlers/sql_processor.go:70-76 | a block whose body is slash-star-slash makes the source's callback panic: no placeholder is referenced, so the branch for placeholder-free fragments runs and slices it as [2:1] |
| SqlProcessor.BlockAsWrittenAgrees | handlers/sql_processor.go:18-79 | wherever the source's block callback does not panic, it yields the corrected block value |
| SqlProcessor.HasAllParams | handlers/sql_processor.go:44-60 | the flag loop with `break` answers true exactly when every captured name is a key of the parameters, vacuously so when none is captured |
| SqlProcessor.ResolveBlock | handlers/sql_processor.go:18-79 | the replacement callback yields the specified block value: the main fragment when all its names are present (whether or not it has any), otherwise the unquoted alternative, or nothing |
| SqlProcessor.CloseFrom | handlers/sql_processor.go:14 | the lazy `.*?` with `}}`: the result is the first `}}` at or after the position, and no newline comes before it; with no result, every later `}}` is preceded by a newline |
| SqlProcessor.ReplaceBlocksWithStep | handlers/sql_processor.go:14-16 | `ReplaceAllStringFunc` at the front of the text either hands the body of the block found there to the callback and resumes after its `}}`, or copies one character |
| SqlProcessor.ScanStep | handlers/sql_processor.go:14-80 | one step of `ReplaceAllStringFunc`: the block at the front resolved by the block callback, or one copied character, and a strictly shorter rest |
| SqlProcessor.ReplaceBlocks | handlers/sql_processor.go:14-80 | the left-to-right scan loop, resolving each block with `ResolveBlock`, computes pass 1 of the whole query |
| SqlProcessor.ProcessSQL | handlers/sql_processor.go:10-102 | the two passes, the substitution loop reassigning the query once per parameter in iteration order, yield exactly `Render(query, params)` |
| SqlProcessor.ReadLiteralOfLiteral | handlers/sql_processor.go:85-96 | the literal of a value determines the value: strings in double quotes, integers in decimal, `true`/`false`, `<nil>` |
| SqlProcessor.CloseFromReaches | handlers/sql_processor.go:14 | the block scan stops at the first `}}` when no `}` and no newline come before it |
| SqlProcessor.CloseFromStops | handlers/sql_processor.go:14 | a newline before any `}` means no block opens there |
| SqlProcessor.BlockAtFront | handlers/sql_processor.go:14-18 | a block whose body holds no `}` and no newline is matched, and its body is exactly the text between the markers |
| SqlProcessor.UnclosedAtNewline | handlers/sql_processor.go:14 | an opening `{{` whose line ends before any `}` opens no block |
| SqlProcessor.PlainTextKept | handlers/sql_processor.go:16 | text without `{` passes pass 1 unchanged |
| SqlProcessor.BlockReplaced | handlers/sql_processor.go:16-18 | a block at the front becomes the callback's value for its body, and the rest is processed after its closing marker |
| SqlProcessor.NoBlockUnchanged | handlers/sql_processor.go:14-16 | a text in which no block opens at any position (an unclosed `{{`, or one whose line ends first, included) passes pass 1 unchanged |
| SqlProcessor.NoOpenerNoBlock | handlers/sql_processor.go:14 | without `{{` no block opens at any position |
| SqlProcessor.NoOpenerUnchanged | handlers/sql_processor.go:16 | a query without `{{` passes pass 1 unchanged |
| SqlProcessor.LineBreakInBlockKept | handlers/sql_processor.go:14-16 | `{{a`, newline, `b}}` is not a block, so pass 1 keeps it as it is |
| SqlProcessor.BlocksResolvedIndependently | handlers/sql_processor.go:14-16 | for a query made of plain text and blocks, pass 1 replaces each block by the callback's value of its own body and keeps all the text in between |
| SqlProcessor.BlockWithoutElse | handlers/sql_processor.go:21-79 | without `else`, the block yields the trimmed, uncommented main fragment when all its names are present, and the empty string otherwise |
| SqlProcessor.BlockWithElse | handlers/sql_processor.go:21-79 | the main fragment ends at the first `else`; the alternative is the text between the first and second `else`, trimmed and unquoted; text after a second `else` is dropped |
| SqlProcessor.CommentedFragment | handlers/sql_processor.go:65-69 | a main fragment that is a comment between white space yields the commented text, trimmed |
| SqlProcessor.SubstituteAbsentKeys | handlers/sql_processor.go:84-99 | pass 2 leaves the query alone when no `:key` of any parameter occurs in it, so a placeholder without a matching key stays literal |
| SqlProcessor.RenderUnchanged | handlers/sql_processor.go:16-99 | a template in which no block opens and no `:key` of any parameter occurs is returned unchanged |
| SqlProcessor.RenderUnchangedWithoutOpener | handlers/sql_processor.go:16-99 | in particular, a template with no `{{` and no `:key` of any parameter is returned unchanged |
| SqlProcessor.NoColonNoKeys | handlers/sql_processor.go:98 | a text without a colon contains no `:key` of any parameter |
| SqlProcessor.SubstituteOne | handlers/sql_processor.go:84-98 | the one placeholder of a single parameter is replaced by the value's literal and the text around it is kept |
| SqlProcessor.SubstitutionOrderMatters | handlers/sql_processor.go:84-98 | `:key` is replaced as plain text, so with keys `a` and `ab` the result depends on the map's iteration order |
| SqlProcessor.ValueTextRewritten | handlers/sql_processor.go:93-98 | a string value holding `:b` is rewritten by the later parameter `b`: substituted values are not protected |
| SqlExamples.ConditionKept | handlers/sql_processor.go:21-69 | a block `cond else alt` whose condition's one name is present yields the condition |
| SqlExamples.ConditionElse | handlers/sql_processor.go:21-79 | with the name missing, the block yields the quoted alternative without its quotes |
| SqlExamples.ConditionDropped | handlers/sql_processor.go:21-79 | with the name missing and no `else`, the block yields nothing |
| SqlExamples.CommentedConditionKept | handlers/sql_processor.go:62-69 | a commented condition whose name is present yields the condition without the comment markers |
| SqlExamples.ParamPresent | handlers/sql_processor_test.go:14-19 | with the parameter present, the condition is kept and its placeholder then replaced by the value's literal (test: `status = "active"`) |
| SqlExamples.ParamMissingElse | handlers/sql_processor_test.go:20-25 | with the parameter missing, the block becomes its unquoted alternative (test: `WHERE 1=1 AND 1=0`) |
| SqlExamples.ParamMissingNoElse | handlers/sql_processor_test.go:26-31 | with the parameter missing and no `else`, the block disappears (test: `WHERE `) |
| SqlExamples.DirectReplacement | handlers/sql_processor_test.go:32-55 | a placeholder outside any block becomes the value's literal (tests: `id = 123`, `name = "John"`) |
| SqlExamples.CommentsRemoval | handlers/sql_processor_test.go:38-43 | a commented condition with its parameter present becomes the uncommented, substituted condition (test: `x = 1`) |
| SqlExamples.MultipleBlocks | handlers/sql_processor_test.go:44-49 | two blocks are resolved independently, one kept and substituted, the other replaced by its alternative (test: `WHERE 1=1 AND a=10 AND no_b`) |
| SqlExamples.ParamPresentCase | handlers/sql_processor_test.go:14-19 | the test's own query and parameters give exactly `WHERE 1=1 AND status = "active"` |
| SqlExamples.ParamMissingElseCase | handlers/sql_processor_test.go:20-25 | the test's own query and parameters give exactly `WHERE 1=1 AND 1=0` |
| SqlExamples.ParamMissingNoElseCase | handlers/sql_processor_test.go:26-31 | the test's own query and parameters give exactly `WHERE ` |
| SqlExamples.DirectReplacementCase | handlers/sql_processor_test.go:32-37 | the test's own query and parameters give exactly `SELECT * FROM users WHERE id = 123` |
| SqlExamples.CommentsRemovalCase | handlers/sql_processor_test.go:38-43 | the test's own query and parameters give exactly `x = 1` |
| SqlExamples.MultipleBlocksCase | handlers/sql_processor_test.go:44-49 | the test's own query and parameters give exactly `WHERE 1=1 AND a=10 AND no_b` |
| SqlExamples.StringQuotingCase | handlers/sql_processor_test.go:50-55 | the test's own query and parameters give exactly `name = "John"` |
| Strings.TrimSpace | handlers/sql_processor.go:26-29 | `strings.TrimSpace`: the result has no white space at either end and is no longer than the input |
| Strings.TrimSpaceOffset | handlers/sql_processor.go:26 | the trimmed text is a slice of the input, and only white space is cut at both ends |
| Strings.TrimSpaceMargins | handlers/sql_processor.go:65-69 | trimming white space around an already trimmed text gives that text |
| Strings.TrimSpaceIdempotent | handlers/sql_processor.go:65-69 | trimming twice is trimming once |
| Strings.Split | handlers/sql_processor.go:21-22 | `strings.Split` on a non-empty separator gives at least one part (so the empty-result branch cannot be taken), and the first part is a prefix of the text |
| Strings.JoinSplit | handlers/sql_processor.go:21 | joining the parts with the separator gives the text back |
| Strings.SplitPartsFree | handlers/sql_processor.go:21 | no part contains the separator |
| Strings.SplitAtFirst | handlers/sql_processor.go:21-29 | the first part ends at the first occurrence of the separator, and the rest is split on |
| Strings.SplitAbsent | handlers/sql_processor.go:21 | a text without the separator is one part |
| Strings.SplitJoin | database/db.go:61-67 | splitting a join on a one-character separator that occurs in no part gives the parts back |
| Strings.ReplaceAllIsJoinSplit | handlers/sql_processor.go:98 | `strings.ReplaceAll` is split on the pattern and joined with the replacement |
| Strings.ReplaceAllAbsent | handlers/sql_processor.go:98 | a text without the pattern is unchanged |
| Decimal.FormatInt | database/db.go:61-67 | `%d`: at least one character, a leading `-` exactly for negative numbers, digits otherwise |
| Decimal.ParseFormatInt | database/db.go:61-67 | reading the decimal form back gives the number |
| Decimal.FormatIntInjective | database/db.go:61-67 | different numbers have different decimal forms |
| DataSourceNames.DataSource | database/db.go:58-70 | the switch gives a driver exactly for `mysql`, `postgres` and `sqlserver`, and that driver is the type's name; any other type gives `unsupported database type: <type>` |
| DataSourceNames.MySqlDsnText | database/db.go:59-61 | the MySQL string is exactly `user:password@tcp(host:port)/dbname` |
| DataSourceNames.PostgresDsnText | database/db.go:62-64 | the PostgreSQL string is exactly `host=… port=… user=… password=… dbname=… sslmode=disable` |
| DataSourceNames.SqlServerDsnText | database/db.go:65-67 | the SQL Server string is exactly `server=…;user id=…;password=…;port=…;database=…;` |
| DataSourceNames.MySqlRoundTrip | database/db.go:59-61 | the MySQL settings are read back from the string when the fields hold no separator |
| DataSourceNames.PostgresRoundTrip | database/db.go:62-64 | the PostgreSQL settings are read back from the string when the fields hold no space |
| DataSourceNames.SqlServerRoundTrip | database/db.go:65-67 | the SQL Server settings are read back from the string when the fields hold no `;` |
| DataSourceNames.DataSourceRoundTrip | database/db.go:58-70 | for every supported type, the data-source string determines the settings |
| DataSourceNames.DataSourceInjective | database/db.go:58-70 | two settings of one supported type with the same string are equal |
| Database.OpenErrorCases | database/db.go:54-83 | `OpenConnection` succeeds exactly when the type is supported and opening and pinging succeed; an unsupported type gives its error |
| Database.OpenConnection | database/db.go:54-83 | an unsupported type or a failed open returns the error and opens nothing; otherwise one fresh handle is opened with the type's driver and string; it is closed exactly when the ping fails; a handle is returned only when the ping succeeded, and it is open |
| Database.Handle.Ping | database/db.go:77 | the ping returns the attempt's ping error |
| Database.Handle.Close | database/db.go:77-80 | closing marks the handle closed and returns the attempt's close error |
| Database.Driver.Open | database/db.go:72-75 | a failed open returns its error and opens nothing; otherwise a fresh open handle for the driver and string is appended to the opened handles |
| Database.ConnectionManager.constructor | database/db.go:35-39 | a new manager has no connections and satisfies the registry invariant |
| Database.ConnectionManager.Connect | database/db.go:41-52 | on an error the map is untouched and the error returned; on success `id` maps to the new open handle, every other entry is kept, and a prior handle under `id` is replaced without being closed; the registry invariant is kept |
| Database.ConnectionManager.GetConnection | database/db.go:85-95 | the stored handle when `id` is present, `connection not found: <id>` otherwise; nothing changes; under the registry invariant the handle returned is open |
| Database.ConnectionManager.CloseConnection | database/db.go:97-108 | an absent id gives no error and changes nothing; a present id is removed, every other entry kept, its handle closed and close's result returned, whether it is an error or not; the registry invariant is kept |
| Database.CloseThenLookup | database/db.go:85-107 | after `CloseConnection(id)` the lookup of `id` fails |
| Database.ConnectThenLookup | database/db.go:41-95 | after a successful `Connect(id, …)` the lookup of `id` gives the newly opened, open handle |

The registry invariant (`ConnectionManager.Valid`) says that every
registered handle is open and that no handle is registered under two ids.

## Left out

- Locking: the `sync.RWMutex` of `ConnectionManager` is omitted. The
  registry is modelled sequentially.
- Driver internals: `sql.Open`, `Ping` and `Close` of the MySQL,
  PostgreSQL and SQL Server drivers are not modelled. Their results are
  the caller's `Outcome`, and a handle's close result is fixed when it is
  opened.
- `DataSourceNames.ParseMySql`, `ParsePostgres` and `ParseSqlServer` are
  readers defined for the round-trip lemmas. They are not the drivers'
  parsers, and no quoting the drivers may accept is modelled.
- Floating-point numbers: JSON numbers arrive as `float64` and print with
  `%v`. The model has integers, printed in decimal.
- Text is a sequence of characters; Go strings are bytes. Non-ASCII text is
  not modelled byte by byte, and `TrimSpace` uses the Unicode white space
  characters one by one.
- `SqlProcessor.ProcessSQL` requires distinct keys, which a Go map
  guarantees. The order in which `range` visits the map is random in Go;
  here it is the order of the sequence. No claim is made that the result is
  independent of it, and `SubstitutionOrderMatters` shows that it is not.
- JSON arrays and objects as parameter values are not modelled. The
  service passes them on, they count as present in the block test, and
  `%v` prints them as `[1 2]` or `map[k:v]`. `Value` has no form for them.
- The source's two branches for "all names present" (with names and
  without) have the same body, so the model has one branch.
- The test cases are proved for every template of the test's shape. The
  literal Go strings are instances; the proofs do not evaluate them.
- The callers in `handlers/handlers.go` remove the `query`/`queries` keys
  before calling `ProcessSQL`. The model does not need this and does not
  require it.
- `main.go` (flags, the HTTP server, self-update), `handlers/handlers.go`
  (request binding, JSON responses, row scanning), `restart_windows.go` and
  `restart_unix.go` are not part of this model.

## Findings

| source | as written | input that shows it | evidently intended | confidence | as-written member | corrected member |
|---|---|---|---|---|---|---|
| handlers/sql_processor.go:66-74 | the comment markers are tested independently and the fragment is then sliced `[2 : len-2]` | a block `{{/*/}}`: no placeholders, so the main fragment `/*/` is used; it starts with `/*` and ends with `*/`, and the slice `[2:1]` panics | remove a wrapping comment only when the two markers do not overlap (length at least 4), otherwise keep the fragment | high, not executed | SqlProcessor.BlockAsWrittenPanics | SqlProcessor.UncommentAsWrittenAgrees |

`BlockAsWrittenPanics` exhibits the panic on `BlockValueAsWritten`, which
uses `UncommentAsWritten`, the comment removal as written. The rest of the
model uses the corrected `Uncomment` and `BlockValue`.
`UncommentAsWrittenAgrees` and `BlockAsWrittenAgrees` show that the
correction changes nothing except the input that panics.
