# awsls listing core, modelled in Dafny

awsls lists live AWS resources of the types matched by a glob pattern. It walks
every (profile, region) client, asks a Terraform AWS provider which of the
requested attributes the type has, hydrates the resources' state when at least
one attribute is supported, and writes a CSV table. This project models the
decision and assembly logic of `main.go`. Every call into another package is an
uninterpreted oracle passed in as a value:

- `MatchSupportedTypes`, `SetAccountID`, `ListResourcesByType`, `HasAttributes`,
  `GetStates` and `GetAttribute` are the fields of `Inventory.Oracles`.
- `GetAWSProfiles`, `NewAWSClientPool` and `NewProviderPool` are the fields of `Cli.Setup`.

Modules:

- `Wrappers`: `Option` (a Go nil) and `Result`.
- `Inventory`: client keys, resources, the creation timestamp and the oracles.
- `CsvExport`: `printHeaderCsv` and `printResourcesCsv`. A row is a list of
  cells. Each row also returns two traces: the attributes whose extraction was
  attempted, and the debug log entries.
- `Listing`: `printResource`. It covers the per-client loop over `resources` and
  `hasAttrs`, with the clients' GetStates calls and the error-stream messages
  kept as traces. It also covers the per-type loop and the exports.
- `Cli`: `mainExitCode`. It covers the version flag, the choice of profiles, pool
  construction and the single listing of `aws_instance`.

Each imperative loop of the source is a method. `PrintHeaderCsv` is proved to
build a closed-form header. The row, table and listing loops are proved equal to
recursive specification functions (`RowOf`, `Rows`, `Collect`, `RunTypes`), and
the lemmas state what the source promises about those functions.
`SelectProfiles` states its outcome case by case, and `MainExitCode` refers to
that outcome through the function `ProfileSelection`.

Behaviour of the code that a reader of its design might not expect:

- The CSV file is named after the glob pattern, not the matched type
  (`printResourcesCsv(resourceTypePattern, …)`), although one file per type is
  the documented output. Every matched type therefore writes the same path, and
  since `os.Create` truncates the file, only the last matched type's table stays
  on disk. The model follows the code: `Run.exports` is the sequence of writes,
  not the files that remain (`Listing.CsvPath`, `Listing.ExportsFollowTypes`).
- `hasAttrs, err = HasAttributes(…)` assigns the map before the error is
  checked. A client whose schema query fails still replaces the support map with
  whatever the query returned. The model keeps both results (`Inventory.AttrCheck`).
- `SetAccountID` is called for every client for every matched type, not once per
  run. The oracle therefore takes the client key and the type.
- Only the presence of a key in `hasAttrs` matters, both for a cell and for
  `len(hasAttrs) > 0`. The boolean stored under the key is never read.

## Model

| member | source | states |
|---|---|---|
| `CsvExport.PrintHeaderCsv` | main.go:233-237 | the header is TYPE, ID, CREATED followed by the requested attributes in their order |
| `CsvExport.CreatedCell` | main.go:203-207 | the CREATED cell is "" exactly when the resource has no creation time, otherwise the formatted time |
| `CsvExport.BuildRow` | main.go:201-222 | the loop builds exactly `RowOf` for the resource; it calls the extractor for the supported attributes in order, and it logs exactly the failures |
| `CsvExport.RowShape` | main.go:201-222 | a row has 3 + number-of-attributes cells: type, id, CREATED, then cell 3+i for attribute i. That cell is "N/A" when the attribute is not a key of the support map, "error" when extraction fails, and the extracted text otherwise |
| `CsvExport.CellsAt` | main.go:208-222 | one attribute cell per requested attribute, in the order requested |
| `CsvExport.AttemptedExactlySupported` | main.go:209-213 | extraction is attempted for an attribute if and only if it is requested and is a key of the support map, so never for an "N/A" cell |
| `CsvExport.FailuresAreLogged` | main.go:213-219 | each debug entry names the resource's type and id and the error of a supported attribute's failed extraction, and each such failure is logged |
| `CsvExport.PrintResourcesCsv` | main.go:199-227 | the table is the header followed by one row per resource; the debug log is the rows' failures in order |
| `CsvExport.RowsAt` | main.go:201-227 | data row k is the row of resource k, and there are as many rows as resources |
| `Listing.CollectType` | main.go:143-176 | the per-client loop ends in the state `Collect` gives: resources, support map, hydrated clients, messages, and whether it panicked |
| `Listing.AbortIffAccountFails` | main.go:146-151 | the walk over the clients panics if and only if some client's account-ID lookup fails |
| `Listing.ResourcesAreConcatenation` | main.go:153-167 | without a panic, the collected resources are the concatenation, in client order, of what each client adds on its own; a client whose listing or support check fails adds nothing (main.go:175) |
| `Listing.DiagsAreReports` | main.go:153-165 | without a panic, the error messages are, in client order, each client's report: a message naming the type and the error for a failed listing, one naming the error for a failed support check, and nothing otherwise. The walk continues past each failure |
| `Listing.AbortReportsAccountFailure` | main.go:146-165 | a panicking walk stops at the first client whose account-ID lookup fails; its messages are the earlier clients' reports followed by that account-ID failure |
| `Listing.SupportIsLastWriter` | main.go:159-167 | without a panic, the exported support map is the one returned to the last client that reached the support check, failed check or not; it stays nil when no client reaches it |
| `Listing.HydratedExactly` | main.go:169-173 | GetStates runs on a client's list if and only if its listing and support check succeed and its support map has a key |
| `Listing.SharedSupportMapScenario` | main.go:159-175 | dev supports all three attributes and prod only "tags", with prod walked last. Both lists are hydrated and collected, the kept map is prod's, and every row built with it reads "N/A" for private_ip and public_ip |
| `Listing.SingleTypeExport` | main.go:142-181 | a pattern that matches one type, whose walk collects resources without a panic, writes exactly one file holding that type's table, which has one data row per collected resource |
| `Listing.SharedSupportMapExport` | main.go:131-181 | in the same dev/prod case, printResource for "aws_instance" writes exactly one file, aws-resources/aws_instance.csv. Its table is the header plus two data rows built with prod's support map |
| `Listing.PrintResource` | main.go:131-183 | the method produces exactly `PrintResourceSpec`: match the pattern, then for each type collect, skip the export when nothing was collected, and stop at a panic |
| `Listing.PanicIffAccountFails` | main.go:142-151 | over the matched types, the run panics if and only if some client's account-ID lookup fails for some type |
| `Listing.ExportsFollowTypes` | main.go:178-187 | every export goes to aws-resources/<pattern>.csv and has at least one data row. Without a panic there is exactly one export per type that collected resources, in type order, each holding that type's table |
| `Listing.NoMatchNoExport` | main.go:132-140 | an invalid pattern panics with nothing exported. A pattern matching no type reports "no resource type found" and exports nothing |
| `Cli.SelectProfiles` | main.go:64-97 | --profiles with --all-profiles is rejected. Otherwise --profiles is kept as given. With neither flag, AWS_PROFILE is used when set. With --all-profiles, the loaded profiles are used, and a load error or nil result is rejected. The loader is called only for --all-profiles |
| `Cli.MainExitCode` | main.go:59-128 | --version exits 0. Conflicting profile flags exit 1, reporting the conflict, before the client pool is requested. A failed profile choice, client pool or provider pool exits 1 without listing and reports which one failed. Otherwise it lists aws_instance with private_ip, public_ip and tags over the built pool, and exits 0 unless the listing panicked |

## Left out

- Flag parsing, the help text, colours, the blank lines printed around the run and the log-level setup (main.go:36-57, 244-256). The `--debug` flag only sets the log level, so it is not modelled.
- AWS config and profile discovery, and the real environment reads. Their outcomes are the inputs `Cli.Environment` and `Cli.Setup.getAWSProfiles`.
- Construction of the client and provider pools (provider version 2.68.0, cache directory ~/.awsls, 10-second timeout) and the deferred `Close` of provider processes (main.go:98-124). Their code is not part of this model. Construction is an oracle that succeeds or fails, and release of the providers is not modelled.
- The bodies of `MatchSupportedTypes`, `SetAccountID`, `ListResourcesByType`, `HasAttributes`, `GetStates` and `GetAttribute`. Their packages are not part of this model. They are oracles, and `GetStates` is given the resources only, since the provider pool it also receives is fixed for the run.
- Client order: Go's map iteration order is unspecified and may differ from one matched type to the next. The model walks one fixed sequence of clients for every type.
- File I/O, directory creation, the cleaning that `filepath.Join` applies to the path, and CSV quoting and escaping (main.go:187-198, 223-229). A table is a list of rows of cells, and `CsvPath` concatenates the path.
- Time formatting with the layout "2006-01-02 15:04:05" (main.go:204). A timestamp is given as its already-formatted, non-empty text.
- Panics (main.go:135, 150, 190, 194, 225, 240): the panics on an invalid pattern and on a failed account-ID lookup are a `panicked` result. The I/O panics of the directory, file and CSV writer calls are not modelled.
- The message texts on the error stream and the help text printed after the flag conflict (main.go:65-66). In printResource each message is a `Listing.Diag` value naming its kind and arguments. In mainExitCode the reported failure is a `Cli.SetupError` value (main.go:65, 87, 92, 100, 116).
