# WiiUDownloader front-ends, modelled in Dafny

WiiUDownloader fetches Nintendo console titles from the content servers. It has two
front-ends on top of a shared download library:

- `wiiu-api`, a REST service. It lists and searches the title catalog, looks up one
  title, and runs downloads as background jobs. Clients poll a job's status and can
  cancel it.
- `wiiu-cli`, a command line tool. It lists and searches the catalog, or downloads
  one title while reporting progress on the terminal.

This project models the logic of both front-ends and proves properties of that
model. The download library, the title database, HTTP routing and JSON encoding
are outside the model. They appear as parameters: `catalog` stands for
`GetTitleEntries`, `lookup` for `GetTitleEntryFromTid`, and `outcome` or
`downloadError` for the result of `DownloadTitle`. The clock also appears as
parameters (`now` and `elapsed`).

Modules, one per concern of the source:

- `Text`: Go byte strings (`seq<bv8>`), `%d`, `%016X`, and `strconv.ParseUint(s, 16, 64)`.
- `IgnoreCase`: `equalIgnoreCase`, `containsIgnoreCaseHelper` and `containsIgnoreCase`,
  written as loop methods. They are proved equal to predicates: a byte pair matches
  when the bytes are equal or differ by 32 (modulo 256). For two letters this is the
  same letter ignoring case. For other bytes it also lets through pairs such as
  `'0'`/`'P'` and `' '`/`'@'`. The model keeps that behaviour and proves it
  (`NonLettersAlsoMatch`).
- `Catalog`: title entries, the three filters, and the token tables (category, region,
  platform prefixes). `Keep` is the reference meaning of a combination of filters: the
  entries that pass every filter, in catalog order. Each append loop of the handlers is
  proved equal to `Keep` on its own filter.
- `Platform`: `getPlatformFromTitleID` as written, plus a corrected version (see Findings).
- `ApiTitles`: `handleListTitles` and `handleGetTitle`.
- `Format`: `formatBytes` and `formatDuration`. The two programs carry identical copies.
- `Jobs`: the `DownloadJob` record and its transitions. Each transition is a pure
  function on the record. `Replay` applies any interleaving of them to one job.
- `Service`: class `Server`, the job registry. The job records are a sequence
  whose indices stand for the record pointers the source shares between the registry,
  the background run and its reporter; `jobs: map<string, nat>` names each ID's
  current record. The handlers update the records through the transitions above.
- `CliProgress`: class `CliProgressReporter`, with fields for the per-file counts and
  the totals.
- `CliMain`: `handleListSearch` and the exit status of `main`.

Behaviour of the code that the model keeps, and that a reader might not expect:

- A cancelled job can be cancelled again. Only completed and failed jobs are refused
  (cmd/wiiu-api/main.go:532-535).
- A download that returns no error marks the job completed, even after a cancel
  (cmd/wiiu-api/main.go:572-575).
- `processDownload` sets "downloading" first. A cancel that lands before that step is
  overwritten (cmd/wiiu-api/main.go:551-552).
- The service skips the region filter for `region=` empty (cmd/wiiu-api/main.go:317).
  The command line tool rejects an empty `-region` with exit status 1
  (cmd/wiiu-cli/main.go:139-151).
- Two start requests for one title within the same second get the same job ID
  (cmd/wiiu-api/main.go:431-432). The second record replaces the first in the registry
  (cmd/wiiu-api/main.go:461), while the first run goes on updating its own record,
  which no request can reach any more.
- A start request for a well-formed but unknown title ID is answered with 404
  "Title not found" (cmd/wiiu-api/main.go:424-428). The start-download test
  (cmd/wiiu-api/main_test.go:174-186) expects 400 for `1234567890123456`.

## Model

| member | source | states |
|---|---|---|
| Text.FormatParseRoundTrip | cmd/wiiu-api/main.go:389-391 | printing a title ID with `%016X` and parsing it back in base 16 gives the same ID |
| Text.ParseIgnoresLeadingZero | cmd/wiiu-api/main.go:378 | a leading `0` digit does not change what an identifier parses to |
| Text.ParseRejectsSeventeenDigits | cmd/wiiu-api/main.go:378-382 | seventeen hexadecimal digits with a non-zero first digit are out of range and rejected |
| Text.DecimalRoundTrip | cmd/wiiu-api/main.go:431-432 | the `%d` rendering of n is a string of digits denoting n |
| Text.DecimalInjective | cmd/wiiu-api/main.go:431-432 | different numbers render as different `%d` strings |
| IgnoreCase.EqualIgnoreCase | cmd/wiiu-api/main.go:650-660 | true iff the lengths are equal and every byte pair is equal or 32 apart modulo 256; false for different lengths |
| IgnoreCase.ContainsIgnoreCaseHelper | cmd/wiiu-api/main.go:641-648 | true iff some window at offset i, 0 <= i <= len(s)-len(substr), matches substr |
| IgnoreCase.ContainsIgnoreCase | cmd/wiiu-api/main.go:637-639 | true iff substr matches a window of s; false whenever substr is longer than s |
| IgnoreCase.ByteMatchesSymmetric | cmd/wiiu-api/main.go:657 | the byte comparison is symmetric |
| IgnoreCase.SameIgnoringCaseReflexive | cmd/wiiu-cli/main.go:202-212 | every string equals itself ignoring case |
| IgnoreCase.SameIgnoringCaseSymmetric | cmd/wiiu-cli/main.go:202-212 | equality ignoring case is symmetric |
| IgnoreCase.NoMatchWhenLonger | cmd/wiiu-cli/main.go:189-191 | a search term longer than the name never matches |
| IgnoreCase.EmptyAlwaysMatches | cmd/wiiu-cli/main.go:193-200 | the empty term matches every name |
| IgnoreCase.ContainsItself | cmd/wiiu-cli/main.go:189-191 | every name matches itself |
| IgnoreCase.LettersMatchIffSameLetter | cmd/wiiu-api/main.go:657 | two ASCII letters match iff they are the same letter ignoring case |
| IgnoreCase.NonLettersAlsoMatch | cmd/wiiu-api/main.go:657 | '0' matches 'P', ' ' matches '@', 0x10 matches 0xF0, and "1080" contains "P" |
| IgnoreCase.ByteMatchesNotTransitive | cmd/wiiu-api/main.go:657 | 'A'~'a' and 'a'~0x81 match but 'A'~0x81 do not |
| Catalog.TitleHigh | cmd/wiiu-api/main.go:305 | `titleID >> 32` is below 2^32 |
| Catalog.FilterByPlatform | cmd/wiiu-api/main.go:303-313 | the nested loop with `break` keeps exactly the entries whose upper 32 bits are in the prefix table, in order |
| Catalog.FilterByRegion | cmd/wiiu-api/main.go:331-337 | keeps exactly the entries whose region bits meet the mask, in order |
| Catalog.FilterBySearch | cmd/wiiu-api/main.go:342-348 | keeps exactly the entries whose name contains the term ignoring case, in order |
| Catalog.Keep | cmd/wiiu-api/main.go:303-349 | a filtered list is never longer than its input |
| Catalog.KeepIsSubsequence | cmd/wiiu-api/main.go:303-349 | a filtered list is the input with entries deleted and the rest in catalog order |
| Catalog.KeepMultiplicity | cmd/wiiu-api/main.go:303-349 | an entry that passes every filter keeps all its occurrences, any other keeps none |
| Catalog.KeepMembers | cmd/wiiu-api/main.go:303-349 | an entry is in the result iff it is in the input and passes every filter |
| Catalog.KeepDependsOnCriteriaSet | cmd/wiiu-api/main.go:303-349 | only the set of filters matters, not their order or repetition |
| Catalog.KeepThenKeep | cmd/wiiu-cli/main.go:153-171 | filtering twice is filtering once by both sets of filters |
| Catalog.KeepNothing | cmd/wiiu-cli/main.go:139 | no filter keeps everything |
| Catalog.KeepIdempotent | cmd/wiiu-api/main.go:303-349 | filtering a reply again with the same filters changes nothing |
| Catalog.KeepCommutes | cmd/wiiu-api/main.go:303-349 | two filter steps can be applied in either order |
| Catalog.PipelineIsConjunction | cmd/wiiu-api/main.go:258-349 | applying the filters one after another equals filtering by their conjunction |
| Catalog.AcceptedTokens | cmd/wiiu-api/main.go:239-329 | the category, platform and region tables accept exactly their listed tokens |
| Platform.GetPlatformFromTitleID | cmd/wiiu-api/main.go:662-683 | as written, always one of the six labels; "Wii U" iff `titleID>>36 == 0x5000`, "Switch" iff `titleID>>36 == 0x100000` |
| Platform.PlatformOfTitleID | cmd/wiiu-api/main.go:662-683 | corrected mask: "Wii U" iff the upper 16 bits are 0x0005, "Switch" iff they are 0x0100 |
| Platform.LabelDependsOnlyOnHighBits | cmd/wiiu-api/main.go:663 | both classifiers read only `titleID >> 32` |
| Platform.TestVectors | cmd/wiiu-api/main_test.go:39-60 | the six test identifiers get their expected labels under both classifiers |
| Platform.WiiUSystemAppMislabelled | cmd/wiiu-api/main.go:662-683 | 0x0005001010040100 passes `platform=wiiu` but is labelled "Unknown" as written |
| Platform.FilterAgreesWithLabel | cmd/wiiu-api/main.go:259-313 | with the corrected mask, every entry kept by a platform filter carries that platform's label |
| ApiTitles.ParseListQuery | cmd/wiiu-api/main.go:226-254 | a rejection is a 400; a query is accepted iff all three tokens are known, and then fetches the category the token names and asks for exactly the platform, region and search filters the tokens name |
| ApiTitles.ListQueryRejections | cmd/wiiu-api/main.go:239-329 | "Invalid category", "Invalid platform" and "Invalid region" are each returned exactly when that token is unknown and every earlier token is known |
| ApiTitles.HandleListTitles | cmd/wiiu-api/main.go:226-349 | the reply is the query's error, or exactly the category's entries that pass every requested filter, in catalog order |
| ApiTitles.ListedEntries | cmd/wiiu-api/main.go:258-349 | an entry is listed iff it is in the category, its prefix is in the platform table (unless "all"), its region meets the mask (unless "" or "all"), and its name contains the term (unless empty) |
| ApiTitles.ListQuerySkips | cmd/wiiu-api/main.go:228-237 | platform "" or "all", region "" or "all" and an empty search add no filter |
| ApiTitles.ListingIsStableSubsequence | cmd/wiiu-api/main.go:256-349 | a listing is an order-preserving subsequence of its category, and is unchanged when listed again with the same filters |
| ApiTitles.ListingDocument | cmd/wiiu-api/main.go:351-366 | one document entry per listed title, with that title's name and a label `getPlatformFromTitleID` can return |
| ApiTitles.ListingIdsReadBack | cmd/wiiu-api/main.go:353-360 | each listed `id` parses back to its title ID, and its platform label is the as-written classifier's label for that ID |
| ApiTitles.WiiUListingShowsUnknown | cmd/wiiu-api/main.go:353-360 | as written, a Wii U system application that passes `platform=wiiu` is listed with the platform "Unknown" |
| ApiTitles.CorrectedListingDocument | cmd/wiiu-api/main.go:351-366 | with the corrected classifier, the listing differs from the one as written only in its platform labels |
| ApiTitles.CorrectedListingAgreesWithFilter | cmd/wiiu-api/main.go:258-360 | with the corrected classifier, every title of a `platform=` listing carries that platform's label |
| ApiTitles.HandleGetTitle | cmd/wiiu-api/main.go:372-387 | 400 "Invalid title ID format" iff the ID does not parse; the entry iff the lookup finds it; otherwise 404 "Title not found" |
| ApiTitles.ListedIdResolves | cmd/wiiu-api/main.go:372-395 | looking up the `%016X` form of a known title's ID finds that title |
| ApiTitles.ContainsWindow | cmd/wiiu-api/main.go:641-648 | a name contains every term that matches one of its windows ignoring case |
| ApiTitles.UsaSearchQuery | cmd/wiiu-api/main.go:226-349 | `category=game&region=usa&search=<term>` asks for the region filter, then the search |
| ApiTitles.OneEntrySearch | cmd/wiiu-api/main.go:316-349 | a matching entry is found in a region it belongs to and not in one it does not |
| ApiTitles.MarioScenario | cmd/wiiu-api/main.go:226-349 | searching "mario" in region usa finds a USA "Super Mario 3D World"; in europe it finds nothing |
| Format.FormatBytes | cmd/wiiu-api/main.go:608-619 | below 1024, the count is printed as is; otherwise the divisor is the power of 1024 with divisor <= bytes < 1024*divisor, and the unit letter is within "KMGTPE" |
| Format.ScaleUnique | cmd/wiiu-cli/progress.go:119-130 | only one power of 1024 brings a count into [1, 1024) |
| Format.FormatDuration | cmd/wiiu-api/main.go:621-635 | "unknown" iff negative; under an hour, minutes and seconds; from an hour on, hours >= 1, minutes and seconds under 60 that add up to the input |
| Format.ClockUnique | cmd/wiiu-cli/progress.go:132-146 | the hours/minutes/seconds reading of a duration is unique |
| Format.Pad2 | cmd/wiiu-api/main.go:634 | `%02d` gives two digits (for values below 100) that denote the number |
| Format.Render | cmd/wiiu-cli/progress.go:142-145 | "unknown" only for the unknown reading; with fields below 100, `MM:SS` and `HH:MM:SS` are two-digit fields denoting the minutes, seconds (and hours), with colons between |
| Format.EdgeDurationExamples | cmd/wiiu-api/main.go:621-635 | -1 second renders as unknown and 0 seconds as 00:00 |
| Format.ShortDurationExamples | cmd/wiiu-api/main.go:621-635 | 59 and 3599 seconds render as 00:59 and 59:59 |
| Format.LongDurationExamples | cmd/wiiu-api/main.go:621-635 | 3600 and 3725 seconds render as 01:00:00 and 01:02:05 |
| Jobs.JobId | cmd/wiiu-api/main.go:431-432 | the job ID starts with the title ID text followed by `_` |
| Jobs.JobIdCollidesOnlyWithinOneSecond | cmd/wiiu-api/main.go:431-432 | two requests for one title get the same job ID iff they arrive in the same second |
| Jobs.NewJob | cmd/wiiu-api/main.go:441-455 | a new job is pending, with no end time, no error, zero counts and the request's fields |
| Jobs.Begin | cmd/wiiu-api/main.go:551-552 | the status becomes downloading whatever it was; every other field is kept |
| Jobs.Cancel | cmd/wiiu-api/main.go:532-541 | refused iff the job is completed or failed; otherwise cancelled now with its context cancelled, every other field kept |
| Jobs.Finish | cmd/wiiu-api/main.go:563-576 | sets the end time and a terminal status: an error leaves a cancelled job cancelled without recording it and otherwise fails the job with the message; success completes at 100%; only status, end time, error and progress can change |
| Jobs.ReporterCancelled | cmd/wiiu-api/main.go:92-96 | the reporter's cancel flag is the job's cancelled status |
| Jobs.Report | cmd/wiiu-api/main.go:58-119 | each call changes only its own fields: the title, the downloaded count and percentage (downloaded/size*100 when the size is known, within 0-100 for a count within the size), the decryption progress, the status to cancelled, the size, or the reset counts; the three no-op calls change nothing |
| Jobs.ReplayKeepsIdentity | cmd/wiiu-api/main.go:401-577 | no sequence of steps changes a job's ID, title, directory, start time or options |
| Jobs.EndTimeNeverCleared | cmd/wiiu-api/main.go:538-562 | once a job has an end time, it keeps one |
| Jobs.ErrorOnlyFromFailedRun | cmd/wiiu-api/main.go:566-571 | a job's error message changes only through a run that ended with that error |
| Jobs.CancelDuringRun | cmd/wiiu-api/main.go:532-571 | cancelling a running job whose download then fails leaves it cancelled, with no error and the run's end time |
| Jobs.SuccessAfterCancelCompletes | cmd/wiiu-api/main.go:572-575 | a download that returns no error completes a cancelled job |
| Jobs.CancelBeforeStartIsOverwritten | cmd/wiiu-api/main.go:551-571 | a cancel landing before `processDownload` starts is overwritten, and a later error fails the job |
| Jobs.SecondCancelAccepted | cmd/wiiu-api/main.go:532-535 | cancelling a cancelled job is accepted again |
| Jobs.FinishedRunRefusesCancel | cmd/wiiu-api/main.go:532-535 | a run that ended not cancelled cannot be cancelled |
| Service.ValidateStart | cmd/wiiu-api/main.go:401-429 | "Invalid JSON", "title_id is required", "Invalid title ID format" (400) and "Title not found" (404), in that order; success iff the ID parses and the title exists, with that title's entry |
| Service.Document | cmd/wiiu-api/main.go:490-514 | the status document omits `error` exactly when it is empty |
| Service.Server.constructor | cmd/wiiu-api/main.go:129-148 | a new registry is empty and valid |
| Service.Server.HandleStartDownload | cmd/wiiu-api/main.go:401-476 | a rejected request changes nothing; a mkdir failure gives 500; otherwise a new pending record is created in `<downloads>/<job id>`, `<title>_<seconds>` names it (replacing an earlier record of that ID), the run gets that record, and the reply is "started" with the title name |
| Service.Server.HandleGetDownloadStatus | cmd/wiiu-api/main.go:478-514 | the document of the record the ID names, with that ID and the job's own directory, iff the ID is registered; otherwise 404 "Job not found" |
| Service.Server.HandleCancelDownload | cmd/wiiu-api/main.go:519-549 | 404 for an unknown ID, 400 for a completed or failed job, both with no change; otherwise only the record the ID names becomes its cancelled version |
| Service.Server.ProcessDownloadBegin | cmd/wiiu-api/main.go:551-552 | only the run's own record changes, to its downloading version, keeping the registry valid |
| Service.Server.ProcessDownloadEnd | cmd/wiiu-api/main.go:557-576 | only the run's own record changes, to its finished version, keeping the registry valid |
| Service.Server.Report | cmd/wiiu-api/main.go:45-119 | only the reporter's own record changes, by the reporter call, keeping the registry valid |
| Service.CancelledDownloadScenario | cmd/wiiu-api/main.go:401-577 | start, begin, cancel and a failed run leave the job cancelled with no error, and cancelling again still succeeds |
| Service.SameSecondRestartScenario | cmd/wiiu-api/main.go:431-465 | two starts of one title in the same second share an ID; the first run completes on its own record while the ID reports the second job, still pending |
| CliProgress.SumOverRemove | cmd/wiiu-cli/progress.go:39-41 | the total does not depend on the order in which files are summed |
| CliProgress.SumValuesUpdate | cmd/wiiu-cli/progress.go:37-41 | a new report for a file replaces its earlier count in the total |
| CliProgress.SumOverNonNegative | cmd/wiiu-cli/progress.go:39-41 | with no negative counts, the total is not negative |
| CliProgress.Trunc | cmd/wiiu-cli/progress.go:109 | a float-to-integer conversion truncates toward zero |
| CliProgress.EtaSeconds | cmd/wiiu-cli/progress.go:106-110 | ETA is 0 before any byte or time has passed; otherwise elapsed*(total-downloaded)/downloaded, truncated |
| CliProgress.EtaWithinSize | cmd/wiiu-cli/progress.go:106-116 | within the announced size the ETA is never negative (never "unknown"), and 0 once everything has arrived |
| CliProgress.EtaBeyondSize | cmd/wiiu-cli/progress.go:106-116 | beyond the announced size the ETA is not positive and shows as "unknown" once it reaches a second |
| CliProgress.PercentageFacts | cmd/wiiu-cli/progress.go:102 | the percentage times the total is the downloaded count times 100, within 0-100 for a count within the size, and 100 at completion |
| CliProgress.EtaFacts | cmd/wiiu-cli/progress.go:104-116 | within the size the ETA is shown; it reads 00:00 before anything is known and once everything has arrived |
| CliProgress.CliProgressReporter.constructor | cmd/wiiu-cli/progress.go:21-25 | every field starts at its zero value with an empty file table |
| CliProgress.CliProgressReporter.SetGameTitle | cmd/wiiu-cli/progress.go:27-32 | records the title |
| CliProgress.CliProgressReporter.Progress | cmd/wiiu-cli/progress.go:97-117 | no line while the total size is 0; otherwise the percentage is the share of the total, within 0-100 when the count is within the size; the ETA is shown (never "unknown") within the size; a finished download reads 100% with ETA 00:00 |
| CliProgress.CliProgressReporter.UpdateDownloadProgress | cmd/wiiu-cli/progress.go:34-43 | the file's count is replaced, the downloaded total becomes the sum over all files, and the printed line is that state's progress line |
| CliProgress.CliProgressReporter.SetCancelled | cmd/wiiu-cli/progress.go:55-59 | afterwards the reporter reports cancelled |
| CliProgress.CliProgressReporter.SetDownloadSize | cmd/wiiu-cli/progress.go:61-65 | records the total size |
| CliProgress.CliProgressReporter.ResetTotals | cmd/wiiu-cli/progress.go:67-75 | all counts and sizes are 0, the file table is empty, and the total again equals the sum over the table |
| CliProgress.CliProgressReporter.MarkFileAsDone | cmd/wiiu-cli/progress.go:77-82 | one more completed file; returns the completed and total numbers it prints |
| CliProgress.CliProgressReporter.SetTotalDownloadedForFile | cmd/wiiu-cli/progress.go:84-88 | records a file's count without touching the total |
| CliProgress.CliProgressReporter.SetStartTime | cmd/wiiu-cli/progress.go:90-95 | records the start time and fixes the file count to the files seen so far |
| CliProgress.ResumedDownloadScenario | cmd/wiiu-cli/progress.go:34-117 | a resumed file at 300 bytes, then reports of 500 and 700 for two files, give total 1200 of 2000, 60% and ETA 00:02 |
| CliMain.DefaultFlags | cmd/wiiu-cli/main.go:21-28 | the defaults are category "game" and region "all", with no list, search or title |
| CliMain.ParseListSearch | cmd/wiiu-cli/main.go:118-151 | fails iff the category is unknown, or the region is neither "all" nor known, with the printed message; otherwise asks for exactly the region and search filters named |
| CliMain.HandleListSearch | cmd/wiiu-cli/main.go:118-171 | the message on rejection, or exactly the category's entries that pass the region and search filters, in catalog order |
| CliMain.ListedByCli | cmd/wiiu-cli/main.go:138-171 | an entry is printed iff it is in the category, its region meets the mask (unless "all") and its name contains the term (unless empty) |
| CliMain.EmptyRegionRejected | cmd/wiiu-cli/main.go:139-151 | an empty region exits with "Unknown region: " where the service skips the filter |
| CliMain.ExitCode | cmd/wiiu-cli/main.go:51-115 | list mode exits 0 iff its tokens are valid, else 1; download mode exits 130 iff it got past the argument and directory checks and was interrupted, 0 iff it also succeeded and was not interrupted, 1 otherwise |
| CliMain.NoFlagsIsAnError | cmd/wiiu-cli/main.go:58-62 | with no flags the tool exits with status 1 |

## Left out

- Concurrency: the service's handlers and the background run touch a job without a
  common lock. The model treats each handler and each step of the run as atomic. It
  covers every interleaving of those steps (`Jobs.Replay`), but not torn reads inside a step.
- `DownloadTitle`, `GetTitleEntries`, `GetTitleEntryFromTid`, `GetFormattedRegion`,
  `GetFormattedKind` and the `MCP_REGION_*` values belong to the download library. They
  are parameters, or are not modelled.
- HTTP routing, CORS, `handleHealth`, `handleOpenAPISpec`, JSON decoding and encoding,
  and flag parsing are not modelled. An undecodable body is `None`.
- `Service.Server.HandleStartDownload`: one `now` is used for the job ID and for
  `StartTime`. The source reads the clock twice. The request's directory is created or
  not according to the `mkdirSucceeds` parameter. `filepath.Join` is modelled as
  `dir + "/" + name` without path cleaning.
- Starting the background goroutine is not modelled: the caller runs
  `ProcessDownloadBegin` and `ProcessDownloadEnd` on the record `HandleStartDownload`
  returned.
- Jobs.Report: `Speed` and `ETA` of the service's reporter depend on the clock and on
  floating point, and are not modelled. `Progress` is exact real arithmetic, not `float64`.
- Format.FormatBytes: the `%.1f` rendering of `bytes/div` is floating point, so the
  model returns the divisor and the unit letter instead of the printed text.
- Format.FormatDuration: it takes whole seconds. Every caller passes
  `time.Duration(x) * time.Second`, so `Round(time.Second)` changes nothing there.
- CliProgress.CliProgressReporter.UpdateDownloadProgress: the sum is over unbounded
  integers. `int64` wrap-around of a total beyond 2^63 is not modelled.
- CliProgress.EtaSeconds: `printProgress` computes in `float64`, and
  `time.Duration(x) * time.Second` wraps around in `int64` once x reaches about
  9.2e9 seconds. The model computes the percentage and the ETA in exact real numbers
  and unbounded integers, so it captures neither the rounding nor the wrap-around.
- `UpdateDecryptionProgress` of the command line reporter only writes to the terminal
  and is not modelled. The text of the messages printed with `fmt.Print*` is not
  modelled; where the printed values matter, they are returned instead (the progress
  line of `printProgress`, the counts of `MarkFileAsDone`, the error messages of
  list mode). The `Cancelled()` getter is the predicate `Cancelled`.
- `main`'s signal handling is modelled through the `cancelled` argument of `ExitCode`:
  whether an interrupt set the flag before the download call returned.
- CliMain.ExitCode: `log.Fatal` is modelled as exit status 1. What it prints is not modelled.

## Findings

| source | as written | input that shows it | evidently intended | confidence | as-written member | corrected member |
|---|---|---|---|---|---|---|
| cmd/wiiu-api/main.go:664 | `titleHigh & 0xFFFFFFF0` clears only the low four bits, so a prefix with any of bits 4-15 set is labelled "Unknown" | title ID 0x0005001010040100 (a Wii U system app, 0x00050010) passes `platform=wiiu` but is labelled "Unknown"; the same happens for 0x0005001B, 0x00050030, 0x01000080-0x01000082 and 0x00040010 | mask the platform half, `titleHigh & 0xFFFF0000`; all six test identifiers keep their labels | medium, not executed | Platform.GetPlatformFromTitleID, Platform.WiiUSystemAppMislabelled, ApiTitles.WiiUListingShowsUnknown | Platform.PlatformOfTitleID, Platform.FilterAgreesWithLabel, ApiTitles.CorrectedListingAgreesWithFilter |
