# adb-sync core, modelled in Dafny

adb-sync mirrors a directory tree between an Android device and the host in
either direction. `pull` copies device to host and `push` copies host to
device. A file is copied only when the copy rule says so. Destination files
that no source file accounts for are then removed. `--dry-run` reports without
changing anything, and `--checksum` adds an MD5 comparison.

The model covers:

- the copy decision `NeedsCopy`;
- the parse of the device's `stat -c %s,%Y` reply;
- the first-token extraction from `md5sum`;
- the parse of `ls -R` output;
- the enumeration of either tree (`GetFilesRecursive`);
- the two orchestration loops, with their orphan map.

Every outside effect is a parameter:

- `Probe.Device` gives the replies of `adb shell ls -R`, `stat` and `md5sum` as functions of the path. `None` stands for a failed command.
- `Probe.Host` gives the `filepath.Walk` visits, `os.Stat` (as `Meta`), the local MD5 digest and the outcome of `os.MkdirAll`.
- `filepath.Rel(sourcePath, ·)` is the parameter `rel`.
- `DeleteAllParentDirectories` is the parameter `deleteAll`. Only its promise (`Tracker.RemovesFileAndParent`) is known.

The modules are:

| file | module | what it holds |
|---|---|---|
| wrappers.dfy | `Wrappers` | `Option` |
| text.dfy | `Text` | Go's `strings.TrimSpace`, `Split`, `HasSuffix` and `TrimSuffix` |
| numbers.dfy | `Numbers` | Go's `strconv.ParseUint` and `ParseInt` in base 10, with the error the code drops: once the leading digits overflow, the result is the bound they crossed, whatever follows; otherwise a non-digit gives 0 |
| paths.dfy | `Paths` | `filepath.Join`, `filepath.Dir` and `SanitizeAndroidPath` on a POSIX host |
| probe.dfy | `Probe` | file metadata (`Meta`, with mtime in nanoseconds), the stat and md5 parses, `ComputeMD5Checksum` |
| decision.dfy | `Decision` | `NeedsCopy` and the copy rule it implements |
| listing.dfy | `Listing` | `parseAdbLsOutput` (a method with its loop) and `GetFilesRecursive` |
| tracker.dfy | `Tracker` | the orphan map as a class whose methods delete keys |
| sync.dfy | `Sync` | the record of a run (`Report`), `SyncFile` and the final removal loop |
| pull.dfy | `Pull` | the `pull` command |
| push.dfy | `Push` | the `push` command |

Each loop is a method proved against a recursive specification function.
Each specification function has lemmas stating what the command promises:

- the deletion set holds only destination paths;
- it never holds a matched file or its parent;
- given the same host and device answers, a dry run decides the same way a real run does.

Where the code and the command's documentation disagree, the model follows the code:

- `pull` calls `os.MkdirAll` on each destination directory even under `--dry-run` (cmd/pull.go:88-95). A failure there ends the whole run: the rest of the source files and the removal pass are skipped. This is `Report.Aborted`.
- `SyncFile` creates `Dir(destFile)` on the host in both directions, including for a `push`, where `destFile` is a device path (utils/utils.go:70-75). A failure skips that one copy.
- If neither MD5 digest can be computed, both are `""` and they compare equal. `--checksum` then falls back to the size-and-time rule (`Decision.FailedDigestsFallBack`). It does not force a copy.
- `pull` drops only the destination file and its immediate parent from the orphan map (cmd/pull.go:105-106). `push` calls `DeleteAllParentDirectories` (cmd/push.go:96).

## Model

| member | source | states |
|---|---|---|
| Text.TrimLeftFacts | utils/utils.go:47 | trimming the left end leaves a suffix of the input; what was cut is all white space, and the result does not start with white space |
| Text.TrimRightFacts | utils/utils.go:47 | trimming the right end leaves a prefix of the input; what was cut is all white space, and the result does not end with white space |
| Text.TrimSpace | utils/utils.go:47 | the result has no white space at either end, is no longer than the input, and an already trimmed string is unchanged |
| Text.TrimSpaceOfPadded | utils/utils.go:47 | trimming white-space padding from both ends gives back the padded text |
| Text.TrimLeftOfPadded | utils/utils.go:47 | trimming leading white space gives back the text it preceded |
| Text.TrimRightOfPadded | utils/utils.go:47 | trimming trailing white space gives back the text it followed |
| Text.TrimRightKeeps | utils/utils.go:246 | trimming the right end never cuts into a prefix that ends in a non-space |
| Text.TrimSuffix | utils/utils.go:274-276 | with the suffix present, the result followed by it is the input; otherwise the input is unchanged |
| Text.Split | utils/utils.go:47 | the pieces contain no separator, joining them gives back the input, and there are two or more exactly when the separator occurs |
| Text.FirstPiece | utils/utils.go:246-248 | the first piece is everything before the first separator, or the whole input |
| Text.SplitPair | utils/utils.go:47-50 | splitting `a,b` with no comma in either part gives exactly `[a, b]` |
| Text.IndexOfPrefix | utils/utils.go:47 | in `a`, separator, `b`, with no separator in `a`, the first separator sits right after `a` |
| Text.SplitCons | utils/utils.go:268 | splitting `a`, separator, `b`, with no separator in `a`, yields `a` followed by the pieces of `b` |
| Text.SplitJoin | utils/utils.go:268 | splitting a join of separator-free pieces gives the pieces back |
| Numbers.FormatUint | utils/utils.go:52 | the decimal rendering of a size is all digits |
| Numbers.FormatInt | utils/utils.go:53 | the decimal rendering of a time stamp ends in a digit and starts with a digit or a minus sign |
| Numbers.DecimalRoundTrip | utils/utils.go:52 | reading a rendered number gives the number back |
| Numbers.DigitPrefix | utils/utils.go:52 | the leading run of digits: a prefix of the text, all digits, and followed by a non-digit or nothing |
| Numbers.DigitPrefixOfDecimal | utils/utils.go:52 | a run of digits is its own leading run |
| Numbers.ParseUint | utils/utils.go:52 | the parsed size fits in 64 unsigned bits |
| Numbers.ParseInt | utils/utils.go:53 | the parsed time stamp fits in 64 signed bits |
| Numbers.ParseUintRoundTrip | utils/utils.go:52 | every 64-bit size survives rendering and parsing |
| Numbers.ParseIntRoundTrip | utils/utils.go:53 | every 64-bit time stamp, negative ones included, survives rendering and parsing |
| Numbers.ParseUintNonNumeric | utils/utils.go:52 | a size field that is not a decimal number, and whose leading digits stay within 64 bits, parses as 0 |
| Numbers.ParseIntNonNumeric | utils/utils.go:53 | a time field that is not an optionally signed decimal number, and whose leading digits stay within 64 bits, parses as 0 |
| Numbers.ParseUintSaturates | utils/utils.go:52 | a size whose leading digits exceed 64 bits parses as the largest 64-bit value, whatever follows them |
| Numbers.ParseIntSaturates | utils/utils.go:53 | a time field whose leading digits exceed 64 bits parses as the smallest or largest 64-bit value, by its sign |
| Numbers.DigitPrefixValue | utils/utils.go:52 | a decimal followed by a non-digit has that decimal as its leading run |
| Numbers.OverflowBeforeJunk | utils/utils.go:52-53 | a decimal beyond 64 bits followed by a non-digit still saturates, as a size and as a negative time: the range error wins over the syntax error |
| Paths.Join | cmd/pull.go:85 | joining onto an empty directory gives the name, and joining an empty name gives the directory |
| Paths.LastIndexOf | cmd/pull.go:89 | the index of the last occurrence of the character, or -1 when it does not occur |
| Paths.Dir | cmd/pull.go:89 | a path without a slash has "." as its directory |
| Paths.DirOfJoin | cmd/pull.go:106 | the directory of a joined single name is the directory it was joined onto |
| Probe.GetRemoteFileMetadata | utils/utils.go:39-65 | the file is missing exactly when the stat command fails or prints nothing; otherwise its size fits in 64 unsigned bits |
| Probe.StatOfFields | utils/utils.go:45-59 | a reply whose trimmed text is `size,mtime` gives the parsed size and the parsed seconds as nanoseconds |
| Probe.StatReplyRoundTrip | utils/utils.go:39-65 | a reply printed for any 64-bit size and time stamp parses back to exactly that size and time |
| Probe.FormattedReplyTrims | utils/utils.go:47 | trimming a printed stat line removes only its line break |
| Probe.NoCommaInFormatted | utils/utils.go:47 | a printed size or time stamp never contains the field separator |
| Probe.StatFieldsFallBackToZero | utils/utils.go:52-53 | each field is parsed on its own and the file still counts as present; a non-numeric size whose leading digits fit is taken as 0, and one whose leading digits overflow as the largest size |
| Probe.RemoteDigest | utils/utils.go:238-253 | the digest has no spaces, is "" when md5sum fails, and is otherwise the first token of the trimmed reply: a prefix of it followed by a space or by nothing |
| Probe.RemoteDigestRoundTrip | utils/utils.go:244-249 | for an md5sum line `hex  path`, the digest is exactly `hex` |
| Probe.RemoteDigestOfPadded | utils/utils.go:244-249 | any reply made of a space-free `hex`, then a space and anything, has `hex` as its digest |
| Probe.TrimmedReplyStartsWith | utils/utils.go:246 | trimming such a reply keeps `hex` at its front, followed by nothing or a space |
| Probe.FirstTokenOf | utils/utils.go:246-248 | the first space-separated token of a text that starts with `hex`, then nothing or a space, is `hex` |
| Probe.ComputeMD5Checksum | utils/utils.go:237-264 | a device digest has no spaces, and it is "" when the md5sum command fails |
| Decision.NeedsCopy | utils/utils.go:90-201 | an unknown command never copies; for pull and push the answer is exactly the copy rule applied to the metadata and digests of each side, read on the side where the file lives |
| Decision.CopyRuleCases | utils/utils.go:97-146 | a missing source is never copied; a missing destination always is; otherwise size differs and source newer, or (with checksum) digests differ |
| Decision.SizeChangeAloneSkips | utils/utils.go:140-145 | a file whose size changed but which is not strictly newer is skipped without checksums |
| Decision.DigestMismatchForcesCopy | utils/utils.go:133-138 | with checksum on, differing digests force a copy of a present source |
| Decision.FailedDigestsFallBack | utils/utils.go:120-138 | when both digests fail ("" and ""), checksum mode decides as the plain rule does |
| Decision.DirectionsAgree | utils/utils.go:97-198 | pull and push decide alike on equal metadata and digests |
| Listing.ParseAdbLsOutput | utils/utils.go:267-285 | the result is the listing function of the reply's lines |
| Listing.ParseLines | utils/utils.go:270-284 | the loop computes the listing function: each `dir:` header sets the directory, and each other non-blank trimmed line is joined onto it |
| Listing.ListingHead | utils/utils.go:273-281 | the first line contributes its joined path, or nothing if it is a header or blank, and the rest is parsed under the directory it leaves |
| Listing.ListingAppendLine | utils/utils.go:272-282 | one more line at the end adds one path joined onto the directory then in force, or nothing if it is a header or blank |
| Listing.CurrentDirAppendLine | utils/utils.go:274-276 | one more line makes its header the current directory, or keeps the one in force |
| Listing.HeaderlessListing | utils/utils.go:272-282 | output with no header line yields its non-blank trimmed lines in order |
| Listing.NamesParse | utils/utils.go:277-281 | a run of entry lines under a directory yields each name joined onto it |
| Listing.BlockParse | utils/utils.go:272-282 | one well-formed block yields its names joined onto its directory, and leaves that directory in force |
| Listing.BlocksParse | utils/utils.go:272-282 | a rendered `ls -R` listing, block by block, yields every entry joined onto its block's directory |
| Listing.ParseOfRenderedListing | utils/utils.go:267-285 | printing a recursive listing and parsing it gives every file path in order |
| Listing.LinesHaveNoNewline | utils/utils.go:268 | the lines of a rendered listing contain no line break |
| Listing.WalkFilesMembership | utils/utils.go:210-218 | a path is collected exactly when the walk visits it as a non-directory |
| Listing.GetFilesRecursive | utils/utils.go:207-235 | push walks the host and collects non-directories, failing on a walk error; pull parses `ls -R` and fails when it fails; any other command fails |
| Tracker.Seeded | cmd/pull.go:72-76 | the map's keys are exactly the destination snapshot, all mapped to true |
| Tracker.DeleteAncestorChain | cmd/push.go:96 | one deletion that keeps the DeleteAllParentDirectories promise: only existing keys stay, and neither the file nor its parent does |
| Tracker.AncestorChainKeepsPromise | cmd/push.go:96 | that promise can be met |
| Tracker.OrphanTracker.constructor | cmd/push.go:73-77 | the map is seeded from the destination snapshot |
| Tracker.OrphanTracker.Delete | cmd/pull.go:105-106 | the key is removed and nothing else changes |
| Tracker.OrphanTracker.DeleteAll | cmd/push.go:96 | the map is replaced by DeleteAllParentDirectories of it, which drops the file and its parent and adds nothing |
| Sync.SyncFileRuns | utils/utils.go:67-88 | the copy runs exactly when this is not a dry run and the destination directory can be created |
| Sync.RemoveLeftovers | cmd/pull.go:109-118 | every leftover is reported, and each is removed unless this is a dry run |
| Pull.MkdirStop | cmd/pull.go:88-95 | the stop point lies within the source list, and MkdirAll fails for the file at it |
| Pull.MkdirStopPrefix | cmd/pull.go:88-95 | the loop gets past MkdirAll for every file before the stop point |
| Pull.MkdirStopPasses | cmd/pull.go:88-95 | a file whose MkdirAll succeeds is not the stop point |
| Pull.MkdirStopAt | cmd/pull.go:92-95 | the first file reached whose MkdirAll fails is the stop point |
| Pull.ProcessFile | cmd/pull.go:97-106 | the step taken is the decision for that file, and exactly the destination file and its parent leave the tracker |
| Pull.PullOne | cmd/pull.go:78-107 | one iteration stops exactly at the stop point; otherwise it extends the decisions and the claims by that file's |
| Pull.PullExtend | cmd/pull.go:78-107 | one more source file adds its step and its two claimed paths, or nothing when Rel fails |
| Pull.TrackSources | cmd/pull.go:78-107 | the loop's decisions are those for the files before the first MkdirAll failure; it finishes exactly when there is none, and then the map has lost exactly every claimed path |
| Pull.Pull | cmd/pull.go:59-119 | enumeration fails exactly when either listing fails; otherwise the decisions in order, an abort exactly on a MkdirAll failure, and on completion the unclaimed snapshot is reported and removed unless dry-run |
| Pull.PullClaimsExact | cmd/pull.go:104-106 | a path is claimed exactly when it is some resolved source's destination file or that file's parent |
| Pull.PullLeftoversSafe | cmd/pull.go:109-118 | pull deletes only snapshot paths, never a matched file or its parent, and every unmatched snapshot path |
| Pull.PullCopiesRunUnlessDryRun | cmd/pull.go:88-99 | once the loop has created a file's directory, its copy is issued exactly when this is not a dry run |
| Pull.DryRunDecidesAlike | cmd/pull.go:97-102 | given the same host and device answers, a dry run visits the same files in the same order and decides to copy the same ones |
| Push.PushExtend | cmd/push.go:79-97 | one more source file adds its step and applies DeleteAllParentDirectories once more, or nothing when Rel fails |
| Push.TrackSources | cmd/push.go:79-97 | the loop's decisions are those for every resolved source file, and the map is the fold of DeleteAllParentDirectories over their destination files |
| Push.Push | cmd/push.go:60-111 | enumeration fails exactly when either listing fails; otherwise push always completes with the decisions in order, reports every remaining sanitized path, and removes them unless dry-run |
| Push.PushRemainingSafe | cmd/push.go:79-97 | whatever DeleteAllParentDirectories does within its promise, the map keeps only seeded paths and no matched file or parent |
| Push.PushLeftoversSafe | cmd/push.go:99-110 | push deletes only destination snapshot paths, never a matched file or its parent |

## Left out

- Windows paths. `SanitizeAndroidPath` (`filepath.ToSlash`) is the identity on the POSIX host modelled here.
- `filepath.Join` is modelled without `filepath.Clean`: it joins with one slash, so `..`, `.` and repeated slashes are not normalised. `filepath.Dir` is modelled as the text before the last slash, also without Clean.
- `filepath.Rel` is the parameter `rel`, with its failure as `None`. Its path arithmetic is not modelled.
- The external commands, `os.Stat`, `os.MkdirAll`, `os.Remove` and `filepath.Walk` are parameters or recorded intents. Their own failures during removal or copy do not change the control flow and are left out. Only the removal set and the fact that a copy was issued are modelled.
- MD5 itself is not modelled: the host digest is an uninterpreted function of the path.
- All printing, colours, the `--debug` messages and the cobra flag handling (cmd/root.go) are left out.
- Probe.GetRemoteFileMetadata: `time.Unix` (utils/utils.go:54) adds the seconds from year 1 to 1970 inside a signed 64-bit count, which wraps for second counts near the 64-bit maximum. The model multiplies the seconds into nanoseconds exactly and does not model that wrap.
- Probe.GetRemoteFileMetadata: a non-empty stat reply whose trimmed text has no comma makes Go panic on `split[1]`. The model requires such replies not to occur (`StatReplyOk`, `DeviceOk`) rather than modelling the panic.
- Tracker.OrphanTracker.DeleteAll: the body of `DeleteAllParentDirectories` is not part of this model. Only the promise that it removes the file and its parent and adds no key is assumed. Which further ancestors it removes is therefore unknown, and the push deletion set is stated as a bound, not exactly.
- Pull.DryRunDecidesAlike: `Host` and `Device` are the answers received during one run, fixed for that run. A real run's copies change what later `os.Stat` and md5 calls see, and a dry run's `os.MkdirAll` calls change what a later real run sees. Those effects on later answers are not modelled, so the lemma compares a dry and a real run over the same answers only.
- Go's random map iteration order in the removal loops is not observable in the model: `Sync.RemoveLeftovers` states the reported and removed sets, not their order.
