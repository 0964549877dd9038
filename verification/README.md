# A verified model of the board

This project models, in Dafny, the parts of the board whose behaviour is decided by logic rather than by I/O,
and proves what they promise: preparing a release so that an interrupted run can be repaired, civil dates and
the log names and timestamps built on them, wrapping Markdown to a column, reading the OpenCode model catalog,
importing the work plugin's store, getting board events to a subscriber, accounting a run's timeout across
restarts, and keeping the watched panes grouped. `dafny verify dfyconfig.toml` checks all of it.

| module | models | in short |
|---|---|---|
| `Release`, `Recovery`, `LeftBehind` | `scripts/prepare-release.py` | planned file writes, a crash after any of them, a second run, and what it leaves |
| `Manifests`, `Changelog`, `Judged` | `scripts/prepare-release.py` | the version-bearing files, their rewriting and the install pins in documents; changelog text, its rewriter and its analyser, and what that says of a cut made with any URL and date |
| `Calendar`, `LogNames`, `Timestamps` | `logging.rs`, `protocol.rs` | both closed-form date algorithms against a calendar counted day by day; strict names and timestamps |
| `Wrapping` | `markdown.rs` | the wrapping loop: nothing lost, lines fit, no line ends early, and no other result would do |
| `Json`, `Catalog` | `opencode_catalog.rs` | RFC 8259 as a grammar, the line-by-line brace scan, the parser as the inverse of a printer |
| `Records` | `import.rs`, `linear_state.rs` | what the importer makes of a record, and what the setters of the board accept |
| `ImportRun`, `Import`, `StoreAsks` | `import.rs` | what one record does to database, report and plan; the loops over the five kinds of record; what each entry of a store asks for |
| `Outbound` | `server.rs` | the bounded queue; broadcast channel, forwarder, queue and client as atomic steps |
| `Timeout` | `state.rs`, `cards_comments.rs` | the timer in memory, the record on disk, and restarts between them |
| `Watch` | `state.rs` | the grouping of active panes and its generation |
| `Text`, `Outcomes` | | strings, decimal numbers, lexicographic order; results and why there is none |

Classes (`Release.Checkout`, `Import.Import`, `Outbound.Buffer`, `Timeout.ActiveRun`, `Watch.WatchState`) stand
for the objects whose fields the source updates; each method is proved equal to a step on a value, and the
theorems are about runs of those steps. What reading and decoding a file or a terminal width table comes to is a
parameter.

Where a promise turned out not to hold everywhere, the exact condition is proved:

- A run that can be planned recovers from every crash exactly if it would succeed, the lock comes out tidy and no
  carriage return is left behind (`CrashRecovery`): each local version line bare and followed by more of its block, as
  cargo writes it; and, where only the versions in manifest and plugin still differ, changelog and lock stored without
  carriage returns. Reading drops those and a write does not bring them back, but a second run that finds everything at
  the target writes nothing. `StalePluginIsLeft` gives, for a family of checkouts, exactly those that a crash leaves
  different for good.
- A run that can be planned succeeds exactly if the rewritten lock reads back, as one cargo wrote does, and its
  changelog is prepared for the URL that the check at its end works with (`PlannedRunVerifies`). It is prepared exactly
  if the URL holds no white space and, unless it was prepared before, no line of the heading made of target and date is
  taken for a link and one names the target, as with any date of one line (`CutIsPrepared`, `CleanDateFits`). A URL like
  `a b` passes every other step, so the run fails after all its writes, and a second run is refused (`BlankUrlIsCut`,
  `PlannedRunRecovers`). The check takes the URL through the same steps once more, and comes to another exactly if it
  ends in `.git` or a blank, as `x.git.git` leaves one, or is empty, as `.git` leaves it, while another URL or none is
  found around the checkout (`NormalizedTwice`, `NormalizedDiffers`). A target with a newline at its end, which the
  source lets pass, and a URL or date with a carriage return are not part of this.
- The lock pattern takes in blank space up to the next line, so a local package block that ends at its version
  runs into the block after it, or costs the file its final newline (`LockKeepsBlocks`). Such a block takes over the
  version of the one it runs into: all blocks of the five crates end at the target exactly if none runs into another
  package's block at another version (`CratesSettleExactly`, `RunSettlesCrates`). Where the crate has a later block of
  its own the run succeeds all the same (`StaleCrateIsLeft`).
- Wrapping fits the column exactly if every character drawn fits beside the margin; it does if all text fits, and
  only if all that must be drawn does (`FitsExactly`). Where no blank is too wide for that room these are the same
  (`TextFitsExactly`); a blank that is may be left out (`WideBlankMayGo`). A margin as wide as the column switches
  breaking off altogether (`FullMarginNeverBreaks`); the comment in the source speaks only of a glyph that overflows by a cell.
- A restart keeps the timeout budget exactly if the run is not paused, its durable deadline is still ahead, or it
  was paused in that very tick; a paused run adopted after its deadline is granted the time that has passed since
  (`RestartAgreesIfFair`, `AdoptionKeepsPaused`). Only the last restart grants anything (`LastRestartGrants`).

## Model

| member | source | states |
|---|---|---|
| Recovery.CrashRecovery | scripts/prepare-release.py:507-578 | any run that can be planned can die after any number of its ordered writes, and a second run with the same target, date and URL ends with exactly the files on disk of the uninterrupted run; for all crash points together, if and only if the uninterrupted run leaves a verified release, the lines of the lock come out tidy and no carriage return is left that only the first run would have removed |
| Recovery.PlannedRunRecovers | scripts/prepare-release.py:507-578 | with a lock as cargo writes it, any run that can be planned is repaired by a second run wherever the first one dies, if and only if the URL holds no white space, the heading made of target and date fits or the changelog was prepared before, and no carriage return is left |
| Recovery.PlannedRunVerifies | scripts/prepare-release.py:427-578 | any run that can be planned ends in a release prepared for its URL exactly if the rewritten lock reads back, which one as cargo writes it does, the URL holds no white space, and the heading fits or the changelog was prepared before; its own check accepts exactly if that is so and the URL, given or found a second time, comes to the same |
| Release.NormalizedTwice | scripts/prepare-release.py:297-325 | normalising the URL a command works with changes nothing exactly if it has neither a blank nor `.git` at its end; a command given it works with it exactly if that is so and, where it is empty, nothing is found |
| Release.NormalizedDiffers | scripts/prepare-release.py:297-325 | a command given `.git` works with no URL, and given that again with what is found around the checkout; one given `x.git.git` works with `x.git`, and given that again with `x` |
| Release.UrlIsNormalized | scripts/prepare-release.py:315-325 | normalising takes the blanks off both ends of any URL, then one `.git`, and gives the two other forms of a GitHub address the first one |
| Release.UrlIsFound | scripts/prepare-release.py:297-312 | without a URL given, that of the repository the environment names, else the remote's, is worked with |
| LeftBehind.BlankUrlIsCut | scripts/prepare-release.py:346-420 | a command given `a b` works with it, a changelog is cut with it, and is not prepared |
| Release.AsReadHoldsNoReturn | scripts/prepare-release.py:109-127 | a file as read holds no carriage return, and is what is stored exactly if that holds none |
| Release.LineIsRead | scripts/prepare-release.py:109-113 | a line with a newline, a carriage return, or both at its end is read as that line with a newline |
| Recovery.FurtherRunWritesNothing | scripts/prepare-release.py:507-525 | after a successful run, a further run at any date plans no write |
| Recovery.RunSettlesCrates | scripts/prepare-release.py:253-290 | after a successful run the last block with a version of each of the five crates, by name, is at the target; and every block of theirs is, exactly if no crate's block of the old lock that ended at its version was followed by another package's at another one |
| Recovery.CanonicalLockRepeats | scripts/prepare-release.py:270-290 | a lock as cargo writes it comes out tidy, as crash recovery asks |
| Manifests.TidyIsKept | scripts/prepare-release.py:270-290 | rewriting a lock leaves it as it is exactly if each local block has a bare version line at the target, followed by more of the block |
| LeftBehind.StalePluginIsLeft | scripts/prepare-release.py:507-525 | of a family of checkouts whose first run succeeds, whatever their prepared changelog, a crash leaves different for good exactly those with a blank after a lock version or carriage returns in lock or changelog |
| LeftBehind.SomeAreLeft | scripts/prepare-release.py:507-525 | that family has a member, spelled out, with either, for every two different versions |
| Recovery.SecondRun | scripts/prepare-release.py:507-578 | after any crash past the first write, a second run plans nothing if all is at the target, and else brings every file but the lock to the state the first run aimed at, failing only if the lock cannot be rewritten |
| Recovery.WritesLand | scripts/prepare-release.py:556-572 | after k writes exactly the first k of manifest, plugin, lock and changelog have changed, then documents one by one |
| Manifests.LockKeepsBlocks | scripts/prepare-release.py:32-32 | the rewritten lock keeps its blocks and its final newline exactly if no local block ends at its version, save the last one of a lock without that newline |
| Manifests.BlocksRunTogether | scripts/prepare-release.py:270-290 | where a crate's block ends at its version, the mark of the next block runs on in the rewritten version line, spelled out |
| Manifests.LockIsSettled | scripts/prepare-release.py:253-290 | a lock as cargo writes it, each local version line followed by more of its block, can be rewritten, stays so, rewrites to itself, and changes only if some local version did |
| Manifests.LockIsRead | scripts/prepare-release.py:253-267 | a lock is read exactly if each of the five crates, by name, has a block with a version, and for each the last such block counts |
| Manifests.CratesAreRewritten | scripts/prepare-release.py:270-290 | where no local block ends at its version, every block of the five crates keeps its name and is put at the target, and every other block stays as it is |
| Manifests.CratesSettleExactly | scripts/prepare-release.py:270-290 | in any lock that is rewritten every block of the five crates comes out at the target exactly if no crate's block that ends at its version is followed by another package's that is not at the target |
| Manifests.StaleCrateIsLeft | scripts/prepare-release.py:253-290 | the locks that show it: two blocks put before any lock that is rewritten and read back; the larger one is too, and leaves a crate's block at the other package's version |
| Manifests.CargoIsSettled | scripts/prepare-release.py:146-198 | the rewritten workspace manifest reads back as the target and rewrites to itself |
| Manifests.CargoIsRewritten | scripts/prepare-release.py:157-198 | what counts as the version line of the workspace package table, spelled out; the first is what is read, and it is rewritten, at its indentation, exactly if it is the only one |
| Manifests.NoWorkspaceVersionIsRefused | scripts/prepare-release.py:157-198 | a manifest without such a line is refused, read or rewritten |
| Manifests.PluginIsSettled | scripts/prepare-release.py:201-212 | the rewritten plugin manifest reads back as the target, rewrites to itself, and equals the old one if that was at the target |
| Manifests.PluginIsRewritten | scripts/prepare-release.py:201-212 | the first line that is a version field, spelled out, is what is read and has its value alone replaced |
| Manifests.FieldIsSpelled | scripts/prepare-release.py:166-166 | a version field is the word, an equals sign among blanks, and a quoted text that is not empty, up to blanks at the end, and nothing else |
| Manifests.RewriteWorkspaceVersion | scripts/prepare-release.py:176-198 | the line loop replaces the one version line of the workspace package table, indentation kept, and refuses none or several |
| Release.Checkout.Apply | scripts/prepare-release.py:476-578 | a run leaves exactly the planned writes, or those before the crash, and nothing on error; it succeeds exactly if it is not cut short and, having written, verifies |
| Manifests.RepinnedChunks | scripts/prepare-release.py:46-46 | a repinned document, taken apart by the pin pattern, is the original taken apart with every version replaced: prose stays, no pin is lost and none appears |
| Manifests.RepinnedIsPinned | scripts/prepare-release.py:215-222 | every pin ends up at the target, repinning twice is repinning once, and a document is unchanged exactly if its pins were there already |
| Manifests.PinIsSpelled | scripts/prepare-release.py:46-46 | a text starts with a pin exactly if it is `--ref`, blanks, `v` and three numbers with dots between them, with no digit after |
| Manifests.SemverIsSpelled | scripts/prepare-release.py:31-31 | a version is three numbers with dots between them |
| Manifests.DecimalsByZero | scripts/prepare-release.py:31-46 | the ten digits of every script count as digits |
| Manifests.AsciiDecimals | scripts/prepare-release.py:31-46 | among ASCII nothing else does |
| Changelog.ReleaseCutIsPrepared | scripts/prepare-release.py:346-420 | for every changelog the rewriter accepts and a date of one line the result is judged prepared exactly if the URL holds no white space; then no section line but empty ones is lost or moved, the Unreleased body stands verbatim under the new heading, every other link is kept in order |
| Changelog.ReleaseCutIsSpelled | scripts/prepare-release.py:384-420 | such a result, spelled out: the release heading two lines below Unreleased's, whose link compares with the release, and the release's own link, which leads to its tag |
| Changelog.PreparedIsSpelled | scripts/prepare-release.py:346-369 | a changelog is prepared exactly if nothing but white space is under Unreleased, a heading names the release, and both links, among nothing but links, lead where they should |
| Changelog.LinkIsSpelled | scripts/prepare-release.py:33-33 | a line is a link exactly if it is a bracketed name, a colon, blanks and a text without any, up to blanks at the end |
| Changelog.HeadingIsSpelled | scripts/prepare-release.py:34-34 | a line heads a release exactly if it is two hashes, a bracketed version, a dash between blanks and something more |
| Changelog.SectionsStartAtHashes | scripts/prepare-release.py:346-356 | the Unreleased section starts at the first line that begins with its heading, and ends at the next line that begins with two hashes and a blank |
| Changelog.BreaksAndBlanks | scripts/prepare-release.py:328-329 | lines end at the characters `splitlines` ends them at, and blank is what the patterns and `strip` take for white space, by number |
| Judged.CutIsPrepared | scripts/prepare-release.py:346-420 | whatever the URL and date, the result is judged prepared exactly if the URL holds no white space, no line of the new heading is taken for a link, and one of them, or an older heading, names the target; and for no other URL then |
| Judged.NothingIsLeft | scripts/prepare-release.py:346-392 | whatever the URL and date, nothing is left under Unreleased for another cut |
| Judged.TrailedIsNotPrepared | scripts/prepare-release.py:346-420 | cut with a URL that ends in white space, a changelog is prepared for no URL, that without the white space included |
| Changelog.RewriterAccepts | scripts/prepare-release.py:372-420 | the rewriter accepts a changelog exactly if it has an Unreleased section that is not blank and, from its first link on, links only, one of them named Unreleased |
| Changelog.RewriteChangelog | scripts/prepare-release.py:372-420 | the rewriting loop computes that cut, with the same refusals |
| Changelog.RenderEach | scripts/prepare-release.py:396-414 | the link loop repoints Unreleased, places the target once and stops at a line that is no link |
| Calendar.DayNumberIsCounted | crates/board-daemon/src/logging.rs:166-184 | the closed form is the number of days counted one by one on the plain leap-year calendar |
| Calendar.TomorrowAddsOne | crates/board-daemon/src/logging.rs:166-184 | stepping to the next date of the plain calendar adds exactly one |
| Calendar.CivilFromDaysIsExact | crates/board-daemon/src/logging.rs:186-198 | for every day number the result is a valid date with that number |
| Calendar.DayNumberIsInverted | crates/board-daemon/src/logging.rs:176-198 | every valid date is the date computed from its number |
| Calendar.DayNumberIsMonotone | crates/board-daemon/src/logging.rs:176-184 | day numbers order dates as the calendar does |
| Calendar.CheckedDaysAreExact | crates/board-daemon/src/logging.rs:176-184 | the 32-bit computation overflows nowhere exactly on the day numbers that leave room for the epoch shift, and is then right |
| Calendar.CheckedCivilIsExact | crates/board-daemon/src/logging.rs:186-198 | the 64-bit computation of a date overflows nowhere exactly on the day numbers that leave room for the epoch shift, and is then right |
| LogNames.GeneratedNameParsesBack | crates/board-daemon/src/logging.rs:145-205 | the name generated for an instant parses back to its floor day exactly if the year is 0000 to 9999 |
| LogNames.AcceptedNameIsGenerated | crates/board-daemon/src/logging.rs:145-205 | every accepted name is the generated name of every instant of the day it returns |
| LogNames.NameIsSpelled | crates/board-daemon/src/logging.rs:200-205 | the name for any second of a day of the plain calendar, spelled out, years before 0000 included |
| Timestamps.TimestampIsCountedSeconds | crates/board-core/src/protocol.rs:2172-2194 | a well-formed timestamp is 86400 times the plain calendar's day count plus the second of the day |
| Timestamps.TimestampRoundTrip | crates/board-core/src/protocol.rs:2172-2194 | every second of the years 0000 to 9999, written out, is read back as the seconds counted to it |
| Timestamps.NumberIsSigned | crates/board-core/src/protocol.rs:2172-2194 | a field is read as a number exactly if it is digits, with or without a sign, that fit 64 bits |
| Timestamps.TimestampsOrderAsText | crates/board-core/src/protocol.rs:2172-2194 | of two well-formed timestamps one is later exactly if its text is lexicographically larger |
| Timestamps.OmittedSecondsAreZero | crates/board-core/src/protocol.rs:2165-2183 | leaving the seconds out means second zero |
| Wrapping.Wrap | crates/board-tui/src/markdown.rs:272-331 | at every width and with any prefixes the loop ends; its lines draw the styled text but for blank words left out after lines; each line but the last ends, in its own place, before a word it has no room for or within one too wide for any line; with even prefixes a line passes the width only by one character of it that does not fit or, without room, there is one; a blank last line goes |
| Wrapping.WrappingIsDetermined | crates/board-tui/src/markdown.rs:272-331 | these promises leave no choice: where every character fits, any two results keeping them have the same lines, down to the cells they draw |
| Wrapping.PlaceWord | crates/board-tui/src/markdown.rs:284-321 | the inner loop places one word, cutting or dropping it, and keeps all of that: every line it finishes ends where it must |
| Wrapping.SplitWords | crates/board-tui/src/markdown.rs:333-351 | the words put together are the text, each one blank or a maximal stretch without blanks |
| Wrapping.SplitAtWidth | crates/board-tui/src/markdown.rs:353-368 | the parts put together are the text, and the first is the longest that fits |
| Wrapping.TruncateTo | crates/board-tui/src/markdown.rs:370-387 | text that fits is unchanged, other text is the longest leading part that leaves a cell for the ellipsis, at width zero the longest without width |
| Wrapping.WidthOfOne | crates/board-tui/src/markdown.rs:359-359 | a character is as wide as the table says, and no text takes no room |
| Wrapping.LineWidthAddsUp | crates/board-tui/src/markdown.rs:280-299 | a line is as wide as its prefix and its spans together |
| Wrapping.Block | crates/board-tui/src/markdown.rs:87-119 | every line of a block starts with at most the indentation in blanks, fewer where the column is narrower; then a quote with its bar, an item's first line with its marker and later ones with as many blanks, a heading below the first level with two blanks, and nothing else before the text |
| Wrapping.WrappingKeepsInk | crates/board-tui/src/markdown.rs:272-331 | with prefixes removed, the visible characters and their styles over all lines are those of the input, in order |
| Wrapping.FitsExactly | crates/board-tui/src/markdown.rs:284-321 | with even prefixes all lines fit the width exactly if every character drawn fits beside the margin: if all text fits, and only if every character does that is visible, or stands in a word that is not blank before something visible |
| Wrapping.TextFitsExactly | crates/board-tui/src/markdown.rs:284-321 | where no blank of the text is too wide for the room beside the margin, or there is no room, all lines fit exactly if every character of the text fits |
| Wrapping.WideBlankMayGo | crates/board-tui/src/markdown.rs:299-328 | a blank too wide for its room that ends such a word may still be left out: alone on the last line it goes with that line |
| Wrapping.BlockFitsExactly | crates/board-tui/src/markdown.rs:87-119 | the same for a block, its margin being the indentation, capped below the width, and what its marker takes |
| Wrapping.TwoCellsAreEnough | crates/board-tui/src/markdown.rs:284-321 | characters of at most two cells and a margin of at most width less two: every line fits |
| Wrapping.TwoCellsAreNeeded | crates/board-tui/src/markdown.rs:299-316 | with less room than that, a visible two-cell character overflows |
| Wrapping.FullMarginNeverBreaks | crates/board-tui/src/markdown.rs:286-294 | a margin as wide as the column yields one line with the whole text |
| Wrapping.FittingTextIsOneLine | crates/board-tui/src/markdown.rs:286-298 | text that fits beside the first prefix is one line |
| Wrapping.BlockPrefixesAreEven | crates/board-tui/src/markdown.rs:87-119 | each block's continuation prefix is as wide as its first |
| Json.JsonIsLevel | crates/board-core/src/opencode_catalog.rs:144-176 | every text of the RFC 8259 grammar is balanced for the line-by-line scan: no string crosses a newline (section 7), so forgetting the string state there loses nothing |
| Json.SpellingIsDecoded | crates/board-core/src/opencode_catalog.rs:206-214 | a key spelled plainly, or escaped throughout with surrogate pairs (section 7), is read back as it was |
| Json.LastMemberCounts | crates/board-core/src/opencode_catalog.rs:206-214 | of members with the same name the last counts, and every name that can be decoded is among the keys, in order |
| Json.EscapesAreRead | crates/board-core/src/opencode_catalog.rs:206-214 | the short escapes stand for what section 7 of RFC 8259 says, by number |
| Json.HexCounts | crates/board-core/src/opencode_catalog.rs:206-214 | hexadecimal digits count up, in small letters and in capitals |
| Json.ScalarsAreJson | crates/board-core/src/opencode_catalog.rs:206-214 | the grammar takes in the three words, every number, and every string of characters that are neither quote, backslash nor control, or escaped (sections 3 and 7) |
| Json.NumberIsTaken | crates/board-core/src/opencode_catalog.rs:206-214 | a number may have a minus sign, a fraction, and an exponent with either sign (section 6) |
| Json.ListIsJson | crates/board-core/src/opencode_catalog.rs:206-214 | texts in brackets with commas between them are a text again, and so is an empty list (section 5) |
| Json.MembersAreJson | crates/board-core/src/opencode_catalog.rs:206-214 | so are names and texts in braces, with colons and commas (section 4) |
| Json.BlanksAreTaken | crates/board-core/src/opencode_catalog.rs:206-214 | spaces, tabs and line ends may stand around a text (section 2) |
| Catalog.ParseVerboseOutput | crates/board-core/src/opencode_catalog.rs:189-273 | the line loop with its caps, flushes, sort and removal of duplicates computes the listing of what is found |
| Catalog.ClosesObject | crates/board-core/src/opencode_catalog.rs:149-176 | the character loop gives the depth after a line, or None when it falls below zero |
| Catalog.EffortsOfVariants | crates/board-core/src/opencode_catalog.rs:106-123 | the loop over the keys computes the ladder |
| Catalog.LadderIsCanonical | crates/board-core/src/opencode_catalog.rs:81-123 | the ladder holds exactly the efforts the keys name, each once, ascending |
| Catalog.LadderIsSpelled | crates/board-core/src/opencode_catalog.rs:81-123 | the ladder by name: each effort, lowest first, exactly if the variants hold the key that names it, or for the first one of two keys |
| Catalog.CatalogRoundTrip | crates/board-core/src/opencode_catalog.rs:189-273 | printing up to 256 entries with any ids of that form, within the byte cap, in any layout of their objects and with either line end, and parsing the text finds exactly those models, each with the ladder of the keys its printed `variants` holds; the listing is ascending and keeps the first of each id |
| Catalog.BrokenEntriesAreIsolated | crates/board-core/src/opencode_catalog.rs:186-216 | whatever text comes before, entries after it are found as if it were not there, and what it held is kept |
| Catalog.OversizedIsDropped | crates/board-core/src/opencode_catalog.rs:199-247 | an object of more than 65536 bytes is passed over with its header, whatever it holds and however it is laid out, and parsing goes on after it |
| Catalog.BytesAreCounted | crates/board-core/src/opencode_catalog.rs:203-206 | lines are measured in the bytes of their characters: one below U+0080, two below U+0800, three below U+10000, else four |
| Catalog.CatalogIsCapped | crates/board-core/src/opencode_catalog.rs:189-273 | any input yields a strictly id-ascending list of at most 256 models, and neither a header nor the end of input completes an entry |
| Catalog.OpenObjectIsNotFlushed | crates/board-core/src/opencode_catalog.rs:196-220 | lines left at non-zero depth are no JSON text, so flushing them adds nothing |
| Catalog.ObjectLineIsNoHeader | crates/board-core/src/opencode_catalog.rs:125-142 | no line of a JSON object, however laid out, is a model header |
| Catalog.HeaderIsModelId | crates/board-core/src/opencode_catalog.rs:125-142 | a line is a header exactly if, white space around it aside, it is letters, digits, hyphens and underscores, a slash, and more of those or dots, at most 256 in all; and that is the id kept |
| Catalog.ObjectDepth | crates/board-core/src/opencode_catalog.rs:144-176 | an object's lines return to depth zero at the last and not before |
| Catalog.ListingKeepsFirst | crates/board-core/src/opencode_catalog.rs:269-272 | sorting and removing neighbours leaves, for every id, the first model found with it |
| ImportRun.ImportOnlyInserts | crates/board-daemon/src/import.rs:246-270 | at every point of every run each earlier row is there unchanged, though the setters overwrite |
| ImportRun.DryRunWritesNothing | crates/board-daemon/src/import.rs:216-270 | a dry run leaves the database and the changed spaces untouched |
| ImportRun.DryRunPredicts | crates/board-daemon/src/import.rs:172-270 | for any tasks that offer the global mapping before space mappings, dry and real run report the same exactly if the setters accept the rows the dry run plans; then the real run adds exactly those rows |
| ImportRun.FitIsAccepted | crates/board-core/src/db/linear_state.rs:872-916 | rows offered fit for their setters, space mappings after a global one, are accepted from any database |
| ImportRun.RowsFitTheirKeys | crates/board-core/src/db/linear_state.rs:872-1150 | a setter takes only rows of its own kind: mappings with a usable name or global, spaces, worktrees, sessions, and repositories by absolute path in a scope |
| ImportRun.SecondImportIsEmpty | crates/board-daemon/src/import.rs:246-270 | tasks done a second time insert nothing and change nothing |
| ImportRun.OneIssueOneWorktree | crates/board-daemon/src/import.rs:525-563 | if no two worktrees share an issue before, none do after, for every order of tasks and mix of stored and planned rows |
| ImportRun.EveryRecordIsReportedOnce | crates/board-daemon/src/import.rs:227-270 | the three lists together grow by exactly one entry for each task, under its source |
| ImportRun.OnlyOffersAreImported | crates/board-daemon/src/import.rs:246-270 | nothing is imported from a file no record of which is offered |
| ImportRun.OfferIsReported | crates/board-daemon/src/import.rs:234-270 | an offered record adds one item to the report, under its kind and the name of its key, spelled out: imported with the fields it drops, or skipped with what stands in its way |
| ImportRun.ImportKeepsSound | crates/board-core/src/db/linear_state.rs:888-922 | no space is mapped without a global mapping, before or after |
| ImportRun.HoldersInStep | crates/board-daemon/src/import.rs:548-563 | a dry and a real run in step name the same holder of an issue |
| Import.DryImportPredicts | crates/board-daemon/src/import.rs:75-134 | from any database and store a dry run reports exactly what the real run does: no setter refuses what the importer takes from a record; the real run leaves the database with the planned rows added |
| Records.WorktreeOf | crates/board-daemon/src/import.rs:779-817 | what is taken from a binding record passes the checks of the worktree setter |
| Records.WorktreeIsSaid | crates/board-daemon/src/import.rs:779-817 | a binding record is read as a row exactly if that is what its fields say, each column named with its field, and the setter accepts it; every other field that says something is carried |
| Records.WorktreeRoundTrip | crates/board-daemon/src/import.rs:779-817 | the record written for any row of clean text that the setter accepts is read as that row, whatever the fields left behind hold |
| Records.SpaceOf | crates/board-daemon/src/import.rs:429-452 | what is taken from a space record passes the checks of the space setter |
| Records.SpaceIsSaid | crates/board-daemon/src/import.rs:429-452 | a space record is read as a row exactly if it names its workspace, is bound, and that is what its fields say, and the setter accepts it |
| Records.SpaceRoundTrip | crates/board-daemon/src/import.rs:429-452 | the record written for any row of clean text that the setter accepts is read as that row, whatever else it holds |
| Records.ScopeOfSession | crates/board-daemon/src/import.rs:577-588 | what is taken from a session record passes the checks of the session setter |
| Records.ScopeIsSaid | crates/board-daemon/src/import.rs:577-588 | a session record is read as a row exactly if it names its session, is bound, and that is what its fields say, and the setter accepts it |
| Records.ScopeRoundTrip | crates/board-daemon/src/import.rs:577-588 | the record written for any row of clean text that the setter accepts is read as that row, whatever else it holds |
| Records.ConfigOf | crates/board-daemon/src/import.rs:860-882 | what is taken from board.json is a valid grouping, its space names distinct |
| Records.ConfigIsTaken | crates/board-daemon/src/import.rs:860-882 | a board config is taken as it is but for hidden characters in the names of its spaces, exactly if its mappings are valid and the names left usable and different |
| Records.MappingIsSpelled | crates/board-core/src/db/linear_state.rs:186-303 | a mapping gives one or more of four levels different kinds and selects by one or more of ten keys, each with values of its own kind: levels, kinds, keys and values spelled out |
| Records.IssueIsSpelled | crates/board-core/src/db/linear_state.rs:114-132 | an issue is a team of one to ten capitals and digits, a hyphen and a number of one to nine digits, or five groups of hexadecimal digits |
| Records.ScopeKeyIsSpelled | crates/board-core/src/db/linear_state.rs:145-160 | a scope key names a project, a team, or both |
| Records.SettersAreSpelled | crates/board-core/src/db/linear_state.rs:961-1140 | a setter takes a row exactly if every text in it is usable, a worktree's path absolute and its issue one |
| Records.DroppedAreListed | crates/board-daemon/src/import.rs:771-777 | exactly the retiring fields still used, by name, are listed, in their order |
| Records.ReposAreListed | crates/board-daemon/src/import.rs:626-654 | a scope record gives exactly the texts its list of repositories holds, if its file is named for a scope |
| Records.StripControlDrops | crates/board-core/src/text.rs:6-26 | cleaning a text drops exactly its control and format characters, by number, and leaves other text as it is |
| Records.StripControlAppend | crates/board-core/src/text.rs:20-26 | text is cleaned piece by piece, so that nothing is reordered |
| Records.UsableText | crates/board-core/src/db/linear_state.rs:55-99 | usable text is not empty and holds no control character, by number; a usable path begins with a slash |
| Import.ImportingTwiceIsOnce | crates/board-daemon/src/import.rs:75-134 | a second import of a store imports nothing, announces no space and leaves the database equal |
| Import.ImportAnnouncesAdditions | crates/board-daemon/src/import.rs:243-270 | a real import announces exactly the spaces of the rows it added |
| StoreAsks.TasksAreAsked | crates/board-daemon/src/import.rs:75-680 | what a store asks the import for is exactly what its entries ask for one by one, with every file name, path, session, workspace and reason spelled out |
| StoreAsks.AddedRowsAreAsked | crates/board-daemon/src/import.rs:75-680 | every row an import adds is one that an entry of the store asks for |
| Import.FlatRecordIsSuperseded | crates/board-daemon/src/import.rs:386-427 | a flat workspace record is never imported when any session-keyed file names that workspace |
| Import.BindingFilesAreReportedOnce | crates/board-daemon/src/import.rs:328-546 | each entry of the bindings directory is in exactly one of imported, skipped and ignored, once |
| Import.Import.ImportWorkStore | crates/board-daemon/src/import.rs:75-134 | the whole import carries out the tasks of the store in order; a dry run announces no space |
| Import.Import.Insert | crates/board-daemon/src/import.rs:243-270 | an insert is performed unless this is a dry run, and a refusal turns it into a skip |
| Import.Import.ImportBoard | crates/board-daemon/src/import.rs:341-384 | looking up what is mapped once, before inserting, decides as looking it up each time would |
| Import.Import.ImportWorkspaces | crates/board-daemon/src/import.rs:386-427 | keyed records first, then the flat ones not superseded |
| Import.Import.ImportSpaceRecord | crates/board-daemon/src/import.rs:429-484 | one space record: unusable, already there, or offered |
| Import.Import.ImportBindings | crates/board-daemon/src/import.rs:486-546 | the bindings in directory order, other entries ignored first |
| Import.Import.ImportBinding | crates/board-daemon/src/import.rs:489-543 | one binding: unusable, already there, its issue held, or offered |
| Import.Import.IssueHolder | crates/board-daemon/src/import.rs:548-563 | the first other worktree with the issue in path order, planned ones before stored ones |
| Import.Import.ImportContexts | crates/board-daemon/src/import.rs:565-622 | session records by their file names, other files ignored |
| Import.Import.ImportScope | crates/board-daemon/src/import.rs:626-680 | a scope's repositories, existing ones looked up once, decide as looking them up each time would |
| Outbound.QueueRefinesHistory | crates/board-daemon/src/server.rs:40-96 | after any interleaving, delivered and queued items are the accepted history less only board changes directly followed by another; the queue keeps to its capacity and never holds two board changes in a row |
| Outbound.ClosedAcceptsNothing | crates/board-daemon/src/server.rs:58-96 | a closed queue stays closed and accepts nothing, and what it holds can still be taken in order |
| Outbound.RoomIsUsed | crates/board-daemon/src/server.rs:58-88 | in every run an open queue refuses a response exactly if it is full, and an event exactly if, besides, it is no board change after another; only that closes it |
| Outbound.Buffer.PushEvent | crates/board-daemon/src/server.rs:66-88 | coalesces, closes on overflow, or appends; says whether the event was accepted |
| Outbound.Buffer.PushResponse | crates/board-daemon/src/server.rs:58-64 | appends, or hands the line back when closed or full |
| Outbound.Buffer.Pop | crates/board-daemon/src/server.rs:90-96 | takes the oldest entry; an empty queue is no longer under pressure |
| Outbound.NoRefreshIsLost | crates/board-daemon/src/server.rs:348-393 | in every reachable state each board change broadcast since the acknowledgement is still in the channel, or one as new is with the forwarder, queued or delivered, or the queue is closed; lag and coalescing included |
| Outbound.IdleClientIsCurrent | crates/board-daemon/src/server.rs:348-393 | a client with nothing left to read over an open queue has been told of every refresh or a later one |
| Outbound.EventsComeInOrder | crates/board-daemon/src/server.rs:348-367 | events reach the client in the order of the broadcasts they are numbered by, none twice |
| Outbound.EventsAreReports | crates/board-daemon/src/server.rs:348-367 | every event held, queued or delivered is the broadcast it is numbered by, or a board change made up for a lag that ended there |
| Outbound.NoNewsIsLost | crates/board-daemon/src/server.rs:348-393 | whatever else was broadcast since the client was registered, and not dropped by a lag, is still in the channel, or held, queued or delivered as itself, or the queue is closed |
| Outbound.ClientCatchesUp | crates/board-daemon/src/server.rs:348-367 | in every reachable state with an open queue, forwarder and writer alone can bring the client what is queued, what is held and then each broadcast left in the channel, in order, and leave nothing |
| Outbound.RunIsCounted | crates/board-daemon/src/server.rs:370-393 | the channel carries what was broadcast before it was closed, and a client counts from its first registration, and from the first acknowledgement after it |
| Timeout.TimesOutOnSpentTime | crates/board-daemon/src/state.rs:111-128 | over any alternating trace a run not awaiting review has passed its deadline exactly if the ticks it spent not awaiting review reach its budget |
| Timeout.DeadlineAccounts | crates/board-daemon/src/state.rs:111-128 | at any time what is left is the budget less the ticks spent not awaiting review |
| Timeout.RestartsKeepTheBudget | crates/board-daemon/src/state.rs:81-128 | through any number of restarts that find the run unpaused or its deadline ahead, the run times out exactly when that time reaches the budget |
| Timeout.LifeAgrees | crates/board-core/src/db/cards_comments.rs:591-645 | through such a life the durable record accounts the same budget and memory agrees with it |
| Timeout.RestartAgreesIfFair | crates/board-daemon/src/state.rs:81-109 | a restart keeps memory and record in agreement exactly if it finds the run unpaused, its deadline ahead, or comes at the tick of the pause |
| Timeout.LastRestartGrants | crates/board-daemon/src/state.rs:76-128 | through any life with restarts the run times out exactly when the ticks spent not awaiting review reach the budget and what the last restart granted: the time its durable deadline had passed by then |
| Timeout.UnfairRestart | crates/board-daemon/src/state.rs:93-109 | such a restart, with numbers: ninety ticks are granted |
| Timeout.AdoptionKeepsRemaining | crates/board-daemon/src/state.rs:76-91 | an adopted run keeps exactly max(0, durable deadline - now), and has no limit exactly if there was no durable deadline |
| Timeout.AdoptionKeepsPaused | crates/board-daemon/src/state.rs:93-128 | a paused run resumes with durable deadline - pause start exactly if that deadline is ahead at adoption, else with the time from pause to adoption |
| Timeout.ClocksByNumber | crates/board-daemon/src/state.rs:76-109 | what the two clocks can show and where their arithmetic saturates, by number |
| Timeout.ActiveRun.LeaveAwaiting | crates/board-daemon/src/state.rs:118-128 | shifts the deadline by the pause, zero for a clock that went back |
| Timeout.ActiveRun.EnterAwaiting | crates/board-daemon/src/state.rs:111-116 | starts the pause, stops watching for idleness and leaves the deadline alone |
| Watch.WatchState.RefreshWatch | crates/board-daemon/src/state.rs:322-350 | installs the grouping of the active panes whatever the order of iteration, as the next generation exactly if it differs |
| Watch.GroupingIsUnique | crates/board-daemon/src/state.rs:329-344 | sorted panes per socket, each as often as runs show it: there is one such grouping |
| Watch.GroupingIsSpelled | crates/board-daemon/src/state.rs:329-344 | a socket is watched exactly if a run shows a pane there, on its own socket or, having none, on the default one; each pane is listed as often as such runs show it |
| Watch.GenerationTellsGrouping | crates/board-daemon/src/state.rs:345-350 | across any sequence of calls equal generations mean equal groupings, and a call raises the generation exactly if it changes the grouping |

## Left out

- Manifests: `bump_semver`, the `plan` and `files` commands, running git to find the remote, and the mechanics of an atomic file replacement. Manifests are held as lines, so a version pattern that matches across a line break, line terminators other than newline and carriage return, and the newline at a manifest's end are not modelled; the lock's final newline is, and so are files stored with carriage returns.
- Manifests.CargoIsSettled: reads the version back by the source's own line scan, not by `tomllib`.
- Manifests.RepinnedChunks: the decimal digits are those of Unicode 14.0; a later table has more.
- Manifests.ParseWorkspaceVersion: follows the source's own line scan; `tomllib`, used where present, may read other spellings.
- Release.Plan: a URL and a date hold no carriage return, which would be read back as a newline.
- Manifests.IsSemver: no newline after the version, which the source's pattern accepts.
- Changelog.ReleaseCutIsPrepared: for targets and dates as the tool produces them; what a date of several lines leaves verbatim is not stated. Lines hold no carriage return, as text once read does not (`Release.AsReadHoldsNoReturn`); which files hold some on disk is part of `Release.Files`.
- Calendar.DayNumberIsCounted: unbounded integers; what 32-bit arithmetic does is `CheckedDaysAreExact` and `NarrowToI32`.
- LogNames: opening, pruning and protecting the log files.
- Wrapping.Wrap: the width table is additive over characters and a parameter; `inline` and its styles, tables, fences and media placeholders are left out.
- Wrapping.Block: takes the shape of a line; recognising headings, quotes and list items is left out, and so are the line drawn for an empty one and the placeholder for media.
- Catalog.CatalogRoundTrip: the JSON decoder is a parameter that accepts no text outside the grammar, reads the printed objects and returns the keys of their `variants`. Running the CLI, its timeout and the fallback models are left out.
- Import: opening and trusting record files, decoding and sanitising nested JSON, and failures of the database itself; the wording of reasons; positions of spaces and repositories in their lists.
- Import.Import.ImportBoard: requires that no space is mapped without a global mapping, which every setter of the board keeps.
- Outbound: waiting, waking and locking in `Outbox`; a client can catch up (`ClientCatchesUp`), but that it does is not claimed.
- Outbound.Act: the channel may drop any number of the oldest events; its capacity is left out.
- Timeout: both clocks tick in milliseconds, and between restarts they advance together; the part of the monotonic clock below a millisecond is left out.
- Timeout.ActiveRun.LeaveAwaiting: requires that the shifted deadline is an instant, as the source's addition does.
- Watch.WatchState.RefreshWatch: one caller at a time; the source computes the grouping under one lock and installs it under another. The generation is unbounded.
- The supervisor, dispatch, session rescue, MCP tools, command line, terminal UI and the end-to-end harness are not part of this model.
