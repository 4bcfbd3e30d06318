# Verified model of the personal and rental-housing monitors

Dafny models of the parts of the repository whose correctness needs an argument, each
with the properties the program relies on. `dafny verify dfyconfig.toml` checks them all.

| part | modules | main results |
|---|---|---|
| Browser-profile archive | `ProfilePath`, `ProfileArchive`, `ProfileTree` | bytes to entries and entries to tree are round trips; accepted archives are exactly the canonical ones |
| Codex protocol stream | `CodexStream`, `CodexEvents`, `JsonWalk` | framing does not depend on chunking, with the one exact exception; the accepted streams are one grammar; the stack walk refines the recursion |
| XPath scoping | `ScopeXpath` | only inserts dots, keeps literals, idempotent |
| One-time actions | `ActionPayload`, `PendingActions`, `ActionHistory` | what is stored can be read back; safety over every interleaving of create, consume, claim, discard, revoke and maintenance; which calls succeed, exactly, by what was called before |
| Change detection | `Observation`, `Rules`, `MonitorRun` | rules on the diff equal rules on everything |
| Fetch machine | `FetchMachine` | every fetch is acquired and allowed first by the world's own answer; the answers determine every step; everything is bounded |
| Retention | `Retention` | exactly when a run succeeds, what it removes, exactly when runs compose, and why the order matters |
| Legacy import | `Timestamps`, `RentalSource`, `RentalImport`, `RentalImportLaws`, `RentalImportMeaning`, `RentalImportCheck` | exactly when an import is accepted and which rows it adds, idempotence, faithful dry runs, and the exact relation between the importer and the independent check of its result |
| Cutover gate | `Shadow` | what readiness proves, and what takes it away |
| Legacy delivery | `LegacyDelivery`, `LegacyDeliveryMeaning`, `SplitMessage` | sends, marks, failing commits and crashes over whole histories; what a run returns, sends and stores; message splitting |

`Order`, `Utf8`, `JsonText`, `Decimals` and `Digest` are shared: Python's order on text and
bytes, UTF-8, JSON (RFC 8259) as Python's `json` reads and writes it, decimal digits, and
SHA-256. `Formats` writes the bytes and texts out.

Code that updates state is modelled by methods and classes over that state, proved against
a specification function or predicate; the laws are lemmas about the specification. Lemmas
named `...Means` say of a specification, without its helper functions, what it amounts to.

## What the proofs found

- A stream line of exactly `MAX_LINE_BYTES` followed by a carriage return is accepted or
  refused depending on where the chunks are cut. `CodexStream.ChunkIndependentIff` says this
  is the only such case, `CodexStream.ChunkingMatters` gives such a stream, and
  `CodexEvents.PaddedStreamDepends` makes one of every accepted event stream that leaves room
  for one more line, by putting spaces in front of its first line.
- A word operator written directly before a slash gets the inserted dot into its name when
  the selector is scanned again. It then stops being an operator, which still leaves the slash
  outside operand position, so idempotence holds (`ScopeXpath.ScopeIdempotent`).
- With warnings, an item outside the batch is reported as changed exactly when it holds a NaN.
  Stored items never do, because storage prints JSON without NaN
  (`MonitorRun.WarningsKeepItems`).
- A retention run is refused as a whole, now and in every later run, while an expired monitor
  has a duplicate-probe row: retention does not delete that row and its foreign key holds
  (`Retention.Maintenance.Run`, `ProbeBlocksForever`; `ProbedDatabase` gives such a database).
  Of the databases the program writes, where a version derives from one of its own monitor,
  these are the only ones refused (`Retention.BlockedIffProbed`).
- Running at t1 and then at t2 is not always running at t2 alone: when the run at t2 is refused
  it brings nothing back that the run at t1 deleted. The tables agree exactly when the run at
  t2 succeeds, or the run at t1 was refused too, or nothing was due at t1
  (`Retention.RunsCompose`; `RefusedRunDoesNotCompose` gives, for any two times, a database
  where they differ).
- The check of an imported aggregate accepts two kinds of state that no import into an empty
  database leaves: a target address equal to the legacy alias, and a baseline delivery dated
  exactly at the marker's time. Apart from these it accepts exactly the images of well-formed
  sources (`RentalImportCheck.ImageExactly`, `AliasIsAccepted`, `LateBaselineIsAccepted`;
  `ExceptionsExist` gives an import one changed cell away from either). An import into any
  other database leaves either of them exactly when it was there before (`AliasOnlyIfThere`,
  `LateBaselineOnlyIfThere`).
- The legacy monitor can add a delivery row it does not count. When a mark's commit raises, as
  it does while a reader holds its lock, the insert stays in the open transaction, and the
  commit that stores the run's row, or else the compaction's, takes it along. The stored count
  is the rows added if and only if this did not happen (`LegacyDelivery.NewCountIsRowsAdded`,
  `RowsAdded`; `UncountedRow` is such a run).

## Assumptions

- SHA-256 is injective: `Digest.Sha256` keeps the text it was computed from.
- Text is a sequence of Unicode scalar values; lone surrogates, which UTF-8 cannot carry and
  every modelled boundary refuses, do not occur.
- Unicode tables and other library facts are parameters: normalisation, case folding, character
  categories, which characters are letters, digits or spaces, and how `float` reads a
  decimal token. A lemma that needs a fact about one says so in its `requires`.
- A float is its `repr` token where it is stored, and its exact value or an infinity or NaN
  where it is compared.
- Instants are integers, except in `Timestamps`, where the texts themselves are compared.
- The network, policies, the page, collectors, Telegram, clocks and failures are arbitrary: a
  theorem holds for every answer they may give.
- In the personal monitor's database, with its write-ahead log and immediate transactions, SQLite
  rolls back a transaction whose commit fails. In the legacy database it need not, and
  `LegacyDelivery` has both. One process at a time writes to the legacy database.
- Dicts are kept in key order where order does not matter, so that equal dicts are equal values.

## Model

| member | source | states |
|---|---|---|
| ProfilePath.PartsJoin | rental-housing-monitor/src/personal_monitor/scraping/profiles.py:1044-1067 | the parts of joined names are those names again |
| ProfilePath.ValidPathNames | rental-housing-monitor/src/personal_monitor/scraping/profiles.py:1044-1067 | an accepted archive path is exactly its parts joined by slashes, each part a file name |
| ProfilePath.AncestorLess | rental-housing-monitor/src/personal_monitor/scraping/profiles.py:725-728 | in UTF-8 path order a directory comes before everything below it |
| ProfileArchive.ValidateEntries | rental-housing-monitor/src/personal_monitor/scraping/profiles.py:849-879 | the loop over seen paths, types, previous path and total accepts exactly the lists that are ordered, collision-free, parents first and within the limits |
| ProfileArchive.AdmitExact | rental-housing-monitor/src/personal_monitor/scraping/profiles.py:849-879 | the loop's running checks decide exactly whether one more entry keeps the list valid |
| ProfileArchive.Build | rental-housing-monitor/src/personal_monitor/scraping/profiles.py:823-846 | the magic, the four-byte length, the canonical manifest and the payloads, for exactly the valid lists within the size limits |
| ProfileArchive.DecodeArchive | rental-housing-monitor/src/personal_monitor/scraping/profiles.py:882-944 | the decoder's loops and its final rebuild comparison return the entries of exactly the archives that some valid list builds |
| ProfileArchive.DecodeBuilt | rental-housing-monitor/src/personal_monitor/scraping/profiles.py:823-944 | decoding a built archive returns exactly its entries, for every valid list |
| ProfileArchive.RebuildAgrees | rental-housing-monitor/src/personal_monitor/scraping/profiles.py:942-943 | the rebuild comparison never refuses an archive that passed the structural checks |
| ProfileArchive.AcceptedIffBuilt | rental-housing-monitor/src/personal_monitor/scraping/profiles.py:882-944 | the accepted archives are exactly the built ones, each for one list, so decoding is injective |
| ProfileTree.ScanDirectory | rental-housing-monitor/src/personal_monitor/scraping/profiles.py:738-820 | the depth-first scan into one shared list gives the listing of the tree, or fails exactly when an entry or the capacity does |
| ProfileTree.ScanIsListing | rental-housing-monitor/src/personal_monitor/scraping/profiles.py:738-820 | checking the capacity after each append refuses exactly the trees whose whole listing does not fit |
| ProfileTree.ScannedTreeSorts | rental-housing-monitor/src/personal_monitor/scraping/profiles.py:720-735 | sorting a scanned tree by UTF-8 path puts every parent before its children and every path once, so the parent check cannot fail on it |
| ProfileTree.ScannedTreeRecorded | rental-housing-monitor/src/personal_monitor/scraping/profiles.py:720-820 | the entries of a scanned tree answer every lookup as the tree does |
| ProfileTree.MaterializeValid | rental-housing-monitor/src/personal_monitor/scraping/profiles.py:968-1041 | extracting a valid list never meets a missing parent or a taken name and leaves exactly the recorded entries |
| ProfileTree.ExtractArchive | rental-housing-monitor/src/personal_monitor/scraping/profiles.py:968-1041 | extraction into an empty workspace succeeds for exactly the accepted archives and leaves the tree of their entries |
| ProfileTree.ExtractEncoded | rental-housing-monitor/src/personal_monitor/scraping/profiles.py:720-1041 | extracting the archive of a tree restores the tree, whenever its scan builds |
| ProfileTree.EncodeExtracted | rental-housing-monitor/src/personal_monitor/scraping/profiles.py:720-1041 | scanning an extracted archive again gives back the same bytes |
| ProfileTree.OrderedUnique | rental-housing-monitor/src/personal_monitor/scraping/profiles.py:725-728 | two lists in strict path order with the same members are the same list |
| Formats.ArchiveMeans | rental-housing-monitor/src/personal_monitor/scraping/profiles.py:823-846 | the bytes of an archive: the magic, the manifest's length with the most significant byte first, the manifest as printed JSON, the contents |
| Formats.ArchiveExists | rental-housing-monitor/src/personal_monitor/scraping/profiles.py:823-846 | which lists have an archive, in numbers |
| Formats.PathMeans | rental-housing-monitor/src/personal_monitor/scraping/profiles.py:1044-1067 | which paths an archive may hold, in numbers |
| Formats.PartsMean | rental-housing-monitor/src/personal_monitor/scraping/profiles.py:1044-1067 | the parts of a path are what stands between its slashes, but for empty parts and dots |
| Formats.ParentMeans | rental-housing-monitor/src/personal_monitor/scraping/profiles.py:858-866 | the parent of a path is the path of all its names but the last |
| Utf8.DecodeEncode | rental-housing-monitor/src/personal_monitor/scraping/profiles.py:882-902 | UTF-8 decoding undoes encoding for every text |
| Utf8.EncodeDecode | rental-housing-monitor/src/personal_monitor/scraping/profiles.py:882-902 | the decoder accepts only what the encoder writes |
| Formats.Utf8Means | rental-housing-monitor/src/personal_monitor/scraping/profiles.py:725-728 | the byte layout of every scalar value, as in section 3 of RFC 3629 |
| JsonText.LoadsPrinted | rental-housing-monitor/src/personal_monitor/storage/schema.py:401-408 | `json.loads` undoes canonical JSON printing for every value a program can hold, floats and nested containers included |
| JsonText.PrintInjective | rental-housing-monitor/src/personal_monitor/storage/schema.py:401-408 | canonical JSON determines the value, so equal texts or digests mean equal values |
| Formats.IntMeans | rental-housing-monitor/src/personal_monitor/storage/schema.py:401-408 | integers are printed in base ten |
| Formats.StringMeans | rental-housing-monitor/src/personal_monitor/storage/schema.py:401-408 | strings keep every character but the quote, the backslash and the controls, which are escaped |
| Formats.ListMeans | rental-housing-monitor/src/personal_monitor/storage/schema.py:401-408 | lists are printed without spaces |
| Formats.ObjectMeans | rental-housing-monitor/src/personal_monitor/storage/schema.py:401-408 | objects are printed without spaces, members in order |
| Formats.CharacterRead | rental-housing-monitor/src/personal_monitor/control/actions.py:433-446 | a character of a string is read as itself, or as one of eight escapes |
| Formats.UnicodeRead | rental-housing-monitor/src/personal_monitor/control/actions.py:433-446 | a four-digit escape is its code unit |
| Formats.SurrogatesRead | rental-housing-monitor/src/personal_monitor/control/actions.py:433-446 | two that form a surrogate pair are one character |
| Formats.NumberRead | rental-housing-monitor/src/personal_monitor/control/actions.py:433-446 | what is read as a number is a number token with its value, and a text is refused only when no prefix of it is an integer token |
| JsonText.FromPairsAscends | rental-housing-monitor/src/personal_monitor/storage/schema.py:401-408 | a dict built from any pairs is represented with its keys strictly in order |
| JsonText.FromPairsMeans | rental-housing-monitor/src/personal_monitor/control/actions.py:433-446 | of several pairs with one key `dict` keeps the last |
| CodexStream.ReadStream | rental-housing-monitor/src/personal_monitor/ai/codex_cli.py:334-384 | the reader's state after any chunks is that of the framing specification of their concatenation, up to the pending-size test |
| CodexStream.DrainLines | rental-housing-monitor/src/personal_monitor/ai/codex_cli.py:354-371 | the inner loop takes exactly the complete lines off the buffer, stopping at the first one refused |
| CodexStream.ChunkIndependentIff | rental-housing-monitor/src/personal_monitor/ai/codex_cli.py:334-384 | the outcome depends only on the concatenation if and only if the stream is not acceptable with a line of exactly the maximal content before its carriage return; otherwise one delivery is accepted and another refused |
| CodexStream.ChunkingMatters | rental-housing-monitor/src/personal_monitor/ai/codex_cli.py:345-371 | standard error made of one line of the maximal content, ended by a carriage return and a newline, is acceptable and its outcome depends on the cut |
| CodexStream.OverrunShape | rental-housing-monitor/src/personal_monitor/ai/codex_cli.py:345-357 | pending bytes of an acceptable stream exceed a line only between the carriage return and the newline of such a line |
| CodexStream.PrefixRefused | rental-housing-monitor/src/personal_monitor/ai/codex_cli.py:334-384 | a prefix that is too long or has a refused line dooms the whole stream |
| CodexStream.LinesMean | rental-housing-monitor/src/personal_monitor/ai/codex_cli.py:354-371 | a stream is its lines, each ended by a newline, and what follows the last one |
| CodexStream.AcceptsMeans | rental-housing-monitor/src/personal_monitor/ai/codex_cli.py:334-384 | standard error is acceptable exactly within its byte count, its line count and the length of each line without its carriage return, in numbers |
| CodexStream.OutcomeMeans | rental-housing-monitor/src/personal_monitor/ai/codex_cli.py:334-384 | the reader returns the stream exactly when it is acceptable and no chunk without a newline left more than 131072 bytes pending |
| CodexEvents.EventObjectMeans | rental-housing-monitor/src/personal_monitor/ai/codex_cli.py:216-234 | an accepted event object answers every key with its first value, and repeats a key only for the id of a web search |
| CodexEvents.TurnGrammar | rental-housing-monitor/src/personal_monitor/ai/codex_cli.py:271-331 | a list of lines is accepted exactly when it spells thread.started, turn.started, allowed items, turn.completed |
| CodexEvents.AcceptedEventStreams | rental-housing-monitor/src/personal_monitor/ai/codex_cli.py:271-384 | the accepted event streams are exactly those within the limits whose lines spell one complete turn |
| CodexEvents.PaddedStreamDepends | rental-housing-monitor/src/personal_monitor/ai/codex_cli.py:334-384 | every accepted event stream with room for one more line, its first line filled up with leading spaces, is still accepted and its outcome depends on the cut |
| CodexEvents.EventObjectExactly | rental-housing-monitor/src/personal_monitor/ai/codex_cli.py:216-234 | an event object is accepted exactly when no key repeats, or only `id` does, always with identifiers, in an object of type `web_search` |
| CodexEvents.EventsMean | rental-housing-monitor/src/personal_monitor/ai/codex_cli.py:271-316 | which keys the thread, turn, web-search and text events have and what they hold |
| CodexEvents.CompletedMeans | rental-housing-monitor/src/personal_monitor/ai/codex_cli.py:317-331 | the last event holds three token counts and perhaps a fourth |
| CodexEvents.IntegersRead | rental-housing-monitor/src/personal_monitor/ai/codex_cli.py:201-204 | integers of at most nineteen digits are read |
| CodexEvents.EventLinesMean | rental-housing-monitor/src/personal_monitor/ai/codex_cli.py:354-384 | the lines validated: those a newline ends, without a carriage return before it, and what follows the last one |
| JsonWalk.Walk | rental-housing-monitor/src/personal_monitor/ai/codex_cli.py:237-268 | the stack walk terminates and accepts exactly the values whose node count, keys included, depth and sizes are within the recursive bounds |
| JsonWalk.BoundsMean | rental-housing-monitor/src/personal_monitor/ai/codex_cli.py:237-268 | the bounds in numbers: nodes, depth, entries, characters and bytes of texts and keys |
| JsonWalk.NodesMean | rental-housing-monitor/src/personal_monitor/ai/codex_cli.py:237-268 | every value counts one, and so does every key |
| ScopeXpath.ScopeSelector | rental-housing-monitor/src/personal_monitor/scraping/extractor.py:138-216 | the scanning loop computes the scoped selector |
| ScopeXpath.TokenSize | rental-housing-monitor/src/personal_monitor/scraping/extractor.py:150-206 | the inner loops find the end of each token |
| ScopeXpath.ScopeInsertsDots | rental-housing-monitor/src/personal_monitor/scraping/extractor.py:138-216 | erasing the inserted dots gives the selector back; dots go only in front of slashes |
| ScopeXpath.ScopeSettles | rental-housing-monitor/src/personal_monitor/scraping/extractor.py:138-216 | the scan of the output finds no slash in operand position and the same quoted literals |
| ScopeXpath.SettledUnchanged | rental-housing-monitor/src/personal_monitor/scraping/extractor.py:138-216 | a selector without a slash in operand position is left as it is |
| ScopeXpath.ScopeIdempotent | rental-housing-monitor/src/personal_monitor/scraping/extractor.py:138-216 | scoping twice is scoping once |
| ScopeXpath.MarksScoped | rental-housing-monitor/src/personal_monitor/scraping/extractor.py:157-175 | a dot goes in front of a single or double slash exactly where an operand is expected, and after it one is; after an axis one is; a dot or two is one |
| ScopeXpath.CharacterScoped | rental-housing-monitor/src/personal_monitor/scraping/extractor.py:203-216 | what every other single character does to whether an operand is expected: spaces, brackets, separators, comparisons, signs, the star |
| ScopeXpath.LiteralScoped | rental-housing-monitor/src/personal_monitor/scraping/extractor.py:148-156 | a quoted literal is copied up to its closing quote, or to the end, and is an operand |
| ScopeXpath.NumberScoped | rental-housing-monitor/src/personal_monitor/scraping/extractor.py:176-183 | a number is the longest run of digits and dots after a digit, and is an operand |
| ScopeXpath.NameScoped | rental-housing-monitor/src/personal_monitor/scraping/extractor.py:184-202 | a name is the longest run that continues it; it is an operator exactly where no operand is expected and it is one of the words |
| ActionPayload.ValidateMeans | rental-housing-monitor/src/personal_monitor/control/actions.py:465-490 | the recursion with its shared counter accepts exactly the payloads whose values number at most 1024 and fit every bound, wherever the counter runs out, and gives their JSON value |
| ActionPayload.JsonNestingIsSafe | rental-housing-monitor/src/personal_monitor/control/actions.py:512-535 | the scanning loop accepts exactly the texts whose strings close and whose brackets outside strings never close early, never stay open and nest at most sixteen deep |
| ActionPayload.PrintedNesting | rental-housing-monitor/src/personal_monitor/control/actions.py:512-535 | on printed JSON the scanner's peak depth is the container nesting of the value |
| ActionPayload.StoredIsReread | rental-housing-monitor/src/personal_monitor/control/actions.py:433-462 | whatever is stored passes the scanner, parses, prints to the identical text and freezes to the identical value, and the frozen value is accepted again unchanged |
| ActionPayload.AcceptedTexts | rental-housing-monitor/src/personal_monitor/control/actions.py:433-462 | the stored texts a consume accepts are exactly those a create can store |
| ActionPayload.PayloadMeans | rental-housing-monitor/src/personal_monitor/control/actions.py:449-462 | a payload is accepted exactly as a mapping of at most 1024 values that fits and prints to at most 65536 bytes; stored is its text, handed out its frozen value |
| ActionPayload.FitsMeans | rental-housing-monitor/src/personal_monitor/control/actions.py:465-502 | what fits, for each kind of value, in numbers |
| ActionPayload.NodesMean | rental-housing-monitor/src/personal_monitor/control/actions.py:465-490 | values are counted, mapping keys are not |
| ActionPayload.ImageMeans | rental-housing-monitor/src/personal_monitor/control/actions.py:465-490 | the JSON value of a payload: mappings are objects, lists and tuples arrays |
| ActionPayload.FrozenMeans | rental-housing-monitor/src/personal_monitor/control/actions.py:504-509 | what is handed out is read-only all the way down: arrays as tuples, objects as proxies |
| PendingActions.PendingActionService.CreateAction | rental-housing-monitor/src/personal_monitor/control/actions.py:129-180 | create inserts the row or leaves the table alone, as the step function says |
| PendingActions.PendingActionService.ConsumeAction | rental-housing-monitor/src/personal_monitor/control/actions.py:267-336 | consume checks the row, its stored payload and its canonical expiry text, marks the row and registers a receipt; wherever the transaction raises, the row is rolled back, by the program or, for a failed commit, by SQLite, and the handler removes that very receipt |
| PendingActions.PendingActionService.ClaimReceipt | rental-housing-monitor/src/personal_monitor/control/actions.py:338-363 | claim removes the exact receipt once its fingerprint matches |
| PendingActions.PendingActionService.DiscardReceipt | rental-housing-monitor/src/personal_monitor/control/actions.py:365-375 | discard removes the exact receipt |
| PendingActions.PendingActionService.RevokeAction | rental-housing-monitor/src/personal_monitor/control/actions.py:225-243 | revoke deletes only the owner's unconsumed row |
| PendingActions.YieldsWithinIssues | rental-housing-monitor/src/personal_monitor/control/actions.py:129-336 | over every interleaving a token yields no more receipts than it was issued |
| PendingActions.OneReceiptPerToken | rental-housing-monitor/src/personal_monitor/control/actions.py:129-336 | with fresh tokens each token yields at most one receipt |
| PendingActions.SpendsAtMostOnce | rental-housing-monitor/src/personal_monitor/control/actions.py:338-375 | every receipt is claimed or discarded at most once, and only after it was handed out |
| PendingActions.ClaimHasOrigin | rental-housing-monitor/src/personal_monitor/control/actions.py:129-363 | a successful claim implies an earlier consume by the creating owner, strictly before expiry, of the created action and payload |
| PendingActions.ClaimExactly | rental-housing-monitor/src/personal_monitor/control/actions.py:338-363 | in reachable states a claim succeeds exactly on a held receipt: the fingerprint never refuses a genuine one |
| PendingActions.ConsumeExactly | rental-housing-monitor/src/personal_monitor/control/actions.py:267-336 | in reachable states a well-formed consume succeeds exactly on the owner's unconsumed, unexpired row: the stored payload, action and expiry text are never refused |
| PendingActions.FailedTransactionLeavesNothing | rental-housing-monitor/src/personal_monitor/control/actions.py:286-336 | in reachable states, whether the transaction raises at its begin, its statement, after it or at the commit, no row is changed and no receipt is left |
| PendingActions.MaintenanceIsInvisible | rental-housing-monitor/src/personal_monitor/maintenance.py:28-32 | with a monotone clock and fresh tokens, interleaved maintenance never changes what any other operation returns |
| ActionHistory.RowStep | rental-housing-monitor/src/personal_monitor/control/actions.py:129-336 | a step changes the row of a token in four ways only: it is issued where it was not, consumed, revoked unconsumed by its owner, or found consumed or expired over a day ago by maintenance; the written row is given column by column |
| ActionHistory.CreateSucceeds | rental-housing-monitor/src/personal_monitor/control/actions.py:129-180 | a create issues the token exactly for a valid owner, action, payload and token, an expiry that fits, no row under the token and a transaction that goes through; the expiry is ten minutes on |
| ActionHistory.RevokeLeaves | rental-housing-monitor/src/personal_monitor/control/actions.py:225-243 | a revoke by another owner, of a consumed row or of none, or one that fails, leaves every row as it was, and no revoke touches the row of another token |
| ActionHistory.RowsAreHistory | rental-housing-monitor/src/personal_monitor/control/actions.py:129-336 | over every run a token has an unconsumed row exactly when it was issued and since then neither consumed, nor revoked by its owner, nor cleared away, and the row holds what was then created; likewise for a consumed row |
| ActionHistory.ConsumeByHistory | rental-housing-monitor/src/personal_monitor/control/actions.py:254-336 | over every run a consume succeeds exactly when it is well formed and the caller was issued the token less than ten minutes before and nothing has ended it since; its receipt is for the action and payload then created |
| ActionHistory.RevokedIsDenied | rental-housing-monitor/src/personal_monitor/control/actions.py:225-243 | after a revoke by its owner is done a token is not handed out again, whatever else happens, until it is issued again |
| ActionHistory.RevokeTakesAway | rental-housing-monitor/src/personal_monitor/control/actions.py:225-243 | a token that could be consumed cannot be once its owner revoked it |
| ActionHistory.ReceiptsAreHistory | rental-housing-monitor/src/personal_monitor/control/actions.py:338-375 | over every run the service holds a receipt exactly when a consume handed it out and it was neither claimed nor discarded since |
| ActionHistory.ClaimByHistory | rental-housing-monitor/src/personal_monitor/control/actions.py:338-375 | over every run a claim or discard succeeds exactly on such a receipt and changes no row |
| ActionHistory.OwnerMeans | rental-housing-monitor/src/personal_monitor/control/actions.py:22-23 | an owner is `telegram-user:` and a positive number of at most nineteen digits |
| Observation.DiffItems | rental-housing-monitor/src/personal_monitor/domain/observation.py:90-138 | the loop over sorted ids computes the diff |
| Observation.PyEqualMeans | rental-housing-monitor/src/personal_monitor/domain/observation.py:90-138 | equality of field values constructor by constructor: None and texts equal only themselves, bools are 0 and 1, ints and floats equal as numbers, an infinity equals itself and NaN nothing |
| Observation.DiffListsChanges | rental-housing-monitor/src/personal_monitor/domain/observation.py:90-138 | a change is listed exactly when it is the change of its id |
| Observation.DiffIdsAscend | rental-housing-monitor/src/personal_monitor/domain/observation.py:96 | the ids of a diff are strictly ascending |
| Observation.DiffApplies | rental-housing-monitor/src/personal_monitor/domain/observation.py:90-138 | applied to the previous items the diff gives the current ones, up to absent-or-None fields and values Python calls equal |
| Observation.DiffInverts | rental-housing-monitor/src/personal_monitor/domain/observation.py:90-138 | the diff in the opposite direction is the exact inverse, and the diff is unique |
| Observation.DiffEmptyIffAgree | rental-housing-monitor/src/personal_monitor/domain/observation.py:90-138 | the diff is empty exactly when the snapshots agree |
| Rules.EvaluateRules | rental-housing-monitor/src/personal_monitor/domain/rules.py:18-45 | the rule loop gives the matches of all rules in rule order |
| Rules.UnchangedIsSilent | rental-housing-monitor/src/personal_monitor/domain/rules.py:18-83 | no rule kind matches an item whose every field equals the previous one, for all scalars, bools equal to numbers and infinities included |
| Rules.EqualDoesNotCross | rental-housing-monitor/src/personal_monitor/domain/rules.py:48-69 | equal values never cross a numeric threshold |
| Rules.MatchesConcat | rental-housing-monitor/src/personal_monitor/domain/rules.py:18-45 | the matches of a rule list are those of its parts, in order |
| Rules.NewItemMeans | rental-housing-monitor/src/personal_monitor/domain/rules.py:30-33 | a new-item rule matches exactly a new item, and carries no values |
| Rules.MatchCarries | rental-housing-monitor/src/personal_monitor/domain/rules.py:32-44 | a match of any other kind carries the rule's kind and field, the previous value and the current one |
| Rules.FieldChangedMeans | rental-housing-monitor/src/personal_monitor/domain/rules.py:36 | a field-changed rule matches exactly when the values are unequal as Python compares them |
| Rules.StatusEqualsMeans | rental-housing-monitor/src/personal_monitor/domain/rules.py:41 | a status rule matches exactly when the field equals its value now and did not before |
| Rules.KeywordMatchMeans | rental-housing-monitor/src/personal_monitor/domain/rules.py:72-83 | a keyword rule matches exactly when the text now contains some folded keyword and the text before contained none |
| Rules.FirstCrossing | rental-housing-monitor/src/personal_monitor/domain/rules.py:48-69 | a number with no previous value crosses exactly by the inequality of its operator, for each of the five |
| Rules.LaterCrossing | rental-housing-monitor/src/personal_monitor/domain/rules.py:48-69 | a number after a previous number crosses exactly when it satisfies that inequality and the previous one did not, written out for each operator |
| Rules.InfiniteCrossing | rental-housing-monitor/src/personal_monitor/domain/rules.py:57-69 | infinite values against finite thresholds, and NaN |
| Rules.InfiniteThreshold | rental-housing-monitor/src/personal_monitor/domain/rules.py:57-69 | infinite and NaN thresholds |
| Rules.CrossingIsNews | rental-housing-monitor/src/personal_monitor/domain/rules.py:48-54 | for all numbers a value crosses exactly when it would on its own and the previous number would not have |
| Rules.NoCrossing | rental-housing-monitor/src/personal_monitor/domain/rules.py:48-54 | a bool, a text or a missing value never crosses, is no threshold, and lets nothing cross after it but a missing one |
| MonitorRun.CurrentItems | rental-housing-monitor/src/personal_monitor/engine/runner.py:344-349 | the merge with warnings keeps every previous item, overlaid by the batch |
| MonitorRun.WarningsKeepItems | rental-housing-monitor/src/personal_monitor/engine/runner.py:344-349 | with warnings no change is a removal, and an item outside the batch is reported exactly when it holds a NaN |
| MonitorRun.IncrementalIsFull | rental-housing-monitor/src/personal_monitor/engine/runner.py:162-187 | rules evaluated on the diff find exactly what rules evaluated on every current item would find, NaN included |
| MonitorRun.MatchItems | rental-housing-monitor/src/personal_monitor/engine/runner.py:162-187 | the matching loop and its count compute the full evaluation |
| FetchMachine.RobotsDecision | rental-housing-monitor/src/personal_monitor/adapters/scrapling.py:384-444 | every event of the robots loop is the next one the world's answers allow; it returns the decision and retry-after it recorded, or raises exactly why it stopped |
| FetchMachine.PrepareResolved | rental-housing-monitor/src/personal_monitor/adapters/scrapling.py:373-382 | acquire, the robots loop, and a recorded decision that allows the page, with the longer of its crawl delay and its retry-after; otherwise why it stopped |
| FetchMachine.FetchDocumentOnce | rental-housing-monitor/src/personal_monitor/adapters/scrapling.py:177-215 | one attempt: every event the next one allowed; it returns a document exactly when the last page fetched was answered with a valid one that is no redirect, and then that answer, and otherwise raises exactly why it stopped |
| FetchMachine.RunStrategy | rental-housing-monitor/src/personal_monitor/adapters/scrapling.py:146-175 | the retry loop: at most three such attempts, each retry after a transient error, its fixed sleep and that error's retry-after |
| FetchMachine.Fetch | rental-housing-monitor/src/personal_monitor/adapters/scrapling.py:120-144 | strategies form a prefix of HTTP, DYNAMIC, STEALTHY, descending exactly on absent content and then on an interstitial |
| FetchMachine.FetchOnce | rental-housing-monitor/src/personal_monitor/adapters/official_api.py:81-136 | one attempt of the official adapter, with its own redirect loop, under the same exact description |
| FetchMachine.FetchOfficial | rental-housing-monitor/src/personal_monitor/adapters/official_api.py:60-79 | its own retry loop: at most three such attempts; no ladder |
| FetchMachine.DecisionMeans | rental-housing-monitor/src/personal_monitor/adapters/scrapling.py:391-444 | a decision is the world's answer to the check of its page, asked with the robots.txt just fetched if its status was 200 and with nothing after 404, 410, 429, a server error or a transient fetch error; its retry-after is that of the answer or error; nothing else is decided on |
| FetchMachine.RobotsMeans | rental-housing-monitor/src/personal_monitor/adapters/scrapling.py:384-425 | a robots fetch asks for the page's robots URL or follows the redirect of the one before: at most five, same origin, acquired for its own host |
| FetchMachine.RobotsRunDistinct | rental-housing-monitor/src/personal_monitor/adapters/scrapling.py:417-419 | the robots URLs fetched for one page are all different |
| FetchMachine.PageWasAllowed | rental-housing-monitor/src/personal_monitor/adapters/scrapling.py:373-382 | a page is fetched only right after the world answered its check with allowed and an acquire for its host that waits the longer of crawl delay and retry-after |
| FetchMachine.PageMeans | rental-housing-monitor/src/personal_monitor/adapters/scrapling.py:177-215 | the pages fetched are the URL asked for and then where the redirect of the page before leads: over HTTP alone, at most five times, never to a page fetched before |
| FetchMachine.BatchMeans | rental-housing-monitor/src/personal_monitor/adapters/scrapling.py:152-164 | a batch is what was built from the world's own valid, non-redirect answer to the last page fetch |
| FetchMachine.ErrorMeans | rental-housing-monitor/src/personal_monitor/adapters/scrapling.py:152-444 | what is raised: policy errors for a refused page, an unexpected robots status and a redirect too many, and otherwise the world's own error on the last fetch, check or build |
| FetchMachine.AttemptDetermined | rental-housing-monitor/src/personal_monitor/adapters/scrapling.py:177-215 | the world's answers determine every event of an attempt and its result |
| FetchMachine.GroundedSafe | rental-housing-monitor/src/personal_monitor/adapters/scrapling.py:177-215 | every attempt, however it goes on or ends: no URL twice, at most six pages and 42 requests over HTTP, one and seven in a browser, each robots and page fetch right after its acquire |
| FetchMachine.RunMeans | rental-housing-monitor/src/personal_monitor/adapters/scrapling.py:146-175 | exactly when a run goes on to another attempt, how long it sleeps, and which retry-after the next attempt starts with |
| FetchMachine.DisallowedEnds | rental-housing-monitor/src/personal_monitor/adapters/scrapling.py:146-215 | a page the world disallows ends its attempt, is not retried and ends the ladder |
| FetchMachine.LadderMeans | rental-housing-monitor/src/personal_monitor/adapters/scrapling.py:120-144 | HTTP first; the dynamic browser exactly after absent content; the stealthy one exactly after an interstitial |
| FetchMachine.LadderBound | rental-housing-monitor/src/personal_monitor/adapters/scrapling.py:120-215 | a whole ladder reads at most 24 pages and, robots files included, makes at most 168 requests |
| Retention.Maintenance.Run | rental-housing-monitor/src/personal_monitor/maintenance.py:19-39 | the transaction of deletes succeeds exactly when no foreign key holds an expired monitor, and then removes exactly the rows the policy names |
| Retention.Maintenance.DeleteOldDisabledMonitors | rental-housing-monitor/src/personal_monitor/maintenance.py:53-84 | the statements in their order, each under foreign keys |
| Retention.Maintenance.DeleteOldAdaptiveFeatures | rental-housing-monitor/src/personal_monitor/maintenance.py:106-123 | expired features and those of every disabled monitor's versions go |
| Retention.Maintenance.DeleteOldDeliveries | rental-housing-monitor/src/personal_monitor/maintenance.py:41-51 | deliveries and outbox rows delivered over 180 days ago go |
| Retention.AllDeletes | rental-housing-monitor/src/personal_monitor/maintenance.py:19-123 | the statements together give the tables the policy describes |
| Retention.RunKeepsIntegrity | rental-housing-monitor/src/personal_monitor/maintenance.py:19-123 | no delivery, outbox, observation, run, snapshot or version row is left dangling |
| Retention.RunsCompose | rental-housing-monitor/src/personal_monitor/maintenance.py:19-123 | after a run at t1 the run at t2 succeeds as it would alone, and the tables are those of the run at t2 alone if and only if it succeeds, or the run at t1 was refused, or nothing was due at t1 |
| Retention.RefusedRunDoesNotCompose | rental-housing-monitor/src/personal_monitor/maintenance.py:19-84 | for any t1 before t2 there is a database where the two runs and the run at t2 alone leave different tables |
| Retention.NothingDueMeans | rental-housing-monitor/src/personal_monitor/maintenance.py:19-123 | a run that is not refused leaves every table alone exactly when no row is past its retention and no disabled monitor's feature is left |
| Retention.OutboxRemoval | rental-housing-monitor/src/personal_monitor/maintenance.py:41-84 | an outbox row goes exactly when it is old and delivered or its monitor goes; pending rows of surviving monitors stay |
| Retention.RemovedMonitorLeavesNoFeature | rental-housing-monitor/src/personal_monitor/maintenance.py:36-38 | no adaptive feature of a removed monitor survives |
| Retention.OrderMatters | rental-housing-monitor/src/personal_monitor/maintenance.py:36-38 | with the last two steps exchanged a removed monitor's feature would survive |
| Retention.NamespaceInjective | rental-housing-monitor/src/personal_monitor/scraping/adaptive_storage.py:120-131 | namespaces of NUL-free ids are distinct |
| Retention.LiveFeatureStays | rental-housing-monitor/src/personal_monitor/maintenance.py:106-123 | an unexpired feature of a monitor that is not disabled survives |
| Retention.ProbeBlocksForever | rental-housing-monitor/src/personal_monitor/storage/schema.py:121-125 | a duplicate probe of an expired monitor makes this run and every later one fail as a whole |
| Retention.ProbedDatabase | rental-housing-monitor/src/personal_monitor/storage/schema.py:121-125 | such a database exists at every time, every foreign key satisfied and rows due that stay |
| Retention.BlockedIffProbed | rental-housing-monitor/src/personal_monitor/storage/registry.py:224-240 | when versions derive from versions of their own monitor, as the program writes them, a run is refused exactly when an expired monitor has a duplicate probe, and it keeps that form |
| Retention.RefusedMeans | rental-housing-monitor/src/personal_monitor/maintenance.py:53-84 | a run is refused, and changes nothing, exactly when a monitor disabled over thirty days ago has a duplicate probe or a version that a version of a staying monitor derives from |
| Retention.MonitorGoes | rental-housing-monitor/src/personal_monitor/maintenance.py:53-84 | a monitor goes exactly when it was disabled over thirty days ago, and its versions and observations with it |
| Retention.RunGoes | rental-housing-monitor/src/personal_monitor/maintenance.py:23-26 | a run row goes exactly when it finished, or else started, over ninety days ago or its monitor goes |
| Retention.RunAtCutoff | rental-housing-monitor/src/personal_monitor/maintenance.py:23-26 | at the cutoff a run row stays, finished or not; one microsecond earlier it goes |
| Retention.NoticeGoes | rental-housing-monitor/src/personal_monitor/maintenance.py:41-51 | an outbox row goes with its delivery exactly when delivered over 180 days ago or with its monitor |
| Retention.DatedRowGoes | rental-housing-monitor/src/personal_monitor/maintenance.py:28-34 | a pending action goes exactly when consumed or expired over a day ago, a snapshot when it has expired or with its monitor; probes stay |
| Retention.FeatureGoes | rental-housing-monitor/src/personal_monitor/maintenance.py:106-123 | an adaptive feature goes exactly when it has expired or its namespace is that of a version of a disabled monitor |
| Timestamps.TextOrderIsTimeOrder | rental-housing-monitor/src/personal_monitor/migration/import_rental.py:1099-1104 | canonical UTC texts compare as their instants, with and without microseconds |
| Formats.IsoTextMeans | rental-housing-monitor/src/personal_monitor/migration/import_rental.py:1099-1104 | the text of an instant: two digits each, microseconds only if there are any, and the UTC offset |
| Timestamps.MaxText | rental-housing-monitor/src/personal_monitor/migration/import_rental.py:638-644 | the maximum of canonical texts is the latest instant, or the fixed time when there is none |
| RentalSource.TakeSnapshot | rental-housing-monitor/src/personal_monitor/migration/import_rental.py:599-657 | the snapshot carries the latest evidence of its rows |
| RentalSource.StoredMessageIds | rental-housing-monitor/src/personal_monitor/migration/import_rental.py:2202-2211 | the accepted stored message ids are exactly those of legacy message numbers |
| RentalSource.EvidenceIsLatest | rental-housing-monitor/src/personal_monitor/migration/import_rental.py:638-644 | no row of the source is later than the evidence time |
| RentalSource.BaselineBeforeEvidence | rental-housing-monitor/src/personal_monitor/migration/import_rental.py:994-1010 | a baseline delivery is strictly before the evidence time |
| RentalImport.ImportTarget.EnsureUser | rental-housing-monitor/src/personal_monitor/migration/import_rental.py:1681-1711 | conflict exactly when the owner's row or telegram id disagrees; created exactly when absent |
| RentalImport.ImportTarget.EnsureTarget | rental-housing-monitor/src/personal_monitor/migration/import_rental.py:1714-1746 | the same for the delivery target |
| RentalImport.ImportTarget.EnsureMonitorVersion | rental-housing-monitor/src/personal_monitor/migration/import_rental.py:1749-1838 | the same for the monitor and its first version, which must be there together |
| RentalImport.ImportTarget.EnsureObservation | rental-housing-monitor/src/personal_monitor/migration/import_rental.py:1841-1863 | the same for one observation |
| RentalImport.ImportTarget.EnsureOutbox | rental-housing-monitor/src/personal_monitor/migration/import_rental.py:1882-1937 | the same for one outbox row, found by dedupe key or id |
| RentalImport.ImportTarget.EnsureDelivery | rental-housing-monitor/src/personal_monitor/migration/import_rental.py:1940-1962 | the same for one delivery |
| RentalImport.ImportTarget.EnsureMarker | rental-housing-monitor/src/personal_monitor/migration/import_rental.py:1965-2006 | a conflicting marker is refused; a dry run without one is not complete |
| RentalImport.MapTarget | rental-housing-monitor/src/personal_monitor/migration/import_rental.py:1537-1609 | one transaction: dry run and real run accept the same inputs and report the same counts; a conflict leaves every table as it was |
| RentalImport.MapPlan | rental-housing-monitor/src/personal_monitor/migration/import_rental.py:1537-1609 | the steps in order: a conflict exactly when some row disagrees with the plan, and otherwise the same counts and created flags whether the rows are written or not |
| RentalImport.ImportRentalState | rental-housing-monitor/src/personal_monitor/migration/import_rental.py:430-492 | the report of an accepted import, and the tables it leaves; a dry or refused one leaves them as they were |
| RentalImportMeaning.AcceptedExactly | rental-housing-monitor/src/personal_monitor/migration/import_rental.py:1537-1667 | an import is accepted exactly when its request is valid, its routing leads to an address and a chat, and no row of the tables stands against it, each said by columns |
| RentalImportMeaning.RoutingMeans | rental-housing-monitor/src/personal_monitor/migration/import_rental.py:1623-1667 | the routing leads to an address and a chat exactly as described for a present and an absent target, with and without a requested address, for no chat, the alias and an ordinary chat |
| RentalImportMeaning.AmbiguousSourceRefused | rental-housing-monitor/src/personal_monitor/migration/import_rental.py:1656-1657 | with a new target, deliveries of two chats are refused |
| RentalImportMeaning.MismatchRefused | rental-housing-monitor/src/personal_monitor/migration/import_rental.py:1638-1667 | the other refused routes: a chat that is neither the requested address nor the alias, the alias without a requested address, a target of another owner, kind or address, a target no delivery names |
| RentalImportMeaning.AddressMeans | rental-housing-monitor/src/personal_monitor/migration/import_rental.py:1623-1667 | which address an accepted import delivers to |
| RentalImportMeaning.IdentityLeft | rental-housing-monitor/src/personal_monitor/migration/import_rental.py:1681-2006 | the owner, target, monitor, version and marker rows an import leaves, column by column |
| RentalImportMeaning.ObservationsLeft | rental-housing-monitor/src/personal_monitor/migration/import_rental.py:1841-1863 | an import adds the observation of every announcement and no other, and changes none |
| RentalImportMeaning.NoticesLeft | rental-housing-monitor/src/personal_monitor/migration/import_rental.py:1882-1962 | an import adds an outbox row for every delivery of the chat and no other, and changes none: each is delivered, never retried, dated as its delivery, and has its delivery row |
| RentalImportMeaning.ReportMeans | rental-housing-monitor/src/personal_monitor/migration/import_rental.py:470-492 | the report counts the source's rows, the rows a real import adds and those present, and flags what was not there before |
| RentalImportMeaning.OwnerNumber | rental-housing-monitor/src/personal_monitor/migration/import_rental.py:560-569 | an owner is accepted exactly when it is `telegram-user:` and a positive 63-bit number in canonical decimal form |
| RentalImportMeaning.FieldsMean | rental-housing-monitor/src/personal_monitor/migration/import_rental.py:2060-2066 | the fields of an announcement are one text or null for each of the ten names, in key order |
| RentalImportMeaning.EvidenceMeans | rental-housing-monitor/src/personal_monitor/migration/import_rental.py:638-644 | the evidence time is that of some row, none is later, and an empty source has the fixed time |
| RentalImportLaws.RoutingStable | rental-housing-monitor/src/personal_monitor/migration/import_rental.py:1623-1667 | routing again finds the target the first import made, and the same chat |
| RentalImportLaws.ImportTwice | rental-housing-monitor/src/personal_monitor/migration/import_rental.py:134-149 | a second import of the same source succeeds, leaves every table unchanged and reports `with_no_new_rows()` of the first |
| RentalImportLaws.DryRunPredicts | rental-housing-monitor/src/personal_monitor/migration/import_rental.py:430-492 | for every database, source and request a dry run reports a conflict exactly when the real run does, and otherwise the real report but for the dry-run flag, status and completeness |
| RentalImportLaws.ImportKeepsIntegrity | rental-housing-monitor/src/personal_monitor/migration/import_rental.py:1681-2006 | an accepted import satisfies every foreign key and unique constraint, so no insert can fail where a dry run passed |
| RentalImportCheck.ValidateImported | rental-housing-monitor/src/personal_monitor/migration/import_rental.py:2009-2199 | the loops of the aggregate check accept exactly the states the predicate describes |
| RentalImportCheck.ImportAccepted | rental-housing-monitor/src/personal_monitor/migration/import_rental.py:2009-2199 | every import of a well-formed source into an empty database is accepted |
| RentalImportCheck.ImageExactly | rental-housing-monitor/src/personal_monitor/migration/import_rental.py:2009-2199 | an accepted state is the image of a well-formed source if and only if its target address is not the legacy alias and no baseline delivery is dated at the marker's time |
| RentalImportCheck.AliasIsAccepted | rental-housing-monitor/src/personal_monitor/migration/import_rental.py:2091-2118 | an accepted state whose target address is replaced by the alias is still accepted, though no import into an empty database leaves it |
| RentalImportCheck.LateBaselineIsAccepted | rental-housing-monitor/src/personal_monitor/migration/import_rental.py:2119-2167 | an accepted delivery at the marker's time turned into a baseline is still accepted, though no import into an empty database leaves it |
| RentalImportCheck.AliasOnlyIfThere | rental-housing-monitor/src/personal_monitor/migration/import_rental.py:1623-1667 | an import into any database leaves the alias as its target's address if and only if it was there before |
| RentalImportCheck.LateBaselineOnlyIfThere | rental-housing-monitor/src/personal_monitor/migration/import_rental.py:994-1010 | an import into any database leaves a baseline dated at its marker's time, under any id, if and only if one was there before |
| RentalImportCheck.ExceptionsExist | rental-housing-monitor/src/personal_monitor/migration/import_rental.py:2091-2167 | for every announcement and identifiers the configuration admits there is an accepted import from which each exception is one changed cell away |
| RentalImportCheck.SampleExists | rental-housing-monitor/src/personal_monitor/migration/import_rental.py:2009-2199 | such a configuration, announcement and request exist |
| RentalImportCheck.FieldsReadBack | rental-housing-monitor/src/personal_monitor/migration/import_rental.py:2055-2066 | stored announcement fields read back as the fields that were stored |
| Shadow.Compare | rental-housing-monitor/src/personal_monitor/migration/shadow.py:293-343 | matched if and only if the item sets and the statuses are equal; one difference for each agency that differs, in agency order; the constructor's check never fires |
| Shadow.DifferenceMeans | rental-housing-monitor/src/personal_monitor/migration/shadow.py:314-330 | missing holds the digests of exactly the old snapshot's ids that the new one lacks for the agency, extra the reverse |
| Shadow.HashesAgree | rental-housing-monitor/src/personal_monitor/migration/shadow.py:331-353 | the content hashes agree exactly when item sets and statuses do |
| Shadow.CountStreak | rental-housing-monitor/src/personal_monitor/migration/shadow.py:710-717 | the counting loop returns the longest run of consecutive matched days ending at the newest eligible day |
| Shadow.StatusFromSnapshot | rental-housing-monitor/src/personal_monitor/migration/shadow.py:688-751 | the status, refused exactly for too many or future rows; ready exactly when the gate's declarative condition holds |
| Shadow.StreakResolved | rental-housing-monitor/src/personal_monitor/migration/shadow.py:954-959 | a counted newest day has nothing unresolved, so that test is implied by the others |
| Shadow.OpenGateEvidence | rental-housing-monitor/src/personal_monitor/migration/shadow.py:688-751 | readiness implies seven matched days in a row ending today or yesterday and a passing probe at least as recent |
| Shadow.UnmatchedClosesGate | rental-housing-monitor/src/personal_monitor/migration/shadow.py:630-648 | re-recording any of the seven days as unmatched removes readiness |
| Shadow.GateExactly | rental-housing-monitor/src/personal_monitor/migration/shadow.py:688-751 | the gate is open exactly when the state is imported, a probe of today or yesterday passed, and the newest stored day, today or yesterday and no later than the probe, ends seven matched days in a row |
| Shadow.UnresolvedMeans | rental-housing-monitor/src/personal_monitor/migration/shadow.py:954-959 | unresolved counts every id shown in a difference and every agency whose statuses differ |
| LegacyDelivery.AnnouncementRepository.Execute | rental-housing-monitor/src/rental_monitor/repository.py:127-148 | a statement and its commit: done, refused, or applied with a commit that raises, which the database rolls back or leaves in the open transaction |
| LegacyDelivery.AnnouncementRepository.UpsertAll | rental-housing-monitor/src/rental_monitor/repository.py:61-109 | the loop over the notices keeps the first sighting of each; one that raises among its rows has executed those before |
| LegacyDelivery.AnnouncementRepository.PendingForChat | rental-housing-monitor/src/rental_monitor/repository.py:111-125 | the notices without a delivery to the chat in the connection's tables, in order |
| LegacyDelivery.AnnouncementRepository.Mark | rental-housing-monitor/src/rental_monitor/repository.py:127-148 | a delivery not there yet is inserted, one there is kept |
| LegacyDelivery.AnnouncementRepository.FinishRun | rental-housing-monitor/src/rental_monitor/repository.py:160-183 | the run's row is updated, and whatever the transaction still held is committed with it |
| LegacyDelivery.AnnouncementRepository.Close | rental-housing-monitor/src/rental_monitor/repository.py:185-213 | run rows of over ninety days go in one more commit |
| LegacyDelivery.MonitorRunner.Collect | rental-housing-monitor/src/rental_monitor/runner.py:43-66 | the loops over the collectors give one notice for each key, the agencies' status and whether one failed |
| LegacyDelivery.MonitorRunner.SendPending | rental-housing-monitor/src/rental_monitor/runner.py:70-83 | send, mark at once, count; the report; and where an exception or a stop cuts this off |
| LegacyDelivery.MonitorRunner.Run | rental-housing-monitor/src/rental_monitor/runner.py:41-100 | one run: its four kinds of write on one connection, the handler's finishing of the run's row, and the exceptions it does not handle |
| LegacyDelivery.Process | rental-housing-monitor/src/rental_monitor/__main__.py:28-66 | open, run, close: what is on disk after a process and what left it |
| LegacyDelivery.DeliverLeaves | rental-housing-monitor/src/rental_monitor/runner.py:70-73 | the loop counts the notices sent and marked in a row, and its transaction holds a delivery at the end exactly when a mark's commit raised and left it |
| LegacyDelivery.DeliveredOnlyGrows | rental-housing-monitor/src/rental_monitor/repository.py:127-148 | whatever fails, the delivered set only grows and its rows never change |
| LegacyDelivery.DeliveredIsNotResent | rental-housing-monitor/src/rental_monitor/repository.py:111-125 | a delivered key is never sent to its chat again |
| LegacyDelivery.SendsAccountedFor | rental-housing-monitor/src/rental_monitor/runner.py:41-100 | over every history, sends of a key that Telegram accepted are its unmarked sends plus one if it is delivered, late marks included |
| LegacyDelivery.SentTwiceOnlyIfUnmarked | rental-housing-monitor/src/rental_monitor/runner.py:70-73 | sends of a key exceed one only by unmarked sends |
| LegacyDelivery.CompletedDeliversAll | rental-housing-monitor/src/rental_monitor/runner.py:41-100 | a run that completes leaves every collected notice delivered |
| LegacyDelivery.NewCountIsRowsAdded | rental-housing-monitor/src/rental_monitor/runner.py:68-100 | for a run that returns or fails in its sends, the reported and stored count is the number of delivery rows added if and only if no mark's commit raised leaving its insert pending; otherwise one row more was added |
| LegacyDelivery.RowsAdded | rental-housing-monitor/src/rental_monitor/repository.py:136-148 | for every process that is not stopped, the rows added are the notices counted, and one more exactly when a pending insert met a later commit |
| LegacyDelivery.UncountedRow | rental-housing-monitor/src/rental_monitor/runner.py:85-92 | a run that adds one delivery row and stores a count of zero |
| LegacyDeliveryMeaning.NoticesMean | rental-housing-monitor/src/rental_monitor/runner.py:43-67 | the notices of a run are every key yielded once, with the content yielded last, in the order of first appearance, failed collectors included |
| LegacyDeliveryMeaning.AgenciesMean | rental-housing-monitor/src/rental_monitor/runner.py:43-66 | each agency's status is whether its last collector finished |
| LegacyDeliveryMeaning.PendingOfMeans | rental-housing-monitor/src/rental_monitor/repository.py:111-125 | what is to be sent: the keys yielded and not delivered to the chat before, each once, in the order of first appearance |
| LegacyDeliveryMeaning.OutcomeMeans | rental-housing-monitor/src/rental_monitor/runner.py:41-100 | what a process returns: the first write, send or mark that is not done decides, then the report, then the finishing of the row; a run that gets through is a success exactly when no collector failed and otherwise a partial failure |
| LegacyDeliveryMeaning.ReportsMean | rental-housing-monitor/src/rental_monitor/runner.py:75-83 | a failure report goes out exactly when everything was sent and marked, a collector failed and Telegram accepted it; `nothing new` exactly when none failed and nothing was to be sent |
| LegacyDeliveryMeaning.StoredMeans | rental-housing-monitor/src/rental_monitor/runner.py:85-100 | the row a run stores: its status, the count it reports and the agencies' status; other runs stay but those started over ninety days before |
| LegacyDeliveryMeaning.SeenMeans | rental-housing-monitor/src/rental_monitor/repository.py:61-109 | each notice's row holds its content, the time it was first seen and the time of this run; no other row changes |
| LegacyDeliveryMeaning.CompletedMeans | rental-housing-monitor/src/rental_monitor/runner.py:68-100 | a completed run sends the pending notices in order, marks each at once with its time and message id, reports if a collector failed or nothing was sent, and does nothing else |
| SplitMessage.Split | rental-housing-monitor/src/rental_monitor/telegram.py:81-96 | terminates for every positive limit and gives the chunks of the pieces |
| SplitMessage.SplitRejoins | rental-housing-monitor/src/rental_monitor/telegram.py:81-96 | the text is the chunks in order, each followed by its dropped newline if it has one |
| SplitMessage.SplitFits | rental-housing-monitor/src/rental_monitor/telegram.py:81-96 | every chunk is non-empty and within the limit; a break without a dropped newline follows a chunk of exactly the limit |
| SplitMessage.CutIsLatest | rental-housing-monitor/src/rental_monitor/telegram.py:87-89 | every break is as late as possible, and a newline is dropped only at a soft break |

## Left out

- Descriptors, inode and owner checks, symlinks, fsync, staging files, process control, sealing and identity pinning: operating-system and object-model guards without an algorithm.
- HTTP, browser, BigQuery and Telegram clients, encryption, SQL parsing and transactions as such: present only as answers, maps and, but for the legacy database, all-or-nothing steps.
- `_validate_json_tree` in the extractor: a sibling of the stack walk of `JsonWalk`, with fewer bounds.
- `_scan_secrets`, HTML and JSON extraction, normalisers, adapters for single agencies, LLM planning, scheduling, billing, heartbeat, message rendering, redaction, settings and CLI: library semantics or easy members.
- `stable_item_id`, URL normalisation and `validate_batch`: identities and field values are taken as given; the rules and the diff are proved for all of them.
- `valid_create_membership` in the action service: a read of one row that changes nothing.
- ActionPayload.StoredIsReread: Python's limit on the digits of an integer literal is not modelled; the 63-bit bound refuses such integers anyway.
- PendingActions.PendingActionService.CreateAction: a create inside a caller's transaction, which nests by a savepoint, is not modelled.
- JsonText.LoadsPrinted: a `\u` escape that leaves a lone surrogate is refused at parsing, where Python refuses the value later.
- FetchMachine.Fetch: waiting inside the rate limiter, URL and robots parsing, and browser-profile handling are answers of the world; cancellation is one kind of error.
- FetchMachine.RobotsDecision: that a robots target has the same host as its page is the URL policy's business and is not claimed.
- Retention.Maintenance.Run: databases older than the snapshot-expiry and adaptive-feature migrations, and SQLite's limit on bound parameters, are not modelled.
- Timestamps.TextOrderIsTimeOrder: proved for all field values in range, so also for days no calendar has; years, days and leap rules play no part.
- RentalSource.TakeSnapshot: schema validation, row limits and the per-field checks of an announcement are a predicate on its rows; timestamps arrive already converted to UTC.
- RentalImport.MapTarget: retries against a concurrently published target file and the 100,000-row limits are not modelled; the monitor specification and delivery payload are fixed texts given as parameters.
- RentalImportCheck.ImageExactly: compares every column but the next run time, the lease columns and the monitor's update time, which the check does not compare either.
- Shadow.Compare: sorted tuples of distinct opaque ids are sets, and the bounds on their number are not modelled.
- Shadow.StatusFromSnapshot: the text columns of stored results and the marker row arrive decoded; the state-imported flag is a parameter.
- LegacyDelivery.MonitorRunner.Run: the text of messages, the split of one message over several requests, and which error a collector raised are not modelled; the tables exist already.
- SplitMessage.Split: a limit of zero, which no caller passes, is outside the contract; the loop would not end.
