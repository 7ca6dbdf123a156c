# A verified model of the benchmark repository's protocols and arithmetic

This project models, in Dafny 4.11, the parts of the repository whose correctness no finite set of
examples can settle, and proves what those parts are for. `dafny verify dfyconfig.toml` checks all of it.

| files | what they model |
|---|---|
| `HoldoutProtocol`, `HoldoutSafety`, `HoldoutTheorems`, `HoldoutStore` | `runHoldout`, `contaminateHoldout`, `sealProtectedCorpusValue`: processes sharing a directory, one step for each file operation, any interleaving, a crash or an exception anywhere |
| `BlindProtocol`, `BlindSafety`, `BlindSerial`, `BlindExact`, `BlindRecovery`, `BlindStore`, `BlindObserve` | `freezeBlind`, `runBlind`, `observe`: the freeze, reserve, scan, settle ledger |
| `Ranges`, `Findings`, `Outcomes`, `Utf8`, `JsonPrinter`, `JsonReader`, `JsonText`, `Expectations`, `DigestText`, `IntakeTypes`, `Intake`, `FirstRunCheck`, `IntakeCheck`, `Timestamps`, `RecordTimes` | adversarial packs: merging and scoring findings, canonical JSON and the expectations digest, every validation rule, what accepted timestamps say about time, the immutability of first runs |
| `Words`, `Crc32` | the table-driven CRC-32 against division bit by bit |
| `Wilson`, `Scoring`, `Aggregate`, `Disclosure`, `Counted` | the blind aggregate: score intervals, counting, suppression of small strata |
| `CredentialMetrics`, `Accounting`, `CountingOrder` | two accounting passes over recorded rows, and the groups of a selection |
| `ReplayDiff`, `ReplayEquality`, `ReplayRepeats`, `ReplayHidden`, `ReplaySwap`, `ReplayBuckets`, `ReplayPaths` | the keyed structural diff of two replays, and the buckets its differences are sorted into |
| `Publication`, `PublicationRaces`, `PublicationTears` | publishing an artifact and moving the index to it: calls one after another, and calls that overlap |
| `Options`, `FileContents`, `Text`, `Sorting`, `Numerals` | what the others share |

## How the protocols are modelled

A protocol is a state machine. Its state is the files on disk, the processes with their local variables, and a
record of what has happened (evaluations, scans, files created). One action is one file operation of one process;
others are an operation that throws, a crash, and what a custodian may do. `Execution` says that a list of states
is one possible run, and the theorems hold of every state of every execution. `HoldoutStore` and `BlindStore` are the
same calls as the source writes them, as methods of a class over the files; each method records the protocol steps it
takes, so a call is proved both to have its own contract and to be a part of an execution.

## Assumptions

- SHA-256 is injective: a digest is what was hashed.
- A rename is atomic. A `wx` write or a non-recursive `mkdir` fails when the target exists. A file being
  written exists, torn, before its bytes are complete.
- `Math.sqrt(x)` is the non-negative number whose square is `x`, and numbers are reals, not floating point.
- `Array.prototype.sort` is a stable sort by its comparison.
- Strings are sequences of UTF-16 code units.
- Nobody removes or replaces a pending blind freeze while a call is live. Between calls a custodian may
  (`BlindRecovery.Recovers`); under a live run it can lose an attempt (`BlindRecovery.ClearedUnderARun`), which only
  `BlindExact.ReservationKeepsExactly`, of the ledgers themselves, would tell.

## What the code does not do

Six results show where the code stops short of what it is meant to do. Each has an input on which it fails and the
exact condition under which it does not.

- The blind ledger is read, and the attempt checked against it, before the lock is taken
  (benchmarks/blind/lifecycle.ts:148-154). Two interleaved runs can scan one epoch twice with one candidate
  (`BlindSerial.InterleavedScansTwice`). A lock loses something exactly when the same check, made again on the
  ledger then on disk, would fail (`BlindExact.GuardTellsLoss`, `BlindExact.LossyExactly`); while it would pass, every
  interleaving is safe (`BlindExact.GuardedIsSafe`), and where it would not, an attempt is forgotten and the pair
  scanned again (`BlindExact.OvertakenLoses`). Serial calls always pass (`BlindSerial.SerialScansOnce`).
- `compareResult` counts bytes of overlapping expected ranges twice, and then forgives stray bytes
  (`Outcomes.Forgiven`). It is right for all results exactly when the expected ranges are disjoint
  (`Outcomes.RightExactlyWhenDisjoint`), which `validateIntake` makes sure of (`IntakeCheck.CleanJudgements`).
- Timestamps are compared as strings. That is the order of time exactly when neither only adds digits to the
  other's fraction (`Timestamps.StringsTellTime`). A record can be accepted before it was frozen
  (`RecordTimes.AcceptedBeforeFrozen`); a validated record is in the order of time exactly when no compared pair cuts a
  fraction short (`RecordTimes.HistoryTimesExactly`, `RecordTimes.FirstRunTimesExactly`).
- The replay diff matches array items by key and keeps the last item of each key. With a key twice in one
  array a change can go unreported (`ReplayHidden.LostUnderOneKey`) and a mere reordering be reported
  (`ReplayHidden.ReorderReported`, `ReplayHidden.ReorderedScanners`). What it compares, for all trees, is
  `ReplayEquality.NothingAddedExactly`. It is right about two trees without repeated keys (`ReplayRepeats.NothingAdded`),
  but not if only one is (`ReplayHidden.ShadowedAddition`); and it is right about every replacement of one item of a tree
  by another of its key exactly when the tree repeats no key (`ReplayHidden.ReliableExactly`).
- A selection's group counts a twin that was not selected when that twin falls into the same group
  (`CountingOrder.UnselectedTwinCounted`), and counts right exactly otherwise (`CountingOrder.SelectionCountsItsOwn`).
- Publications that overlap share one temporary index, and can leave a torn index behind a call that ended
  without an exception (`PublicationTears.OverlappingCallsTear`). The index is safe in every interleaving in which no
  other call writes a temporary file between its validation and its rename (`PublicationRaces.ExclusiveIsSound`),
  and in no state in which one does (`PublicationRaces.WrittenMeanwhileTears`, `PublicationRaces.ExclusiveExactly`).

## Model

| member | source | states |
|---|---|---|
| HoldoutSafety.ActionKeeps | holdout/lifecycle.ts:94-134 | Every step of every process, crash, failed operation, custodian lock removal, hand-placed manifest or edited corpus keeps the joint invariant of store, locks, reservations and evaluations. |
| HoldoutTheorems.RunsOnlyGrow | holdout/lifecycle.ts:96-102 | Under any interleaving and any crashes, the reservations persisted for a directory are only ever added to. |
| HoldoutTheorems.BudgetNeverExceeded | holdout/lifecycle.ts:94-109 | At every moment: evaluations started <= reservations on disk <= 10, and some manifest that named the directory granted as many as are reserved. |
| HoldoutTheorems.LargestBudgetBounds | holdout/lifecycle.ts:98-102 | If every manifest that ever named the directory grants at most `bound` runs, at most `bound` evaluations were started on it. |
| HoldoutTheorems.ContaminationAbsorbs | holdout/lifecycle.ts:96-97 | Once the persisted status is not sealed, no later reservation, corpus read or evaluation happens for the directory, and no write brings the status back. |
| HoldoutTheorems.SealedOnceEvaluatedOnce | holdout/storage.ts:80-99 | A directory that only seals ever named is evaluated at most once, over the very corpus that was sealed, with the reservation on disk. |
| HoldoutTheorems.StateFileCreatedOnce | holdout/storage.ts:94-95 | No state file is created twice, over all interleaved and crashing seals and runs; state files exist exactly where one was created. |
| HoldoutTheorems.VisibleManifestIsComplete | holdout/storage.ts:88-98 | A complete manifest on disk names a directory that holds its own corpus and state, unless a manifest no seal wrote has named that directory. |
| HoldoutTheorems.OneHolder | holdout/lifecycle.ts:94-95 | At most one process is between taking and releasing the lock of a directory. |
| HoldoutTheorems.LockTakenAwayOnlyByOwner | holdout/lifecycle.ts:118-119 | A lock disappears only by the release of the process that took it, or by the custodian once that process is dead; a process that failed to lock removes nothing. |
| HoldoutTheorems.UsesSealedCorpus | holdout/lifecycle.ts:101-109 | From its reservation to its release, a run finds the state sealed and its own reservation the last one on disk. |
| HoldoutStore.Store.RunHoldout | holdout/lifecycle.ts:61-122 | The run as a method over the files: manifest and plan are checked first, then store, lock, state; the reservation is written before the corpus is opened and stays spent whatever throws later; the plan is added, and the aggregate exactly when nothing failed and both names are new; the lock is removed; the error code is that of the failed check; every operation is a step of the protocol. |
| HoldoutStore.PlanAccepted | holdout/lifecycle.ts:67-92 | A plan passes exactly when run id and hashes have their form, there are scanners, all distinct, all with ranges and a version of the right form, the candidate is unchanged, the identities are complete and the manifest was made for this evaluation. |
| HoldoutStore.CheckPlan | holdout/lifecycle.ts:67-92 | Else the code of the first check that fails, the scanners taken in order. |
| HoldoutStore.Store.ContaminateHoldout | holdout/lifecycle.ts:124-134 | A reason outside the three known ones is refused; otherwise the state of the manifest's own corpus is marked contaminated with its reservations untouched, or nothing changes; which of these, and the exact answer. |
| HoldoutStore.Store.SealProtectedCorpusValue | holdout/storage.ts:80-99 | With an exception possible at every creation and every write: exactly what each failure leaves (nothing, a torn file, or complete files up to it); an existing directory is refused with nothing changed; a manifest can be read exactly when the seal succeeds, its name exists only once corpus and unused state are complete, and it then commits to the corpus and its seed, allows one run and passes every check of that run, but for a lock. |
| BlindSafety.ActionKeeps | benchmarks/blind/lifecycle.ts:148-229 | Every step keeps the invariant; while no lock was taken with a ledger that lacks an attempt or an epoch on disk, the ledger on disk only gains attempts and epochs. |
| BlindSafety.ReservedBeforeScan | benchmarks/blind/lifecycle.ts:160-168 | Under every interleaving and any crashes, a process in its scan phase has its own attempt, for that epoch and candidate, in the ledger on disk, and scans the frozen candidate over the frozen corpus in the frozen context. |
| BlindSafety.ClosedAsComplete | benchmarks/blind/lifecycle.ts:196-223 | Under every interleaving, an attempt is closed as complete only by a clean run that did not fail. |
| BlindSafety.AttemptsNeverForgotten | benchmarks/blind/lifecycle.ts:76-80 | While no lock was taken with a ledger that lacks an attempt or an epoch on disk: from any moment to any later one, no attempt and no epoch in the ledger is lost or altered but for its status. |
| BlindSafety.ScannedAtMostOnce | benchmarks/blind/lifecycle.ts:76-80 | Under the same hypothesis: every epoch and candidate reaches the scan phase at most once, epochs and sets of fixtures correspond one to one, and every scan consumed its own freeze, made for its corpus, candidate, environment, benchmark and configuration. |
| BlindSerial.SerialNeverLossy | benchmarks/blind/lifecycle.ts:148-154 | Calls made one after another, each cut by a crash anywhere, hold at the lock the very ledger that is on disk. |
| BlindSerial.SerialScansOnce | benchmarks/blind/lifecycle.ts:69-80 | Hence over every serial sequence of freezes and runs: one scan for each epoch and candidate, and one epoch label for each set of fixtures. |
| BlindSerial.InterleavedScansTwice | benchmarks/blind/lifecycle.ts:148-163 | Interleaved calls break it: a run that read the ledger before another took the lock overwrites the other's reservation, scans the same epoch and candidate again, and consumes a freeze made for another candidate. |
| BlindExact.ReservationKeepsExactly | benchmarks/blind/lifecycle.ts:148-163 | For every run at the lock of every execution: its reservation keeps every attempt and epoch on disk if and only if the ledger it read has them all; in an execution that lost nothing before, if and only if that ledger is, up to statuses, the one on disk. |
| BlindExact.GuardTellsLoss | benchmarks/blind/lifecycle.ts:76-80 | In an execution that lost nothing before, the ledger held at the lock lacks something on disk if and only if the guard `checkNotYetEvaluated`, evaluated again on the ledger now on disk, fails. |
| BlindExact.LossyExactly | benchmarks/blind/lifecycle.ts:148-154 | An execution takes a lock with a ledger that lacks something if and only if it takes one at which that guard fails. |
| BlindExact.GuardedIsSafe | benchmarks/blind/lifecycle.ts:69-80 | So every execution, however interleaved, in which the guard still holds at each lock forgets nothing and scans each epoch and candidate once. |
| BlindExact.ScanRepeatsExactly | benchmarks/blind/lifecycle.ts:160-168 | The scan that follows a lock repeats an attempt of the ledger on disk if and only if the guard fails on it; otherwise, if nothing was lost before, it repeats no earlier scan. |
| BlindExact.OvertakenLoses | benchmarks/blind/lifecycle.ts:148-163 | Conversely every execution that comes to a lock at which the guard fails can be continued to one that has forgotten an attempt or epoch, and to one whose last scan is a second attempt. |
| BlindRecovery.Recovers | benchmarks/blind/lifecycle.ts:83-103 | From every reachable state in which no call is live, after crashes while a freeze is filled, corpus edits or stale locks: an attempt the ledger permits can be frozen and run, and is then on the ledger and scanned. |
| BlindRecovery.ClearedUnderARun | benchmarks/blind/lifecycle.ts:128-154 | Why a pending freeze may be removed only between calls: removed under a run that waits for the lock, another candidate can be frozen and run, and the first run, whose guard still holds, lacks that attempt. |
| BlindStore.Store.FreezeBlind | benchmarks/blind/lifecycle.ts:83-103 | A freeze is written exactly when corpus, ledger, checkout and replays allow it and none is pending; the code of the first check that fails; no other file changes. |
| BlindStore.Store.RunBlind | benchmarks/blind/lifecycle.ts:127-230 | A run whose checks fail changes nothing and reports the failed check. Otherwise its exact answer and the whole new disk: earlier entries of the ledger as they were, statuses included, then its own attempt with its id, freeze, epoch and candidate, complete exactly when nothing threw and no scan was withheld for an error; the freeze moved once the attempt is on disk, the lock removed. Every operation is a step of the protocol. |
| BlindStore.RanRecords | benchmarks/blind/lifecycle.ts:160-224 | The same of the ledger alone, by entries: only the new last entry is settled, and it stays reserved exactly when an operation after the reservation and the write in the catch block both failed. |
| BlindStore.ContextVerdictIs | benchmarks/blind/lifecycle.ts:137-143 | The checks of environment, checkout, configuration, replays and candidate pass exactly when none throws and the call repeats what the freeze fixed. |
| BlindStore.AttemptSpent | benchmarks/blind/lifecycle.ts:160-163 | Whatever throws after the lock, short of both ledger writes, the ledger then refuses the candidate for that epoch. |
| BlindStore.EpochVerdictIs | benchmarks/blind/lifecycle.ts:69-75 | The entry-by-entry check passes exactly when the label carries this corpus only and the fixtures this label only. |
| BlindObserve.Observe | benchmarks/blind/lifecycle.ts:110-117 | A fixture is withheld as an error if some replay throws, as unstable exactly when some replay found another set of ranges than the first, and else measured with the distinct ranges of the first. |
| BlindObserve.TuplesTell | benchmarks/blind/lifecycle.ts:105-105 | The joined texts of two lists of findings are equal exactly when the lists hold the same set of ranges. |
| BlindObserve.MineIs | benchmarks/blind/lifecycle.ts:110-117 | The ranges compared are those found in the fixture's own file, and all of them. |
| Findings.NormalizeFindings | benchmarks/lib/adversarial-first-run.ts:17-26 | The merged ranges are ascending and disjoint, start and end where findings do, hold every non-empty finding, and can be cut nowhere without cutting a finding. |
| Findings.MergedUniquely | benchmarks/lib/adversarial-first-run.ts:17-26 | Those properties determine the result by the set of non-empty findings alone: order and repetition do not matter. |
| Findings.Components | benchmarks/lib/adversarial-first-run.ts:17-26 | Two findings end up in one merged range exactly when a chain of strictly overlapping findings joins them. |
| Findings.MergedCoverage | benchmarks/lib/adversarial-first-run.ts:4-7 | The merged ranges cover exactly the offsets the findings covered. |
| Findings.NormalMergesToItself | benchmarks/lib/adversarial-first-run.ts:16-17 | Normalizing a normal list changes nothing: touching ranges stay separate, and normalizing is idempotent. |
| Outcomes.HitCounts | benchmarks/lib/adversarial-first-run.ts:37-45 | The sums of min and max are the sizes of the intersections with the expected ranges. |
| Outcomes.CompareResult | benchmarks/lib/adversarial-first-run.ts:40-50 | The outcome as counted on sets of offsets, for every action, expectation and list of findings. |
| Outcomes.JudgedBySets | benchmarks/lib/adversarial-first-run.ts:28-35 | For non-empty, disjoint expected ranges: missed, partial, overbroad and redacted exactly as the found bytes are disjoint from, partly cover, strictly contain, or equal the expected bytes. |
| Outcomes.RightExactlyWhenDisjoint | benchmarks/lib/adversarial-first-run.ts:44-49 | For expected ranges that are non-empty, every possible result is judged so if and only if no two of them overlap. |
| Outcomes.Forgiven | benchmarks/lib/adversarial-first-run.ts:46-49 | Overlapping expected ranges: all of their bytes and one stray byte are reported as redacted. |
| Outcomes.OutcomeTable | benchmarks/lib/adversarial-first-run.ts:53-65 | One row for each listed scanner; for fixtures with distinct ids, each cell is the number of pairs of a fixture and a result of that scanner for that fixture with that outcome. |
| Outcomes.ByIdFindsLast | benchmarks/lib/adversarial-first-run.ts:54-54 | Looking up an id finds the last fixture that has it, and nothing for an id no fixture has. |
| Outcomes.CellsCountPairs | benchmarks/lib/adversarial-first-run.ts:53-65 | Counting results by looking up their fixture is counting such pairs. |
| Outcomes.RowAddsUp | benchmarks/lib/adversarial-first-run.ts:53-65 | If each fixture has exactly one result of the scanner and no other result names it, its row adds up to the number of fixtures. |
| Utf8.Utf8Boundaries | benchmarks/lib/adversarial-intake.ts:162-170 | The byte count is the length of the UTF-8 encoding, and the boundaries are its end and the offsets that hold no continuation byte. |
| Utf8.ScalarBytes | benchmarks/lib/adversarial-intake.ts:162-170 | Each code point becomes its one to four bytes, lead and continuation bytes by value. |
| Utf8.ScalarIs | benchmarks/lib/adversarial-intake.ts:162-170 | A surrogate pair is read as one code point, a lone surrogate as U+FFFD. |
| Utf8.BoundaryIs | benchmarks/lib/adversarial-intake.ts:162-170 | An offset is a boundary exactly when it is the byte length of what precedes some code point, or of the whole. |
| Utf8.EncodeInjective | benchmarks/lib/adversarial-intake.ts:106-106 | Text without lone surrogates is encoded injectively. |
| JsonPrinter.PrintsSorted | benchmarks/lib/adversarial-intake.ts:109-116 | The canonical text is the plain text of the tree whose keys are sorted at every depth; what plain text is, `JsonText` states unit by unit. |
| JsonText.StringText | benchmarks/lib/adversarial-intake.ts:108-116 | What each code point of a string becomes, in literal units: the seven two-unit escapes, four lower-case hexadecimal digits for other control units and lone surrogates, itself otherwise. |
| JsonText.ScalarText | benchmarks/lib/adversarial-intake.ts:108-116 | null, true, false and numbers. |
| JsonText.NumberIs | benchmarks/lib/adversarial-intake.ts:115-115 | Which texts are numbers: sign, digits without leading zero, fraction, exponent (section 6 of RFC 8259). |
| JsonText.ArrayText | benchmarks/lib/adversarial-intake.ts:108-116 | Arrays: items in their order, separated by commas. |
| JsonText.ObjectText | benchmarks/lib/adversarial-intake.ts:108-116 | Objects with ascending keys: quoted name, colon, value, separated by commas. |
| JsonText.CanonOrdered | benchmarks/lib/adversarial-intake.ts:108-116 | At every depth of the canonical tree, each key is strictly less than the next. |
| JsonReader.PrintedReadsBack | benchmarks/lib/adversarial-intake.ts:108-116 | A reader of RFC 8259 JSON without white space recovers from the canonical text the value with sorted keys, which is the value up to key order. |
| JsonReader.PrintedAlike | benchmarks/lib/adversarial-intake.ts:108-116 | Two values have the same canonical text if and only if they are equal up to the order of object keys. |
| Expectations.HashedAlike | benchmarks/lib/adversarial-intake.ts:106-116 | So do their digests agree; the text never holds a lone surrogate, so hashing its UTF-8 encoding loses nothing. |
| Expectations.DigestCommits | benchmarks/lib/adversarial-intake.ts:118-125 | The expectations digest is unchanged if and only if the fixtures, one by one, have the same id, path, content, action and ranges. |
| DigestText.RangeText | benchmarks/lib/adversarial-intake.ts:118-125 | The text of a range, letter by letter: end, then start. |
| DigestText.FixtureText | benchmarks/lib/adversarial-intake.ts:118-125 | The text of a fixture: action, content, expected, id and path, in this order, and no other field. |
| DigestText.DigestOf | benchmarks/lib/adversarial-intake.ts:118-125 | The digest is of the UTF-8 encoding of these texts in one array, in the order of the pack. |
| Intake.RangeProblems | benchmarks/lib/adversarial-intake.ts:172-184 | A problem is reported at an index exactly when the range is not a non-empty UTF-8 byte range of the content, or starts before the previous one ends. |
| Intake.AcceptedRanges | benchmarks/lib/adversarial-intake.ts:172-184 | No problem exactly when the ranges are non-empty, ascending, disjoint, inside the content and on character boundaries. |
| Intake.FixtureProblems | benchmarks/lib/adversarial-intake.ts:186-208 | Each fixture problem is reported exactly when it exists: duplicate id or path, wrong expectation for the action, bad range, undeclared or unused category. |
| Intake.HistoryProblems | benchmarks/lib/adversarial-intake.ts:210-222 | Each history problem is reported exactly when it exists: bad start, forbidden transition, backward time, wrong last status. |
| Intake.TransitionsAre | benchmarks/lib/adversarial-intake.ts:89-97 | The lifecycle edges that are allowed, and no others. |
| Intake.HistoryBounded | benchmarks/lib/adversarial-intake.ts:89-97 | A history without problems has at most five entries, repeats no status, and its timestamps, compared as strings, never go back. |
| Intake.OneWayToAccepted | benchmarks/lib/adversarial-intake.ts:89-97 | A history without problems that ends accepted is submitted, safety-review, frozen-first-run, accepted. |
| FirstRunCheck.FirstRunProblems | benchmarks/lib/adversarial-intake.ts:224-278 | Each problem of the first run is reported exactly when it exists, from a missing or altered file to a missing, repeated, unlisted or malformed result. |
| FirstRunCheck.KeyInjective | benchmarks/lib/adversarial-intake.ts:258-258 | The key of a result stands for one fixture and one scanner, since ids hold no NUL. |
| IntakeCheck.ValidateIntake | benchmarks/lib/adversarial-intake.ts:285-331 | The whole list: a problem is in it exactly when the record, its fixtures, its history or its first run has it. |
| IntakeCheck.AcceptedHistory | benchmarks/lib/adversarial-intake.ts:89-97 | A record that validates as accepted has exactly the four-entry history, starting at submittedAt, with timestamps non-decreasing as strings. |
| IntakeCheck.AcceptedFirstRun | benchmarks/lib/adversarial-intake.ts:236-247 | And an intact first run for this pack, against the digest committed at submission and still that of the fixtures, whose timestamp is as a string not below those of submission and review and not above that of the freeze. |
| IntakeCheck.CommittedExpectations | benchmarks/lib/adversarial-intake.ts:325-327 | Two records that validate without material edit under one committed digest have the same expectations. |
| IntakeCheck.RowsAddUp | benchmarks/lib/adversarial-intake.ts:249-276 | If a pack with a first run and no material edit validates, every listed scanner's row of the outcome table adds up to the number of fixtures. |
| IntakeCheck.CleanJudgements | benchmarks/lib/adversarial-intake.ts:172-184 | For a validated pack, every result on a must-redact fixture is judged by the set relation of its bytes to the expected bytes. |
| IntakeCheck.FirstRunImmutabilityProblems | benchmarks/lib/adversarial-intake.ts:338-350 | A pack is reported as removed or changed exactly when its pinned digest is gone or another. |
| IntakeCheck.PinnedForever | benchmarks/lib/adversarial-intake.ts:333-350 | Along any chain of revisions that pass, a first-run digest once present never changes or disappears. |
| IntakeCheck.ImmutableExactly | benchmarks/lib/adversarial-intake.ts:333-350 | A revision passes exactly when it keeps every digest pinned at the base. |
| Timestamps.StringsTellTime | benchmarks/lib/adversarial-intake.ts:218-247 | Comparing two schema-valid timestamps as strings agrees with time if and only if neither only adds digits to the other's fraction of a second. |
| Timestamps.FormedIs | schemas/adversarial-intake-v1.json:132-132 | A timestamp's second is year, month, day, hour, minute and second as numerals of fixed widths with their separators. |
| Timestamps.LaterSortsEarlier | benchmarks/lib/adversarial-intake.ts:218-218 | Half past a second is later than the second, yet sorts before it. |
| RecordTimes.StringOrderGoesBack | benchmarks/lib/adversarial-intake.ts:218-218 | Of two timestamps in string order the second is earlier in time if and only if it is the first with the end of its fraction cut off, the cut digits not all zero. |
| RecordTimes.HistoryTimesExactly | benchmarks/lib/adversarial-intake.ts:210-222 | The history of a validated record never goes back in time if and only if no entry cuts the fraction of the entry before it. |
| RecordTimes.FirstRunTimesExactly | benchmarks/lib/adversarial-intake.ts:236-247 | The first run of an accepted record was recorded, in time, after submission and review and before the freeze if and only if none of the three comparisons cuts a fraction. |
| RecordTimes.PlainIsClean | benchmarks/lib/adversarial-intake.ts:285-331 | Any five timestamps in string order are the times of some accepted record, of the schema's shape, that validates: the string order is all that validation guarantees. |
| RecordTimes.AcceptedBeforeFrozen | benchmarks/lib/adversarial-intake.ts:210-222 | A record that validates as accepted and was accepted half a second before it was frozen. |
| Crc32.BuildTable | benchmarks/lib/crc32.ts:4-8 | Each table entry is its index shifted eight times through the reflected generator. |
| Crc32.Crc32Latin1 | benchmarks/lib/crc32.ts:11-15 | The table-driven loop computes the bit-by-bit checksum of every message (IEEE 802.3 clause 3.2.9, section 8 of RFC 1952). |
| Crc32.CheckValue | benchmarks/lib/crc32.ts:11-15 | The checksum of the nine digits 1 to 9 is 0xCBF43926. |
| Crc32.TableStep | benchmarks/lib/crc32.ts:13-13 | One table lookup equals eight bit steps. |
| Crc32.ChecksumAffine | benchmarks/lib/crc32.ts:11-15 | For equal lengths the checksum of the exclusive or of three messages is the exclusive or of their checksums. |
| Crc32.RegisterInjective | benchmarks/lib/crc32.ts:13-13 | Feeding a message is a bijection of the 32-bit state: different states stay different. |
| Crc32.BurstDetected | benchmarks/lib/crc32.ts:11-15 | Two texts that differ only within four consecutive code units have the same checksum if and only if those code units have the same low bytes. |
| Wilson.EndsAreRoots | benchmarks/blind/aggregate.ts:13-18 | For every positive Z, the unrounded end points are exactly the two roots of of*(p-x)^2 = Z^2*x*(1-x). |
| Wilson.InsideExactly | benchmarks/blind/aggregate.ts:13-18 | A value lies between them exactly when of*(p-x)^2 <= Z^2*x*(1-x). |
| Wilson.Encloses | benchmarks/blind/aggregate.ts:13-18 | They lie in [0,1] and enclose the share; they reach 0 only for count 0 and 1 only for count = of. |
| Wilson.Monotone | benchmarks/blind/aggregate.ts:13-18 | A larger count moves both end points strictly up. |
| Wilson.Mirrored | benchmarks/blind/aggregate.ts:13-18 | Counting the other way mirrors the interval. |
| Wilson.WilsonAt95 | benchmarks/blind/aggregate.ts:9-19 | With the source's quantile: no value or interval for an empty denominator; else value and end points are decimals of four digits, each the nearest to the share and the unrounded ends, in order and inside [0,1]. |
| Wilson.OneOfFive | benchmarks/blind/aggregate.ts:9-19 | One of five is released as 0.2 with the interval [0.0362, 0.6245]. |
| Wilson.RoundIsNearest | benchmarks/blind/aggregate.ts:10-10 | Rounding gives the nearest decimal of four digits, the upper one of two equally near. |
| Wilson.ReleasedEncloses | benchmarks/blind/aggregate.ts:10-18 | The clamps never bite: what is released are the nearest four-digit decimals of the share and of the unclamped ends, and they still enclose the share inside [0,1]. |
| Wilson.ReleasedMonotone | benchmarks/blind/aggregate.ts:10-18 | Rounded intervals keep their order as the count grows. |
| Scoring.MoreFindingsLeakLess | benchmarks/scoring/lattice.ts:43-52 | Further findings on a file never make more of its secrets leak. |
| Counted.OutcomeIs | benchmarks/scoring/lattice.ts:43-50 | The outcome of a span, by which findings equal, hold, stay inside its envelope or reach it. |
| Aggregate.Summarize | benchmarks/blind/aggregate.ts:30-71 | The loop equals the summary obtained by filtering and counting, strata and their suppression included. |
| Aggregate.SelectOneMore | benchmarks/blind/aggregate.ts:57-58 | Tallies of disjoint strata add up. |
| Counted.SummaryCounts | benchmarks/blind/aggregate.ts:30-71 | Every number of the summary is the size of the set of observations, or of spans, it is about. |
| Counted.RowsAre | benchmarks/blind/aggregate.ts:54-62 | Whether rows are released, withheld or absent, which labels have one, and what each row counts, by sizes of sets. |
| Disclosure.AlwaysConsistent | benchmarks/blind/aggregate.ts:76-90 | Every summary passes every count equation of the consistency check, and no rate exceeds one. |
| Disclosure.OrderDoesNotMatter | benchmarks/blind/aggregate.ts:30-71 | Permuting the observations does not change the summary. |
| Disclosure.NothingSmallBySubtraction | benchmarks/blind/aggregate.ts:54-62 | A released row counts at least five fixtures, and the measured fixtures outside the released rows are none or at least five. |
| Disclosure.SmallStrataDoNotShow | benchmarks/blind/aggregate.ts:54-62 | Moving fixtures among strata that stay below five leaves the summary unchanged if and only if it neither creates the first stratum nor removes the last. |
| CredentialMetrics.RecordedCounts | benchmarks/consumer/credential-metrics.ts:83-123 | Duplicate ids and the first invalid row are refused with their error; otherwise there is one group for each key that occurs, equal to the filter-and-count of its rows. |
| CredentialMetrics.RowErrorIs | benchmarks/consumer/credential-metrics.ts:91-101 | Which error a row has, exactly. |
| CredentialMetrics.KeysSeparate | benchmarks/consumer/credential-metrics.ts:79-79 | Two rows that have kind and tier share a group exactly when both are pending, or neither is and kind and tier agree. |
| Accounting.FilesAddUp | benchmarks/consumer/credential-metrics.ts:106-113 | Files over all groups add up to the rows. |
| Accounting.GroupsBalance | benchmarks/consumer/credential-metrics.ts:115-120 | In each group the outcomes add up to the spans, leaked = PARTIAL + MISS, and co-detected pairs never exceed pairs. |
| Accounting.StrictCounts | benchmarks/consumer/credential-metrics.ts:145-152 | The second pass counts, for each group that has a pair, the twins that stay silent beside a positive whose every span is acceptable. |
| Accounting.AcceptableIs | benchmarks/consumer/credential-metrics.ts:133-133 | A span is acceptable exactly when some finding equals it, or holds it inside its envelope. |
| Accounting.PendingKinds | benchmarks/consumer/credential-metrics.ts:142-144 | Pending rows are counted by kind. |
| Accounting.PassesAgree | benchmarks/consumer/credential-metrics.ts:140-152 | Pairs counted by positives equal pairs counted by twins, and the separate discriminated count never exceeds them, in any group. |
| CountingOrder.OrderDoesNotMatter | benchmarks/consumer/credential-metrics.ts:83-123 | The same rows in another order make the same groups. |
| CountingOrder.SelectionGroups | benchmarks/consumer/credential-metrics.ts:201-212 | Each selected key is counted over exactly the rows kept for it; it fails exactly through such a set of rows. |
| CountingOrder.SelectionCountsItsOwn | benchmarks/consumer/credential-metrics.ts:193-209 | A selected group counts exactly the selected files if and only if no unselected twin of theirs falls into the same group. |
| CountingOrder.UnselectedTwinCounted | benchmarks/consumer/credential-metrics.ts:193-209 | Two valid recorded rows, the second the unselected twin of the selected first: the selected group counts two files for one. |
| ReplayDiff.Diff | scripts/compare-replay-effects.ts:44-65 | The recursion appends to the list exactly the differences of the specification, in order. |
| ReplayPaths.ChangedStatus | scripts/compare-replay-effects.ts:44-65 | For all names and texts: two artifacts whose one scanner changed its status differ in exactly that status, at the scanner's key and the starred path. |
| ReplayPaths.LackingItem | scripts/compare-replay-effects.ts:44-65 | An item that one side lacks is reported once, marked as added or removed, with the case it names or else that of its surroundings. |
| ReplayPaths.LackingField | scripts/compare-replay-effects.ts:57-60 | So is a field that one side lacks, unless it is non_semantic. |
| ReplayPaths.PlaceIs | scripts/compare-replay-effects.ts:22-32 | Which arrays are matched by which key, for every path. |
| ReplayPaths.AssertionKeyIs | scripts/compare-replay-effects.ts:26-26 | The key of an assertion. |
| ReplayPaths.AssertionsTold | scripts/compare-replay-effects.ts:26-26 | Two assertions share a key exactly when case, method, assertion and variant agree, if no bar occurs in the first three. |
| ReplayPaths.ReviewKeyIs | scripts/compare-replay-effects.ts:27-27 | The key of a review occurrence, with either spelling of the content digest. |
| ReplayPaths.KeyIs | scripts/compare-replay-effects.ts:22-32 | The other keys. |
| ReplayEquality.KeyedGet | scripts/compare-replay-effects.ts:47-47 | The keyed map holds, for each key, the last item with that key. |
| ReplayEquality.NothingAddedExactly | scripts/compare-replay-effects.ts:44-65 | For all trees: nothing is added if and only if, after dropping non_semantic, the objects agree field by field, the arrays have the same keys and the last items of each key agree, at every depth. |
| ReplayRepeats.NothingAddedCoherent | scripts/compare-replay-effects.ts:44-65 | For trees whose items under one key are alike, nothing is added if and only if the trees are equal up to non_semantic, order and repetition of keyed items. |
| ReplayRepeats.NothingAdded | scripts/compare-replay-effects.ts:44-65 | In particular for trees whose arrays hold no key twice. |
| ReplayHidden.HiddenChange | scripts/compare-replay-effects.ts:47-47 | In every tree in which some compared array holds a key twice, one item can be replaced by a different one of its key, and the diff reports nothing. |
| ReplayHidden.ReliableExactly | scripts/compare-replay-effects.ts:44-65 | The diff is right about every replacement of one item of one compared array, at any depth, by another of its key (itself without repeated keys) if and only if no compared array of the tree holds a key twice. |
| ReplayHidden.LostUnderOneKey | scripts/compare-replay-effects.ts:24-24 | Two scanners of one name, the first of which changed: no difference is reported. |
| ReplayHidden.ShadowedAddition | scripts/compare-replay-effects.ts:47-47 | One scanner against two of its name, the second equal to it: no difference is reported, though only the one side repeats a key. |
| ReplayHidden.ReorderReported | scripts/compare-replay-effects.ts:47-47 | The opposite failure: two items of one key that differ, in the other order, are equal trees and are reported. |
| ReplayHidden.ReorderedScanners | scripts/compare-replay-effects.ts:24-24 | Concretely, two scanners of one name in the other order. |
| ReplayHidden.NoneWithItself | scripts/compare-replay-effects.ts:44-65 | A tree compared with itself has no differences, whatever its keys. |
| ReplaySwap.SwapExchanges | scripts/compare-replay-effects.ts:44-65 | Swapping the arguments reports the same multiset of places with added and removed exchanged. |
| ReplayBuckets.PatternsOverlap | scripts/compare-replay-effects.ts:34-40 | The two lists of path patterns overlap exactly on the identity paths of the review queue, and there the identity list decides. |
| ReplayPaths.NormIs | scripts/compare-replay-effects.ts:41-41 | Normalizing replaces exactly the segments that consist of digits, each by a star. |
| ReplayPaths.IdentityIs | scripts/compare-replay-effects.ts:34-39 | The paths that are identity, all of them. |
| ReplayPaths.OutcomeIs | scripts/compare-replay-effects.ts:40-40 | The paths that are outcome, as whole paths, trees and beginnings. |
| ReplayBuckets.SortIntoBuckets | scripts/compare-replay-effects.ts:76-83 | Each normalized path is counted in the one bucket its patterns choose, as often as it was reported; the case ids are those of the outcome differences. |
| ReplayBuckets.NothingUncounted | scripts/compare-replay-effects.ts:76-83 | The counts of the three buckets together count every difference once. |
| Publication.Directory.PublishArtifactAndIndex | scripts/atomic-publication.ts:8-26 | In every state passed through, whatever fails or crashes: the index is the complete previous or the complete new one, it names an artifact that is there and valid, no artifact that stood is lost, no other file changes. The index is the new one exactly when every write, validation, the last check and both renames go well, and the call ends without an exception exactly then, if it does not die while removing the temporary files; these are gone if they could be removed. |
| Publication.PublishAll | scripts/atomic-publication.ts:7-26 | The same at every point of every sequence of publications made one after another. |
| PublicationRaces.ExclusiveIsSound | scripts/atomic-publication.ts:11-20 | Any number of calls interleaved, each failing or crashing anywhere: as long as no other call writes a temporary file between a call's validation of it and its rename, the index is complete and names a valid artifact, and artifacts stand for ever. |
| PublicationRaces.EndsByBothRemovals | scripts/atomic-publication.ts:21-25 | A call that does not crash ends only by way of both removals, whether or not they throw. |
| PublicationRaces.ExclusiveExactly | scripts/atomic-publication.ts:13-20 | At the first state in which this could fail: no other call is writing a validated temporary file if and only if no call can go on to move a file that another call leaves torn. |
| PublicationRaces.WrittenMeanwhileTears | scripts/atomic-publication.ts:17-20 | From every reachable state in which a call writes the index another has validated, an execution continues to a torn index. |
| PublicationTears.OverlappingCallsTear | scripts/atomic-publication.ts:11-24 | Such a state is reached from every sound directory: two valid calls both end, the first having moved its index without an exception, and the index is torn. |

## Left out

- File permissions, symbolic links, real paths and Git work trees: only existence, exclusive creation and atomic rename are kept.
- Public-conformance holdout runs: their store is disposable; `RunHoldout` answers `Elsewhere` for them.
- The field checks of `validateManifest`, `validateFixture`, `validateCorpus`, `validateFreeze` and `validateLedger`, beyond the run budget and the kind of a fixture: shapes, not behaviour.
- BlindSafety.AttemptsNeverForgotten: holds while no lock was taken with a ledger that lacks something on disk; `BlindExact.LossyExactly` says when that is, and `BlindExact.OvertakenLoses` that it fails otherwise.
- BlindSafety.ScannedAtMostOnce: as the previous line.
- Environment, benchmark checkout and configuration are compared as wholes, and whether a path, id, hash or version has its form is a parameter of the call.
- BlindStore.Store.RunBlind: where a report is released to is a parameter with three values; writing it is part of the scan phase.
- Scanners, candidates, installation, clocks and UUIDs: their results are arbitrary, their ids fresh.
- HoldoutTheorems.SealedOnceEvaluatedOnce: uniqueness is per parent directory, because the same corpus sealed under two manifest directories is two stores in the code as well; manifests written by hand are bounded by `LargestBudgetBounds` instead.
- BlindObserve.Observe: at least one replay, as the freeze's check of two guarantees.
- JSON parsing and schema checks of intake and first-run files: whether a text is JSON of the right shape is a parameter, and schema-valid shapes are assumed.
- Numbers in canonical JSON other than integers: a number stands for the text it prints as; texts of different numbers are taken to differ.
- The wording and order of validation messages: problems are values that name ids and fields.
- Outcomes.RightExactlyWhenDisjoint: expected ranges that are empty or reversed are outside it; `Intake.RangeProblems` refuses them.
- The release wording, identity fields and private-detail scan around the blind aggregate, and the order of its rows (`localeCompare`): rows are a map by label. `share` is left to `Wilson.Round`.
- Accounting.StrictCounts: the envelope widths, floors, proportions and withheld rates that `accountRecordedCounts` adds around the counts are not modelled.
- CountingOrder.SelectionGroups: accounts with `recordedCounts`; another accounting function passed by a caller is not modelled.
- ReplayDiff.Diff: keys inherited from `Object.prototype` are not modelled; a field named `__proto__` could be compared with the prototype object.
- Publication.PublishAll: validations are arbitrary predicates, of which the artifact's is for the commitment in its file name and the index's names a commitment.
- PublicationRaces.ExclusiveIsSound: filling a file is one step, and the two removals in `finally` come one after the other.
- Reading the artifacts of a replay and printing the report.
- `uint32LeBase64`, label tables, report text: they would only add easy members.
