# gantry-sftp: what its protocols, codecs and gates promise

A Dafny model of eight components of gantry-sftp, with proofs of what each one is for. Everything is
proved for all inputs, all runs and, where there is a far end, all servers.

| component | modules | in one line |
|---|---|---|
| the write battery of the compatibility report | `Remote`, `Battery`, `Transcripts`, `Requests`, `Probes`, `WriteProbes` | a client protocol run against every server that may refuse a request, perform it and lose the answer, do part of it, or answer OK and do nothing |
| the incremental ingest | `Ingest`, `IngestRuns` | a watermark carried from run to run over a directory that changes under it, with abandoned sweeps and restarts |
| the ATTRS codec | `Wire`, `Attributes`, `AttributeLaws`, `AttributeBytes` | section 5 of draft-ietf-secsh-filexfer-02 over the data types of section 5 of RFC 4251: bytes as functions, then the stateful writer and reader proved against them |
| the sweep line | `Sorting`, `Overlap` | sorted edges and one running count, against the maximum over all instants |
| the concurrent download | `Download` | any number of tasks behind a semaphore, interleaved in any order |
| the cost and throughput gates | `InstructionGate`, `SizeSweep` | what an empty report, a rise, a cliff, a dip and a printed label mean |
| the fsspec adapter | `ByteRange`, `Adapter` | byte ranges against Python slices; one lazily opened connection across closes and forks |
| the structured log fields | `LogFields`, `LogStructure` | `repr`, strip, cut, and nested collections |

`Wrappers` holds `Option`. Code that updates state in place is a class or a method with a loop, proved
against a function of its inputs or of the old state; the laws are lemmas about those functions. Exceptions
are values: `Option`, or a datatype of outcomes.

## How the far end is modelled

`Remote.Server` holds a directory (names filed to files or links), the open handles, and two flags fixed at
the start: whether names are folded to one case, and whether the server is *faithful*. `Send` picks any
outcome that `Remote.Allowed` permits, so a contract that mentions a server holds for every one. An allowed
server may do anything to the names a request concerns, and answer anything, with three limits: it touches no
other name, a rename, an open or a symlink is the only thing that creates a name, and an answer to a read or a
removal is true. A faithful server performs, answers and permits everything, and still chooses what is really
free: modes and times of new files, whether RENAME replaces, whether fsync and lsetstat work. The battery is
the only client.

## Where the code and its own words disagree

The model follows the code in each case. Where a promise fails, the exact condition under which it holds is proved.

- The battery says no existing file is removed (src/gantry_sftp/compatibility.py:1049-1051). A file that already stood at a claimed name is: its create is refused and the clean-up removes the name all the same. A faithful run leaves the directory as it found it exactly when no claimed name was taken (`WriteProbes.TracelessExactlyWhenFresh`).
- A YES from the posix-rename probe is read as "the target was replaced" (src/gantry_sftp/compatibility.py:754-762). Over an arbitrary server it says that the source is gone, and nothing of the target: a server that answers OK to everything and does nothing passes (`WriteProbes.SilentServerPassesPosixRename`), and so does one that deletes the source and leaves the target as it was (`WriteProbes.DeletingServerPassesPosixRename`). Of a server that renames wholly or not at all, a YES means the target was replaced exactly when a file stood at the source as the rename was asked, which one STAT before it would tell; otherwise nothing had changed (`Probes.ProbePosixRename`, `Probes.GoneMeansMovedOrNeverThere`). From a faithful server YES and NO are right both ways.
- A YES from the RENAME probe is read as "the target was replaced" too (src/gantry_sftp/compatibility.py:714-723), though it looks at nothing afterwards. The silent server passes from any state (`WriteProbes.SilentServerPassesRename`). Of a server that renames wholly or not at all, the target was replaced exactly when the source stood there before the rename and does not after it, which two STATs would tell (`Probes.ProbeRenameReplaces`).
- A discarded or followed lsetstat is meant never to be a YES (src/gantry_sftp/compatibility.py:872-923). It is one exactly when the link reports its mode and that was 0o640 already (`WriteProbes.UntouchedLinkIsYesOnlyByCoincidence`, and `Probes.ProbeLsetstat` of the requests themselves).
- The size probe has a branch for a refused WRITE (src/gantry_sftp/compatibility.py:994-1004) that catches `ServerError`. The session raises `TransferError` for one (src/gantry_sftp/session/_upload.py:262, 413), so such a refusal ends undetermined; `Probes.ProbeLargestRequest` states the verdict for both.
- The guard catches `SFTPError` and `OSError`. `hashlib.new` may raise `ValueError` (src/gantry_sftp/compatibility.py:951), and then the run ends with no clean-up. This is the only way out, over every server; and once a digest answer names an unknown algorithm the probe escapes exactly when the CLOSE after it was answered (`Probes.ProbeCheckFile`). A faithful server with fresh names ends a run that way exactly when the extension is advertised and the answer names an unknown algorithm (`WriteProbes.RunWriteProbes`). The session filters those to a `ProtocolError` first (src/gantry_sftp/session/_operations.py:1261), which is the `Raised` outcome here.
- The peak of a list of spans is the maximum of open minus backward spans. That is the maximum overlap exactly when some busiest instant has no span running backwards across it, so whenever none does anywhere (`Overlap.PeakIsExactWhenClear`).
- `advance` is said to be unable to skip a file it has not seen (examples/incremental_ingest.py:150-157). A file that lands during a sweep at a name it has no more to fetch, with a stamp below the largest it takes, is skipped for good (`IngestRuns.ArrivalOvertakenByItsSweepIsLost`), and so is a file rewritten in the second it was taken in under the same name (`IngestRuns.SameSecondRewriteIsLost`). An arrival is taken whichever way the sweep it falls into ends exactly when it is new against everything committed and either new against that sweep's plan too or at a name the sweep has still to fetch (`IngestRuns.SafeExactlyWhenTakenEitherWay`).
- `encode_attrs` documents a `ProtocolError` for a timestamp out of range (src/gantry_sftp/codec/_attrs.py:166-167); it raises `ValueError`.
- The marker of a cut log value understates what is missing by its own length (`LogFields.MarkerUnderstatesWhatIsMissing`), and a mapping whose keys render alike loses an entry (`LogStructure.TextAndBytesKeysCollide`).
- The pid is the whole of the adapter's guard across forks. A child given the pid its inherited object records unwinds its opener's connection; a fork is followed by nothing but sound states exactly when the pid is another (`Adapter.ForkIsSafeExactlyWhenThePidIsFresh`).
- A tolerance above 1 with a first step of negative cost voids the bound an empty instruction report gives (`InstructionGate.EmptyReportBoundsTheLadder`).

## Model

| member | source | states |
|---|---|---|
| Remote.ComplyIsAllowed | src/gantry_sftp/compatibility.py:645-1024 | to every request in every state there is an allowed outcome, so what is proved of every allowed server is not empty |
| Remote.ComplyIsFaithful | src/gantry_sftp/compatibility.py:645-1024 | and a faithful one among them |
| Remote.Server.Send | src/gantry_sftp/compatibility.py:645-652 | any allowed outcome, any faithful one from a faithful server; a told handle is owed a CLOSE, and the exchange is on record |
| Battery.TrimSlashes | src/gantry_sftp/compatibility.py:297-299 | a directory loses every trailing separator and nothing else |
| Battery.Scratch.Claim | src/gantry_sftp/compatibility.py:638-642 | the name is on the list before its path is handed out |
| Battery.Register | src/gantry_sftp/compatibility.py:623-642 | a claim adds exactly its own filed name, and disturbs nothing that holds between requests |
| Battery.FootprintStays | src/gantry_sftp/compatibility.py:1043-1051 | a request that names only claimed names concerns only claimed names, through links and handles too |
| Battery.EffectStaysConfined | src/gantry_sftp/compatibility.py:1043-1051 | whatever an allowed server makes of such a request, every other name is as it was and no link leaves the claimed names |
| Battery.EffectCreatesOnlyNames | src/gantry_sftp/compatibility.py:623-642 | and every name it creates is a claimed one |
| Battery.Ask | src/gantry_sftp/compatibility.py:645-652 | every request of the battery keeps the run tidy, over every server: new names are claimed names, all else is untouched |
| Requests.OpenScratch | src/gantry_sftp/compatibility.py:645-647 | an exclusive open: a told handle is owed; a faithful server refuses exactly when the name is taken, and then nothing changed |
| Requests.CloseHandle | src/gantry_sftp/compatibility.py:651-652 | a CLOSE settles the handle it names, and changes no name |
| Requests.WriteAt | src/gantry_sftp/compatibility.py:648-650 | nothing is sent for no bytes; otherwise a count within what was sent or a failure; a faithful server takes all, at the start of the file |
| Requests.Create | src/gantry_sftp/compatibility.py:645-652 | asks exactly for an exclusive open with mode 0o600, the write if there is one and the close of the handle it was told, and raises what that comes to; no handle is left owed on any path; against a faithful server it succeeds exactly when the name was free, the file then holds exactly the contents, and a failure changes nothing |
| Requests.CreateTwo | src/gantry_sftp/compatibility.py:698-701 | claims both names before it creates either, and stops at the first request that failed |
| Requests.FillAndClose | src/gantry_sftp/compatibility.py:648-652 | one write if there is anything to write, then the close whatever came of it; a failed close hides a failed write |
| Requests.StatPath | src/gantry_sftp/compatibility.py:748-749 | a report is of what is there, and "no such file" means the path resolves to nothing |
| Probes.YesIsTheLinksOwnMode | src/gantry_sftp/compatibility.py:872-923 | under any true report of the link the verdict is YES exactly if its mode is reported and its bits are 0o640 |
| Probes.JudgeBoth | src/gantry_sftp/compatibility.py:872-923 | asks for both reports and judges from them; YES exactly when the link reports its mode and its own permission bits are 0o640 on the server |
| Transcripts.UpperNameIsTheNamesOnly | src/gantry_sftp/compatibility.py:302-310 | the directory is left alone and the last component uppercased letter by letter |
| Probes.UpperNameFoldsBack | src/gantry_sftp/compatibility.py:302-310 | the uppercased name folds to what the name folds to |
| Probes.CaseNameHasAnUppercase | src/gantry_sftp/compatibility.py:302-310 | the case probe asks for a name other than the one it created, whatever the directory and run |
| Probes.KeysDiffer | src/gantry_sftp/compatibility.py:638-642 | two scratch names of one run never share a filed name, on a server that folds case too |
| Probes.ProbeCaseFolding | src/gantry_sftp/compatibility.py:655-688 | asks exactly the requests of its script, and the verdict is what they establish (`Transcripts`); the verdict is whether the uppercase name resolves; a faithful server with both names free is told exactly whether it folds |
| Probes.ProbeRenameReplaces | src/gantry_sftp/compatibility.py:691-723 | asks exactly the requests of its script, and the verdict is what they establish (`Transcripts`); NO is a server's refusal; on a YES from a server that renames wholly or not at all, the target was replaced exactly when the source was there before and is not now; from a faithful server YES is that the source is gone, and the target is there either way |
| Probes.GoneMeansMovedOrNeverThere | src/gantry_sftp/compatibility.py:754-762 | if a request renames wholly or not at all and the source is gone after it, the target holds what the source held exactly when the source was there, and otherwise nothing changed |
| Probes.ProbePosixRename | src/gantry_sftp/compatibility.py:726-770 | asks exactly the requests of its script, and the verdict is what they establish (`Transcripts`); YES only if the source is gone on the server, and from a server that renames wholly or not at all, the target was then replaced exactly when the source stood there before; NO only after a refusal or with the source there; exact from a faithful server |
| Probes.RenameAndLook | src/gantry_sftp/compatibility.py:737-770 | the same of the rename and the STAT alone, effect on the target included |
| Probes.ProbeTimestamps | src/gantry_sftp/compatibility.py:773-810 | asks exactly the requests of its script, and the verdict is what they establish (`Transcripts`); YES exactly if the file's time is the probe's, NO exactly if it is not, over every server; YES from a faithful one |
| Probes.ProbeFsync | src/gantry_sftp/compatibility.py:813-832 | asks exactly the requests of its script, and the verdict is what they establish (`Transcripts`); YES is an OK, NO is OP_UNSUPPORTED, anything else is raised; the handle is closed on every path; on a faithful server the payload is in the file |
| Probes.ProbeLsetstat | src/gantry_sftp/compatibility.py:835-869 | asks exactly the requests of its script, and the verdict is what they establish (`Transcripts`); YES only if the link's own mode is 0o640 on the server; if the answered change left the link alone, a reported mode gives YES exactly if it was 0o640 before; a faithful server that answers OK gets YES, one that refuses gets NO |
| Probes.ProbeCheckFile | src/gantry_sftp/compatibility.py:926-968 | asks exactly the requests of its script, and the verdict is what they establish (`Transcripts`); YES exactly for the one digest computed here, so a faithful server that hashes the bytes it holds is told YES; after an answer with an unknown algorithm it escapes the guard exactly when its CLOSE was answered, and otherwise never; the handle is closed on every path |
| Probes.ProbeLargestRequest | src/gantry_sftp/compatibility.py:971-1024 | asks exactly the requests of its script, and the verdict is what they establish (`Transcripts`); a failed WRITE gives NO exactly when it is a `ServerError` and the CLOSE was answered; a counted one gives YES or NO by whether all bytes were counted; any other failure is raised; a faithful server gets YES and holds all of it |
| WriteProbes.CleanUp | src/gantry_sftp/compatibility.py:1090-1109 | one removal for each claimed name, last first; the report is exactly the removals that failed other than for want of a file, so each name is gone or reported |
| WriteProbes.NameIsItsSuffix | src/gantry_sftp/compatibility.py:638-642 | every claimed path is the directory, a slash, `gantry-probe-`, the run id, a dash and the probe's suffix |
| WriteProbes.GuardedIsTold | src/gantry_sftp/compatibility.py:326-354 | the guard reports a probe's own verdict, and Undetermined for one that raised |
| Transcripts.DisconnectedProbeEstablishesNothing | src/gantry_sftp/compatibility.py:326-354 | a probe none of whose requests is answered is undetermined |
| Transcripts.DisconnectedRunEstablishesNothing | src/gantry_sftp/compatibility.py:326-354 | so is every question of a run over a connection that is gone |
| WriteProbes.UnclaimedIsFree | src/gantry_sftp/compatibility.py:623-642 | in a fresh directory a name not yet claimed is still free, whatever the server did so far |
| WriteProbes.AskCaseFolding | src/gantry_sftp/compatibility.py:1073-1077 | one finding, nothing owed, the case name claimed, and the right answer from a faithful server |
| WriteProbes.CheckFileIfAdvertised | src/gantry_sftp/compatibility.py:926-968 | no finding unless advertised; escapes only over an answer with an unknown algorithm, and from a faithful server with fresh names exactly then |
| WriteProbes.ExtensionProbes | src/gantry_sftp/compatibility.py:1027-1082 | one finding for each advertised extension in the table's order, those probes' names claimed in order, and an escape exactly as its last probe's |
| WriteProbes.RunWriteProbes | src/gantry_sftp/compatibility.py:1043-1087 | over every server: the exchanges are those of each question's script in order and then the removals, each finding reports what its own exchanges establish and Undetermined if they raised, and what is left is exactly the removals that failed; each new name is reported, all unclaimed names are as they were, a CLOSE for every handle; a faithful server is left with nothing of the run and answered every question, and the run escapes exactly when an advertised check-file names an unknown algorithm |
| WriteProbes.ReportCoversNew | src/gantry_sftp/compatibility.py:1090-1109 | after the clean-up every name that was not there before is reported |
| WriteProbes.EndOfRun | src/gantry_sftp/compatibility.py:1083-1087 | with nothing to report, the directory is the initial one without the claimed names |
| WriteProbes.TracelessExactlyWhenFresh | src/gantry_sftp/compatibility.py:1049-1051 | the directory is what it was exactly when no claimed name was taken before; a name that was there survives exactly if it was not claimed |
| WriteProbes.SilentServerPassesPosixRename | src/gantry_sftp/compatibility.py:754-770 | from a state without the source, the whole probe against a server that does nothing is allowed, concludes YES, and renamed nothing |
| WriteProbes.SilentServerPassesRename | src/gantry_sftp/compatibility.py:714-723 | from any state, so does the RENAME probe |
| WriteProbes.DeletingServerPassesPosixRename | src/gantry_sftp/compatibility.py:754-770 | an allowed server that makes both files and deletes the source is told YES, with the target as it was |
| WriteProbes.UntouchedLinkIsYesOnlyByCoincidence | src/gantry_sftp/compatibility.py:872-923 | after a request that left the link alone, any true report of it gives YES exactly if it carries the mode and that was 0o640 before |
| Ingest.Watermark.constructor | examples/incremental_ingest.py:123-130 | the watermark is what was stored, or nothing |
| Ingest.Watermark.WantsEntry | examples/incremental_ingest.py:132-148 | unstamped, first, later, or same second under another name |
| Ingest.Watermark.Advance | examples/incremental_ingest.py:150-170 | the whole new mark, and that the file is rewritten with it exactly when something stamped was taken at or after the mark |
| Ingest.Watermark.Sweep | examples/incremental_ingest.py:173-187 | fails exactly when the transfer of a wanted file raises, having taken those before it and leaving mark and file alone; otherwise takes exactly the wanted matching entries, returns their names in ascending order, and advances over them |
| Ingest.MatchesIsACsvFile | examples/incremental_ingest.py:180-181 | a plain file whose name ends in the four characters `.csv`, and nothing else |
| Ingest.NameOrderIsLexicographic | examples/incremental_ingest.py:176-176 | the order of names is by the first difference, a prefix first |
| Ingest.SweepTakesInNameOrder | examples/incremental_ingest.py:173-187 | what a sweep takes is exactly the wanted matching entries of the listing, ascending by name |
| Ingest.Selected | examples/incremental_ingest.py:176-184 | an entry is taken exactly when it is listed, matches and is wanted |
| Ingest.WantsIsAntitone | examples/incremental_ingest.py:132-170 | an advanced mark wants nothing the old one did not |
| Ingest.MarksOnlyGrow | examples/incremental_ingest.py:150-170 | a mark moves only forward, only to a stamp that was taken, and drops no name while it stands still |
| Ingest.TakenIsNotWanted | examples/incremental_ingest.py:132-170 | what advanced a mark is not wanted by it |
| Ingest.OlderThanTakenIsNotWanted | examples/incremental_ingest.py:132-170 | nor is anything older than something that did |
| IngestRuns.WantsExactlyTheNew | examples/incremental_ingest.py:132-148 | whatever was committed, the mark wants an entry exactly when it has no time, or is later than everything committed, or shares the latest second under a name not committed in it |
| IngestRuns.ReachedWantsExactlyTheNew | examples/incremental_ingest.py:132-170 | the mark a sweep will reach wants exactly what is new against the history and that sweep's plan |
| IngestRuns.ListingSelects | examples/incremental_ingest.py:176-184 | from a listing with each name once, a plan is the wanted matching files with each name once |
| IngestRuns.StepKeepsConsistent | examples/incremental_ingest.py:123-187 | every event keeps: the file reads back to the mark, and the mark is exactly a summary of what was committed |
| IngestRuns.RunStaysConsistent | examples/incremental_ingest.py:123-187 | so does every run |
| IngestRuns.NeverTakenTwice | examples/incremental_ingest.py:132-170 | over any run no stamped pair of name and time is taken twice; the stamp bounds every taken one, and the names are exactly those taken at it |
| IngestRuns.OnlyAbandoningDrops | examples/incremental_ingest.py:150-187 | over a run what was committed stays committed, and without an abandoned sweep or a restart nothing fetched stops counting |
| IngestRuns.FetchIsCountedUntilAbandoned | examples/incremental_ingest.py:173-187 | at any later moment a fetch is committed, in the sweep under way, or its sweep was abandoned in between |
| IngestRuns.OnlyAnAbandonedSweepIsRetaken | examples/incremental_ingest.py:150-187 | if a run fetches a stamped pair twice, the sweep of the first fetch was abandoned, with that fetch in it, before the second |
| IngestRuns.RestartBetweenSweepsIsInvisible | examples/incremental_ingest.py:123-130 | rebuilding the watermark from its file between sweeps changes nothing |
| IngestRuns.WatermarkNeverMovesBack | examples/incremental_ingest.py:150-170 | from any point of any run to any later one, restarts included |
| IngestRuns.StepLosesNothing | examples/incremental_ingest.py:132-187 | every event keeps a matching file committed, fetched or new against the history, if an arrival at its own name is a safe one |
| IngestRuns.RunLosesNothing | examples/incremental_ingest.py:132-187 | if every arrival at a name is safe, its content is at no moment of any run lost, whatever arrives elsewhere |
| IngestRuns.CommittedSweepLeavesOnlyNewWork | examples/incremental_ingest.py:173-187 | when a sweep commits, each matching file there is committed or new against all that was |
| IngestRuns.GetKeepsThePromise | examples/incremental_ingest.py:176-185 | a transfer of a planned name is the one that was promised, and it is promised once |
| IngestRuns.FinishedSweepKeepsThePromise | examples/incremental_ingest.py:173-187 | whatever lands and vanishes at other names, a sweep that finishes has transferred a name exactly as often as its plan promised, and reaches the mark of its plan |
| IngestRuns.PlanIsCommitted | examples/incremental_ingest.py:173-187 | a committed sweep has fetched every entry of its plan under the listed stamp, whatever landed or vanished at any name |
| IngestRuns.SweepTakesEverythingListed | examples/incremental_ingest.py:173-187 | when a sweep commits, every matching file its listing showed, stamped or not, has been taken under the listed stamp or with the listed content, whatever landed or vanished after the listing, at any name |
| IngestRuns.SweepCommitsWhatStayed | examples/incremental_ingest.py:173-187 | one that stayed as it was listed is committed with that content |
| IngestRuns.SweepTakesExactlyTheWanted | examples/incremental_ingest.py:173-187 | it transfers a matching file once if that was new against everything committed before, and otherwise not at all, whatever happens at other names |
| IngestRuns.UnwantedIsNeverTaken | examples/incremental_ingest.py:132-148 | a file that is not new against what was committed is transferred by no later sweep while it stays as it is |
| IngestRuns.CommittedSweepDecides | examples/incremental_ingest.py:150-187 | an arrival is transferred, by the sweep it falls into and the next, exactly once if the first has still to fetch that name and once more if it is new against the history and that sweep's plan |
| IngestRuns.AbandonedSweepDecides | examples/incremental_ingest.py:123-187 | if the first is abandoned, the next transfers it exactly when it was new against the history as it landed |
| IngestRuns.SafeExactlyWhenTakenEitherWay | examples/incremental_ingest.py:132-187 | the arrival condition holds exactly when the arrival is taken both ways |
| IngestRuns.LateArrivalIsLost | examples/incremental_ingest.py:150-187 | the failing family: an arrival not new against what its sweep commits, at a name not still to be fetched, is transferred by nothing ever after the commit |
| IngestRuns.ArrivalOvertakenByItsSweepIsLost | examples/incremental_ingest.py:150-157 | in it: a file older than the newest the sweep under way takes |
| IngestRuns.SameSecondRewriteIsLost | examples/incremental_ingest.py:132-148 | in it: a rewrite between sweeps under a name and second that were committed |
| Wire.U32RoundTrip | src/gantry_sftp/codec/_wire.py:107-109 | reading the four bytes of an integer gives it back |
| Wire.FromU32RoundTrip | src/gantry_sftp/codec/_wire.py:233-242 | writing what four bytes were read as gives them back |
| Wire.U64RoundTrip | src/gantry_sftp/codec/_wire.py:111-113 | the same for eight bytes |
| Wire.FromU64RoundTrip | src/gantry_sftp/codec/_wire.py:244-253 | and back |
| Wire.U32Reads | src/gantry_sftp/codec/_wire.py:107-109 | a written uint32 is read back, leaving exactly what follows |
| Wire.U32Rewrites | src/gantry_sftp/codec/_wire.py:107-109 | refused exactly below four bytes; otherwise what was consumed is the writing of what was read |
| Wire.StrReads | src/gantry_sftp/codec/_wire.py:175-183 | a written string is read back, leaving exactly what follows |
| Wire.StrRewrites | src/gantry_sftp/codec/_wire.py:175-183 | what was consumed is the writing of what was read |
| Wire.ReadCount | src/gantry_sftp/codec/_wire.py:126-169 | an accepted count is one the remaining bytes can hold |
| Wire.WireWriter.WriteUint32 | src/gantry_sftp/codec/_wire.py:233-242 | appends four bytes, or refuses exactly outside uint32 and appends nothing |
| Wire.WireWriter.WriteUint64 | src/gantry_sftp/codec/_wire.py:244-253 | appends eight bytes, or refuses exactly outside uint64 and appends nothing |
| Wire.WireWriter.WriteString | src/gantry_sftp/codec/_wire.py:260-268 | appends length and bytes, or refuses exactly a length beyond uint32 and appends nothing |
| Wire.WireReader.TakeBytes | src/gantry_sftp/codec/_wire.py:93-101 | gives exactly the next bytes, or refuses and stays |
| Wire.WireReader.ReadUint32 | src/gantry_sftp/codec/_wire.py:107-109 | agrees with the format in both outcomes, and a refusal moves nothing |
| Wire.WireReader.ReadString | src/gantry_sftp/codec/_wire.py:175-183 | agrees with the format in both outcomes |
| Wire.WireReader.ReadItemCount | src/gantry_sftp/codec/_wire.py:126-169 | agrees with the format in both outcomes, and a refusal leaves the position at the count |
| Attributes.FlagsOf | src/gantry_sftp/codec/_attrs.py:93-107 | the word has exactly the bits of the fields present, and no undefined one |
| Attributes.Flags | src/gantry_sftp/codec/_attrs.py:93-107 | setting the bits one by one gives that word |
| Attributes.DefinedFlagsAreTheirBits | src/gantry_sftp/codec/_attrs.py:198-204 | a word without undefined bits is determined by the fields it announces |
| Attributes.WriteTimestamp | src/gantry_sftp/codec/_attrs.py:139-160 | refuses exactly outside uint32, and never truncates |
| Attributes.EncodeAttrs | src/gantry_sftp/codec/_attrs.py:163-184 | succeeds exactly on what an ATTRS can carry, and then appends exactly its encoding |
| Attributes.EncodePairs | src/gantry_sftp/codec/_attrs.py:180-184 | the loop appends every pair in order, or refuses a string that is too long |
| Attributes.DecodeAttrs | src/gantry_sftp/codec/_attrs.py:187-224 | the reader's answer and final position agree with the format, refusals included |
| Attributes.DecodeFields | src/gantry_sftp/codec/_attrs.py:205-224 | so do the fields after the flags word |
| Attributes.DecodePairs | src/gantry_sftp/codec/_attrs.py:218-222 | the loop reads as many pairs as counted, in order, or refuses |
| AttributeLaws.ExtendedReads | src/gantry_sftp/codec/_attrs.py:212-222 | `read_count` never refuses a count of pairs that are there |
| AttributeBytes.U32IsBigEndian | src/gantry_sftp/codec/_wire.py:107-109 | the four bytes of an integer stand for it, most significant first |
| AttributeBytes.U64IsBigEndian | src/gantry_sftp/codec/_wire.py:111-113 | so do the eight |
| AttributeBytes.EncodingIsTheImage | src/gantry_sftp/codec/_attrs.py:163-184 | byte by byte: 128 in the first for pairs, 1, 2, 4 and 8 in the fourth for size, owner, permissions and times, zeros between; then each field at its offset, big-endian, uid before gid, atime before mtime, the count, and each pair's kind before its data, to the end |
| AttributeBytes.AcceptedBytesAreTheImage | src/gantry_sftp/codec/_attrs.py:187-224 | whatever is accepted, the consumed bytes are that image of what was read |
| AttributeLaws.FrameReads | src/gantry_sftp/codec/_attrs.py:187-224 | every frame whose word announces its fields is accepted, one with EXTENDED over a count of zero too |
| AttributeLaws.RoundTrip | src/gantry_sftp/codec/_attrs.py:163-224 | decoding an encoding before any suffix gives the value and leaves exactly the suffix |
| AttributeLaws.DecodingIsLocal | src/gantry_sftp/codec/_attrs.py:187-224 | what follows an accepted structure has no part in how it is read |
| AttributeLaws.EncodingsArePrefixFree | src/gantry_sftp/codec/_attrs.py:163-184 | an encoding that is a prefix of another is the same value's |
| AttributeLaws.TruncationIsRefused | src/gantry_sftp/codec/_attrs.py:187-224 | every proper prefix of an encoding is refused |
| AttributeLaws.DecodingConsumes | src/gantry_sftp/codec/_attrs.py:187-224 | an accepted structure uses at least 4 bytes and 8 for each pair, and at most all |
| AttributeLaws.FrameAgainstEncoding | src/gantry_sftp/codec/_attrs.py:105-107 | a structure differs from its value's encoding exactly by an EXTENDED bit over no pairs |
| AttributeLaws.Reencoding | src/gantry_sftp/codec/_attrs.py:187-224 | encoding what was decoded gives the consumed bytes, exactly unless EXTENDED was set over a count of zero; there that bit and the count are all that is dropped |
| AttributeLaws.WriteThenRead | src/gantry_sftp/codec/_attrs.py:163-224 | the stateful encoder and decoder round-trip, and refuse exactly the unencodable |
| Sorting.SortSorts | examples/concurrent_transfers.py:89-89 | `sorted` orders by any total order; that it permutes is its own postcondition |
| Overlap.PeakOverlap | examples/concurrent_transfers.py:82-94 | the result is the maximum of open minus backward spans over all instants; it is the maximum of open ones exactly when some busiest instant is clear of backward spans, and for all spans that do not run backwards |
| Overlap.PeakIsExactWhenClear | examples/concurrent_transfers.py:82-94 | that condition is exact, for every list |
| Overlap.BalanceIsRunning | examples/concurrent_transfers.py:89-93 | the running count at a cut is the sum of the deltas up to that instant |
| Overlap.ScanNeverOvershoots | examples/concurrent_transfers.py:89-93 | no count the scan passes through exceeds what is open at some instant, at ties too |
| Overlap.ScanFindsPeak | examples/concurrent_transfers.py:82-94 | the largest running count is attained at an instant and exceeded at none |
| Overlap.NothingRunsBackward | examples/concurrent_transfers.py:82-94 | for forward spans, what is counted is what is open |
| Overlap.PeakIgnoresOrder | examples/concurrent_transfers.py:82-94 | the same spans in another order have the same peak |
| Overlap.BackwardSpanHidesAnother | examples/concurrent_transfers.py:82-94 | two spans, one backward, for which the scan answers 0 and one is open |
| Download.StepKeepsBalance | benchmarks/_clients.py:353-370 | each step keeps permits plus transfers at the limit and accounts for every byte |
| Download.EveryRunIsBalanced | benchmarks/_clients.py:350-378 | for any number of tasks and any interleaving, never more transfers in flight than the limit, and at most three steps a task |
| Download.FinishedRunCountsEverything | benchmarks/_clients.py:350-379 | the total is the sum of what every task transferred |
| Download.NoDeadlock | benchmarks/_clients.py:351-354 | a run can go on until all is recorded, exactly when the limit is positive or there is nothing to do |
| Download.DownloadMany | benchmarks/_clients.py:338-379 | under every scheduler it ends; there is no total exactly when some transfer raises, and otherwise it is the sum of what the files hold |
| Download.AugmentedAssignmentLosesAnUpdate | benchmarks/_clients.py:365-369 | the form avoided loses the first of two overlapping tasks' bytes |
| InstructionGate.EligibleIsAscending | benchmarks/_instructions.py:192-193 | exactly the rungs at or above the floor, still ascending |
| InstructionGate.Rises | benchmarks/_instructions.py:195-219 | refuses exactly a tolerance below one; otherwise the loop's report is the specified one |
| InstructionGate.StepsWrittenOut | benchmarks/_instructions.py:95-120 | a step is a pair of neighbouring eligible rungs, and its cost times the bytes added is the instructions added times 1048576 |
| InstructionGate.Cheapest | benchmarks/_instructions.py:215-217 | the reference is the cheapest of the steps below, the earliest on a tie |
| InstructionGate.ReportIsInLadderOrder | benchmarks/_instructions.py:195-219 | each step is reported at most once, in ladder order, at any floor |
| InstructionGate.OutgrownMeansTheCheapest | benchmarks/_instructions.py:213-218 | a step is over the cheapest one below exactly when it is over some one below |
| InstructionGate.ReportsExactlyTheOutgrown | benchmarks/_instructions.py:195-219 | what is reported is exactly each step some earlier step undercuts, against the cheapest below |
| InstructionGate.EmptyExactlyWhenNothingRises | benchmarks/_instructions.py:179-219 | the gate is silent exactly when no eligible step is undercut, at any floor |
| InstructionGate.BoundedByALine | benchmarks/_instructions.py:195-219 | a silent gate bounds every rung by one line from the first, with no compounding |
| InstructionGate.EmptyReportBoundsTheLadder | benchmarks/_instructions.py:195-219 | it does so exactly when the first step's cost is not negative or the tolerance is 1 |
| InstructionGate.LinearCostNeverRises | benchmarks/_instructions.py:95-120 | a linear cost is silent exactly when its rate is not negative, the tolerance is 1, or there are fewer than two steps |
| InstructionGate.CurvedCostRisesWhenTheEndsDiffer | benchmarks/_instructions.py:195-219 | a cost that curves upward is reported exactly when its last step is over its first |
| InstructionGate.LongDoublingLadderRises | benchmarks/_instructions.py:195-219 | on a doubling ladder past a stated length it is reported, whatever the tolerance |
| SizeSweep.MedianIsTheMiddle | benchmarks/_harness.py:247-250 | the median is the sample of the middle rank, or half way between the two of the middle ranks |
| SizeSweep.MedianLiesBetween | benchmarks/_harness.py:247-250 | the median lies between the least and the greatest sample, for odd and even counts |
| SizeSweep.ThroughputsOfTheSamples | benchmarks/_harness.py:247-264 | the throughput is the median sample's, in MiB of 1048576 bytes; best and worst bound every sample's and are some sample's |
| SizeSweep.ThroughputLiesBetween | benchmarks/_harness.py:247-264 | the median throughput lies between the worst and the best, and all are positive |
| SizeSweep.FastestBelowIsFastest | benchmarks/_harness.py:298-303 | no smaller size is faster than the reference, and none before it as fast |
| SizeSweep.FellBelowIsEverySample | benchmarks/_harness.py:306-316 | a separable fall is one of every sample against every sample of the reference |
| SizeSweep.DipIsBelowSomeSmaller | benchmarks/_harness.py:341-357 | a fall on medians is a fall against some smaller size |
| SizeSweep.FallsInOrder | benchmarks/_harness.py:341-357 | each size is reported at most once, in ascending order |
| SizeSweep.ShapeWrittenOut | benchmarks/_harness.py:391-409 | what each label says of the row against the fastest smaller size, with its ratio |
| SizeSweep.Falls | benchmarks/_harness.py:341-357 | refuses exactly a tolerance outside (0, 1]; otherwise the loop's report is the specified one |
| SizeSweep.FallsAreWhatFell | benchmarks/_harness.py:341-357 | a pair is reported exactly when that size fell against the fastest smaller one |
| SizeSweep.SeparatedMeansDipped | benchmarks/_harness.py:306-316 | a fall that the samples separate is a fall of the medians |
| SizeSweep.EveryCliffIsADip | benchmarks/_harness.py:359-388 | every cliff is a dip, with the same reference |
| SizeSweep.LabelledCliffExactlyWhenReported | benchmarks/_harness.py:391-409 | a row reads CLIFF exactly when `cliffs` reports that row |
| SizeSweep.OverlappingRowsAreNotCliffs | benchmarks/_harness.py:406-409 | a row marked overlapping is a cliff at no tolerance |
| ByteRange.RangeCoversTheSlice | src/gantry_sftp/fsspec.py:1228-1261 | the offset and length asked for cover exactly the positions Python's slice covers, for every size and bounds |
| ByteRange.CatFileIsTheSlice | src/gantry_sftp/fsspec.py:1037-1044 | with a size, every content and every pair of bounds gives exactly Python's `data[start:end]` |
| ByteRange.CatFileWithoutASize | src/gantry_sftp/fsspec.py:1228-1261 | without one, a range is the slice exactly when it has an end or the file stays within 2^40 bytes of its start |
| ByteRange.StaleSizeCutsTheTail | src/gantry_sftp/fsspec.py:1037-1044 | a size below the real one cuts an open-ended range at it, exactly when there was more to read |
| Adapter.ReplayOfExits | src/gantry_sftp/fsspec.py:653-678 | exiting what is entered, last first, leaves nothing entered, from any state |
| Adapter.AttemptOwnsAllOrNothing | src/gantry_sftp/fsspec.py:653-678 | an attempt that gets through has portal and session entered; one that raises, at any stage, has exited exactly what it had entered, each once and innermost first |
| Adapter.ExitStack.EnterContext | src/gantry_sftp/fsspec.py:657-670 | a context that raises on the way in is not one to exit |
| Adapter.ExitStack.Close | src/gantry_sftp/fsspec.py:673-675 | the loop exits everything held, once, last first |
| Adapter.FileSystem.EnterAll | src/gantry_sftp/fsspec.py:656-672 | portal, session, and a directory change if there is one, up to the stage that raises; a raise anywhere is a failure, but a chdir only with a working directory |
| Adapter.FileSystem.Connect | src/gantry_sftp/fsspec.py:653-678 | a raise at any stage leaves nothing entered and no field changed; a success records the pid and a stack that owns exactly the portal and the session |
| Adapter.FileSystem.Sftp | src/gantry_sftp/fsspec.py:640-651 | with a session nothing changes; without one, a raise at the portal, the session or a wanted chdir gives none, changes no field and leaves nothing entered, and otherwise the session, its stack of portal and session, and the pid are recorded |
| Adapter.FileSystem.Close | src/gantry_sftp/fsspec.py:680-697 | forgets everything, and exits what the stack holds exactly when this process recorded it; otherwise the stack is not touched |
| Adapter.StepStaysSound | src/gantry_sftp/fsspec.py:640-698 | every access, close, half of a close and fork keeps: who owns a stack opened its connection, and what it holds is exactly what is still entered |
| Adapter.RunStaysSound | src/gantry_sftp/fsspec.py:640-698 | so does every run of them with fresh pids |
| Adapter.EachConnectionIsClosedOnceByItsOpener | src/gantry_sftp/fsspec.py:640-698 | over any run, every context is entered and exited at most once, innermost first, by no process but its opener |
| Adapter.ReusedPidUnwindsAForeignConnection | src/gantry_sftp/fsspec.py:680-697 | after a fork with the recorded pid, the child's close exits a connection another process opened |
| Adapter.ForkIsSafeExactlyWhenThePidIsFresh | src/gantry_sftp/fsspec.py:680-697 | at any fork of any run, every continuation leaves connections to their openers exactly when the child's pid is not the recorded one |
| Adapter.AReusedPidIsReachable | src/gantry_sftp/fsspec.py:680-697 | a run of an access and two forks reaches a fork with the recorded pid |
| Adapter.OneConnectionUntilClosed | src/gantry_sftp/fsspec.py:640-651 | from a first access to its next close a process keeps one connection and opens no other, over any run |
| Adapter.AccessOpensExactlyWhenUnconnected | src/gantry_sftp/fsspec.py:640-651 | an access that gets through changes nothing if there is a session, and otherwise leaves this process the owner of one new, wholly open connection |
| Adapter.FailedAccessLeavesNothing | src/gantry_sftp/fsspec.py:653-678 | for each stage by name: no process and no other connection changed, and the attempt entered and exited nothing, the portal, or both in reverse |
| Adapter.NoDirectoryNoChdir | src/gantry_sftp/fsspec.py:671-672 | without a working directory a chdir cannot fail |
| Adapter.AccessAfterCloseOpensAnew | src/gantry_sftp/fsspec.py:640-697 | the first access to get through after a close, however much later in a run, has a whole open connection of its own |
| Adapter.OpenersKnowOverARun | src/gantry_sftp/fsspec.py:640-697 | over any run, a process that holds a connection it opened has its own pid on record |
| Adapter.HoldsItsOwnExactlyWhenRecorded | src/gantry_sftp/fsspec.py:640-697 | over any run with fresh pids, the connection a process holds is one it opened exactly when the pid on record is its own |
| Adapter.CloseInTheChildTouchesNothing | src/gantry_sftp/fsspec.py:680-697 | a forked child's close exits nothing and leaves the parent as it was |
| LogFields.UnquotedIsTheBody | src/gantry_sftp/_logging.py:439-458 | stripping a `repr` takes off exactly the framing |
| LogFields.UnescapeUndoesEscape | src/gantry_sftp/_logging.py:439-458 | what `repr` writes between quotes can be read back |
| LogFields.UncutFieldsCanBeReadBack | src/gantry_sftp/_logging.py:428-458 | an uncut `repr` determines the bytes or text it came from |
| LogFields.FieldComesFromItsSource | src/gantry_sftp/_logging.py:417-436 | the field of a text, byte string or path is cut from a text that reads back to that very source, and is it when it fits |
| LogFields.PlainTextIsItsOwnField | src/gantry_sftp/_logging.py:439-458 | a printable ASCII name without a backslash or both kinds of quote is its own field |
| LogFields.EscapesWrittenOut | src/gantry_sftp/_logging.py:439-458 | which characters are escaped, and the codes they are escaped to |
| LogFields.QuoteWrittenOut | src/gantry_sftp/_logging.py:428-436 | the framing is a quotation mark exactly for a text with an apostrophe and none of them |
| LogFields.HexDigitsWrittenOut | src/gantry_sftp/_logging.py:439-458 | escape digits are lower-case hexadecimal, high digit first |
| LogFields.MarkerWrittenOut | src/gantry_sftp/_logging.py:482-483 | a plus sign and decimal digits that read back to the number |
| LogFields.CutKeepsBothEnds | src/gantry_sftp/_logging.py:461-491 | a cut value is 96 characters of prefix, marker and a suffix of 8 or more, exactly when the marker leaves room |
| LogFields.CutIsNeverLonger | src/gantry_sftp/_logging.py:461-491 | never longer than the head cut |
| LogFields.MarkerUnderstatesWhatIsMissing | src/gantry_sftp/_logging.py:482-491 | what is missing is the marker's number plus the marker's own length |
| LogFields.ScalarIsControlFree | src/gantry_sftp/_logging.py:417-419 | no control character in any text, byte string or path that was rendered here |
| LogFields.CutIsCleanExactlyWhenKeptIs | src/gantry_sftp/_logging.py:461-491 | a cut text is free of control characters exactly when the head and the tail it keeps are |
| LogFields.OpaqueRenderingIsPassedOn | src/gantry_sftp/_logging.py:428-436 | an object's own `repr` comes through with nothing but its framing gone, clean exactly if it was; one that is too long, exactly if what is kept of it was |
| LogStructure.StructuredMirrors | src/gantry_sftp/_logging.py:397-414 | at any depth, each text leaf and key is cut from a text that reads back to its own source leaf, no longer than its head cut and free of control characters; lists keep every item in order |
| LogStructure.PutAllKeepsTheLast | src/gantry_sftp/_logging.py:408-414 | of the assignments to one key a dictionary keeps the last |
| LogStructure.PutAllKeepsPlaces | src/gantry_sftp/_logging.py:408-414 | a key keeps the place of its first assignment |
| LogStructure.PutAllAddsKeys | src/gantry_sftp/_logging.py:408-414 | building a dictionary keeps exactly the keys given, each once |
| LogStructure.MappingKeepsAnEntryPerRenderedKey | src/gantry_sftp/_logging.py:408-414 | a mapping stays whole exactly when no two keys render alike |
| LogStructure.TextAndBytesKeysCollide | src/gantry_sftp/_logging.py:408-414 | an ASCII text and the same bytes are one key, and the first entry is lost |

## Left out

- The session, scheduler, transport, journal, glob and framing code: only what the components above ask of it is modelled, as the requests of `Remote` and as `ByteRange.ReadAt`.
- The read-only battery, evidence strings, report rendering and the status-word checks: one-branch choices over text.
- The battery's nominated directory: subdirectories, and other clients that change it during a run.
- Remote.Server: a link of one claimed name to another is followed up to 40 times; permission checks, quotas and directory times are part of "refuses" and "does part of it".
- WriteProbes.RunWriteProbes: that unclaimed names are as they were assumes no link stands at a scratch name when the run begins, because an OPEN or SETSTAT that follows it leaves the nominated directory's names; the reporting of new names needs no such hypothesis.
- WriteProbes.RunWriteProbes: after an escaped exception nothing is cleaned up, as in the code, so only confinement and the closed handles are stated for that outcome.
- Probes.ProbeRenameReplaces: over an arbitrary server YES says of the directory only what an answered RENAME to that server says, because the code looks at nothing afterwards.
- Probes.ProbeFsync: whether a flush reached a disk cannot be seen from the client; the verdict is stated against the answer.
- Ingest.Watermark.Advance: the file is written and read back as a value, whole; a write torn by a crash, and the JSON and date syntax, are not modelled.
- IngestRuns.NeverTakenTwice: a listing names each file once; an entry without a time is taken by every sweep, as the code says, and is outside the claim.
- Wire.WireReader.ReadItemCount: the `ValueError` for an item length below one is a precondition, since the only caller modelled passes 8.
- Wire.WireReader.ReadUint32: the error's packet type, request id and text are not modelled; nor are `read_uint8`, `read_remaining` and `frame`.
- Wire.WireWriter.WriteString: a buffer mutated between the write and the join; chunks are values here.
- Download.DownloadMany: a limit of zero with files to fetch, which waits for ever, is excluded here and is what `Download.NoDeadlock` is about. Also left out: real scheduling, elapsed time and the failure's own propagation; a transfer that raises ends the group with no total.
- InstructionGate.Rises: floats are `real`, so rounding is not modelled. The same holds of `SizeSweep.Falls` and of the instants of `Overlap.PeakOverlap`.
- ByteRange.CatFileWithoutASize: an unbounded read asks for a buffer of 2^40 bytes; memory is not modelled.
- Adapter.EachConnectionIsClosedOnceByItsOpener: a fork taken while a thread holds the lock, which leaves the child's copy locked; and an unwinding that itself raises.
- LogFields.ScalarIsControlFree: `str.isprintable` is a parameter assumed to refuse control characters, and `repr` of numbers and of foreign objects comes already rendered.
- LogFields.UncutFieldsCanBeReadBack: surrogate escapes are characters like any other; JSON encoding of the record is not modelled.
- The fsspec instance cache, buffered files, paths and globbing: they rest on base classes outside the repository.
- `doctor`, the command line, lanes, the dependency audit, environment masking, query parsing, exception classes, and `benchmarks/_memory.py`: one-branch members, or a weaker copy of the instruction gate.
