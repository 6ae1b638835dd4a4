/** The whole battery: every probe under its guard, then the clean-up, and what a run leaves behind. */
module WriteProbes {
  import opened Wrappers
  import opened Remote
  import opened Battery
  import opened Transcripts
  import opened Requests
  import opened Probes

  /** What a run returns, or `Escaped` when an exception went through it and nothing after it happened. */
  datatype BatteryResult = Report(findings: seq<Finding>, leftBehind: seq<Leftover>) | Escaped

  /** The extension probes run against a server that advertises these. */
  function ExtensionFacts(advertised: set<Extension>): seq<Fact> {
    (if PosixRenames in advertised then [PosixRenameHonoured] else [])
    + (if Fsyncs in advertised then [FsyncHonoured] else [])
    + (if LsetStats in advertised then [LsetstatHonoured] else [])
    + (if ChecksFiles in advertised then [CheckFileHonoured] else [])
  }

  function FactsOf(findings: seq<Finding>): seq<Fact> {
    seq(|findings|, i requires 0 <= i < |findings| => findings[i].fact)
  }

  /** A failed probe is an honest non-answer; only an unguarded exception is anything else. */
  function Guarded(fact: Fact, o: Outcome): Finding
    requires !o.Crashed?
  {
    Finding(fact, if o.Concluded? then o.verdict else Undetermined)
  }

  /** The guard reports what the probe's exchanges establish. */
  lemma GuardedIsTold(fact: Fact, o: Outcome, seg: seq<Exchange>, setup: Setup)
    requires Asked(fact, seg, setup) && o == OutcomeOf(fact, seg, setup) && !o.Crashed?
    ensures AllTold([Guarded(fact, o)], [seg], setup) && Flat([seg]) == seg
  {
    hide Asked, OutcomeOf;
    FlatOfOne(seg);
  }

  lemma NothingTold(log: seq<Exchange>, setup: Setup)
    ensures AllTold([], [], setup) && log == log + Flat([])
  {
  }

  /** A log grown by the exchanges of some probes, and then of some more. */
  lemma ToldAddUp(log: seq<Exchange>, findings: seq<Finding>, segs: seq<seq<Exchange>>,
                  more: seq<Finding>, others: seq<seq<Exchange>>, setup: Setup)
    requires AllTold(findings, segs, setup)
    ensures log + Flat(segs) + Flat(others) == log + Flat(segs + others)
    ensures AllTold(more, others, setup) ==> AllTold(findings + more, segs + others, setup)
  {
    hide Asked, OutcomeOf, Told;
    FlatOfConcat(segs, others);
    LogGrows(log, Flat(segs), Flat(others));
  }

  /** The setup is the one this run was started with. */
  ghost predicate SetFor(setup: Setup, scratch: Scratch) {
    setup.directory == scratch.directory && setup.runId == scratch.runId
  }

  /** A claimed name is the run's name with its suffix. */
  lemma NameIsItsSuffix(setup: Setup, name: ScratchName)
    ensures ScratchPath(setup.directory, setup.runId, name) == Named(setup, name.Suffix())
  {
    hide TrimSlashes;
    PrefixWrittenOut(TrimSlashes(setup.directory), setup.runId, name.Suffix());
  }

  lemma PrefixWrittenOut(head: Path, runId: string, suffix: string)
    ensures head + "/" + (PROBE_PREFIX + "-" + runId + "-" + suffix) == head + "/gantry-probe-" + runId + "-" + suffix
  {
    var rest := runId + "-" + suffix;
    assert PROBE_PREFIX + "-" + runId + "-" + suffix == "gantry-probe-" + rest;
    assert "/" + ("gantry-probe-" + rest) == "/gantry-probe-" + rest;
  }

  /** A finding a server that does what it answers must be given: an answer, and the right one where only one is. */
  ghost predicate Settled(folds: bool, f: Finding) {
    && f.verdict != Undetermined
    && (f.fact == CaseFolds ==> f.verdict == if folds then Yes else No)
    && (f.fact == TimesSurvive || f.fact == LargestRequestAccepted ==> f.verdict == Yes)
  }

  ghost predicate AllSettled(folds: bool, findings: seq<Finding>) {
    forall f :: f in findings ==> Settled(folds, f)
  }

  /** No file stands where these names are filed. */
  ghost predicate Free(server: Server, scratch: Scratch, names: seq<ScratchName>)
    reads server
  {
    forall n :: n in names ==> KeyFor(server, scratch, n) !in server.state.dir
  }

  /** The directory as the run found it had nothing at any name the run asks for. */
  ghost predicate Fresh(server: Server, directory: Path, runId: string, initial: Dir) {
    && (forall k :: k in ScratchKeys(server, directory, runId) ==> k !in initial)
    && Key(server.folds, UpperName(ScratchPath(directory, runId, CaseName))) !in initial
  }

  /** A name not among those claimed is filed apart from all of them. */
  lemma UnclaimedIsApart(folds: bool, directory: Path, runId: string, done: seq<ScratchName>, name: ScratchName)
    requires name !in done
    ensures Key(folds, ScratchPath(directory, runId, name)) !in KeysOf(folds, ScratchPaths(directory, runId, done))
  {
    hide ScratchPath;
    hide Key;
    forall p | p in ScratchPaths(directory, runId, done)
      ensures Key(folds, p) != Key(folds, ScratchPath(directory, runId, name))
    {
      var i :| 0 <= i < |done| && p == ScratchPath(directory, runId, done[i]);
      KeysDiffer(folds, directory, runId, done[i], name);
    }
  }

  /** A name the run has not claimed yet is still free. */
  lemma UnclaimedIsFree(server: Server, scratch: Scratch, done: seq<ScratchName>, names: seq<ScratchName>)
    requires Tidy(server, scratch) && HasClaimed(scratch, done)
    requires Fresh(server, scratch.directory, scratch.runId, scratch.initial)
    requires forall n :: n in names ==> n !in done && n in Claims(server.advertised)
    ensures Free(server, scratch, names)
  {
    hide ScratchPath;
    hide Key;
    hide Claims;
    forall n | n in names ensures KeyFor(server, scratch, n) !in server.state.dir {
      ClaimIsPlanned(server.folds, scratch.directory, scratch.runId, Claims(server.advertised), n);
      UnclaimedIsApart(server.folds, scratch.directory, scratch.runId, done, n);
    }
  }

  ghost predicate Removed(server: Server, path: Path)
    reads server
  {
    Key(server.folds, path) !in server.state.dir
  }

  function PathsOf(left: seq<Leftover>): set<Path> {
    set e | e in left :: e.path
  }

  /** One removal for each path, last first. */
  function Removals(paths: seq<Path>): seq<Request> {
    seq(|paths|, i requires 0 <= i < |paths| => Remove(paths[|paths| - 1 - i]))
  }

  /** The removals that failed, other than for want of a file. */
  function LeftoversOf(log: seq<Exchange>): seq<Leftover> {
    if log == [] then []
    else
      var x := log[|log| - 1];
      LeftoversOf(log[..|log| - 1])
      + if x.request.Remove? && x.answer.Failed? && x.answer.failure != NoSuchFile
        then [Leftover(x.request.path, x.answer.failure)] else []
  }

  lemma LeftoversOfSnoc(log: seq<Exchange>, x: Exchange)
    ensures LeftoversOf(log + [x])
            == LeftoversOf(log) + if x.request.Remove? && x.answer.Failed? && x.answer.failure != NoSuchFile
                                  then [Leftover(x.request.path, x.answer.failure)] else []
  {
    assert (log + [x])[..|log|] == log;
  }

  /** Removes every claimed name, last first, and reports each that would not go. */
  method CleanUp(server: Server, scratch: Scratch) returns (left: seq<Leftover>, ghost cleaning: seq<Exchange>)
    requires Tidy(server, scratch)
    modifies server
    ensures Tidy(server, scratch) && server.owed == old(server.owed)
    ensures server.log == old(server.log) + cleaning
    ensures RequestsOf(cleaning) == Removals(scratch.claimed) && left == LeftoversOf(cleaning)
    ensures forall p :: p in scratch.claimed ==> Removed(server, p) || p in PathsOf(left)
    ensures forall e :: e in left ==> e.path in scratch.claimed && e.failure != NoSuchFile
    ensures server.state.dir.Keys <= old(server.state.dir).Keys
    ensures server.faithful ==> left == [] && server.state.open == old(server.state.open)
  {
    hide Tidy, Key, LeftoversOf;
    left, cleaning := [], [];
    NothingLeftYet();
    var i := |scratch.claimed|;
    while i > 0
      invariant 0 <= i <= |scratch.claimed|
      invariant Tidy(server, scratch) && server.owed == old(server.owed)
      invariant server.log == old(server.log) + cleaning && left == LeftoversOf(cleaning)
      invariant RequestsOf(cleaning) == Removals(scratch.claimed)[..|scratch.claimed| - i]
      invariant forall p :: p in scratch.claimed[i..] ==> Removed(server, p) || p in PathsOf(left)
      invariant forall e :: e in left ==> e.path in scratch.claimed && e.failure != NoSuchFile
      invariant server.state.dir.Keys <= old(server.state.dir).Keys
      invariant server.faithful ==> left == [] && server.state.open == old(server.state.open)
    {
      i := i - 1;
      var path := scratch.claimed[i];
      var failure, x := RemovePath(server, scratch, path);
      LogGrows(old(server.log), cleaning, [x]);
      LeftoversOfSnoc(cleaning, x);
      cleaning := cleaning + [x];
      if failure.Some? && failure.value != NoSuchFile {
        PathsOfSnoc(left, Leftover(path, failure.value));
        left := left + [Leftover(path, failure.value)];
      }
      assert scratch.claimed[i..] == [path] + scratch.claimed[i + 1..];
    }
    assert scratch.claimed[0..] == scratch.claimed;
  }

  lemma NothingLeftYet()
    ensures LeftoversOf([]) == [] && RequestsOf([]) == []
  {
  }

  lemma PathsOfSnoc(left: seq<Leftover>, e: Leftover)
    ensures PathsOf(left + [e]) == PathsOf(left) + {e.path}
  {
    forall p | p in PathsOf(left) + {e.path} ensures p in PathsOf(left + [e]) {
      if p == e.path {
        assert e in left + [e];
      } else {
        var x :| x in left && x.path == p;
        assert x in left + [e];
      }
    }
  }

  method RemovePath(server: Server, scratch: Scratch, path: Path)
    returns (failure: Option<Failure>, ghost x: Exchange)
    requires Tidy(server, scratch) && path in scratch.claimed
    modifies server
    ensures Tidy(server, scratch) && server.owed == old(server.owed)
    ensures server.log == old(server.log) + [x] && x.request == Remove(path) && failure == Raises(x)
    ensures failure.None? || failure.value == NoSuchFile ==> Removed(server, path)
    ensures server.state.dir.Keys <= old(server.state.dir).Keys
    ensures server.faithful ==> failure.None? || failure.value == NoSuchFile
    ensures server.faithful ==> server.state.open == old(server.state.open)
  {
    assert Key(server.folds, path) in KeysOf(server.folds, scratch.claimed);
    ghost var was := server.state;
    var a := Ask(server, scratch, Remove(path));
    failure := if a.Failed? then Some(a.failure) else None;
    x := Exchange(was, Remove(path), a, server.state);
  }

  /** The directory once the names in `gone` are taken out of it. */
  ghost predicate Without(before: Dir, after: Dir, gone: set<Path>) {
    SameOutside(before, after, gone) && forall k :: k in gone ==> k !in after
  }

  // --- the run --------------------------------------------------------------------------------------------

  ghost predicate HasClaimed(scratch: Scratch, names: seq<ScratchName>)
    reads scratch
  {
    scratch.claimed == ScratchPaths(scratch.directory, scratch.runId, names)
  }

  lemma ClaimsAddUp(directory: Path, runId: string, a: seq<ScratchName>, b: seq<ScratchName>)
    ensures ScratchPaths(directory, runId, a + b)
            == ScratchPaths(directory, runId, a) + ScratchPaths(directory, runId, b)
  {
  }

  /** Claiming some more names, in order. */
  lemma ClaimedThen(scratch: Scratch, before: seq<Path>, done: seq<ScratchName>, more: seq<ScratchName>)
    requires before == ScratchPaths(scratch.directory, scratch.runId, done)
    requires scratch.claimed == before + ScratchPaths(scratch.directory, scratch.runId, more)
    ensures HasClaimed(scratch, done + more)
  {
    ClaimsAddUp(scratch.directory, scratch.runId, done, more);
  }

  lemma OnePath(directory: Path, runId: string, a: ScratchName)
    ensures [ScratchPath(directory, runId, a)] == ScratchPaths(directory, runId, [a])
  {
  }

  lemma TwoPaths(directory: Path, runId: string, a: ScratchName, b: ScratchName)
    ensures [ScratchPath(directory, runId, a), ScratchPath(directory, runId, b)]
            == ScratchPaths(directory, runId, [a, b])
  {
  }

  /** The first question, put before anything is claimed. */
  method AskCaseFolding(server: Server, scratch: Scratch, ghost setup: Setup)
    returns (findings: seq<Finding>, ghost segs: seq<seq<Exchange>>)
    requires SetFor(setup, scratch)
    requires Tidy(server, scratch) && HasClaimed(scratch, [])
    modifies server, scratch
    ensures Tidy(server, scratch) && server.owed == old(server.owed)
    ensures HasClaimed(scratch, [CaseName])
    ensures server.log == old(server.log) + Flat(segs) && AllTold(findings, segs, setup)
    ensures server.faithful ==> server.state.open == old(server.state.open)
    ensures FactsOf(findings) == [CaseFolds]
    ensures server.faithful && Fresh(server, scratch.directory, scratch.runId, scratch.initial) ==>
              AllSettled(server.folds, findings)
  {
    hide ScratchPath, Key, Named, AllTold, Follows, FsyncAsked, CheckFileAsked, LargestAsked;
    hide CaseScript, RenameScript, TimesScript, PosixScript, LsetstatScript;
    hide AnsweredAndJudged, RenamedIfThere, HasProbeMode, AnsweredRename;
    hide CaseOutcome, RenameOutcome, TimesOutcome, PosixOutcome, FsyncOutcome, LsetstatOutcome, CheckFileOutcome,
         LargestOutcome;
    if server.faithful && Fresh(server, scratch.directory, scratch.runId, scratch.initial) {
      UnclaimedIsFree(server, scratch, [], [CaseName]);
    }
    var o, seg := ProbeCaseFolding(server, scratch);
    findings, segs := [Guarded(CaseFolds, o)], [seg];
    NameIsItsSuffix(setup, CaseName);
    GuardedIsTold(CaseFolds, o, seg, setup);
    OnePath(scratch.directory, scratch.runId, CaseName);
  }

  /** Whether RENAME replaces. */
  method AskRename(server: Server, scratch: Scratch, ghost setup: Setup,
      ghost done: seq<ScratchName>)
    returns (findings: seq<Finding>, ghost segs: seq<seq<Exchange>>)
    requires SetFor(setup, scratch)
    requires Tidy(server, scratch) && HasClaimed(scratch, done)
    requires RenameSource !in done && RenameTarget !in done
    modifies server, scratch
    ensures Tidy(server, scratch) && server.owed == old(server.owed)
    ensures HasClaimed(scratch, done + [RenameSource, RenameTarget])
    ensures server.log == old(server.log) + Flat(segs) && AllTold(findings, segs, setup)
    ensures server.faithful ==> server.state.open == old(server.state.open)
    ensures FactsOf(findings) == [RenameReplaces]
    ensures server.faithful && Fresh(server, scratch.directory, scratch.runId, scratch.initial) ==>
              AllSettled(server.folds, findings)
  {
    hide ScratchPath, Key, Tidy, Fresh, Named, AllTold, KeysOf, Follows, FsyncAsked, CheckFileAsked, LargestAsked;
    hide CaseScript, RenameScript, TimesScript, PosixScript, LsetstatScript;
    hide AnsweredAndJudged, RenamedIfThere, HasProbeMode, AnsweredRename;
    hide CaseOutcome, RenameOutcome, TimesOutcome, PosixOutcome, FsyncOutcome, LsetstatOutcome, CheckFileOutcome,
         LargestOutcome;
    if server.faithful && Fresh(server, scratch.directory, scratch.runId, scratch.initial) {
      UnclaimedIsFree(server, scratch, done, [RenameSource, RenameTarget]);
    }
    ghost var before := scratch.claimed;
    var o, _, seg := ProbeRenameReplaces(server, scratch);
    findings, segs := [Guarded(RenameReplaces, o)], [seg];
    NameIsItsSuffix(setup, RenameSource);
    NameIsItsSuffix(setup, RenameTarget);
    GuardedIsTold(RenameReplaces, o, seg, setup);
    TwoPaths(scratch.directory, scratch.runId, RenameSource, RenameTarget);
    ClaimedThen(scratch, before, done, [RenameSource, RenameTarget]);
  }

  /** Whether times survive. */
  method AskTimes(server: Server, scratch: Scratch, ghost setup: Setup,
      ghost done: seq<ScratchName>)
    returns (findings: seq<Finding>, ghost segs: seq<seq<Exchange>>)
    requires SetFor(setup, scratch)
    requires Tidy(server, scratch) && HasClaimed(scratch, done)
    requires TimesName !in done
    modifies server, scratch
    ensures Tidy(server, scratch) && server.owed == old(server.owed)
    ensures HasClaimed(scratch, done + [TimesName])
    ensures server.log == old(server.log) + Flat(segs) && AllTold(findings, segs, setup)
    ensures server.faithful ==> server.state.open == old(server.state.open)
    ensures FactsOf(findings) == [TimesSurvive]
    ensures server.faithful && Fresh(server, scratch.directory, scratch.runId, scratch.initial) ==>
              AllSettled(server.folds, findings)
  {
    hide ScratchPath, Key, Tidy, Fresh, Named, AllTold, KeysOf, Follows, FsyncAsked, CheckFileAsked, LargestAsked;
    hide CaseScript, RenameScript, TimesScript, PosixScript, LsetstatScript;
    hide AnsweredAndJudged, RenamedIfThere, HasProbeMode, AnsweredRename;
    hide CaseOutcome, RenameOutcome, TimesOutcome, PosixOutcome, FsyncOutcome, LsetstatOutcome, CheckFileOutcome,
         LargestOutcome;
    if server.faithful && Fresh(server, scratch.directory, scratch.runId, scratch.initial) {
      UnclaimedIsFree(server, scratch, done, [TimesName]);
    }
    ghost var before := scratch.claimed;
    var o, seg := ProbeTimestamps(server, scratch);
    findings, segs := [Guarded(TimesSurvive, o)], [seg];
    NameIsItsSuffix(setup, TimesName);
    GuardedIsTold(TimesSurvive, o, seg, setup);
    OnePath(scratch.directory, scratch.runId, TimesName);
    ClaimedThen(scratch, before, done, [TimesName]);
  }

  /** The one large write, after everything else. */
  method AskLargest(server: Server, scratch: Scratch, requestBytes: nat, ghost setup: Setup,
      ghost done: seq<ScratchName>)
    returns (findings: seq<Finding>, ghost segs: seq<seq<Exchange>>)
    requires SetFor(setup, scratch) && setup.requestBytes == requestBytes
    requires Tidy(server, scratch) && HasClaimed(scratch, done)
    requires LargestRequest !in done
    modifies server, scratch
    ensures Tidy(server, scratch) && server.owed == old(server.owed)
    ensures HasClaimed(scratch, done + [LargestRequest])
    ensures server.log == old(server.log) + Flat(segs) && AllTold(findings, segs, setup)
    ensures server.faithful ==> server.state.open == old(server.state.open)
    ensures FactsOf(findings) == [LargestRequestAccepted]
    ensures server.faithful && Fresh(server, scratch.directory, scratch.runId, scratch.initial) ==>
              AllSettled(server.folds, findings)
  {
    hide ScratchPath, Key, Tidy, Fresh, Named, AllTold, KeysOf, Follows, FsyncAsked, CheckFileAsked, LargestAsked;
    hide CaseScript, RenameScript, TimesScript, PosixScript, LsetstatScript;
    hide AnsweredAndJudged, RenamedIfThere, HasProbeMode, AnsweredRename;
    hide CaseOutcome, RenameOutcome, TimesOutcome, PosixOutcome, FsyncOutcome, LsetstatOutcome, CheckFileOutcome,
         LargestOutcome;
    if server.faithful && Fresh(server, scratch.directory, scratch.runId, scratch.initial) {
      UnclaimedIsFree(server, scratch, done, [LargestRequest]);
    }
    ghost var before := scratch.claimed;
    var o, _, seg := ProbeLargestRequest(server, scratch, requestBytes);
    findings, segs := [Guarded(LargestRequestAccepted, o)], [seg];
    NameIsItsSuffix(setup, LargestRequest);
    GuardedIsTold(LargestRequestAccepted, o, seg, setup);
    OnePath(scratch.directory, scratch.runId, LargestRequest);
    ClaimedThen(scratch, before, done, [LargestRequest]);
  }

  lemma SettledAddUp(folds: bool, a: seq<Finding>, b: seq<Finding>)
    requires AllSettled(folds, a) && AllSettled(folds, b)
    ensures AllSettled(folds, a + b)
  {
  }

  /** The three probes every server gets. */
  method BaseProbes(server: Server, scratch: Scratch, ghost setup: Setup)
    returns (findings: seq<Finding>, ghost segs: seq<seq<Exchange>>)
    requires SetFor(setup, scratch)
    requires Tidy(server, scratch) && HasClaimed(scratch, [])
    modifies server, scratch
    ensures Tidy(server, scratch) && server.owed == old(server.owed)
    ensures HasClaimed(scratch, BASE_CLAIMS)
    ensures server.log == old(server.log) + Flat(segs) && AllTold(findings, segs, setup)
    ensures server.faithful ==> server.state.open == old(server.state.open)
    ensures FactsOf(findings) == [CaseFolds, RenameReplaces, TimesSurvive]
    ensures server.faithful && Fresh(server, scratch.directory, scratch.runId, scratch.initial) ==>
              AllSettled(server.folds, findings)
  {
    hide Tidy, Fresh, HasClaimed, AllTold, Flat;
    ghost var start := server.log;
    var folds, a := AskCaseFolding(server, scratch, setup);
    var renames, b := AskRename(server, scratch, setup, [CaseName]);
    ToldAddUp(start, folds, a, renames, b, setup);
    assert [CaseName] + [RenameSource, RenameTarget] == [CaseName, RenameSource, RenameTarget];
    var times, c := AskTimes(server, scratch, setup, [CaseName, RenameSource, RenameTarget]);
    ToldAddUp(start, folds + renames, a + b, times, c, setup);
    assert [CaseName, RenameSource, RenameTarget] + [TimesName] == BASE_CLAIMS;
    FactsAddUp(folds, renames);
    FactsAddUp(folds + renames, times);
    findings, segs := folds + renames + times, a + b + c;
  }

  method AskPosixRename(server: Server, scratch: Scratch, ghost setup: Setup, ghost done: seq<ScratchName>)
    returns (findings: seq<Finding>, ghost segs: seq<seq<Exchange>>)
    requires SetFor(setup, scratch) && PosixRenames in server.advertised
    requires Tidy(server, scratch) && HasClaimed(scratch, done)
    requires PosixSource !in done && PosixTarget !in done
    modifies server, scratch
    ensures Tidy(server, scratch) && server.owed == old(server.owed)
    ensures HasClaimed(scratch, done + [PosixSource, PosixTarget])
    ensures server.log == old(server.log) + Flat(segs) && AllTold(findings, segs, setup)
    ensures server.faithful ==> server.state.open == old(server.state.open)
    ensures FactsOf(findings) == [PosixRenameHonoured]
    ensures server.faithful && Fresh(server, scratch.directory, scratch.runId, scratch.initial) ==>
              AllSettled(server.folds, findings)
  {
    hide ScratchPath, Key, Tidy, Fresh, Named, AllTold, KeysOf, Follows, FsyncAsked, CheckFileAsked, LargestAsked;
    hide CaseScript, RenameScript, TimesScript, PosixScript, LsetstatScript;
    hide AnsweredAndJudged, RenamedIfThere, HasProbeMode, AnsweredRename;
    hide CaseOutcome, RenameOutcome, TimesOutcome, PosixOutcome, FsyncOutcome, LsetstatOutcome, CheckFileOutcome,
         LargestOutcome;
    if server.faithful && Fresh(server, scratch.directory, scratch.runId, scratch.initial) {
      UnclaimedIsFree(server, scratch, done, [PosixSource, PosixTarget]);
    }
    ghost var before := scratch.claimed;
    var o, _, seg := ProbePosixRename(server, scratch);
    findings, segs := [Guarded(PosixRenameHonoured, o)], [seg];
    NameIsItsSuffix(setup, PosixSource);
    NameIsItsSuffix(setup, PosixTarget);
    GuardedIsTold(PosixRenameHonoured, o, seg, setup);
    TwoPaths(scratch.directory, scratch.runId, PosixSource, PosixTarget);
    ClaimedThen(scratch, before, done, [PosixSource, PosixTarget]);
  }

  /** Asked of a server that advertises it. */
  method PosixRenameIfAdvertised(server: Server, scratch: Scratch, ghost setup: Setup,
      ghost done: seq<ScratchName>)
    returns (findings: seq<Finding>, ghost segs: seq<seq<Exchange>>)
    requires SetFor(setup, scratch)
    requires Tidy(server, scratch) && HasClaimed(scratch, done)
    requires forall n :: n in PosixClaims(server.advertised) ==> n !in done
    modifies server, scratch
    ensures Tidy(server, scratch) && server.owed == old(server.owed)
    ensures HasClaimed(scratch, done + PosixClaims(server.advertised))
    ensures server.log == old(server.log) + Flat(segs) && AllTold(findings, segs, setup)
    ensures server.faithful ==> server.state.open == old(server.state.open)
    ensures FactsOf(findings) == if PosixRenames in server.advertised then [PosixRenameHonoured] else []
    ensures server.faithful && Fresh(server, scratch.directory, scratch.runId, scratch.initial) ==>
              AllSettled(server.folds, findings)
  {
    hide ScratchPaths, Tidy, Fresh, AllTold, Flat;
    findings, segs := [], [];
    NothingTold(server.log, setup);
    if PosixRenames in server.advertised {
      findings, segs := AskPosixRename(server, scratch, setup, done);
    } else {
      assert done + [] == done;
    }
  }

  method AskFsync(server: Server, scratch: Scratch, ghost setup: Setup, ghost done: seq<ScratchName>)
    returns (findings: seq<Finding>, ghost segs: seq<seq<Exchange>>)
    requires SetFor(setup, scratch) && Fsyncs in server.advertised
    requires Tidy(server, scratch) && HasClaimed(scratch, done)
    requires FsyncName !in done
    modifies server, scratch
    ensures Tidy(server, scratch) && server.owed == old(server.owed)
    ensures HasClaimed(scratch, done + [FsyncName])
    ensures server.log == old(server.log) + Flat(segs) && AllTold(findings, segs, setup)
    ensures server.faithful ==> server.state.open == old(server.state.open)
    ensures FactsOf(findings) == [FsyncHonoured]
    ensures server.faithful && Fresh(server, scratch.directory, scratch.runId, scratch.initial) ==>
              AllSettled(server.folds, findings)
  {
    hide ScratchPath, Key, Tidy, Fresh, Named, AllTold, KeysOf, Follows, FsyncAsked, CheckFileAsked, LargestAsked;
    hide CaseScript, RenameScript, TimesScript, PosixScript, LsetstatScript;
    hide AnsweredAndJudged, RenamedIfThere, HasProbeMode, AnsweredRename;
    hide CaseOutcome, RenameOutcome, TimesOutcome, PosixOutcome, FsyncOutcome, LsetstatOutcome, CheckFileOutcome,
         LargestOutcome;
    if server.faithful && Fresh(server, scratch.directory, scratch.runId, scratch.initial) {
      UnclaimedIsFree(server, scratch, done, [FsyncName]);
    }
    ghost var before := scratch.claimed;
    var o, _, seg := ProbeFsync(server, scratch);
    findings, segs := [Guarded(FsyncHonoured, o)], [seg];
    NameIsItsSuffix(setup, FsyncName);
    GuardedIsTold(FsyncHonoured, o, seg, setup);
    OnePath(scratch.directory, scratch.runId, FsyncName);
    ClaimedThen(scratch, before, done, [FsyncName]);
  }

  /** Asked of a server that advertises it. */
  method FsyncIfAdvertised(server: Server, scratch: Scratch, ghost setup: Setup,
      ghost done: seq<ScratchName>)
    returns (findings: seq<Finding>, ghost segs: seq<seq<Exchange>>)
    requires SetFor(setup, scratch)
    requires Tidy(server, scratch) && HasClaimed(scratch, done)
    requires forall n :: n in FsyncClaims(server.advertised) ==> n !in done
    modifies server, scratch
    ensures Tidy(server, scratch) && server.owed == old(server.owed)
    ensures HasClaimed(scratch, done + FsyncClaims(server.advertised))
    ensures server.log == old(server.log) + Flat(segs) && AllTold(findings, segs, setup)
    ensures server.faithful ==> server.state.open == old(server.state.open)
    ensures FactsOf(findings) == if Fsyncs in server.advertised then [FsyncHonoured] else []
    ensures server.faithful && Fresh(server, scratch.directory, scratch.runId, scratch.initial) ==>
              AllSettled(server.folds, findings)
  {
    hide ScratchPaths, Tidy, Fresh, AllTold, Flat;
    findings, segs := [], [];
    NothingTold(server.log, setup);
    if Fsyncs in server.advertised {
      findings, segs := AskFsync(server, scratch, setup, done);
    } else {
      assert done + [] == done;
    }
  }

  method AskLsetstat(server: Server, scratch: Scratch, ghost setup: Setup, ghost done: seq<ScratchName>)
    returns (findings: seq<Finding>, ghost segs: seq<seq<Exchange>>)
    requires SetFor(setup, scratch) && LsetStats in server.advertised
    requires Tidy(server, scratch) && HasClaimed(scratch, done)
    requires LsetstatTarget !in done && LsetstatLink !in done
    modifies server, scratch
    ensures Tidy(server, scratch) && server.owed == old(server.owed)
    ensures HasClaimed(scratch, done + [LsetstatTarget, LsetstatLink])
    ensures server.log == old(server.log) + Flat(segs) && AllTold(findings, segs, setup)
    ensures server.faithful ==> server.state.open == old(server.state.open)
    ensures FactsOf(findings) == [LsetstatHonoured]
    ensures server.faithful && Fresh(server, scratch.directory, scratch.runId, scratch.initial) ==>
              AllSettled(server.folds, findings)
  {
    hide ScratchPath, Key, Tidy, Fresh, Named, AllTold, KeysOf, Follows, FsyncAsked, CheckFileAsked, LargestAsked;
    hide CaseScript, RenameScript, TimesScript, PosixScript, LsetstatScript;
    hide AnsweredAndJudged, RenamedIfThere, HasProbeMode, AnsweredRename;
    hide CaseOutcome, RenameOutcome, TimesOutcome, PosixOutcome, FsyncOutcome, LsetstatOutcome, CheckFileOutcome,
         LargestOutcome;
    if server.faithful && Fresh(server, scratch.directory, scratch.runId, scratch.initial) {
      UnclaimedIsFree(server, scratch, done, [LsetstatTarget, LsetstatLink]);
    }
    ghost var before := scratch.claimed;
    var o, _, seg := ProbeLsetstat(server, scratch);
    findings, segs := [Guarded(LsetstatHonoured, o)], [seg];
    NameIsItsSuffix(setup, LsetstatTarget);
    NameIsItsSuffix(setup, LsetstatLink);
    GuardedIsTold(LsetstatHonoured, o, seg, setup);
    TwoPaths(scratch.directory, scratch.runId, LsetstatTarget, LsetstatLink);
    ClaimedThen(scratch, before, done, [LsetstatTarget, LsetstatLink]);
  }

  /** Asked of a server that advertises it. */
  method LsetstatIfAdvertised(server: Server, scratch: Scratch, ghost setup: Setup,
      ghost done: seq<ScratchName>)
    returns (findings: seq<Finding>, ghost segs: seq<seq<Exchange>>)
    requires SetFor(setup, scratch)
    requires Tidy(server, scratch) && HasClaimed(scratch, done)
    requires forall n :: n in LsetstatClaims(server.advertised) ==> n !in done
    modifies server, scratch
    ensures Tidy(server, scratch) && server.owed == old(server.owed)
    ensures HasClaimed(scratch, done + LsetstatClaims(server.advertised))
    ensures server.log == old(server.log) + Flat(segs) && AllTold(findings, segs, setup)
    ensures server.faithful ==> server.state.open == old(server.state.open)
    ensures FactsOf(findings) == if LsetStats in server.advertised then [LsetstatHonoured] else []
    ensures server.faithful && Fresh(server, scratch.directory, scratch.runId, scratch.initial) ==>
              AllSettled(server.folds, findings)
  {
    hide ScratchPaths, Tidy, Fresh, AllTold, Flat;
    findings, segs := [], [];
    NothingTold(server.log, setup);
    if LsetStats in server.advertised {
      findings, segs := AskLsetstat(server, scratch, setup, done);
    } else {
      assert done + [] == done;
    }
  }

  /** The exchanges of a check-file probe that ended in the exception the guard does not catch. */
  ghost predicate EscapedIn(seg: seq<Exchange>, setup: Setup) {
    Asked(CheckFileHonoured, seg, setup) && OutcomeOf(CheckFileHonoured, seg, setup) == Crashed
  }

  /** The one probe that can let an exception through the guard. */
  method AskCheckFile(server: Server, scratch: Scratch, hashes: Hashes, ghost setup: Setup,
      ghost done: seq<ScratchName>)
    returns (findings: seq<Finding>, escaped: bool, ghost heard: Answer, ghost segs: seq<seq<Exchange>>)
    requires SetFor(setup, scratch) && setup.hashes == hashes
    requires Tidy(server, scratch) && HasClaimed(scratch, done)
    requires CheckFileName !in done && ChecksFiles in server.advertised
    modifies server, scratch
    ensures Tidy(server, scratch) && server.owed == old(server.owed)
    ensures HasClaimed(scratch, done + [CheckFileName])
    ensures server.log == old(server.log) + Flat(segs)
    ensures if escaped then findings == [] && |segs| == 1 && EscapedIn(segs[0], setup)
            else AllTold(findings, segs, setup)
    ensures server.faithful ==> server.state.open == old(server.state.open)
    ensures !escaped ==> FactsOf(findings) == [CheckFileHonoured]
    ensures escaped ==> heard.Digests? && heard.algorithm !in hashes.known
    ensures server.faithful && Fresh(server, scratch.directory, scratch.runId, scratch.initial) ==>
              (escaped <==> heard.Digests? && heard.algorithm !in hashes.known)
    ensures server.faithful && Fresh(server, scratch.directory, scratch.runId, scratch.initial) ==>
              AllSettled(server.folds, findings)
  {
    hide ScratchPath, Key, Tidy, Fresh, Named, AllTold, KeysOf, Follows, FsyncAsked, CheckFileAsked, LargestAsked;
    hide CaseScript, RenameScript, TimesScript, PosixScript, LsetstatScript;
    hide AnsweredAndJudged, RenamedIfThere, HasProbeMode, AnsweredRename;
    hide CaseOutcome, RenameOutcome, TimesOutcome, PosixOutcome, FsyncOutcome, LsetstatOutcome, CheckFileOutcome,
         LargestOutcome;
    if server.faithful && Fresh(server, scratch.directory, scratch.runId, scratch.initial) {
      UnclaimedIsFree(server, scratch, done, [CheckFileName]);
    }
    ghost var before := scratch.claimed;
    var o, answer, seg := ProbeCheckFile(server, scratch, hashes);
    findings, escaped, heard, segs := [], o.Crashed?, answer, [seg];
    NameIsItsSuffix(setup, CheckFileName);
    FlatOfOne(seg);
    if !escaped {
      findings := [Guarded(CheckFileHonoured, o)];
      GuardedIsTold(CheckFileHonoured, o, seg, setup);
    }
    OnePath(scratch.directory, scratch.runId, CheckFileName);
    ClaimedThen(scratch, before, done, [CheckFileName]);
  }

  /** Asked of a server that advertises it. */
  method CheckFileIfAdvertised(server: Server, scratch: Scratch, hashes: Hashes, ghost setup: Setup,
      ghost done: seq<ScratchName>)
    returns (findings: seq<Finding>, escaped: bool, ghost heard: Answer, ghost segs: seq<seq<Exchange>>)
    requires SetFor(setup, scratch) && setup.hashes == hashes
    requires Tidy(server, scratch) && HasClaimed(scratch, done)
    requires forall n :: n in CheckFileClaims(server.advertised) ==> n !in done
    modifies server, scratch
    ensures Tidy(server, scratch) && server.owed == old(server.owed)
    ensures HasClaimed(scratch, done + CheckFileClaims(server.advertised))
    ensures server.log == old(server.log) + Flat(segs)
    ensures if escaped then findings == [] && |segs| == 1 && EscapedIn(segs[0], setup)
            else AllTold(findings, segs, setup)
    ensures server.faithful ==> server.state.open == old(server.state.open)
    ensures !escaped ==> FactsOf(findings) == if ChecksFiles in server.advertised then [CheckFileHonoured] else []
    ensures escaped ==> ChecksFiles in server.advertised && heard.Digests? && heard.algorithm !in hashes.known
    ensures server.faithful && Fresh(server, scratch.directory, scratch.runId, scratch.initial) ==>
              (escaped <==> ChecksFiles in server.advertised && heard.Digests? && heard.algorithm !in hashes.known)
    ensures server.faithful && Fresh(server, scratch.directory, scratch.runId, scratch.initial) ==>
              AllSettled(server.folds, findings)
  {
    hide ScratchPaths, Tidy, Fresh, AllTold, Flat, EscapedIn;
    findings, escaped, heard, segs := [], false, Done, [];
    NothingTold(server.log, setup);
    if ChecksFiles in server.advertised {
      findings, escaped, heard, segs := AskCheckFile(server, scratch, hashes, setup, done);
    } else {
      assert done + [] == done;
    }
  }

  lemma FactsAddUp(a: seq<Finding>, b: seq<Finding>)
    ensures FactsOf(a + b) == FactsOf(a) + FactsOf(b)
  {
  }

  /** The extension probes use names of their own. */
  lemma ClaimsAreApart(has: set<Extension>)
    ensures forall n :: n in PosixClaims(has) ==> n !in BASE_CLAIMS
    ensures forall n :: n in FsyncClaims(has) ==> n !in BASE_CLAIMS + PosixClaims(has)
    ensures forall n :: n in LsetstatClaims(has) ==> n !in BASE_CLAIMS + PosixClaims(has) + FsyncClaims(has)
    ensures forall n :: n in CheckFileClaims(has) ==>
              n !in BASE_CLAIMS + PosixClaims(has) + FsyncClaims(has) + LsetstatClaims(has)
    ensures BASE_CLAIMS + PosixClaims(has) + FsyncClaims(has) + LsetstatClaims(has) + CheckFileClaims(has)
            == BASE_CLAIMS + ExtensionClaims(has)
  {
  }

  lemma FindingsAddUp(folds: bool, a: seq<Finding>, b: seq<Finding>, c: seq<Finding>, d: seq<Finding>)
    ensures FactsOf(a + b + c + d) == FactsOf(a) + FactsOf(b) + FactsOf(c) + FactsOf(d)
    ensures AllSettled(folds, a) && AllSettled(folds, b) && AllSettled(folds, c) && AllSettled(folds, d) ==>
              AllSettled(folds, a + b + c + d)
  {
    FactsAddUp(a, b);
    FactsAddUp(a + b, c);
    FactsAddUp(a + b + c, d);
  }

  /** One probe for each advertised extension, stopping at an exception the guard does not catch. */
  method ExtensionProbes(server: Server, scratch: Scratch, hashes: Hashes, ghost setup: Setup)
    returns (findings: seq<Finding>, escaped: bool, ghost heard: Answer, ghost segs: seq<seq<Exchange>>)
    requires SetFor(setup, scratch) && setup.hashes == hashes
    requires Tidy(server, scratch) && HasClaimed(scratch, BASE_CLAIMS)
    modifies server, scratch
    ensures Tidy(server, scratch) && server.owed == old(server.owed)
    ensures HasClaimed(scratch, BASE_CLAIMS + ExtensionClaims(server.advertised))
    ensures server.log == old(server.log) + Flat(segs)
    ensures if escaped then segs != [] && EscapedIn(segs[|segs| - 1], setup) else AllTold(findings, segs, setup)
    ensures server.faithful ==> server.state.open == old(server.state.open)
    ensures !escaped ==> FactsOf(findings) == ExtensionFacts(server.advertised)
    ensures escaped ==> ChecksFiles in server.advertised && heard.Digests? && heard.algorithm !in hashes.known
    ensures server.faithful && Fresh(server, scratch.directory, scratch.runId, scratch.initial) ==>
              (escaped <==> ChecksFiles in server.advertised && heard.Digests? && heard.algorithm !in hashes.known)
    ensures server.faithful && Fresh(server, scratch.directory, scratch.runId, scratch.initial) ==>
              AllSettled(server.folds, findings)
  {
    hide Tidy, Fresh, HasClaimed, AllSettled, FactsOf, AllTold, Flat, EscapedIn;
    hide PosixClaims, FsyncClaims, LsetstatClaims, CheckFileClaims, ExtensionClaims;
    ghost var has, start := server.advertised, server.log;
    ClaimsAreApart(has);
    var renames, a := PosixRenameIfAdvertised(server, scratch, setup, BASE_CLAIMS);
    var flushes, b := FsyncIfAdvertised(server, scratch, setup, BASE_CLAIMS + PosixClaims(has));
    ToldAddUp(start, renames, a, flushes, b, setup);
    var sets, c := LsetstatIfAdvertised(server, scratch, setup, BASE_CLAIMS + PosixClaims(has) + FsyncClaims(has));
    ToldAddUp(start, renames + flushes, a + b, sets, c, setup);
    var checks, crashed, answer, d :=
      CheckFileIfAdvertised(server, scratch, hashes, setup,
                            BASE_CLAIMS + PosixClaims(has) + FsyncClaims(has) + LsetstatClaims(has));
    ToldAddUp(start, renames + flushes + sets, a + b + c, checks, d, setup);
    findings, escaped, heard := renames + flushes + sets + checks, crashed, answer;
    segs := a + b + c + d;
    FindingsAddUp(server.folds, renames, flushes, sets, checks);
  }

  lemma ReportCoversNew(server: Server, scratch: Scratch, left: seq<Leftover>)
    requires Tidy(server, scratch)
    requires forall p :: p in scratch.claimed ==> Removed(server, p) || p in PathsOf(left)
    ensures forall k :: k in server.state.dir && k !in scratch.initial ==>
              exists e :: e in left && Key(server.folds, e.path) == k
  {
    forall k | k in server.state.dir && k !in scratch.initial
      ensures exists e :: e in left && Key(server.folds, e.path) == k
    {
      assert k in KeysOf(server.folds, scratch.claimed);
      var p :| p in scratch.claimed && Key(server.folds, p) == k;
      assert !Removed(server, p);
      var e :| e in left && e.path == p;
    }
  }

  /** What a tidy run that claimed every name comes to, once cleaned up. */
  lemma EndOfRun(server: Server, scratch: Scratch, left: seq<Leftover>)
    requires Tidy(server, scratch) && HasClaimed(scratch, Claims(server.advertised))
    requires forall p :: p in scratch.claimed ==> Removed(server, p) || p in PathsOf(left)
    requires forall e :: e in left ==> e.path in scratch.claimed
    ensures forall e :: e in left ==>
              Key(server.folds, e.path) in ScratchKeys(server, scratch.directory, scratch.runId)
    ensures left == [] && NoLinkAt(scratch.initial, ScratchKeys(server, scratch.directory, scratch.runId)) ==>
              Without(scratch.initial, server.state.dir, ScratchKeys(server, scratch.directory, scratch.runId))
  {
    var all := ScratchKeys(server, scratch.directory, scratch.runId);
    assert all == KeysOf(server.folds, scratch.claimed);
    if left == [] {
      forall k | k in all ensures k !in server.state.dir {
        var p :| p in scratch.claimed && Key(server.folds, p) == k;
        assert Removed(server, p);
      }
    }
  }

  lemma TidyConfines(server: Server, scratch: Scratch)
    requires Tidy(server, scratch)
    ensures NoLinkAt(scratch.initial, ScratchKeys(server, scratch.directory, scratch.runId)) ==>
              SameOutside(scratch.initial, server.state.dir, ScratchKeys(server, scratch.directory, scratch.runId))
  {
  }

  /**
   A whole run, over every server there is.

   Whatever the server does: every name that exists now and did not before is reported; every name the
   run did not claim is as it was, unless a link already stood at a claimed one; and a CLOSE was sent
   for every handle the run was told of. A server that performs, answers and permits everything is left
   without the claimed names and otherwise untouched, with nothing to report and no handle open; and if
   the claimed names were fresh, every question was answered. Only the check-file probe can escape.
   */
  method RunWriteProbes(server: Server, directory: Path, requestBytes: nat, runId: string, hashes: Hashes)
    returns (r: BatteryResult, ghost heard: Answer, ghost segs: seq<seq<Exchange>>, ghost cleaning: seq<Exchange>)
    modifies server
    ensures server.log == old(server.log) + Flat(segs) + cleaning
    ensures r.Report? ==>
              && AllTold(r.findings, segs, Setup(directory, runId, requestBytes, hashes))
              && RequestsOf(cleaning) == Removals(ScratchPaths(directory, runId, Claims(server.advertised)))
              && r.leftBehind == LeftoversOf(cleaning)
    ensures r.Report? && (forall x :: x in Flat(segs) ==> x.answer == Failed(Disconnected)) ==>
              forall f :: f in r.findings ==> f.verdict == Undetermined
    ensures r.Escaped? ==>
              && segs != [] && EscapedIn(segs[|segs| - 1], Setup(directory, runId, requestBytes, hashes))
              && cleaning == []
    ensures r.Report? ==>
              forall k :: k in server.state.dir && k !in old(server.state.dir) ==>
                exists e :: e in r.leftBehind && Key(server.folds, e.path) == k
    ensures r.Report? ==>
              forall e :: e in r.leftBehind ==>
                e.failure != NoSuchFile && Key(server.folds, e.path) in ScratchKeys(server, directory, runId)
    ensures NoLinkAt(old(server.state.dir), ScratchKeys(server, directory, runId)) ==>
              SameOutside(old(server.state.dir), server.state.dir, ScratchKeys(server, directory, runId))
    ensures server.owed == old(server.owed)
    ensures r.Report? && server.faithful ==> r.leftBehind == [] && server.state.open == old(server.state.open)
    ensures r.Report? && server.faithful && NoLinkAt(old(server.state.dir), ScratchKeys(server, directory, runId)) ==>
              Without(old(server.state.dir), server.state.dir, ScratchKeys(server, directory, runId))
    ensures r.Report? ==>
              FactsOf(r.findings) == [CaseFolds, RenameReplaces, TimesSurvive] + ExtensionFacts(server.advertised)
                                     + [LargestRequestAccepted]
    ensures r.Escaped? ==> ChecksFiles in server.advertised && heard.Digests? && heard.algorithm !in hashes.known
    ensures server.faithful && Fresh(server, directory, runId, old(server.state.dir)) ==>
              (r.Escaped? <==> ChecksFiles in server.advertised && heard.Digests? && heard.algorithm !in hashes.known)
    ensures r.Report? && server.faithful && Fresh(server, directory, runId, old(server.state.dir)) ==>
              AllSettled(server.folds, r.findings)
  {
    hide ScratchPath, Key, AllTold, Flat, EscapedIn, LeftoversOf, Fresh;
    heard := Done;
    ghost var start, setup := server.log, Setup(directory, runId, requestBytes, hashes);
    var scratch := new Scratch(directory, runId, server.state.dir);
    var base, a := BaseProbes(server, scratch, setup);
    var extensions, escaped, answer, b := ExtensionProbes(server, scratch, hashes, setup);
    ToldAddUp(start, base, a, extensions, b, setup);
    heard, segs, cleaning := answer, a + b, [];
    if escaped {
      TidyConfines(server, scratch);
      return Escaped, heard, segs, cleaning;
    }
    var last, c := AskLargest(server, scratch, requestBytes, setup, BASE_CLAIMS + ExtensionClaims(server.advertised));
    ToldAddUp(start, base + extensions, a + b, last, c, setup);
    var left, removals := CleanUp(server, scratch);
    segs, cleaning := a + b + c, removals;
    TidyConfines(server, scratch);
    EndOfRun(server, scratch, left);
    ReportCoversNew(server, scratch, left);
    FactsAddUp(base, extensions);
    FactsAddUp(base + extensions, last);
    if server.faithful && Fresh(server, directory, runId, scratch.initial) {
      SettledAddUp(server.folds, base, extensions);
      SettledAddUp(server.folds, base + extensions, last);
    }
    r := Report(base + extensions + last, left);
    if forall x :: x in Flat(segs) ==> x.answer == Failed(Disconnected) {
      DisconnectedRunEstablishesNothing(r.findings, segs, setup);
    }
  }

  /** Fresh names make a faithful run leave no trace at all: this is the condition, and it is exact. */
  lemma TracelessExactlyWhenFresh(before: Dir, after: Dir, gone: set<Path>)
    requires Without(before, after, gone)
    ensures after == before <==> forall k :: k in gone ==> k !in before
    ensures forall k :: k in before ==> (k in after <==> k !in gone)
  {
    if forall k :: k in gone ==> k !in before {
      assert after.Keys == before.Keys;
    }
  }

  // --- what a verdict does not say -----------------------------------------------------------------------------

  /** The posix-rename probe's requests to a server that answers OK to every change and makes none. */
  ghost function SilentLog(s: State, source: Path, target: Path): seq<Exchange> {
    [Exchange(s, OpenNew(source, PROBE_MODE), Handle(s.nextHandle), s), Exchange(s, Close(s.nextHandle), Done, s),
     Exchange(s, OpenNew(target, PROBE_MODE), Handle(s.nextHandle), s), Exchange(s, Close(s.nextHandle), Done, s),
     Exchange(s, PosixRename(source, target), Done, s), Exchange(s, Stat(source), Failed(NoSuchFile), s)]
  }

  lemma DoingNothingIsAnAllowedEffect(folds: bool, s: State, req: Request)
    ensures AllowedEffect(folds, s, req, s)
  {
  }

  /**
   Such a server is allowed, and the probe concludes YES of it, though nothing was renamed: it never made the
   source, so the source is truthfully gone.
   */
  lemma SilentServerPassesPosixRename(folds: bool, s: State, source: Path, target: Path)
    requires Resolve(folds, s.dir, source).None?
    ensures forall x :: x in SilentLog(s, source, target) ==>
              Allowed(folds, x.before, x.request, x.after, x.answer) && x.before == x.after
    ensures PosixOutcome(SilentLog(s, source, target)) == Concluded(Yes)
    ensures !TookAway(folds, SilentLog(s, source, target)[4], source)
  {
    hide AllowedEffect, Resolve;
    var log := SilentLog(s, source, target);
    forall x | x in log ensures Allowed(folds, x.before, x.request, x.after, x.answer) {
      DoingNothingIsAnAllowedEffect(folds, s, x.request);
    }
  }

  /** The RENAME probe looks at nothing afterwards, and such a server passes it from any state. */
  lemma SilentServerPassesRename(folds: bool, s: State, source: Path, target: Path)
    ensures var log := SilentLog(s, source, target)[..4] + [Exchange(s, Rename(source, target), Done, s)];
            && (forall x :: x in log ==> Allowed(folds, x.before, x.request, x.after, x.answer) && x.before == x.after)
            && RenameOutcome(log) == Concluded(Yes)
            && !Replaced(log[4], Key(folds, source), Key(folds, target))
  {
    hide AllowedEffect;
    var log := SilentLog(s, source, target)[..4] + [Exchange(s, Rename(source, target), Done, s)];
    forall x | x in log ensures Allowed(folds, x.before, x.request, x.after, x.answer) {
      DoingNothingIsAnAllowedEffect(folds, s, x.request);
    }
  }

  function WithDir(s: State, dir: Dir): State {
    State(dir, s.open, s.nextHandle)
  }

  /** The probe's requests to a server that makes both files, and deletes the source when asked to rename it. */
  ghost function DeletingLog(folds: bool, s: State, source: Path, target: Path): seq<Exchange> {
    var one := WithDir(s, s.dir[Key(folds, source) := File(PROBE_MODE, 0, [])]);
    var two := WithDir(s, one.dir[Key(folds, target) := File(PROBE_MODE, 1, [])]);
    var gone := WithDir(s, two.dir - {Key(folds, source)});
    [Exchange(s, OpenNew(source, PROBE_MODE), Handle(s.nextHandle), one),
     Exchange(one, Close(s.nextHandle), Done, one),
     Exchange(one, OpenNew(target, PROBE_MODE), Handle(s.nextHandle), two),
     Exchange(two, Close(s.nextHandle), Done, two),
     Exchange(two, PosixRename(source, target), Done, gone),
     Exchange(gone, Stat(source), Failed(NoSuchFile), gone)]
  }

  lemma DeletingIsAllowed(folds: bool, s: State, source: Path, target: Path)
    requires Key(folds, source) !in s.dir && Key(folds, target) !in s.dir && Key(folds, source) != Key(folds, target)
    ensures var log := DeletingLog(folds, s, source, target);
            forall i :: 0 <= i < |log| ==> Allowed(folds, log[i].before, log[i].request, log[i].after, log[i].answer)
    ensures TookAway(folds, DeletingLog(folds, s, source, target)[4], source)
  {
    hide Key, Allowed, Resolve;
    var log := DeletingLog(folds, s, source, target);
    MakingAFileIsAllowed(folds, s, source, 0);
    ClosingIsAllowed(folds, log[1].before, s.nextHandle);
    MakingAFileIsAllowed(folds, log[2].before, target, 1);
    ClosingIsAllowed(folds, log[3].before, s.nextHandle);
    DeletingTheSourceIsAllowed(folds, log[4].before, source, target);
  }

  lemma ClosingIsAllowed(folds: bool, s: State, handle: nat)
    ensures Allowed(folds, s, Close(handle), s, Done)
  {
  }

  lemma MakingAFileIsAllowed(folds: bool, s: State, p: Path, mtime: int)
    requires Key(folds, p) !in s.dir
    ensures Allowed(folds, s, OpenNew(p, PROBE_MODE), WithDir(s, s.dir[Key(folds, p) := File(PROBE_MODE, mtime, [])]),
                    Handle(s.nextHandle))
  {
  }

  lemma DeletingTheSourceIsAllowed(folds: bool, s: State, source: Path, target: Path)
    requires Key(folds, source) in s.dir && s.dir[Key(folds, source)].File?
    ensures var gone := WithDir(s, s.dir - {Key(folds, source)});
            && Allowed(folds, s, PosixRename(source, target), gone, Done)
            && Allowed(folds, gone, Stat(source), gone, Failed(NoSuchFile))
            && Resolve(folds, s.dir, source).Some? && Resolve(folds, gone.dir, source).None?
  {
  }

  /**
   So without all or nothing a YES says nothing of the target: this server is allowed too, the probe concludes
   YES of it, and the target is what it was.
   */
  lemma DeletingServerPassesPosixRename(folds: bool, s: State, source: Path, target: Path)
    requires Key(folds, source) !in s.dir && Key(folds, target) !in s.dir && Key(folds, source) != Key(folds, target)
    ensures var log := DeletingLog(folds, s, source, target);
            && (forall i :: 0 <= i < |log| ==>
                  Allowed(folds, log[i].before, log[i].request, log[i].after, log[i].answer))
            && (forall i :: 0 < i < |log| ==> log[i].before == log[i - 1].after)
            && PosixOutcome(log) == Concluded(Yes)
    ensures var x := DeletingLog(folds, s, source, target)[4];
            && TookAway(folds, x, source) && Key(folds, target) in x.before.dir && Key(folds, target) in x.after.dir
            && x.after.dir[Key(folds, target)] == x.before.dir[Key(folds, target)]
            && !Replaced(x, Key(folds, source), Key(folds, target))
  {
    hide AllowedEffect, Resolve;
    DeletingIsAllowed(folds, s, source, target);
    var log := DeletingLog(folds, s, source, target);
  }

  /**
   When `lsetstat` was discarded, or followed the link, the link's own mode is what it was before. So for any
   true report of the link that carries its mode, and any of the target, the verdict is YES exactly if that
   mode was the probe's value to begin with, which a server whose umask makes links 0o640 will show.
   */
  lemma UntouchedLinkIsYesOnlyByCoincidence(x: Exchange, link: Path, onLink: Attrs, onTarget: Attrs)
    requires UntouchedLink(x, link) && Truthful(onLink, x.after.dir[link])
    ensures JudgeLsetstat(onLink, onTarget) == Yes
            <==> onLink.permissions.Some? && x.before.dir[link].mode % PERMISSION_BITS == LSETSTAT_PROBE_MODE
  {
    YesIsTheLinksOwnMode(onLink, onTarget, x.after.dir[link]);
  }
}
