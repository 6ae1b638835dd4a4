/** The write probes. What each asks and concludes is as `Transcripts` has it; what a verdict is worth is here. */
module Probes {
  import opened Wrappers
  import opened Remote
  import opened Battery
  import opened Transcripts
  import opened Requests

  // --- names in another case ----------------------------------------------------------------------------

  lemma UpperNameFoldsBack(p: Path)
    ensures Upper(UpperName(p)) == Upper(p)
  {
    assert p == Stem(p) + p[|Stem(p)|..];
  }

  lemma {:induction false} StemEndsBefore(p: Path, j: nat)
    requires j <= |p| && forall i :: j <= i < |p| ==> p[i] != '/'
    ensures |Stem(p)| <= j
  {
    if j < |p| {
      StemEndsBefore(p[..|p| - 1], j);
    }
  }

  /** The case probe's own name has letters in its last component, so its uppercase is another name. */
  lemma CaseNameHasAnUppercase(directory: Path, runId: string)
    ensures var p := ScratchPath(directory, runId, CaseName); UpperName(p) != p
  {
    var p := ScratchPath(directory, runId, CaseName);
    var j := |p| - 2;
    assert p[j] == 'a' && p[j + 1] == 'A';
    StemEndsBefore(p, j);
    assert UpperName(p)[j] == UpperChar(p[j]);
  }

  // --- the probes -------------------------------------------------------------------------------------------

  method ProbeCaseFolding(server: Server, scratch: Scratch) returns (r: Outcome, ghost seg: seq<Exchange>)
    requires Tidy(server, scratch)
    modifies server, scratch
    ensures Tidy(server, scratch) && server.owed == old(server.owed)
    ensures scratch.claimed == old(scratch.claimed) + [ScratchPath(scratch.directory, scratch.runId, CaseName)]
    ensures server.faithful ==> server.state.open == old(server.state.open)
    ensures server.log == old(server.log) + seg
    ensures Follows(seg, CaseScript(seg, ScratchPath(scratch.directory, scratch.runId, CaseName)))
    ensures r == CaseOutcome(seg)
    ensures !r.Crashed?
    ensures r.Concluded? ==>
              var path := ScratchPath(scratch.directory, scratch.runId, CaseName);
              r.verdict == if Resolve(server.folds, server.state.dir, UpperName(path)).Some? then Yes else No
    ensures var path := ScratchPath(scratch.directory, scratch.runId, CaseName);
            server.faithful && Key(server.folds, path) !in old(server.state.dir)
            && Key(server.folds, UpperName(path)) !in old(server.state.dir) ==>
              r == Concluded(if server.folds then Yes else No)
  {
    hide ScratchPath, Tidy, KeysOf, CreateTold, UpperName;
    var path := Register(server, scratch, CaseName);
    ghost var start := server.log;
    var raised;
    raised, seg := Create(server, scratch, path, []);
    EmptyCreateFollows(seg, path, raised);
    if raised.Some? {
      FollowsStopped(seg, CreateScript(seg, 0, path), [Stat(UpperName(path))]);
      return Raised(raised.value), seg;
    }
    CaseNameHasAnUppercase(scratch.directory, scratch.runId);
    UpperNameFoldsBack(path);
    var a, x := StatPath(server, scratch, UpperName(path));
    seg := Extended(start, seg, CreateScript(seg, 0, path), x);
    if a == Failed(NoSuchFile) {
      return Concluded(No), seg;
    }
    if a.Failed? {
      return Raised(a.failure), seg;
    }
    return Concluded(Yes), seg;
  }

  /** One more request on a script that has gone well so far. */
  lemma Extended(start: seq<Exchange>, seg: seq<Exchange>, script: seq<Request>, x: Exchange)
    returns (more: seq<Exchange>)
    requires Follows(seg, script) && LastFailure(seg).None?
    ensures more == seg + [x] && start + seg + [x] == start + more
    ensures Follows(more, script + [x.request]) && LastFailure(more) == Raises(x)
    ensures forall i :: 0 <= i < |seg| ==> HandleAt(more, i) == HandleAt(seg, i)
  {
    more := seg + [x];
    LogGrows(start, seg, [x]);
    FollowsOne(x);
    FollowsOn(seg, script, [x], [x.request]);
  }

  /** What tells the suffixes apart whatever their case: length, two first letters, and the sixth from the end. */
  function Trait(name: ScratchName): (nat, char, char, char) {
    match name
    case CaseName => (7, 'C', 'A', 'A')
    case RenameSource => (13, 'R', 'E', 'S')
    case RenameTarget => (13, 'R', 'E', 'T')
    case TimesName => (5, 'T', 'I', '-')
    case PosixSource => (12, 'P', 'O', 'S')
    case PosixTarget => (12, 'P', 'O', 'T')
    case FsyncName => (5, 'F', 'S', '-')
    case LsetstatTarget => (15, 'L', 'S', 'T')
    case LsetstatLink => (13, 'L', 'S', 'T')
    case CheckFileName => (10, 'C', 'H', 'K')
    case LargestRequest => (15, 'L', 'A', 'E')
  }

  lemma TraitIsRight(name: ScratchName)
    ensures var s, t := name.Suffix(), Trait(name);
            && |s| == t.0 && UpperChar(s[0]) == t.1 && UpperChar(s[1]) == t.2
            && UpperChar(if |s| >= 6 then s[|s| - 6] else '-') == t.3
  {
  }

  /** Two scratch names of a run are filed apart, on a server that folds case too. */
  lemma KeysDiffer(folds: bool, directory: Path, runId: string, a: ScratchName, b: ScratchName)
    requires a != b
    ensures Key(folds, ScratchPath(directory, runId, a)) != Key(folds, ScratchPath(directory, runId, b))
  {
    TraitIsRight(a);
    TraitIsRight(b);
    var p, q := ScratchPath(directory, runId, a), ScratchPath(directory, runId, b);
    if Key(folds, p) == Key(folds, q) {
      var start, n := |p| - Trait(a).0, Trait(a).0;
      assert p[start..] == a.Suffix() && q[start..] == b.Suffix();
      SameLetter(folds, p, q, start);
      SameLetter(folds, p, q, start + 1);
      if n >= 6 {
        SameLetter(folds, p, q, start + n - 6);
      }
    }
  }

  lemma SameLetter(folds: bool, p: Path, q: Path, i: nat)
    requires Key(folds, p) == Key(folds, q) && i < |p| == |q|
    ensures UpperChar(p[i]) == UpperChar(q[i])
  {
    assert UpperChar(p[i]) == Upper(p)[i] && UpperChar(q[i]) == Upper(q)[i];
  }

  /** The node at `s` moved onto `t`, and whatever was at `t` is gone. */
  ghost predicate Replaced(x: Exchange, s: Path, t: Path) {
    s in x.before.dir && s !in x.after.dir && t in x.after.dir && x.after.dir[t] == x.before.dir[s]
  }

  /** The request moved what was at `s`, wholly, or changed nothing. */
  ghost predicate AllOrNothing(x: Exchange, s: Path, t: Path) {
    x.after.dir == x.before.dir || (s in x.before.dir && x.after.dir == Moved(x.before.dir, s, t))
  }

  /**
   What a YES of the RENAME probe reports: the rename was asked for and answered. Of a server that renames
   wholly or not at all, the target was replaced exactly when the source stood there before and does not now,
   which the probe does not look at.
   */
  ghost predicate AnsweredRename(server: Server, source: Path, target: Path)
    reads server
  {
    var n, s, t := |server.log| - 1, Key(server.folds, source), Key(server.folds, target);
    && n >= 0 && server.log[n].request == Rename(source, target) && server.log[n].answer == Done
    && server.log[n].after == server.state
    && (s != t && AllOrNothing(server.log[n], s, t) ==>
          (Replaced(server.log[n], s, t) <==> s in server.log[n].before.dir && s !in server.state.dir))
  }

  /**
   YES is what an answered RENAME means here; `refused` is what an unanswered one raised. On a server that
   does what it answers, the source is gone exactly then, and the target is there either way.
   */
  method ProbeRenameReplaces(server: Server, scratch: Scratch)
    returns (r: Outcome, ghost refused: Option<Failure>, ghost seg: seq<Exchange>)
    requires Tidy(server, scratch)
    modifies server, scratch
    ensures Tidy(server, scratch) && server.owed == old(server.owed)
    ensures scratch.claimed == old(scratch.claimed)
              + [ScratchPath(scratch.directory, scratch.runId, RenameSource),
                 ScratchPath(scratch.directory, scratch.runId, RenameTarget)]
    ensures server.faithful ==> server.state.open == old(server.state.open)
    ensures r.Raised? || r == Concluded(Yes) || r == Concluded(No)
    ensures server.log == old(server.log) + seg
    ensures Follows(seg, RenameScript(seg, ScratchPath(scratch.directory, scratch.runId, RenameSource),
                                      ScratchPath(scratch.directory, scratch.runId, RenameTarget)))
    ensures r == RenameOutcome(seg)
    ensures r == Concluded(Yes) ==>
              AnsweredRename(server, ScratchPath(scratch.directory, scratch.runId, RenameSource),
                             ScratchPath(scratch.directory, scratch.runId, RenameTarget))
    ensures r == Concluded(Yes) ==> refused.None?
    ensures r == Concluded(No) ==> refused.Some? && refused.value.IsServerError()
    ensures server.faithful && r.Concluded? ==>
              && KeyFor(server, scratch, RenameTarget) in server.state.dir
              && (r.verdict == Yes <==> KeyFor(server, scratch, RenameSource) !in server.state.dir)
    ensures server.faithful && KeyFor(server, scratch, RenameSource) !in old(server.state.dir)
            && KeyFor(server, scratch, RenameTarget) !in old(server.state.dir) ==>
              r.Concluded?
  {
    hide ScratchPath, Tidy, Follows, AllOrNothing, Replaced;
    refused := None;
    ghost var start := server.log;
    var raised, source, target;
    raised, source, target, seg := CreateTwo(server, scratch, RenameSource, RenameTarget);
    KeysDiffer(server.folds, scratch.directory, scratch.runId, RenameSource, RenameTarget);
    if raised.Some? {
      FollowsStopped(seg, TwoCreates(seg, source, target), [Rename(source, target)]);
      r := Raised(raised.value);
      return;
    }
    ghost var x;
    raised, x := Change(server, scratch, Rename(source, target));
    refused := raised;
    MovedOrNot(x, Key(server.folds, source), Key(server.folds, target));
    seg := Extended(start, seg, TwoCreates(seg, source, target), x);
    r := if raised.None? then Concluded(Yes)
         else if raised.value.IsServerError() then Concluded(No)
         else Raised(raised.value);
  }

  lemma MovedOrNot(x: Exchange, s: Path, t: Path)
    ensures s != t && AllOrNothing(x, s, t) ==> (Replaced(x, s, t) <==> s in x.before.dir && s !in x.after.dir)
  {
  }

  /** The request took the file that stood at `source` away from it. */
  ghost predicate TookAway(folds: bool, x: Exchange, source: Path) {
    Resolve(folds, x.before.dir, source).Some? && Resolve(folds, x.after.dir, source).None?
  }

  /**
   What a YES reports: the rename was asked for and answered, and a STAT then found no source. Of a server
   that renames wholly or not at all, the target was replaced exactly when the source stood there as the
   rename was asked, which one more STAT before it would have told; otherwise nothing had happened.
   */
  ghost predicate RenamedIfThere(server: Server, source: Path, target: Path)
    reads server
  {
    var n, s, t := |server.log| - 2, Key(server.folds, source), Key(server.folds, target);
    && n >= 0 && server.log[n].request == PosixRename(source, target) && server.log[n].answer == Done
    && server.log[n + 1].request == Stat(source) && server.log[n].after.dir == server.state.dir
    && var x := server.log[n];
    (s != t && AllOrNothing(x, s, t) && (s in x.before.dir ==> x.before.dir[s].File?) ==>
       && (Replaced(x, s, t) <==> s in x.before.dir)
       && (!Replaced(x, s, t) ==> x.after.dir == x.before.dir))
  }

  /** Under a YES, all or nothing comes down to whether the source was there. */
  lemma GoneMeansMovedOrNeverThere(folds: bool, x: Exchange, source: Path, t: Path)
    requires Resolve(folds, x.after.dir, source).None?
    requires var s := Key(folds, source);
             s != t && AllOrNothing(x, s, t) && (s in x.before.dir ==> x.before.dir[s].File?)
    ensures Replaced(x, Key(folds, source), t) <==> Key(folds, source) in x.before.dir
    ensures !Replaced(x, Key(folds, source), t) ==> x.after.dir == x.before.dir
  {
  }

  /**
   A YES is only ever said of a server on which the source is gone, and a NO only after a refusal or of
   one on which it is still there.
   */
  method ProbePosixRename(server: Server, scratch: Scratch)
    returns (r: Outcome, ghost refused: Option<Failure>, ghost seg: seq<Exchange>)
    requires Tidy(server, scratch) && PosixRenames in server.advertised
    modifies server, scratch
    ensures Tidy(server, scratch) && server.owed == old(server.owed)
    ensures scratch.claimed == old(scratch.claimed)
              + [ScratchPath(scratch.directory, scratch.runId, PosixSource),
                 ScratchPath(scratch.directory, scratch.runId, PosixTarget)]
    ensures server.faithful ==> server.state.open == old(server.state.open)
    ensures r.Raised? || r == Concluded(Yes) || r == Concluded(No)
    ensures server.log == old(server.log) + seg
    ensures Follows(seg, PosixScript(seg, ScratchPath(scratch.directory, scratch.runId, PosixSource),
                                     ScratchPath(scratch.directory, scratch.runId, PosixTarget)))
    ensures r == PosixOutcome(seg)
    ensures r == Concluded(Yes) ==>
              RenamedIfThere(server, ScratchPath(scratch.directory, scratch.runId, PosixSource),
                             ScratchPath(scratch.directory, scratch.runId, PosixTarget))
    ensures r == Concluded(Yes) ==>
              Resolve(server.folds, server.state.dir, ScratchPath(scratch.directory, scratch.runId, PosixSource)).None?
    ensures r == Concluded(No) ==>
              || (refused.Some? && refused.value.IsServerError())
              || Resolve(server.folds, server.state.dir,
                         ScratchPath(scratch.directory, scratch.runId, PosixSource)).Some?
    ensures server.faithful && r.Concluded? ==>
              && KeyFor(server, scratch, PosixTarget) in server.state.dir
              && (r.verdict == Yes <==> KeyFor(server, scratch, PosixSource) !in server.state.dir)
    ensures server.faithful && KeyFor(server, scratch, PosixSource) !in old(server.state.dir)
            && KeyFor(server, scratch, PosixTarget) !in old(server.state.dir) ==>
              r.Concluded?
  {
    hide ScratchPath, Tidy, Resolve, RenamedIfThere, Follows;
    refused := None;
    ghost var start := server.log;
    var raised, source, target;
    raised, source, target, seg := CreateTwo(server, scratch, PosixSource, PosixTarget);
    KeysDiffer(server.folds, scratch.directory, scratch.runId, PosixSource, PosixTarget);
    if raised.Some? {
      FollowsStopped(seg, TwoCreates(seg, source, target), [PosixRename(source, target)]);
      FollowsStopped(seg, TwoCreates(seg, source, target) + [PosixRename(source, target)], [Stat(source)]);
      r := Raised(raised.value);
      return;
    }
    ghost var made, more := seg, [];
    r, refused, more := RenameAndLook(server, scratch, source, target);
    seg := made + more;
    LogGrows(start, made, more);
    FollowsOn(made, TwoCreates(made, source, target), more, [PosixRename(source, target)] + [Stat(source)]);
    assert PosixScript(seg, source, target)
        == TwoCreates(made, source, target) + ([PosixRename(source, target)] + [Stat(source)]);
  }

  method RenameAndLook(server: Server, scratch: Scratch, source: Path, target: Path)
    returns (r: Outcome, ghost refused: Option<Failure>, ghost seg: seq<Exchange>)
    requires Tidy(server, scratch)
    requires Key(server.folds, source) in KeysOf(server.folds, scratch.claimed)
    requires Key(server.folds, target) in KeysOf(server.folds, scratch.claimed)
    modifies server
    ensures Tidy(server, scratch) && server.owed == old(server.owed)
    ensures server.faithful ==> server.state.open == old(server.state.open)
    ensures r.Raised? || r == Concluded(Yes) || r == Concluded(No)
    ensures server.log == old(server.log) + seg
    ensures Follows(seg, [PosixRename(source, target)] + [Stat(source)])
    ensures r == match LastFailure(seg)
                 case None => Concluded(No)
                 case Some(f) =>
                   if |seg| == 2 && f == NoSuchFile then Concluded(Yes)
                   else if |seg| == 1 && IsRefusal(f) then Concluded(No)
                   else Raised(f)
    ensures r == Concluded(Yes) ==> RenamedIfThere(server, source, target)
    ensures r == Concluded(Yes) ==> Resolve(server.folds, server.state.dir, source).None?
    ensures r == Concluded(No) ==>
              || (refused.Some? && refused.value.IsServerError())
              || Resolve(server.folds, server.state.dir, source).Some?
    ensures server.faithful && Key(server.folds, source) in old(server.state.dir)
            && Key(server.folds, target) in old(server.state.dir)
            && Key(server.folds, source) != Key(server.folds, target) && r.Concluded? ==>
              && Key(server.folds, target) in server.state.dir
              && (r.verdict == Yes <==> Key(server.folds, source) !in server.state.dir)
    ensures server.faithful && Key(server.folds, source) in old(server.state.dir) ==> !r.Raised?
  {
    hide Tidy, Replaced, AllOrNothing;
    ghost var start := server.log;
    var raised, x := Change(server, scratch, PosixRename(source, target));
    refused, seg := raised, [x];
    FollowsOne(x);
    if raised.Some? {
      FollowsStopped(seg, [PosixRename(source, target)], [Stat(source)]);
      r := if raised.value.IsServerError() then Concluded(No) else Raised(raised.value);
      return;
    }
    var after, y := StatPath(server, scratch, source);
    seg := Extended(start, seg, [PosixRename(source, target)], y);
    ghost var s, t := Key(server.folds, source), Key(server.folds, target);
    if after == Failed(NoSuchFile) && s != t && AllOrNothing(x, s, t) && (s in x.before.dir ==> x.before.dir[s].File?) {
      GoneMeansMovedOrNeverThere(server.folds, x, source, t);
    }
    r := if after == Failed(NoSuchFile) then Concluded(Yes)
         else if after.Failed? then Raised(after.failure)
         else Concluded(No);
  }

  /** YES and NO are both true of the file's time; a server that reports none is undetermined. */
  method ProbeTimestamps(server: Server, scratch: Scratch) returns (r: Outcome, ghost seg: seq<Exchange>)
    requires Tidy(server, scratch)
    modifies server, scratch
    ensures Tidy(server, scratch) && server.owed == old(server.owed)
    ensures scratch.claimed == old(scratch.claimed) + [ScratchPath(scratch.directory, scratch.runId, TimesName)]
    ensures server.faithful ==> server.state.open == old(server.state.open)
    ensures server.log == old(server.log) + seg
    ensures Follows(seg, TimesScript(seg, ScratchPath(scratch.directory, scratch.runId, TimesName)))
    ensures r == TimesOutcome(seg)
    ensures !r.Crashed?
    ensures r.Concluded? && r.verdict != Undetermined ==>
              var dir := server.state.dir;
              var k := Resolve(server.folds, dir, ScratchPath(scratch.directory, scratch.runId, TimesName));
              && k.Some? && k.value in dir && dir[k.value].File?
              && (r.verdict == Yes <==> dir[k.value].mtime == PROBE_TIMESTAMP)
    ensures server.faithful && KeyFor(server, scratch, TimesName) !in old(server.state.dir) ==> r == Concluded(Yes)
  {
    hide ScratchPath, Tidy, KeysOf, Follows, CreateTold;
    var path := Register(server, scratch, TimesName);
    ghost var start := server.log;
    var raised;
    raised, seg := Create(server, scratch, path, []);
    EmptyCreateFollows(seg, path, raised);
    if raised.Some? {
      FollowsStopped(seg, CreateScript(seg, 0, path), [SetTimes(path, PROBE_TIMESTAMP)]);
      FollowsStopped(seg, CreateScript(seg, 0, path) + [SetTimes(path, PROBE_TIMESTAMP)], [Stat(path)]);
      return Raised(raised.value), seg;
    }
    ghost var x;
    raised, x := Change(server, scratch, SetTimes(path, PROBE_TIMESTAMP));
    seg := Extended(start, seg, CreateScript(seg, 0, path), x);
    if raised.Some? {
      FollowsStopped(seg, CreateScript(seg, 0, path) + [SetTimes(path, PROBE_TIMESTAMP)], [Stat(path)]);
      return Raised(raised.value), seg;
    }
    var a, y := StatPath(server, scratch, path);
    seg := Extended(start, seg, CreateScript(seg, 0, path) + [SetTimes(path, PROBE_TIMESTAMP)], y);
    if a.Failed? {
      return Raised(a.failure), seg;
    }
    if a.attrs.mtime.None? {
      return Concluded(Undetermined), seg;
    }
    return Concluded(if a.attrs.mtime.value == PROBE_TIMESTAMP then Yes else No), seg;
  }

  lemma PayloadAgrees()
    ensures CHECK_FILE_PAYLOAD == PAYLOAD && PAYLOAD != []
  {
  }

  /** The middle of the fsync probe, read off its exchanges. */
  ghost predicate FlushTold(seg: seq<Exchange>, handle: nat, r: Outcome) {
    && seg != [] && seg[0].request == Write(handle, PAYLOAD)
    && if seg[0].answer.Failed? then |seg| == 1 && r == Raised(seg[0].answer.failure)
       else |seg| == 2 && seg[1].request == Fsync(handle) && r == FlushOutcome(seg[1])
  }

  function FlushOutcome(x: Exchange): Outcome {
    match Raises(x)
    case None => Concluded(Yes)
    case Some(f) => if f == OpUnsupported then Concluded(No) else Raised(f)
  }

  lemma FsyncNotOpened(x: Exchange, path: Path, failure: Failure)
    requires x.request == OpenNew(path, 384) && x.answer == Failed(failure)
    ensures FsyncAsked([x], path) && FsyncOutcome([x]) == Raised(failure)
  {
  }

  /** The same, and the close after it. */
  ghost predicate FlushedAndClosed(seg: seq<Exchange>, handle: nat, r: Outcome) {
    && 2 <= |seg| <= 3 && seg[0].request == Write(handle, PAYLOAD) && seg[|seg| - 1].request == Close(handle)
    && (if seg[0].answer.Failed? then |seg| == 2 else |seg| == 3 && seg[1].request == Fsync(handle))
    && r == if Raises(seg[|seg| - 1]).Some? then Raised(Raises(seg[|seg| - 1]).value)
            else if |seg| == 2 then Raised(seg[0].answer.failure)
            else FlushOutcome(seg[1])
  }

  lemma FlushThenClose(seg: seq<Exchange>, y: Exchange, handle: nat, o: Outcome)
    requires FlushTold(seg, handle, o) && y.request == Close(handle)
    ensures FlushedAndClosed(seg + [y], handle, if Raises(y).Some? then Raised(Raises(y).value) else o)
  {
    hide PAYLOAD;
  }

  lemma FsyncIsTold(x: Exchange, more: seq<Exchange>, path: Path, r: Outcome)
    requires x.request == OpenNew(path, 384) && x.answer.Handle?
    requires FlushedAndClosed(more, x.answer.handle, r)
    ensures FsyncAsked([x] + more, path) && FsyncOutcome([x] + more) == r
  {
    hide PAYLOAD;
    var seg := [x] + more;
    assert seg[0] == x && seg[1] == more[0] && seg[|seg| - 1] == more[|more| - 1];
    if |more| == 3 {
      assert seg[2] == more[1];
    }
  }

  /** `flushed` is the answer to the flush; nothing can be looked at afterwards. */
  method WriteAndFlush(server: Server, scratch: Scratch, handle: nat)
    returns (r: Outcome, ghost flushed: Answer, ghost seg: seq<Exchange>)
    requires Tidy(server, scratch)
    requires handle in server.state.open ==>
               server.state.open[handle] in KeysOf(server.folds, scratch.claimed)
    modifies server
    ensures Tidy(server, scratch) && server.owed == old(server.owed)
    ensures server.faithful ==> server.state.open == old(server.state.open)
    ensures server.log == old(server.log) + seg
    ensures FlushTold(seg, handle, r)
    ensures || r.Raised? || (r == Concluded(Yes) && flushed == Done)
            || (r == Concluded(No) && flushed == Failed(OpUnsupported))
    ensures server.faithful && handle in old(server.state.open) ==> r.Concluded?
    ensures server.faithful && handle in old(server.state.open) ==>
              var k := old(server.state.open)[handle];
              Holds(old(server.state.dir), k, []) ==> Holds(server.state.dir, k, CHECK_FILE_PAYLOAD)
  {
    hide CHECK_FILE_PAYLOAD, PAYLOAD, Tidy, KeysOf;
    PayloadAgrees();
    flushed := Wrote(0);
    ghost var start := server.log;
    var wrote;
    wrote, seg := WriteAt(server, scratch, handle, CHECK_FILE_PAYLOAD);
    if wrote.Failed? {
      r := Raised(wrote.failure);
      return;
    }
    var a, x := HandleQuery(server, scratch, Fsync(handle));
    LogGrows(start, seg, [x]);
    flushed, seg := a, seg + [x];
    r := if !a.Failed? then Concluded(Yes)
         else if a.failure == OpUnsupported then Concluded(No)
         else Raised(a.failure);
  }

  method ProbeFsync(server: Server, scratch: Scratch)
    returns (r: Outcome, ghost flushed: Answer, ghost seg: seq<Exchange>)
    requires Tidy(server, scratch) && Fsyncs in server.advertised
    modifies server, scratch
    ensures Tidy(server, scratch) && server.owed == old(server.owed)
    ensures scratch.claimed == old(scratch.claimed) + [ScratchPath(scratch.directory, scratch.runId, FsyncName)]
    ensures server.faithful ==> server.state.open == old(server.state.open)
    ensures server.log == old(server.log) + seg
    ensures FsyncAsked(seg, ScratchPath(scratch.directory, scratch.runId, FsyncName)) && r == FsyncOutcome(seg)
    ensures || r.Raised? || (r == Concluded(Yes) && flushed == Done)
            || (r == Concluded(No) && flushed == Failed(OpUnsupported))
    ensures server.faithful && KeyFor(server, scratch, FsyncName) !in old(server.state.dir) ==>
              r.Concluded? && Holds(server.state.dir, KeyFor(server, scratch, FsyncName), CHECK_FILE_PAYLOAD)
  {
    hide ScratchPath;
    var path := Register(server, scratch, FsyncName);
    r, flushed, seg := FlushNew(server, scratch, path);
  }

  /** Opens a new file, writes to it, flushes it, and closes it whatever happened. */
  method FlushNew(server: Server, scratch: Scratch, path: Path)
    returns (r: Outcome, ghost flushed: Answer, ghost seg: seq<Exchange>)
    requires Tidy(server, scratch) && Key(server.folds, path) in KeysOf(server.folds, scratch.claimed)
    modifies server
    ensures Tidy(server, scratch) && server.owed == old(server.owed)
    ensures server.faithful ==> server.state.open == old(server.state.open)
    ensures server.log == old(server.log) + seg
    ensures FsyncAsked(seg, path) && r == FsyncOutcome(seg)
    ensures || r.Raised? || (r == Concluded(Yes) && flushed == Done)
            || (r == Concluded(No) && flushed == Failed(OpUnsupported))
    ensures server.faithful && Key(server.folds, path) !in old(server.state.dir) ==>
              r.Concluded? && Holds(server.state.dir, Key(server.folds, path), CHECK_FILE_PAYLOAD)
  {
    hide Tidy, KeysOf, CHECK_FILE_PAYLOAD, PAYLOAD, FsyncAsked, FsyncOutcome, FlushedAndClosed, Created, Holds;
    PayloadAgrees();
    flushed := Wrote(0);
    ghost var start := server.log;
    var handed, x := OpenScratch(server, scratch, path);
    seg := [x];
    if handed.Failed? {
      FsyncNotOpened(x, path, handed.failure);
      r := Raised(handed.failure);
      return;
    }
    ghost var more;
    r, flushed, more := FlushAndClose(server, scratch, handed.handle);
    LogGrows(start, seg, more);
    FsyncIsTold(x, more, path, r);
    seg := seg + more;
  }

  method FlushAndClose(server: Server, scratch: Scratch, handle: nat)
    returns (r: Outcome, ghost flushed: Answer, ghost seg: seq<Exchange>)
    requires Tidy(server, scratch)
    requires handle in server.state.open ==>
               server.state.open[handle] in KeysOf(server.folds, scratch.claimed)
    modifies server
    ensures Tidy(server, scratch) && server.owed == old(server.owed) - multiset{handle}
    ensures server.log == old(server.log) + seg && FlushedAndClosed(seg, handle, r)
    ensures || r.Raised? || (r == Concluded(Yes) && flushed == Done)
            || (r == Concluded(No) && flushed == Failed(OpUnsupported))
    ensures server.faithful ==> server.state.open == old(server.state.open) - {handle}
    ensures server.faithful && handle in old(server.state.open) ==>
              var k := old(server.state.open)[handle];
              r.Concluded? && (Holds(old(server.state.dir), k, []) ==> Holds(server.state.dir, k, CHECK_FILE_PAYLOAD))
  {
    hide Tidy, KeysOf, CHECK_FILE_PAYLOAD, PAYLOAD, FlushTold, FlushedAndClosed;
    ghost var start := server.log;
    var o;
    ghost var more;
    o, flushed, more := WriteAndFlush(server, scratch, handle);
    var closed, y := CloseHandle(server, scratch, handle);
    LogGrows(start, more, [y]);
    FlushThenClose(more, y, handle, o);
    seg := more + [y];
    r := if closed.Some? then Raised(closed.value) else o;
  }

  function Bits(attrs: Attrs): nat {
    (if attrs.permissions.Some? then attrs.permissions.value else 0) % PERMISSION_BITS
  }

  /** What an OK from `lsetstat` did, decided from what the link and its target report afterwards. */
  function JudgeLsetstat(onLink: Attrs, onTarget: Attrs): Verdict {
    if Bits(onLink) == LSETSTAT_PROBE_MODE then Yes
    else if Bits(onTarget) == LSETSTAT_PROBE_MODE then No   // the link was followed
    else No                                                 // the request was discarded
  }

  /** Under a true report of the link, YES is said exactly when its bits are reported and are the probe's. */
  lemma YesIsTheLinksOwnMode(onLink: Attrs, onTarget: Attrs, link: Node)
    requires Truthful(onLink, link)
    ensures JudgeLsetstat(onLink, onTarget) == Yes
            <==> onLink.permissions.Some? && link.mode % PERMISSION_BITS == LSETSTAT_PROBE_MODE
    ensures JudgeLsetstat(onLink, onTarget) == Yes || JudgeLsetstat(onLink, onTarget) == No
  {
  }

  /** Two reports were asked for, of the link and of the target, and the verdict is made of them. */
  ghost predicate JudgedFrom(seg: seq<Exchange>, target: Path, link: Path, verdict: Verdict) {
    && |seg| == 2
    && seg[0].request == Lstat(link) && seg[0].answer.Reported?
    && seg[1].request == Stat(target) && seg[1].answer.Reported?
    && verdict == JudgeLsetstat(seg[0].answer.attrs, seg[1].answer.attrs)
  }

  /**
   Looks at both files after an OK. The verdict is made of what they report, and YES is said exactly when the
   link reports its mode and that is the probe's.
   */
  method JudgeBoth(server: Server, scratch: Scratch, target: Path, link: Path)
    returns (r: Outcome, ghost seg: seq<Exchange>)
    requires Tidy(server, scratch)
    modifies server
    ensures Tidy(server, scratch) && server.owed == old(server.owed) && server.state.dir == old(server.state.dir)
    ensures server.faithful ==> server.state == old(server.state)
    ensures r.Raised? || r == Concluded(Yes) || r == Concluded(No)
    ensures server.log == old(server.log) + seg
    ensures Follows(seg, [Lstat(link)] + [Stat(target)])
    ensures LastFailure(seg).Some? ==> r == Raised(LastFailure(seg).value)
    ensures LastFailure(seg).None? ==> r.Concluded? && JudgedFrom(seg, target, link, r.verdict)
    ensures r.Concluded? ==>
              var k := Key(server.folds, link);
              && k in server.state.dir
              && (r.verdict == Yes <==>
                    && seg[0].answer.attrs.permissions.Some?
                    && server.state.dir[k].mode % PERMISSION_BITS == LSETSTAT_PROBE_MODE)
    ensures server.faithful && Key(server.folds, link) in server.state.dir
            && Resolve(server.folds, server.state.dir, target).Some? ==>
              r == Concluded(if server.state.dir[Key(server.folds, link)].mode % PERMISSION_BITS == LSETSTAT_PROBE_MODE
                             then Yes else No)
  {
    hide Resolve, JudgeLsetstat, Tidy;
    ghost var start := server.log;
    var onLink, x := LstatPath(server, scratch, link);
    seg := [x];
    FollowsOne(x);
    if onLink.Failed? {
      FollowsStopped(seg, [Lstat(link)], [Stat(target)]);
      return Raised(onLink.failure), seg;
    }
    var onTarget, y := StatPath(server, scratch, target);
    seg := Extended(start, seg, [Lstat(link)], y);
    if onTarget.Failed? {
      return Raised(onTarget.failure), seg;
    }
    YesIsTheLinksOwnMode(onLink.attrs, onTarget.attrs, server.state.dir[Key(server.folds, link)]);
    return Concluded(JudgeLsetstat(onLink.attrs, onTarget.attrs)), seg;
  }

  /** What is filed there has the mode 0o640 among its permission bits. */
  ghost predicate HasProbeMode(server: Server, k: Path)
    reads server
  {
    k in server.state.dir && server.state.dir[k].mode % 4096 == 416
  }

  method ProbeLsetstat(server: Server, scratch: Scratch)
    returns (r: Outcome, ghost refused: Option<Failure>, ghost seg: seq<Exchange>)
    requires Tidy(server, scratch) && LsetStats in server.advertised
    modifies server, scratch
    ensures Tidy(server, scratch) && server.owed == old(server.owed)
    ensures scratch.claimed == old(scratch.claimed)
              + [ScratchPath(scratch.directory, scratch.runId, LsetstatTarget),
                 ScratchPath(scratch.directory, scratch.runId, LsetstatLink)]
    ensures server.faithful ==> server.state.open == old(server.state.open)
    ensures r.Raised? || r == Concluded(Yes) || r == Concluded(No)
    ensures server.log == old(server.log) + seg
    ensures Follows(seg, LsetstatScript(seg, ScratchPath(scratch.directory, scratch.runId, LsetstatTarget),
                                        ScratchPath(scratch.directory, scratch.runId, LsetstatLink)))
    ensures r == LsetstatOutcome(seg)
    ensures r == Concluded(Yes) ==> HasProbeMode(server, KeyFor(server, scratch, LsetstatLink))
    ensures r.Concluded? && refused.None? ==>
              AnsweredAndJudged(server, ScratchPath(scratch.directory, scratch.runId, LsetstatTarget),
                                ScratchPath(scratch.directory, scratch.runId, LsetstatLink), r.verdict)
    ensures r == Concluded(No) && refused.Some? ==> refused.value.IsServerError() || refused.value == Capability
    ensures server.faithful && KeyFor(server, scratch, LsetstatTarget) !in old(server.state.dir)
            && KeyFor(server, scratch, LsetstatLink) !in old(server.state.dir) ==>
              r == Concluded(if refused.None? then Yes else No)
  {
    hide ScratchPath, Tidy, AnsweredAndJudged, KeysOf, Follows, LsetstatOutcome;
    var target := Register(server, scratch, LsetstatTarget);
    var link := Register(server, scratch, LsetstatLink);
    KeysDiffer(server.folds, scratch.directory, scratch.runId, LsetstatTarget, LsetstatLink);
    r, refused, seg := MakeAndSetLink(server, scratch, target, link);
  }

  lemma AFileResolvesToItself(folds: bool, dir: Dir, path: Path)
    requires Key(folds, path) in dir && dir[Key(folds, path)].File?
    ensures Resolve(folds, dir, path) == Some(Key(folds, path))
  {
  }

  /** A file at `target`, and a link at `link` that points to it. */
  method MakeLink(server: Server, scratch: Scratch, target: Path, link: Path)
    returns (raised: Option<Failure>, ghost seg: seq<Exchange>)
    requires Tidy(server, scratch)
    requires Key(server.folds, target) in KeysOf(server.folds, scratch.claimed)
    requires Key(server.folds, link) in KeysOf(server.folds, scratch.claimed)
    modifies server
    ensures Tidy(server, scratch) && server.owed == old(server.owed)
    ensures server.faithful ==> server.state.open == old(server.state.open)
    ensures server.log == old(server.log) + seg
    ensures Follows(seg, CreateScript(seg, 0, target) + [Symlink(target, link)])
    ensures LastFailure(seg) == raised && |seg| <= 3 && (raised.None? ==> |seg| == 3)
    ensures server.faithful && Key(server.folds, target) != Key(server.folds, link)
            && Key(server.folds, target) !in old(server.state.dir)
            && Key(server.folds, link) !in old(server.state.dir) ==>
              && raised.None?
              && Key(server.folds, target) in server.state.dir && server.state.dir[Key(server.folds, target)].File?
              && Key(server.folds, link) in server.state.dir
  {
    hide Tidy, KeysOf, CreateTold, Holds;
    ghost var start := server.log;
    raised, seg := Create(server, scratch, target, []);
    EmptyCreateFollows(seg, target, raised);
    if raised.Some? {
      FollowsStopped(seg, CreateScript(seg, 0, target), [Symlink(target, link)]);
      return;
    }
    ghost var x;
    raised, x := Change(server, scratch, Symlink(target, link));
    seg := Extended(start, seg, CreateScript(seg, 0, target), x);
  }

  method MakeAndSetLink(server: Server, scratch: Scratch, target: Path, link: Path)
    returns (r: Outcome, ghost refused: Option<Failure>, ghost seg: seq<Exchange>)
    requires Tidy(server, scratch)
    requires Key(server.folds, target) in KeysOf(server.folds, scratch.claimed)
    requires Key(server.folds, link) in KeysOf(server.folds, scratch.claimed)
    modifies server
    ensures Tidy(server, scratch) && server.owed == old(server.owed)
    ensures server.faithful ==> server.state.open == old(server.state.open)
    ensures r.Raised? || r == Concluded(Yes) || r == Concluded(No)
    ensures server.log == old(server.log) + seg
    ensures Follows(seg, LsetstatScript(seg, target, link)) && r == LsetstatOutcome(seg)
    ensures r == Concluded(Yes) ==>
              var k := Key(server.folds, link);
              k in server.state.dir && server.state.dir[k].mode % PERMISSION_BITS == LSETSTAT_PROBE_MODE
    ensures r.Concluded? && refused.None? ==> AnsweredAndJudged(server, target, link, r.verdict)
    ensures r == Concluded(No) && refused.Some? ==> refused.value.IsServerError() || refused.value == Capability
    ensures server.faithful && Key(server.folds, target) != Key(server.folds, link)
            && Key(server.folds, target) !in old(server.state.dir)
            && Key(server.folds, link) !in old(server.state.dir) ==>
              r == Concluded(if refused.None? then Yes else No)
  {
    hide Tidy, Follows, AnsweredAndJudged, KeysOf, LsetstatScript, LsetstatOutcome, SetTold, JudgedFrom;
    refused := None;
    ghost var start := server.log;
    var raised;
    raised, seg := MakeLink(server, scratch, target, link);
    ghost var made := seg;
    if raised.Some? {
      LsetstatStopped(seg, target, link);
      r := Raised(raised.value);
      return;
    }
    ghost var more;
    r, refused, more := SetAndJudge(server, scratch, target, link);
    seg := made + more;
    LogGrows(start, made, more);
    LsetstatWentOn(made, more, target, link, r);
  }

  lemma LsetstatStopped(seg: seq<Exchange>, target: Path, link: Path)
    requires Follows(seg, CreateScript(seg, 0, target) + [Symlink(target, link)])
    requires |seg| <= 3 && LastFailure(seg).Some?
    ensures Follows(seg, LsetstatScript(seg, target, link)) && LsetstatOutcome(seg) == Raised(LastFailure(seg).value)
  {
    hide Follows;
    var script := CreateScript(seg, 0, target) + [Symlink(target, link)];
    FollowsStopped(seg, script, [SetLinkMode(link, 416)]);
    FollowsStopped(seg, script + [SetLinkMode(link, 416)], [Lstat(link)]);
    FollowsStopped(seg, script + [SetLinkMode(link, 416)] + [Lstat(link)], [Stat(target)]);
  }

  /** The second half of the lsetstat probe, read off its exchanges. */
  ghost predicate SetTold(seg: seq<Exchange>, target: Path, link: Path, r: Outcome) {
    && Follows(seg, [SetLinkMode(link, 416)] + ([Lstat(link)] + [Stat(target)]))
    && match LastFailure(seg)
       case Some(f) =>
         r == if |seg| == 1 && (IsRefusal(f) || f == Capability) then Concluded(No) else Raised(f)
       case None => |seg| == 3 && r.Concluded? && JudgedFrom(seg[1..], target, link, r.verdict)
  }

  lemma SetStopped(x: Exchange, target: Path, link: Path, f: Failure)
    requires x.request == SetLinkMode(link, 416) && x.answer == Failed(f)
    ensures SetTold([x], target, link, if IsRefusal(f) || f == Capability then Concluded(No) else Raised(f))
  {
    FollowsOne(x);
    FollowsStopped([x], [SetLinkMode(link, 416)], [Lstat(link)] + [Stat(target)]);
  }

  lemma SetWentOn(x: Exchange, more: seq<Exchange>, target: Path, link: Path, r: Outcome)
    requires x.request == SetLinkMode(link, 416) && x.answer == Done
    requires Follows(more, [Lstat(link)] + [Stat(target)])
    requires LastFailure(more).Some? ==> r == Raised(LastFailure(more).value)
    requires LastFailure(more).None? ==> r.Concluded? && JudgedFrom(more, target, link, r.verdict)
    ensures SetTold([x] + more, target, link, r)
  {
    hide Follows;
    FollowsOne(x);
    FollowsOn([x], [SetLinkMode(link, 416)], more, [Lstat(link)] + [Stat(target)]);
    assert ([x] + more)[1..] == more;
    NotEmpty(more, [Lstat(link)] + [Stat(target)]);
  }

  lemma NotEmpty(seg: seq<Exchange>, script: seq<Request>)
    requires Follows(seg, script)
    ensures seg != []
  {
  }

  lemma LsetstatWentOn(made: seq<Exchange>, more: seq<Exchange>, target: Path, link: Path, r: Outcome)
    requires Follows(made, CreateScript(made, 0, target) + [Symlink(target, link)])
    requires |made| == 3 && LastFailure(made).None? && SetTold(more, target, link, r)
    ensures Follows(made + more, LsetstatScript(made + more, target, link)) && LsetstatOutcome(made + more) == r
  {
    hide Follows;
    var seg, script := made + more, CreateScript(made, 0, target) + [Symlink(target, link)];
    FollowsOn(made, script, more, [SetLinkMode(link, 416)] + ([Lstat(link)] + [Stat(target)]));
    assert LsetstatScript(seg, target, link)
        == script + ([SetLinkMode(link, 416)] + ([Lstat(link)] + [Stat(target)]));
    if LastFailure(more).None? {
      assert seg[4] == more[1..][0];
    }
  }

  /**
   The last three requests were the change of mode, answered OK, and the two reports the verdict is made of;
   so if the change left the link's own mode alone, a YES says no more than that it was the probe's already.
   */
  ghost predicate AnsweredAndJudged(server: Server, target: Path, link: Path, verdict: Verdict)
    reads server
  {
    var n, k := |server.log| - 3, Key(server.folds, link);
    && n >= 0 && server.log[n].request == SetLinkMode(link, LSETSTAT_PROBE_MODE) && server.log[n].answer == Done
    && server.log[n].after.dir == server.state.dir && k in server.state.dir
    && JudgedFrom(server.log[n + 1..], target, link, verdict)
    && (server.log[n + 1].answer.attrs.permissions.Some? && UntouchedLink(server.log[n], k) ==>
          (verdict == Yes <==> server.log[n].before.dir[k].mode % PERMISSION_BITS == LSETSTAT_PROBE_MODE))
  }

  /** The request was discarded, or went to another file: the link at `k` is what it was. */
  ghost predicate UntouchedLink(x: Exchange, k: Path) {
    k in x.before.dir && k in x.after.dir && x.after.dir[k] == x.before.dir[k]
  }

  lemma AnsweredThenJudged(server: Server, start: seq<Exchange>, x: Exchange, seg: seq<Exchange>,
                           target: Path, link: Path, verdict: Verdict)
    requires server.log == start + [x] + seg && JudgedFrom(seg, target, link, verdict)
    requires x.request == SetLinkMode(link, LSETSTAT_PROBE_MODE) && x.answer == Done
    requires x.after.dir == server.state.dir && Key(server.folds, link) in server.state.dir
    requires verdict == Yes <==>
               && seg[0].answer.attrs.permissions.Some?
               && server.state.dir[Key(server.folds, link)].mode % PERMISSION_BITS == LSETSTAT_PROBE_MODE
    ensures AnsweredAndJudged(server, target, link, verdict)
  {
    var n := |server.log| - 3;
    assert server.log[n] == x && server.log[n + 1..] == seg && server.log[n + 1] == seg[0];
  }

  /** Asks for the link's own mode to change; an OK is judged by looking. */
  method SetAndJudge(server: Server, scratch: Scratch, target: Path, link: Path)
    returns (r: Outcome, ghost refused: Option<Failure>, ghost seg: seq<Exchange>)
    requires Tidy(server, scratch)
    requires Key(server.folds, link) in KeysOf(server.folds, scratch.claimed)
    modifies server
    ensures Tidy(server, scratch) && server.owed == old(server.owed)
    ensures server.faithful ==> server.state.open == old(server.state.open)
    ensures r.Raised? || r == Concluded(Yes) || r == Concluded(No)
    ensures server.log == old(server.log) + seg
    ensures SetTold(seg, target, link, r)
    ensures r == Concluded(Yes) ==>
              var k := Key(server.folds, link);
              k in server.state.dir && server.state.dir[k].mode % PERMISSION_BITS == LSETSTAT_PROBE_MODE
    ensures r.Concluded? && refused.None? ==> AnsweredAndJudged(server, target, link, r.verdict)
    ensures r == Concluded(No) && refused.Some? ==> refused.value.IsServerError() || refused.value == Capability
    ensures server.faithful && Key(server.folds, target) != Key(server.folds, link)
            && Key(server.folds, target) in old(server.state.dir)
            && old(server.state.dir)[Key(server.folds, target)].File?
            && Key(server.folds, link) in old(server.state.dir) ==>
              r == Concluded(if refused.None? then Yes else No)
  {
    hide Resolve, Tidy, JudgedFrom, AnsweredAndJudged, SetTold, Follows, LastFailure;
    ghost var before, start := server.state.dir, server.log;
    var raised, x := Change(server, scratch, SetLinkMode(link, LSETSTAT_PROBE_MODE));
    refused, seg := raised, [x];
    if raised.Some? {
      SetStopped(x, target, link, raised.value);
      r := if raised.value.IsServerError() || raised.value == Capability then Concluded(No) else Raised(raised.value);
      return;
    }
    ghost var key := Key(server.folds, target);
    if server.faithful && key != Key(server.folds, link) && key in before && before[key].File? {
      AFileResolvesToItself(server.folds, server.state.dir, target);
    }
    ghost var more;
    r, more := JudgeBoth(server, scratch, target, link);
    LogGrows(start, [x], more);
    SetWentOn(x, more, target, link, r);
    seg := [x] + more;
    if r.Concluded? {
      AnsweredThenJudged(server, start, x, more, target, link, r.verdict);
    }
  }

  /** The last request closed a handle, and was answered. */
  ghost predicate ClosedLast(log: seq<Exchange>) {
    |log| > 0 && log[|log| - 1].request.Close? && !log[|log| - 1].answer.Failed?
  }

  /**
   `heard` is the answer to the check-file request. An algorithm this side does not know is the one
   exception the guard lets through.
   */
  method ProbeCheckFile(server: Server, scratch: Scratch, hashes: Hashes)
    returns (r: Outcome, ghost heard: Answer, ghost seg: seq<Exchange>)
    requires Tidy(server, scratch) && ChecksFiles in server.advertised
    modifies server, scratch
    ensures Tidy(server, scratch) && server.owed == old(server.owed)
    ensures scratch.claimed == old(scratch.claimed) + [ScratchPath(scratch.directory, scratch.runId, CheckFileName)]
    ensures server.faithful ==> server.state.open == old(server.state.open)
    ensures server.log == old(server.log) + seg
    ensures CheckFileAsked(seg, ScratchPath(scratch.directory, scratch.runId, CheckFileName))
    ensures r == CheckFileOutcome(seg, hashes)
    ensures r.Crashed? ==> heard.Digests? && heard.algorithm !in hashes.known
    ensures heard.Digests? && heard.algorithm !in hashes.known ==> (r.Crashed? <==> ClosedLast(server.log))
    ensures r.Concluded? ==>
              && heard.Digests? && heard.algorithm in hashes.known
              && r.verdict == if heard.digests == [hashes.digest(heard.algorithm, CHECK_FILE_PAYLOAD)] then Yes else No
    ensures server.faithful && KeyFor(server, scratch, CheckFileName) !in old(server.state.dir) ==>
              && !r.Raised? && heard.Digests?
              && var k := KeyFor(server, scratch, CheckFileName);
              && Holds(server.state.dir, k, CHECK_FILE_PAYLOAD)
              && (heard.algorithm in hashes.known
                  && heard.digests == [hashes.digest(heard.algorithm, server.state.dir[k].content)] ==>
                    r == Concluded(Yes))
  {
    hide ScratchPath, Tidy, KeysOf, CHECK_FILE_PAYLOAD, PAYLOAD, CreateTold, CheckFileAsked, CheckFileOutcome;
    hide HashTold, ClosedLast;
    PayloadAgrees();
    heard := Done;
    var path := Register(server, scratch, CheckFileName);
    ghost var start := server.log;
    var raised;
    raised, seg := Create(server, scratch, path, CHECK_FILE_PAYLOAD);
    if raised.Some? {
      CheckFileStopped(seg, path, raised.value, hashes);
      r := Raised(raised.value);
      return;
    }
    ghost var more;
    r, heard, more := OpenAndHash(server, scratch, path, hashes);
    LogGrows(start, seg, more);
    CheckFileWentOn(seg, more, path, hashes, r, heard);
    seg := seg + more;
  }

  /** Having a file hashed and closing it, read off its exchanges. */
  ghost predicate HashedAndClosed(seg: seq<Exchange>, handle: nat, hashes: Hashes, r: Outcome, heard: Answer) {
    && |seg| == 2 && seg[0].request == CheckFile(handle) && seg[1].request == Close(handle)
    && seg[0].answer == heard && (heard.Failed? || heard.Digests?)
    && r == if Raises(seg[1]).Some? then Raised(Raises(seg[1]).value)
            else if heard.Failed? then Raised(heard.failure)
            else if heard.algorithm !in hashes.known then Crashed
            else Concluded(if heard.digests == [hashes.digest(heard.algorithm, PAYLOAD)] then Yes else No)
  }

  /** The second half of the check-file probe, read off its exchanges. */
  ghost predicate HashTold(seg: seq<Exchange>, path: Path, hashes: Hashes, r: Outcome, heard: Answer) {
    && seg != [] && seg[0].request == OpenRead(path)
    && if seg[0].answer.Failed? then |seg| == 1 && r == Raised(seg[0].answer.failure) && heard == Done
       else HashedAndClosed(seg[1..], HandleAt(seg, 0), hashes, r, heard)
  }

  lemma CheckFileStopped(seg: seq<Exchange>, path: Path, failure: Failure, hashes: Hashes)
    requires CreateTold(seg, path, PAYLOAD, Some(failure)) && PAYLOAD != []
    ensures CheckFileAsked(seg, path) && CheckFileOutcome(seg, hashes) == Raised(failure)
  {
    hide PAYLOAD;
  }

  lemma CheckFileWentOn(first: seq<Exchange>, more: seq<Exchange>, path: Path, hashes: Hashes,
                        r: Outcome, heard: Answer)
    requires CreateTold(first, path, PAYLOAD, None) && PAYLOAD != []
    requires HashTold(more, path, hashes, r, heard)
    ensures CheckFileAsked(first + more, path) && CheckFileOutcome(first + more, hashes) == r
  {
    hide PAYLOAD;
    var seg := first + more;
    assert |first| == 3 && seg[0] == first[0] && seg[1] == first[1] && seg[2] == first[2] && seg[3] == more[0];
    assert seg[|seg| - 1] == more[|more| - 1];
    if |more| == 3 {
      assert seg[4] == more[1..][0] && seg[5] == more[1..][1];
      HashOutcome(seg, more, path, hashes, r, heard);
    }
  }

  lemma HashOutcome(seg: seq<Exchange>, more: seq<Exchange>, path: Path, hashes: Hashes, r: Outcome, heard: Answer)
    requires HashTold(more, path, hashes, r, heard) && |more| == 3
    requires |seg| == 6 && seg[4] == more[1..][0] && seg[5] == more[1..][1]
    ensures CheckFileOutcome(seg, hashes) == r
  {
    hide PAYLOAD;
  }

  /** Opens the file again, has it hashed, and closes it whatever came of that. */
  method OpenAndHash(server: Server, scratch: Scratch, path: Path, hashes: Hashes)
    returns (r: Outcome, ghost heard: Answer, ghost seg: seq<Exchange>)
    requires Tidy(server, scratch)
    modifies server
    ensures Tidy(server, scratch) && server.owed == old(server.owed)
    ensures server.faithful ==> server.state.open == old(server.state.open) && server.state.dir == old(server.state.dir)
    ensures server.log == old(server.log) + seg
    ensures HashTold(seg, path, hashes, r, heard)
    ensures r.Crashed? ==> heard.Digests? && heard.algorithm !in hashes.known
    ensures heard.Digests? && heard.algorithm !in hashes.known ==> (r.Crashed? <==> ClosedLast(server.log))
    ensures r.Concluded? ==>
              && heard.Digests? && heard.algorithm in hashes.known
              && r.verdict == if heard.digests == [hashes.digest(heard.algorithm, CHECK_FILE_PAYLOAD)] then Yes else No
    ensures server.faithful && Key(server.folds, path) in old(server.state.dir)
            && old(server.state.dir)[Key(server.folds, path)].File? ==>
              !r.Raised? && heard.Digests?
  {
    hide Tidy, CHECK_FILE_PAYLOAD, PAYLOAD, HashTold, HashedAndClosed, Resolve, ClosedLast;
    PayloadAgrees();
    heard := Done;
    ghost var start := server.log;
    var handed, x := OpenToRead(server, scratch, path);
    seg := [x];
    if handed.Failed? {
      r := Raised(handed.failure);
      NothingHashed(x, path, hashes, handed.failure);
      return;
    }
    ghost var more;
    r, heard, more := HashAndClose(server, scratch, handed.handle, hashes);
    LogGrows(start, seg, more);
    seg := seg + more;
    HashIsTold(x, more, path, hashes, r, heard);
  }

  method HashAndClose(server: Server, scratch: Scratch, handle: nat, hashes: Hashes)
    returns (r: Outcome, ghost heard: Answer, ghost seg: seq<Exchange>)
    requires Tidy(server, scratch)
    modifies server
    ensures Tidy(server, scratch) && server.owed == old(server.owed) - multiset{handle}
    ensures server.faithful ==>
              server.state.open == old(server.state.open) - {handle} && server.state.dir == old(server.state.dir)
    ensures server.log == old(server.log) + seg && HashedAndClosed(seg, handle, hashes, r, heard)
    ensures r.Crashed? ==> heard.Digests? && heard.algorithm !in hashes.known
    ensures heard.Digests? && heard.algorithm !in hashes.known ==> (r.Crashed? <==> ClosedLast(server.log))
    ensures r.Concluded? ==>
              && heard.Digests? && heard.algorithm in hashes.known
              && r.verdict == if heard.digests == [hashes.digest(heard.algorithm, CHECK_FILE_PAYLOAD)] then Yes else No
    ensures server.faithful && handle in old(server.state.open) ==> !r.Raised? && heard.Digests?
  {
    hide Tidy, CHECK_FILE_PAYLOAD, PAYLOAD;
    PayloadAgrees();
    ghost var start := server.log;
    var a, y := HandleQuery(server, scratch, CheckFile(handle));
    heard := a;
    var closed, z := CloseHandle(server, scratch, handle);
    LogGrows(start, [y], [z]);
    seg := [y] + [z];
    if closed.Some? {
      r := Raised(closed.value);
    } else if a.Failed? {
      r := Raised(a.failure);
    } else if a.algorithm !in hashes.known {
      r := Crashed;
    } else {
      r := Concluded(if a.digests == [hashes.digest(a.algorithm, CHECK_FILE_PAYLOAD)] then Yes else No);
    }
  }

  lemma NothingHashed(x: Exchange, path: Path, hashes: Hashes, failure: Failure)
    requires x.request == OpenRead(path) && x.answer == Failed(failure)
    ensures HashTold([x], path, hashes, Raised(failure), Done)
  {
  }

  lemma HashIsTold(x: Exchange, more: seq<Exchange>, path: Path, hashes: Hashes, r: Outcome, heard: Answer)
    requires x.request == OpenRead(path) && x.answer.Handle?
    requires HashedAndClosed(more, x.answer.handle, hashes, r, heard)
    ensures HashTold([x] + more, path, hashes, r, heard)
  {
    hide PAYLOAD;
    var seg := [x] + more;
    assert seg[1..] == more;
  }

  function Zeros(n: nat): (r: seq<int>)
    ensures |r| == n
  {
    seq(n, i => 0)
  }

  /**
   `wrote` is what became of the one large write. A refusal that arrives as a `ServerError` is a NO; one
   that arrives as the session's `TransferError` is not caught here and leaves the probe undetermined.
   */
  method ProbeLargestRequest(server: Server, scratch: Scratch, requestBytes: nat)
    returns (r: Outcome, ghost wrote: Answer, ghost seg: seq<Exchange>)
    requires Tidy(server, scratch)
    modifies server, scratch
    ensures Tidy(server, scratch) && server.owed == old(server.owed)
    ensures scratch.claimed == old(scratch.claimed)
              + [ScratchPath(scratch.directory, scratch.runId, LargestRequest)]
    ensures server.faithful ==> server.state.open == old(server.state.open)
    ensures r.Raised? || r == Concluded(Yes) || r == Concluded(No)
    ensures server.log == old(server.log) + seg
    ensures LargestAsked(seg, ScratchPath(scratch.directory, scratch.runId, LargestRequest), requestBytes)
    ensures r == LargestOutcome(seg, requestBytes)
    ensures r == Concluded(Yes) ==> wrote == Wrote(requestBytes)
    ensures r == Concluded(No) ==>
              (wrote.Failed? && wrote.failure.IsServerError()) || (wrote.Wrote? && wrote.count < requestBytes)
    ensures wrote.Failed? ==>
              (r == Concluded(No) <==> wrote.failure.IsServerError() && ClosedLast(server.log))
    ensures wrote.Wrote? && ClosedLast(server.log) ==> r == Concluded(if wrote.count == requestBytes then Yes else No)
    ensures wrote.Failed? && !wrote.failure.IsServerError() ==> r.Raised?
    ensures server.faithful && KeyFor(server, scratch, LargestRequest) !in old(server.state.dir) ==>
              && r == Concluded(Yes)
              && Holds(server.state.dir, KeyFor(server, scratch, LargestRequest), Zeros(requestBytes))
  {
    hide ScratchPath;
    var path := Register(server, scratch, LargestRequest);
    var payload := Zeros(requestBytes);
    var failure, a;
    failure, a, seg := WriteNew(server, scratch, path, payload);
    wrote := a;
    if failure.Some? {
      r := Raised(failure.value);
    } else if a.Failed? {
      r := if a.failure.IsServerError() then Concluded(No) else Raised(a.failure);
    } else {
      r := Concluded(if a.count != requestBytes then No else Yes);
    }
  }

  /** One write to a handle and its close, read off their exchanges. */
  ghost predicate WrittenAndClosed(seg: seq<Exchange>, handle: nat, data: seq<int>,
                                   failure: Option<Failure>, wrote: Answer)
  {
    && |seg| == (if data == [] then 1 else 2)
    && seg[|seg| - 1].request == Close(handle) && failure == Raises(seg[|seg| - 1])
    && (data != [] ==> seg[0].request == Write(handle, data) && seg[0].answer == wrote)
    && (data == [] ==> wrote == Wrote(0)) && (wrote.Failed? || wrote.Wrote?)
  }

  /** One write to a new file, read off its exchanges. */
  ghost predicate WriteTold(seg: seq<Exchange>, path: Path, data: seq<int>, failure: Option<Failure>, wrote: Answer) {
    && seg != [] && seg[0].request == OpenNew(path, 384)
    && if seg[0].answer.Failed? then |seg| == 1 && failure == Raises(seg[0]) && wrote == Done
       else WrittenAndClosed(seg[1..], HandleAt(seg, 0), data, failure, wrote)
  }

  /**
   Opens a new file, writes to it once and closes it. `failure` is what the open or the close raised;
   `wrote` is what became of the write, and `Done` when there was none.
   */
  method WriteNew(server: Server, scratch: Scratch, path: Path, data: seq<int>)
    returns (failure: Option<Failure>, wrote: Answer, ghost seg: seq<Exchange>)
    requires Tidy(server, scratch) && Key(server.folds, path) in KeysOf(server.folds, scratch.claimed)
    modifies server
    ensures Tidy(server, scratch) && server.owed == old(server.owed)
    ensures server.log == old(server.log) + seg
    ensures WriteTold(seg, path, data, failure, wrote)
    ensures wrote != Done ==> (failure.None? <==> ClosedLast(server.log))
    ensures server.faithful ==> server.state.open == old(server.state.open)
    ensures failure.None? ==>
              if data == [] then wrote == Wrote(0) else wrote.Failed? || (wrote.Wrote? && wrote.count <= |data|)
    ensures failure.Some? ==> wrote == Done || wrote.Failed? || wrote.Wrote?
    ensures server.faithful && Key(server.folds, path) !in old(server.state.dir) ==>
              && failure.None? && wrote == Wrote(|data|)
              && Holds(server.state.dir, Key(server.folds, path), data)
  {
    hide Tidy, KeysOf, WriteTold, WrittenAndClosed, ClosedLast;
    ghost var start := server.log;
    var handed, x := OpenScratch(server, scratch, path);
    if handed.Failed? {
      NothingWritten(x, path, data);
      return Some(handed.failure), Done, [x];
    }
    ghost var more;
    failure, wrote, more := WriteAndClose(server, scratch, handed.handle, data);
    LogGrows(start, [x], more);
    seg := [x] + more;
    WriteIsTold(x, more, path, data, failure, wrote);
  }

  method WriteAndClose(server: Server, scratch: Scratch, handle: nat, data: seq<int>)
    returns (failure: Option<Failure>, wrote: Answer, ghost seg: seq<Exchange>)
    requires Tidy(server, scratch)
    requires handle in server.state.open ==>
               server.state.open[handle] in KeysOf(server.folds, scratch.claimed)
    modifies server
    ensures Tidy(server, scratch) && server.owed == old(server.owed) - multiset{handle}
    ensures server.log == old(server.log) + seg && WrittenAndClosed(seg, handle, data, failure, wrote)
    ensures failure.None? <==> ClosedLast(server.log)
    ensures if data == [] then wrote == Wrote(0) else wrote.Failed? || (wrote.Wrote? && wrote.count <= |data|)
    ensures server.faithful ==> server.state.open == old(server.state.open) - {handle}
    ensures server.faithful && handle in old(server.state.open) ==>
              var k := old(server.state.open)[handle];
              && failure.None? && wrote == Wrote(|data|)
              && (Holds(old(server.state.dir), k, []) ==> Holds(server.state.dir, k, data))
  {
    hide Tidy, KeysOf;
    ghost var start := server.log;
    ghost var written, y;
    wrote, written := WriteAt(server, scratch, handle, data);
    failure, y := CloseHandle(server, scratch, handle);
    LogGrows(start, written, [y]);
    seg := written + [y];
  }

  lemma NothingWritten(x: Exchange, path: Path, data: seq<int>)
    requires x.request == OpenNew(path, 384) && x.answer.Failed?
    ensures WriteTold([x], path, data, Raises(x), Done)
  {
  }

  lemma WriteIsTold(x: Exchange, more: seq<Exchange>, path: Path, data: seq<int>,
                    failure: Option<Failure>, wrote: Answer)
    requires x.request == OpenNew(path, 384) && x.answer.Handle?
    requires WrittenAndClosed(more, x.answer.handle, data, failure, wrote)
    ensures WriteTold([x] + more, path, data, failure, wrote)
  {
    assert ([x] + more)[1..] == more;
  }
}
