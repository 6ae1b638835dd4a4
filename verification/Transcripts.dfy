/**
 What a probe of the write battery asks, request by request, and what its answers mean: read off the
 exchanges alone, with every name, mode, time and payload written out. The probes are proved against this.
 */
module Transcripts {
  import opened Wrappers
  import opened Remote
  import opened Battery

  /** The questions of the battery, in the order it asks them. */
  datatype Fact =
    | CaseFolds | RenameReplaces | TimesSurvive | PosixRenameHonoured | FsyncHonoured | LsetstatHonoured
    | CheckFileHonoured | LargestRequestAccepted

  datatype Finding = Finding(fact: Fact, verdict: Verdict)

  /** The digests this side can compute, and how. */
  datatype Hashes = Hashes(known: set<string>, digest: (string, seq<int>) -> seq<int>)

  /** What one run was started with. */
  datatype Setup = Setup(directory: Path, runId: string, requestBytes: nat, hashes: Hashes)

  // --- names --------------------------------------------------------------------------------------------

  /** A name of the run, in the nominated directory. */
  function Named(setup: Setup, suffix: string): Path {
    TrimSlashes(setup.directory) + "/gantry-probe-" + setup.runId + "-" + suffix
  }

  /** A path up to and including its last separator. */
  function Stem(p: Path): (r: Path)
    ensures r <= p
    ensures r == [] || r[|r| - 1] == '/'
    ensures forall i :: |r| <= i < |p| ==> p[i] != '/'
  {
    if p == [] || p[|p| - 1] == '/' then p else Stem(p[..|p| - 1])
  }

  /** The path with its last component only uppercased. */
  function UpperName(p: Path): Path {
    Stem(p) + Upper(p[|Stem(p)|..])
  }

  lemma {:induction false} StemOfAChild(directory: Path, name: string)
    requires '/' !in name
    ensures Stem(directory + "/" + name) == directory + "/"
  {
    var p := directory + "/" + name;
    if name != [] {
      assert p[|p| - 1] == name[|name| - 1];
      assert p[..|p| - 1] == directory + "/" + name[..|name| - 1];
      StemOfAChild(directory, name[..|name| - 1]);
    }
  }

  /** The directory is left alone; the name is uppercased letter by letter. */
  lemma UpperNameIsTheNamesOnly(directory: Path, name: string)
    requires '/' !in name
    ensures UpperName(directory + "/" + name) == directory + "/" + Upper(name)
    ensures forall i :: 0 <= i < |name| ==>
              Upper(name)[i] == if 'a' <= name[i] <= 'z' then name[i] - 'a' + 'A' else name[i]
  {
    StemOfAChild(directory, name);
    assert (directory + "/" + name)[|directory| + 1..] == name;
  }

  // --- following a script ------------------------------------------------------------------------------------

  function Raises(x: Exchange): Option<Failure> {
    if x.answer.Failed? then Some(x.answer.failure) else None
  }

  /** What the last request raised. */
  function LastFailure(seg: seq<Exchange>): Option<Failure> {
    if seg == [] then None else Raises(seg[|seg| - 1])
  }

  /** The handle the request at `i` was told. */
  function HandleAt(seg: seq<Exchange>, i: nat): nat {
    if i < |seg| && seg[i].answer.Handle? then seg[i].answer.handle else 0
  }

  /** The requests are those of the script, in order, up to its end or to the first that failed. */
  ghost predicate Follows(seg: seq<Exchange>, script: seq<Request>) {
    && 1 <= |seg| <= |script|
    && (forall i :: 0 <= i < |seg| ==> seg[i].request == script[i])
    && (forall i :: 0 <= i < |seg| - 1 ==> !seg[i].answer.Failed?)
    && (|seg| < |script| ==> LastFailure(seg).Some?)
  }

  lemma FollowsStopped(seg: seq<Exchange>, script: seq<Request>, more: seq<Request>)
    requires Follows(seg, script) && LastFailure(seg).Some?
    ensures Follows(seg, script + more)
  {
  }

  lemma FollowsOn(a: seq<Exchange>, script: seq<Request>, b: seq<Exchange>, more: seq<Request>)
    requires Follows(a, script) && LastFailure(a).None?
    requires Follows(b, more)
    ensures Follows(a + b, script + more) && LastFailure(a + b) == LastFailure(b)
  {
    assert |a| == |script|;
    forall i | 0 <= i < |a + b| - 1 ensures !(a + b)[i].answer.Failed? {
      if i < |a| {
        assert i < |a| - 1 || a[i] == a[|a| - 1];
      } else {
        assert (a + b)[i] == b[i - |a|];
      }
    }
  }

  lemma FollowsOne(x: Exchange)
    ensures Follows([x], [x.request]) && LastFailure([x]) == Raises(x)
  {
  }

  /** Creating an empty file: an exclusive open with mode 0o600, and the close of the handle it told. */
  function CreateScript(seg: seq<Exchange>, i: nat, path: Path): seq<Request> {
    [OpenNew(path, 384), Close(HandleAt(seg, i))]
  }

  function TwoCreates(seg: seq<Exchange>, a: Path, b: Path): seq<Request> {
    CreateScript(seg, 0, a) + CreateScript(seg, 2, b)
  }

  // --- the probes that stop at a failure ------------------------------------------------------------------------

  /** An answer of the server's own, as `ServerError` and its kin are. */
  predicate IsRefusal(f: Failure) {
    match f
    case NoSuchFile => true
    case OpUnsupported => true
    case OtherStatus => true
    case Capability => false
    case Transfer => false
    case Disconnected => false
  }

  function CaseScript(seg: seq<Exchange>, p: Path): seq<Request> {
    CreateScript(seg, 0, p) + [Stat(UpperName(p))]
  }

  function CaseOutcome(seg: seq<Exchange>): Outcome {
    match LastFailure(seg)
    case None => Concluded(Yes)
    case Some(f) => if |seg| == 3 && f == NoSuchFile then Concluded(No) else Raised(f)
  }

  function RenameScript(seg: seq<Exchange>, source: Path, target: Path): seq<Request> {
    TwoCreates(seg, source, target) + [Rename(source, target)]
  }

  function RenameOutcome(seg: seq<Exchange>): Outcome {
    match LastFailure(seg)
    case None => Concluded(Yes)
    case Some(f) => if |seg| == 5 && IsRefusal(f) then Concluded(No) else Raised(f)
  }

  function TimesScript(seg: seq<Exchange>, p: Path): seq<Request> {
    CreateScript(seg, 0, p) + [SetTimes(p, 1_000_000_000)] + [Stat(p)]
  }

  function TimesOutcome(seg: seq<Exchange>): Outcome {
    match LastFailure(seg)
    case Some(f) => Raised(f)
    case None =>
      if seg == [] || !seg[|seg| - 1].answer.Reported? then Concluded(Undetermined)
      else
        match seg[|seg| - 1].answer.attrs.mtime
        case None => Concluded(Undetermined)
        case Some(t) => Concluded(if t == 1_000_000_000 then Yes else No)
  }

  function PosixScript(seg: seq<Exchange>, source: Path, target: Path): seq<Request> {
    TwoCreates(seg, source, target) + [PosixRename(source, target)] + [Stat(source)]
  }

  function PosixOutcome(seg: seq<Exchange>): Outcome {
    match LastFailure(seg)
    case None => Concluded(No)
    case Some(f) =>
      if |seg| == 6 && f == NoSuchFile then Concluded(Yes)
      else if |seg| == 5 && IsRefusal(f) then Concluded(No)
      else Raised(f)
  }

  function LsetstatScript(seg: seq<Exchange>, target: Path, link: Path): seq<Request> {
    CreateScript(seg, 0, target) + [Symlink(target, link)] + [SetLinkMode(link, 416)] + [Lstat(link)] + [Stat(target)]
  }

  /** YES is that the link reports the mode 0o640 among its twelve permission bits. */
  function LsetstatOutcome(seg: seq<Exchange>): Outcome {
    match LastFailure(seg)
    case Some(f) => if |seg| == 4 && (IsRefusal(f) || f == Capability) then Concluded(No) else Raised(f)
    case None =>
      if |seg| < 6 || !seg[4].answer.Reported? then Concluded(No)
      else
        match seg[4].answer.attrs.permissions
        case None => Concluded(No)
        case Some(mode) => Concluded(if mode % 4096 == 416 then Yes else No)
  }

  // --- the probes that close what they opened ----------------------------------------------------------------------

  const PAYLOAD: seq<int> := AsBytes("gantry-sftp check-file probe\n")

  /** Creating a file with contents: open, write, close whatever came of the write. A failed close comes first. */
  ghost predicate CreateTold(seg: seq<Exchange>, path: Path, contents: seq<int>, raised: Option<Failure>) {
    && seg != [] && seg[0].request == OpenNew(path, 384) && (seg[0].answer.Handle? || seg[0].answer.Failed?)
    && if seg[0].answer.Failed? then |seg| == 1 && raised == Some(seg[0].answer.failure)
       else if contents == [] then
         |seg| == 2 && seg[1].request == Close(seg[0].answer.handle) && raised == Raises(seg[1])
       else
         && |seg| == 3 && seg[1].request == Write(seg[0].answer.handle, contents)
         && seg[2].request == Close(seg[0].answer.handle)
         && raised == if Raises(seg[2]).Some? then Raises(seg[2]) else Raises(seg[1])
  }

  lemma EmptyCreateFollows(seg: seq<Exchange>, path: Path, raised: Option<Failure>)
    requires CreateTold(seg, path, [], raised)
    ensures Follows(seg, CreateScript(seg, 0, path)) && LastFailure(seg) == raised
    ensures raised.None? ==> |seg| == 2
  {
  }

  /** Open, write, flush, close; nothing after the open but the close if the write failed. */
  ghost predicate FsyncAsked(seg: seq<Exchange>, path: Path) {
    && seg != [] && seg[0].request == OpenNew(path, 384)
    && if seg[0].answer.Failed? then |seg| == 1
       else
         var h := HandleAt(seg, 0);
         && |seg| >= 3 && seg[1].request == Write(h, PAYLOAD) && seg[|seg| - 1].request == Close(h)
         && if seg[1].answer.Failed? then |seg| == 3 else |seg| == 4 && seg[2].request == Fsync(h)
  }

  function FsyncOutcome(seg: seq<Exchange>): Outcome {
    if LastFailure(seg).Some? then Raised(LastFailure(seg).value)
    else if |seg| < 3 || seg[1].answer.Failed? then
      Raised(if |seg| > 1 && seg[1].answer.Failed? then seg[1].answer.failure else OtherStatus)
    else
      match Raises(seg[2])
      case None => Concluded(Yes)
      case Some(f) => if f == OpUnsupported then Concluded(No) else Raised(f)
  }

  /** The payload is written and closed, the file opened again, hashed, and closed. */
  ghost predicate CheckFileAsked(seg: seq<Exchange>, path: Path) {
    && seg != [] && seg[0].request == OpenNew(path, 384)
    && if seg[0].answer.Failed? then |seg| == 1
       else
         && |seg| >= 3 && seg[1].request == Write(HandleAt(seg, 0), PAYLOAD)
         && seg[2].request == Close(HandleAt(seg, 0))
         && if seg[1].answer.Failed? || seg[2].answer.Failed? then |seg| == 3
            else
              && |seg| >= 4 && seg[3].request == OpenRead(path)
              && if seg[3].answer.Failed? then |seg| == 4
                 else
                   && |seg| == 6 && seg[4].request == CheckFile(HandleAt(seg, 3))
                   && seg[5].request == Close(HandleAt(seg, 3))
  }

  /** `Crashed` is the exception for an algorithm this side does not know. */
  function CheckFileOutcome(seg: seq<Exchange>, hashes: Hashes): Outcome {
    if LastFailure(seg).Some? then Raised(LastFailure(seg).value)
    else if |seg| == 3 && seg[1].answer.Failed? then Raised(seg[1].answer.failure)
    else if |seg| < 6 then Raised(OtherStatus)
    else
      match seg[4].answer
      case Failed(f) => Raised(f)
      case Digests(algorithm, digests) =>
        if algorithm !in hashes.known then Crashed
        else if |digests| == 1 && digests[0] == hashes.digest(algorithm, PAYLOAD) then Concluded(Yes)
        else Concluded(No)
      case _ => Raised(OtherStatus)
  }

  /** Open, one write of that many zero bytes, close; no write if there are none to write. */
  ghost predicate LargestAsked(seg: seq<Exchange>, path: Path, requestBytes: nat) {
    && seg != [] && seg[0].request == OpenNew(path, 384)
    && if seg[0].answer.Failed? then |seg| == 1
       else if requestBytes == 0 then |seg| == 2 && seg[1].request == Close(HandleAt(seg, 0))
       else
         && |seg| == 3 && seg[1].request == Write(HandleAt(seg, 0), seq(requestBytes, i => 0))
         && seg[2].request == Close(HandleAt(seg, 0))
  }

  function LargestOutcome(seg: seq<Exchange>, requestBytes: nat): Outcome {
    if LastFailure(seg).Some? then Raised(LastFailure(seg).value)
    else if requestBytes == 0 then Concluded(Yes)
    else if |seg| < 3 then Raised(OtherStatus)
    else
      match seg[1].answer
      case Failed(f) => if IsRefusal(f) then Concluded(No) else Raised(f)
      case Wrote(count) => Concluded(if count == requestBytes then Yes else No)
      case _ => Raised(OtherStatus)
  }

  // --- every question ------------------------------------------------------------------------------------

  /** The exchanges are those of the probe for this question. */
  ghost predicate Asked(fact: Fact, seg: seq<Exchange>, setup: Setup) {
    match fact
    case CaseFolds => Follows(seg, CaseScript(seg, Named(setup, "case-aA")))
    case RenameReplaces =>
      Follows(seg, RenameScript(seg, Named(setup, "rename-source"), Named(setup, "rename-target")))
    case TimesSurvive => Follows(seg, TimesScript(seg, Named(setup, "times")))
    case PosixRenameHonoured =>
      Follows(seg, PosixScript(seg, Named(setup, "posix-source"), Named(setup, "posix-target")))
    case FsyncHonoured => FsyncAsked(seg, Named(setup, "fsync"))
    case LsetstatHonoured =>
      Follows(seg, LsetstatScript(seg, Named(setup, "lsetstat-target"), Named(setup, "lsetstat-link")))
    case CheckFileHonoured => CheckFileAsked(seg, Named(setup, "check-file"))
    case LargestRequestAccepted => LargestAsked(seg, Named(setup, "largest-request"), setup.requestBytes)
  }

  /** What the exchanges of a probe establish. */
  function OutcomeOf(fact: Fact, seg: seq<Exchange>, setup: Setup): Outcome {
    match fact
    case CaseFolds => CaseOutcome(seg)
    case RenameReplaces => RenameOutcome(seg)
    case TimesSurvive => TimesOutcome(seg)
    case PosixRenameHonoured => PosixOutcome(seg)
    case FsyncHonoured => FsyncOutcome(seg)
    case LsetstatHonoured => LsetstatOutcome(seg)
    case CheckFileHonoured => CheckFileOutcome(seg, setup.hashes)
    case LargestRequestAccepted => LargestOutcome(seg, setup.requestBytes)
  }

  /** A finding reports what its probe's exchanges establish, and nothing for a probe that raised. */
  ghost predicate Told(f: Finding, seg: seq<Exchange>, setup: Setup) {
    && Asked(f.fact, seg, setup)
    && match OutcomeOf(f.fact, seg, setup)
       case Concluded(verdict) => f.verdict == verdict
       case Raised(_) => f.verdict == Undetermined
       case Crashed => false
  }

  ghost predicate AllTold(findings: seq<Finding>, segs: seq<seq<Exchange>>, setup: Setup) {
    && |findings| == |segs|
    && forall i :: 0 <= i < |findings| ==> Told(findings[i], segs[i], setup)
  }

  function Flat(segs: seq<seq<Exchange>>): seq<Exchange> {
    if segs == [] then [] else Flat(segs[..|segs| - 1]) + segs[|segs| - 1]
  }

  lemma {:induction false} FlatOfConcat(a: seq<seq<Exchange>>, b: seq<seq<Exchange>>)
    ensures Flat(a + b) == Flat(a) + Flat(b)
  {
    if b == [] {
      assert a + b == a;
    } else {
      assert (a + b)[..|a + b| - 1] == a + b[..|b| - 1];
      FlatOfConcat(a, b[..|b| - 1]);
    }
  }

  lemma FlatOfOne(seg: seq<Exchange>)
    ensures Flat([seg]) == seg
  {
    assert [seg][..0] == [];
  }

  lemma {:induction false} FlatHasAll(segs: seq<seq<Exchange>>, i: nat)
    requires i < |segs|
    ensures forall x :: x in segs[i] ==> x in Flat(segs)
  {
    if i < |segs| - 1 {
      FlatHasAll(segs[..|segs| - 1], i);
    }
  }

  /** A probe none of whose requests is answered establishes nothing. */
  lemma DisconnectedProbeEstablishesNothing(f: Finding, seg: seq<Exchange>, setup: Setup)
    requires Told(f, seg, setup)
    requires forall x :: x in seg ==> x.answer == Failed(Disconnected)
    ensures f.verdict == Undetermined
  {
    assert seg[0] in seg && seg[|seg| - 1] in seg;
  }

  /** So a run over a connection that is gone reports every question undetermined. */
  lemma DisconnectedRunEstablishesNothing(findings: seq<Finding>, segs: seq<seq<Exchange>>, setup: Setup)
    requires AllTold(findings, segs, setup)
    requires forall x :: x in Flat(segs) ==> x.answer == Failed(Disconnected)
    ensures forall f :: f in findings ==> f.verdict == Undetermined
  {
    forall i | 0 <= i < |findings| ensures findings[i].verdict == Undetermined {
      FlatHasAll(segs, i);
      DisconnectedProbeEstablishesNothing(findings[i], segs[i], setup);
    }
  }
}
