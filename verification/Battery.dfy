/**
 The scratch names of the write battery of src/gantry_sftp/compatibility.py, registered before anything
 creates them, and what every request made under them keeps, over every server that `Remote` allows.
 */
module Battery {
  import opened Remote

  const PROBE_PREFIX := "gantry-probe"
  const PROBE_MODE: nat := 384              // 0o600
  const LSETSTAT_PROBE_MODE: nat := 416     // 0o640
  const PERMISSION_BITS: nat := 4096        // one more than 0o7777
  const PROBE_TIMESTAMP: int := 1_000_000_000
  const CHECK_FILE_PAYLOAD: seq<int> := AsBytes("gantry-sftp check-file probe\n")

  function AsBytes(s: string): seq<int> {
    seq(|s|, i requires 0 <= i < |s| => s[i] as int)
  }

  datatype Verdict = Yes | No | Undetermined

  /** A probe returns a verdict, raises what the guard catches, or raises what it does not. */
  datatype Outcome = Concluded(verdict: Verdict) | Raised(failure: Failure) | Crashed

  datatype Leftover = Leftover(path: Path, failure: Failure)

  // --- scratch names ---------------------------------------------------------------------------------

  function TrimSlashes(directory: Path): (r: Path)
    ensures r <= directory
    ensures r == [] || r[|r| - 1] != '/'
    ensures forall i :: |r| <= i < |directory| ==> directory[i] == '/'
  {
    if directory == [] || directory[|directory| - 1] != '/' then directory
    else TrimSlashes(directory[..|directory| - 1])
  }

  function Join(directory: Path, name: string): Path {
    TrimSlashes(directory) + "/" + name
  }

  /** The names a run may use, by what each is for. */
  datatype ScratchName =
    | CaseName | RenameSource | RenameTarget | TimesName | PosixSource | PosixTarget | FsyncName
    | LsetstatTarget | LsetstatLink | CheckFileName | LargestRequest
  {
    function Suffix(): string {
      match this
      case CaseName => "case-aA"
      case RenameSource => "rename-source"
      case RenameTarget => "rename-target"
      case TimesName => "times"
      case PosixSource => "posix-source"
      case PosixTarget => "posix-target"
      case FsyncName => "fsync"
      case LsetstatTarget => "lsetstat-target"
      case LsetstatLink => "lsetstat-link"
      case CheckFileName => "check-file"
      case LargestRequest => "largest-request"
    }
  }

  function ScratchPath(directory: Path, runId: string, name: ScratchName): Path {
    Join(directory, PROBE_PREFIX + "-" + runId + "-" + name.Suffix())
  }

  const BASE_CLAIMS: seq<ScratchName> := [CaseName, RenameSource, RenameTarget, TimesName]

  function PosixClaims(advertised: set<Extension>): seq<ScratchName> {
    if PosixRenames in advertised then [PosixSource, PosixTarget] else []
  }

  function FsyncClaims(advertised: set<Extension>): seq<ScratchName> {
    if Fsyncs in advertised then [FsyncName] else []
  }

  function LsetstatClaims(advertised: set<Extension>): seq<ScratchName> {
    if LsetStats in advertised then [LsetstatTarget, LsetstatLink] else []
  }

  function CheckFileClaims(advertised: set<Extension>): seq<ScratchName> {
    if ChecksFiles in advertised then [CheckFileName] else []
  }

  function ExtensionClaims(advertised: set<Extension>): seq<ScratchName> {
    PosixClaims(advertised) + FsyncClaims(advertised) + LsetstatClaims(advertised) + CheckFileClaims(advertised)
  }

  /** The names the battery claims against a server that advertises these extensions, in order. */
  function Claims(advertised: set<Extension>): seq<ScratchName> {
    BASE_CLAIMS + ExtensionClaims(advertised) + [LargestRequest]
  }

  function ScratchPaths(directory: Path, runId: string, names: seq<ScratchName>): seq<Path> {
    seq(|names|, i requires 0 <= i < |names| => ScratchPath(directory, runId, names[i]))
  }

  function KeysOf(folds: bool, paths: seq<Path>): set<Path> {
    set p | p in paths :: Key(folds, p)
  }

  /** Every filed name one whole run claims. */
  function ScratchKeys(server: Server, directory: Path, runId: string): set<Path> {
    KeysOf(server.folds, ScratchPaths(directory, runId, Claims(server.advertised)))
  }

  /** Registers every name before the request that could create it. */
  class Scratch {
    const directory: Path
    const runId: string
    var claimed: seq<Path>
    ghost const initial: Dir

    constructor (directory: Path, runId: string, ghost initial: Dir)
      ensures this.directory == directory && this.runId == runId && this.initial == initial && claimed == []
    {
      this.directory, this.runId, this.initial, this.claimed := directory, runId, initial, [];
    }

    method Claim(name: ScratchName) returns (path: Path)
      modifies this
      ensures path == ScratchPath(directory, runId, name)
      ensures claimed == old(claimed) + [path]
    {
      path := ScratchPath(directory, runId, name);
      claimed := claimed + [path];
    }
  }

  // --- what every request keeps ---------------------------------------------------------------------------

  ghost predicate OnlyNew(initial: Dir, now: Dir, names: set<Path>) {
    forall k :: k in now && k !in initial ==> k in names
  }

  /** A link at one of `names` points at one of `names`. */
  ghost predicate LinksStay(folds: bool, dir: Dir, names: set<Path>) {
    forall k :: k in names && k in dir && dir[k].Link? ==> Key(folds, dir[k].target) in names
  }

  ghost predicate NoLinkAt(dir: Dir, names: set<Path>) {
    forall k :: k in names && k in dir ==> dir[k].File?
  }

  ghost predicate Confined(folds: bool, initial: Dir, now: Dir, names: set<Path>) {
    SameOutside(initial, now, names) && LinksStay(folds, now, names)
  }

  /** Where a scratch name of this run is filed on this server. */
  function KeyFor(server: Server, scratch: Scratch, name: ScratchName): Path {
    Key(server.folds, ScratchPath(scratch.directory, scratch.runId, name))
  }

  /** The request names nothing but `names`, by path or through a handle. */
  ghost predicate Within(folds: bool, s: State, req: Request, names: set<Path>) {
    match req
    case OpenNew(p, _) => Key(folds, p) in names
    case Write(h, _) => h in s.open ==> s.open[h] in names
    case Rename(a, b) => Key(folds, a) in names && Key(folds, b) in names
    case PosixRename(a, b) => Key(folds, a) in names && Key(folds, b) in names
    case SetTimes(p, _) => Key(folds, p) in names
    case SetLinkMode(p, _) => Key(folds, p) in names
    case Symlink(t, l) => Key(folds, t) in names && Key(folds, l) in names
    case Remove(p) => Key(folds, p) in names
    case _ => true
  }

  lemma {:induction false} FollowStays(folds: bool, dir: Dir, key: Path, links: nat, names: set<Path>)
    requires LinksStay(folds, dir, names) && key in names
    ensures var r := Follow(folds, dir, key, links); r.Some? ==> r.value in names
    decreases links
  {
    if key in dir && dir[key].Link? && links > 0 {
      FollowStays(folds, dir, Key(folds, dir[key].target), links - 1, names);
    }
  }

  lemma FootprintStays(folds: bool, s: State, req: Request, names: set<Path>)
    requires Within(folds, s, req, names) && LinksStay(folds, s.dir, names)
    ensures Footprint(folds, s, req) <= names
  {
    match req {
      case SetTimes(p, _) => FollowStays(folds, s.dir, Key(folds, p), MAX_LINKS, names);
      case SetLinkMode(p, _) => FollowStays(folds, s.dir, Key(folds, p), MAX_LINKS, names);
      case _ =>
    }
  }

  /** Whatever a server makes of a request within `names`, it leaves everything else as it was. */
  lemma EffectStaysConfined(folds: bool, initial: Dir, s: State, req: Request, s': State, names: set<Path>)
    requires AllowedEffect(folds, s, req, s') && Within(folds, s, req, names)
    requires Confined(folds, initial, s.dir, names)
    ensures Confined(folds, initial, s'.dir, names)
  {
    FootprintStays(folds, s, req, names);
    var touched := Footprint(folds, s, req);
    forall k | k in names && k in s'.dir && s'.dir[k].Link? ensures Key(folds, s'.dir[k].target) in names {
      if k in touched {
        if !(req.Symlink? && s'.dir[k].target == req.target) {
          var j :| j in touched && j in s.dir && s.dir[j].Link? && s.dir[j].target == s'.dir[k].target;
          assert j in names;
        }
      } else {
        assert k in s.dir && s.dir[k] == s'.dir[k];
      }
    }
  }

  /** And a name it creates is one of `names`. */
  lemma EffectCreatesOnlyNames(folds: bool, initial: Dir, s: State, req: Request, s': State, names: set<Path>)
    requires AllowedEffect(folds, s, req, s') && Within(folds, s, req, names)
    requires OnlyNew(initial, s.dir, names)
    ensures OnlyNew(initial, s'.dir, names)
  {
    forall k | k in s'.dir && k !in initial ensures k in names {
      if k !in s.dir {
        assert MayCreate(req);
        assert k in Footprint(folds, s, req);
      }
    }
  }

  /**
   What holds between requests. Every new name is a claimed one; and unless a link already stood at a
   scratch name when the run began, nothing but the claimed names has changed.
   */
  ghost predicate Tidy(server: Server, scratch: Scratch)
    reads server, scratch
  {
    var names := KeysOf(server.folds, scratch.claimed);
    var all := ScratchKeys(server, scratch.directory, scratch.runId);
    && names <= all
    && OnlyNew(scratch.initial, server.state.dir, names)
    && (NoLinkAt(scratch.initial, all) ==> Confined(server.folds, scratch.initial, server.state.dir, names))
  }

  /** One request of the battery: whatever comes of it, the run stays tidy. */
  method Ask(server: Server, scratch: Scratch, req: Request) returns (a: Answer)
    requires Tidy(server, scratch)
    requires Within(server.folds, server.state, req, KeysOf(server.folds, scratch.claimed))
    modifies server
    ensures Tidy(server, scratch)
    ensures server.log == old(server.log) + [Exchange(old(server.state), req, a, server.state)]
    ensures AllowedEffect(server.folds, old(server.state), req, server.state)
    ensures AllowedAnswer(server.folds, old(server.state), req, server.state, a)
    ensures server.faithful ==> Faithful(server.folds, old(server.state), req, server.state, a)
    ensures server.owed == if a.Handle? then old(server.owed) + multiset{a.handle}
                           else if req.Close? then old(server.owed) - multiset{req.handle} else old(server.owed)
  {
    ghost var before := server.state;
    ghost var names := KeysOf(server.folds, scratch.claimed);
    a := server.Send(req);
    EffectCreatesOnlyNames(server.folds, scratch.initial, before, req, server.state, names);
    if NoLinkAt(scratch.initial, ScratchKeys(server, scratch.directory, scratch.runId)) {
      EffectStaysConfined(server.folds, scratch.initial, before, req, server.state, names);
    }
  }

  /** A claim registers one more name and disturbs nothing. */
  method Register(server: Server, scratch: Scratch, name: ScratchName) returns (path: Path)
    requires Tidy(server, scratch) && name in Claims(server.advertised)
    modifies scratch
    ensures Tidy(server, scratch)
    ensures path == ScratchPath(scratch.directory, scratch.runId, name)
    ensures scratch.claimed == old(scratch.claimed) + [path]
    ensures KeysOf(server.folds, scratch.claimed)
            == KeysOf(server.folds, old(scratch.claimed)) + {Key(server.folds, path)}
  {
    path := scratch.Claim(name);
    ClaimIsPlanned(server.folds, scratch.directory, scratch.runId, Claims(server.advertised), name);
  }

  lemma ClaimIsPlanned(folds: bool, directory: Path, runId: string, names: seq<ScratchName>, name: ScratchName)
    requires name in names
    ensures Key(folds, ScratchPath(directory, runId, name)) in KeysOf(folds, ScratchPaths(directory, runId, names))
  {
    var i :| 0 <= i < |names| && names[i] == name;
    assert ScratchPaths(directory, runId, names)[i] == ScratchPath(directory, runId, name);
  }
}
