/**
 The far end a write battery talks to: a directory tree by name, the open handles, and the requests
 of filexfer v3 a battery sends. A server may refuse a request, perform it and lose the answer, do
 part of it, or answer OK and do nothing. What it may not do is touch a name the request did not
 concern, or answer a read or a removal untruthfully.
 */
module Remote {
  import opened Wrappers

  type Path = string

  datatype Node =
    | File(mode: nat, mtime: int, content: seq<int>)
    | Link(target: Path, mode: nat)

  type Dir = map<Path, Node>

  // --- names -----------------------------------------------------------------------------------------

  function UpperChar(c: char): char {
    if 'a' <= c <= 'z' then 'A' + (c - 'a') else c
  }

  function Upper(p: Path): (r: Path)
    ensures |r| == |p|
  {
    seq(|p|, i requires 0 <= i < |p| => UpperChar(p[i]))
  }

  /** The name a path is filed under: itself, or its uppercase on a server that folds case. */
  function Key(folds: bool, p: Path): Path {
    if folds then Upper(p) else p
  }

  const MAX_LINKS: nat := 40

  /** Where a request that follows links ends up, if anything is there. */
  function Follow(folds: bool, dir: Dir, key: Path, links: nat): Option<Path>
    decreases links
  {
    if key !in dir then None
    else if dir[key].File? then Some(key)
    else if links == 0 then None
    else Follow(folds, dir, Key(folds, dir[key].target), links - 1)
  }

  function Resolve(folds: bool, dir: Dir, p: Path): Option<Path> {
    Follow(folds, dir, Key(folds, p), MAX_LINKS)
  }

  // --- requests and answers -----------------------------------------------------------------------------

  datatype Request =
    | OpenNew(path: Path, mode: nat)          // WRITE | CREAT | EXCL
    | OpenRead(path: Path)
    | Write(handle: nat, data: seq<int>)
    | Fsync(handle: nat)
    | CheckFile(handle: nat)
    | Close(handle: nat)
    | Stat(path: Path)
    | Lstat(path: Path)
    | Rename(source: Path, dest: Path)
    | PosixRename(source: Path, dest: Path)
    | SetTimes(path: Path, mtime: int)
    | SetLinkMode(path: Path, mode: nat)
    | Symlink(target: Path, link: Path)
    | Remove(path: Path)

  /** What a session call may raise. The first three are `ServerError`s. */
  datatype Failure = NoSuchFile | OpUnsupported | OtherStatus | Capability | Transfer | Disconnected {
    predicate IsServerError() {
      NoSuchFile? || OpUnsupported? || OtherStatus?
    }
  }

  /** Attributes as reported: a server may leave out either field. */
  datatype Attrs = Attrs(permissions: Option<nat>, mtime: Option<int>)

  datatype Answer =
    | Done
    | Handle(handle: nat)
    | Wrote(count: nat)
    | Reported(attrs: Attrs)
    | Digests(algorithm: string, digests: seq<seq<int>>)
    | Failed(failure: Failure)

  /** The extensions a server may advertise that a write battery exercises. */
  datatype Extension = PosixRenames | Fsyncs | LsetStats | ChecksFiles

  datatype RawState = State(dir: Dir, open: map<nat, Path>, nextHandle: nat)

  type State = s: RawState | forall h :: h in s.open ==> h < s.nextHandle
    witness State(map[], map[], 0)

  // --- what any server may do ----------------------------------------------------------------------------

  /** The filed names a request concerns. */
  function Footprint(folds: bool, s: State, req: Request): set<Path> {
    match req
    case OpenNew(p, _) => {Key(folds, p)}
    case Write(h, _) => if h in s.open then {s.open[h]} else {}
    case Rename(a, b) => {Key(folds, a), Key(folds, b)}
    case PosixRename(a, b) => {Key(folds, a), Key(folds, b)}
    case SetTimes(p, _) => Target(folds, s.dir, p)
    case SetLinkMode(p, _) => {Key(folds, p)} + Target(folds, s.dir, p)
    case Symlink(_, l) => {Key(folds, l)}
    case Remove(p) => {Key(folds, p)}
    case _ => {}
  }

  function Target(folds: bool, dir: Dir, p: Path): set<Path> {
    var r := Resolve(folds, dir, p);
    if r.Some? then {r.value} else {}
  }

  predicate MayCreate(req: Request) {
    req.OpenNew? || req.Rename? || req.PosixRename? || req.Symlink?
  }

  predicate MayDelete(req: Request) {
    req.Rename? || req.PosixRename? || req.Remove?
  }

  predicate SameOutside(a: Dir, b: Dir, names: set<Path>) {
    && (forall k :: k in a && k !in names ==> k in b && b[k] == a[k])
    && (forall k :: k in b && k !in names ==> k in a)
  }

  /** A link in the footprint afterwards is the one asked for, or was in the footprint before. */
  predicate PlantsNoLink(folds: bool, s: State, req: Request, s': State) {
    forall k :: k in Footprint(folds, s, req) && k in s'.dir && s'.dir[k].Link? ==>
      || (req.Symlink? && s'.dir[k].target == req.target)
      || (exists j :: j in Footprint(folds, s, req) && j in s.dir && s.dir[j].Link?
                      && s.dir[j].target == s'.dir[k].target)
  }

  predicate AllowedEffect(folds: bool, s: State, req: Request, s': State) {
    && SameOutside(s.dir, s'.dir, Footprint(folds, s, req))
    && PlantsNoLink(folds, s, req, s')
    && (!MayCreate(req) ==> s'.dir.Keys <= s.dir.Keys)
    && (!MayDelete(req) ==> s.dir.Keys <= s'.dir.Keys)
    && (forall h :: h in s'.open ==>
          || (h in s.open && s'.open[h] == s.open[h])
          || (req.OpenNew? && s'.open[h] == Key(folds, req.path))
          || (req.OpenRead? && Resolve(folds, s.dir, req.path) == Some(s'.open[h])))
  }

  /** A report of a node: each field is right or absent. */
  predicate Truthful(attrs: Attrs, node: Node) {
    && (attrs.permissions.Some? ==> attrs.permissions.value == node.mode)
    && (attrs.mtime.Some? ==> node.File? && attrs.mtime.value == node.mtime)
  }

  function FullReport(node: Node): Attrs {
    Attrs(Some(node.mode), if node.File? then Some(node.mtime) else None)
  }

  predicate AllowedAnswer(folds: bool, s: State, req: Request, s': State, a: Answer) {
    if a.Failed? && a.failure != NoSuchFile then true
    else
       match req
       case OpenNew(_, _) => a.Failed? || (a.Handle? && a.handle !in s.open)
       case OpenRead(_) => a.Failed? || (a.Handle? && a.handle !in s.open)
       case Write(_, data) => a.Failed? || (a.Wrote? && a.count <= |data|)
       case CheckFile(_) => a.Failed? || a.Digests?
       case Stat(p) =>
         var r := Resolve(folds, s.dir, p);
         if a.Reported? then r.Some? && r.value in s.dir && Truthful(a.attrs, s.dir[r.value])
         else a == Failed(NoSuchFile) && r.None?
       case Lstat(p) =>
         var k := Key(folds, p);
         if a.Reported? then k in s.dir && Truthful(a.attrs, s.dir[k])
         else a == Failed(NoSuchFile) && k !in s.dir
       case Remove(p) =>
         (a == Done || a == Failed(NoSuchFile)) && Key(folds, p) !in s'.dir
       case _ => a.Failed? || a == Done
  }

  predicate Allowed(folds: bool, s: State, req: Request, s': State, a: Answer) {
    AllowedEffect(folds, s, req, s') && AllowedAnswer(folds, s, req, s', a)
  }

  // --- what a server does that performs, answers and permits everything --------------------------------------

  function Moved(dir: Dir, source: Path, dest: Path): Dir
    requires source in dir
  {
    (dir - {source})[dest := dir[source]]
  }

  /** A file's content after `data` is written at offset 0. */
  function Overwritten(content: seq<int>, data: seq<int>): seq<int> {
    data + if |data| < |content| then content[|data|..] else []
  }

  predicate Faithful(folds: bool, s: State, req: Request, s': State, a: Answer) {
    match req
    case OpenNew(p, _) =>
      var k := Key(folds, p);
      if k in s.dir then s' == s && a == Failed(OtherStatus)
      else
        && a == Handle(s.nextHandle) && s'.open == s.open[s.nextHandle := k]
        && k in s'.dir && s'.dir[k].File? && s'.dir[k].content == [] && s'.dir == s.dir[k := s'.dir[k]]
    case OpenRead(p) =>
      var r := Resolve(folds, s.dir, p);
      if r.None? then s' == s && a == Failed(NoSuchFile)
      else a == Handle(s.nextHandle) && s'.open == s.open[s.nextHandle := r.value] && s'.dir == s.dir
    case Write(h, data) =>
      if h !in s.open then s' == s && a.Failed?
      else if s.open[h] in s.dir && s.dir[s.open[h]].File? then
        var k := s.open[h];
        && s'.open == s.open && a == Wrote(|data|) && SameOutside(s.dir, s'.dir, {k})
        && k in s'.dir && s'.dir[k].File? && s'.dir[k].mode == s.dir[k].mode
        && s'.dir[k].content == Overwritten(s.dir[k].content, data)
      else s' == s && a == Wrote(|data|)
    case Fsync(h) => s' == s && (h in s.open ==> a == Done || a == Failed(OpUnsupported))
    case CheckFile(h) => s' == s && (h in s.open ==> a.Digests?)
    case Close(h) =>
      && s'.dir == s.dir && s'.open == s.open - {h} && (h in s.open ==> a == Done)
    case Stat(p) =>
      var r := Resolve(folds, s.dir, p);
      s' == s && a == if r.Some? && r.value in s.dir then Reported(FullReport(s.dir[r.value])) else Failed(NoSuchFile)
    case Lstat(p) =>
      var k := Key(folds, p);
      s' == s && a == if k in s.dir then Reported(FullReport(s.dir[k])) else Failed(NoSuchFile)
    case Rename(x, y) => FaithfulRename(s, Key(folds, x), Key(folds, y), s', a)
    case PosixRename(x, y) => FaithfulRename(s, Key(folds, x), Key(folds, y), s', a)
    case SetTimes(p, m) =>
      var r := Resolve(folds, s.dir, p);
      s'.open == s.open &&
      if r.Some? && r.value in s.dir && s.dir[r.value].File? then
        a == Done && s'.dir == s.dir[r.value := s.dir[r.value].(mtime := m)]
      else a == Failed(NoSuchFile) && s'.dir == s.dir
    case SetLinkMode(p, m) =>
      var k := Key(folds, p);
      s'.open == s.open &&
      if a == Done then k in s.dir && s'.dir == s.dir[k := s.dir[k].(mode := m)]
      else a.Failed? && a.failure.IsServerError() && s'.dir == s.dir
    case Symlink(t, l) =>
      var k := Key(folds, l);
      if k in s.dir then s' == s && a == Failed(OtherStatus)
      else s'.open == s.open && a == Done && k in s'.dir && s'.dir == s.dir[k := s'.dir[k]] && s'.dir[k].Link?
    case Remove(p) =>
      && s'.open == s.open && s'.dir == s.dir - {Key(folds, p)}
      && a == if Key(folds, p) in s.dir then Done else Failed(NoSuchFile)
  }

  /** A rename moves the node, or is refused and changes nothing; onto an existing name, either is real. */
  predicate FaithfulRename(s: State, source: Path, dest: Path, s': State, a: Answer) {
    s'.open == s.open &&
    if a == Done then source in s.dir && s'.dir == Moved(s.dir, source, dest)
    else a.Failed? && a.failure.IsServerError() && s' == s
  }

  /** One faithful answer to every request, so the description above is met by something. */
  function Comply(folds: bool, s: State, req: Request): (State, Answer) {
    match req
    case OpenNew(p, mode) =>
      var k := Key(folds, p);
      if k in s.dir then (s, Failed(OtherStatus))
      else (State(s.dir[k := File(mode, 0, [])], s.open[s.nextHandle := k], s.nextHandle + 1), Handle(s.nextHandle))
    case OpenRead(p) =>
      var r := Resolve(folds, s.dir, p);
      if r.None? then (s, Failed(NoSuchFile))
      else (State(s.dir, s.open[s.nextHandle := r.value], s.nextHandle + 1), Handle(s.nextHandle))
    case Write(h, data) =>
      if h !in s.open then (s, Failed(OtherStatus))
      else if s.open[h] in s.dir && s.dir[s.open[h]].File? then
        var k := s.open[h];
        var node := s.dir[k].(content := Overwritten(s.dir[k].content, data));
        (State(s.dir[k := node], s.open, s.nextHandle), Wrote(|data|))
      else (s, Wrote(|data|))
    case Fsync(h) => (s, if h in s.open then Done else Failed(OtherStatus))
    case CheckFile(h) => (s, if h in s.open then Digests("", []) else Failed(OtherStatus))
    case Close(h) => (State(s.dir, s.open - {h}, s.nextHandle), if h in s.open then Done else Failed(OtherStatus))
    case Stat(p) =>
      var r := Resolve(folds, s.dir, p);
      (s, if r.Some? && r.value in s.dir then Reported(FullReport(s.dir[r.value])) else Failed(NoSuchFile))
    case Lstat(p) =>
      var k := Key(folds, p);
      (s, if k in s.dir then Reported(FullReport(s.dir[k])) else Failed(NoSuchFile))
    case SetTimes(p, m) =>
      var r := Resolve(folds, s.dir, p);
      if r.Some? && r.value in s.dir && s.dir[r.value].File? then
        (State(s.dir[r.value := s.dir[r.value].(mtime := m)], s.open, s.nextHandle), Done)
      else (s, Failed(NoSuchFile))
    case Symlink(t, l) =>
      var k := Key(folds, l);
      if k in s.dir then (s, Failed(OtherStatus))
      else (State(s.dir[k := Link(t, 0)], s.open, s.nextHandle), Done)
    case Remove(p) =>
      (State(s.dir - {Key(folds, p)}, s.open, s.nextHandle),
       if Key(folds, p) in s.dir then Done else Failed(NoSuchFile))
    case _ => (s, Failed(OtherStatus))
  }

  lemma {:induction false} FollowEndsAtAFile(folds: bool, dir: Dir, key: Path, links: nat)
    ensures var r := Follow(folds, dir, key, links); r.Some? ==> r.value in dir && dir[r.value].File?
    decreases links
  {
    if key in dir && dir[key].Link? && links > 0 {
      FollowEndsAtAFile(folds, dir, Key(folds, dir[key].target), links - 1);
    }
  }

  lemma ComplyIsFaithful(folds: bool, s: State, req: Request)
    ensures var (s', a) := Comply(folds, s, req); Faithful(folds, s, req, s', a)
  {
    match req {
      case SetTimes(p, _) => FollowEndsAtAFile(folds, s.dir, Key(folds, p), MAX_LINKS);
      case _ =>
    }
  }

  lemma ComplyHasAnAllowedEffect(folds: bool, s: State, req: Request)
    ensures AllowedEffect(folds, s, req, Comply(folds, s, req).0)
  {
    if req.SetTimes? {
      FollowEndsAtAFile(folds, s.dir, Key(folds, req.path), MAX_LINKS);
    }
  }

  lemma ComplyIsAllowed(folds: bool, s: State, req: Request)
    ensures var (s', a) := Comply(folds, s, req); Allowed(folds, s, req, s', a)
  {
    hide AllowedEffect;
    ComplyHasAnAllowedEffect(folds, s, req);
    if req.Stat? {
      FollowEndsAtAFile(folds, s.dir, Key(folds, req.path), MAX_LINKS);
    }
  }

  /** One request as it was served. */
  datatype Exchange = Exchange(before: State, request: Request, answer: Answer, after: State)

  function RequestsOf(log: seq<Exchange>): (r: seq<Request>)
    ensures |r| == |log|
  {
    seq(|log|, i requires 0 <= i < |log| => log[i].request)
  }

  // --- the server ------------------------------------------------------------------------------------------------

  /**
   Answers every request in any way its kind allows. `owed` is the handles a client still has to close,
   `log` is every request so far.
   */
  class Server {
    const folds: bool
    const faithful: bool
    const advertised: set<Extension>
    var state: State
    ghost var owed: multiset<nat>
    ghost var log: seq<Exchange>

    constructor (folds: bool, faithful: bool, advertised: set<Extension>, state: State)
      ensures this.folds == folds && this.faithful == faithful && this.advertised == advertised
      ensures this.state == state && owed == multiset{} && log == []
    {
      this.folds, this.faithful, this.advertised, this.state := folds, faithful, advertised, state;
      owed, log := multiset{}, [];
    }

    method Send(req: Request) returns (a: Answer)
      modifies this
      ensures log == old(log) + [Exchange(old(state), req, a, state)]
      ensures Allowed(folds, old(state), req, state, a)
      ensures faithful ==> Faithful(folds, old(state), req, state, a)
      ensures owed == if a.Handle? then old(owed) + multiset{a.handle}
                      else if req.Close? then old(owed) - multiset{req.handle} else old(owed)
    {
      ghost var before := state;
      state, a := Choose(state, req);
      log := log + [Exchange(before, req, a, state)];
      if a.Handle? {
        owed := owed + multiset{a.handle};
      } else if req.Close? {
        owed := owed - multiset{req.handle};
      }
    }

    /** Any allowed outcome at all, and any faithful one from a faithful server. */
    method Choose(s: State, req: Request) returns (s': State, a: Answer)
      ensures Allowed(folds, s, req, s', a)
      ensures faithful ==> Faithful(folds, s, req, s', a)
    {
      s', a := *, *;
      if !(Allowed(folds, s, req, s', a) && (faithful ==> Faithful(folds, s, req, s', a))) {
        var complied := Comply(folds, s, req);
        s', a := complied.0, complied.1;
        ComplyIsFaithful(folds, s, req);
        ComplyIsAllowed(folds, s, req);
      }
    }
  }
}
