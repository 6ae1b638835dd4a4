/** The requests the write probes are made of, each as it is sent to a server under the rules of `Battery`. */
module Requests {
  import opened Wrappers
  import opened Remote
  import opened Battery
  import opened Transcripts

  lemma LogGrows(log: seq<Exchange>, a: seq<Exchange>, b: seq<Exchange>)
    ensures log + a + b == log + (a + b)
  {
  }

  // --- creating a scratch file -----------------------------------------------------------------------

  /** A file stands at `key`, and everything else is as it was. */
  ghost predicate Created(before: Dir, after: Dir, key: Path) {
    key in after && after[key].File? && SameOutside(before, after, {key})
  }

  /** The file at `key` holds exactly `content`. */
  ghost predicate Holds(dir: Dir, key: Path, content: seq<int>) {
    key in dir && dir[key].File? && dir[key].content == content
  }

  /** An exclusive open under a claimed name. The handle, if one is told, is owed a CLOSE. */
  method OpenScratch(server: Server, scratch: Scratch, path: Path) returns (a: Answer, ghost x: Exchange)
    requires Tidy(server, scratch) && Key(server.folds, path) in KeysOf(server.folds, scratch.claimed)
    modifies server
    ensures Tidy(server, scratch)
    ensures a.Handle? || a.Failed?
    ensures server.owed == if a.Handle? then old(server.owed) + multiset{a.handle} else old(server.owed)
    ensures a.Handle? && a.handle in server.state.open ==>
              server.state.open[a.handle] in KeysOf(server.folds, scratch.claimed)
    ensures server.faithful ==> (a.Handle? <==> Key(server.folds, path) !in old(server.state.dir))
    ensures server.faithful && a.Failed? ==> server.state == old(server.state)
    ensures server.faithful && a.Handle? ==>
              && a.handle !in old(server.state.open)
              && server.state.open == old(server.state.open)[a.handle := Key(server.folds, path)]
              && Created(old(server.state.dir), server.state.dir, Key(server.folds, path))
              && Holds(server.state.dir, Key(server.folds, path), [])
    ensures x == Exchange(old(server.state), OpenNew(path, PROBE_MODE), a, server.state)
    ensures server.log == old(server.log) + [x]
  {
    ghost var was := server.state;
    a := Ask(server, scratch, OpenNew(path, PROBE_MODE));
    x := Exchange(was, OpenNew(path, PROBE_MODE), a, server.state);
  }

  lemma NothingTouched(before: Dir, after: Dir)
    requires SameOutside(before, after, {})
    ensures after == before
  {
  }

  method CloseHandle(server: Server, scratch: Scratch, handle: nat)
    returns (raised: Option<Failure>, ghost x: Exchange)
    requires Tidy(server, scratch)
    modifies server
    ensures Tidy(server, scratch)
    ensures server.owed == old(server.owed) - multiset{handle}
    ensures x.request == Close(handle) && raised == Raises(x)
    ensures server.log == old(server.log) + [x]
    ensures server.state.dir == old(server.state.dir)
    ensures server.faithful ==> server.state.open == old(server.state.open) - {handle}
    ensures server.faithful && handle in old(server.state.open) ==> raised.None?
  {
    ghost var was := server.state;
    var a := Ask(server, scratch, Close(handle));
    NothingTouched(was.dir, server.state.dir);
    raised := if a.Failed? then Some(a.failure) else None;
    x := Exchange(was, Close(handle), a, server.state);
  }

  lemma WritingNothing(dir: Dir)
    ensures forall k :: k in dir && dir[k].File? ==> Overwritten(dir[k].content, []) == dir[k].content
  {
    forall k | k in dir && dir[k].File? ensures Overwritten(dir[k].content, []) == dir[k].content {
      assert dir[k].content[0..] == dir[k].content;
    }
  }

  method WriteAt(server: Server, scratch: Scratch, handle: nat, data: seq<int>)
    returns (a: Answer, ghost seg: seq<Exchange>)
    requires Tidy(server, scratch)
    requires handle in server.state.open ==>
               server.state.open[handle] in KeysOf(server.folds, scratch.claimed)
    modifies server
    ensures Tidy(server, scratch)
    ensures server.owed == old(server.owed)
    ensures if data == [] then a == Wrote(0) else a.Failed? || (a.Wrote? && a.count <= |data|)
    ensures server.log == old(server.log) + seg
    ensures if data == [] then seg == [] else |seg| == 1 && seg[0].request == Write(handle, data) && seg[0].answer == a
    ensures server.faithful ==> server.state.open == old(server.state.open)
    ensures server.faithful && handle in old(server.state.open) ==> a == Wrote(|data|)
    ensures server.faithful && handle in old(server.state.open) ==>
              var k := old(server.state.open)[handle];
              k in old(server.state.dir) && old(server.state.dir)[k].File? ==>
                && Created(old(server.state.dir), server.state.dir, k)
                && Holds(server.state.dir, k, Overwritten(old(server.state.dir)[k].content, data))
  {
    if data == [] {
      WritingNothing(server.state.dir);
      return Wrote(0), [];
    }
    ghost var was := server.state;
    a := Ask(server, scratch, Write(handle, data));
    seg := [Exchange(was, Write(handle, data), a, server.state)];
  }

  lemma CreatedThenWritten(before: Dir, made: Dir, after: Dir, key: Path, data: seq<int>)
    requires Created(before, made, key) && Holds(made, key, [])
    requires Created(made, after, key) && Holds(after, key, Overwritten([], data))
    ensures Created(before, after, key) && Holds(after, key, data)
  {
  }

  /** Creates a file that must not exist, and closes the handle whether or not the write went through. */
  method Create(server: Server, scratch: Scratch, path: Path, contents: seq<int>)
    returns (raised: Option<Failure>, ghost seg: seq<Exchange>)
    requires Tidy(server, scratch) && Key(server.folds, path) in KeysOf(server.folds, scratch.claimed)
    modifies server
    ensures Tidy(server, scratch)
    ensures server.owed == old(server.owed)
    ensures server.faithful ==> server.state.open == old(server.state.open)
    ensures server.faithful ==> (raised.None? <==> Key(server.folds, path) !in old(server.state.dir))
    ensures server.faithful ==>
              if raised.None? then
                && Created(old(server.state.dir), server.state.dir, Key(server.folds, path))
                && Holds(server.state.dir, Key(server.folds, path), contents)
              else server.state.dir == old(server.state.dir)
    ensures server.log == old(server.log) + seg
    ensures CreateTold(seg, path, contents, raised)
  {
    hide Tidy, Created, Overwritten, SameOutside, KeysOf, CreateTold, FillTold;
    ghost var start, before, key := server.log, server.state.dir, Key(server.folds, path);
    var handed, x := OpenScratch(server, scratch, path);
    if handed.Failed? {
      CreateNotOpened(x, path, contents, handed.failure);
      return Some(handed.failure), [x];
    }
    ghost var made := server.state.dir;
    ghost var rest;
    raised, rest := FillAndClose(server, scratch, handed.handle, contents);
    seg := [x] + rest;
    LogGrows(start, [x], rest);
    CreateWentOn(x, rest, path, contents, raised);
    if server.faithful {
      CreatedThenWritten(before, made, server.state.dir, key, contents);
    }
  }

  /** Writing what there is to write and closing, read off the exchanges. */
  ghost predicate FillTold(seg: seq<Exchange>, handle: nat, contents: seq<int>, raised: Option<Failure>) {
    if contents == [] then |seg| == 1 && seg[0].request == Close(handle) && raised == Raises(seg[0])
    else
      && |seg| == 2 && seg[0].request == Write(handle, contents) && seg[1].request == Close(handle)
      && raised == if Raises(seg[1]).Some? then Raises(seg[1]) else Raises(seg[0])
  }

  lemma CreateNotOpened(x: Exchange, path: Path, contents: seq<int>, failure: Failure)
    requires x.request == OpenNew(path, 384) && x.answer == Failed(failure)
    ensures CreateTold([x], path, contents, Some(failure))
  {
  }

  lemma CreateWentOn(x: Exchange, rest: seq<Exchange>, path: Path, contents: seq<int>, raised: Option<Failure>)
    requires x.request == OpenNew(path, 384) && x.answer.Handle?
    requires FillTold(rest, x.answer.handle, contents, raised)
    ensures CreateTold([x] + rest, path, contents, raised)
  {
  }

  /** Writes what there is to write, and closes whatever came of it; a failed close hides a failed write. */
  method FillAndClose(server: Server, scratch: Scratch, handle: nat, contents: seq<int>)
    returns (raised: Option<Failure>, ghost seg: seq<Exchange>)
    requires Tidy(server, scratch)
    requires handle in server.state.open ==> server.state.open[handle] in KeysOf(server.folds, scratch.claimed)
    modifies server
    ensures Tidy(server, scratch)
    ensures server.owed == old(server.owed) - multiset{handle}
    ensures server.faithful ==> server.state.open == old(server.state.open) - {handle}
    ensures server.faithful && handle in old(server.state.open) ==> raised.None?
    ensures server.faithful && handle in old(server.state.open) ==>
              var k := old(server.state.open)[handle];
              k in old(server.state.dir) && old(server.state.dir)[k].File? ==>
                && Created(old(server.state.dir), server.state.dir, k)
                && Holds(server.state.dir, k, Overwritten(old(server.state.dir)[k].content, contents))
    ensures server.log == old(server.log) + seg
    ensures FillTold(seg, handle, contents, raised)
  {
    hide Tidy, Created, Overwritten;
    ghost var start := server.log;
    var wrote, written := WriteAt(server, scratch, handle, contents);
    raised := if wrote.Failed? then Some(wrote.failure) else None;
    var closed, x := CloseHandle(server, scratch, handle);
    seg := written + [x];
    LogGrows(start, written, [x]);
    if closed.Some? {
      raised := closed;
    }
  }

  /** A read: nothing moves, and what is reported is so. */
  method StatPath(server: Server, scratch: Scratch, path: Path) returns (a: Answer, ghost x: Exchange)
    requires Tidy(server, scratch)
    modifies server
    ensures Tidy(server, scratch)
    ensures server.owed == old(server.owed) && server.state.dir == old(server.state.dir)
    ensures server.faithful ==> server.state == old(server.state)
    ensures x == Exchange(old(server.state), Stat(path), a, server.state) && server.log == old(server.log) + [x]
    ensures a.Reported? || a.Failed?
    ensures a.Reported? ==>
              var r := Resolve(server.folds, server.state.dir, path);
              r.Some? && r.value in server.state.dir && Truthful(a.attrs, server.state.dir[r.value])
    ensures a == Failed(NoSuchFile) ==> Resolve(server.folds, server.state.dir, path).None?
    ensures server.faithful ==> (a.Reported? <==> Resolve(server.folds, server.state.dir, path).Some?)
    ensures server.faithful && a.Failed? ==> a == Failed(NoSuchFile)
    ensures server.faithful && a.Reported? ==>
              a.attrs == FullReport(server.state.dir[Resolve(server.folds, server.state.dir, path).value])
  {
    ghost var was := server.state;
    FollowEndsAtAFile(server.folds, was.dir, Key(server.folds, path), MAX_LINKS);
    a := Ask(server, scratch, Stat(path));
    NothingTouched(was.dir, server.state.dir);
    x := Exchange(was, Stat(path), a, server.state);
  }

  method LstatPath(server: Server, scratch: Scratch, path: Path) returns (a: Answer, ghost x: Exchange)
    requires Tidy(server, scratch)
    modifies server
    ensures Tidy(server, scratch)
    ensures server.owed == old(server.owed) && server.state.dir == old(server.state.dir)
    ensures server.faithful ==> server.state == old(server.state)
    ensures x == Exchange(old(server.state), Lstat(path), a, server.state) && server.log == old(server.log) + [x]
    ensures a.Reported? || a.Failed?
    ensures a.Reported? ==>
              var k := Key(server.folds, path);
              k in server.state.dir && Truthful(a.attrs, server.state.dir[k])
    ensures server.faithful && Key(server.folds, path) in server.state.dir ==>
              a == Reported(FullReport(server.state.dir[Key(server.folds, path)]))
  {
    ghost var was := server.state;
    a := Ask(server, scratch, Lstat(path));
    NothingTouched(was.dir, server.state.dir);
    x := Exchange(was, Lstat(path), a, server.state);
  }

  /** A change the probes make at claimed names: it may be refused, and closes no handle. */
  method Change(server: Server, scratch: Scratch, req: Request)
    returns (raised: Option<Failure>, ghost x: Exchange)
    requires Tidy(server, scratch)
    requires req.Rename? || req.PosixRename? || req.SetTimes? || req.SetLinkMode? || req.Symlink?
    requires Within(server.folds, server.state, req, KeysOf(server.folds, scratch.claimed))
    modifies server
    ensures Tidy(server, scratch)
    ensures server.owed == old(server.owed)
    ensures x == Exchange(old(server.state), req, if raised.None? then Done else Failed(raised.value), server.state)
    ensures server.log == old(server.log) + [x]
    ensures server.faithful ==> server.state.open == old(server.state.open)
    ensures server.faithful && (req.Rename? || req.PosixRename?) ==>
              FaithfulRename(old(server.state), Key(server.folds, req.source), Key(server.folds, req.dest),
                             server.state, if raised.None? then Done else Failed(raised.value))
    ensures server.faithful && req.SetLinkMode? && raised.Some? ==> raised.value.IsServerError()
    ensures server.faithful && (req.SetLinkMode? || req.SetTimes?) ==>
              server.state.dir.Keys == old(server.state.dir).Keys
    ensures server.faithful && req.SetTimes? ==>
              var before := old(server.state.dir);
              var k := Key(server.folds, req.path);
              k in before && before[k].File? ==>
                raised.None? && server.state.dir == before[k := before[k].(mtime := req.mtime)]
    ensures server.faithful && req.SetLinkMode? && raised.None? ==>
              var before := old(server.state.dir);
              var k := Key(server.folds, req.path);
              k in before && server.state.dir == before[k := before[k].(mode := req.mode)]
    ensures server.faithful && req.Symlink? ==>
              if Key(server.folds, req.link) in old(server.state.dir) then raised.Some?
              else raised.None? && Key(server.folds, req.link) in server.state.dir
                   && SameOutside(old(server.state.dir), server.state.dir, {Key(server.folds, req.link)})
  {
    ghost var was := server.state;
    var a := Ask(server, scratch, req);
    raised := if a.Failed? then Some(a.failure) else None;
    x := Exchange(was, req, a, server.state);
  }

  /** A request on an open handle that changes no name. */
  method HandleQuery(server: Server, scratch: Scratch, req: Request) returns (a: Answer, ghost x: Exchange)
    requires Tidy(server, scratch) && (req.Fsync? || req.CheckFile?)
    modifies server
    ensures Tidy(server, scratch)
    ensures server.owed == old(server.owed) && server.state.dir == old(server.state.dir)
    ensures server.faithful ==> server.state == old(server.state)
    ensures x == Exchange(old(server.state), req, a, server.state) && server.log == old(server.log) + [x]
    ensures a.Failed? || (if req.Fsync? then a == Done else a.Digests?)
    ensures server.faithful && req.Fsync? && req.handle in server.state.open ==> a == Done || a == Failed(OpUnsupported)
    ensures server.faithful && req.CheckFile? && req.handle in server.state.open ==> a.Digests?
  {
    ghost var was := server.state;
    a := Ask(server, scratch, req);
    NothingTouched(was.dir, server.state.dir);
    x := Exchange(was, req, a, server.state);
  }

  method OpenToRead(server: Server, scratch: Scratch, path: Path) returns (a: Answer, ghost x: Exchange)
    requires Tidy(server, scratch)
    modifies server
    ensures Tidy(server, scratch)
    ensures x == Exchange(old(server.state), OpenRead(path), a, server.state) && server.log == old(server.log) + [x]
    ensures a.Handle? || a.Failed?
    ensures server.owed == if a.Handle? then old(server.owed) + multiset{a.handle} else old(server.owed)
    ensures server.faithful && a.Failed? ==> server.state.open == old(server.state.open)
    ensures server.faithful ==> server.state.dir == old(server.state.dir)
    ensures server.faithful && Key(server.folds, path) in old(server.state.dir)
            && old(server.state.dir)[Key(server.folds, path)].File? ==>
              a.Handle?
    ensures server.faithful && a.Handle? ==>
              a.handle in server.state.open && server.state.open - {a.handle} == old(server.state.open)
  {
    ghost var was := server.state;
    a := Ask(server, scratch, OpenRead(path));
    x := Exchange(was, OpenRead(path), a, server.state);
  }

  /** Claims two names and creates a file at each. */
  method CreateTwo(server: Server, scratch: Scratch, first: ScratchName, second: ScratchName)
    returns (raised: Option<Failure>, a: Path, b: Path, ghost seg: seq<Exchange>)
    requires Tidy(server, scratch) && first in Claims(server.advertised) && second in Claims(server.advertised)
    modifies server, scratch
    ensures Tidy(server, scratch) && server.owed == old(server.owed)
    ensures a == ScratchPath(scratch.directory, scratch.runId, first)
    ensures b == ScratchPath(scratch.directory, scratch.runId, second)
    ensures scratch.claimed == old(scratch.claimed) + [a, b]
    ensures Key(server.folds, a) in KeysOf(server.folds, scratch.claimed)
    ensures Key(server.folds, b) in KeysOf(server.folds, scratch.claimed)
    ensures server.faithful ==> server.state.open == old(server.state.open)
    ensures server.faithful && raised.None? ==>
              Key(server.folds, a) in server.state.dir && Key(server.folds, b) in server.state.dir
    ensures server.faithful && Key(server.folds, a) != Key(server.folds, b)
            && Key(server.folds, a) !in old(server.state.dir) && Key(server.folds, b) !in old(server.state.dir) ==>
              raised.None?
    ensures server.log == old(server.log) + seg
    ensures Follows(seg, TwoCreates(seg, a, b)) && LastFailure(seg) == raised
    ensures |seg| <= 4 && (raised.None? ==> |seg| == 4)
  {
    hide ScratchPath, Tidy, Claims, KeysOf, Holds, CreateTold, Follows, TwoCreates;
    a := Register(server, scratch, first);
    b := Register(server, scratch, second);
    ghost var start := server.log;
    raised, seg := Create(server, scratch, a, []);
    if raised.Some? {
      FirstCreateStopped(seg, a, b, raised);
      return;
    }
    ghost var made := seg;
    ghost var more;
    raised, more := Create(server, scratch, b, []);
    seg := made + more;
    LogGrows(start, made, more);
    TwoCreatesFollow(made, more, a, b, raised);
  }

  lemma FirstCreateStopped(seg: seq<Exchange>, a: Path, b: Path, raised: Option<Failure>)
    requires CreateTold(seg, a, [], raised) && raised.Some?
    ensures Follows(seg, TwoCreates(seg, a, b)) && LastFailure(seg) == raised && |seg| <= 4
  {
    EmptyCreateFollows(seg, a, raised);
    FollowsStopped(seg, CreateScript(seg, 0, a), CreateScript(seg, 2, b));
  }

  lemma TwoCreatesFollow(made: seq<Exchange>, more: seq<Exchange>, a: Path, b: Path, raised: Option<Failure>)
    requires CreateTold(made, a, [], None) && CreateTold(more, b, [], raised)
    ensures Follows(made + more, TwoCreates(made + more, a, b)) && LastFailure(made + more) == raised
    ensures |made + more| <= 4 && (raised.None? ==> |made + more| == 4)
  {
    EmptyCreateFollows(made, a, None);
    EmptyCreateFollows(more, b, raised);
    FollowsOn(made, CreateScript(made, 0, a), more, CreateScript(more, 0, b));
    var seg := made + more;
    assert CreateScript(seg, 0, a) == CreateScript(made, 0, a) && CreateScript(seg, 2, b) == CreateScript(more, 0, b);
  }
}
