/**
 The connection lifecycle of src/gantry_sftp/fsspec.py: one filesystem object opens a connection on
 first use, drops it on close, and is copied, connection and all, into every process a fork makes.
 */
module Adapter {
  import opened Wrappers

  // --- one attempt to connect -----------------------------------------------------------------------------------

  /** What a connection is made of, in the order it is entered. */
  datatype Context = Portal | Session

  const WHOLE: seq<Context> := [Portal, Session]

  datatype Step = Enter(context: Context) | Exit(context: Context)

  /** Where an attempt may raise: starting the portal, connecting through it, or changing directory. */
  datatype Stage = AtPortal | AtSession | AtChdir

  /** A connection is named by the attempt that opened it. */
  type Conn = nat

  function Entering(contexts: seq<Context>): seq<Step> {
    seq(|contexts|, i requires 0 <= i < |contexts| => Enter(contexts[i]))
  }

  /** One exit each, last first. */
  function Exiting(contexts: seq<Context>): seq<Step> {
    seq(|contexts|, i requires 0 <= i < |contexts| => Exit(contexts[|contexts| - 1 - i]))
  }

  /** What is still entered after some steps; `None` if one exits anything but the innermost. */
  function Replay(steps: seq<Step>): Option<seq<Context>> {
    if steps == [] then Some([])
    else
      var before :- Replay(steps[..|steps| - 1]);
      match steps[|steps| - 1]
      case Enter(c) => Some(before + [c])
      case Exit(c) => if before != [] && before[|before| - 1] == c then Some(before[..|before| - 1]) else None
  }

  /** No context is entered twice. */
  ghost predicate EnteredOnce(steps: seq<Step>) {
    forall i, j :: 0 <= i < j < |steps| && steps[i].Enter? && steps[j].Enter? ==> steps[i] != steps[j]
  }

  lemma ReplaySnoc(steps: seq<Step>, step: Step)
    ensures (steps + [step])[..|steps|] == steps && (steps + [step])[|steps|] == step
  {
  }

  /** Exiting what is entered, last first, leaves nothing entered. */
  lemma {:induction false} ReplayOfExits(steps: seq<Step>, held: seq<Context>)
    requires Replay(steps) == Some(held)
    ensures Replay(steps + Exiting(held)) == Some([])
    decreases |held|
  {
    if held == [] {
      assert steps + Exiting(held) == steps;
    } else {
      var last, rest := held[|held| - 1], held[..|held| - 1];
      ReplaySnoc(steps, Exit(last));
      ReplayOfExits(steps + [Exit(last)], rest);
      assert Exiting(held) == [Exit(last)] + Exiting(rest);
      assert steps + Exiting(held) == steps + [Exit(last)] + Exiting(rest);
    }
  }

  lemma {:induction false} ReplayOfEntering(contexts: seq<Context>)
    ensures Replay(Entering(contexts)) == Some(contexts)
  {
    if contexts != [] {
      var last, rest := contexts[|contexts| - 1], contexts[..|contexts| - 1];
      ReplayOfEntering(rest);
      assert Entering(contexts) == Entering(rest) + [Enter(last)];
      ReplaySnoc(Entering(rest), Enter(last));
      assert rest + [last] == contexts;
    }
  }

  lemma ExitsEnterNothing(steps: seq<Step>, held: seq<Context>)
    requires EnteredOnce(steps)
    ensures EnteredOnce(steps + Exiting(held))
  {
  }

  lemma EachOnce(contexts: seq<Context>)
    requires contexts <= WHOLE
    ensures EnteredOnce(Entering(contexts))
  {
  }

  /** Whether an attempt gets through; there is nothing to change to without a working directory. */
  predicate Connects(chdirs: bool, raises: Option<Stage>) {
    raises.None? || (raises == Some(AtChdir) && !chdirs)
  }

  /** What had been entered when a stage raised. */
  function EnteredBefore(stage: Stage): seq<Context> {
    match stage
    case AtPortal => []
    case AtSession => [Portal]
    case AtChdir => WHOLE
  }

  /** The contexts an attempt enters, and then exits if it raised. */
  function AttemptSteps(chdirs: bool, raises: Option<Stage>): seq<Step> {
    if Connects(chdirs, raises) then Entering(WHOLE)
    else Entering(EnteredBefore(raises.value)) + Exiting(EnteredBefore(raises.value))
  }

  /** An attempt owns the whole connection or, wherever it raised, has nothing of it left entered. */
  lemma AttemptOwnsAllOrNothing(chdirs: bool, raises: Option<Stage>)
    ensures Replay(AttemptSteps(chdirs, raises)) == Some(if Connects(chdirs, raises) then WHOLE else [])
    ensures EnteredOnce(AttemptSteps(chdirs, raises))
  {
    hide Replay, Exiting, EnteredOnce;
    var entered := if Connects(chdirs, raises) then WHOLE else EnteredBefore(raises.value);
    ReplayOfEntering(entered);
    EachOnce(entered);
    ReplayOfExits(Entering(entered), entered);
    ExitsEnterNothing(Entering(entered), entered);
  }

  /** Python's `ExitStack`, with a record of every context it entered and exited. */
  class ExitStack {
    const conn: Conn
    var held: seq<Context>
    ghost var steps: seq<Step>

    constructor (conn: Conn)
      ensures this.conn == conn && held == [] && steps == []
    {
      this.conn, held, steps := conn, [], [];
    }

    /** A context that raises on the way in is not one to exit. */
    method EnterContext(context: Context, raises: bool) returns (entered: bool)
      modifies this
      ensures entered == !raises
      ensures held == old(held) + if entered then [context] else []
      ensures steps == old(steps) + if entered then [Enter(context)] else []
    {
      if raises {
        return false;
      }
      held, steps := held + [context], steps + [Enter(context)];
      return true;
    }

    method Close()
      modifies this
      ensures held == [] && steps == old(steps) + Exiting(old(held))
    {
      while held != []
        invariant |held| <= |old(held)| && held == old(held)[..|held|]
        invariant steps == old(steps) + Exiting(old(held))[..|old(held)| - |held|]
      {
        var last := held[|held| - 1];
        held, steps := held[..|held| - 1], steps + [Exit(last)];
      }
    }
  }

  // --- one process ----------------------------------------------------------------------------------------------

  type Pid = int

  /** A stack as it is held: whose connection, and what of it is entered. */
  datatype Stack = Stack(conn: Conn, held: seq<Context>)

  /** The three fields the lock guards. */
  datatype Instance = Instance(stack: Option<Stack>, session: Option<Conn>, ownerPid: Option<Pid>)

  const UNCONNECTED := Instance(None, None, None)

  function Accessed(inst: Instance, pid: Pid, c: Conn, chdirs: bool, raises: Option<Stage>): Instance {
    if inst.session.None? && Connects(chdirs, raises) then Instance(Some(Stack(c, WHOLE)), Some(c), Some(pid)) else inst
  }

  /** What `close` unwinds, once it has let go of the lock. */
  function ToUnwind(inst: Instance, pid: Pid): Option<Stack> {
    if inst.stack.Some? && inst.ownerPid == Some(pid) then inst.stack else None
  }

  class FileSystem {
    const chdirs: bool
    var stack: ExitStack?
    var session: Option<Conn>
    var ownerPid: Option<Pid>

    ghost function View(): Instance
      reads this, stack
    {
      Instance(if stack == null then None else Some(Stack(stack.conn, stack.held)), session, ownerPid)
    }

    constructor (chdirs: bool)
      ensures this.chdirs == chdirs && View() == UNCONNECTED
    {
      this.chdirs, stack, session, ownerPid := chdirs, null, None, None;
    }

    /** `c` names the attempt this access makes if it makes one; `steps` is what that attempt did. */
    method Sftp(pid: Pid, c: Conn, raises: Option<Stage>) returns (r: Option<Conn>, ghost steps: seq<Step>)
      modifies this
      ensures View() == Accessed(old(View()), pid, c, chdirs, raises)
      ensures r == View().session
      ensures steps == if old(session).None? then AttemptSteps(chdirs, raises) else []
      ensures old(session).Some? ==> View() == old(View())
      ensures old(session).None? && raises.Some? && (raises.value != AtChdir || chdirs) ==>
                r.None? && View() == old(View()) && Replay(steps) == Some([])
      ensures old(session).None? && (raises.None? || (raises.value == AtChdir && !chdirs)) ==>
                && r == Some(c) && Replay(steps) == Some([Portal, Session])
                && View() == Instance(Some(Stack(c, [Portal, Session])), Some(c), Some(pid))
    {
      AttemptOwnsAllOrNothing(chdirs, raises);
      steps := [];
      if session.None? {
        var dialled;
        dialled, steps := Connect(pid, c, raises);
        if dialled.None? {
          return None, steps;
        }
        session := dialled;
      }
      r := session;
    }

    /** Nothing is recorded before everything is entered, and a raise anywhere unwinds what was. */
    method Connect(pid: Pid, c: Conn, raises: Option<Stage>) returns (r: Option<Conn>, ghost steps: seq<Step>)
      modifies this
      ensures session == old(session) && r == if Connects(chdirs, raises) then Some(c) else None
      ensures steps == AttemptSteps(chdirs, raises)
      ensures Replay(steps) == Some(if r.Some? then WHOLE else [])
      ensures r.None? <==> raises.Some? && (raises.value != AtChdir || chdirs)
      ensures if r.Some? then fresh(stack) && stack.conn == c && stack.held == WHOLE && ownerPid == Some(pid)
              else stack == old(stack) && ownerPid == old(ownerPid)
    {
      AttemptOwnsAllOrNothing(chdirs, raises);
      var entering := new ExitStack(c);
      var ok := EnterAll(entering, raises);
      if !ok {
        entering.Close();
        return None, entering.steps;
      }
      stack, ownerPid := entering, Some(pid);
      return Some(c), entering.steps;
    }

    /** The guarded part: false is an exception, at whatever stage it came. */
    method EnterAll(entering: ExitStack, raises: Option<Stage>) returns (ok: bool)
      requires entering.held == [] && entering.steps == []
      modifies entering
      ensures ok == Connects(chdirs, raises)
      ensures ok <==> raises.None? || (raises.value == AtChdir && !chdirs)
      ensures entering.held == match raises
                               case None => [Portal, Session]
                               case Some(AtPortal) => []
                               case Some(AtSession) => [Portal]
                               case Some(AtChdir) => [Portal, Session]
      ensures entering.held == if ok then WHOLE else EnteredBefore(raises.value)
      ensures entering.steps == Entering(entering.held)
    {
      ok := entering.EnterContext(Portal, raises == Some(AtPortal));
      if !ok {
        return;
      }
      ok := entering.EnterContext(Session, raises == Some(AtSession));
      if !ok {
        return;
      }
      assert raises.None? || raises.value.AtPortal? || raises.value.AtSession? || raises.value.AtChdir?;
      ok := !(chdirs && raises == Some(AtChdir));
    }

    /** `unwound` is the stack this close unwound, if it was this process's to unwind. */
    method Close(pid: Pid) returns (unwound: ExitStack?)
      modifies this, stack
      ensures View() == UNCONNECTED
      ensures unwound == if old(ownerPid) == Some(pid) then old(stack) else null
      ensures ToUnwind(old(View()), pid).Some? <==> unwound != null
      ensures unwound != null ==>
                && unwound.held == []
                && unwound.steps == old(if stack != null then stack.steps + Exiting(stack.held) else [])
      ensures unwound == null && old(stack) != null ==>
                old(stack).held == old(if stack != null then stack.held else [])
                && old(stack).steps == old(if stack != null then stack.steps else [])
    {
      var held, owner := stack, ownerPid;
      stack, session, ownerPid := null, None, None;
      if held != null && owner == Some(pid) {
        held.Close();
        return held;
      }
      return null;
    }
  }

  // --- every process there is ------------------------------------------------------------------------------------

  /** A process, and the stacks its threads have detached and not finished unwinding. */
  datatype Process = Process(pid: Pid, inst: Instance, unwinding: seq<Stack>)

  /** Who made an attempt, what was entered and exited in it, and by which processes, as indices. */
  datatype Connection = Connection(opener: nat, steps: seq<Step>, hands: set<nat>)

  datatype World = World(chdirs: bool, procs: seq<Process>, conns: seq<Connection>)

  datatype Event =
    | Access(p: nat, raises: Option<Stage>)
    | Close(p: nat)
    | Unwind(p: nat, k: nat)
    | Fork(p: nat, childPid: Pid)

  predicate Enabled(w: World, ev: Event) {
    && ev.p < |w.procs|
    && (ev.Unwind? ==> ev.k < |w.procs[ev.p].unwinding| && w.procs[ev.p].unwinding[ev.k].conn < |w.conns|)
  }

  /** A fork copies the object; only the forking thread goes on in the child, so no unwinding does. */
  function Next(w: World, ev: Event): World
    requires Enabled(w, ev)
  {
    var me := w.procs[ev.p];
    match ev
    case Access(p, raises) =>
      if me.inst.session.Some? then w
      else
        var c := |w.conns|;
        w.(procs := w.procs[p := me.(inst := Accessed(me.inst, me.pid, c, w.chdirs, raises))],
           conns := w.conns + [Connection(p, AttemptSteps(w.chdirs, raises), {p})])
    case Close(p) =>
      var gone := ToUnwind(me.inst, me.pid);
      w.(procs := w.procs[p := Process(me.pid, UNCONNECTED, me.unwinding + if gone.Some? then [gone.value] else [])])
    case Unwind(p, k) =>
      var s := me.unwinding[k];
      var was := w.conns[s.conn];
      w.(procs := w.procs[p := me.(unwinding := me.unwinding[..k] + me.unwinding[k + 1..])],
         conns := w.conns[s.conn := Connection(was.opener, was.steps + Exiting(s.held), was.hands + {p})])
    case Fork(p, childPid) =>
      w.(procs := w.procs + [Process(childPid, me.inst, [])])
  }

  /** The process holds the stack and believes it is its own. */
  ghost predicate Owns(q: Process, s: Stack) {
    q.inst.stack == Some(s) && q.inst.ownerPid == Some(q.pid)
  }

  ghost predicate IsWhole(inst: Instance) {
    && (inst.stack.Some? <==> inst.session.Some?) && (inst.stack.Some? <==> inst.ownerPid.Some?)
    && (inst.stack.Some? ==> inst.session == Some(inst.stack.value.conn))
  }

  /** Process `i` made the connection, alone, and exactly what the stack holds of it is still entered. */
  ghost predicate OpenFor(w: World, s: Stack, i: nat) {
    s.conn < |w.conns| && w.conns[s.conn].opener == i && Sane(w.conns[s.conn])
    && Replay(w.conns[s.conn].steps) == Some(s.held)
  }

  /** Nobody but its opener ever touched it, and no context was entered or exited twice or out of order. */
  ghost predicate Sane(x: Connection) {
    x.hands <= {x.opener} && EnteredOnce(x.steps) && Replay(x.steps).Some?
  }

  ghost predicate AllSane(w: World) {
    forall x :: x in w.conns ==> Sane(x)
  }

  /** Every connection and every process spoken of exists. */
  ghost predicate Grounded(w: World) {
    && (forall i :: 0 <= i < |w.procs| ==> IsWhole(w.procs[i].inst))
    && (forall i :: 0 <= i < |w.procs| && w.procs[i].inst.stack.Some? ==> w.procs[i].inst.stack.value.conn < |w.conns|)
    && (forall c :: 0 <= c < |w.conns| ==> w.conns[c].opener < |w.procs|)
  }

  ghost predicate Sound(w: World) {
    && Grounded(w) && AllSane(w)
    && (forall i, s :: 0 <= i < |w.procs| && Owns(w.procs[i], s) ==> OpenFor(w, s, i))
    && (forall i, s, k :: 0 <= i < |w.procs| && Owns(w.procs[i], s) && 0 <= k < |w.procs[i].unwinding| ==>
          w.procs[i].unwinding[k].conn != s.conn)
    && (forall i, k :: 0 <= i < |w.procs| && 0 <= k < |w.procs[i].unwinding| ==> OpenFor(w, w.procs[i].unwinding[k], i))
    && (forall i, j, k :: 0 <= i < |w.procs| && 0 <= j < k < |w.procs[i].unwinding| ==>
          w.procs[i].unwinding[j].conn != w.procs[i].unwinding[k].conn)
  }

  /** The child's pid is not the one recorded in the object it inherits. */
  ghost predicate FreshPid(w: World, ev: Event) {
    ev.Fork? && ev.p < |w.procs| ==> w.procs[ev.p].inst.ownerPid != Some(ev.childPid)
  }

  lemma StepStaysGrounded(w: World, ev: Event)
    requires Grounded(w) && Enabled(w, ev)
    ensures Grounded(Next(w, ev))
  {
  }

  lemma AccessStaysSound(w: World, ev: Event)
    requires Sound(w) && Enabled(w, ev) && ev.Access?
    ensures Sound(Next(w, ev))
  {
    hide AttemptSteps, EnteredOnce, Replay;
    StepStaysGrounded(w, ev);
    AttemptOwnsAllOrNothing(w.chdirs, ev.raises);
    var w' := Next(w, ev);
    forall i, s | 0 <= i < |w'.procs| && Owns(w'.procs[i], s) ensures OpenFor(w', s, i) {
      if s.conn < |w.conns| {
        assert Owns(w.procs[i], s);
      }
    }
    forall i, s, k | 0 <= i < |w'.procs| && Owns(w'.procs[i], s) && 0 <= k < |w'.procs[i].unwinding|
      ensures w'.procs[i].unwinding[k].conn != s.conn
    {
      assert w'.procs[i].unwinding == w.procs[i].unwinding;
      assert OpenFor(w, w.procs[i].unwinding[k], i);
      if s.conn < |w.conns| {
        assert Owns(w.procs[i], s);
      }
    }
  }

  lemma SameConnections(w: World, w': World)
    requires w'.conns == w.conns
    ensures forall s, i :: OpenFor(w, s, i) ==> OpenFor(w', s, i)
  {
  }

  lemma CloseStaysSound(w: World, ev: Event)
    requires Sound(w) && Enabled(w, ev) && ev.Close?
    ensures Sound(Next(w, ev))
  {
    hide Replay, OpenFor, Grounded;
    StepStaysGrounded(w, ev);
    var w', me := Next(w, ev), w.procs[ev.p];
    SameConnections(w, w');
    forall i, s | 0 <= i < |w'.procs| && Owns(w'.procs[i], s) ensures OpenFor(w', s, i) && Owns(w.procs[i], s) {
      assert Owns(w.procs[i], s);
    }
    if ToUnwind(me.inst, me.pid).Some? {
      assert Owns(me, me.inst.stack.value);
    }
  }

  lemma UnwoundStaysSane(x: Connection, held: seq<Context>)
    requires Sane(x) && Replay(x.steps) == Some(held)
    ensures Sane(Connection(x.opener, x.steps + Exiting(held), x.hands + {x.opener}))
  {
    ReplayOfExits(x.steps, held);
    ExitsEnterNothing(x.steps, held);
  }

  lemma UnwindStaysSound(w: World, ev: Event)
    requires Sound(w) && Enabled(w, ev) && ev.Unwind?
    ensures Sound(Next(w, ev))
  {
    hide Replay, Exiting, Sane, Grounded;
    StepStaysGrounded(w, ev);
    var w', me := Next(w, ev), w.procs[ev.p];
    var gone := me.unwinding[ev.k];
    assert OpenFor(w, gone, ev.p);
    UnwoundStaysSane(w.conns[gone.conn], gone.held);
    forall i, s | 0 <= i < |w'.procs| && Owns(w'.procs[i], s) ensures OpenFor(w', s, i) && Owns(w.procs[i], s) {
      assert Owns(w.procs[i], s);
      assert OpenFor(w, s, i);
    }
    forall i, k | 0 <= i < |w'.procs| && 0 <= k < |w'.procs[i].unwinding|
      ensures OpenFor(w', w'.procs[i].unwinding[k], i)
    {
      var at := if i == ev.p && k >= ev.k then k + 1 else k;
      assert w'.procs[i].unwinding[k] == w.procs[i].unwinding[at];
      assert OpenFor(w, w.procs[i].unwinding[at], i);
    }
  }

  lemma ForkStaysSound(w: World, ev: Event)
    requires Sound(w) && Enabled(w, ev) && ev.Fork? && FreshPid(w, ev)
    ensures Sound(Next(w, ev))
  {
    StepStaysGrounded(w, ev);
    var w' := Next(w, ev);
    forall i, s | 0 <= i < |w'.procs| && Owns(w'.procs[i], s) ensures OpenFor(w', s, i) && i < |w.procs| {
      assert i < |w.procs|;
      assert Owns(w.procs[i], s);
    }
  }

  lemma StepStaysSound(w: World, ev: Event)
    requires Sound(w) && Enabled(w, ev) && FreshPid(w, ev)
    ensures Sound(Next(w, ev))
  {
    match ev {
      case Access(_, _) => AccessStaysSound(w, ev);
      case Close(_) => CloseStaysSound(w, ev);
      case Unwind(_, _) => UnwindStaysSound(w, ev);
      case Fork(_, _) => ForkStaysSound(w, ev);
    }
  }

  ghost predicate IsRun(ws: seq<World>, evs: seq<Event>) {
    |ws| == |evs| + 1 && forall i :: 0 <= i < |evs| ==> Enabled(ws[i], evs[i]) && ws[i + 1] == Next(ws[i], evs[i])
  }

  ghost predicate Initial(w: World) {
    |w.procs| == 1 && w.procs[0].inst == UNCONNECTED && w.procs[0].unwinding == [] && w.conns == []
  }

  /** Every fork before step `upTo` gives the child a pid other than the recorded one. */
  ghost predicate FreshForks(ws: seq<World>, evs: seq<Event>, upTo: nat)
    requires IsRun(ws, evs)
  {
    forall k :: 0 <= k < upTo && k < |evs| ==> FreshPid(ws[k], evs[k])
  }

  lemma {:induction false} RunStaysSound(ws: seq<World>, evs: seq<Event>, i: nat)
    requires IsRun(ws, evs) && i < |ws|
    requires Sound(ws[0]) && FreshForks(ws, evs, i)
    ensures Sound(ws[i])
  {
    if i > 0 {
      RunStaysSound(ws, evs, i - 1);
      StepStaysSound(ws[i - 1], evs[i - 1]);
    }
  }

  /**
   Over any run of accesses, closes and forks, in parents and children and between the halves of a close,
   every context of every connection is exited at most once, innermost first, and all of it by the process
   that entered it.
   */
  lemma EachConnectionIsClosedOnceByItsOpener(ws: seq<World>, evs: seq<Event>, i: nat)
    requires IsRun(ws, evs) && Initial(ws[0]) && i < |ws| && FreshForks(ws, evs, i)
    ensures Sound(ws[i]) && AllSane(ws[i])
  {
    RunStaysSound(ws, evs, i);
  }

  // --- the pid is the whole of the guard ---------------------------------------------------------------------------

  /** What a child that was given the recorded pid does to the connection it inherited, when it closes. */
  lemma ReusedPidUnwindsAForeignConnection(w: World, p: nat, childPid: Pid) returns (ws: seq<World>, evs: seq<Event>)
    requires Grounded(w) && p < |w.procs| && !FreshPid(w, Fork(p, childPid))
    ensures IsRun(ws, evs) && ws[0] == Next(w, Fork(p, childPid)) && FreshForks(ws, evs, |evs|)
    ensures evs == [Close(|w.procs|), Unwind(|w.procs|, 0)]
    ensures var c := w.procs[p].inst.stack.value.conn;
            c < |ws[2].conns| && |w.procs| in ws[2].conns[c].hands && |w.procs| != ws[2].conns[c].opener
    ensures !AllSane(ws[2])
  {
    var forked, child := Next(w, Fork(p, childPid)), |w.procs|;
    var s := w.procs[p].inst.stack.value;
    var closed := Next(forked, Close(child));
    assert closed.procs[child].unwinding == [s];
    var after := Next(closed, Unwind(child, 0));
    ws, evs := [forked, closed, after], [Close(child), Unwind(child, 0)];
    assert after.conns[s.conn] in after.conns;
  }

  /** Everything that can follow a fork, with fresh pids from then on, leaves connections to their openers. */
  ghost predicate SafeEverAfter(w: World) {
    forall ws, evs :: IsRun(ws, evs) && ws[0] == w && FreshForks(ws, evs, |evs|) ==> AllSane(ws[|evs|])
  }

  /**
   At any fork of any run so far without a reused pid: what follows can only be safe exactly when the child's
   pid is not the one its copy of the object records.
   */
  lemma ForkIsSafeExactlyWhenThePidIsFresh(ws: seq<World>, evs: seq<Event>, i: nat)
    requires IsRun(ws, evs) && Initial(ws[0]) && i < |evs| && FreshForks(ws, evs, i) && evs[i].Fork?
    ensures SafeEverAfter(ws[i + 1]) <==> FreshPid(ws[i], evs[i])
  {
    RunStaysSound(ws, evs, i);
    assert ws[i + 1] == Next(ws[i], evs[i]);
    if FreshPid(ws[i], evs[i]) {
      StepStaysSound(ws[i], evs[i]);
      forall us, fvs | IsRun(us, fvs) && us[0] == ws[i + 1] && FreshForks(us, fvs, |fvs|) ensures AllSane(us[|fvs|]) {
        RunStaysSound(us, fvs, |fvs|);
      }
    } else {
      var us, fvs := ReusedPidUnwindsAForeignConnection(ws[i], evs[i].p, evs[i].childPid);
      assert us[|fvs|] == us[2];
    }
  }

  /** And there is such a fork: a grandchild that is given the pid of the process that connected. */
  lemma AReusedPidIsReachable(w: World, childPid: Pid) returns (ws: seq<World>, evs: seq<Event>)
    requires Initial(w) && childPid != w.procs[0].pid
    ensures IsRun(ws, evs) && ws[0] == w && |evs| == 3 && FreshForks(ws, evs, 2)
    ensures evs[2] == Fork(1, w.procs[0].pid) && !FreshPid(ws[2], evs[2])
  {
    var pid := w.procs[0].pid;
    var connected := Next(w, Access(0, None));
    var forked := Next(connected, Fork(0, childPid));
    ws := [w, connected, forked, Next(forked, Fork(1, pid))];
    evs := [Access(0, None), Fork(0, childPid), Fork(1, pid)];
  }

  // --- what accesses and closes do ---------------------------------------------------------------------------------

  ghost predicate Closes(ev: Event, p: nat) {
    ev.Close? && ev.p == p
  }

  /** From a first access until its next close, a process makes no other connection, whatever others do. */
  lemma {:induction false} OneConnectionUntilClosed(ws: seq<World>, evs: seq<Event>, p: nat, i: nat, j: nat)
    requires IsRun(ws, evs) && i <= j < |ws| && p < |ws[i].procs| && ws[i].procs[p].inst.session.Some?
    requires forall k :: i <= k < j ==> !Closes(evs[k], p)
    ensures p < |ws[j].procs| && ws[j].procs[p].inst == ws[i].procs[p].inst
    ensures |ws[i].conns| <= |ws[j].conns|
    ensures forall c :: |ws[i].conns| <= c < |ws[j].conns| ==> ws[j].conns[c].opener != p
    decreases j
  {
    if i < j {
      OneConnectionUntilClosed(ws, evs, p, i, j - 1);
      var w, w' := ws[j - 1], ws[j];
      assert w' == Next(w, evs[j - 1]);
      forall c | |ws[i].conns| <= c < |w'.conns| ensures w'.conns[c].opener != p {
        if c < |w.conns| {
          assert w'.conns[c].opener == w.conns[c].opener;
        }
      }
    }
  }

  /** An access opens a connection exactly when this process's copy holds no session, and it is all there. */
  lemma AccessOpensExactlyWhenUnconnected(w: World, p: nat)
    requires Enabled(w, Access(p, None))
    ensures var after := Next(w, Access(p, None));
            && after.procs[p].inst.session.Some?
            && (w.procs[p].inst.session.Some? ==> after == w)
            && (w.procs[p].inst.session.None? ==>
                  && |after.conns| == |w.conns| + 1
                  && OpenFor(after, Stack(|w.conns|, WHOLE), p) && Owns(after.procs[p], Stack(|w.conns|, WHOLE)))
  {
    AttemptOwnsAllOrNothing(w.chdirs, None);
  }

  /**
   Wherever an attempt raises, no process holds anything of it, and everything it had entered it has exited:
   nothing, the portal, or both.
   */
  lemma FailedAccessLeavesNothing(w: World, p: nat, stage: Stage)
    requires Enabled(w, Access(p, Some(stage))) && w.procs[p].inst.session.None?
    requires stage == AtChdir ==> w.chdirs
    ensures var after := Next(w, Access(p, Some(stage)));
            && after.procs == w.procs && after.conns[..|w.conns|] == w.conns && |after.conns| == |w.conns| + 1
            && Replay(after.conns[|w.conns|].steps) == Some([])
            && after.conns[|w.conns|].steps
               == match stage
                  case AtPortal => []
                  case AtSession => [Enter(Portal), Exit(Portal)]
                  case AtChdir => [Enter(Portal), Enter(Session), Exit(Session), Exit(Portal)]
  {
    AttemptOwnsAllOrNothing(w.chdirs, Some(stage));
    hide Replay, EnteredOnce;
    assert w.procs[p := w.procs[p]] == w.procs;
  }

  /** Without a working directory there is none to change to, and the access goes through. */
  lemma NoDirectoryNoChdir(w: World, p: nat)
    requires Enabled(w, Access(p, Some(AtChdir))) && !w.chdirs
    ensures Next(w, Access(p, Some(AtChdir))) == Next(w, Access(p, None))
  {
  }

  ghost predicate Opens(w: World, ev: Event, p: nat) {
    ev.Access? && ev.p == p && (ev.raises.None? || (ev.raises.value == AtChdir && !w.chdirs))
  }

  /** After a close and until an access that gets through, a process holds nothing, whatever it and others do. */
  lemma {:induction false} NothingHeldUntilAccessed(ws: seq<World>, evs: seq<Event>, p: nat, i: nat, j: nat)
    requires IsRun(ws, evs) && i < j < |ws| && evs[i] == Close(p)
    requires forall k :: i < k < j ==> !Opens(ws[k], evs[k], p)
    ensures p < |ws[j].procs| && ws[j].procs[p].inst == UNCONNECTED && ws[j].procs[p].pid == ws[i].procs[p].pid
    decreases j
  {
    assert ws[j] == Next(ws[j - 1], evs[j - 1]);
    if i + 1 < j {
      NothingHeldUntilAccessed(ws, evs, p, i, j - 1);
    }
  }

  /** The first access to get through after a close opens a connection of its own, however much later it comes. */
  lemma AccessAfterCloseOpensAnew(ws: seq<World>, evs: seq<Event>, p: nat, i: nat, j: nat)
    requires IsRun(ws, evs) && i < j < |evs| && evs[i] == Close(p) && evs[j] == Access(p, None)
    requires forall k :: i < k < j ==> !Opens(ws[k], evs[k], p)
    ensures |ws[j + 1].conns| == |ws[j].conns| + 1
    ensures Owns(ws[j + 1].procs[p], Stack(|ws[j].conns|, WHOLE))
    ensures OpenFor(ws[j + 1], Stack(|ws[j].conns|, WHOLE), p)
  {
    NothingHeldUntilAccessed(ws, evs, p, i, j);
    assert ws[j + 1] == Next(ws[j], evs[j]);
    AccessOpensExactlyWhenUnconnected(ws[j], p);
  }

  /** A process that holds a connection it opened has its own pid on record. */
  ghost predicate OpenersKnow(w: World) {
    forall i :: 0 <= i < |w.procs| && w.procs[i].inst.stack.Some? ==>
      var c := w.procs[i].inst.stack.value.conn;
      c < |w.conns| && (w.conns[c].opener == i ==> w.procs[i].inst.ownerPid == Some(w.procs[i].pid))
  }

  lemma StepKeepsOpenersKnowing(w: World, ev: Event)
    requires Grounded(w) && OpenersKnow(w) && Enabled(w, ev)
    ensures OpenersKnow(Next(w, ev))
  {
    var w' := Next(w, ev);
    forall i | 0 <= i < |w'.procs| && w'.procs[i].inst.stack.Some?
      ensures var c := w'.procs[i].inst.stack.value.conn;
              c < |w'.conns| && (w'.conns[c].opener == i ==> w'.procs[i].inst.ownerPid == Some(w'.procs[i].pid))
    {
      if i < |w.procs| && w'.procs[i].inst == w.procs[i].inst {
        var c := w.procs[i].inst.stack.value.conn;
        assert w'.conns[c].opener == w.conns[c].opener;
      }
    }
  }

  lemma {:induction false} OpenersKnowOverARun(ws: seq<World>, evs: seq<Event>, i: nat)
    requires IsRun(ws, evs) && Initial(ws[0]) && i < |ws|
    ensures Grounded(ws[i]) && OpenersKnow(ws[i])
  {
    if i > 0 {
      OpenersKnowOverARun(ws, evs, i - 1);
      StepStaysGrounded(ws[i - 1], evs[i - 1]);
      StepKeepsOpenersKnowing(ws[i - 1], evs[i - 1]);
    }
  }

  /**
   When a process talks over a connection it did not open, as a forked child's access does: over every run
   with fresh pids, the connection it holds is its own exactly when the pid on record is its own.
   */
  lemma HoldsItsOwnExactlyWhenRecorded(ws: seq<World>, evs: seq<Event>, i: nat, p: nat)
    requires IsRun(ws, evs) && Initial(ws[0]) && i < |ws| && FreshForks(ws, evs, i)
    requires p < |ws[i].procs| && ws[i].procs[p].inst.stack.Some?
    ensures var q := ws[i].procs[p];
            && q.inst.stack.value.conn < |ws[i].conns|
            && (ws[i].conns[q.inst.stack.value.conn].opener == p <==> q.inst.ownerPid == Some(q.pid))
  {
    OpenersKnowOverARun(ws, evs, i);
    RunStaysSound(ws, evs, i);
    if ws[i].procs[p].inst.ownerPid == Some(ws[i].procs[p].pid) {
      assert Owns(ws[i].procs[p], ws[i].procs[p].inst.stack.value);
    }
  }

  /** After a fork, a close in the child unwinds nothing and leaves the parent's connection open to it. */
  lemma CloseInTheChildTouchesNothing(w: World, p: nat, childPid: Pid)
    requires Sound(w) && Enabled(w, Fork(p, childPid)) && FreshPid(w, Fork(p, childPid))
    ensures var forked := Next(w, Fork(p, childPid));
            var child := |w.procs|;
            && Enabled(forked, Close(child))
            && Next(forked, Close(child)).conns == w.conns
            && Next(forked, Close(child)).procs[child] == Process(childPid, UNCONNECTED, [])
            && Next(forked, Close(child)).procs[p] == w.procs[p]
  {
  }
}
