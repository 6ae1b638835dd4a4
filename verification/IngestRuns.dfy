/**
 The ingest job over a directory that changes under it. Files land and vanish at any moment, sweeps
 list, transfer and commit one step at a time, a sweep may be abandoned, and the process may be
 restarted from its stored file. Everything ever transferred is kept as history.
 */
module IngestRuns {
  import opened Wrappers
  import opened Sorting
  import opened Ingest

  /** What is at a name. `content` stands for the bytes, which the job itself never looks at. */
  datatype Item = Item(isFile: bool, stamp: Option<int>, content: int)

  /** One transfer: the stamp is the listed one, the content is what was there when it was fetched. */
  datatype Fetch = Fetch(name: string, stamp: Option<int>, content: int)

  datatype Sweep = Sweep(plan: seq<Entry>, next: nat)

  datatype World = World(
    dir: map<string, Item>,
    mark: Mark,
    disk: Option<Mark>,
    sweep: Option<Sweep>,
    current: seq<Fetch>,   // fetched by the sweep under way
    kept: seq<Fetch>,      // fetched by sweeps that committed
    dropped: seq<Fetch>)   // fetched by sweeps that did not

  datatype Event =
    | Land(name: string, item: Item)
    | Vanish(name: string)
    | List(listing: seq<Entry>)
    | Get
    | Commit
    | Abandon
    | Restart

  function EntryOf(name: string, item: Item): Entry {
    Entry(name, item.stamp, item.isFile)
  }

  /** A listing of `dir`: every name once, with its attributes. */
  ghost predicate Lists(listing: seq<Entry>, dir: map<string, Item>) {
    && (forall e :: e in listing <==> e.name in dir && e == EntryOf(e.name, dir[e.name]))
    && (forall i, j :: 0 <= i < j < |listing| ==> listing[i].name != listing[j].name)
  }

  /** The file `advance` leaves behind. */
  function Written(w: World, taken: seq<Entry>): Option<Mark> {
    if Rewrites(w.mark, taken) then Some(Advanced(w.mark, taken)) else w.disk
  }

  ghost predicate Next(w: World, ev: Event, w': World) {
    match ev
    case Land(name, item) =>
      w' == w.(dir := w.dir[name := item])
    case Vanish(name) =>
      w' == w.(dir := w.dir - {name})
    case List(listing) =>
      && w.sweep.None? && Lists(listing, w.dir)
      && w' == w.(sweep := Some(Sweep(Selected(w.mark, ByName(listing)), 0)))
    case Get =>
      && w.sweep.Some? && w.sweep.value.next < |w.sweep.value.plan|
      && var e := w.sweep.value.plan[w.sweep.value.next];
      && e.name in w.dir && w.dir[e.name].isFile
      && w' == w.(
        sweep := Some(Sweep(w.sweep.value.plan, w.sweep.value.next + 1)),
        current := w.current + [Fetch(e.name, e.modified, w.dir[e.name].content)])
    case Commit =>
      && w.sweep.Some? && w.sweep.value.next == |w.sweep.value.plan|
      && var m := Advanced(w.mark, w.sweep.value.plan);
      && w' == w.(mark := m, disk := Written(w, w.sweep.value.plan), sweep := None,
                  kept := w.kept + w.current, current := [])
    case Abandon =>
      && w.sweep.Some?
      && w' == w.(sweep := None, dropped := w.dropped + w.current, current := [])
    case Restart =>
      w' == w.(mark := Loaded(w.disk), sweep := None, dropped := w.dropped + w.current, current := [])
  }

  /** A run: `ws[0]`, and one world after each event. */
  ghost predicate IsRun(ws: seq<World>, evs: seq<Event>) {
    |ws| == |evs| + 1 && forall i :: 0 <= i < |evs| ==> Next(ws[i], evs[i], ws[i + 1])
  }

  ghost predicate Initial(w: World) {
    w == World(w.dir, NOTHING_TAKEN, None, None, [], [], [])
  }

  // --- the state of the job --------------------------------------------------------------------------

  /** No stamped pair of a name and a time occurs twice. */
  ghost predicate NoPairTwice(fetches: seq<Fetch>) {
    forall i, j :: 0 <= i < j < |fetches| && fetches[i].name == fetches[j].name ==>
      fetches[i].stamp.None? || fetches[i].stamp != fetches[j].stamp
  }

  /** Nothing fetched so far is later than `e`, or is `e` itself; an entry without a time is always new. */
  ghost predicate IsNew(fetches: seq<Fetch>, e: Entry) {
    e.modified.None? ||
    forall f :: f in fetches && f.stamp.Some? ==>
      f.stamp.value < e.modified.value || (f.stamp == e.modified && f.name != e.name)
  }

  /** The same of the entries a sweep is to fetch. */
  ghost predicate IsNewTo(plan: seq<Entry>, e: Entry) {
    e.modified.None? ||
    forall p :: p in plan && p.modified.Some? ==>
      p.modified.value < e.modified.value || (p.modified == e.modified && p.name != e.name)
  }

  /** New against everything committed, and against all that the sweep under way is to commit. */
  ghost predicate WillBeNew(w: World, e: Entry) {
    IsNew(w.kept, e) && (w.sweep.Some? ==> IsNewTo(w.sweep.value.plan, e))
  }

  /** The mark is exactly a summary of what committed sweeps took. */
  ghost predicate Summarises(m: Mark, kept: seq<Fetch>) {
    && (forall f :: f in kept && f.stamp.Some? ==> m.takenAt.Some? && f.stamp.value <= m.takenAt.value)
    && (m.takenAt.None? ==> m.names == {})
    && (m.takenAt.Some? ==> exists f :: f in kept && f.stamp == m.takenAt)
    && (m.takenAt.Some? ==> forall n :: n in m.names <==> exists f :: f in kept && f.stamp == m.takenAt && f.name == n)
  }

  /** The sweep under way: a plan of distinct names the mark wants, fetched in order so far. */
  ghost predicate OnPlan(w: World) {
    match w.sweep
    case None => w.current == []
    case Some(s) =>
      && s.next <= |s.plan| && |w.current| == s.next
      && (forall e :: e in s.plan ==> Wants(w.mark, e))
      && (forall i, j :: 0 <= i < j < |s.plan| ==> s.plan[i].name != s.plan[j].name)
      && (forall i :: 0 <= i < s.next ==>
            w.current[i].name == s.plan[i].name && w.current[i].stamp == s.plan[i].modified)
  }

  ghost predicate Consistent(w: World) {
    && Loaded(w.disk) == w.mark
    && Summarises(w.mark, w.kept)
    && OnPlan(w)
    && NoPairTwice(w.kept)
  }

  /** What the mark wants is what is new against the whole history: the watermark forgets nothing that matters. */
  lemma WantsExactlyTheNew(w: World, e: Entry)
    requires Summarises(w.mark, w.kept)
    ensures Wants(w.mark, e) <==> IsNew(w.kept, e)
  {
    if w.mark.takenAt.Some? {
      var f :| f in w.kept && f.stamp == w.mark.takenAt;
    }
  }

  /** And what the mark about to be reached wants is what will be new. */
  lemma ReachedWantsExactlyTheNew(w: World, e: Entry)
    requires Summarises(w.mark, w.kept)
    ensures Wants(Reached(w), e) <==> WillBeNew(w, e)
  {
    WantsExactlyTheNew(w, e);
    if w.sweep.Some? {
      AdvancedWantsTheNewer(w.mark, w.sweep.value.plan, e);
    }
  }

  lemma AdvancedWantsTheNewer(m: Mark, plan: seq<Entry>, e: Entry)
    ensures Wants(Advanced(m, plan), e) <==> Wants(m, e) && IsNewTo(plan, e)
  {
    var stamps := Stamps(plan);
    forall p | p in plan && p.modified.Some? ensures p.modified.value in stamps {
    }
    if stamps != [] {
      var newest := Largest(stamps);
      var p :| p in plan && p.modified == Some(newest);
    }
  }

  lemma ListingSelects(m: Mark, listing: seq<Entry>, dir: map<string, Item>)
    requires Lists(listing, dir)
    ensures var plan := Selected(m, ByName(listing));
            && (forall e :: e in plan <==> e in listing && Matches(e) && Wants(m, e))
            && (forall i, j :: 0 <= i < j < |plan| ==> plan[i].name != plan[j].name)
  {
    var leq := (a: Entry, b: Entry) => NameLeq(a.name, b.name);
    SortKeepsMembers(leq, listing);
    DistinctSurvivesSort(listing, ByName(listing));
    DistinctSurvivesSelection(m, ByName(listing));
  }

  ghost predicate DistinctNames(s: seq<Entry>) {
    forall i, j :: 0 <= i < j < |s| ==> s[i].name != s[j].name
  }

  lemma {:induction false} DistinctSurvivesSelection(m: Mark, s: seq<Entry>)
    requires DistinctNames(s)
    ensures DistinctNames(Selected(m, s))
  {
    if s == [] {
    } else {
      DistinctSurvivesSelection(m, s[1..]);
      forall e | e in Selected(m, s[1..]) ensures e.name != s[0].name {
        assert e in s[1..];
      }
    }
  }

  lemma DistinctSurvivesSort(s: seq<Entry>, t: seq<Entry>)
    requires DistinctNames(s) && multiset(s) == multiset(t)
    ensures DistinctNames(t)
  {
    forall i, j | 0 <= i < j < |t| ensures t[i].name != t[j].name {
      if t[i].name == t[j].name {
        assert t[i] in multiset(s) && t[j] in multiset(s);
        assert t[i] == t[j];
        var x := t[i];
        assert t == t[..i] + [x] + t[i + 1..j] + [x] + t[j + 1..];
        assert multiset(t)[x] >= 2;
        OnceWhenDistinct(s, x);
      }
    }
  }

  lemma {:induction false} OnceWhenDistinct(s: seq<Entry>, x: Entry)
    requires DistinctNames(s)
    ensures multiset(s)[x] <= 1
  {
    if s == [] {
    } else {
      assert s == [s[0]] + s[1..];
      OnceWhenDistinct(s[1..], x);
      assert s[0] !in s[1..];
      assert s[0] !in multiset(s[1..]);
    }
  }

  // --- nothing is taken twice ----------------------------------------------------------------------------

  lemma CommitKeepsSummary(w: World)
    requires Consistent(w) && w.sweep.Some? && w.sweep.value.next == |w.sweep.value.plan|
    ensures Summarises(Advanced(w.mark, w.sweep.value.plan), w.kept + w.current)
  {
    var plan, m := w.sweep.value.plan, w.mark;
    var a, all := Advanced(m, plan), w.kept + w.current;
    MarksOnlyGrow(m, plan);
    forall f | f in all && f.stamp.Some? ensures a.takenAt.Some? && f.stamp.value <= a.takenAt.value {
      if f !in w.kept {
        var i :| 0 <= i < |w.current| && w.current[i] == f;
        assert plan[i].modified == f.stamp && plan[i] in plan;
        assert f.stamp.value in Stamps(plan);
      }
    }
    if a.takenAt.Some? {
      CommittedAt(w, a.takenAt.value);
      if a.takenAt == m.takenAt {
        var f :| f in w.kept && f.stamp == m.takenAt;
        assert f in all;
      } else {
        var e :| e in plan && e.modified == a.takenAt;
        assert e.name in NamesAt(plan, a.takenAt.value);
      }
    }
  }

  /** Which names a finished sweep fetched at a given stamp, read off its plan. */
  lemma CommittedAt(w: World, t: int)
    requires OnPlan(w) && w.sweep.Some? && w.sweep.value.next == |w.sweep.value.plan|
    ensures forall n :: n in NamesAt(w.sweep.value.plan, t) <==>
              exists f :: f in w.current && f.stamp == Some(t) && f.name == n
  {
    var plan := w.sweep.value.plan;
    forall n | n in NamesAt(plan, t) ensures exists f :: f in w.current && f.stamp == Some(t) && f.name == n {
      var e :| e in plan && e.modified == Some(t) && e.name == n;
      var i :| 0 <= i < |plan| && plan[i] == e;
      assert w.current[i] in w.current;
    }
    forall f | f in w.current && f.stamp == Some(t) ensures f.name in NamesAt(plan, t) {
      var i :| 0 <= i < |w.current| && w.current[i] == f;
      assert plan[i] in plan;
    }
  }

  /** What the mark wants has not been taken: the step that keeps pairs from repeating. */
  lemma WantedIsNew(w: World, e: Entry, f: Fetch)
    requires Summarises(w.mark, w.kept)
    requires Wants(w.mark, e) && f in w.kept
    ensures !(f.name == e.name && f.stamp == e.modified && e.modified.Some?)
  {
  }

  lemma PairsStayDistinct(w: World)
    requires Consistent(w)
    ensures NoPairTwice(w.kept + w.current)
  {
    var all := w.kept + w.current;
    forall i, j | 0 <= i < j < |all| && all[i].name == all[j].name
      ensures all[i].stamp.None? || all[i].stamp != all[j].stamp
    {
      if |w.kept| <= j {
        var b := j - |w.kept|;
        var e := w.sweep.value.plan[b];
        assert all[j] == w.current[b] && e in w.sweep.value.plan;
        if i < |w.kept| {
          WantedIsNew(w, e, all[i]);
        }
      }
    }
  }

  lemma StepKeepsConsistent(w: World, ev: Event, w': World)
    requires Consistent(w) && Next(w, ev, w')
    ensures Consistent(w')
  {
    match ev {
      case List(listing) => ListingSelects(w.mark, listing, w.dir);
      case Commit =>
        CommitKeepsSummary(w);
        PairsStayDistinct(w);
      case _ =>
    }
  }

  lemma {:induction false} RunStaysConsistent(ws: seq<World>, evs: seq<Event>, i: nat)
    requires IsRun(ws, evs) && i < |ws|
    requires Consistent(ws[0])
    ensures Consistent(ws[i])
  {
    if i > 0 {
      RunStaysConsistent(ws, evs, i - 1);
      StepKeepsConsistent(ws[i - 1], evs[i - 1], ws[i]);
    }
  }

  /**
   Over any run of arrivals, removals, sweeps, abandoned sweeps and restarts, no stamped pair is taken
   twice among what sweeps committed and what the one under way has fetched.
   */
  lemma NeverTakenTwice(ws: seq<World>, evs: seq<Event>)
    requires IsRun(ws, evs) && Initial(ws[0])
    ensures var w := ws[|evs|]; NoPairTwice(w.kept + w.current) && Summarises(w.mark, w.kept)
  {
    RunStaysConsistent(ws, evs, |evs|);
    PairsStayDistinct(ws[|evs|]);
  }

  /** Over a run, what was committed stays committed, and only an abandoned sweep stops counting. */
  lemma {:induction false} OnlyAbandoningDrops(ws: seq<World>, evs: seq<Event>, i: nat, j: nat)
    requires IsRun(ws, evs) && i <= j < |ws|
    ensures ws[i].kept <= ws[j].kept && ws[i].dropped <= ws[j].dropped
    ensures (forall k :: i <= k < j ==> !evs[k].Abandon? && !evs[k].Restart?) ==>
              ws[j].dropped == ws[i].dropped && ws[i].kept + ws[i].current <= ws[j].kept + ws[j].current
    ensures (forall k :: i <= k < j ==> !evs[k].Commit?) ==> ws[j].kept == ws[i].kept
    decreases j - i
  {
    if i < j {
      OnlyAbandoningDrops(ws, evs, i, j - 1);
      assert Next(ws[j - 1], evs[j - 1], ws[j]);
    }
  }

  /** What the `Get` at step `i` of a run transfers. */
  ghost function FetchAt(ws: seq<World>, evs: seq<Event>, i: nat): Fetch
    requires IsRun(ws, evs) && i < |evs| && evs[i].Get?
  {
    assert Next(ws[i], evs[i], ws[i + 1]);
    var e := ws[i].sweep.value.plan[ws[i].sweep.value.next];
    Fetch(e.name, e.modified, ws[i].dir[e.name].content)
  }

  /** Between steps `j` and `k`, the sweep that had made fetch `f` was abandoned. */
  ghost predicate AbandonedBetween(ws: seq<World>, evs: seq<Event>, f: Fetch, j: nat, k: nat)
    requires IsRun(ws, evs) && k <= |evs|
  {
    exists m :: j < m < k && (evs[m].Abandon? || evs[m].Restart?) && f in ws[m].current
  }

  lemma {:induction false} FetchIsCountedUntilAbandoned(ws: seq<World>, evs: seq<Event>, j: nat, k: nat)
    requires IsRun(ws, evs) && j < k <= |evs| && evs[j].Get?
    ensures var f := FetchAt(ws, evs, j);
            f in ws[k].kept || f in ws[k].current || AbandonedBetween(ws, evs, f, j, k)
    decreases k
  {
    assert Next(ws[k - 1], evs[k - 1], ws[k]);
    if j + 1 < k {
      FetchIsCountedUntilAbandoned(ws, evs, j, k - 1);
      var f := FetchAt(ws, evs, j);
      if AbandonedBetween(ws, evs, f, j, k - 1) {
        var m :| j < m < k - 1 && (evs[m].Abandon? || evs[m].Restart?) && f in ws[m].current;
        assert AbandonedBetween(ws, evs, f, j, k);
      } else if f in ws[k - 1].current && (evs[k - 1].Abandon? || evs[k - 1].Restart?) {
        assert AbandonedBetween(ws, evs, f, j, k);
      }
    }
  }

  /**
   A stamped pair fetched at two moments of a run was first fetched by a sweep that was abandoned in
   between: nothing else is ever taken again.
   */
  lemma OnlyAnAbandonedSweepIsRetaken(ws: seq<World>, evs: seq<Event>, j: nat, i: nat)
    requires IsRun(ws, evs) && j < i < |evs| && Consistent(ws[0])
    requires evs[j].Get? && evs[i].Get?
    requires FetchAt(ws, evs, j).name == FetchAt(ws, evs, i).name
    requires FetchAt(ws, evs, j).stamp == FetchAt(ws, evs, i).stamp && FetchAt(ws, evs, i).stamp.Some?
    ensures AbandonedBetween(ws, evs, FetchAt(ws, evs, j), j, i)
  {
    var f, w, w' := FetchAt(ws, evs, j), ws[i], ws[i + 1];
    FetchIsCountedUntilAbandoned(ws, evs, j, i);
    RunStaysConsistent(ws, evs, i + 1);
    PairsStayDistinct(w');
    assert Next(w, evs[i], w');
    assert w'.kept + w'.current == w.kept + w.current + [FetchAt(ws, evs, i)];
    if f in w.kept + w.current {
      NewestIsNew(w.kept + w.current, FetchAt(ws, evs, i), f);
    }
  }

  lemma NewestIsNew(before: seq<Fetch>, newest: Fetch, f: Fetch)
    requires NoPairTwice(before + [newest]) && f in before
    ensures f.name == newest.name && f.stamp.Some? ==> f.stamp != newest.stamp
  {
    var all := before + [newest];
    var x :| 0 <= x < |before| && before[x] == f;
    assert all[x] == f && all[|before|] == newest;
  }

  /** Between sweeps, rebuilding the watermark from its file changes nothing at all. */
  lemma RestartBetweenSweepsIsInvisible(ws: seq<World>, evs: seq<Event>, i: nat)
    requires IsRun(ws, evs) && i < |evs| && Consistent(ws[0])
    requires evs[i] == Restart && ws[i].sweep.None?
    ensures ws[i + 1] == ws[i]
  {
    RunStaysConsistent(ws, evs, i);
  }

  /** The watermark never moves back over a run. */
  lemma {:induction false} WatermarkNeverMovesBack(ws: seq<World>, evs: seq<Event>, i: nat, j: nat)
    requires IsRun(ws, evs) && i <= j < |ws| && Consistent(ws[0])
    ensures ws[i].mark.takenAt.Some? ==>
              ws[j].mark.takenAt.Some? && ws[i].mark.takenAt.value <= ws[j].mark.takenAt.value
    decreases j - i
  {
    if i < j {
      WatermarkNeverMovesBack(ws, evs, i, j - 1);
      RunStaysConsistent(ws, evs, j - 1);
      assert Next(ws[j - 1], evs[j - 1], ws[j]);
      if evs[j - 1].Commit? {
        MarksOnlyGrow(ws[j - 1].mark, ws[j - 1].sweep.value.plan);
      }
    }
  }

  // --- nothing is lost -----------------------------------------------------------------------------------

  ghost predicate Fetched(fetches: seq<Fetch>, name: string, content: int) {
    exists f :: f in fetches && f.name == name && f.content == content
  }

  /** The mark the job will stand at once the sweep under way, if any, has committed. */
  function Reached(w: World): Mark {
    match w.sweep
    case None => w.mark
    case Some(s) => Advanced(w.mark, s.plan)
  }

  ghost predicate StillPlanned(w: World, name: string) {
    w.sweep.Some? && exists i :: w.sweep.value.next <= i < |w.sweep.value.plan| && w.sweep.value.plan[i].name == name
  }

  /** `name` is safe: its present content was committed, or is fetched or still to be, or is still new. */
  ghost predicate Safe(w: World, name: string)
    requires name in w.dir
  {
    var item := w.dir[name];
    || Fetched(w.kept, name, item.content)
    || (&& IsNew(w.kept, EntryOf(name, item))
        && (|| Fetched(w.current, name, item.content)
            || WillBeNew(w, EntryOf(name, item))
            || StillPlanned(w, name)))
  }

  /**
   What an arrival must look like: new against what is committed, in case the sweep under way is abandoned;
   and, in case it commits, new against what it commits too or at a name it has still to fetch.
   */
  ghost predicate LandsSafely(w: World, ev: Event) {
    ev.Land? && Matches(EntryOf(ev.name, ev.item)) ==>
      && IsNew(w.kept, EntryOf(ev.name, ev.item))
      && (WillBeNew(w, EntryOf(ev.name, ev.item)) || StillPlanned(w, ev.name))
  }

  /** Every arrival at `n` before step `upTo` is a safe one. */
  ghost predicate ArrivesSafely(ws: seq<World>, evs: seq<Event>, n: string, upTo: nat)
    requires IsRun(ws, evs)
  {
    forall k :: 0 <= k < upTo && k < |evs| && evs[k].Land? && evs[k].name == n ==> LandsSafely(ws[k], evs[k])
  }

  ghost predicate NotLost(w: World, n: string) {
    n in w.dir && Matches(EntryOf(n, w.dir[n])) ==> Safe(w, n)
  }

  lemma FetchedGrows(a: seq<Fetch>, b: seq<Fetch>, name: string, content: int)
    ensures Fetched(a, name, content) ==> Fetched(a + b, name, content)
    ensures Fetched(b, name, content) ==> Fetched(a + b, name, content)
  {
    if Fetched(a, name, content) {
      var f :| f in a && f.name == name && f.content == content;
      assert f in a + b;
    }
    if Fetched(b, name, content) {
      var f :| f in b && f.name == name && f.content == content;
      assert f in a + b;
    }
  }

  lemma ListKeepsSafe(w: World, listing: seq<Entry>, w': World, n: string)
    requires Consistent(w) && Next(w, List(listing), w')
    requires n in w.dir && Matches(EntryOf(n, w.dir[n])) && Safe(w, n)
    ensures Safe(w', n)
  {
    var e := EntryOf(n, w.dir[n]);
    if !Fetched(w.kept, n, w.dir[n].content) {
      ListingSelects(w.mark, listing, w.dir);
      var plan := w'.sweep.value.plan;
      assert e in listing && e in plan;
      var i :| 0 <= i < |plan| && plan[i] == e;
      assert StillPlanned(w', n);
    }
  }

  lemma GetFetchesOrLeavesPlanned(w: World, w': World, n: string, content: int)
    requires Next(w, Get, w') && n in w.dir && w.dir[n].content == content
    requires Fetched(w.current, n, content) || StillPlanned(w, n)
    ensures Fetched(w'.current, n, content) || StillPlanned(w', n)
  {
    var plan, next := w.sweep.value.plan, w.sweep.value.next;
    var got := Fetch(plan[next].name, plan[next].modified, w.dir[plan[next].name].content);
    FetchedGrows(w.current, [got], n, content);
    if plan[next].name == n {
      assert got in [got];
      assert Fetched([got], n, content);
    } else if StillPlanned(w, n) {
      var i :| next <= i < |plan| && plan[i].name == n;
      assert next + 1 <= i;
      assert StillPlanned(w', n);
    }
  }

  lemma GetKeepsSafe(w: World, w': World, n: string)
    requires Consistent(w) && Next(w, Get, w')
    requires n in w.dir && Matches(EntryOf(n, w.dir[n])) && Safe(w, n)
    ensures Safe(w', n)
  {
    if Fetched(w.current, n, w.dir[n].content) || StillPlanned(w, n) {
      GetFetchesOrLeavesPlanned(w, w', n, w.dir[n].content);
    }
  }

  lemma StepLosesNothing(w: World, ev: Event, w': World, n: string)
    requires Consistent(w) && Next(w, ev, w')
    requires NotLost(w, n) && (ev.Land? && ev.name == n ==> LandsSafely(w, ev))
    ensures NotLost(w', n)
  {
    if n in w'.dir && Matches(EntryOf(n, w'.dir[n])) && !(ev.Land? && ev.name == n) {
      assert n in w.dir && w.dir[n] == w'.dir[n] && Safe(w, n);
      match ev {
        case List(listing) => ListKeepsSafe(w, listing, w', n);
        case Get => GetKeepsSafe(w, w', n);
        case Commit => FetchedGrows(w.kept, w.current, n, w.dir[n].content);
        case _ =>
      }
    }
  }

  /**
   If every arrival at a name is a safe one, then at every moment of every run its present content is
   committed, fetched, or still new. Arrivals at other names do not matter.
   */
  lemma {:induction false} RunLosesNothing(ws: seq<World>, evs: seq<Event>, i: nat, n: string)
    requires IsRun(ws, evs) && i < |ws|
    requires Initial(ws[0]) && ArrivesSafely(ws, evs, n, i)
    ensures NotLost(ws[i], n)
  {
    if i > 0 {
      RunLosesNothing(ws, evs, i - 1, n);
      RunStaysConsistent(ws, evs, i - 1);
      StepLosesNothing(ws[i - 1], evs[i - 1], ws[i], n);
    }
  }

  /** When a sweep commits, each matching file present is committed too, or landed since and is new. */
  lemma CommittedSweepLeavesOnlyNewWork(ws: seq<World>, evs: seq<Event>, i: nat, n: string)
    requires IsRun(ws, evs) && i < |evs| && evs[i].Commit?
    requires Initial(ws[0]) && ArrivesSafely(ws, evs, n, i)
    requires n in ws[i + 1].dir && Matches(EntryOf(n, ws[i + 1].dir[n]))
    ensures Fetched(ws[i + 1].kept, n, ws[i + 1].dir[n].content)
            || IsNew(ws[i + 1].kept, EntryOf(n, ws[i + 1].dir[n]))
  {
    RunLosesNothing(ws, evs, i + 1, n);
  }

  // --- what one sweep takes, whatever else lands and vanishes meanwhile ---------------------------------------

  ghost predicate Touches(ev: Event, n: string) {
    (ev.Land? || ev.Vanish?) && ev.name == n
  }

  /** The sweep goes on, or something happens at another name. */
  ghost predicate Beside(ev: Event, n: string) {
    (ev.Get? || ev.Land? || ev.Vanish?) && !Touches(ev, n)
  }

  /** How many transfers of `n` there have ever been. */
  ghost function TimesFetched(fetches: seq<Fetch>, n: string): nat {
    if fetches == [] then 0 else (if fetches[0].name == n then 1 else 0) + TimesFetched(fetches[1..], n)
  }

  lemma {:induction false} TimesFetchedOfConcat(a: seq<Fetch>, b: seq<Fetch>, n: string)
    ensures TimesFetched(a + b, n) == TimesFetched(a, n) + TimesFetched(b, n)
  {
    if a == [] {
      assert a + b == b;
    } else {
      assert (a + b)[1..] == a[1..] + b;
      TimesFetchedOfConcat(a[1..], b, n);
    }
  }

  ghost function Transfers(w: World, n: string): nat {
    TimesFetched(w.kept, n) + TimesFetched(w.current, n) + TimesFetched(w.dropped, n)
  }

  /** The transfers of `n` made, and the one the sweep under way has still to make. */
  ghost function Promised(w: World, n: string): nat {
    Transfers(w, n) + if StillPlanned(w, n) then 1 else 0
  }

  lemma GetKeepsThePromise(w: World, w': World, n: string)
    requires OnPlan(w) && Next(w, Get, w')
    ensures Promised(w', n) == Promised(w, n)
  {
    var plan, next := w.sweep.value.plan, w.sweep.value.next;
    var got := Fetch(plan[next].name, plan[next].modified, w.dir[plan[next].name].content);
    TimesFetchedOfConcat(w.current, [got], n);
    assert [got][1..] == [];
    if plan[next].name == n {
      assert StillPlanned(w, n);
    } else if StillPlanned(w, n) {
      var i :| next <= i < |plan| && plan[i].name == n;
      assert StillPlanned(w', n);
    }
  }

  /** Steps beside `n` leave it, the mark and the plan alone, and fetch `n` only if it was planned. */
  lemma {:induction false} BesideKeepsThePromise(ws: seq<World>, evs: seq<Event>, start: nat, k: nat, n: string)
    requires IsRun(ws, evs) && start <= k <= |evs| && Consistent(ws[0])
    requires forall j :: start <= j < k ==> Beside(evs[j], n)
    ensures n in ws[start].dir ==> n in ws[k].dir && ws[k].dir[n] == ws[start].dir[n]
    ensures ws[k].mark == ws[start].mark && Reached(ws[k]) == Reached(ws[start])
    ensures ws[k].sweep.Some? <==> ws[start].sweep.Some?
    ensures ws[k].sweep.Some? ==> ws[k].sweep.value.plan == ws[start].sweep.value.plan
    ensures Promised(ws[k], n) == Promised(ws[start], n)
    decreases k
  {
    if start < k {
      BesideKeepsThePromise(ws, evs, start, k - 1, n);
      RunStaysConsistent(ws, evs, k - 1);
      assert Next(ws[k - 1], evs[k - 1], ws[k]);
      if evs[k - 1].Get? {
        GetKeepsThePromise(ws[k - 1], ws[k], n);
      }
    }
  }

  lemma CommitKeepsThePromise(w: World, w': World, n: string)
    requires OnPlan(w) && Next(w, Commit, w')
    ensures Transfers(w', n) == Promised(w, n) && Promised(w', n) == Promised(w, n)
    ensures w'.mark == Reached(w)
  {
    TimesFetchedOfConcat(w.kept, w.current, n);
  }

  /** A sweep that is let finish brings the transfers of `n` to exactly what was promised when it was listed. */
  lemma FinishedSweepKeepsThePromise(ws: seq<World>, evs: seq<Event>, start: nat, end: nat, n: string)
    requires IsRun(ws, evs) && start <= end < |evs| && Consistent(ws[0])
    requires evs[end].Commit? && forall k :: start <= k < end ==> Beside(evs[k], n)
    ensures n in ws[start].dir ==> n in ws[end + 1].dir && ws[end + 1].dir[n] == ws[start].dir[n]
    ensures ws[end + 1].mark == Reached(ws[start]) && ws[end + 1].sweep.None?
    ensures Transfers(ws[end + 1], n) == Promised(ws[start], n)
  {
    BesideKeepsThePromise(ws, evs, start, end, n);
    RunStaysConsistent(ws, evs, end);
    assert Next(ws[end], evs[end], ws[end + 1]);
    CommitKeepsThePromise(ws[end], ws[end + 1], n);
  }

  /** A listing promises a matching file exactly when it is new. */
  lemma ListingPromisesTheWanted(w: World, listing: seq<Entry>, w': World, n: string)
    requires Consistent(w) && Next(w, List(listing), w')
    requires n in w.dir && Matches(EntryOf(n, w.dir[n]))
    ensures Promised(w', n) == Transfers(w, n) + if IsNew(w.kept, EntryOf(n, w.dir[n])) then 1 else 0
  {
    WantsExactlyTheNew(w, EntryOf(n, w.dir[n]));
    hide IsNew;
    ListingSelects(w.mark, listing, w.dir);
    var plan, e := w'.sweep.value.plan, EntryOf(n, w.dir[n]);
    assert e in listing;
    if Wants(w.mark, e) {
      var i :| 0 <= i < |plan| && plan[i] == e;
      assert StillPlanned(w', n);
    }
    if StillPlanned(w', n) {
      var i :| 0 <= i < |plan| && plan[i].name == n;
      assert plan[i] in plan;
    }
  }

  /**
   A sweep that finishes transfers a matching file of its listing once if it was new, and otherwise not at
   all, whatever lands or vanishes at other names meanwhile.
   */
  lemma SweepTakesExactlyTheWanted(ws: seq<World>, evs: seq<Event>, start: nat, end: nat, n: string)
    requires IsRun(ws, evs) && start < end < |evs| && Consistent(ws[0])
    requires evs[start].List? && evs[end].Commit?
    requires forall k :: start < k < end ==> Beside(evs[k], n)
    requires n in ws[start].dir && Matches(EntryOf(n, ws[start].dir[n]))
    ensures var e := EntryOf(n, ws[start].dir[n]);
            Transfers(ws[end + 1], n) == Transfers(ws[start], n) + if IsNew(ws[start].kept, e) then 1 else 0
  {
    RunStaysConsistent(ws, evs, start);
    assert Next(ws[start], evs[start], ws[start + 1]);
    ListingPromisesTheWanted(ws[start], evs[start].listing, ws[start + 1], n);
    FinishedSweepKeepsThePromise(ws, evs, start + 1, end, n);
  }

  ghost predicate Underway(ev: Event) {
    ev.Get? || ev.Land? || ev.Vanish?
  }

  lemma {:induction false} PlanStays(ws: seq<World>, evs: seq<Event>, start: nat, k: nat)
    requires IsRun(ws, evs) && start <= k <= |evs| && ws[start].sweep.Some?
    requires forall j :: start <= j < k ==> Underway(evs[j])
    ensures ws[k].sweep.Some? && ws[k].sweep.value.plan == ws[start].sweep.value.plan
    ensures ws[k].kept == ws[start].kept
    decreases k
  {
    if start < k {
      PlanStays(ws, evs, start, k - 1);
      assert Next(ws[k - 1], evs[k - 1], ws[k]);
    }
  }

  /** A committed sweep has fetched every entry of its plan, under the listed stamp. */
  lemma PlanIsCommitted(ws: seq<World>, evs: seq<Event>, start: nat, end: nat, e: Entry)
    requires IsRun(ws, evs) && start < end < |evs| && Consistent(ws[0])
    requires evs[start].List? && evs[end].Commit?
    requires forall k :: start < k < end ==> Underway(evs[k])
    requires ws[start + 1].sweep.Some? && e in ws[start + 1].sweep.value.plan
    ensures exists f :: f in ws[end + 1].kept && f.name == e.name && f.stamp == e.modified
  {
    RunStaysConsistent(ws, evs, end);
    PlanStays(ws, evs, start + 1, end);
    assert Next(ws[end], evs[end], ws[end + 1]);
    var plan := ws[end].sweep.value.plan;
    var i :| 0 <= i < |plan| && plan[i] == e;
    assert ws[end].current[i] in ws[end + 1].kept;
  }

  /** Some fetch took what a listing showed as `item` at `n`: under the stamp listed, or with that content. */
  ghost predicate TakenAs(fetches: seq<Fetch>, n: string, item: Item) {
    exists f :: f in fetches && f.name == n && (f.stamp == item.stamp || f.content == item.content)
  }

  lemma ListedIsPlanned(w: World, listing: seq<Entry>, w': World, n: string)
    requires Next(w, List(listing), w')
    requires n in w.dir && Matches(EntryOf(n, w.dir[n])) && Wants(w.mark, EntryOf(n, w.dir[n]))
    ensures w'.sweep.Some? && EntryOf(n, w.dir[n]) in w'.sweep.value.plan
  {
    ListingSelects(w.mark, listing, w.dir);
    assert EntryOf(n, w.dir[n]) in listing;
  }

  /**
   When a sweep commits, every matching file its listing showed has been taken at some point: under the listed
   stamp, or with the listed content. What lands or vanishes after the listing does not matter, at any name.
   */
  lemma SweepTakesEverythingListed(ws: seq<World>, evs: seq<Event>, start: nat, end: nat, n: string)
    requires IsRun(ws, evs) && start < end < |evs|
    requires Initial(ws[0]) && ArrivesSafely(ws, evs, n, start)
    requires evs[start].List? && evs[end].Commit?
    requires forall k :: start < k < end ==> Underway(evs[k])
    requires n in ws[start].dir && Matches(EntryOf(n, ws[start].dir[n]))
    ensures TakenAs(ws[end + 1].kept, n, ws[start].dir[n])
  {
    hide Matches, Wants, Lists, IsNew, Summarises;
    assert Next(ws[start], evs[start], ws[start + 1]);
    var item := ws[start].dir[n];
    RunStaysConsistent(ws, evs, start);
    WantsExactlyTheNew(ws[start], EntryOf(n, item));
    RunLosesNothing(ws, evs, start, n);
    if Wants(ws[start].mark, EntryOf(n, item)) {
      ListedIsPlanned(ws[start], evs[start].listing, ws[start + 1], n);
      PlanIsCommitted(ws, evs, start, end, EntryOf(n, item));
    } else {
      OnlyAbandoningDrops(ws, evs, start, end + 1);
    }
  }

  /** What is planned is fetched with the content it keeps, while only other names are touched. */
  lemma {:induction false} PlannedIsFetched(ws: seq<World>, evs: seq<Event>, start: nat, k: nat,
                                            n: string, content: int)
    requires IsRun(ws, evs) && start <= k <= |evs| && Consistent(ws[0])
    requires forall j :: start <= j < k ==> Beside(evs[j], n)
    requires n in ws[start].dir && ws[start].dir[n].content == content && StillPlanned(ws[start], n)
    ensures n in ws[k].dir && ws[k].dir[n].content == content
    ensures Fetched(ws[k].current, n, content) || StillPlanned(ws[k], n)
    decreases k
  {
    if start < k {
      PlannedIsFetched(ws, evs, start, k - 1, n, content);
      var w, w' := ws[k - 1], ws[k];
      assert Next(w, evs[k - 1], w');
      if evs[k - 1].Get? {
        GetFetchesOrLeavesPlanned(w, w', n, content);
      }
    }
  }

  /** So a matching file that stayed as it was listed is committed with that very content. */
  lemma SweepCommitsWhatStayed(ws: seq<World>, evs: seq<Event>, start: nat, end: nat, n: string)
    requires IsRun(ws, evs) && start < end < |evs|
    requires Initial(ws[0]) && ArrivesSafely(ws, evs, n, start)
    requires evs[start].List? && evs[end].Commit?
    requires forall k :: start < k < end ==> Beside(evs[k], n)
    requires n in ws[start].dir && Matches(EntryOf(n, ws[start].dir[n]))
    ensures n in ws[end + 1].dir && ws[end + 1].dir[n] == ws[start].dir[n]
    ensures Fetched(ws[end + 1].kept, n, ws[start].dir[n].content)
  {
    RunStaysConsistent(ws, evs, start);
    RunStaysConsistent(ws, evs, end);
    assert Next(ws[start], evs[start], ws[start + 1]) && Next(ws[end], evs[end], ws[end + 1]);
    var item := ws[start].dir[n];
    FinishedSweepKeepsThePromise(ws, evs, start + 1, end, n);
    RunLosesNothing(ws, evs, start, n);
    OnlyAbandoningDrops(ws, evs, start, end + 1);
    if IsNew(ws[start].kept, EntryOf(n, item)) {
      ListingPromisesTheWanted(ws[start], evs[start].listing, ws[start + 1], n);
      assert StillPlanned(ws[start + 1], n);
      PlannedIsFetched(ws, evs, start + 1, end, n, item.content);
      FetchedGrows(ws[end].kept, ws[end].current, n, item.content);
    } else {
      var f :| f in ws[start].kept && f.name == n && f.content == item.content;
    }
  }

  // --- and the condition is exact ---------------------------------------------------------------------------

  /** The sweep under way when step 0 happened, if there was one, commits at `commit`; `n` is left alone. */
  ghost predicate CommitsAt(ws: seq<World>, evs: seq<Event>, commit: nat, n: string)
    requires IsRun(ws, evs) && |evs| > 0
  {
    if ws[0].sweep.None? then commit == 0
    else 0 < commit < |evs| && evs[commit].Commit? && forall k :: 0 < k < commit ==> Beside(evs[k], n)
  }

  lemma LandedAndCommitted(ws: seq<World>, evs: seq<Event>, n: string, item: Item, commit: nat)
    requires IsRun(ws, evs) && |evs| > 0 && Consistent(ws[0])
    requires evs[0] == Land(n, item) && CommitsAt(ws, evs, commit, n)
    ensures n in ws[commit + 1].dir && ws[commit + 1].dir[n] == item
    ensures ws[commit + 1].sweep.None? && ws[commit + 1].mark == Reached(ws[0])
    ensures Transfers(ws[commit + 1], n) == Promised(ws[0], n)
  {
    assert Next(ws[0], evs[0], ws[1]);
    assert StillPlanned(ws[1], n) == StillPlanned(ws[0], n);
    if commit > 0 {
      FinishedSweepKeepsThePromise(ws, evs, 1, commit, n);
    }
  }

  /** A matching file lands at `n`, the sweep it fell into commits, and the next sweep runs to its end. */
  ghost predicate LandsThenCommits(ws: seq<World>, evs: seq<Event>, n: string, item: Item,
                                   commit: nat, start: nat, end: nat)
  {
    && IsRun(ws, evs) && commit < start < end < |evs| && Consistent(ws[0])
    && evs[0] == Land(n, item) && Matches(EntryOf(n, item)) && CommitsAt(ws, evs, commit, n)
    && (forall k :: commit < k < end && k != start ==> Beside(evs[k], n))
    && evs[start].List? && evs[end].Commit?
  }

  /** The same, with the sweep it fell into abandoned at `stop`. */
  ghost predicate LandsThenAbandons(ws: seq<World>, evs: seq<Event>, n: string, item: Item,
                                    stop: nat, start: nat, end: nat)
  {
    && IsRun(ws, evs) && 0 < stop < start < end < |evs| && Consistent(ws[0])
    && evs[0] == Land(n, item) && Matches(EntryOf(n, item))
    && (evs[stop].Abandon? || evs[stop].Restart?)
    && (forall k :: 0 < k < end && k != stop && k != start ==> Beside(evs[k], n))
    && evs[start].List? && evs[end].Commit?
  }

  /**
   Between them the two sweeps transfer the arrival once if the first had still to fetch that name, and
   once more if the arrival is new against all that is committed by then; and not otherwise.
   */
  lemma CommittedSweepDecides(ws: seq<World>, evs: seq<Event>, n: string, item: Item, commit: nat, start: nat, end: nat)
    requires LandsThenCommits(ws, evs, n, item, commit, start, end)
    ensures Transfers(ws[end + 1], n) == Transfers(ws[0], n)
              + (if StillPlanned(ws[0], n) then 1 else 0)
              + (if WillBeNew(ws[0], EntryOf(n, item)) then 1 else 0)
  {
    hide IsNew, WillBeNew, Wants;
    LandedAndCommitted(ws, evs, n, item, commit);
    BesideKeepsThePromise(ws, evs, commit + 1, start, n);
    SweepTakesExactlyTheWanted(ws, evs, start, end, n);
    RunStaysConsistent(ws, evs, start);
    WantsExactlyTheNew(ws[start], EntryOf(n, item));
    ReachedWantsExactlyTheNew(ws[0], EntryOf(n, item));
  }

  /** If the first is abandoned instead, the next transfers the arrival exactly when it was new as it landed. */
  lemma AbandonedSweepDecides(ws: seq<World>, evs: seq<Event>, n: string, item: Item, stop: nat, start: nat, end: nat)
    requires LandsThenAbandons(ws, evs, n, item, stop, start, end)
    ensures Transfers(ws[end + 1], n) == Transfers(ws[stop], n)
              + if IsNew(ws[0].kept, EntryOf(n, item)) then 1 else 0
  {
    hide IsNew, Wants;
    WantsExactlyTheNew(ws[0], EntryOf(n, item));
    RunStaysConsistent(ws, evs, start);
    WantsExactlyTheNew(ws[start], EntryOf(n, item));
    assert Next(ws[0], evs[0], ws[1]);
    BesideKeepsThePromise(ws, evs, 1, stop, n);
    RunStaysConsistent(ws, evs, stop);
    assert Next(ws[stop], evs[stop], ws[stop + 1]);
    TimesFetchedOfConcat(ws[stop].dropped, ws[stop].current, n);
    BesideKeepsThePromise(ws, evs, stop + 1, start, n);
    SweepTakesExactlyTheWanted(ws, evs, start, end, n);
  }

  /** An arrival is safe exactly when it is taken whichever way the sweep it falls into ends. */
  lemma SafeExactlyWhenTakenEitherWay(n: string, item: Item,
                                      ws: seq<World>, evs: seq<Event>, commit: nat, start: nat, end: nat,
                                      vs: seq<World>, fvs: seq<Event>, stop: nat, restart: nat, last: nat)
    requires LandsThenCommits(ws, evs, n, item, commit, start, end)
    requires LandsThenAbandons(vs, fvs, n, item, stop, restart, last)
    requires vs[0] == ws[0]
    ensures LandsSafely(ws[0], Land(n, item)) <==>
              && Transfers(ws[end + 1], n) > Transfers(ws[0], n)
              && Transfers(vs[last + 1], n) > Transfers(vs[stop], n)
  {
    hide IsNew, IsNewTo, IsRun, CommitsAt, Consistent, Matches, StillPlanned, Transfers;
    CommittedSweepDecides(ws, evs, n, item, commit, start, end);
    AbandonedSweepDecides(vs, fvs, n, item, stop, restart, last);
  }

  /** `n` is there, not new, and in no plan. */
  ghost predicate PassedOver(w: World, n: string, item: Item) {
    && n in w.dir && w.dir[n] == item
    && !IsNew(w.kept, EntryOf(n, item))
    && (w.sweep.Some? ==> forall e :: e in w.sweep.value.plan ==> e.name != n)
  }

  lemma StepPassesOver(w: World, ev: Event, w': World, n: string, item: Item)
    requires Consistent(w) && Next(w, ev, w') && !Touches(ev, n)
    requires PassedOver(w, n, item)
    ensures PassedOver(w', n, item) && Transfers(w', n) == Transfers(w, n)
  {
    match ev {
      case List(listing) =>
        WantsExactlyTheNew(w, EntryOf(n, item));
        ListingSelects(w.mark, listing, w.dir);
      case Get =>
        var e := w.sweep.value.plan[w.sweep.value.next];
        assert e in w.sweep.value.plan;
        var got := Fetch(e.name, e.modified, w.dir[e.name].content);
        TimesFetchedOfConcat(w.current, [got], n);
        assert TimesFetched([got], n) == 0 by { assert [got][1..] == []; }
      case Commit =>
        TimesFetchedOfConcat(w.kept, w.current, n);
      case Abandon => TimesFetchedOfConcat(w.dropped, w.current, n);
      case Restart => TimesFetchedOfConcat(w.dropped, w.current, n);
      case _ =>
    }
  }

  /**
   A file that is there between sweeps and is not new against what was committed is never transferred again, by
   any number of sweeps, for as long as it stays as it is.
   */
  lemma {:induction false} UnwantedIsNeverTaken(ws: seq<World>, evs: seq<Event>, n: string, item: Item, m: nat, i: nat)
    requires IsRun(ws, evs) && m <= i < |ws|
    requires Consistent(ws[0]) && PassedOver(ws[m], n, item)
    requires forall k :: m <= k < |evs| ==> !Touches(evs[k], n)
    ensures PassedOver(ws[i], n, item) && Transfers(ws[i], n) == Transfers(ws[m], n)
    decreases i
  {
    if i > m {
      UnwantedIsNeverTaken(ws, evs, n, item, m, i - 1);
      RunStaysConsistent(ws, evs, i - 1);
      StepPassesOver(ws[i - 1], evs[i - 1], ws[i], n, item);
    }
  }

  /**
   An arrival that is not new against what the sweep under way commits, at a name not still to be fetched, is lost
   once the sweep under way commits: no later sweep transfers it, for as long as it stays as it is.
   */
  lemma LateArrivalIsLost(ws: seq<World>, evs: seq<Event>, n: string, item: Item, commit: nat, i: nat)
    requires IsRun(ws, evs) && |evs| > 0 && Consistent(ws[0])
    requires evs[0] == Land(n, item) && CommitsAt(ws, evs, commit, n)
    requires !WillBeNew(ws[0], EntryOf(n, item)) && !StillPlanned(ws[0], n)
    requires forall k :: commit < k < |evs| ==> !Touches(evs[k], n)
    requires commit < i < |ws|
    ensures Transfers(ws[i], n) == Transfers(ws[0], n) && !IsNew(ws[i].kept, EntryOf(n, item))
  {
    hide Reached, IsNew, WillBeNew, Wants;
    LandedAndCommitted(ws, evs, n, item, commit);
    ReachedWantsExactlyTheNew(ws[0], EntryOf(n, item));
    RunStaysConsistent(ws, evs, commit + 1);
    WantsExactlyTheNew(ws[commit + 1], EntryOf(n, item));
    UnwantedIsNeverTaken(ws, evs, n, item, commit + 1, i);
  }

  /**
   The case whole seconds cannot tell apart: a file rewritten within the second it was taken in. Its
   new content lands with a stamp and a name already committed, and no later sweep takes it.
   */
  lemma SameSecondRewriteIsLost(ws: seq<World>, evs: seq<Event>, n: string, stamp: int, content: int)
    requires IsRun(ws, evs) && Consistent(ws[0]) && ws[0].sweep.None?
    requires exists f :: f in ws[0].kept && f.name == n && f.stamp == Some(stamp)
    requires |evs| > 0 && evs[0] == Land(n, Item(true, Some(stamp), content))
    requires forall k :: 1 <= k < |evs| ==> !Touches(evs[k], n)
    ensures Transfers(ws[|evs|], n) == Transfers(ws[0], n)
  {
    LateArrivalIsLost(ws, evs, n, evs[0].item, 0, |evs|);
  }

  /**
   And a case they could: a file stamped between the mark and the largest stamp of the sweep under way, at
   a name that sweep does not still have to fetch, is older than what is committed before it is seen.
   */
  lemma ArrivalOvertakenByItsSweepIsLost(ws: seq<World>, evs: seq<Event>, n: string, item: Item, commit: nat)
    requires IsRun(ws, evs) && |evs| > 0 && Consistent(ws[0]) && ws[0].sweep.Some?
    requires evs[0] == Land(n, item) && CommitsAt(ws, evs, commit, n) && !StillPlanned(ws[0], n)
    requires exists e :: e in ws[0].sweep.value.plan && e.modified.Some? && item.stamp.Some?
                         && item.stamp.value < e.modified.value
    requires forall k :: commit < k < |evs| ==> !Touches(evs[k], n)
    ensures Transfers(ws[|evs|], n) == Transfers(ws[0], n)
  {
    LateArrivalIsLost(ws, evs, n, item, commit, |evs|);
  }
}
