/** The activity page's overlapping refreshes: generations decide which reply may be shown. */
module ActivityRefresh {
  import opened Wrappers

  datatype ListName =
    | Settlements | AuditEvents | Receipts | Agreements | Payees | Runs | Claims | Remediations
    | DisclosureGrants

  const ALL_LISTS :=
    {Settlements, AuditEvents, Receipts, Agreements, Payees, Runs, Claims, Remediations, DisclosureGrants}

  /** What a list shows, and the generation of the refresh that last wrote it. */
  datatype Contents = Contents(writer: nat, records: seq<string>)

  /** One vault session object. */
  type Session = nat

  /** A read of one list with the session that its refresh captured. */
  datatype Task = Task(generation: nat, session: Session, list: ListName)

  /** `session` is the workspace's session now, None while it is locked. `running` are the
      refreshes whose task runner has not returned. `tasks` are the reads that can still answer: a
      read that outlives its deadline stays there after the runner returns. */
  datatype State = State(
    session: Option<Session>,
    generation: nat,
    loading: bool,
    lists: map<ListName, Contents>,
    running: set<nat>,
    tasks: set<Task>)

  const INITIAL := State(None, 0, false, map[], {}, {})

  /** A refresh runs with the session that its closure captured when it was rendered, whatever the
      workspace's session has become since. */
  datatype Event =
    | SessionChanges(session: Option<Session>)
    | StartRefresh(captured: Option<Session>)
    | TaskReply(task: Task, records: seq<string>)
    | TaskGone(task: Task)
    | RefreshEnd(generation: nat)
    | PayeesReconciled(records: seq<string>)

  function Shown(s: State, list: ListName): Contents {
    if list in s.lists then s.lists[list] else Contents(0, [])
  }

  function TasksOf(generation: nat, session: Session): set<Task> {
    set list | list in ALL_LISTS :: Task(generation, session, list)
  }

  function Step(s: State, e: Event): State {
    match e
    case SessionChanges(session) => s.(session := session)
    case StartRefresh(captured) =>
      var generation := s.generation + 1;
      if captured.None? then
        s.(generation := generation, loading := false,
           lists := map list | list in ALL_LISTS :: Contents(generation, []))
      else
        s.(generation := generation, loading := true,
           running := s.running + {generation}, tasks := s.tasks + TasksOf(generation, captured.value))
    case TaskReply(task, records) =>
      if task !in s.tasks then s
      else
        var answered := s.(tasks := s.tasks - {task});
        if task.generation != s.generation then answered
        else answered.(lists := s.lists[task.list := Contents(task.generation, records)])
    case TaskGone(task) => s.(tasks := s.tasks - {task})
    case RefreshEnd(generation) =>
      if generation !in s.running then s
      else
        var ended := s.(running := s.running - {generation});
        if generation == s.generation then ended.(loading := false) else ended
    case PayeesReconciled(records) =>
      s.(lists := s.lists[Payees := Contents(Shown(s, Payees).writer, records)])
  }

  ghost predicate IsRun(states: seq<State>, events: seq<Event>) {
    && |states| == |events| + 1 && states[0] == INITIAL
    && forall i | 0 <= i < |events| :: states[i + 1] == Step(states[i], events[i])
  }

  /** No generation is ahead of the newest, and the page is loading exactly while the newest
      refresh runs. */
  ghost predicate Consistent(s: State) {
    && (forall list :: Shown(s, list).writer <= s.generation)
    && (forall task | task in s.tasks :: task.generation <= s.generation)
    && (forall g | g in s.running :: g <= s.generation)
    && (s.loading <==> s.generation in s.running)
  }

  lemma EveryListIsCleared(list: ListName)
    ensures list in ALL_LISTS
  {
  }

  lemma {:induction false} AlwaysConsistent(states: seq<State>, events: seq<Event>, i: nat)
    requires IsRun(states, events) && i < |states|
    ensures Consistent(states[i])
  {
    if i > 0 {
      AlwaysConsistent(states, events, i - 1);
      assert states[i] == Step(states[i - 1], events[i - 1]);
      forall list ensures Shown(states[i], list).writer <= states[i].generation {
        EveryListIsCleared(list);
        assert Shown(states[i - 1], list).writer <= states[i - 1].generation;
      }
    }
  }

  /** The loading flag is set exactly while the newest refresh is still running. */
  lemma LoadingIffNewestRuns(states: seq<State>, events: seq<Event>, i: nat)
    requires IsRun(states, events) && i < |states|
    ensures states[i].loading <==> states[i].generation in states[i].running
  {
    AlwaysConsistent(states, events, i);
  }

  /** Only the newest refresh's end, or a refresh that captured no session, clears the flag. */
  lemma OnlyNewestClearsLoading(states: seq<State>, events: seq<Event>, i: nat)
    requires IsRun(states, events) && i < |events|
    requires states[i].loading && !states[i + 1].loading
    ensures events[i] == RefreshEnd(states[i].generation) || events[i] == StartRefresh(None)
  {
    assert states[i + 1] == Step(states[i], events[i]);
  }

  lemma {:induction false} GenerationNeverDecreases(states: seq<State>, events: seq<Event>, i: nat, j: nat)
    requires IsRun(states, events) && i <= j < |states|
    ensures states[i].generation <= states[j].generation
  {
    if i < j {
      GenerationNeverDecreases(states, events, i, j - 1);
      assert states[j] == Step(states[j - 1], events[j - 1]);
    }
  }

  /** Latest wins, list by list: no list ever goes back to an older refresh's answer. */
  lemma {:induction false} WriterNeverDecreases(states: seq<State>, events: seq<Event>, i: nat, j: nat, list: ListName)
    requires IsRun(states, events) && i <= j < |states|
    ensures Shown(states[i], list).writer <= Shown(states[j], list).writer
  {
    if i < j {
      WriterNeverDecreases(states, events, i, j - 1, list);
      AlwaysConsistent(states, events, j - 1);
      assert states[j] == Step(states[j - 1], events[j - 1]);
    }
  }

  /** Once a newer refresh has started, an older one's late replies and end change nothing
      that is shown. */
  lemma SupersededRefreshIsInert(states: seq<State>, events: seq<Event>, i: nat, k: nat)
    requires IsRun(states, events) && i < k < |events| && events[i].StartRefresh?
    requires match events[k]
             case TaskReply(task, _) => task.generation <= states[i].generation
             case RefreshEnd(generation) => generation <= states[i].generation
             case TaskGone(_) => true
             case _ => false
    ensures states[k + 1].lists == states[k].lists && states[k + 1].loading == states[k].loading
  {
    assert states[i + 1] == Step(states[i], events[i]);
    GenerationNeverDecreases(states, events, i + 1, k);
    assert states[k + 1] == Step(states[k], events[k]);
  }

  /** The event that gave a list its present contents. */
  predicate Wrote(s: State, e: Event, list: ListName, contents: Contents) {
    || (&& e.TaskReply? && e.task in s.tasks && e.task.generation == s.generation
        && contents == Contents(e.task.generation, e.records) && e.task.list == list)
    || (e == StartRefresh(None) && contents == Contents(s.generation + 1, []))
    || (list == Payees && e == PayeesReconciled(contents.records))
  }

  /** Nothing is shown that was not the answer to the writer's own read of that very list,
      given while that writer was the newest refresh; the contributor list alone can also be
      replaced by a report correction. */
  lemma {:induction false} ContentsHaveAWriter(states: seq<State>, events: seq<Event>, j: nat, list: ListName)
    requires IsRun(states, events) && j < |states|
    ensures Shown(states[j], list) == Contents(0, [])
            || exists i :: 0 <= i < j && Wrote(states[i], events[i], list, Shown(states[j], list))
  {
    if j > 0 {
      ContentsHaveAWriter(states, events, j - 1, list);
      assert states[j] == Step(states[j - 1], events[j - 1]);
      if Shown(states[j], list) != Shown(states[j - 1], list) {
        ChangeIsWritten(states[j - 1], events[j - 1], list);
      }
    }
  }

  lemma ChangeIsWritten(s: State, e: Event, list: ListName)
    requires Shown(Step(s, e), list) != Shown(s, list)
    ensures Wrote(s, e, list, Shown(Step(s, e), list))
  {
  }

  /** A refresh that captured a session reads all nine lists with it, and adds no other read. */
  lemma RefreshReadsEveryList(s: State, session: Session, list: ListName)
    ensures var t, generation := Step(s, StartRefresh(Some(session))), s.generation + 1;
            && Task(generation, session, list) in t.tasks && generation in t.running
            && forall task | task in t.tasks && task !in s.tasks :: task.generation == generation && task.session == session
  {
    EveryListIsCleared(list);
  }

  // ---- Whose records a list shows ----

  /** Refresh k captured this read's session and took its generation. */
  predicate StartsFor(s: State, e: Event, task: Task) {
    e == StartRefresh(Some(task.session)) && s.generation + 1 == task.generation
  }

  lemma {:induction false} TaskWasStarted(states: seq<State>, events: seq<Event>, j: nat, task: Task) returns (k: nat)
    requires IsRun(states, events) && j < |states| && task in states[j].tasks
    ensures k < j && StartsFor(states[k], events[k], task)
  {
    assert states[j] == Step(states[j - 1], events[j - 1]);
    if task in states[j - 1].tasks {
      k := TaskWasStarted(states, events, j - 1, task);
    } else {
      k := j - 1;
    }
  }

  /** Records on display were read with the session that their writer captured, whatever the
      workspace's session is by now; contributors can also come from a report correction. */
  lemma RecordsAreOfCapturedSession(states: seq<State>, events: seq<Event>, j: nat, list: ListName)
    requires IsRun(states, events) && j < |states| && Shown(states[j], list).records != []
    ensures exists m :: 0 <= m < j && Wrote(states[m], events[m], list, Shown(states[j], list))
                        && (events[m].TaskReply? ==> exists k :: 0 <= k < m && StartsFor(states[k], events[k], events[m].task))
  {
    ContentsHaveAWriter(states, events, j, list);
    var m :| 0 <= m < j && Wrote(states[m], events[m], list, Shown(states[j], list));
    if events[m].TaskReply? {
      var k := TaskWasStarted(states, events, m, events[m].task);
    }
  }

  /** Step e writes this list. */
  predicate Writes(s: State, e: Event, list: ListName) {
    match e
    case StartRefresh(captured) => captured.None?
    case TaskReply(task, _) => task in s.tasks && task.generation == s.generation && task.list == list
    case PayeesReconciled(_) => list == Payees
    case _ => false
  }

  function Written(e: Event): seq<string> {
    match e
    case TaskReply(_, records) => records
    case PayeesReconciled(records) => records
    case _ => []
  }

  lemma WriteStep(s: State, e: Event, list: ListName)
    ensures Shown(Step(s, e), list).records == if Writes(s, e, list) then Written(e) else Shown(s, list).records
  {
    EveryListIsCleared(list);
  }

  /** The last step before j that wrote the list. */
  ghost predicate LastWrite(states: seq<State>, events: seq<Event>, m: nat, j: nat, list: ListName)
    requires |states| == |events| + 1 && m < j <= |events|
  {
    Writes(states[m], events[m], list) && forall n | m < n < j :: !Writes(states[n], events[n], list)
  }

  lemma {:induction false} ShownIsLastWritten(states: seq<State>, events: seq<Event>, m: nat, j: nat, list: ListName)
    requires IsRun(states, events) && m < j <= |events| && LastWrite(states, events, m, j, list)
    ensures Shown(states[j], list).records == Written(events[m])
  {
    assert states[j] == Step(states[j - 1], events[j - 1]);
    WriteStep(states[j - 1], events[j - 1], list);
    if m < j - 1 {
      ShownIsLastWritten(states, events, m, j - 1, list);
    }
  }

  lemma {:induction false} LastWriteExists(states: seq<State>, events: seq<Event>, i: nat, j: nat, list: ListName) returns (m: nat)
    requires |states| == |events| + 1 && i < j <= |events| && Writes(states[i], events[i], list)
    ensures i <= m < j && LastWrite(states, events, m, j, list)
  {
    if i == j - 1 || Writes(states[j - 1], events[j - 1], list) {
      m := j - 1;
    } else {
      m := LastWriteExists(states, events, i, j - 1, list);
    }
  }

  /** Step m puts records on the page that a refresh from before step i cannot have put there: a
      report correction, or an answer to a refresh that captured a session and started since. */
  ghost predicate Refills(states: seq<State>, events: seq<Event>, i: nat, m: nat)
    requires |states| == |events| + 1 && i < m < |events|
  {
    && Written(events[m]) != []
    && (events[m].TaskReply? ==> exists k :: i < k < m && StartsFor(states[k], events[k], events[m].task))
  }

  lemma AnswerStartedSince(states: seq<State>, events: seq<Event>, i: nat, m: nat) returns (k: nat)
    requires IsRun(states, events) && i < m < |events| && events[i].StartRefresh?
    requires events[m].TaskReply? && events[m].task in states[m].tasks && events[m].task.generation == states[m].generation
    requires events[i].captured.None?
    ensures i < k < m && StartsFor(states[k], events[k], events[m].task)
  {
    k := TaskWasStarted(states, events, m, events[m].task);
    assert states[i + 1] == Step(states[i], events[i]) && states[k + 1] == Step(states[k], events[k]);
    GenerationNeverDecreases(states, events, i + 1, m);
    if k < i {
      GenerationNeverDecreases(states, events, k + 1, i);
    }
  }

  /** From a locking refresh on, whatever else happens, a list shows records exactly when the last
      step that wrote it was the answer to a refresh that captured a session and started since, or,
      for contributors, a report correction. */
  lemma LockedPageShowsExactly(states: seq<State>, events: seq<Event>, i: nat, j: nat, list: ListName)
    requires IsRun(states, events) && i < j <= |events| && events[i] == StartRefresh(None)
    ensures Shown(states[j], list).records != [] <==>
            exists m :: i < m < j && LastWrite(states, events, m, j, list) && Refills(states, events, i, m)
  {
    var last := LastWriteExists(states, events, i, j, list);
    ShownIsLastWritten(states, events, last, j, list);
    if Shown(states[j], list).records != [] && events[last].TaskReply? {
      var k := AnswerStartedSince(states, events, i, last);
    }
    if m :| i < m < j && LastWrite(states, events, m, j, list) && Refills(states, events, i, m) {
      ShownIsLastWritten(states, events, m, j, list);
    }
  }

  ghost predicate LockedDuring(states: seq<State>, i: nat, j: nat)
    requires j < |states|
  {
    forall m | i <= m <= j :: states[m].session.None?
  }

  /** Every refresh runs with a session that was the workspace's when its closure was made. */
  ghost predicate CapturesRendered(states: seq<State>, events: seq<Event>)
    requires |states| == |events| + 1
  {
    forall k | 0 <= k < |events| && events[k].StartRefresh? :: RenderedBy(states, k, events[k].captured)
  }

  ghost predicate RenderedBy(states: seq<State>, k: nat, session: Option<Session>)
    requires k < |states|
  {
    exists m :: 0 <= m <= k && states[m].session == session
  }

  /** While the workspace stays locked, such a refresh can only be a stale one: the closure of a
      handler that was made before the lock. */
  lemma RefillingRefreshIsStale(states: seq<State>, events: seq<Event>, i: nat, k: nat)
    requires IsRun(states, events) && CapturesRendered(states, events) && i < k < |events|
    requires LockedDuring(states, i, k) && events[k].StartRefresh? && events[k].captured.Some?
    ensures exists m :: 0 <= m < i && states[m].session == events[k].captured
  {
    assert RenderedBy(states, k, events[k].captured);
    var m :| 0 <= m <= k && states[m].session == events[k].captured;
    assert m < i;
  }

  /** Refresh k is the newest up to j and has not ended. */
  ghost predicate NewestRuns(states: seq<State>, events: seq<Event>, k: nat, j: nat)
    requires |states| == |events| + 1 && k < j <= |events|
  {
    && events[k].StartRefresh? && events[k].captured.Some?
    && forall n | k < n < j :: !events[n].StartRefresh? && events[n] != RefreshEnd(states[k].generation + 1)
  }

  lemma {:induction false} NewestKeepsGeneration(states: seq<State>, events: seq<Event>, k: nat, j: nat)
    requires IsRun(states, events) && k < j <= |events| && events[k].StartRefresh?
    requires forall n | k < n < j :: !events[n].StartRefresh?
    ensures states[j].generation == states[k].generation + 1
  {
    assert states[j] == Step(states[j - 1], events[j - 1]);
    if k < j - 1 {
      NewestKeepsGeneration(states, events, k, j - 1);
    }
  }

  lemma {:induction false} NewestIsLoading(states: seq<State>, events: seq<Event>, k: nat, j: nat)
    requires IsRun(states, events) && k < j <= |events| && NewestRuns(states, events, k, j)
    ensures states[j].loading
  {
    assert states[j] == Step(states[j - 1], events[j - 1]);
    if k < j - 1 {
      NewestIsLoading(states, events, k, j - 1);
      NewestKeepsGeneration(states, events, k, j - 1);
    }
  }

  lemma {:induction false} LoadingHasNewest(states: seq<State>, events: seq<Event>, j: nat) returns (k: nat)
    requires IsRun(states, events) && j <= |events| && states[j].loading
    ensures k < j && NewestRuns(states, events, k, j)
  {
    var s, e := states[j - 1], events[j - 1];
    assert states[j] == Step(s, e);
    if e.StartRefresh? {
      k := j - 1;
    } else {
      k := LoadingHasNewest(states, events, j - 1);
      NewestKeepsGeneration(states, events, k, j - 1);
      LoadingIffNewestRuns(states, events, j - 1);
    }
  }

  /** The page is loading exactly when the newest refresh captured a session and has not ended,
      locked or not. */
  lemma LoadingExactly(states: seq<State>, events: seq<Event>, j: nat)
    requires IsRun(states, events) && j <= |events|
    ensures states[j].loading <==> exists k :: 0 <= k < j && NewestRuns(states, events, k, j)
  {
    if states[j].loading {
      var k := LoadingHasNewest(states, events, j);
    }
    if k :| 0 <= k < j && NewestRuns(states, events, k, j) {
      NewestIsLoading(states, events, k, j);
    }
  }

  /** A handler that was under way when the workspace was locked calls the refresh of its own
      render: it takes a new generation, loads, and refills a list of the locked page. */
  lemma StaleHandlerRefillsLockedPage() returns (states: seq<State>, events: seq<Event>)
    ensures events == [SessionChanges(Some(1)), StartRefresh(Some(1)), SessionChanges(None), StartRefresh(None),
                       StartRefresh(Some(1)), TaskReply(Task(3, 1, Settlements), ["settlement"])]
    ensures IsRun(states, events) && CapturesRendered(states, events) && LockedDuring(states, 3, 6)
    ensures Shown(states[4], Settlements).records == [] && !states[4].loading
    ensures Shown(states[6], Settlements).records == ["settlement"] && states[6].loading
  {
    events := [SessionChanges(Some(1)), StartRefresh(Some(1)), SessionChanges(None), StartRefresh(None),
               StartRefresh(Some(1)), TaskReply(Task(3, 1, Settlements), ["settlement"])];
    var one := Step(INITIAL, events[0]);
    var two := Step(one, events[1]);
    var three := Step(two, events[2]);
    var four := Step(three, events[3]);
    var five := Step(four, events[4]);
    states := [INITIAL, one, two, three, four, five, Step(five, events[5])];
    assert states[1].session == Some(1) && states[3].session == None;
  }

  // ---- While no refresh that captured a session starts ----

  ghost predicate NoCapturedStart(events: seq<Event>, i: nat, j: nat) {
    forall k | i <= k < j && k < |events| && events[k].StartRefresh? :: events[k].captured.None?
  }

  ghost predicate NoCorrection(events: seq<Event>, i: nat, j: nat) {
    forall k | i <= k < j && k < |events| :: !events[k].PayeesReconciled?
  }

  /** No reply of an earlier refresh, however late, brings a list back, and the page is not loading. */
  lemma LockedStaysEmpty(states: seq<State>, events: seq<Event>, i: nat, j: nat, list: ListName)
    requires IsRun(states, events) && i < j < |states|
    requires events[i] == StartRefresh(None) && NoCapturedStart(events, i, j)
    requires list == Payees ==> NoCorrection(events, i, j)
    ensures Shown(states[j], list).records == [] && !states[j].loading
  {
    LockedPageShowsExactly(states, events, i, j, list);
    LoadingExactly(states, events, j);
  }

  /** What the last report correction since the last locking refresh wrote, or nothing. */
  function LastCorrection(events: seq<Event>, i: nat, j: nat): seq<string>
    requires i < j <= |events|
  {
    if i + 1 == j || events[j - 1] == StartRefresh(None) then []
    else if events[j - 1].PayeesReconciled? then events[j - 1].records
    else LastCorrection(events, i, j - 1)
  }

  /** The contributor list then shows exactly what the last report correction wrote since the lock,
      and nothing when there was none. */
  lemma {:induction false} LockedPayeesAreLastCorrection(states: seq<State>, events: seq<Event>, i: nat, j: nat)
    requires IsRun(states, events) && i < j < |states|
    requires events[i] == StartRefresh(None) && NoCapturedStart(events, i, j)
    ensures Shown(states[j], Payees).records == LastCorrection(events, i, j)
  {
    assert states[j] == Step(states[j - 1], events[j - 1]);
    if i + 1 < j {
      LockedPayeesAreLastCorrection(states, events, i, j - 1);
      WriteStep(states[j - 1], events[j - 1], Payees);
      if events[j - 1].TaskReply? && Writes(states[j - 1], events[j - 1], Payees) {
        var k := AnswerStartedSince(states, events, i, j - 1);
      }
    }
  }

  /** The report correction has no generation to check: finishing after a lock, it puts
      contributor records back on a locked page. */
  lemma CorrectionAfterLockShowsPayees() returns (states: seq<State>, events: seq<Event>)
    ensures events == [SessionChanges(Some(1)), StartRefresh(Some(1)), SessionChanges(None), StartRefresh(None),
                       PayeesReconciled(["payee"])]
    ensures IsRun(states, events) && CapturesRendered(states, events) && LockedDuring(states, 3, 5)
    ensures Shown(states[4], Payees).records == [] && Shown(states[5], Payees).records == ["payee"]
  {
    events := [SessionChanges(Some(1)), StartRefresh(Some(1)), SessionChanges(None), StartRefresh(None),
               PayeesReconciled(["payee"])];
    var one := Step(INITIAL, events[0]);
    var two := Step(one, events[1]);
    var three := Step(two, events[2]);
    var four := Step(three, events[3]);
    states := [INITIAL, one, two, three, four, Step(four, events[4])];
    assert states[1].session == Some(1) && states[3].session == None;
  }

  /** Some refresh has started since this generation. */
  ghost predicate Superseded(states: seq<State>, events: seq<Event>, generation: nat)
    requires |states| == |events| + 1
  {
    exists i :: 0 <= i < |events| && events[i].StartRefresh? && generation <= states[i].generation
  }

  /** No list has gone back to an older writer than in any state before. */
  ghost predicate WritersOnlyAdvanced(states: seq<State>, s: State) {
    forall i, list | 0 <= i < |states| :: Shown(states[i], list).writer <= Shown(s, list).writer
  }

  /** The page's refs and state setters, with the run they have gone through. */
  class ActivityPage {
    var session: Option<Session>
    var generation: nat
    var loading: bool
    var lists: map<ListName, Contents>
    var running: set<nat>
    var tasks: set<Task>
    ghost var states: seq<State>
    ghost var events: seq<Event>

    function View(): State
      reads this
    {
      State(session, generation, loading, lists, running, tasks)
    }

    ghost predicate Valid()
      reads this
    {
      IsRun(states, events) && View() == states[|events|]
    }

    constructor ()
      ensures Valid() && events == []
    {
      session, generation, loading, lists, running, tasks := None, 0, false, map[], {}, {};
      states, events := [INITIAL], [];
    }

    ghost method Record(e: Event)
      requires IsRun(states, events) && View() == Step(states[|events|], e)
      modifies this`states, this`events
      ensures Valid() && events == old(events) + [e] && states == old(states) + [View()]
      ensures loading <==> generation in running
      ensures WritersOnlyAdvanced(states, View())
    {
      states := states + [View()];
      events := events + [e];
      LoadingIffNewestRuns(states, events, |events|);
      forall i, list | 0 <= i < |states| ensures Shown(states[i], list).writer <= Shown(View(), list).writer {
        WriterNeverDecreases(states, events, i, |events|, list);
      }
    }

    /** The vault's session changes. Nothing on the page changes with it until a refresh runs. */
    method ChangeSession(next: Option<Session>)
      requires Valid()
      modifies this
      ensures Valid() && events == old(events) + [SessionChanges(next)]
      ensures session == next && lists == old(lists) && loading == old(loading)
    {
      session := next;
      Record(SessionChanges(next));
    }

    /** refreshActivity up to its first await, with the session its closure captured: every earlier
        refresh is superseded, and whether the page is cleared or loads depends on the captured
        session alone, not on the workspace's. */
    method RefreshActivity(captured: Option<Session>)
      requires Valid()
      modifies this
      ensures Valid() && events == old(events) + [StartRefresh(captured)]
      ensures forall g: nat | g < generation :: Superseded(states, events, g)
      ensures if captured.Some? then loading && lists == old(lists)
              else !loading && forall list :: Shown(View(), list).records == []
      ensures forall task :: task in tasks <==>
                task in old(tasks) || (captured.Some? && task.generation == generation && task.session == captured.value)
    {
      generation := generation + 1;
      if captured.None? {
        loading := false;
        lists := map list | list in ALL_LISTS :: Contents(generation, []);
      } else {
        loading := true;
        running := running + {generation};
        tasks := tasks + TasksOf(generation, captured.value);
      }
      forall task: Task ensures task.list in ALL_LISTS {
        EveryListIsCleared(task.list);
      }
      Record(StartRefresh(captured));
      assert events[|old(events)|].StartRefresh? && states[|old(events)|] == old(View());
      forall list ensures list in ALL_LISTS {
        EveryListIsCleared(list);
      }
    }

    /** One task after its read has answered: superseded, it shows nothing; and no list ever goes
        back to an older writer. */
    method OnTaskReply(task: Task, records: seq<string>)
      requires Valid() && task in tasks
      modifies this
      ensures Valid() && events == old(events) + [TaskReply(task, records)]
      ensures Superseded(old(states), old(events), task.generation) ==> lists == old(lists) && loading == old(loading)
      ensures WritersOnlyAdvanced(old(states), View())
      ensures tasks == old(tasks) - {task}
      ensures lists == if task.generation == old(generation) then old(lists)[task.list := Contents(task.generation, records)]
                       else old(lists)
    {
      tasks := tasks - {task};
      if task.generation == generation {
        lists := lists[task.list := Contents(task.generation, records)];
      }
      Record(TaskReply(task, records));
      assert forall i | 0 <= i < |old(states)| :: old(states)[i] == states[i];
      if Superseded(old(states), old(events), task.generation) {
        var i :| 0 <= i < |old(events)| && old(events)[i].StartRefresh? && task.generation <= old(states)[i].generation;
        SupersededRefreshIsInert(states, events, i, |old(events)|);
      }
    }

    /** The finally block once the task runner has returned: the flag stays exactly while the
        newest refresh runs. */
    method OnRefreshEnd(ended: nat)
      requires Valid() && ended in running
      modifies this
      ensures Valid() && events == old(events) + [RefreshEnd(ended)]
      ensures loading <==> generation in running
      ensures Superseded(old(states), old(events), ended) ==> loading == old(loading)
      ensures lists == old(lists)
    {
      running := running - {ended};
      if generation == ended {
        loading := false;
      }
      Record(RefreshEnd(ended));
      if Superseded(old(states), old(events), ended) {
        var i :| 0 <= i < |old(events)| && old(events)[i].StartRefresh? && ended <= old(states)[i].generation;
        SupersededRefreshIsInert(states, events, i, |old(events)|);
      }
    }

    /** A read that failed or was never started will not answer any more; nothing else changes. */
    method OnTaskGone(task: Task)
      requires Valid()
      modifies this
      ensures Valid() && events == old(events) + [TaskGone(task)]
      ensures tasks == old(tasks) - {task} && lists == old(lists) && loading == old(loading)
    {
      tasks := tasks - {task};
      Record(TaskGone(task));
    }

    /** A report correction's unguarded write: it reaches the contributor list whatever has been
        refreshed or locked since it began, and no other list. */
    method OnPayeesReconciled(records: seq<string>)
      requires Valid()
      modifies this
      ensures Valid() && events == old(events) + [PayeesReconciled(records)]
      ensures Shown(View(), Payees).records == records
      ensures forall list | list != Payees :: Shown(View(), list) == Shown(old(View()), list)
    {
      lists := lists[Payees := Contents(if Payees in lists then lists[Payees].writer else 0, records)];
      Record(PayeesReconciled(records));
    }
  }
}
