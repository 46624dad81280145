/** What the recovery poller keeps over every run of one unlocked session. */
module RecoveryProperties {
  import opened Wrappers
  import opened RecoveryPoller

  lemma CandidatesCons(record: Record, rest: seq<Record>, attempted: set<Run>)
    ensures Candidates([record] + rest, attempted)
            == (if Eligible(record, attempted) then [record.id.value] else []) + Candidates(rest, attempted)
  {
    assert ([record] + rest)[1..] == rest;
  }

  /** The candidates are exactly the listed runs that are confirmed, carry a transaction hash and
      have not been attempted. */
  lemma {:induction false} CandidatesExactly(records: seq<Record>, attempted: set<Run>, run: Run)
    ensures run in Candidates(records, attempted) <==>
            run !in attempted
            && exists i :: 0 <= i < |records| && records[i].id == Some(run)
                           && records[i].confirmed && records[i].transactionHash.Some?
  {
    if records != [] {
      CandidatesExactly(records[1..], attempted, run);
      if i :| 0 <= i < |records| && records[i].id == Some(run) && records[i].confirmed && records[i].transactionHash.Some? {
        assert i == 0 || records[1..][i - 1] == records[i];
      }
    }
  }

  lemma ListsOnceCons(record: Record, rest: seq<Record>, attempted: set<Run>)
    ensures ListsOnce([record] + rest, attempted) <==>
            && ListsOnce(rest, attempted)
            && (Eligible(record, attempted) ==>
                  forall i | 0 <= i < |rest| && Eligible(rest[i], attempted) :: rest[i].id != record.id)
  {
    var all := [record] + rest;
    assert forall i | 0 <= i < |rest| :: all[i + 1] == rest[i];
    if ListsOnce(all, attempted) {
      forall i, j | 0 <= i < j < |rest| && Eligible(rest[i], attempted) && Eligible(rest[j], attempted)
        ensures rest[i].id != rest[j].id
      {
        assert all[i + 1] == rest[i] && all[j + 1] == rest[j];
      }
      forall i | 0 <= i < |rest| && Eligible(record, attempted) && Eligible(rest[i], attempted)
        ensures rest[i].id != record.id
      {
        assert all[0] == record && all[i + 1] == rest[i];
      }
    }
  }

  lemma FreshCons(run: Run, rest: seq<Run>, attempted: set<Run>)
    ensures Fresh([run] + rest, attempted) <==> run !in attempted && run !in rest && Fresh(rest, attempted)
  {
    var all := [run] + rest;
    assert all[0] == run && forall i | 0 <= i < |rest| :: all[i + 1] == rest[i];
    if Fresh(all, attempted) {
      forall i, j | 0 <= i < j < |rest| ensures rest[i] != rest[j] && rest[i] !in attempted {
        assert all[i + 1] != all[j + 1];
      }
      forall i | 0 <= i < |rest| ensures rest[i] !in attempted && rest[i] != run {
        assert all[i + 1] !in attempted && all[0] != all[i + 1];
      }
    }
  }

  /** The candidates are fresh exactly when the listing has no eligible run twice; repeated runs
      that are unconfirmed, without a hash or already attempted do no harm. */
  lemma {:induction false} FreshExactlyWhenListedOnce(records: seq<Record>, attempted: set<Run>)
    ensures Fresh(Candidates(records, attempted), attempted) <==> ListsOnce(records, attempted)
  {
    if records != [] {
      var first, rest := records[0], records[1..];
      assert records == [first] + rest;
      FreshExactlyWhenListedOnce(rest, attempted);
      CandidatesCons(first, rest, attempted);
      ListsOnceCons(first, rest, attempted);
      if Eligible(first, attempted) {
        FreshCons(first.id.value, Candidates(rest, attempted), attempted);
        CandidatesExactly(rest, attempted, first.id.value);
      } else {
        assert [] + Candidates(rest, attempted) == Candidates(rest, attempted);
      }
    }
  }

  // ---- What exclusion needs, step by step ----

  lemma InvariantIsCore(s: State)
    requires Invariant(s)
    ensures Core(s)
  {
    forall id, other, run | MayContinue(s, id) && other != id && run in s.instances[id].poll.remaining
      ensures !InFlight(s, other, run)
    {
      var i :| 0 <= i < |s.instances[id].poll.remaining| && s.instances[id].poll.remaining[i] == run;
      assert run !in s.attempted;
    }
  }

  /** Nothing new in flight and no new timer: exclusion carries on if the set keeps what they rest on. */
  lemma FewerKeepExclusive(s: State, t: State)
    requires Exclusive(s)
    requires forall id, run | InFlight(t, id, run) :: InFlight(s, id, run) && run in t.attempted
    requires forall timer, run | Timed(t, timer, run) :: Timed(s, timer, run) && run in t.attempted
    ensures Exclusive(t)
  {
  }

  lemma AdvanceKeeps(s: State, id: nat, candidates: seq<Run>)
    requires Core(s) && id in s.instances && !s.instances[id].poll.Recovering?
    requires s.instances[id].cancelled || forall run | run in candidates :: !AnyInFlight(s, run)
    requires s.instances[id].cancelled || candidates == [] || !AnyTimer(s, candidates[0])
    ensures Core(Advance(s, id, candidates))
  {
    if candidates != [] && !s.instances[id].cancelled {
      AdvanceKeepsExclusive(s, id, candidates);
      AdvanceKeepsElsewhere(s, id, candidates);
    } else {
      IdleKeeps(s, id);
    }
  }

  lemma IdleKeeps(s: State, id: nat)
    requires Core(s) && id in s.instances
    ensures Core(SetPoll(s, id, Idle))
  {
    var t := SetPoll(s, id, Idle);
    assert forall other, run | InFlight(t, other, run) :: InFlight(s, other, run);
    assert forall timer, run | Timed(t, timer, run) :: Timed(s, timer, run);
    FewerKeepExclusive(s, t);
  }

  lemma AdvanceKeepsExclusive(s: State, id: nat, candidates: seq<Run>)
    requires Exclusive(s) && id in s.instances && !s.instances[id].poll.Recovering? && !s.instances[id].cancelled
    requires candidates != [] && !AnyInFlight(s, candidates[0]) && !AnyTimer(s, candidates[0])
    ensures Exclusive(Advance(s, id, candidates))
  {
    var t := Advance(s, id, candidates);
    assert forall other, run | InFlight(t, other, run) :: InFlight(s, other, run) || (other == id && run == candidates[0]);
    assert forall timer, run | Timed(t, timer, run) :: Timed(s, timer, run);
  }

  lemma AdvanceKeepsElsewhere(s: State, id: nat, candidates: seq<Run>)
    requires Placed(s) && id in s.instances && !s.instances[id].poll.Recovering? && !s.instances[id].cancelled
    requires candidates != [] && forall run | run in candidates :: !AnyInFlight(s, run)
    ensures Elsewhere(Advance(s, id, candidates))
  {
    var t := Advance(s, id, candidates);
    forall it, other, run | MayContinue(t, it) && other != it && run in t.instances[it].poll.remaining
      ensures !InFlight(t, other, run)
    {
      assert it == id && run in candidates;
      assert InFlight(t, other, run) ==> InFlight(s, other, run);
    }
  }

  lemma EndedKeeps(s: State, id: nat, outcome: Outcome)
    requires Core(s) && id in s.instances && s.instances[id].poll.Recovering?
    ensures Core(Ended(s, id, outcome))
    ensures !s.instances[id].cancelled ==>
              forall run | run in s.instances[id].poll.remaining :: !AnyInFlight(Ended(s, id, outcome), run)
  {
    var t, run := Ended(s, id, outcome), s.instances[id].poll.run;
    IdleKeeps(s, id);
    assert InFlight(s, id, run);
    forall other, r | InFlight(t, other, r) ensures InFlight(s, other, r) && r != run && other != id {
      assert other != id && InFlight(s, other, r);
    }
    assert forall timer, r | Timed(t, timer, r) :: Timed(s, timer, r) || (timer == s.nextId && r == run);
  }

  lemma TimerKeeps(s: State, timer: nat)
    requires Core(s) && timer in s.timers
    ensures Core(s.(timers := s.timers - {timer}, attempted := s.attempted - {s.timers[timer].run}))
  {
    var run := s.timers[timer].run;
    var t := s.(timers := s.timers - {timer}, attempted := s.attempted - {run});
    assert Timed(s, timer, run);
    forall other, r | InFlight(t, other, r) ensures InFlight(s, other, r) && r in t.attempted {
      assert InFlight(s, other, r);
    }
    forall other, r | Timed(t, other, r) ensures Timed(s, other, r) && r in t.attempted {
      assert Timed(s, other, r) && other != timer;
    }
    FewerKeepExclusive(s, t);
    assert forall id | MayContinue(t, id) :: MayContinue(s, id);
  }

  lemma CancelKeeps(s: State)
    requires Core(s)
    ensures Core(Cancel(s))
  {
    var t := Cancel(s);
    assert forall other, run | InFlight(t, other, run) :: InFlight(s, other, run);
    assert forall timer, run | Timed(t, timer, run) :: Timed(s, timer, run);
    FewerKeepExclusive(s, t);
  }

  lemma MountKeeps(s: State)
    requires Core(s) && s.current.None?
    ensures Core(Mount(s))
  {
    var t := Mount(s);
    assert forall other, run | InFlight(t, other, run) :: InFlight(s, other, run);
    assert forall timer, run | Timed(t, timer, run) :: Timed(s, timer, run);
    FewerKeepExclusive(s, t);
  }

  /** The set is emptied only while nothing rests on it. */
  ghost predicate EntersSafely(s: State, e: Event) {
    Clears(s, e) ==> !Busy(s)
  }

  /** Whatever the listings: exclusion survives a step that neither empties the set under a
      recovery or timer nor starts a run whose timer is pending. */
  lemma StepKeepsCore(s: State, e: Event)
    requires Core(s) && EntersSafely(s, e) && !StartsOverTimer(s, e)
    ensures Core(Step(s, e))
  {
    match e
    case EffectRuns(evidencePage, session) =>
      CancelKeeps(s);
      if !evidencePage {
        EnterKeeps(s, e);
        if session.Some? {
          MountKeeps(Enter(Cancel(s), session));
        }
      }
    case Unmount => CancelKeeps(s);
    case PollTick(id) => TickKeeps(s, id);
    case ListReply(id, reply) =>
      if id in s.instances && s.instances[id].poll.Listing? {
        if reply.Err? {
          IdleKeeps(s, id);
        } else {
          ListKeeps(s, id, reply.value);
        }
      }
    case RecoveryEnd(id, outcome) =>
      if id in s.instances && s.instances[id].poll.Recovering? {
        EndKeeps(s, id, outcome);
      }
    case TimerFires(timer) =>
      if timer in s.timers && s.timers[timer].due <= s.now {
        TimerKeeps(s, timer);
      }
    case TimePasses(ms) => TimeKeeps(s, ms);
  }

  /** Candidates are not attempted, so nothing in flight and no timer is theirs. */
  lemma ListKeeps(s: State, id: nat, records: seq<Record>)
    requires Core(s) && id in s.instances && s.instances[id].poll.Listing?
    ensures Core(Advance(s, id, Candidates(records, s.attempted)))
  {
    var candidates := Candidates(records, s.attempted);
    forall run | run in candidates ensures !AnyInFlight(s, run) && !AnyTimer(s, run) {
      CandidatesExactly(records, s.attempted, run);
    }
    AdvanceKeeps(s, id, candidates);
  }

  lemma EndKeeps(s: State, id: nat, outcome: Outcome)
    requires Core(s) && id in s.instances && s.instances[id].poll.Recovering?
    requires !StartsOverTimer(s, RecoveryEnd(id, outcome))
    ensures Core(Step(s, RecoveryEnd(id, outcome)))
  {
    var ended, remaining := Ended(s, id, outcome), s.instances[id].poll.remaining;
    EndedKeeps(s, id, outcome);
    if !s.instances[id].cancelled && remaining != [] {
      assert StartedBy(s, RecoveryEnd(id, outcome)) == Some(remaining[0]);
      assert Step(s, RecoveryEnd(id, outcome)).timers == ended.timers;
      assert forall timer | Timed(ended, timer, remaining[0]) :: Timed(Step(s, RecoveryEnd(id, outcome)), timer, remaining[0]);
    }
    AdvanceKeeps(ended, id, remaining);
  }

  lemma TickKeeps(s: State, id: nat)
    requires Core(s)
    ensures Core(Step(s, PollTick(id)))
  {
    var t := Step(s, PollTick(id));
    assert forall other, run | InFlight(t, other, run) :: InFlight(s, other, run);
    assert forall timer, run | Timed(t, timer, run) :: Timed(s, timer, run);
    FewerKeepExclusive(s, t);
  }

  lemma TimeKeeps(s: State, ms: nat)
    requires Core(s)
    ensures Core(s.(now := s.now + ms))
  {
    var t := s.(now := s.now + ms);
    assert forall other, run | InFlight(t, other, run) :: InFlight(s, other, run);
    assert forall timer, run | Timed(t, timer, run) :: Timed(s, timer, run);
    FewerKeepExclusive(s, t);
    assert forall id | MayContinue(t, id) :: MayContinue(s, id);
  }

  lemma EnterKeeps(s: State, e: Event)
    requires Core(Cancel(s)) && Enters(e) && EntersSafely(s, e)
    ensures Core(Enter(Cancel(s), e.session))
  {
    var c := Cancel(s);
    var t := Enter(c, e.session);
    forall id, run | InFlight(t, id, run) ensures InFlight(c, id, run) && run in t.attempted {
      assert InFlight(s, id, run) && AnyInFlight(s, run);
      assert InFlight(c, id, run);
    }
    forall timer, run | Timed(t, timer, run) ensures Timed(c, timer, run) && run in t.attempted {
      assert Timed(s, timer, run) && AnyTimer(s, run);
      assert Timed(c, timer, run);
    }
    FewerKeepExclusive(c, t);
    assert forall id | MayContinue(t, id) :: MayContinue(c, id);
  }

  // ---- With eligible runs listed once ----

  lemma FreshAdvance(s: State, id: nat, candidates: seq<Run>)
    requires Placed(s) && id in s.instances && !s.instances[id].poll.Recovering?
    requires s.instances[id].cancelled || Fresh(candidates, s.attempted)
    requires FreshRemaining(s)
    ensures FreshRemaining(Advance(s, id, candidates))
  {
    var t := Advance(s, id, candidates);
    if s.instances[id].cancelled || candidates == [] {
      FreshFewer(s, t);
    } else {
      forall it | MayContinue(t, it) ensures Fresh(t.instances[it].poll.remaining, t.attempted) {
        assert it == id && candidates[1..] == t.instances[it].poll.remaining;
      }
    }
  }

  lemma FreshEnter(s: State, evidencePage: bool, session: Option<string>)
    requires Placed(s)
    ensures FreshRemaining(OnEffect(s, evidencePage, session))
  {
    var t := OnEffect(s, evidencePage, session);
    assert forall id | id in t.instances && id != s.nextId :: t.instances[id].cancelled;
    assert forall id | id in t.instances && !t.instances[id].cancelled :: t.instances[id].poll.Idle?;
  }

  lemma FreshStep(s: State, e: Event)
    requires Invariant(s) && ListsOnceIn(s, e)
    ensures FreshRemaining(Step(s, e))
  {
    match e
    case EffectRuns(evidencePage, session) => FreshEnter(s, evidencePage, session);
    case ListReply(id, reply) =>
      if reply.Ok? && id in s.instances && s.instances[id].poll.Listing? {
        FreshExactlyWhenListedOnce(reply.value, s.attempted);
        FreshAdvance(s, id, Candidates(reply.value, s.attempted));
      }
    case RecoveryEnd(id, outcome) =>
      if id in s.instances && s.instances[id].poll.Recovering? {
        assert MayContinue(s, id) || s.instances[id].cancelled;
        FreshFewer(s, Ended(s, id, outcome));
        FreshAdvance(Ended(s, id, outcome), id, s.instances[id].poll.remaining);
      }
    case Unmount => FreshFewer(s, Step(s, e));
    case PollTick(id) => FreshFewer(s, Step(s, e));
    case TimerFires(timer) => FreshFewer(s, Step(s, e));
    case TimePasses(ms) => FreshFewer(s, Step(s, e));
  }

  /** Whoever may still continue could before, with the same runs to follow, and the set has not grown. */
  lemma FreshFewer(s: State, t: State)
    requires FreshRemaining(s) && t.attempted <= s.attempted
    requires forall id | MayContinue(t, id) :: MayContinue(s, id) && t.instances[id].poll == s.instances[id].poll
    ensures FreshRemaining(t)
  {
    forall id | MayContinue(t, id) ensures Fresh(t.instances[id].poll.remaining, t.attempted) {
      assert Fresh(s.instances[id].poll.remaining, s.attempted);
    }
  }

  lemma StepKeeps(s: State, e: Event)
    requires Invariant(s) && EntersSafely(s, e) && ListsOnceIn(s, e)
    ensures Invariant(Step(s, e))
  {
    InvariantIsCore(s);
    StartIsNotOverTimer(s, e);
    StepKeepsCore(s, e);
    FreshStep(s, e);
  }

  lemma StartIsNotOverTimer(s: State, e: Event)
    requires Invariant(s) && ListsOnceIn(s, e)
    ensures !StartsOverTimer(s, e)
  {
    var started := StartedBy(s, e);
    if started.Some? {
      StartIsFresh(s, e, started.value);
      NoTimerForStarted(s, e, started.value);
    }
  }

  lemma NoTimerForStarted(s: State, e: Event, run: Run)
    requires Invariant(s) && StartedBy(s, e) == Some(run) && run !in s.attempted && !AnyTimer(s, run)
    ensures !AnyTimer(Step(s, e), run)
  {
    if e.RecoveryEnd? {
      assert InFlight(s, e.id, s.instances[e.id].poll.run);
    }
    assert forall timer | Timed(Step(s, e), timer, run) :: Timed(s, timer, run);
  }

  // ---- Over whole runs ----

  ghost predicate Unlocked(events: seq<Event>, i: nat) {
    exists k :: 0 <= k < i && k < |events| && Enters(events[k]) && events[k].session.Some?
  }

  /** Before the first unlock nothing is attempted; afterwards the organization stands. */
  lemma {:induction false} SessionStands(states: seq<State>, events: seq<Event>, i: nat)
    requires IsRun(states, events) && OneSession(events) && i < |states|
    ensures !Unlocked(events, i) ==> states[i].attempted == {} && states[i].instances == map[] && states[i].timers == map[]
    ensures forall k | 0 <= k < i && Enters(events[k]) && events[k].session.Some? ::
              events[k].session == Some(states[i].organization)
  {
    if i > 0 {
      SessionStands(states, events, i - 1);
      var s, e := states[i - 1], events[i - 1];
      assert states[i] == Step(s, e);
      StepKeepsOrganization(s, e);
      if !Unlocked(events, i) {
        assert !Unlocked(events, i - 1);
        StepBeforeUnlock(s, e);
      }
      forall k | 0 <= k < i && Enters(events[k]) && events[k].session.Some?
        ensures events[k].session == Some(states[i].organization)
      {
        if k < i - 1 && Enters(e) {
          assert e.session == events[k].session;
        }
      }
    }
  }

  lemma StepKeepsOrganization(s: State, e: Event)
    ensures Step(s, e).organization == if !Enters(e) then s.organization else if e.session.Some? then e.session.value else ""
  {
  }

  lemma StepBeforeUnlock(s: State, e: Event)
    requires s.attempted == {} && s.instances == map[] && s.timers == map[]
    requires !(Enters(e) && e.session.Some?)
    ensures var t := Step(s, e); t.attempted == {} && t.instances == map[] && t.timers == map[]
  {
  }

  /** In particular, one session is calm, and after the first unlock it never empties the set. */
  lemma OneSessionIsCalm(states: seq<State>, events: seq<Event>)
    requires IsRun(states, events) && OneSession(events)
    ensures Calm(states, events)
    ensures forall i | 0 <= i < |events| && Unlocked(events, i) :: !Clears(states[i], events[i])
  {
    forall i | 0 <= i < |events|
      ensures if Unlocked(events, i) then !Clears(states[i], events[i]) else !Busy(states[i])
    {
      SessionStands(states, events, i);
      if Unlocked(events, i) && Enters(events[i]) {
        var k :| 0 <= k < i && k < |events| && Enters(events[k]) && events[k].session.Some?;
        assert events[i].session == events[k].session;
      }
    }
  }

  /** With calm entries and eligible runs listed once, across overlapping instances and any number
      of sessions, every recovery in flight and every pending timer is in the attempted set, and no
      run has two recoveries, two timers, or one of each. */
  lemma {:induction false} AlwaysExclusive(states: seq<State>, events: seq<Event>, i: nat)
    requires IsRun(states, events) && Calm(states, events) && ListedOnce(states, events) && i < |states|
    ensures Exclusive(states[i]) && Guarded(states[i])
  {
    if i > 0 {
      AlwaysExclusive(states, events, i - 1);
      StepKeeps(states[i - 1], events[i - 1]);
      assert states[i] == Step(states[i - 1], events[i - 1]);
    }
  }

  ghost predicate Numbered(s: State) {
    forall id | id in s.instances :: id < s.nextId
  }

  lemma NumberedStep(s: State, e: Event)
    requires Numbered(s)
    ensures Numbered(Step(s, e))
  {
  }

  lemma {:induction false} AlwaysNumbered(states: seq<State>, events: seq<Event>, i: nat)
    requires IsRun(states, events) && i < |states|
    ensures Numbered(states[i])
  {
    if i > 0 {
      AlwaysNumbered(states, events, i - 1);
      NumberedStep(states[i - 1], events[i - 1]);
      assert states[i] == Step(states[i - 1], events[i - 1]);
    }
  }

  /** Emptying the set under a recovery or a timer leaves it outside the set. */
  lemma BusyClearBreaksExclusion(s: State, e: Event)
    requires Numbered(s) && Clears(s, e) && Busy(s)
    ensures !Exclusive(Step(s, e))
  {
    var t := Step(s, e);
    assert t.attempted == {};
    var run :| AnyInFlight(s, run) || AnyTimer(s, run);
    if AnyInFlight(s, run) {
      var id :| InFlight(s, id, run);
      assert InFlight(t, id, run);
    } else {
      var timer :| Timed(s, timer, run);
      assert Timed(t, timer, run);
    }
  }

  /** Exactly: given eligible runs listed once, every state is exclusive if and only if the set is
      never emptied while a recovery is in flight or a timer is pending. */
  lemma ExclusiveExactlyWhenCalm(states: seq<State>, events: seq<Event>)
    requires IsRun(states, events) && ListedOnce(states, events)
    ensures (forall i | 0 <= i < |states| :: Exclusive(states[i])) <==> Calm(states, events)
  {
    if Calm(states, events) {
      forall i | 0 <= i < |states| ensures Exclusive(states[i]) {
        AlwaysExclusive(states, events, i);
      }
    }
    ExclusiveExactly(states, events);
  }

  /** Exactly, whatever the listings: every state is exclusive if and only if the set is never
      emptied while a recovery is in flight or a timer is pending, and no run is started while its
      own release timer is pending. */
  lemma ExclusiveExactly(states: seq<State>, events: seq<Event>)
    requires IsRun(states, events)
    ensures (forall i | 0 <= i < |states| :: Exclusive(states[i]))
            <==> Calm(states, events) && NeverOverTimer(states, events)
  {
    if Calm(states, events) && NeverOverTimer(states, events) {
      forall i | 0 <= i < |states| ensures Exclusive(states[i]) {
        AlwaysCore(states, events, i);
      }
    }
    if !Calm(states, events) {
      var i :| 0 <= i < |events| && Clears(states[i], events[i]) && Busy(states[i]);
      AlwaysNumbered(states, events, i);
      BusyClearBreaksExclusion(states[i], events[i]);
      assert states[i + 1] == Step(states[i], events[i]);
    }
    if !NeverOverTimer(states, events) {
      var i :| 0 <= i < |events| && StartsOverTimer(states[i], events[i]);
      StartOverTimerBreaksExclusion(states[i], events[i]);
      assert states[i + 1] == Step(states[i], events[i]);
    }
  }

  lemma {:induction false} AlwaysCore(states: seq<State>, events: seq<Event>, i: nat)
    requires IsRun(states, events) && Calm(states, events) && NeverOverTimer(states, events) && i < |states|
    ensures Core(states[i])
  {
    if i > 0 {
      AlwaysCore(states, events, i - 1);
      StepKeepsCore(states[i - 1], events[i - 1]);
      assert states[i] == Step(states[i - 1], events[i - 1]);
    }
  }

  lemma StartOverTimerBreaksExclusion(s: State, e: Event)
    requires StartsOverTimer(s, e)
    ensures !Exclusive(Step(s, e))
  {
    var t, run := Step(s, e), StartedBy(s, e).value;
    var timer :| Timed(t, timer, run);
    assert InFlight(t, e.id, run);
  }

  /** A recovery only ever starts for a run that is neither attempted, nor in flight, nor timed. */
  lemma StartIsFresh(s: State, e: Event, run: Run)
    requires Invariant(s) && ListsOnceIn(s, e) && StartedBy(s, e) == Some(run)
    ensures run !in s.attempted
    ensures !AnyInFlight(s, run) && !AnyTimer(s, run)
  {
    if e.ListReply? {
      FreshExactlyWhenListedOnce(e.reply.value, s.attempted);
    }
  }

  // ---- When a run is attempted again ----

  /** Never again: attempted, with nothing left that could take the run out of the set. */
  ghost predicate Settled(s: State, run: Run) {
    run in s.attempted && !AnyInFlight(s, run) && !AnyTimer(s, run)
  }

  /** Held back: a timer due no sooner than `due` is the only thing that can free the run. */
  ghost predicate HeldUntil(s: State, run: Run, due: int) {
    && run in s.attempted
    && !AnyInFlight(s, run)
    && AnyTimer(s, run)
    && forall timer | Timed(s, timer, run) :: s.timers[timer].due >= due
  }

  /** A step brings nothing into flight but the run it starts. */
  lemma FlightFrame(s: State, e: Event, id: nat, run: Run)
    requires Invariant(s) && InFlight(Step(s, e), id, run)
    ensures InFlight(s, id, run) || StartedBy(s, e) == Some(run)
  {
  }

  /** And takes nothing out of it but the run it ends. */
  lemma FlightPersists(s: State, e: Event, id: nat, run: Run)
    requires Invariant(s) && InFlight(s, id, run)
    ensures InFlight(Step(s, e), id, run) || (EndedBy(s, e) == Some(run) && e.id == id)
  {
  }

  /** Likewise for the timers: one is added by a retryable end, one removed when it fires. */
  lemma TimerFrame(s: State, e: Event, timer: nat, run: Run)
    requires Invariant(s)
    ensures Timed(Step(s, e), timer, run) ==>
              || (Timed(s, timer, run) && Step(s, e).timers[timer] == s.timers[timer])
              || (EndedBy(s, e) == Some(run) && e.outcome in {VerificationPending, OtherError} && timer == s.nextId
                  && Step(s, e).timers[timer].due == s.now + 15_000)
    ensures Timed(s, timer, run) ==>
              Timed(Step(s, e), timer, run) || (e == TimerFires(timer) && s.timers[timer].due <= s.now)
  {
  }

  /** And for the set: a run leaves it only when its own timer fires, or when it is emptied. */
  lemma AttemptedFrame(s: State, e: Event, run: Run)
    requires Invariant(s) && !Clears(s, e) && run in s.attempted
    ensures run in Step(s, e).attempted
            || (e.TimerFires? && Timed(s, e.timer, run) && s.timers[e.timer].due <= s.now)
  {
    match e
    case EffectRuns(_, _) =>
    case Unmount =>
    case PollTick(_) =>
    case ListReply(_, _) =>
    case RecoveryEnd(_, _) =>
    case TimerFires(_) =>
    case TimePasses(_) =>
  }

  lemma TimeNeverDecreases(s: State, e: Event)
    ensures s.now <= Step(s, e).now
  {
  }

  lemma SettledStays(s: State, e: Event, run: Run)
    requires Invariant(s) && !Clears(s, e) && ListsOnceIn(s, e) && Settled(s, run)
    ensures Settled(Step(s, e), run) && StartedBy(s, e) != Some(run)
  {
    var t := Step(s, e);
    if StartedBy(s, e) == Some(run) {
      StartIsFresh(s, e, run);
    }
    NotEnding(s, e, run);
    AttemptedFrame(s, e, run);
    if AnyTimer(t, run) {
      var timer :| Timed(t, timer, run);
      TimerFrame(s, e, timer, run);
    }
    NoneStarted(s, e, run);
  }

  lemma NoneStarted(s: State, e: Event, run: Run)
    requires Invariant(s) && !AnyInFlight(s, run) && StartedBy(s, e) != Some(run)
    ensures !AnyInFlight(Step(s, e), run)
  {
    if AnyInFlight(Step(s, e), run) {
      var id :| InFlight(Step(s, e), id, run);
      FlightFrame(s, e, id, run);
    }
  }

  lemma NotEnding(s: State, e: Event, run: Run)
    requires !AnyInFlight(s, run)
    ensures EndedBy(s, e) != Some(run)
  {
    if EndedBy(s, e) == Some(run) {
      assert InFlight(s, e.id, run);
    }
  }

  lemma HeldStays(s: State, e: Event, run: Run, due: int)
    requires Invariant(s) && EntersSafely(s, e) && ListsOnceIn(s, e) && HeldUntil(s, run, due)
    ensures StartedBy(s, e) != Some(run)
    ensures Step(s, e).now >= due || HeldUntil(Step(s, e), run, due)
  {
    var t := Step(s, e);
    if StartedBy(s, e) == Some(run) {
      StartIsFresh(s, e, run);
    }
    NotEnding(s, e, run);
    TimeNeverDecreases(s, e);
    if t.now < due {
      assert Busy(s);
      AttemptedFrame(s, e, run);
      var timer :| Timed(s, timer, run);
      TimerFrame(s, e, timer, run);
      assert Timed(t, timer, run);
      NoneStarted(s, e, run);
      forall other | Timed(t, other, run) ensures t.timers[other].due >= due {
        TimerFrame(s, e, other, run);
      }
    }
  }

  /** The end of a recovery settles its run for good, or holds it for at least 15 seconds. */
  lemma EndSettlesOrHolds(s: State, e: Event, run: Run)
    requires Invariant(s) && ListsOnceIn(s, e) && EndedBy(s, e) == Some(run)
    ensures if e.outcome in {VerificationPending, OtherError}
            then HeldUntil(Step(s, e), run, s.now + 15_000) && Step(s, e).timers == s.timers[s.nextId := Timer(run, s.now + 15_000)]
            else Settled(Step(s, e), run) && Step(s, e).timers == s.timers
  {
    var t := Step(s, e);
    assert InFlight(s, e.id, run);
    EndKeepsAttempted(s, e, run);
    if StartedBy(s, e) == Some(run) {
      StartIsFresh(s, e, run);
    }
    forall id ensures !InFlight(t, id, run) {
      if InFlight(t, id, run) {
        FlightFrame(s, e, id, run);
      }
      EndedIsIdleOrRestarted(s, e, run);
    }
    forall timer | Timed(t, timer, run)
      ensures e.outcome in {VerificationPending, OtherError} && t.timers[timer].due == s.now + 15_000
    {
      TimerFrame(s, e, timer, run);
    }
    if e.outcome in {VerificationPending, OtherError} {
      assert Timed(t, s.nextId, run);
    }
  }

  /** A timer gives its run back exactly when it is due, and is gone then. */
  lemma TimerReleasesWhenDue(s: State, timer: nat)
    requires timer in s.timers
    ensures var t, due, run := Step(s, TimerFires(timer)), s.timers[timer].due, s.timers[timer].run;
            if due <= s.now then run !in t.attempted && t.attempted == s.attempted - {run} && t.timers == s.timers - {timer}
            else t == s
  {
  }

  function Elapsed(events: seq<Event>, i: nat, j: nat): int
    requires i <= j <= |events|
  {
    if i == j then 0
    else Elapsed(events, i, j - 1) + if events[j - 1].TimePasses? then events[j - 1].ms else 0
  }

  /** Time passes as it passes, and nothing else moves the clock. */
  lemma {:induction false} ClockIsElapsedTime(states: seq<State>, events: seq<Event>, i: nat, j: nat)
    requires IsRun(states, events) && i <= j <= |events|
    ensures states[j].now == states[i].now + Elapsed(events, i, j)
  {
    if i < j {
      ClockIsElapsedTime(states, events, i, j - 1);
      assert states[j] == Step(states[j - 1], events[j - 1]);
    }
  }

  function EndsBetween(events: seq<Event>, i: nat, j: nat, id: nat): nat
    requires i < j <= |events|
  {
    if i + 1 == j then 0
    else EndsBetween(events, i, j - 1, id) + if events[j - 1].RecoveryEnd? && events[j - 1].id == id then 1 else 0
  }

  /** An instance that is not cancelled works through the candidates of its listing, all of them
      and in order: after n recoveries have ended the n-th candidate, from zero, is being recovered. */
  lemma CandidatesInOrder(states: seq<State>, events: seq<Event>, i: nat, j: nat, id: nat)
    requires IsRun(states, events) && i < j <= |events| && events[i].ListReply? && events[i].id == id && events[i].reply.Ok?
    requires forall m | i <= m <= j :: id in states[m].instances && !states[m].instances[id].cancelled
    requires states[i].instances[id].poll.Listing? && forall m | i < m < j :: events[m] != PollTick(id)
    ensures states[j].instances[id].poll ==
            PollAt(Candidates(events[i].reply.value, states[i].attempted), EndsBetween(events, i, j, id))
  {
    ListingStartsFirst(states[i], events[i]);
    StaysInOrder(states, events, i, j, id, Candidates(events[i].reply.value, states[i].attempted));
  }

  lemma {:induction false} StaysInOrder(states: seq<State>, events: seq<Event>, i: nat, j: nat, id: nat, candidates: seq<Run>)
    requires IsRun(states, events) && i < j <= |events|
    requires forall m | i < m <= j :: id in states[m].instances && !states[m].instances[id].cancelled
    requires states[i + 1].instances[id].poll == PollAt(candidates, 0) && forall m | i < m < j :: events[m] != PollTick(id)
    ensures states[j].instances[id].poll == PollAt(candidates, EndsBetween(events, i, j, id))
  {
    if i + 1 < j {
      StaysInOrder(states, events, i, j - 1, id, candidates);
      AlwaysNumbered(states, events, j - 1);
      assert states[j] == Step(states[j - 1], events[j - 1]);
      WorksThrough(states[j - 1], events[j - 1], id, candidates, EndsBetween(events, i, j - 1, id));
    }
  }

  lemma WorksThrough(s: State, e: Event, id: nat, candidates: seq<Run>, n: nat)
    requires Numbered(s) && id in s.instances && id in Step(s, e).instances && !Step(s, e).instances[id].cancelled
    requires s.instances[id].poll == PollAt(candidates, n) && !s.instances[id].cancelled && e != PollTick(id)
    ensures Step(s, e).instances[id].poll == PollAt(candidates, n + if e.RecoveryEnd? && e.id == id then 1 else 0)
  {
    InstanceMovesOn(s, e, id);
    if n < |candidates| {
      NextCandidate(candidates, n);
    }
  }

  /** The n-th candidate is being recovered, and the later ones remain. */
  function PollAt(candidates: seq<Run>, n: nat): Poll {
    if n < |candidates| then Recovering(candidates[n], candidates[n + 1..]) else Idle
  }

  lemma ListingStartsFirst(s: State, e: Event)
    requires e.ListReply? && e.reply.Ok? && e.id in s.instances && s.instances[e.id].poll.Listing?
    requires !s.instances[e.id].cancelled
    ensures e.id in Step(s, e).instances
    ensures Step(s, e).instances[e.id].poll == PollAt(Candidates(e.reply.value, s.attempted), 0)
  {
  }

  lemma NextCandidate(candidates: seq<Run>, n: nat)
    requires n < |candidates|
    ensures var poll := PollAt(candidates, n);
            PollAt(candidates, n + 1) ==
            if poll.remaining == [] then Idle else Recovering(poll.remaining[0], poll.remaining[1..])
  {
  }

  /** Only the end of its own recovery moves such an instance on, to the next run or to rest. */
  lemma InstanceMovesOn(s: State, e: Event, id: nat)
    requires Numbered(s) && id in s.instances && id in Step(s, e).instances && !Step(s, e).instances[id].cancelled
    requires !s.instances[id].poll.Listing? && !s.instances[id].cancelled && e != PollTick(id)
    ensures var poll := s.instances[id].poll;
            Step(s, e).instances[id].poll ==
            if !e.RecoveryEnd? || e.id != id || poll.Idle? then poll
            else if poll.remaining == [] then Idle
            else Recovering(poll.remaining[0], poll.remaining[1..])
  {
  }

  lemma OutcomeIsOneOrTheOther(outcome: Outcome)
    ensures outcome in {VerificationPending, OtherError} <==>
            outcome !in {AuthorizationComplete, VerificationQueued, DeadlineMissed}
  {
    match outcome
    case AuthorizationComplete =>
    case VerificationQueued =>
    case VerificationPending =>
    case DeadlineMissed =>
    case OtherError =>
  }

  lemma EndKeepsAttempted(s: State, e: Event, run: Run)
    requires Invariant(s) && EndedBy(s, e) == Some(run)
    ensures run in Step(s, e).attempted
  {
    assert InFlight(s, e.id, run);
  }

  lemma EndedIsIdleOrRestarted(s: State, e: Event, run: Run)
    requires Invariant(s) && EndedBy(s, e) == Some(run) && StartedBy(s, e) != Some(run)
    ensures !InFlight(Step(s, e), e.id, run)
  {
  }

  ghost predicate NeverCleared(states: seq<State>, events: seq<Event>, i: nat, k: nat)
    requires |states| == |events| + 1 && k <= |events|
  {
    forall m | i < m < k :: !Clears(states[m], events[m])
  }

  ghost predicate NeverStarted(states: seq<State>, events: seq<Event>, i: nat, k: nat, run: Run)
    requires |states| == |events| + 1 && k <= |events|
  {
    forall m | i < m < k :: StartedBy(states[m], events[m]) != Some(run)
  }

  lemma {:induction false} SettledUntilCleared(states: seq<State>, events: seq<Event>, i: nat, k: nat, run: Run)
    requires IsRun(states, events) && Calm(states, events) && ListedOnce(states, events) && i < k < |states|
    requires EndedBy(states[i], events[i]) == Some(run) && events[i].outcome in {AuthorizationComplete, VerificationQueued, DeadlineMissed}
    requires NeverCleared(states, events, i, k)
    ensures Settled(states[k], run)
  {
    AlwaysExclusive(states, events, k - 1);
    assert states[k] == Step(states[k - 1], events[k - 1]) && ListsOnceIn(states[k - 1], events[k - 1]);
    if k == i + 1 {
      EndSettlesOrHolds(states[i], events[i], run);
    } else {
      SettledUntilCleared(states, events, i, k - 1, run);
      SettledStays(states[k - 1], events[k - 1], run);
    }
  }

  /** A run that ended complete, queued or past its deadline is never attempted again, as long as
      the set is not emptied; in one session, never. */
  lemma FinishedIsNeverRetried(states: seq<State>, events: seq<Event>, i: nat, k: nat, run: Run)
    requires IsRun(states, events) && Calm(states, events) && ListedOnce(states, events) && i < k < |events|
    requires EndedBy(states[i], events[i]) == Some(run) && events[i].outcome in {AuthorizationComplete, VerificationQueued, DeadlineMissed}
    requires NeverCleared(states, events, i, k)
    ensures StartedBy(states[k], events[k]) != Some(run)
  {
    SettledUntilCleared(states, events, i, k, run);
    AlwaysExclusive(states, events, k);
    StartIsFreshAt(states, events, k, run);
  }

  lemma StartIsFreshAt(states: seq<State>, events: seq<Event>, k: nat, run: Run)
    requires IsRun(states, events) && Calm(states, events) && ListedOnce(states, events) && k < |events|
    ensures StartedBy(states[k], events[k]) == Some(run) ==>
              run !in states[k].attempted && !AnyInFlight(states[k], run) && !AnyTimer(states[k], run)
  {
    AlwaysExclusive(states, events, k);
    if StartedBy(states[k], events[k]) == Some(run) {
      assert ListsOnceIn(states[k], events[k]);
      StartIsFresh(states[k], events[k], run);
    }
  }

  /** Only a start puts a run into the set. */
  lemma AttemptedBySomeStart(s: State, e: Event, run: Run)
    requires run !in s.attempted && run in Step(s, e).attempted
    ensures StartedBy(s, e) == Some(run)
  {
  }

  /** Until it is started again, a finished run stays out of reach exactly as long as the set is
      not emptied. */
  lemma FinishedExactlyUntilCleared(states: seq<State>, events: seq<Event>, i: nat, k: nat, run: Run)
    requires IsRun(states, events) && Calm(states, events) && ListedOnce(states, events) && i < k < |states|
    requires EndedBy(states[i], events[i]) == Some(run) && events[i].outcome in {AuthorizationComplete, VerificationQueued, DeadlineMissed}
    requires NeverStarted(states, events, i, k, run)
    ensures run in states[k].attempted <==> NeverCleared(states, events, i, k)
  {
    if NeverCleared(states, events, i, k) {
      SettledUntilCleared(states, events, i, k, run);
    } else {
      var m :| i < m < k && Clears(states[m], events[m]);
      OutOnceCleared(states, events, m, k, run);
    }
  }

  /** A run is out of the emptied set until it is started again. */
  lemma {:induction false} OutOnceCleared(states: seq<State>, events: seq<Event>, m: nat, k: nat, run: Run)
    requires IsRun(states, events) && m < k < |states| && Clears(states[m], events[m])
    requires NeverStarted(states, events, m, k, run)
    ensures run !in states[k].attempted
  {
    var s, e := states[k - 1], events[k - 1];
    assert states[k] == Step(s, e);
    if m < k - 1 {
      OutOnceCleared(states, events, m, k - 1, run);
      if run in states[k].attempted {
        AttemptedBySomeStart(s, e, run);
      }
    }
  }

  lemma OneSessionNeverRetries(states: seq<State>, events: seq<Event>, i: nat, k: nat, run: Run)
    requires IsRun(states, events) && OneSession(events) && ListedOnce(states, events) && i < k < |events|
    requires EndedBy(states[i], events[i]) == Some(run) && events[i].outcome in {AuthorizationComplete, VerificationQueued, DeadlineMissed}
    ensures StartedBy(states[k], events[k]) != Some(run)
  {
    OneSessionIsCalm(states, events);
    SessionStands(states, events, i);
    assert InFlight(states[i], events[i].id, run);
    assert Unlocked(events, i);
    forall m | i < m < k ensures Unlocked(events, m) {
    }
    FinishedIsNeverRetried(states, events, i, k, run);
  }

  lemma {:induction false} HeldWhileEarly(states: seq<State>, events: seq<Event>, i: nat, k: nat, run: Run)
    requires IsRun(states, events) && Calm(states, events) && ListedOnce(states, events) && i < k < |states|
    requires EndedBy(states[i], events[i]) == Some(run) && events[i].outcome in {VerificationPending, OtherError}
    ensures states[k].now >= states[i].now + 15_000 || HeldUntil(states[k], run, states[i].now + 15_000)
  {
    if k == i + 1 {
      HeldAtEnd(states, events, i, run);
    } else {
      HeldWhileEarly(states, events, i, k - 1, run);
      HeldOneStepMore(states, events, k - 1, run, states[i].now + 15_000);
    }
  }

  lemma HeldAtEnd(states: seq<State>, events: seq<Event>, i: nat, run: Run)
    requires IsRun(states, events) && Calm(states, events) && ListedOnce(states, events) && i < |events|
    requires EndedBy(states[i], events[i]) == Some(run) && events[i].outcome in {VerificationPending, OtherError}
    ensures HeldUntil(states[i + 1], run, states[i].now + 15_000)
  {
    AlwaysExclusive(states, events, i);
    assert ListsOnceIn(states[i], events[i]) && states[i + 1] == Step(states[i], events[i]);
    EndSettlesOrHolds(states[i], events[i], run);
  }

  lemma HeldOneStepMore(states: seq<State>, events: seq<Event>, m: nat, run: Run, due: int)
    requires IsRun(states, events) && Calm(states, events) && ListedOnce(states, events) && m < |events|
    requires states[m].now >= due || HeldUntil(states[m], run, due)
    ensures states[m + 1].now >= due || HeldUntil(states[m + 1], run, due)
  {
    assert states[m + 1] == Step(states[m], events[m]);
    TimeNeverDecreases(states[m], events[m]);
    if states[m].now < due {
      AlwaysExclusive(states, events, m);
      assert EntersSafely(states[m], events[m]) && ListsOnceIn(states[m], events[m]);
      HeldStays(states[m], events[m], run, due);
    }
  }

  /** Any other run is attempted again no sooner than 15 seconds after it ended. */
  lemma RetryWaits(states: seq<State>, events: seq<Event>, i: nat, k: nat, run: Run)
    requires IsRun(states, events) && Calm(states, events) && ListedOnce(states, events) && i < k < |events|
    requires EndedBy(states[i], events[i]) == Some(run) && events[i].outcome in {VerificationPending, OtherError}
    requires StartedBy(states[k], events[k]) == Some(run)
    ensures states[k].now >= states[i].now + 15_000
  {
    HeldWhileEarly(states, events, i, k, run);
    AlwaysExclusive(states, events, k);
    assert EntersSafely(states[k], events[k]) && ListsOnceIn(states[k], events[k]);
    if states[k].now < states[i].now + 15_000 {
      HeldStays(states[k], events[k], run, states[i].now + 15_000);
    }
  }

  lemma {:induction false} InFlightUntilEnd(states: seq<State>, events: seq<Event>, i: nat, k: nat, run: Run) returns (j: nat)
    requires IsRun(states, events) && Calm(states, events) && ListedOnce(states, events) && i < k < |events|
    requires StartedBy(states[i], events[i]) == Some(run)
    requires !AnyInFlight(states[k], run)
    ensures i < j < k && EndedBy(states[j], events[j]) == Some(run)
    decreases k
  {
    AlwaysExclusive(states, events, k - 1);
    assert states[k] == Step(states[k - 1], events[k - 1]);
    if k == i + 1 {
      assert InFlight(states[k], events[i].id, run);
      assert false;
    } else if AnyInFlight(states[k - 1], run) {
      var id :| InFlight(states[k - 1], id, run);
      FlightPersists(states[k - 1], events[k - 1], id, run);
      j := k - 1;
    } else {
      j := InFlightUntilEnd(states, events, i, k - 1, run);
    }
  }

  /** Between two attempts of one run, whichever instances make them, the first ended; if that end
      was retryable at least 15 seconds have passed since, and otherwise the set was emptied. */
  lemma AttemptsAreSpaced(states: seq<State>, events: seq<Event>, i: nat, k: nat, run: Run) returns (j: nat)
    requires IsRun(states, events) && Calm(states, events) && ListedOnce(states, events) && i < k < |events|
    requires StartedBy(states[i], events[i]) == Some(run) && StartedBy(states[k], events[k]) == Some(run)
    ensures i < j < k && EndedBy(states[j], events[j]) == Some(run)
    ensures if events[j].outcome in {VerificationPending, OtherError} then states[k].now >= states[j].now + 15_000
            else !NeverCleared(states, events, j, k)
  {
    StartIsFreshAt(states, events, k, run);
    j := InFlightUntilEnd(states, events, i, k, run);
    OutcomeIsOneOrTheOther(events[j].outcome);
    if events[j].outcome in {VerificationPending, OtherError} {
      RetryWaits(states, events, j, k, run);
    } else if NeverCleared(states, events, j, k) {
      FinishedIsNeverRetried(states, events, j, k, run);
    }
  }

  // ---- What the hypotheses keep out ----

  const RECORD := Record(Some("r"), true, Some("0x1"))

  /** The poller while it recovers run "r" in its first instance, with these runs to follow. */
  function RecoveringR(remaining: seq<Run>): State {
    State({"r"}, "o", Some(0), map[0 := Instance(false, Recovering("r", remaining))], map[], 1, 0)
  }

  /** How it gets there: unlock, poll, and a listing of "r" and these runs. */
  lemma ReachesRecovering(records: seq<Record>, remaining: seq<Run>)
    requires Candidates(records, {}) == ["r"] + remaining
    ensures var one := Step(INITIAL, EffectRuns(false, Some("o")));
            var two := Step(one, PollTick(0));
            && one == State({}, "o", Some(0), map[0 := Instance(false, Idle)], map[], 1, 0)
            && two == one.(instances := map[0 := Instance(false, Listing)])
            && Step(two, ListReply(0, Ok(records))) == RecoveringR(remaining)
  {
    assert (["r"] + remaining)[1..] == remaining;
  }

  /** The set is looked at once per listing, not once per candidate: a run listed twice is
      attempted again the moment its first attempt has failed. */
  lemma DuplicateIsRetriedAtOnce() returns (states: seq<State>, events: seq<Event>)
    ensures IsRun(states, events) && OneSession(events) && !ListedOnce(states, events) && !NeverOverTimer(states, events)
    ensures events == [EffectRuns(false, Some("o")), PollTick(0), ListReply(0, Ok([RECORD, RECORD])), RecoveryEnd(0, OtherError)]
    ensures EndedBy(states[3], events[3]) == Some("r") && StartedBy(states[3], events[3]) == Some("r")
    ensures InFlight(states[4], 0, "r") && Timed(states[4], 1, "r")
  {
    events := [EffectRuns(false, Some("o")), PollTick(0), ListReply(0, Ok([RECORD, RECORD])), RecoveryEnd(0, OtherError)];
    assert Candidates([RECORD, RECORD], {}) == ["r", "r"] by {
      assert [RECORD, RECORD][1..] == [RECORD];
      assert Candidates([RECORD], {}) == ["r"];
    }
    ReachesRecovering([RECORD, RECORD], ["r"]);
    var one := Step(INITIAL, events[0]);
    var two := Step(one, events[1]);
    var three := RecoveringR(["r"]);
    states := [INITIAL, one, two, three, Step(three, events[3])];
    assert Eligible([RECORD, RECORD][0], {}) && Eligible([RECORD, RECORD][1], {});
    assert !ListsOnceIn(states[2], events[2]);
    assert Timed(states[4], 1, "r") && StartsOverTimer(states[3], events[3]);
  }

  /** Locking forgets the set but not the recoveries: after unlocking again the same run is
      recovered by two instances at once. */
  lemma RelockRecoversTwice() returns (states: seq<State>, events: seq<Event>)
    ensures IsRun(states, events) && !Calm(states, events)
    ensures events == [EffectRuns(false, Some("o")), PollTick(0), ListReply(0, Ok([RECORD])), EffectRuns(false, None),
                       EffectRuns(false, Some("o")), PollTick(1), ListReply(1, Ok([RECORD]))]
    ensures InFlight(states[7], 0, "r") && InFlight(states[7], 1, "r")
  {
    events := [EffectRuns(false, Some("o")), PollTick(0), ListReply(0, Ok([RECORD])), EffectRuns(false, None),
               EffectRuns(false, Some("o")), PollTick(1), ListReply(1, Ok([RECORD]))];
    assert Candidates([RECORD], {}) == ["r"];
    assert ["r"] + [] == ["r"];
    ReachesRecovering([RECORD], []);
    var one := Step(INITIAL, events[0]);
    var two := Step(one, events[1]);
    var three := RecoveringR([]);
    var four, five, six, seven := AfterRelock();
    states := [INITIAL, one, two, three, four, five, six, seven];
    assert InFlight(states[3], 0, "r") && AnyInFlight(states[3], "r") && Clears(states[3], events[3]);
  }

  /** Lock, unlock, poll and list again, from that state. */
  lemma AfterRelock() returns (four: State, five: State, six: State, seven: State)
    ensures four == Step(RecoveringR([]), EffectRuns(false, None))
    ensures five == Step(four, EffectRuns(false, Some("o"))) && six == Step(five, PollTick(1))
    ensures seven == Step(six, ListReply(1, Ok([RECORD])))
    ensures InFlight(seven, 0, "r") && InFlight(seven, 1, "r")
  {
    four := Step(RecoveringR([]), EffectRuns(false, None));
    five := Step(four, EffectRuns(false, Some("o")));
    six := Step(five, PollTick(1));
    assert Candidates([RECORD], {}) == ["r"];
    seven := Step(six, ListReply(1, Ok([RECORD])));
  }
}
