/** The recovery effect's mutable state: the shared set, the flags of each instance, the timers,
    and the run they have gone through. Each method promises what the theorems about runs say,
    on the two hypotheses those need: calm entries and listings without an eligible run twice. */
module RecoveryEffect {
  import opened RecoveryPoller
  import opened RecoveryProperties
  import opened Wrappers

  ghost predicate Orderly(states: seq<State>, events: seq<Event>)
    requires |states| == |events| + 1
  {
    Calm(states, events) && ListedOnce(states, events)
  }

  /** The attempt begun at step i ended at some step in between, and if that end was retryable it
      lies 15 seconds back; otherwise the attempted set has been emptied since. */
  ghost predicate Spaced(states: seq<State>, events: seq<Event>, i: nat, k: nat, run: Run)
    requires |states| == |events| + 1 && i < k <= |events|
  {
    exists j :: i < j < k && EndedBy(states[j], events[j]) == Some(run)
                && if events[j].outcome in {VerificationPending, OtherError} then states[k].now >= states[j].now + 15_000
                   else !NeverCleared(states, events, j, k)
  }

  /** The run that step k starts, if any, rests on nothing else and is spaced from its earlier attempts. */
  ghost predicate StartsSafely(states: seq<State>, events: seq<Event>, k: nat)
    requires |states| == |events| + 1 && k < |events|
  {
    var run := StartedBy(states[k], events[k]);
    run.Some? ==>
      && run.value !in states[k].attempted && !AnyInFlight(states[k], run.value) && !AnyTimer(states[k], run.value)
      && forall i | 0 <= i < k && StartedBy(states[i], events[i]) == run :: Spaced(states, events, i, k, run.value)
  }

  /** What an instance does with the runs still to recover: nothing once cancelled, else the first. */
  function NextPoll(cancelled: bool, candidates: seq<Run>): Poll {
    if cancelled || candidates == [] then Idle else Recovering(candidates[0], candidates[1..])
  }

  class Shell {
    var attempted: set<Run>
    var organization: string
    var current: Option<nat>
    var instances: map<nat, Instance>
    var timers: map<nat, Timer>
    var nextId: nat
    var now: int
    ghost var states: seq<State>
    ghost var events: seq<Event>

    function View(): State
      reads this
    {
      State(attempted, organization, current, instances, timers, nextId, now)
    }

    /** The fields are the last state of the run that has happened so far. */
    ghost predicate Valid()
      reads this
    {
      IsRun(states, events) && View() == states[|events|]
    }

    constructor ()
      ensures Valid() && events == []
    {
      attempted, organization, current := {}, "", None;
      instances, timers, nextId, now := map[], map[], 0, 0;
      states, events := [INITIAL], [];
    }

    ghost method Record(e: Event)
      requires IsRun(states, events) && View() == Step(states[|events|], e)
      modifies this`states, this`events
      ensures Valid() && events == old(events) + [e] && states == old(states) + [View()]
    {
      states := states + [View()];
      events := events + [e];
    }

    /** Between any two stretches, recoveries and timers exclude each other. */
    lemma Promises()
      requires Valid() && Orderly(states, events)
      ensures RecoveryPoller.Exclusive(View()) && Guarded(View())
    {
      AlwaysExclusive(states, events, |events|);
    }

    /** What the last step started was safe to start. */
    lemma LastStartIsSafe()
      requires Valid() && events != []
      ensures Orderly(states, events) ==> StartsSafely(states, events, |events| - 1)
    {
      var k := |events| - 1;
      var run := StartedBy(states[k], events[k]);
      if Orderly(states, events) && run.Some? {
        StartIsFreshAt(states, events, k, run.value);
        forall i | 0 <= i < k && StartedBy(states[i], events[i]) == run ensures Spaced(states, events, i, k, run.value) {
          var j := AttemptsAreSpaced(states, events, i, k, run.value);
        }
      }
    }

    /** What the last step ended is settled or held back. */
    lemma LastEndSettlesOrHolds(run: Run)
      requires Valid() && events != []
      requires var k := |events| - 1; EndedBy(states[k], events[k]) == Some(run)
      ensures var k := |events| - 1;
              Orderly(states, events) ==>
                if events[k].outcome in {VerificationPending, OtherError} then HeldUntil(View(), run, states[k].now + 15_000)
                else Settled(View(), run)
    {
      var k := |events| - 1;
      if Orderly(states, events) {
        AlwaysExclusive(states, events, k);
        assert ListsOnceIn(states[k], events[k]) && states[k + 1] == Step(states[k], events[k]);
        EndSettlesOrHolds(states[k], events[k], run);
      }
    }

    method CancelCurrent()
      modifies this`current, this`instances
      ensures View() == Cancel(old(View()))
    {
      if current.Some? && current.value in instances {
        instances := instances[current.value := instances[current.value].(cancelled := true)];
      }
      current := None;
    }

    /** The cleanup when the component goes away: no recovery in flight and no timer is stopped. */
    method Cleanup()
      requires Valid()
      modifies this
      ensures Valid() && events == old(events) + [Unmount]
      ensures forall id, run :: InFlight(View(), id, run) <==> InFlight(old(View()), id, run)
      ensures timers == old(timers) && attempted == old(attempted) && current.None?
    {
      CancelCurrent();
      Record(Unmount);
    }

    /** One execution of the effect, after the cleanup of the one before: recoveries in flight and
        timers stay, whatever becomes of the set, and the set is emptied exactly on entering a
        session that is not the one on record. */
    method RunEffect(evidencePage: bool, session: Option<string>)
      requires Valid()
      modifies this
      ensures Valid() && events == old(events) + [EffectRuns(evidencePage, session)]
      ensures forall id, run :: InFlight(View(), id, run) <==> InFlight(old(View()), id, run)
      ensures timers == old(timers)
      ensures attempted == if Clears(old(View()), EffectRuns(evidencePage, session)) then {} else old(attempted)
      ensures if evidencePage || session.None? then current.None?
              else current == Some(old(nextId)) && old(nextId) in instances && instances[old(nextId)] == Instance(false, Idle)
    {
      AlwaysNumbered(states, events, |events|);
      CancelCurrent();
      if !evidencePage {
        if session.None? {
          attempted := {};
          organization := "";
        } else {
          if organization != session.value {
            attempted := {};
            organization := session.value;
          }
          current := Some(nextId);
          instances := instances[nextId := Instance(false, Idle)];
          nextId := nextId + 1;
        }
      }
      Record(EffectRuns(evidencePage, session));
    }

    /** recoverMissingProofJobs up to the await of the listing: nothing is attempted yet, and only
        an idle instance that is not cancelled lists. */
    method Poll(id: nat)
      requires Valid() && id in instances
      modifies this
      ensures Valid() && events == old(events) + [PollTick(id)]
      ensures attempted == old(attempted) && timers == old(timers)
      ensures id in instances
      ensures instances[id] == if old(instances[id]) == Instance(false, Idle) then Instance(false, Listing) else old(instances[id])
    {
      if instances[id].poll.Idle? && !instances[id].cancelled {
        instances := instances[id := instances[id].(poll := Listing)];
      }
      Record(PollTick(id));
    }

    /** The candidate loop, up to the next await. */
    method Continue(id: nat, candidates: seq<Run>)
      requires id in instances
      modifies this`instances, this`attempted
      ensures View() == Advance(old(View()), id, candidates)
    {
      if candidates == [] || instances[id].cancelled {
        instances := instances[id := instances[id].(poll := Idle)];
        return;
      }
      attempted := attempted + {candidates[0]};
      instances := instances[id := instances[id].(poll := Recovering(candidates[0], candidates[1..]))];
    }

    /** The recovery that the listing starts, if any, is safe to start. */
    method OnListReply(id: nat, reply: Result<seq<Record>, string>)
      requires Valid() && id in instances && instances[id].poll.Listing?
      modifies this
      ensures Valid() && events == old(events) + [ListReply(id, reply)]
      ensures Orderly(states, events) ==> StartsSafely(states, events, |old(events)|)
      ensures id in instances
      ensures instances[id].poll ==
                if reply.Err? then Idle else NextPoll(old(instances[id]).cancelled, Candidates(reply.value, old(attempted)))
    {
      if reply.Err? {
        instances := instances[id := instances[id].(poll := Idle)];
      } else {
        Continue(id, Candidates(reply.value, attempted));
      }
      Record(ListReply(id, reply));
      LastStartIsSafe();
    }

    /** The run that ended is settled, or held for 15 seconds; and the one started after it, if any,
        is safe to start. */
    method OnRecoveryEnd(id: nat, outcome: Outcome)
      requires Valid() && id in instances && instances[id].poll.Recovering?
      modifies this
      ensures Valid() && events == old(events) + [RecoveryEnd(id, outcome)]
      ensures Orderly(states, events) ==>
                && StartsSafely(states, events, |old(events)|)
                && if outcome in {VerificationPending, OtherError}
                   then HeldUntil(View(), old(instances[id]).poll.run, old(now) + 15_000)
                   else Settled(View(), old(instances[id]).poll.run)
      ensures timers == if outcome in {VerificationPending, OtherError}
                        then old(timers)[old(nextId) := Timer(old(instances[id]).poll.run, old(now) + 15_000)] else old(timers)
      ensures id in instances && instances[id].poll == NextPoll(old(instances[id]).cancelled, old(instances[id]).poll.remaining)
    {
      ghost var run := instances[id].poll.run;
      Settle(id, outcome);
      Record(RecoveryEnd(id, outcome));
      LastStartIsSafe();
      LastEndSettlesOrHolds(run);
    }

    /** The end of one recovery and, up to the next await, what follows it. */
    method Settle(id: nat, outcome: Outcome)
      requires id in instances && instances[id].poll.Recovering?
      modifies this`instances, this`timers, this`nextId, this`attempted
      ensures View() == Step(old(View()), RecoveryEnd(id, outcome))
      ensures timers == if outcome in {VerificationPending, OtherError}
                        then old(timers)[old(nextId) := Timer(old(instances[id]).poll.run, old(now) + 15_000)] else old(timers)
      ensures id in instances && instances[id].poll == NextPoll(old(instances[id]).cancelled, old(instances[id]).poll.remaining)
    {
      var run, remaining := instances[id].poll.run, instances[id].poll.remaining;
      instances := instances[id := instances[id].(poll := Idle)];
      if Retryable(outcome) {
        timers := timers[nextId := Timer(run, now + RETRY_MS)];
        nextId := nextId + 1;
      }
      Continue(id, remaining);
    }

    /** Time passes between two events; nothing happens by that alone. */
    method Wait(ms: nat)
      requires Valid()
      modifies this
      ensures Valid() && events == old(events) + [TimePasses(ms)] && now == old(now) + ms
      ensures timers == old(timers) && attempted == old(attempted) && instances == old(instances)
    {
      now := now + ms;
      Record(TimePasses(ms));
    }

    /** A release timer's callback, whichever instance set it: it frees only a run that is not in
        flight and has no other timer. */
    method OnTimer(timer: nat)
      requires Valid() && timer in timers && timers[timer].due <= now
      modifies this
      ensures Valid() && events == old(events) + [TimerFires(timer)]
      ensures attempted == old(attempted) - {old(timers[timer]).run}
      ensures Orderly(states, events) ==>
                !AnyInFlight(View(), old(timers[timer]).run) && !AnyTimer(View(), old(timers[timer]).run)
    {
      ghost var run := timers[timer].run;
      attempted := attempted - {timers[timer].run};
      timers := timers - {timer};
      Record(TimerFires(timer));
      if Orderly(states, events) {
        Promises();
        assert forall id | InFlight(View(), id, run) :: run in attempted;
        assert forall other | Timed(View(), other, run) :: run in attempted;
      }
    }
  }
}
