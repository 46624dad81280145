/** The tax reviewer's identity: a wallet lookup and a file import race to set it. */
module ReviewerIdentity {
  import opened Wrappers

  /** What the lookup effect captured when it ran: whether client and session exist, the trimmed
      address, its parse, and the connected wallet's own address. */
  datatype Capture = Capture(unlocked: bool, typed: string, parsed: Option<nat>, wallet: Option<nat>)

  /** The address that is looked up, if the captured values admit one. */
  function AddressToLookUp(c: Capture): Option<nat> {
    if !c.unlocked || c.typed == "" || c.parsed.None? || c.wallet == c.parsed then None else c.parsed
  }

  datatype Answer = Missing | Verified(identity: string) | Refused

  datatype Timer = Timer(generation: nat, capture: Capture)

  /** `lookups` holds the address asked for by each generation's lookup in flight. */
  datatype State = State(generation: nat, identity: Option<string>, timer: Option<Timer>, lookups: map<nat, nat>)

  const INITIAL := State(0, None, None, map[])

  datatype Event =
    | EffectRuns(taxBook: bool, capture: Capture)
    | TimerFires
    | LookupReplies(generation: nat, answer: Answer)
    | ImportSucceeds(identity: string)
    | ImportFails
    | AddressEdited

  function Step(s: State, e: Event): State {
    match e
    case EffectRuns(taxBook, capture) =>
      var generation := s.generation + 1;
      s.(generation := generation, timer := if taxBook then Some(Timer(generation, capture)) else None)
    case TimerFires =>
      if s.timer.None? then s
      else
        var timer := s.timer.value;
        var fired := s.(timer := None);
        if timer.generation != s.generation then fired
        else
          var address := AddressToLookUp(timer.capture);
          fired.(identity := None,
                 lookups := if address.Some? then s.lookups[timer.generation := address.value] else s.lookups)
    case LookupReplies(generation, answer) =>
      if generation !in s.lookups then s
      else
        var answered := s.(lookups := s.lookups - {generation});
        if generation != s.generation then answered
        else
          (match answer
           case Missing => answered
           case Verified(identity) => answered.(identity := Some(identity))
           case Refused => answered.(identity := None))
    case ImportSucceeds(identity) => s.(generation := s.generation + 1, identity := Some(identity))
    case ImportFails => s.(identity := None)
    case AddressEdited => s.(identity := None)
  }

  ghost predicate IsRun(states: seq<State>, events: seq<Event>) {
    && |states| == |events| + 1 && states[0] == INITIAL
    && forall i | 0 <= i < |events| :: states[i + 1] == Step(states[i], events[i])
  }

  /** No generation is ahead of the newest, and none has both a timer and a lookup. */
  ghost predicate Consistent(s: State) {
    && (s.timer.Some? ==> s.timer.value.generation <= s.generation && s.timer.value.generation !in s.lookups)
    && forall g | g in s.lookups :: g <= s.generation
  }

  lemma {:induction false} AlwaysConsistent(states: seq<State>, events: seq<Event>, i: nat)
    requires IsRun(states, events) && i < |states|
    ensures Consistent(states[i])
  {
    if i > 0 {
      AlwaysConsistent(states, events, i - 1);
      assert states[i] == Step(states[i - 1], events[i - 1]);
    }
  }

  lemma {:induction false} GenerationNeverDecreases(states: seq<State>, events: seq<Event>, i: nat, j: nat)
    requires IsRun(states, events) && i <= j < |states|
    ensures states[i].generation <= states[j].generation
  {
    if i < j {
      GenerationNeverDecreases(states, events, i, j - 1);
      assert states[j] == Step(states[j - 1], events[j - 1]);
    }
  }

  // ---- A successful import ----

  /** A timer or reply that was set up no later than generation `limit`. */
  predicate FromLookupUpTo(s: State, e: Event, limit: nat) {
    match e
    case TimerFires => s.timer.Some? && s.timer.value.generation <= limit
    case LookupReplies(generation, _) => generation <= limit
    case _ => false
  }

  /** After a file import, no lookup that was set up before it ever changes the identity,
      whatever has happened since. */
  lemma EarlierLookupIsInert(states: seq<State>, events: seq<Event>, i: nat, k: nat)
    requires IsRun(states, events) && i < k < |events|
    requires events[i].ImportSucceeds? && FromLookupUpTo(states[k], events[k], states[i].generation)
    ensures states[k + 1].identity == states[k].identity
  {
    assert states[i + 1] == Step(states[i], events[i]);
    GenerationNeverDecreases(states, events, i + 1, k);
    assert states[k + 1] == Step(states[k], events[k]);
  }

  predicate IsLookupStep(e: Event) {
    e.TimerFires? || e.LookupReplies?
  }

  ghost predicate OnlyLookupSteps(events: seq<Event>, i: nat, j: nat)
    requires j <= |events|
  {
    forall k | i < k < j :: IsLookupStep(events[k])
  }

  /** The newest generation has neither timer nor lookup left. */
  predicate Spent(s: State) {
    s.generation !in s.lookups && (s.timer.Some? ==> s.timer.value.generation != s.generation)
  }

  lemma SpentStays(s: State, e: Event)
    requires Spent(s) && IsLookupStep(e)
    ensures Spent(Step(s, e)) && Step(s, e).identity == s.identity
  {
  }

  lemma {:induction false} SpentOnwards(states: seq<State>, events: seq<Event>, i: nat, j: nat)
    requires IsRun(states, events) && i < j < |states| && OnlyLookupSteps(events, i, j) && Spent(states[i + 1])
    ensures Spent(states[j]) && states[j].identity == states[i + 1].identity
  {
    if i + 1 < j {
      SpentOnwards(states, events, i, j - 1);
      assert states[j] == Step(states[j - 1], events[j - 1]);
      SpentStays(states[j - 1], events[j - 1]);
    }
  }

  /** So the imported identity stands until the user edits the address, imports again or the
      lookup effect runs again. */
  lemma ImportStands(states: seq<State>, events: seq<Event>, i: nat, j: nat)
    requires IsRun(states, events) && i < j < |states| && events[i].ImportSucceeds? && OnlyLookupSteps(events, i, j)
    ensures states[j].identity == Some(events[i].identity)
  {
    AlwaysConsistent(states, events, i);
    assert states[i + 1] == Step(states[i], events[i]);
    SpentOnwards(states, events, i, j);
  }

  // ---- A failed import ----

  /** The newest generation's lookup answers with a verified identity. */
  predicate AnswersNewest(s: State, e: Event) {
    e.LookupReplies? && e.answer.Verified? && e.generation == s.generation && e.generation in s.lookups
  }

  ghost predicate AnsweredBetween(states: seq<State>, events: seq<Event>, i: nat, j: nat)
    requires |states| == |events| + 1 && j <= |events|
  {
    exists k :: i < k < j && AnswersNewest(states[k], events[k])
  }

  lemma AnswerStands(states: seq<State>, events: seq<Event>, k: nat, j: nat)
    requires IsRun(states, events) && k < j < |states| && OnlyLookupSteps(events, k, j)
    requires AnswersNewest(states[k], events[k])
    ensures states[j].identity == Some(events[k].answer.identity)
  {
    AlwaysConsistent(states, events, k);
    assert states[k + 1] == Step(states[k], events[k]);
    SpentOnwards(states, events, k, j);
  }

  lemma {:induction false} NoAnswerNoIdentity(states: seq<State>, events: seq<Event>, i: nat, j: nat)
    requires IsRun(states, events) && i < j < |states| && OnlyLookupSteps(events, i, j)
    requires states[i + 1].identity.None? && !AnsweredBetween(states, events, i, j)
    ensures states[j].identity.None?
  {
    if i + 1 < j {
      NoAnswerNoIdentity(states, events, i, j - 1);
      assert states[j] == Step(states[j - 1], events[j - 1]);
      assert !AnswersNewest(states[j - 1], events[j - 1]);
    }
  }

  /** A failed import clears the identity but does not start a generation. Until the user edits,
      imports or re-runs the effect, an identity is shown again exactly when the newest
      generation's lookup has answered with a verified one since, and then it is that one. */
  lemma FailedImportExactly(states: seq<State>, events: seq<Event>, i: nat, j: nat)
    requires IsRun(states, events) && i < j < |states| && events[i].ImportFails? && OnlyLookupSteps(events, i, j)
    ensures states[j].identity.Some? <==> AnsweredBetween(states, events, i, j)
    ensures forall k | i < k < j && AnswersNewest(states[k], events[k]) ::
              states[j].identity == Some(events[k].answer.identity)
  {
    assert states[i + 1] == Step(states[i], events[i]);
    forall k | i < k < j && AnswersNewest(states[k], events[k])
      ensures states[j].identity == Some(events[k].answer.identity)
    {
      AnswerStands(states, events, k, j);
    }
    if !AnsweredBetween(states, events, i, j) {
      NoAnswerNoIdentity(states, events, i, j);
    }
  }

  /** Such a run: the lookup under way puts an identity back after the failure cleared it. */
  lemma FailedImportDoesNotSupersede() returns (states: seq<State>, events: seq<Event>)
    ensures IsRun(states, events) && |events| == 4 && events[1] == TimerFires && events[2] == ImportFails
    ensures events[0] == EffectRuns(true, Capture(true, "0x7", Some(7), None))
    ensures events[3] == LookupReplies(1, Verified("reviewer"))
    ensures states[3].identity == None && states[4].identity == Some("reviewer")
  {
    events := [EffectRuns(true, Capture(true, "0x7", Some(7), None)), TimerFires, ImportFails,
               LookupReplies(1, Verified("reviewer"))];
    var first := Step(INITIAL, events[0]);
    var second := Step(first, events[1]);
    var third := Step(second, events[2]);
    states := [INITIAL, first, second, third, Step(third, events[3])];
  }

  // ---- Where an identity comes from ----

  /** An identity on display was imported, or was verified by the lookup that was newest when
      it answered. */
  lemma {:induction false} IdentityHasASource(states: seq<State>, events: seq<Event>, j: nat)
    requires IsRun(states, events) && j < |states| && states[j].identity.Some?
    ensures exists i :: 0 <= i < j && (events[i] == ImportSucceeds(states[j].identity.value)
                                       || (AnswersNewest(states[i], events[i])
                                           && events[i].answer.identity == states[j].identity.value))
  {
    if j > 0 {
      var s, e := states[j - 1], events[j - 1];
      assert states[j] == Step(s, e);
      if s.identity == states[j].identity {
        IdentityHasASource(states, events, j - 1);
      } else {
        assert e == ImportSucceeds(states[j].identity.value) || AnswersNewest(s, e);
      }
    }
  }

  /** The effect run of this generation asked for this address on the reviewer's behalf. */
  predicate Requests(s: State, e: Event, generation: nat, address: nat) {
    && e.EffectRuns? && e.taxBook && s.generation + 1 == generation
    && e.capture.unlocked && e.capture.typed != ""
    && e.capture.parsed == Some(address) && e.capture.wallet != Some(address)
  }

  /** Every lookup in flight asks for the address typed for its own generation's tax book: one
      that parses, in an unlocked workspace, and is not the connected employer wallet. */
  lemma {:induction false} LookupWasRequested(states: seq<State>, events: seq<Event>, j: nat, generation: nat, address: nat)
    requires IsRun(states, events) && j < |states|
    requires PendingFor(states[j], generation, address)
    ensures exists i :: 0 <= i < j && Requests(states[i], events[i], generation, address)
  {
    if j > 0 {
      var s, e := states[j - 1], events[j - 1];
      assert states[j] == Step(s, e);
      if PendingFor(s, generation, address) {
        LookupWasRequested(states, events, j - 1, generation, address);
      } else {
        assert Requests(s, e, generation, address);
      }
    }
  }

  /** Conversely every such address is looked up: when the timer of a tax book's newest effect run
      fires, a lookup starts exactly if the captured workspace was unlocked and the address typed
      parses and is not the connected wallet's; the identity is cleared in any case. */
  lemma AdmittedAddressIsLookedUp(states: seq<State>, events: seq<Event>, i: nat, j: nat, address: nat)
    requires IsRun(states, events) && i < j < |events| && events[i].EffectRuns? && events[i].taxBook && events[j] == TimerFires
    requires forall k | i < k < j :: events[k].LookupReplies? || events[k].ImportFails? || events[k].AddressEdited?
    ensures var g, c := states[i].generation + 1, events[i].capture;
            && (g in states[j + 1].lookups && states[j + 1].lookups[g] == address <==>
                  c.unlocked && c.typed != "" && c.parsed == Some(address) && c.wallet != Some(address))
            && states[j + 1].identity.None? && states[j + 1].timer.None?
  {
    TimerWaits(states, events, i, j);
    AlwaysConsistent(states, events, j);
    assert states[j + 1] == Step(states[j], events[j]);
  }

  lemma {:induction false} TimerWaits(states: seq<State>, events: seq<Event>, i: nat, j: nat)
    requires IsRun(states, events) && i < j <= |events| && events[i].EffectRuns? && events[i].taxBook
    requires forall k | i < k < j :: events[k].LookupReplies? || events[k].ImportFails? || events[k].AddressEdited?
    ensures states[j].generation == states[i].generation + 1
    ensures states[j].timer == Some(Timer(states[i].generation + 1, events[i].capture))
  {
    assert states[j] == Step(states[j - 1], events[j - 1]);
    if i + 1 < j {
      TimerWaits(states, events, i, j - 1);
    }
  }

  /** A generation's lookup of this address is in flight, or its timer is about to start one. */
  predicate PendingFor(s: State, generation: nat, address: nat) {
    || (generation in s.lookups && s.lookups[generation] == address)
    || (s.timer.Some? && s.timer.value.generation == generation && AddressToLookUp(s.timer.value.capture) == Some(address))
  }

  // ---- The component ----

  /** Some import has succeeded since this generation was set up. */
  ghost predicate ImportedSince(states: seq<State>, events: seq<Event>, generation: nat)
    requires |states| == |events| + 1
  {
    exists i :: 0 <= i < |events| && events[i].ImportSucceeds? && generation <= states[i].generation
  }

  class ReviewerLookup {
    var generation: nat
    var identity: Option<string>
    var timer: Option<Timer>
    var lookups: map<nat, nat>
    ghost var states: seq<State>
    ghost var events: seq<Event>

    function View(): State
      reads this
    {
      State(generation, identity, timer, lookups)
    }

    /** The fields are the last state of the run that has happened so far. */
    ghost predicate Valid()
      reads this
    {
      IsRun(states, events) && View() == states[|events|]
    }

    constructor ()
      ensures Valid() && events == []
    {
      generation, identity, timer, lookups := 0, None, None, map[];
      states, events := [INITIAL], [];
    }

    ghost method Record(e: Event)
      requires IsRun(states, events) && View() == Step(states[|events|], e)
      modifies this`states, this`events
      ensures Valid() && events == old(events) + [e] && states == old(states) + [View()]
    {
      states := states + [View()];
      events := events + [e];
    }

    /** The previous effect's cleanup clears its timer; the new one sets its own, under a
        generation that outdates every lookup so far. */
    method RunEffect(taxBook: bool, capture: Capture)
      requires Valid()
      modifies this
      ensures Valid() && events == old(events) + [EffectRuns(taxBook, capture)]
      ensures forall g | g in lookups :: g < generation
      ensures identity == old(identity) && generation == old(generation) + 1 && lookups == old(lookups)
      ensures timer == if taxBook then Some(Timer(generation, capture)) else None
    {
      AlwaysConsistent(states, events, |events|);
      timer := None;
      generation := generation + 1;
      if taxBook {
        timer := Some(Timer(generation, capture));
      }
      Record(EffectRuns(taxBook, capture));
    }

    /** A timer from before an import does nothing to the identity. */
    method OnTimer()
      requires Valid() && timer.Some?
      modifies this
      ensures Valid() && events == old(events) + [TimerFires]
      ensures ImportedSince(old(states), old(events), old(timer).value.generation) ==> identity == old(identity)
    {
      var fired := timer.value;
      timer := None;
      if generation == fired.generation {
        identity := None;
        var address := AddressToLookUp(fired.capture);
        if address.Some? {
          lookups := lookups[fired.generation := address.value];
        }
      }
      Record(TimerFires);
      InertAfterImport(old(states), old(events), fired.generation);
    }

    /** A lookup from before an import does nothing to the identity, whatever it answers; and an
        identity is only ever set by the newest lookup. */
    method OnLookupReply(asked: nat, answer: Answer)
      requires Valid() && asked in lookups
      modifies this
      ensures Valid() && events == old(events) + [LookupReplies(asked, answer)]
      ensures ImportedSince(old(states), old(events), asked) ==> identity == old(identity)
      ensures identity == if asked != generation || answer.Missing? then old(identity)
                          else if answer.Verified? then Some(answer.identity) else None
      ensures lookups == old(lookups) - {asked}
    {
      lookups := lookups - {asked};
      if generation == asked {
        match answer
        case Missing =>
        case Verified(verified) => identity := Some(verified);
        case Refused => identity := None;
      }
      Record(LookupReplies(asked, answer));
      InertAfterImport(old(states), old(events), asked);
    }

    /** importTaxReviewerPublicIdentity once the file has been read: success supersedes every
        lookup set up so far, failure none. */
    method OnImport(imported: Option<string>)
      requires Valid()
      modifies this
      ensures Valid() && identity == imported
      ensures events == old(events) + [if imported.Some? then ImportSucceeds(imported.value) else ImportFails]
      ensures imported.Some? ==> Spent(View()) && forall g: nat | g <= old(generation) :: ImportedSince(states, events, g)
      ensures imported.None? ==> generation == old(generation) && lookups == old(lookups) && timer == old(timer)
    {
      AlwaysConsistent(states, events, |events|);
      if imported.Some? {
        generation := generation + 1;
      }
      identity := imported;
      Record(if imported.Some? then ImportSucceeds(imported.value) else ImportFails);
      assert events[|old(events)|].ImportSucceeds? <==> imported.Some?;
      assert states[|old(events)|] == old(View());
    }

    method EditAddress()
      requires Valid()
      modifies this
      ensures Valid() && events == old(events) + [AddressEdited] && identity.None?
    {
      identity := None;
      Record(AddressEdited);
    }

    /** The step just recorded was set up before an import, so it left the identity alone. */
    lemma InertAfterImport(before: seq<State>, past: seq<Event>, asked: nat)
      requires Valid() && |before| == |past| + 1 && |events| == |past| + 1
      requires past == events[..|past|] && before == states[..|before|]
      requires FromLookupUpTo(before[|past|], events[|past|], asked)
      ensures ImportedSince(before, past, asked) ==> View().identity == before[|past|].identity
    {
      if ImportedSince(before, past, asked) {
        var i :| 0 <= i < |past| && past[i].ImportSucceeds? && asked <= before[i].generation;
        EarlierLookupIsInert(states, events, i, |past|);
      }
    }
  }
}
