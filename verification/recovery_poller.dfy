/** The background recovery of missing proof jobs: overlapping effect instances share one set of
    attempted runs, and release timers take runs out of it again. Each event is one stretch of
    code between two awaits. */
module RecoveryPoller {
  import opened Wrappers

  const RETRY_MS := 15_000

  type Run = string

  /** A listed payroll run as it arrives: fields may be missing or of another type. */
  datatype Record = Record(id: Option<Run>, confirmed: bool, transactionHash: Option<string>)

  datatype Poll =
    | Idle
    | Listing
    | Recovering(run: Run, remaining: seq<Run>)

  /** One execution of the effect: its two local flags. `polling` is set exactly when not Idle. */
  datatype Instance = Instance(cancelled: bool, poll: Poll)

  datatype Timer = Timer(run: Run, due: int)

  datatype State = State(
    attempted: set<Run>,
    organization: string,
    current: Option<nat>,
    instances: map<nat, Instance>,
    timers: map<nat, Timer>,
    nextId: nat,
    now: int)

  const INITIAL := State({}, "", None, map[], map[], 0, 0)

  datatype Outcome = AuthorizationComplete | VerificationQueued | VerificationPending | DeadlineMissed | OtherError

  /** The outcomes after which a timer gives the run back. */
  predicate Retryable(outcome: Outcome) {
    outcome == VerificationPending || outcome == OtherError
  }

  datatype Event =
    | EffectRuns(evidencePage: bool, session: Option<string>)
    | Unmount
    | PollTick(id: nat)
    | ListReply(id: nat, reply: Result<seq<Record>, string>)
    | RecoveryEnd(id: nat, outcome: Outcome)
    | TimerFires(timer: nat)
    | TimePasses(ms: nat)

  // ---- Pieces of the steps ----

  function Candidates(records: seq<Record>, attempted: set<Run>): seq<Run> {
    if records == [] then []
    else
      var first := records[0];
      (if first.id.None? || !first.confirmed || first.transactionHash.None? || first.id.value in attempted then []
       else [first.id.value]) + Candidates(records[1..], attempted)
  }

  function SetPoll(s: State, id: nat, poll: Poll): State
    requires id in s.instances
  {
    s.(instances := s.instances[id := s.instances[id].(poll := poll)])
  }

  /** The head of the candidate loop: stop when cancelled or done, otherwise mark the next run
      as attempted and start recovering it, without looking at the set again. */
  function Advance(s: State, id: nat, candidates: seq<Run>): State
    requires id in s.instances
  {
    if candidates == [] || s.instances[id].cancelled then SetPoll(s, id, Idle)
    else SetPoll(s, id, Recovering(candidates[0], candidates[1..])).(attempted := s.attempted + {candidates[0]})
  }

  /** The recovery call has settled; nothing else of the loop has happened yet. */
  function Ended(s: State, id: nat, outcome: Outcome): State
    requires id in s.instances && s.instances[id].poll.Recovering?
  {
    var idle := SetPoll(s, id, Idle);
    if Retryable(outcome) then
      idle.(timers := s.timers[s.nextId := Timer(s.instances[id].poll.run, s.now + RETRY_MS)], nextId := s.nextId + 1)
    else
      idle
  }

  function Cancel(s: State): State {
    if s.current.Some? && s.current.value in s.instances then
      s.(current := None,
         instances := s.instances[s.current.value := s.instances[s.current.value].(cancelled := true)])
    else
      s.(current := None)
  }

  /** The session test that precedes a new instance. */
  function Enter(s: State, session: Option<string>): State {
    if session.None? then s.(attempted := {}, organization := "")
    else if s.organization != session.value then s.(attempted := {}, organization := session.value)
    else s
  }

  function Mount(s: State): State {
    s.(current := Some(s.nextId), instances := s.instances[s.nextId := Instance(false, Idle)], nextId := s.nextId + 1)
  }

  function OnEffect(s: State, evidencePage: bool, session: Option<string>): State {
    if evidencePage then Cancel(s)
    else if session.None? then Enter(Cancel(s), session)
    else Mount(Enter(Cancel(s), session))
  }

  function Step(s: State, e: Event): State {
    match e
    case EffectRuns(evidencePage, session) => OnEffect(s, evidencePage, session)
    case Unmount => Cancel(s)
    case PollTick(id) =>
      if id !in s.instances || !s.instances[id].poll.Idle? || s.instances[id].cancelled then s
      else SetPoll(s, id, Listing)
    case ListReply(id, reply) =>
      if id !in s.instances || !s.instances[id].poll.Listing? then s
      else if reply.Err? then SetPoll(s, id, Idle)
      else Advance(s, id, Candidates(reply.value, s.attempted))
    case RecoveryEnd(id, outcome) =>
      if id !in s.instances || !s.instances[id].poll.Recovering? then s
      else Advance(Ended(s, id, outcome), id, s.instances[id].poll.remaining)
    case TimerFires(timer) =>
      if timer !in s.timers || s.timers[timer].due > s.now then s
      else s.(timers := s.timers - {timer}, attempted := s.attempted - {s.timers[timer].run})
    case TimePasses(ms) => s.(now := s.now + ms)
  }

  // ---- Runs ----

  ghost predicate IsRun(states: seq<State>, events: seq<Event>) {
    && |states| == |events| + 1 && states[0] == INITIAL
    && forall i | 0 <= i < |events| :: states[i + 1] == Step(states[i], events[i])
  }

  /** Once unlocked, always that workspace: any number of instances, but one session. */
  ghost predicate OneSession(events: seq<Event>) {
    forall i, j | 0 <= i < j < |events| && Enters(events[i]) && Enters(events[j]) ::
      events[i].session.Some? ==> events[j].session == events[i].session
  }

  predicate Enters(e: Event) {
    e.EffectRuns? && !e.evidencePage
  }

  predicate Eligible(record: Record, attempted: set<Run>) {
    record.id.Some? && record.confirmed && record.transactionHash.Some? && record.id.value !in attempted
  }

  /** The server lists no eligible run twice. */
  ghost predicate ListsOnce(records: seq<Record>, attempted: set<Run>) {
    forall i, j | 0 <= i < j < |records| && Eligible(records[i], attempted) && Eligible(records[j], attempted) ::
      records[i].id != records[j].id
  }

  ghost predicate ListsOnceIn(s: State, e: Event) {
    e.ListReply? && e.reply.Ok? && e.id in s.instances && s.instances[e.id].poll.Listing? && !s.instances[e.id].cancelled
    ==> ListsOnce(e.reply.value, s.attempted)
  }

  ghost predicate ListedOnce(states: seq<State>, events: seq<Event>)
    requires |states| == |events| + 1
  {
    forall i | 0 <= i < |events| :: ListsOnceIn(states[i], events[i])
  }

  /** Entering a session that is not the one on record empties the attempted set. */
  predicate Clears(s: State, e: Event) {
    Enters(e) && e.session != Some(s.organization)
  }

  /** Some recovery is in flight, or some release timer is pending. */
  ghost predicate Busy(s: State) {
    exists run :: AnyInFlight(s, run) || AnyTimer(s, run)
  }

  /** The set is only ever emptied while nothing is in flight and no timer is pending. */
  ghost predicate Calm(states: seq<State>, events: seq<Event>)
    requires |states| == |events| + 1
  {
    forall i | 0 <= i < |events| :: Clears(states[i], events[i]) ==> !Busy(states[i])
  }

  /** The run whose recovery a step starts. */
  function StartedBy(s: State, e: Event): Option<Run> {
    match e
    case ListReply(id, reply) =>
      if id !in s.instances || !s.instances[id].poll.Listing? || reply.Err? || s.instances[id].cancelled then None
      else
        var candidates := Candidates(reply.value, s.attempted);
        if candidates == [] then None else Some(candidates[0])
    case RecoveryEnd(id, _) =>
      if id !in s.instances || !s.instances[id].poll.Recovering? || s.instances[id].cancelled then None
      else if s.instances[id].poll.remaining == [] then None
      else Some(s.instances[id].poll.remaining[0])
    case _ => None
  }

  /** The run whose recovery a step ends. */
  function EndedBy(s: State, e: Event): Option<Run> {
    if e.RecoveryEnd? && e.id in s.instances && s.instances[e.id].poll.Recovering?
    then Some(s.instances[e.id].poll.run) else None
  }

  predicate InFlight(s: State, id: nat, run: Run) {
    id in s.instances && s.instances[id].poll.Recovering? && s.instances[id].poll.run == run
  }

  predicate Timed(s: State, timer: nat, run: Run) {
    timer in s.timers && s.timers[timer].run == run
  }

  ghost predicate AnyInFlight(s: State, run: Run) {
    exists id :: InFlight(s, id, run)
  }

  ghost predicate AnyTimer(s: State, run: Run) {
    exists timer :: Timed(s, timer, run)
  }

  ghost predicate Fresh(candidates: seq<Run>, attempted: set<Run>) {
    && (forall i | 0 <= i < |candidates| :: candidates[i] !in attempted)
    && forall i, j | 0 <= i < j < |candidates| :: candidates[i] != candidates[j]
  }

  /** What every recovery and every timer rests on. */
  ghost predicate Exclusive(s: State) {
    && (forall id, run | InFlight(s, id, run) :: run in s.attempted)
    && (forall timer, run | Timed(s, timer, run) :: run in s.attempted)
    && (forall a, b, run | InFlight(s, a, run) && InFlight(s, b, run) :: a == b)
    && (forall a, b, run | Timed(s, a, run) && Timed(s, b, run) :: a == b)
    && (forall id, timer, run | InFlight(s, id, run) :: !Timed(s, timer, run))
  }

  /** Only the mounted instance may still start recoveries, and every number in use was issued. */
  ghost predicate Placed(s: State) {
    && (forall id | id in s.instances && !s.instances[id].cancelled :: s.current == Some(id))
    && (forall id | id in s.instances :: id < s.nextId)
    && (forall timer | timer in s.timers :: timer < s.nextId)
  }

  predicate MayContinue(s: State, id: nat) {
    id in s.instances && !s.instances[id].cancelled && s.instances[id].poll.Recovering?
  }

  /** What that instance has yet to recover is not being recovered by any other. */
  ghost predicate Elsewhere(s: State) {
    forall id, other, run | MayContinue(s, id) && other != id && run in s.instances[id].poll.remaining ::
      !InFlight(s, other, run)
  }

  /** What it has yet to recover is fresh. */
  ghost predicate FreshRemaining(s: State) {
    forall id | MayContinue(s, id) :: Fresh(s.instances[id].poll.remaining, s.attempted)
  }

  /** What exclusion needs to carry on, whatever the listings. */
  ghost predicate Core(s: State) {
    Exclusive(s) && Placed(s) && Elsewhere(s)
  }

  /** The one instance that may still start recoveries holds only fresh candidates. */
  ghost predicate Guarded(s: State) {
    Placed(s) && FreshRemaining(s)
  }

  ghost predicate Invariant(s: State) {
    Exclusive(s) && Guarded(s)
  }

  /** The run that this step starts has a release timer pending. */
  ghost predicate StartsOverTimer(s: State, e: Event) {
    StartedBy(s, e).Some? && AnyTimer(Step(s, e), StartedBy(s, e).value)
  }

  ghost predicate NeverOverTimer(states: seq<State>, events: seq<Event>)
    requires |states| == |events| + 1
  {
    forall i | 0 <= i < |events| :: !StartsOverTimer(states[i], events[i])
  }
}
