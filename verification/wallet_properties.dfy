/** What every interleaving of wallet operations keeps. */
module WalletProperties {
  import opened Wrappers
  import opened WalletDisplay
  import opened WalletProtocol

  // ---- Tokens are unique: the invariant of every interleaving ----

  predicate PurposeMatches(op: Operation)
    requires HasToken(op)
  {
    match op.token.purpose
    case ForPrivate(kind) =>
      (op.AwaitingReply? || op.AwaitingChain? || op.AwaitingBalance?) && op.pending.kind == kind
    case ForRegistry => op.RegistrySubmitted? || op.RegistryConfirming?
    case ForDeployment => op.Deploying?
  }

  /** Operation `id` is the one working under `token`. */
  predicate Carries(operations: map<nat, Operation>, id: nat, token: Token) {
    id in operations && HasToken(operations[id]) && operations[id].token == token
  }

  ghost predicate Ledger(operations: map<nat, Operation>, next: nat) {
    && (forall id | id in operations :: id < next)
    && (forall id | id in operations && HasToken(operations[id]) ::
          operations[id].token.id < next && PurposeMatches(operations[id]))
    && (forall id, other | id in operations && HasToken(operations[id])
                           && other in operations && HasToken(operations[other])
                           && operations[id].token.id == operations[other].token.id :: id == other)
  }

  ghost predicate TokensUnique(s: State) {
    Ledger(s.operations, s.nextId) && (s.lock.Some? ==> s.lock.value.id < s.nextId)
  }

  lemma PutKeepsLedger(operations: map<nat, Operation>, next: nat, next': nat, id: nat, op: Operation)
    requires Ledger(operations, next) && next <= next' && id < next'
    requires HasToken(op) ==> op.token.id < next' && PurposeMatches(op)
    requires HasToken(op) ==> forall other | other in operations && HasToken(operations[other]) ::
                                operations[other].token.id == op.token.id ==> other == id
    ensures Ledger(operations[id := op], next')
  {
  }

  lemma DropKeepsLedger(operations: map<nat, Operation>, next: nat, id: nat)
    requires Ledger(operations, next)
    ensures Ledger(operations - {id}, next)
  {
  }

  /** The operation an event is about; events about none name the next free number. */
  function Subject(s: State, e: Event): nat {
    match e
    case WalletReply(id, _) => id
    case ChainReply(id, _) => id
    case BalanceReply(id, _) => id
    case ReconcileBalanceReply(id, _) => id
    case RegistryAbort(id) => id
    case RegistryAcquire(id) => id
    case RegistryReply(id, _) => id
    case RegistryFinish(id, _) => id
    case DeploymentBroadcast(id, _) => id
    case DeploymentFinish(id, _) => id
    case _ => s.nextId
  }

  /** The only ways a step changes the operations: it drops its subject, or gives it a stage
      with the token it already had or a fresh one. */
  ghost predicate TouchesOnly(s: State, t: State, id: nat) {
    && s.nextId <= t.nextId
    && (t.lock == s.lock || t.lock.None? || t.lock.value.id == s.nextId < t.nextId)
    && (|| t.operations == s.operations
        || t.operations == s.operations - {id}
        || (id in t.operations && t.operations == s.operations[id := t.operations[id]] && StaysOrFresh(s, t, id)))
  }

  predicate StaysOrFresh(s: State, t: State, id: nat)
    requires id in t.operations
  {
    var op := t.operations[id];
    && (id in s.operations || id == s.nextId < t.nextId)
    && (HasToken(op) ==>
          PurposeMatches(op) && (Carries(s.operations, id, op.token) || op.token.id == s.nextId < t.nextId))
  }

  lemma RepliesTouchOnly(s: State, e: Event)
    requires Ledger(s.operations, s.nextId) && (e.WalletReply? || e.ChainReply? || e.BalanceReply?)
    ensures TouchesOnly(s, Step(s, e), e.id)
  {
  }

  lemma RegistryTouchesOnly(s: State, e: Event)
    requires Ledger(s.operations, s.nextId) && (e.RegistryAcquire? || e.RegistryReply? || e.RegistryFinish?)
    ensures TouchesOnly(s, Step(s, e), e.id)
  {
  }

  lemma DeploymentTouchesOnly(s: State, e: Event)
    requires Ledger(s.operations, s.nextId) && (e.StartDeployment? || e.DeploymentBroadcast? || e.DeploymentFinish?)
    ensures TouchesOnly(s, Step(s, e), Subject(s, e))
  {
  }

  lemma StepTouchesOnly(s: State, e: Event)
    requires Ledger(s.operations, s.nextId)
    ensures TouchesOnly(s, Step(s, e), Subject(s, e))
  {
    if e.WalletReply? || e.ChainReply? || e.BalanceReply? {
      RepliesTouchOnly(s, e);
    } else if e.RegistryAcquire? || e.RegistryReply? || e.RegistryFinish? {
      RegistryTouchesOnly(s, e);
    } else if e.StartDeployment? || e.DeploymentBroadcast? || e.DeploymentFinish? {
      DeploymentTouchesOnly(s, e);
    }
  }

  lemma TouchKeepsUnique(s: State, t: State, id: nat)
    requires TokensUnique(s) && TouchesOnly(s, t, id)
    ensures TokensUnique(t)
  {
    DropKeepsLedger(s.operations, s.nextId, id);
    if id in t.operations && t.operations == s.operations[id := t.operations[id]] && StaysOrFresh(s, t, id) {
      PutKeepsLedger(s.operations, s.nextId, t.nextId, id, t.operations[id]);
    }
  }

  lemma TokensUniqueStep(s: State, e: Event)
    requires TokensUnique(s)
    ensures TokensUnique(Step(s, e))
    ensures s.nextId <= Step(s, e).nextId
  {
    StepTouchesOnly(s, e);
    TouchKeepsUnique(s, Step(s, e), Subject(s, e));
  }

  lemma {:induction false} TokensUniqueAlways(states: seq<State>, events: seq<Event>, i: nat)
    requires IsRun(states, events) && i <= |events|
    ensures TokensUnique(states[i])
  {
    if i > 0 {
      TokensUniqueAlways(states, events, i - 1);
      TokensUniqueStep(states[i - 1], events[i - 1]);
    }
  }

  // ---- How the lock is taken and lost ----

  lemma LockGain(s: State, e: Event, token: Token)
    requires s.lock != Some(token) && Step(s, e).lock == Some(token)
    ensures Acquires(s, e) && token.id == s.nextId
  {
  }

  /** Without an overwriting acquire, a held lock is lost only to nobody, and only through a
      handover or through the finishing step of the very operation that carries its token. */
  lemma LockLoss(s: State, e: Event, token: Token)
    requires s.lock == Some(token) && Step(s, e).lock != Some(token) && !Overwrites(s, e)
    ensures Step(s, e).lock.None?
    ensures IsHandover(e) || (IsFinishing(e) && Carries(s.operations, e.id, token))
    ensures e.ReleasePayroll? ==> s.kind == Some(Payroll)
    ensures e.Reconcile? ==> s.kind == Some(Payroll) && ValidTransactionHash(e.hash)
  {
  }

  /** Once lost, a token never holds the lock again: later acquires use fresh tokens. */
  lemma {:induction false} LostForever(states: seq<State>, events: seq<Event>, i: nat, j: nat, m: nat, token: Token)
    requires IsRun(states, events) && i <= j <= m <= |events|
    requires states[i].lock == Some(token) && states[j].lock != Some(token)
    ensures states[m].lock != Some(token) && token.id < states[m].nextId
  {
    if m == j {
      TokensUniqueAlways(states, events, i);
      NextIdGrows(states, events, i, j);
    } else {
      LostForever(states, events, i, j, m - 1, token);
      TokensUniqueAlways(states, events, m - 1);
      TokensUniqueStep(states[m - 1], events[m - 1]);
      if states[m].lock == Some(token) {
        LockGain(states[m - 1], events[m - 1], token);
      }
    }
  }

  lemma {:induction false} NextIdGrows(states: seq<State>, events: seq<Event>, i: nat, j: nat)
    requires IsRun(states, events) && i <= j <= |events|
    ensures states[i].nextId <= states[j].nextId
  {
    if i < j {
      NextIdGrows(states, events, i, j - 1);
      TokensUniqueAlways(states, events, j - 1);
      TokensUniqueStep(states[j - 1], events[j - 1]);
    }
  }

  // ---- Kind and lock agree ----

  predicate Coherent(s: State) {
    s.kind == HolderKind(s.lock)
  }

  /** The one step that makes kind and lock disagree: a registry acquire over a private holder. */
  lemma CoherenceStep(s: State, e: Event)
    requires TokensUnique(s) && Coherent(s)
    ensures Coherent(Step(s, e)) <==> !(Overwrites(s, e) && HolderKind(s.lock).Some?)
  {
  }

  /** Over any run, kind is set exactly when the holder is a private action, and names that
      action, in every state if and only if no registry acquire hits a private holder. */
  lemma {:induction false} KindNamesPrivateHolder(states: seq<State>, events: seq<Event>)
    requires IsRun(states, events)
    ensures (forall i | 0 <= i <= |events| :: Coherent(states[i]))
       <==> (forall i | 0 <= i < |events| :: Overwrites(states[i], events[i]) ==> HolderKind(states[i].lock).None?)
  {
    if forall i | 0 <= i < |events| :: Overwrites(states[i], events[i]) ==> HolderKind(states[i].lock).None? {
      forall i | 0 <= i <= |events| ensures Coherent(states[i]) {
        CoherentUpTo(states, events, i);
      }
    }
    if forall i | 0 <= i <= |events| :: Coherent(states[i]) {
      forall i | 0 <= i < |events| && Overwrites(states[i], events[i])
        ensures HolderKind(states[i].lock).None?
      {
        TokensUniqueAlways(states, events, i);
        assert Coherent(states[i]) && Coherent(states[i + 1]);
        CoherenceStep(states[i], events[i]);
      }
    }
  }

  /** In every run without exception, a private action that holds the lock has its own kind set. */
  lemma {:induction false} PrivateHolderHasKind(states: seq<State>, events: seq<Event>, i: nat)
    requires IsRun(states, events) && i <= |events|
    ensures HolderKind(states[i].lock).Some? ==> states[i].kind == HolderKind(states[i].lock)
  {
    if i > 0 {
      PrivateHolderHasKind(states, events, i - 1);
      assert states[i] == Step(states[i - 1], events[i - 1]);
    }
  }

  lemma {:induction false} CoherentUpTo(states: seq<State>, events: seq<Event>, i: nat)
    requires IsRun(states, events) && i <= |events|
    requires forall k | 0 <= k < |events| :: Overwrites(states[k], events[k]) ==> HolderKind(states[k].lock).None?
    ensures Coherent(states[i])
  {
    if i > 0 {
      CoherentUpTo(states, events, i - 1);
      TokensUniqueAlways(states, events, i - 1);
      CoherenceStep(states[i - 1], events[i - 1]);
    }
  }

  // ---- A second request needs a handover ----

  /** A request still unanswered at `j` was unanswered, under the same token, all along. */
  lemma {:induction false} UnansweredAllAlong(states: seq<State>, events: seq<Event>, id: nat, k: nat, j: nat)
    requires IsRun(states, events) && k <= j <= |events| && id < states[k].nextId
    requires id in states[j].operations && states[j].operations[id].AwaitingReply?
    ensures id in states[k].operations && states[k].operations[id] == states[j].operations[id]
    decreases j
  {
    if k < j {
      NextIdGrows(states, events, k, j - 1);
      assert states[j] == Step(states[j - 1], events[j - 1]);
      UnansweredAllAlong(states, events, id, k, j - 1);
    }
  }

  /** The step at which a token that held the lock at `i` lost it before `j`. */
  lemma {:induction false} LossPoint(states: seq<State>, events: seq<Event>, i: nat, j: nat, token: Token) returns (k: nat)
    requires IsRun(states, events) && i <= j <= |events|
    requires states[i].lock == Some(token) && states[j].lock != Some(token)
    ensures i <= k < j && states[k].lock == Some(token) && states[k + 1].lock != Some(token)
  {
    if states[j - 1].lock == Some(token) {
      k := j - 1;
    } else {
      k := LossPoint(states, events, i, j - 1, token);
    }
  }

  /** The ways an unanswered request's own lock can be taken from it. */
  predicate Takes(s: State, e: Event) {
    IsHandover(e) || Overwrites(s, e)
  }

  /** A private request that starts while an earlier one is still unanswered was let in by a
      reconcile, release or disconnect, or by a registry acquire over the earlier request's lock:
      in any run, its own lock was taken from it in between. */
  lemma SecondRequestNeedsHandover(states: seq<State>, events: seq<Event>, i: nat, j: nat)
    requires IsRun(states, events) && i < j < |events|
    requires StartsPrivate(states[i], events[i]) && StartsPrivate(states[j], events[j])
    requires states[i].nextId in states[j].operations && states[j].operations[states[i].nextId].AwaitingReply?
    ensures exists k | i < k < j :: && Takes(states[k], events[k])
                                    && states[k].lock == states[i + 1].lock && states[k + 1].lock != states[k].lock
  {
    var token := Token(states[i].nextId, ForPrivate(events[i].kind));
    assert states[i + 1] == Step(states[i], events[i]);
    assert states[i + 1].lock == Some(token);
    var k := LossPoint(states, events, i + 1, j, token);
    UnansweredLossIsTaken(states, events, i, k, j, token);
  }

  /** While a request stays unanswered, the step that loses its lock is not one of its own. */
  lemma UnansweredLossIsTaken(states: seq<State>, events: seq<Event>, i: nat, k: nat, j: nat, token: Token)
    requires IsRun(states, events) && i < k < j <= |events| && StartsPrivate(states[i], events[i])
    requires token == Token(states[i].nextId, ForPrivate(events[i].kind))
    requires token.id in states[j].operations && states[j].operations[token.id].AwaitingReply?
    requires states[k].lock == Some(token) && states[k + 1].lock != Some(token)
    ensures Takes(states[k], events[k])
    ensures !Overwrites(states[k], events[k]) ==> states[k + 1].lock.None?
  {
    CarriesItsToken(states, events, i, k, j, token);
    CarriesItsToken(states, events, i, k + 1, j, token);
    assert states[k + 1] == Step(states[k], events[k]);
    if !Overwrites(states[k], events[k]) {
      TokensUniqueAlways(states, events, k);
      LockLoss(states[k], events[k], token);
    }
  }

  /** An unanswered request carries, all along, the token it was started with. */
  lemma CarriesItsToken(states: seq<State>, events: seq<Event>, i: nat, k: nat, j: nat, token: Token)
    requires IsRun(states, events) && i < k <= j <= |events| && StartsPrivate(states[i], events[i])
    requires token == Token(states[i].nextId, ForPrivate(events[i].kind))
    requires token.id in states[j].operations && states[j].operations[token.id].AwaitingReply?
    ensures token.id in states[k].operations
    ensures states[k].operations[token.id] == AwaitingReply(token, Pending(events[i].kind, events[i].amounts))
  {
    assert states[i + 1] == Step(states[i], events[i]);
    NextIdGrows(states, events, i + 1, k);
    UnansweredAllAlong(states, events, token.id, i + 1, j);
    UnansweredAllAlong(states, events, token.id, k, j);
  }

  /** An unanswered request holds its lock exactly as long as nothing takes it: for a payroll the
      first reconcile, with whatever hash, or release; for any kind a disconnect or a registry
      acquire. */
  lemma {:induction false} UnansweredHoldsExactly(states: seq<State>, events: seq<Event>, i: nat, n: nat)
    requires IsRun(states, events) && i < n <= |events| && StartsPrivate(states[i], events[i])
    requires states[i].nextId in states[n].operations && states[n].operations[states[i].nextId].AwaitingReply?
    ensures states[n].lock == states[i + 1].lock <==>
            forall k | i < k < n :: !Hands(events[k], events[i].kind) && !Overwrites(states[k], events[k])
    decreases n
  {
    var token := Token(states[i].nextId, ForPrivate(events[i].kind));
    assert states[i + 1] == Step(states[i], events[i]) && states[i + 1].lock == Some(token);
    if n > i + 1 {
      CarriesItsToken(states, events, i, n - 1, n, token);
      UnansweredHoldsExactly(states, events, i, n - 1);
      UnansweredOneStepMore(states, events, i, n - 1, token);
    }
  }

  lemma UnansweredOneStepMore(states: seq<State>, events: seq<Event>, i: nat, m: nat, token: Token)
    requires IsRun(states, events) && i < m < |events| && StartsPrivate(states[i], events[i])
    requires token == Token(states[i].nextId, ForPrivate(events[i].kind))
    requires token.id in states[m + 1].operations && states[m + 1].operations[token.id].AwaitingReply?
    ensures states[m + 1].lock == Some(token) <==>
            states[m].lock == Some(token) && !Hands(events[m], events[i].kind) && !Overwrites(states[m], events[m])
  {
    assert states[m + 1] == Step(states[m], events[m]);
    if states[m].lock == Some(token) {
      PrivateHolderHasKind(states, events, m);
      TokensUniqueAlways(states, events, m);
      if states[m + 1].lock != Some(token) {
        UnansweredLossIsTaken(states, events, i, m, m + 1, token);
        if !Overwrites(states[m], events[m]) {
          LockLoss(states[m], events[m], token);
        }
      }
    } else {
      assert states[i + 1] == Step(states[i], events[i]) && states[i + 1].lock == Some(token);
      LostForever(states, events, i + 1, m, m + 1, token);
    }
  }

  // ---- Finishing operations and late replies ----

  /** In any interleaving, a finishing operation whose token does not hold the lock leaves the
      lock to its holder; and afterwards the finished token holds it only when the operation
      went on to wait for the chain or kept it for canonical recovery. */
  lemma FinishKeepsOthersLock(states: seq<State>, events: seq<Event>, i: nat, token: Token)
    requires IsRun(states, events) && i < |events|
    requires IsFinishing(events[i]) && Carries(states[i].operations, events[i].id, token)
    ensures states[i].lock != Some(token) ==>
              states[i + 1].lock == states[i].lock && states[i + 1].kind == states[i].kind
    ensures states[i].lock == Some(token) ==> states[i + 1].lock in {None, Some(token)}
    ensures events[i].id !in states[i + 1].operations && states[i].lock == Some(token) ==>
              || states[i + 1].lock.None?
              || (events[i].WalletReply? && states[i].operations[events[i].id].pending.kind in {Payroll, WageClaim, WageRemediation})
  {
    assert states[i + 1] == Step(states[i], events[i]);
  }

  /** Once a request's token has lost the lock, by whatever step, its later wallet reply,
      success or rejection, changes neither lock nor kind nor the displayed transaction. */
  lemma LateReplyIsInert(states: seq<State>, events: seq<Event>, i: nat, j: nat, m: nat, token: Token)
    requires IsRun(states, events) && i <= j <= m < |events|
    requires states[i].lock == Some(token) && states[j].lock != Some(token)
    requires events[m].WalletReply? && Carries(states[m].operations, events[m].id, token)
    ensures states[m + 1].lock == states[m].lock
    ensures states[m + 1].kind == states[m].kind
    ensures states[m + 1].transaction == states[m].transaction
  {
    LostForever(states, events, i, j, m, token);
    assert states[m + 1] == Step(states[m], events[m]);
  }

  // ---- Who may write over an unanswered request's progress ----

  /** The steps that write the display without testing a token. */
  predicate Intrudes(s: State, e: Event) {
    match e
    case ChainReply(id, _) => id in s.operations && s.operations[id].AwaitingChain?
    case RegistryReply(id, _) => id in s.operations && s.operations[id].RegistrySubmitted?
    case RegistryFinish(id, _) => id in s.operations && s.operations[id].RegistryConfirming?
    case DeploymentBroadcast(id, _) => id in s.operations && s.operations[id].Deploying?
    case DeploymentFinish(id, _) => id in s.operations && s.operations[id].Deploying?
    case ClearTransaction => true
    case Reconcile(hash, _) => ValidTransactionHash(hash) && (s.transaction.Some? ==> s.transaction.value.kind == Payroll)
    case ReleasePayroll => s.transaction.Some? && s.transaction.value.kind == Payroll
    case _ => false
  }

  /** While one token holds the lock, a step keeps or restores its request's own display exactly
      when it was there and no such step writes over it. */
  lemma DisplayUnderLock(s: State, e: Event, token: Token, pending: Transaction)
    requires TokensUnique(s) && pending == Pending(pending.kind, pending.amounts)
    requires s.lock == Step(s, e).lock == Some(token)
    requires token.id in s.operations && s.operations[token.id] == AwaitingReply(token, pending)
    requires token.id in Step(s, e).operations && Step(s, e).operations[token.id] == AwaitingReply(token, pending)
    ensures Step(s, e).transaction == Some(pending) <==> s.transaction == Some(pending) && !Intrudes(s, e)
  {
  }

  ghost predicate NoIntruder(states: seq<State>, events: seq<Event>, i: nat, j: nat)
    requires |states| == |events| + 1 && j <= |events|
  {
    forall k | i < k < j :: !Intrudes(states[k], events[k])
  }

  /** From its start, while a private request is unanswered and holds the lock, the display is its
      own pending transaction exactly when no such step has come in between. */
  lemma OwnProgressExactly(states: seq<State>, events: seq<Event>, i: nat, j: nat)
    requires IsRun(states, events) && i < j <= |events| && StartsPrivate(states[i], events[i])
    requires states[i].nextId in states[j].operations && states[j].operations[states[i].nextId].AwaitingReply?
    requires states[j].lock == states[i + 1].lock
    ensures states[j].transaction == Some(Pending(events[i].kind, events[i].amounts)) <==> NoIntruder(states, events, i, j)
  {
    assert states[i + 1] == Step(states[i], events[i]);
    SameHolderHeldAllAlong(states, events, i + 1, j);
    OwnProgressWhileHeld(states, events, i, j, Token(states[i].nextId, ForPrivate(events[i].kind)));
  }

  lemma {:induction false} OwnProgressWhileHeld(states: seq<State>, events: seq<Event>, i: nat, j: nat, token: Token)
    requires IsRun(states, events) && i < j <= |events| && StartsPrivate(states[i], events[i])
    requires token == Token(states[i].nextId, ForPrivate(events[i].kind))
    requires token.id in states[j].operations && states[j].operations[token.id].AwaitingReply?
    requires forall m | i < m <= j :: states[m].lock == Some(token)
    ensures states[j].transaction == Some(Pending(events[i].kind, events[i].amounts)) <==> NoIntruder(states, events, i, j)
    decreases j
  {
    if j == i + 1 {
      assert states[j] == Step(states[i], events[i]);
    } else {
      CarriesItsToken(states, events, i, j - 1, j, token);
      OwnProgressWhileHeld(states, events, i, j - 1, token);
      OwnProgressOneStepMore(states, events, i, j - 1, token);
      NoIntruderOneStepMore(states, events, i, j - 1);
    }
  }

  lemma NoIntruderOneStepMore(states: seq<State>, events: seq<Event>, i: nat, m: nat)
    requires |states| == |events| + 1 && i < m < |events|
    ensures NoIntruder(states, events, i, m + 1) <==> NoIntruder(states, events, i, m) && !Intrudes(states[m], events[m])
  {
  }

  lemma OwnProgressOneStepMore(states: seq<State>, events: seq<Event>, i: nat, m: nat, token: Token)
    requires IsRun(states, events) && i < m < |events| && StartsPrivate(states[i], events[i])
    requires token == Token(states[i].nextId, ForPrivate(events[i].kind))
    requires token.id in states[m + 1].operations && states[m + 1].operations[token.id].AwaitingReply?
    requires states[m].lock == states[m + 1].lock == Some(token)
    ensures var pending := Pending(events[i].kind, events[i].amounts);
            states[m + 1].transaction == Some(pending) <==> states[m].transaction == Some(pending) && !Intrudes(states[m], events[m])
  {
    CarriesItsToken(states, events, i, m, m + 1, token);
    CarriesItsToken(states, events, i, m + 1, m + 1, token);
    TokensUniqueAlways(states, events, m);
    assert states[m + 1] == Step(states[m], events[m]);
    DisplayUnderLock(states[m], events[m], token, Pending(events[i].kind, events[i].amounts));
  }

  // ---- Ambiguous rejections keep the lock ----

  predicate RejectedUnderLock(s: State, e: Event) {
    && e.WalletReply? && e.answer.Rejected?
    && e.id in s.operations && s.operations[e.id].AwaitingReply?
    && s.lock == Some(s.operations[e.id].token)
  }

  /** The handovers that reach a lock kept for the recovery of `kind`. */
  predicate Hands(e: Event, kind: Kind) {
    || e.Disconnect?
    || (kind == Payroll && (e.ReleasePayroll? || (e.Reconcile? && ValidTransactionHash(e.hash))))
  }

  /** A rejection that proves nothing was submitted, or of any other kind, frees the lock at once;
      an ambiguous rejection of a recoverable kind keeps it, with neutral progress shown. */
  lemma RejectionFreesUnlessAmbiguous(states: seq<State>, events: seq<Event>, i: nat)
    requires IsRun(states, events) && i < |events| && RejectedUnderLock(states[i], events[i])
    ensures var pending := states[i].operations[events[i].id].pending;
            var keeps := pending.kind in {Payroll, WageClaim, WageRemediation} && !events[i].answer.definitive;
            && states[i + 1].lock == (if keeps then states[i].lock else None)
            && states[i + 1].transaction.Some?
            && states[i + 1].transaction.value.kind == pending.kind
            && states[i + 1].transaction.value.stage == (if keeps then AwaitingWallet else Failed)
            && states[i + 1].transaction.value.error == (if keeps then None else Some(events[i].answer.message))
    ensures events[i].id !in states[i + 1].operations
  {
    assert states[i + 1] == Step(states[i], events[i]);
    DisplayAlwaysWellFormed(states, events, i);
  }

  /** No operation works under this already issued token any more. */
  ghost predicate Orphaned(s: State, token: Token) {
    token.id < s.nextId && forall id :: !Carries(s.operations, id, token)
  }

  lemma OrphanedStep(s: State, e: Event, token: Token)
    requires TokensUnique(s) && Orphaned(s, token)
    ensures Orphaned(Step(s, e), token)
  {
    StepTouchesOnly(s, e);
    OrphanedTouch(s, Step(s, e), Subject(s, e), token);
  }

  lemma OrphanedTouch(s: State, t: State, id: nat, token: Token)
    requires Orphaned(s, token) && TouchesOnly(s, t, id)
    ensures Orphaned(t, token)
  {
    forall other ensures !Carries(t.operations, other, token) {
      assert !Carries(s.operations, other, token);
    }
  }

  lemma {:induction false} OrphanedOnwards(states: seq<State>, events: seq<Event>, i: nat, n: nat, token: Token)
    requires IsRun(states, events) && i <= n <= |events|
    requires Orphaned(states[i], token)
    ensures Orphaned(states[n], token)
  {
    if i < n {
      OrphanedOnwards(states, events, i, n - 1, token);
      TokensUniqueAlways(states, events, n - 1);
      OrphanedStep(states[n - 1], events[n - 1], token);
    }
  }

  /** Nobody works under the token, so only a handover that reaches its kind frees the lock. */
  lemma OrphanHeldUnlessHanded(s: State, e: Event, token: Token, kind: Kind)
    requires Orphaned(s, token) && !Overwrites(s, e)
    requires s.lock == Some(token) && s.kind == Some(kind)
    ensures Step(s, e).lock == Some(token) <==> !Hands(e, kind)
  {
    if Step(s, e).lock != Some(token) {
      LockLoss(s, e, token);
    }
  }

  /** After an ambiguous rejection of a payroll, claim or remediation the lock is still held at
      any later point exactly when no disconnect, and for a payroll no reconcile or release,
      has happened since. */
  lemma {:induction false} AmbiguousRejectionHoldsLock(states: seq<State>, events: seq<Event>, i: nat, n: nat)
    requires IsRun(states, events) && i < n <= |events| && RejectedUnderLock(states[i], events[i])
    requires forall k | i < k < n :: !Overwrites(states[k], events[k])
    requires states[i].operations[events[i].id].pending.kind in {Payroll, WageClaim, WageRemediation}
    requires !events[i].answer.definitive
    ensures var kind := states[i].operations[events[i].id].pending.kind;
            states[n].lock == states[i].lock <==> forall k | i < k < n :: !Hands(events[k], kind)
    decreases n
  {
    var token := states[i].operations[events[i].id].token;
    var kind := states[i].operations[events[i].id].pending.kind;
    AmbiguousRejectionOrphans(states, events, i);
    if n > i + 1 {
      AmbiguousRejectionHoldsLock(states, events, i, n - 1);
      HeldOneStepMore(states, events, i, n - 1, token, kind);
    }
  }

  lemma HeldOneStepMore(states: seq<State>, events: seq<Event>, i: nat, m: nat, token: Token, kind: PrivateKind)
    requires IsRun(states, events) && i < m < |events| && !Overwrites(states[m], events[m])
    requires states[i].lock == Some(token) && Orphaned(states[i + 1], token) && token.purpose == ForPrivate(kind)
    ensures states[m + 1].lock == Some(token) <==> states[m].lock == Some(token) && !Hands(events[m], kind)
  {
    assert states[m + 1] == Step(states[m], events[m]);
    if states[m].lock == Some(token) {
      OrphanedOnwards(states, events, i + 1, m, token);
      PrivateHolderHasKind(states, events, m);
      OrphanHeldUnlessHanded(states[m], events[m], token, kind);
    } else {
      LostForever(states, events, i, m, m + 1, token);
    }
  }

  lemma AmbiguousRejectionOrphans(states: seq<State>, events: seq<Event>, i: nat)
    requires IsRun(states, events) && i < |events| && RejectedUnderLock(states[i], events[i])
    requires states[i].operations[events[i].id].pending.kind in {Payroll, WageClaim, WageRemediation}
    requires !events[i].answer.definitive
    ensures var op := states[i].operations[events[i].id];
            && Orphaned(states[i + 1], op.token) && states[i + 1].lock == states[i].lock
            && op.token.purpose == ForPrivate(op.pending.kind)
  {
    TokensUniqueAlways(states, events, i);
    assert states[i + 1] == Step(states[i], events[i]);
  }

  // ---- Registry operations: check, await, acquire ----

  /** A pending registry check was passed at some earlier step, with the lock free. */
  lemma {:induction false} RegistryCheckOrigin(states: seq<State>, events: seq<Event>, j: nat, id: nat) returns (i: nat)
    requires IsRun(states, events) && j <= |events|
    requires id in states[j].operations && states[j].operations[id].RegistryChecked?
    ensures i < j && PassesRegistryCheck(states[i], events[i]) && states[i].nextId == id
  {
    assert j > 0;
    assert states[j] == Step(states[j - 1], events[j - 1]);
    if id in states[j - 1].operations && states[j - 1].operations[id].RegistryChecked? {
      i := RegistryCheckOrigin(states, events, j - 1, id);
    } else {
      i := j - 1;
    }
  }

  /** A lock that was free and is held was acquired in between, under the token that holds it. */
  lemma {:induction false} AcquirePoint(states: seq<State>, events: seq<Event>, i: nat, j: nat, token: Token) returns (k: nat)
    requires IsRun(states, events) && i <= j <= |events|
    requires states[i].lock != Some(token) && states[j].lock == Some(token)
    ensures i <= k < j && Acquires(states[k], events[k]) && states[k + 1].lock == Some(token)
  {
    if states[j - 1].lock != Some(token) {
      k := j - 1;
      LockGain(states[k], events[k], token);
    } else {
      k := AcquirePoint(states, events, i, j - 1, token);
    }
  }

  /** A registry acquire overwrites a held lock only when another operation acquired that lock
      after the registry operation's own check. */
  lemma OverwriteNeedsRival(states: seq<State>, events: seq<Event>, j: nat)
    requires IsRun(states, events) && j < |events| && Overwrites(states[j], events[j])
    ensures exists i, k | 0 <= i < k < j ::
              && PassesRegistryCheck(states[i], events[i]) && states[i].nextId == events[j].id
              && Acquires(states[k], events[k]) && states[k + 1].lock == states[j].lock
  {
    var i := RegistryCheckOrigin(states, events, j, events[j].id);
    assert states[i + 1] == Step(states[i], events[i]);
    var k := AcquirePoint(states, events, i + 1, j, states[j].lock.value);
    assert i < k < j && PassesRegistryCheck(states[i], events[i]) && Acquires(states[k], events[k]);
  }

  /** A rival acquired after registry operation `j`'s own check, at `i`, and still holds when it acquires. */
  ghost predicate RivalStillHolds(states: seq<State>, events: seq<Event>, i: nat, k: nat, j: nat)
    requires |states| == |events| + 1 && i < k < j < |events|
  {
    && PassesRegistryCheck(states[i], events[i])
    && AcquiresForRegistry(states[j], events[j]) && events[j].id == states[i].nextId
    && Acquires(states[k], events[k]) && HoldsFrom(states, k + 1, j)
  }

  /** Whoever holds the lock at `k` has not lost it up to `j`. */
  ghost predicate HoldsFrom(states: seq<State>, k: nat, j: nat)
    requires k <= j < |states|
  {
    states[k].lock.Some? && forall m | k <= m <= j :: states[m].lock == states[k].lock
  }

  lemma SameHolderHeldAllAlong(states: seq<State>, events: seq<Event>, k: nat, j: nat)
    requires IsRun(states, events) && k <= j <= |events|
    requires states[k].lock.Some? && states[j].lock == states[k].lock
    ensures HoldsFrom(states, k, j)
  {
    forall m | k <= m <= j ensures states[m].lock == states[k].lock {
      if states[m].lock != states[k].lock {
        LostForever(states, events, k, m, j, states[k].lock.value);
      }
    }
  }

  ghost predicate Exclusive(states: seq<State>, events: seq<Event>)
    requires |states| == |events| + 1
  {
    forall j | 0 <= j < |events| && Acquires(states[j], events[j]) :: states[j].lock.None?
  }

  ghost predicate NoRivalHolds(states: seq<State>, events: seq<Event>)
    requires |states| == |events| + 1
  {
    forall i, k, j | 0 <= i < k < j < |events| :: !RivalStillHolds(states, events, i, k, j)
  }

  /** Exclusion across all operation kinds, exactly: every acquire finds the lock free if and only
      if no registry acquire falls while a rival that acquired after its own check still holds. */
  lemma ExclusionExactly(states: seq<State>, events: seq<Event>)
    requires IsRun(states, events)
    ensures Exclusive(states, events) <==> NoRivalHolds(states, events)
  {
    forall i, k, j | 0 <= i < k < j < |events| && RivalStillHolds(states, events, i, k, j)
      ensures !Exclusive(states, events)
    {
      assert states[j].lock == states[k + 1].lock;
    }
    if NoRivalHolds(states, events) {
      forall j | 0 <= j < |events| && Acquires(states[j], events[j]) ensures states[j].lock.None? {
        if Overwrites(states[j], events[j]) {
          OverwriteHasHoldingRival(states, events, j);
        }
      }
    }
  }

  lemma OverwriteHasHoldingRival(states: seq<State>, events: seq<Event>, j: nat)
    requires IsRun(states, events) && j < |events| && Overwrites(states[j], events[j])
    ensures exists i, k | 0 <= i < k < j :: RivalStillHolds(states, events, i, k, j)
  {
    OverwriteNeedsRival(states, events, j);
    var i, k :| 0 <= i < k < j && PassesRegistryCheck(states[i], events[i]) && states[i].nextId == events[j].id
                && Acquires(states[k], events[k]) && states[k + 1].lock == states[j].lock;
    SameHolderHeldAllAlong(states, events, k + 1, j);
    assert RivalStillHolds(states, events, i, k, j);
  }

  /** No acquire at all falls between a registry operation's check and its acquire. */
  ghost predicate NoRivalAcquire(states: seq<State>, events: seq<Event>)
    requires |states| == |events| + 1
  {
    forall i, k, j | 0 <= i < k < j < |events|
                     && PassesRegistryCheck(states[i], events[i])
                     && AcquiresForRegistry(states[j], events[j]) && events[j].id == states[i].nextId ::
      !Acquires(states[k], events[k])
  }

  /** In particular exclusion holds when no acquire falls in any such gap. */
  lemma ExclusionWithoutRivals(states: seq<State>, events: seq<Event>)
    requires IsRun(states, events) && NoRivalAcquire(states, events)
    ensures Undisturbed(states, events) && Exclusive(states, events)
  {
    ExclusionExactly(states, events);
  }

  /** Between two acquires with no overwriting one after the first, the earlier holder has let go. */
  lemma HolderLetsGo(states: seq<State>, events: seq<Event>, i: nat, m: nat)
    requires IsRun(states, events) && i < m < |events| && forall k | i < k <= m :: !Overwrites(states[k], events[k])
    requires Acquires(states[i], events[i]) && Acquires(states[m], events[m])
    ensures exists k | i < k < m :: && states[k].lock == states[i + 1].lock && states[k + 1].lock.None?
                                    && (IsHandover(events[k]) || IsFinishing(events[k]))
  {
    assert states[i + 1] == Step(states[i], events[i]) && states[i + 1].lock.Some?;
    assert !Overwrites(states[m], events[m]);
    var token := states[i + 1].lock.value;
    var k := LossPoint(states, events, i + 1, m, token);
    assert states[k + 1] == Step(states[k], events[k]) && !Overwrites(states[k], events[k]);
    LockLoss(states[k], events[k], token);
  }

  // ---- What does not hold ----

  const ADMITTED := Session(true, true, true, Available)

  /** Two registry-free acquires cannot overlap, but a payroll started between a registry
      operation's check and its acquire can: two wallet requests are open at once, the registry
      holds a lock whose kind still says payroll, and when the registry operation finishes a
      second payroll starts while the first is unanswered, with no handover at all. */
  lemma RegistryOverlapsPayroll() returns (states: seq<State>, events: seq<Event>)
    ensures events == [RegistryCheck(true), SubmitPrivate(Payroll, ADMITTED, NO_AMOUNTS), RegistryAcquire(0),
                       RegistryReply(0, Err("refused")), SubmitPrivate(Payroll, ADMITTED, NO_AMOUNTS)]
    ensures IsRun(states, events) && Overwrites(states[2], events[2])
    ensures states[3].lock == Some(Token(2, ForRegistry)) && states[3].kind == Some(Payroll)
    ensures states[3].operations.Keys == {0, 1}
    ensures StartsPrivate(states[4], events[4])
    ensures forall id | id in {1, 3} :: id in states[5].operations && states[5].operations[id].AwaitingReply?
  {
    events := [RegistryCheck(true), SubmitPrivate(Payroll, ADMITTED, NO_AMOUNTS), RegistryAcquire(0),
               RegistryReply(0, Err("refused")), SubmitPrivate(Payroll, ADMITTED, NO_AMOUNTS)];
    var one := Step(INITIAL, events[0]);
    var two := Step(one, events[1]);
    var three := Step(two, events[2]);
    var four := Step(three, events[3]);
    states := [INITIAL, one, two, three, four, Step(four, events[4])];
  }

  /** The confirmation watcher does not test its token: a payroll reconciled and followed by a
      new payroll is displayed as confirmed again when the old watcher's chain reply arrives,
      although the lock stays with the new request. */
  lemma StaleWatcherRegressesDisplay() returns (states: seq<State>, events: seq<Event>)
    ensures events == [SubmitPrivate(Payroll, ADMITTED, NO_AMOUNTS), WalletReply(0, Submitted("0x1")),
                       Reconcile("0x1", false), SubmitPrivate(Payroll, ADMITTED, NO_AMOUNTS),
                       ChainReply(0, None)]
    ensures IsRun(states, events)
    ensures states[4].transaction == Some(Pending(Payroll, NO_AMOUNTS))
    ensures states[5].transaction.Some? && states[5].transaction.value.stage == Confirmed
    ensures states[5].transaction.value.hash == Some("0x1")
    ensures states[5].lock == Some(Token(1, ForPrivate(Payroll)))
    ensures 1 in states[5].operations && states[5].operations[1].AwaitingReply?
  {
    events := [SubmitPrivate(Payroll, ADMITTED, NO_AMOUNTS), WalletReply(0, Submitted("0x1")),
               Reconcile("0x1", false), SubmitPrivate(Payroll, ADMITTED, NO_AMOUNTS),
               ChainReply(0, None)];
    assert ValidTransactionHash("0x1");
    var one := Step(INITIAL, events[0]);
    var two := Step(one, events[1]);
    var three := Step(two, events[2]);
    var four := Step(three, events[3]);
    states := [INITIAL, one, two, three, four, Step(four, events[4])];
  }

  /** A registry operation that lost its token writes the display as well: after a disconnect, its
      reply is shown over a new payroll's progress, while the payroll holds the lock. */
  lemma DeadRegistryWritesOverPayroll() returns (states: seq<State>, events: seq<Event>)
    ensures events == [RegistryCheck(true), RegistryAcquire(0), Disconnect, SubmitPrivate(Payroll, ADMITTED, NO_AMOUNTS),
                       RegistryReply(0, Ok("0x1"))]
    ensures IsRun(states, events)
    ensures states[4].transaction == Some(Pending(Payroll, NO_AMOUNTS))
    ensures states[5].transaction == Some(Pending(Registry, NO_AMOUNTS).(stage := Confirming, hash := Some("0x1")))
    ensures states[5].lock == states[4].lock == Some(Token(2, ForPrivate(Payroll)))
  {
    events := [RegistryCheck(true), RegistryAcquire(0), Disconnect, SubmitPrivate(Payroll, ADMITTED, NO_AMOUNTS),
               RegistryReply(0, Ok("0x1"))];
    var one := Step(INITIAL, events[0]);
    var two := Step(one, events[1]);
    var three := Step(two, events[2]);
    var four := Step(three, events[3]);
    states := [INITIAL, one, two, three, four, Step(four, events[4])];
  }

  /** Reconciliation does not ask whose hash it was given: recovering an old run takes the lock of
      a payroll the wallet has not answered yet, shows it confirmed under the foreign hash, and
      lets a second payroll start beside it. */
  lemma ForeignReconcileOpensSecondPayroll() returns (states: seq<State>, events: seq<Event>)
    ensures events == [SubmitPrivate(Payroll, ADMITTED, NO_AMOUNTS), Reconcile("0xabc", false),
                       SubmitPrivate(Payroll, ADMITTED, NO_AMOUNTS)]
    ensures IsRun(states, events)
    ensures states[2].transaction == Some(Pending(Payroll, NO_AMOUNTS).(
                                          stage := Confirmed, hash := Some("0xabc"), refreshed := Some(false)))
    ensures forall id | id in {0, 1} :: id in states[3].operations && states[3].operations[id].AwaitingReply?
  {
    events := [SubmitPrivate(Payroll, ADMITTED, NO_AMOUNTS), Reconcile("0xabc", false),
               SubmitPrivate(Payroll, ADMITTED, NO_AMOUNTS)];
    assert ValidTransactionHash("0xabc");
    var one := Step(INITIAL, events[0]);
    var two := Step(one, events[1]);
    states := [INITIAL, one, two, Step(two, events[2])];
  }
}
