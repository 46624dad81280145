/** What the displayed transaction may say, in every interleaving of wallet operations. */
module WalletDisplay {
  import opened Wrappers
  import opened WalletProtocol

  /** Each stage comes with the fields that make sense of it. A finished deployment that had
      nothing to submit has no hash. */
  predicate WellFormed(t: Transaction) {
    match t.stage
    case AwaitingWallet => t.hash.None? && t.error.None?
    case Confirming => t.hash.Some?
    case Confirmed => t.hash.Some? || t.kind == Deployment
    case Failed => t.error.Some?
  }

  /** What each operation in flight remembers of the transaction it shows. */
  predicate Remembers(op: Operation) {
    match op
    case AwaitingReply(_, pending) => pending == Pending(pending.kind, pending.amounts)
    case AwaitingChain(_, hash, pending) => pending.stage == Confirming && pending.hash == Some(hash)
    case AwaitingBalance(_, hash, pending) => pending.stage == Confirming && pending.hash == Some(hash)
    case AwaitingReconcileBalance(_) => true
    case RegistryChecked => true
    case RegistrySubmitted(_, pending) => pending == Pending(Registry, NO_AMOUNTS)
    case RegistryConfirming(_, pending, _) => pending == Pending(Registry, NO_AMOUNTS)
    case Deploying(_, pending, _) => pending == Pending(Deployment, NO_AMOUNTS)
  }

  ghost predicate DisplayInvariant(s: State) {
    && (s.transaction.Some? ==> WellFormed(s.transaction.value))
    && forall id | id in s.operations :: Remembers(s.operations[id])
  }

  lemma DisplayStep(s: State, e: Event)
    requires DisplayInvariant(s)
    ensures Step(s, e).transaction.Some? ==> WellFormed(Step(s, e).transaction.value)
  {
  }

  lemma RemembersStep(s: State, e: Event, id: nat)
    requires forall other | other in s.operations :: Remembers(s.operations[other])
    requires id in Step(s, e).operations
    ensures Remembers(Step(s, e).operations[id])
  {
  }

  /** In every reachable state the stage shown and the fields shown agree, whatever operations
      have written the display in whatever order. */
  lemma {:induction false} DisplayAlwaysWellFormed(states: seq<State>, events: seq<Event>, i: nat)
    requires IsRun(states, events) && i < |states|
    ensures DisplayInvariant(states[i])
    ensures states[i].transaction.Some? ==> WellFormed(states[i].transaction.value)
  {
    if i > 0 {
      DisplayAlwaysWellFormed(states, events, i - 1);
      assert states[i] == Step(states[i - 1], events[i - 1]);
      DisplayStep(states[i - 1], events[i - 1]);
      forall id | id in states[i].operations ensures Remembers(states[i].operations[id]) {
        RemembersStep(states[i - 1], events[i - 1], id);
      }
    }
  }

  // ---- Nothing is shown as confirmed without evidence ----

  /** Chain finality, or the canonical indexer's recovery, of exactly this hash. */
  predicate Confirms(s: State, e: Event, hash: Option<string>) {
    match e
    case ChainReply(id, failure) =>
      failure.None? && id in s.operations && s.operations[id].AwaitingChain? && hash == Some(s.operations[id].hash)
    case Reconcile(recovered, _) => ValidTransactionHash(recovered) && hash == Some(recovered)
    case RegistryFinish(id, failure) =>
      failure.None? && id in s.operations && s.operations[id].RegistryConfirming? && hash == Some(s.operations[id].hash)
    case DeploymentFinish(id, outcome) =>
      outcome.Ok? && id in s.operations && s.operations[id].Deploying? && hash == Or(s.operations[id].broadcast, outcome.value)
    case _ => false
  }

  ghost predicate EvidenceBefore(states: seq<State>, events: seq<Event>, i: nat, hash: Option<string>)
    requires |states| == |events| + 1
  {
    exists k :: 0 <= k < i && k < |events| && Confirms(states[k], events[k], hash)
  }

  lemma LaterEvidence(states: seq<State>, events: seq<Event>, i: nat, hash: Option<string>)
    requires |states| == |events| + 1 && EvidenceBefore(states, events, i, hash)
    ensures EvidenceBefore(states, events, i + 1, hash)
  {
  }

  predicate Awaits(s: State, id: nat, hash: string) {
    id in s.operations && s.operations[id].AwaitingBalance? && s.operations[id].hash == hash
  }

  lemma AwaitedAfterConfirmation(s: State, e: Event, id: nat, hash: string)
    requires Awaits(Step(s, e), id, hash)
    ensures Awaits(s, id, hash) || Confirms(s, e, Some(hash))
  {
  }

  /** A balance refresh is only awaited for a hash the chain has confirmed. */
  lemma {:induction false} BalanceHasEvidence(states: seq<State>, events: seq<Event>, i: nat, id: nat, hash: string)
    requires IsRun(states, events) && i < |states| && Awaits(states[i], id, hash)
    ensures EvidenceBefore(states, events, i, Some(hash))
  {
    if i > 0 {
      assert states[i] == Step(states[i - 1], events[i - 1]);
      AwaitedAfterConfirmation(states[i - 1], events[i - 1], id, hash);
      if Awaits(states[i - 1], id, hash) {
        BalanceHasEvidence(states, events, i - 1, id, hash);
        LaterEvidence(states, events, i - 1, Some(hash));
      }
    }
  }

  predicate ShowsConfirmed(s: State, hash: Option<string>) {
    s.transaction.Some? && s.transaction.value.stage == Confirmed && s.transaction.value.hash == hash
  }

  /** How one step comes to show a confirmation. */
  lemma ConfirmedStep(s: State, e: Event, hash: Option<string>)
    requires ShowsConfirmed(Step(s, e), hash)
    ensures || ShowsConfirmed(s, hash)
            || Confirms(s, e, hash)
            || (e.BalanceReply? && e.id in s.operations && s.operations[e.id].AwaitingBalance?
                && hash == Some(s.operations[e.id].hash))
  {
  }

  /** A transaction shown as confirmed was confirmed by the chain or recovered by the canonical
      indexer, under the very hash that is shown. */
  lemma {:induction false} ConfirmedHasEvidence(states: seq<State>, events: seq<Event>, i: nat, hash: Option<string>)
    requires IsRun(states, events) && i < |states| && ShowsConfirmed(states[i], hash)
    ensures EvidenceBefore(states, events, i, hash)
  {
    if i > 0 {
      var s, e := states[i - 1], events[i - 1];
      assert states[i] == Step(s, e);
      ConfirmedStep(s, e, hash);
      if ShowsConfirmed(s, hash) {
        ConfirmedHasEvidence(states, events, i - 1, hash);
        LaterEvidence(states, events, i - 1, hash);
      } else if !Confirms(s, e, hash) {
        BalanceHasEvidence(states, events, i - 1, e.id, hash.value);
        LaterEvidence(states, events, i - 1, hash);
      }
    }
  }

  /** A balance outcome reaches the display only while its own hash is on it, and leaves
      that hash as it is. */
  lemma BalanceReachesOwnHashOnly(states: seq<State>, events: seq<Event>, i: nat)
    requires IsRun(states, events) && i < |events|
    requires events[i].BalanceReply? || events[i].ReconcileBalanceReply?
    requires states[i].transaction.Some? && states[i + 1].transaction != states[i].transaction
    ensures events[i].id in states[i].operations
    ensures var op := states[i].operations[events[i].id];
            (op.AwaitingBalance? || op.AwaitingReconcileBalance?) && states[i].transaction.value.hash == Some(op.hash)
    ensures states[i + 1].transaction.Some? && states[i + 1].transaction.value.hash == states[i].transaction.value.hash
  {
    assert states[i + 1] == Step(states[i], events[i]);
  }
}
