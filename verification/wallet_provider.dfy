/** The wallet provider's mutable refs and state, updated one atomic stretch at a time, together
    with the run they have gone through. Each method keeps the class a witness of a run of the
    protocol and promises its caller what the theorems about runs say of that stretch. */
module WalletProvider {
  import opened WalletDisplay
  import opened WalletProgress
  import opened WalletProperties
  import opened WalletProtocol
  import opened Wrappers

  /** The token has held the lock and lost it again, by whatever step. */
  ghost predicate HasLost(states: seq<State>, token: Token) {
    exists i, j :: 0 <= i <= j < |states| && states[i].lock == Some(token) && states[j].lock != Some(token)
  }

  predicate SameView(before: State, after: State) {
    before.lock == after.lock && before.kind == after.kind && before.transaction == after.transaction
  }

  /** Whoever else holds the lock keeps it, with its kind. */
  predicate KeepsOthersLock(before: State, after: State, token: Token) {
    before.lock != Some(token) ==> after.lock == before.lock && after.kind == before.kind
  }

  /** The lock of the private request started at step `i` has been taken from it since. */
  ghost predicate TakenSince(states: seq<State>, events: seq<Event>, i: nat)
    requires |states| == |events| + 1 && i < |events|
  {
    exists k :: i < k < |events| && Takes(states[k], events[k])
                && states[k].lock == states[i + 1].lock && states[k + 1].lock != states[k].lock
  }

  class Provider {
    var lock: Option<Token>
    var kind: Option<Kind>
    var transaction: Option<Transaction>
    var operations: map<nat, Operation>
    var nextId: nat
    ghost var states: seq<State>
    ghost var events: seq<Event>

    function View(): State
      reads this
    {
      State(lock, kind, transaction, operations, nextId)
    }

    /** The fields are the last state of the run that has happened so far. */
    ghost predicate Valid()
      reads this
    {
      IsRun(states, events) && View() == states[|events|]
    }

    constructor ()
      ensures Valid() && events == []
    {
      lock, kind, transaction, operations, nextId := None, None, None, map[], 0;
      states, events := [INITIAL], [];
    }

    ghost method Record(e: Event)
      requires IsRun(states, events) && View() == Step(states[|events|], e)
      modifies this`states, this`events
      ensures Valid() && events == old(events) + [e] && states == old(states) + [View()]
    {
      states := states + [View()];
      events := events + [e];
    }

    /** What holds between any two stretches: tokens are unique, a private holder's kind is set,
        the display is well formed, and a confirmation on it has evidence. */
    lemma Promises()
      requires Valid()
      ensures TokensUnique(View())
      ensures HolderKind(lock).Some? ==> kind == HolderKind(lock)
      ensures transaction.Some? ==> WellFormed(transaction.value)
      ensures transaction.Some? && transaction.value.stage == Confirmed ==>
                EvidenceBefore(states, events, |events|, transaction.value.hash)
    {
      TokensUniqueAlways(states, events, |events|);
      PrivateHolderHasKind(states, events, |events|);
      DisplayAlwaysWellFormed(states, events, |events|);
      if transaction.Some? && transaction.value.stage == Confirmed {
        ConfirmedHasEvidence(states, events, |events|, transaction.value.hash);
      }
    }

    /** Takes a fresh Symbol for `purpose`; no earlier token has the same identity. */
    method Symbol(purpose: Purpose) returns (token: Token)
      modifies this`nextId
      ensures token == Token(old(nextId), purpose) && nextId == old(nextId) + 1
    {
      token := Token(nextId, purpose);
      nextId := nextId + 1;
    }

    /** submitPrivateActions up to the await of the wallet: test and take the lock. Every earlier
        request that is still unanswered has had its own lock taken from it. */
    method SubmitPrivateActions(kind: PrivateKind, session: Session, amounts: Amounts) returns (started: Option<nat>)
      requires Valid()
      modifies this
      ensures Valid() && events == old(events) + [SubmitPrivate(kind, session, amounts)]
      ensures started.Some? <==> AdmitsPrivate(session) && old(lock).None?
      ensures started.Some? ==> lock == Some(Token(started.value, ForPrivate(kind))) && this.kind == Some(kind)
      ensures started.Some? ==> transaction == Some(Pending(kind, amounts)) && Unanswered(View(), started.value)
      ensures started.None? ==> View() == old(View())
      ensures started.Some? ==> forall i | 0 <= i < |old(events)| && StartsPrivate(old(states)[i], old(events)[i])
                                           && Unanswered(old(View()), old(states)[i].nextId) ::
                TakenSince(old(states), old(events), i)
    {
      if !AdmitsPrivate(session) || lock.Some? {
        Record(SubmitPrivate(kind, session, amounts));
        return None;
      }
      var requestToken := Symbol(ForPrivate(kind));
      lock := Some(requestToken);
      this.kind := Some(kind);
      var pending := Pending(kind, amounts);
      transaction := Some(pending);
      operations := operations[requestToken.id := AwaitingReply(requestToken, pending)];
      started := Some(requestToken.id);
      Record(SubmitPrivate(kind, session, amounts));
      ghost var n := |old(events)|;
      forall i | 0 <= i < n && StartsPrivate(old(states)[i], old(events)[i]) && Unanswered(old(View()), old(states)[i].nextId)
        ensures TakenSince(old(states), old(events), i)
      {
        SecondRequestNeedsHandover(states, events, i, n);
      }
    }

    method ReleaseIfHeld(token: Token)
      modifies this`lock, this`kind
      ensures View() == Release(old(View()), token)
    {
      if lock == Some(token) {
        lock := None;
        kind := None;
      }
    }

    /** submitPrivateActions after the wallet answers. A token that has lost the lock changes
        nothing that is visible; one that holds it keeps it when the request was submitted, or when
        its rejection is ambiguous and recoverable, and frees it otherwise. */
    method OnWalletReply(id: nat, answer: WalletAnswer)
      requires Valid() && Unanswered(View(), id)
      modifies this
      ensures Valid() && events == old(events) + [WalletReply(id, answer)]
      ensures HasLost(old(states), old(operations[id]).token) ==> SameView(old(View()), View())
      ensures KeepsOthersLock(old(View()), View(), old(operations[id]).token)
      ensures old(lock) == Some(old(operations[id]).token) ==>
                lock == if answer.Submitted?
                           || (old(operations[id]).pending.kind in {Payroll, WageClaim, WageRemediation} && !answer.definitive)
                        then old(lock) else None
      ensures old(lock) == Some(old(operations[id]).token) && answer.Submitted? ==>
                && transaction == Some(old(operations[id]).pending.(stage := Confirming, hash := Some(answer.hash)))
                && operations == old(operations)[id := AwaitingChain(old(operations[id]).token, answer.hash, transaction.value)]
      ensures old(lock) == Some(old(operations[id]).token) && answer.Rejected? ==>
                && operations == old(operations) - {id}
                && transaction == Some(if lock.Some? then old(operations[id]).pending.(stage := AwaitingWallet)
                                       else old(operations[id]).pending.(stage := Failed, error := Some(answer.message)))
    {
      var requestToken, pending := operations[id].token, operations[id].pending;
      operations := operations - {id};
      if lock == Some(requestToken) {
        match answer
        case Submitted(hash) =>
          var confirming := pending.(stage := Confirming, hash := Some(hash));
          transaction := Some(confirming);
          operations := operations[id := AwaitingChain(requestToken, hash, confirming)];
          assert operations == old(operations)[id := AwaitingChain(requestToken, hash, confirming)];
        case Rejected(definitive, message) =>
          if Recoverable(pending.kind) && !definitive {
            transaction := Some(pending.(stage := AwaitingWallet));
          } else {
            ReleaseIfHeld(requestToken);
            transaction := Some(pending.(stage := Failed, error := Some(message)));
          }
      }
      Record(WalletReply(id, answer));
      if HasLost(old(states), requestToken) {
        ghost var i, j :| 0 <= i <= j < |old(states)| && old(states)[i].lock == Some(requestToken)
                          && old(states)[j].lock != Some(requestToken);
        LateReplyIsInert(states, events, i, j, |old(events)|, requestToken);
      }
    }

    /** confirmTransaction after waitForTransaction settles: the outcome is shown without a token
        test, but the lock is freed only under the request's own token. */
    method OnChainReply(id: nat, failure: Option<string>)
      requires Valid() && id in operations && operations[id].AwaitingChain?
      modifies this
      ensures Valid() && events == old(events) + [ChainReply(id, failure)]
      ensures KeepsOthersLock(old(View()), View(), old(operations[id]).token)
      ensures old(lock) == Some(old(operations[id]).token) ==> lock.None? && kind.None?
      ensures transaction.Some? && transaction.value.hash == Some(old(operations[id]).hash)
      ensures transaction.value.stage == if failure.Some? then Failed else Confirmed
      ensures failure.Some? ==> transaction.value.error == failure
      ensures if failure.None? && old(operations[id]).pending.kind in {Shield, PrivateSwap, PublicWithdrawal} then
                operations == old(operations)[id := AwaitingBalance(
                                                      old(operations[id]).token, old(operations[id]).hash, old(operations[id]).pending)]
              else operations == old(operations) - {id}
    {
      TokensUniqueAlways(states, events, |events|);
      var requestToken, hash, pending := operations[id].token, operations[id].hash, operations[id].pending;
      if failure.Some? {
        transaction := Some(pending.(stage := Failed, hash := Some(hash), error := failure));
        ReleaseIfHeld(requestToken);
        operations := operations - {id};
      } else {
        transaction := Some(pending.(stage := Confirmed, hash := Some(hash), refreshed := Some(false)));
        ReleaseIfHeld(requestToken);
        if Recoverable(pending.kind) {
          operations := operations - {id};
        } else {
          operations := operations[id := AwaitingBalance(requestToken, hash, pending)];
        }
      }
      Record(ChainReply(id, failure));
    }

    /** confirmTransaction after the private balance refresh settles: the display changes only
        while it shows this very hash, and the hash stays. */
    method OnBalanceReply(id: nat, after: Result<int, string>)
      requires Valid() && id in operations && operations[id].AwaitingBalance?
      modifies this
      ensures Valid() && events == old(events) + [BalanceReply(id, after)]
      ensures KeepsOthersLock(old(View()), View(), old(operations[id]).token)
      ensures transaction != old(transaction) ==>
                && old(transaction).Some? && old(transaction).value.hash == Some(old(operations[id]).hash)
                && transaction.Some? && transaction.value.hash == old(transaction).value.hash
      ensures old(transaction).Some? && old(transaction).value.hash == Some(old(operations[id]).hash) ==>
                transaction.Some? && transaction.value.refreshed == Some(after.Ok?)
                && transaction.value.refreshError == if after.Err? then Some(after.error) else None
      ensures operations == old(operations) - {id}
    {
      var requestToken, hash, pending := operations[id].token, operations[id].hash, operations[id].pending;
      if after.Err? {
        transaction := Refreshed(transaction, hash, false, Some(after.error));
      } else if transaction.Some? && transaction.value.hash == Some(hash) {
        transaction := Some(Spread(transaction.value, Corrected(pending, after.value), hash));
      }
      ReleaseIfHeld(requestToken);
      operations := operations - {id};
      Record(BalanceReply(id, after));
    }

    /** Takes lock and kind away from a payroll, whoever it was submitted by. */
    method FreePayroll()
      modifies this`lock, this`kind
      ensures lock == (if old(kind) == Some(Payroll) then None else old(lock))
      ensures kind == (if old(kind) == Some(Payroll) then None else old(kind))
    {
      if kind == Some(Payroll) {
        lock := None;
        kind := None;
      }
    }

    /** A valid hash, of whatever transaction, takes the lock from any payroll, and from a private
        action of another kind never. */
    method ReconcilePayrollTransaction(hash: string, refresh: bool) returns (accepted: bool)
      requires Valid()
      modifies this
      ensures Valid() && events == old(events) + [Reconcile(hash, refresh)]
      ensures accepted == ValidTransactionHash(hash)
      ensures !accepted ==> View() == old(View())
      ensures accepted && HolderKind(old(lock)) == Some(Payroll) ==> lock.None?
      ensures HolderKind(old(lock)).Some? && HolderKind(old(lock)) != Some(Payroll) ==> lock == old(lock) && kind == old(kind)
      ensures accepted ==>
                if old(transaction).Some? && old(transaction).value.kind != Payroll then transaction == old(transaction)
                else transaction.Some? && transaction.value.kind == Payroll && transaction.value.stage == Confirmed
                     && transaction.value.hash == Some(hash) && transaction.value.refreshed == Some(false)
      ensures accepted ==> operations == if refresh then old(operations)[old(nextId) := AwaitingReconcileBalance(hash)]
                                         else old(operations)
    {
      Promises();
      accepted := ValidTransactionHash(hash);
      if accepted {
        FreePayroll();
        transaction := Reconciled(transaction, hash);
        if refresh {
          operations := operations[nextId := AwaitingReconcileBalance(hash)];
          nextId := nextId + 1;
        }
      }
      Record(Reconcile(hash, refresh));
    }

    /** The refresh outcome reaches only a displayed payroll with this hash, and no lock. */
    method OnReconcileBalanceReply(id: nat, failure: Option<string>)
      requires Valid() && id in operations && operations[id].AwaitingReconcileBalance?
      modifies this
      ensures Valid() && events == old(events) + [ReconcileBalanceReply(id, failure)]
      ensures lock == old(lock) && kind == old(kind)
      ensures transaction != old(transaction) ==>
                && old(transaction).Some? && old(transaction).value.kind == Payroll
                && old(transaction).value.hash == Some(old(operations[id]).hash)
                && transaction.Some? && transaction.value.hash == old(transaction).value.hash
      ensures old(transaction).Some? && old(transaction).value.kind == Payroll
              && old(transaction).value.hash == Some(old(operations[id]).hash) ==>
                transaction.Some? && transaction.value.refreshed == Some(failure.None?) && transaction.value.refreshError == failure
    {
      transaction := Refreshed(transaction, operations[id].hash, true, failure);
      operations := operations - {id};
      Record(ReconcileBalanceReply(id, failure));
    }

    /** No payroll holds the lock or is shown afterwards; another private action keeps its lock. */
    method ReleasePayrollTransaction()
      requires Valid()
      modifies this
      ensures Valid() && events == old(events) + [ReleasePayroll]
      ensures HolderKind(lock) != Some(Payroll) && (transaction.Some? ==> transaction.value.kind != Payroll)
      ensures old(transaction).Some? && old(transaction).value.kind != Payroll ==> transaction == old(transaction)
      ensures operations == old(operations)
      ensures HolderKind(old(lock)).Some? && HolderKind(old(lock)) != Some(Payroll) ==> lock == old(lock) && kind == old(kind)
    {
      Promises();
      FreePayroll();
      if transaction.Some? && transaction.value.kind == Payroll {
        transaction := None;
      }
      Record(ReleasePayroll);
    }

    /** Everything shown and locked is gone, while the operations stay in flight; every token that
        held the lock has lost it. */
    method ClearConnection()
      requires Valid()
      modifies this
      ensures Valid() && events == old(events) + [Disconnect]
      ensures lock.None? && kind.None? && transaction.None? && operations == old(operations)
      ensures old(lock).Some? ==> HasLost(states, old(lock).value)
    {
      transaction := None;
      lock := None;
      kind := None;
      Record(Disconnect);
      if old(lock).Some? {
        assert states[|old(events)|].lock == old(lock) && states[|events|].lock.None?;
      }
    }

    /** A registry operation's test of the lock, before it awaits its chain reads. */
    method CheckForRegistry(admitted: bool) returns (checked: Option<nat>)
      requires Valid()
      modifies this
      ensures Valid() && events == old(events) + [RegistryCheck(admitted)]
      ensures checked.Some? <==> admitted && old(lock).None?
      ensures operations == if checked.Some? then old(operations)[checked.value := RegistryChecked] else old(operations)
      ensures SameView(old(View()), View())
    {
      checked := None;
      if admitted && lock.None? {
        operations := operations[nextId := RegistryChecked];
        checked := Some(nextId);
        nextId := nextId + 1;
      }
      Record(RegistryCheck(admitted));
    }

    /** The later acquire, which does not test the lock again: it overwrites only a rival that
        acquired after this operation's own check and still holds. */
    method AcquireForRegistry(id: nat)
      requires Valid() && id in operations && operations[id].RegistryChecked?
      modifies this
      ensures Valid() && events == old(events) + [RegistryAcquire(id)]
      ensures lock == Some(Token(old(nextId), ForRegistry)) && kind == old(kind)
      ensures transaction == Some(Transaction(Registry, AwaitingWallet, None, None, NO_AMOUNTS, None, None))
      ensures operations == old(operations)[id := RegistrySubmitted(lock.value, transaction.value)]
      ensures old(lock).Some? ==>
                exists i, k | 0 <= i < k < |old(events)| :: RivalStillHolds(states, events, i, k, |old(events)|)
    {
      var requestToken := Symbol(ForRegistry);
      lock := Some(requestToken);
      var pending := Pending(Registry, NO_AMOUNTS);
      transaction := Some(pending);
      operations := operations[id := RegistrySubmitted(requestToken, pending)];
      Record(RegistryAcquire(id));
      if old(lock).Some? {
        OverwriteHasHoldingRival(states, events, |old(events)|);
      }
    }

    method ReleaseLockIfHeld(token: Token)
      modifies this`lock
      ensures View() == ReleaseLockOnly(old(View()), token)
    {
      if lock == Some(token) {
        lock := None;
      }
    }

    /** The reply is shown whoever holds the lock, but the lock is freed only under the own token. */
    method OnRegistryReply(id: nat, reply: Result<string, string>)
      requires Valid() && id in operations && operations[id].RegistrySubmitted?
      modifies this
      ensures Valid() && events == old(events) + [RegistryReply(id, reply)]
      ensures KeepsOthersLock(old(View()), View(), old(operations[id]).token)
      ensures reply.Ok? ==>
                && transaction == Some(Transaction(Registry, Confirming, Some(reply.value), None, NO_AMOUNTS, None, None))
                && operations == old(operations)[id := RegistryConfirming(old(operations[id]).token, old(operations[id]).pending, reply.value)]
      ensures reply.Err? ==>
                && transaction == Some(Transaction(Registry, Failed, None, Some(reply.error), NO_AMOUNTS, None, None))
                && operations == old(operations) - {id} && lock != Some(old(operations[id]).token)
    {
      Promises();
      DisplayAlwaysWellFormed(states, events, |events|);
      var requestToken, pending := operations[id].token, operations[id].pending;
      match reply {
        case Ok(hash) =>
          transaction := Some(pending.(stage := Confirming, hash := Some(hash)));
          operations := operations[id := RegistryConfirming(requestToken, pending, hash)];
        case Err(message) =>
          transaction := Some(pending.(stage := Failed, error := Some(message)));
          ReleaseLockIfHeld(requestToken);
          operations := operations - {id};
      }
      Record(RegistryReply(id, reply));
    }

    method OnRegistryFinish(id: nat, failure: Option<string>)
      requires Valid() && id in operations && operations[id].RegistryConfirming?
      modifies this
      ensures Valid() && events == old(events) + [RegistryFinish(id, failure)]
      ensures KeepsOthersLock(old(View()), View(), old(operations[id]).token) && id !in operations
      ensures lock != Some(old(operations[id]).token)
      ensures transaction == Some(
                if failure.Some? then Transaction(Registry, Failed, None, failure, NO_AMOUNTS, None, None)
                else Transaction(Registry, Confirmed, Some(old(operations[id]).hash), None, NO_AMOUNTS, None, None))
    {
      DisplayAlwaysWellFormed(states, events, |events|);
      var requestToken, pending := operations[id].token, operations[id].pending;
      if failure.Some? {
        transaction := Some(pending.(stage := Failed, error := failure));
      } else {
        transaction := Some(pending.(stage := Confirmed, hash := Some(operations[id].hash)));
      }
      ReleaseLockIfHeld(requestToken);
      operations := operations - {id};
      Record(RegistryFinish(id, failure));
    }

    /** A registry operation that gives up between its check and its acquire leaves no trace. */
    method AbortRegistry(id: nat)
      requires Valid() && id in operations && operations[id].RegistryChecked?
      modifies this
      ensures Valid() && events == old(events) + [RegistryAbort(id)]
      ensures SameView(old(View()), View()) && operations == old(operations) - {id}
    {
      operations := operations - {id};
      Record(RegistryAbort(id));
    }

    /** The user dismisses the displayed transaction; lock, kind and operations stay. */
    method ClearDisplay()
      requires Valid()
      modifies this
      ensures Valid() && events == old(events) + [ClearTransaction]
      ensures transaction.None? && lock == old(lock) && kind == old(kind) && operations == old(operations)
    {
      transaction := None;
      Record(ClearTransaction);
    }

    /** deployPayoMainnet up to its first await: test, review the package, take the lock. */
    method BeginDeployment(admitted: bool, packageReviewed: bool) returns (started: Option<nat>)
      requires Valid()
      modifies this
      ensures Valid() && events == old(events) + [StartDeployment(admitted, packageReviewed)]
      ensures started.Some? <==> admitted && packageReviewed && old(lock).None?
      ensures started.Some? ==>
                && lock == Some(Token(started.value, ForDeployment))
                && transaction == Some(Transaction(Deployment, AwaitingWallet, None, None, NO_AMOUNTS, None, None))
                && operations == old(operations)[started.value := Deploying(lock.value, transaction.value, None)]
      ensures started.None? ==> View() == old(View())
    {
      started := None;
      if admitted && lock.None? && packageReviewed {
        var requestToken := Symbol(ForDeployment);
        lock := Some(requestToken);
        var pending := Pending(Deployment, NO_AMOUNTS);
        transaction := Some(pending);
        operations := operations[requestToken.id := Deploying(requestToken, pending, None)];
        started := Some(requestToken.id);
      }
      Record(StartDeployment(admitted, packageReviewed));
    }

    method OnDeploymentBroadcast(id: nat, hash: string)
      requires Valid() && id in operations && operations[id].Deploying?
      modifies this
      ensures Valid() && events == old(events) + [DeploymentBroadcast(id, hash)]
      ensures lock == old(lock) && kind == old(kind)
      ensures transaction == Some(Transaction(Deployment, Confirming, Some(hash), None, NO_AMOUNTS, None, None))
      ensures operations == old(operations)[id := Deploying(old(operations[id]).token, old(operations[id]).pending, Some(hash))]
    {
      DisplayAlwaysWellFormed(states, events, |events|);
      var requestToken, pending := operations[id].token, operations[id].pending;
      transaction := Some(pending.(stage := Confirming, hash := Some(hash)));
      operations := operations[id := Deploying(requestToken, pending, Some(hash))];
      Record(DeploymentBroadcast(id, hash));
    }

    /** The lock is freed only under the deployment's own token; the hash shown is that of its
        deploy transaction, or else, on success, of its last declaration. */
    method OnDeploymentFinish(id: nat, outcome: Result<Option<string>, string>)
      requires Valid() && id in operations && operations[id].Deploying?
      modifies this
      ensures Valid() && events == old(events) + [DeploymentFinish(id, outcome)]
      ensures KeepsOthersLock(old(View()), View(), old(operations[id]).token) && id !in operations
      ensures lock != Some(old(operations[id]).token)
      ensures transaction.Some? && transaction.value.hash ==
                (if old(operations[id]).broadcast.Some? then old(operations[id]).broadcast
                 else if outcome.Ok? then outcome.value else None)
      ensures transaction.value.kind == Deployment && transaction.value.stage == (if outcome.Ok? then Confirmed else Failed)
      ensures outcome.Err? ==> transaction.value.error == Some(outcome.error)
    {
      DisplayAlwaysWellFormed(states, events, |events|);
      var requestToken, pending, hash := operations[id].token, operations[id].pending, operations[id].broadcast;
      match outcome {
        case Ok(lastDeclaration) =>
          transaction := Some(pending.(stage := Confirmed, hash := Or(hash, lastDeclaration)));
        case Err(message) =>
          transaction := Some(pending.(stage := Failed, hash := hash, error := Some(message)));
      }
      ReleaseLockIfHeld(requestToken);
      operations := operations - {id};
      Record(DeploymentFinish(id, outcome));
    }
  }
}
