/** How a private request goes on: from its admission to the wallet's answer, the chain's answer
    and the measured balance. */
module WalletProgress {
  import opened Text
  import opened WalletDisplay
  import opened WalletProperties
  import opened WalletProtocol
  import opened Wrappers

  /** A submission has an effect exactly on a connected Ready wallet on Mainnet, with a privacy
      capability that is not missing, unchecked or unregistered, while nobody holds the lock. */
  lemma SubmissionStartsExactly(s: State, kind: PrivateKind, session: Session, amounts: Amounts)
    ensures var t := Step(s, SubmitPrivate(kind, session, amounts));
            && (t != s <==> && session.connected && session.mainnet && session.ready && s.lock.None?
                            && session.capability in {Unknown, Zero, Available, Error})
            && (t != s ==>
                  && t.lock == Some(Token(s.nextId, ForPrivate(kind))) && t.kind == Some(kind)
                  && t.transaction == Some(Transaction(kind, AwaitingWallet, None, None, amounts, None, None))
                  && Unanswered(t, s.nextId))
  {
    if AdmitsPrivate(session) && s.lock.None? {
      assert Step(s, SubmitPrivate(kind, session, amounts)).nextId == s.nextId + 1;
    }
    match session.capability {
      case Unknown | Zero | Available | Error =>
      case Checking | Uninitialized | Unsupported => assert !AdmitsPrivate(session);
    }
  }

  predicate Unanswered(s: State, id: nat) {
    id in s.operations && s.operations[id].AwaitingReply?
  }

  /** A hash is accepted exactly when it is 0x and one to sixty-four hexadecimal digits. */
  lemma ValidHashExactly(hash: string)
    ensures ValidTransactionHash(hash) <==>
            && 3 <= |hash| <= 66 && hash[..2] == "0x"
            && forall i | 2 <= i < |hash| :: hash[i] in "0123456789abcdefABCDEF"
  {
    if |hash| >= 3 {
      var start := hash[..2];
      assert start == "0x" <==> start[0] == '0' && start[1] == 'x';
      forall i | 2 <= i < |hash| ensures IsHexDigit(hash[i]) <==> hash[i] in "0123456789abcdefABCDEF" {
        HexDigitsAre(hash[i], "0123456789abcdefABCDEF");
      }
    }
  }

  /** The event names this operation. */
  predicate Concerns(e: Event, id: nat) {
    match e
    case WalletReply(i, _) => i == id
    case ChainReply(i, _) => i == id
    case BalanceReply(i, _) => i == id
    case ReconcileBalanceReply(i, _) => i == id
    case RegistryAbort(i) => i == id
    case RegistryAcquire(i) => i == id
    case RegistryReply(i, _) => i == id
    case RegistryFinish(i, _) => i == id
    case DeploymentBroadcast(i, _) => i == id
    case DeploymentFinish(i, _) => i == id
    case _ => false
  }

  /** The operation that a reply or a continuation names is waiting for just that. */
  predicate Expected(s: State, e: Event) {
    match e
    case WalletReply(id, _) => id in s.operations && s.operations[id].AwaitingReply?
    case ChainReply(id, _) => id in s.operations && s.operations[id].AwaitingChain?
    case BalanceReply(id, _) => id in s.operations && s.operations[id].AwaitingBalance?
    case ReconcileBalanceReply(id, _) => id in s.operations && s.operations[id].AwaitingReconcileBalance?
    case RegistryAbort(id) => id in s.operations && s.operations[id].RegistryChecked?
    case RegistryAcquire(id) => id in s.operations && s.operations[id].RegistryChecked?
    case RegistryReply(id, _) => id in s.operations && s.operations[id].RegistrySubmitted?
    case RegistryFinish(id, _) => id in s.operations && s.operations[id].RegistryConfirming?
    case DeploymentBroadcast(id, _) => id in s.operations && s.operations[id].Deploying?
    case DeploymentFinish(id, _) => id in s.operations && s.operations[id].Deploying?
    case _ => true
  }

  /** No operation can be answered twice, or answered out of turn. */
  lemma UnexpectedIsIgnored(s: State, e: Event)
    requires !Expected(s, e)
    ensures Step(s, e) == s
  {
  }

  function Own<T>(own: Option<T>, shown: Option<T>): Option<T> {
    match own
    case Some(_) => own
    case None => shown
  }

  /** A measured balance puts the request's own values over what is displayed under its hash, and
      keeps what the request does not have; but the earlier balance of a shield is its own even
      when it has none. */
  lemma OwnValuesWin(s: State, id: nat, after: int)
    requires id in s.operations && s.operations[id].AwaitingBalance?
    requires s.transaction.Some? && s.transaction.value.hash == Some(s.operations[id].hash)
    ensures var own, shown := s.operations[id].pending, s.transaction.value;
            var t := Step(s, BalanceReply(id, Ok(after))).transaction;
            && t.Some? && t.value.kind == own.kind && t.value.stage == Confirmed && t.value.hash == shown.hash
            && t.value.refreshed == Some(true) && t.value.refreshError == None
            && t.value.error == Own(own.error, shown.error)
            && t.value.amounts.gross == Own(own.amounts.gross, shown.amounts.gross)
            && (own.kind == Shield ==> t.value.amounts.before == own.amounts.before)
            && (own.kind != Shield ==>
                  t.value.amounts == Amounts(Own(own.amounts.gross, shown.amounts.gross), Own(own.amounts.fee, shown.amounts.fee),
                                             Own(own.amounts.net, shown.amounts.net),
                                             Own(own.amounts.before, shown.amounts.before),
                                             Own(own.amounts.exact, shown.amounts.exact)))
  {
  }

  /** Nothing but its own replies moves an operation on. */
  lemma {:induction false} OperationStays(states: seq<State>, events: seq<Event>, i: nat, j: nat, id: nat)
    requires IsRun(states, events) && i <= j <= |events| && id in states[i].operations
    requires forall k | i <= k < j :: !Concerns(events[k], id)
    ensures id in states[j].operations && states[j].operations[id] == states[i].operations[id]
  {
    if i < j {
      OperationStays(states, events, i, j - 1, id);
      TokensUniqueAlways(states, events, j - 1);
      StepTouchesOnly(states[j - 1], events[j - 1]);
      assert states[j] == Step(states[j - 1], events[j - 1]);
      assert Subject(states[j - 1], events[j - 1]) != id;
    }
  }

  /** After the wallet submits a request that still holds the lock, the operation awaits the chain
      for that very hash, and the display is the request's own, confirming it. */
  lemma SubmittedAwaitsChain(states: seq<State>, events: seq<Event>, i: nat, id: nat, hash: string)
    requires IsRun(states, events) && i < |events| && events[i] == WalletReply(id, Submitted(hash))
    requires Unanswered(states[i], id) && states[i].lock == Some(states[i].operations[id].token)
    ensures var op := states[i].operations[id];
            var shown := Transaction(op.pending.kind, Confirming, Some(hash), None, op.pending.amounts, None, None);
            && id in states[i + 1].operations
            && states[i + 1].operations[id] == AwaitingChain(op.token, hash, shown)
            && states[i + 1].transaction == Some(shown)
            && states[i + 1].lock == states[i].lock && states[i + 1].kind == states[i].kind
  {
    assert states[i + 1] == Step(states[i], events[i]);
    DisplayAlwaysWellFormed(states, events, i);
  }

  /** After the chain's answer a shield, swap or withdrawal that succeeded goes on to await the
      balance, under the same token, hash and transaction; everything else is finished. */
  lemma ConfirmedAwaitsBalance(states: seq<State>, events: seq<Event>, i: nat, id: nat, failure: Option<string>)
    requires IsRun(states, events) && i < |events| && events[i] == ChainReply(id, failure)
    requires id in states[i].operations && states[i].operations[id].AwaitingChain?
    ensures var op := states[i].operations[id];
            if failure.None? && op.pending.kind in {Shield, PrivateSwap, PublicWithdrawal} then
              id in states[i + 1].operations
              && states[i + 1].operations[id] == AwaitingBalance(op.token, op.hash, op.pending)
            else id !in states[i + 1].operations
    ensures states[i].operations[id].pending.kind in
              {Shield, PrivateSwap, PublicWithdrawal, Payroll, WageClaim, WageRemediation}
  {
    TokensUniqueAlways(states, events, i);
    assert states[i + 1] == Step(states[i], events[i]);
  }
}
