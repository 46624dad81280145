/** The single-wallet-request protocol: one lock token, one lock kind and one displayed
    transaction, shared by every asynchronous wallet operation. Each event below is one
    stretch of code between two awaits, so it is one atomic step. */
module WalletProtocol {
  import opened Text
  import opened Wrappers

  datatype Kind =
    | Shield | Payroll | WageClaim | WageRemediation | PrivateSwap | PublicWithdrawal
    | Registry | Deployment

  type PrivateKind = k: Kind | k != Registry && k != Deployment witness Shield

  /** Kinds whose submission the durable settlement indexer can still recover. */
  predicate Recoverable(kind: Kind) {
    kind == Payroll || kind == WageClaim || kind == WageRemediation
  }

  datatype Purpose = ForPrivate(kind: PrivateKind) | ForRegistry | ForDeployment

  /** A JavaScript Symbol: unique by its identity, with a description saying what it is for. */
  datatype Token = Token(id: nat, purpose: Purpose)

  datatype Stage = AwaitingWallet | Confirming | Confirmed | Failed

  datatype Amounts = Amounts(
    gross: Option<int>, fee: Option<int>, net: Option<int>, before: Option<int>, exact: Option<bool>)

  const NO_AMOUNTS := Amounts(None, None, None, None, None)

  datatype Transaction = Transaction(
    kind: Kind,
    stage: Stage,
    hash: Option<string>,
    error: Option<string>,
    amounts: Amounts,
    refreshed: Option<bool>,
    refreshError: Option<string>)

  function Pending(kind: Kind, amounts: Amounts): Transaction {
    Transaction(kind, AwaitingWallet, None, None, amounts, None, None)
  }

  /** What an operation in flight is waiting for. */
  datatype Operation =
    | AwaitingReply(token: Token, pending: Transaction)
    | AwaitingChain(token: Token, hash: string, pending: Transaction)
    | AwaitingBalance(token: Token, hash: string, pending: Transaction)
    | AwaitingReconcileBalance(hash: string)
    | RegistryChecked
    | RegistrySubmitted(token: Token, pending: Transaction)
    | RegistryConfirming(token: Token, pending: Transaction, hash: string)
    | Deploying(token: Token, pending: Transaction, broadcast: Option<string>)

  predicate HasToken(op: Operation) {
    !op.RegistryChecked? && !op.AwaitingReconcileBalance?
  }

  datatype State = State(
    lock: Option<Token>,
    kind: Option<Kind>,
    transaction: Option<Transaction>,
    operations: map<nat, Operation>,
    nextId: nat)

  const INITIAL := State(None, None, None, map[], 0)

  datatype Capability = Unknown | Checking | Uninitialized | Zero | Available | Error | Unsupported

  /** The connection facts an operation reads before it looks at the lock. */
  datatype Session = Session(connected: bool, mainnet: bool, ready: bool, capability: Capability)

  predicate AdmitsPrivate(session: Session) {
    && session.connected && session.mainnet && session.ready
    && session.capability !in {Unsupported, Checking, Uninitialized}
  }

  datatype WalletAnswer =
    | Submitted(hash: string)
    | Rejected(definitive: bool, message: string)

  datatype Event =
    | SubmitPrivate(kind: PrivateKind, session: Session, amounts: Amounts)
    | WalletReply(id: nat, answer: WalletAnswer)
    | ChainReply(id: nat, failure: Option<string>)
    | BalanceReply(id: nat, after: Result<int, string>)
    | Reconcile(hash: string, refresh: bool)
    | ReconcileBalanceReply(id: nat, failure: Option<string>)
    | ReleasePayroll
    | Disconnect
    | ClearTransaction
    | RegistryCheck(admitted: bool)
    | RegistryAbort(id: nat)
    | RegistryAcquire(id: nat)
    | RegistryReply(id: nat, reply: Result<string, string>)
    | RegistryFinish(id: nat, failure: Option<string>)
    | StartDeployment(admitted: bool, packageReviewed: bool)
    | DeploymentBroadcast(id: nat, hash: string)
    | DeploymentFinish(id: nat, outcome: Result<Option<string>, string>)

  predicate ValidTransactionHash(hash: string) {
    && 3 <= |hash| <= 66 && hash[0] == '0' && hash[1] == 'x'
    && forall i | 2 <= i < |hash| :: IsHexDigit(hash[i])
  }

  // ---- Pieces of the steps ----

  /** Frees lock and kind, but only while the caller's own token still holds the lock. */
  function Release(s: State, token: Token): State {
    if s.lock == Some(token) then s.(lock := None, kind := None) else s
  }

  /** The registry and deployment form: the kind is not touched. */
  function ReleaseLockOnly(s: State, token: Token): State {
    if s.lock == Some(token) then s.(lock := None) else s
  }

  function Drop(s: State, id: nat): State {
    s.(operations := s.operations - {id})
  }

  /** The measured balance replaces the quoted fee of a confirmed shield. */
  function Corrected(pending: Transaction, after: int): Transaction {
    var a := pending.amounts;
    if pending.kind == Shield && a.gross.Some? && a.before.Some? then
      var actualNet := if after >= a.before.value then after - a.before.value else 0;
      if actualNet <= a.gross.value then
        pending.(amounts := a.(net := Some(actualNet), fee := Some(a.gross.value - actualNet), exact := Some(true)))
      else
        pending
    else
      pending
  }

  function Or<T>(first: Option<T>, second: Option<T>): Option<T> {
    if first.Some? then first else second
  }

  /** Object spread of the confirmed fields over the displayed ones. A shield always carries
      its shieldedBalanceBefore key, even when undefined; the other kinds never carry it. */
  function Spread(current: Transaction, confirmed: Transaction, hash: string): Transaction {
    var a, b := confirmed.amounts, current.amounts;
    Transaction(confirmed.kind, Confirmed, Some(hash), Or(confirmed.error, current.error),
                Amounts(Or(a.gross, b.gross), Or(a.fee, b.fee), Or(a.net, b.net),
                        if confirmed.kind == Shield then a.before else Or(a.before, b.before),
                        Or(a.exact, b.exact)),
                Some(true), None)
  }

  function Reconciled(current: Option<Transaction>, hash: string): Option<Transaction> {
    if current.Some? && current.value.kind != Payroll then
      current
    else
      var base := if current.Some? then current.value else Pending(Payroll, NO_AMOUNTS);
      Some(base.(stage := Confirmed, hash := Some(hash), refreshed := Some(false), refreshError := None))
  }

  /** The balance outcome is written only while the same hash is still displayed. */
  function Refreshed(current: Option<Transaction>, hash: string, payrollOnly: bool, failure: Option<string>): Option<Transaction> {
    if current.Some? && current.value.hash == Some(hash) && (payrollOnly ==> current.value.kind == Payroll) then
      Some(current.value.(refreshed := Some(failure.None?), refreshError := failure))
    else
      current
  }

  // ---- One atomic step per event ----

  function OnSubmitPrivate(s: State, kind: PrivateKind, session: Session, amounts: Amounts): State {
    if !AdmitsPrivate(session) || s.lock.Some? then
      s
    else
      var token := Token(s.nextId, ForPrivate(kind));
      var pending := Pending(kind, amounts);
      State(Some(token), Some(kind), Some(pending),
            s.operations[s.nextId := AwaitingReply(token, pending)], s.nextId + 1)
  }

  function OnWalletReply(s: State, id: nat, answer: WalletAnswer): State {
    if id !in s.operations || !s.operations[id].AwaitingReply? then
      s
    else
      var AwaitingReply(token, pending) := s.operations[id];
      if s.lock != Some(token) then
        Drop(s, id)
      else
        match answer
        case Submitted(hash) =>
          var confirming := pending.(stage := Confirming, hash := Some(hash));
          s.(transaction := Some(confirming),
             operations := s.operations[id := AwaitingChain(token, hash, confirming)])
        case Rejected(definitive, message) =>
          if Recoverable(pending.kind) && !definitive then
            Drop(s, id).(transaction := Some(pending.(stage := AwaitingWallet)))
          else
            Drop(Release(s, token), id).(
            transaction := Some(pending.(stage := Failed, error := Some(message))))
  }

  function OnChainReply(s: State, id: nat, failure: Option<string>): State {
    if id !in s.operations || !s.operations[id].AwaitingChain? then
      s
    else
      var AwaitingChain(token, hash, pending) := s.operations[id];
      var released := Release(s, token);
      if failure.Some? then
        Drop(released, id).(
        transaction := Some(pending.(stage := Failed, hash := Some(hash), error := failure)))
      else
        var shown := released.(
                     transaction := Some(pending.(stage := Confirmed, hash := Some(hash), refreshed := Some(false))));
        if Recoverable(pending.kind) then
          Drop(shown, id)
        else
          shown.(operations := shown.operations[id := AwaitingBalance(token, hash, pending)])
  }

  function OnBalanceReply(s: State, id: nat, after: Result<int, string>): State {
    if id !in s.operations || !s.operations[id].AwaitingBalance? then
      s
    else
      var AwaitingBalance(token, hash, pending) := s.operations[id];
      var shown :=
        if after.Err? then Refreshed(s.transaction, hash, false, Some(after.error))
        else if s.transaction.Some? && s.transaction.value.hash == Some(hash) then
          Some(Spread(s.transaction.value, Corrected(pending, after.value), hash))
        else s.transaction;
      Drop(Release(s, token), id).(transaction := shown)
  }

  function OnReconcile(s: State, hash: string, refresh: bool): State {
    if !ValidTransactionHash(hash) then
      s
    else
      var freed := if s.kind == Some(Payroll) then s.(lock := None, kind := None) else s;
      var shown := freed.(transaction := Reconciled(s.transaction, hash));
      if refresh then
        shown.(operations := s.operations[s.nextId := AwaitingReconcileBalance(hash)], nextId := s.nextId + 1)
      else
        shown
  }

  function OnReconcileBalanceReply(s: State, id: nat, failure: Option<string>): State {
    if id !in s.operations || !s.operations[id].AwaitingReconcileBalance? then
      s
    else
      Drop(s, id).(transaction := Refreshed(s.transaction, s.operations[id].hash, true, failure))
  }

  function OnReleasePayroll(s: State): State {
    var freed := if s.kind == Some(Payroll) then s.(lock := None, kind := None) else s;
    if s.transaction.Some? && s.transaction.value.kind == Payroll then freed.(transaction := None) else freed
  }

  function OnRegistryAcquire(s: State, id: nat): State {
    if id !in s.operations || !s.operations[id].RegistryChecked? then
      s
    else
      var token := Token(s.nextId, ForRegistry);
      var pending := Pending(Registry, NO_AMOUNTS);
      s.(lock := Some(token), transaction := Some(pending),
         operations := s.operations[id := RegistrySubmitted(token, pending)], nextId := s.nextId + 1)
  }

  function OnRegistryReply(s: State, id: nat, answer: Result<string, string>): State {
    if id !in s.operations || !s.operations[id].RegistrySubmitted? then
      s
    else
      var RegistrySubmitted(token, pending) := s.operations[id];
      match answer
      case Ok(hash) =>
        s.(transaction := Some(pending.(stage := Confirming, hash := Some(hash))),
           operations := s.operations[id := RegistryConfirming(token, pending, hash)])
      case Err(message) =>
        Drop(ReleaseLockOnly(s, token), id).(
        transaction := Some(pending.(stage := Failed, error := Some(message))))
  }

  function OnRegistryFinish(s: State, id: nat, failure: Option<string>): State {
    if id !in s.operations || !s.operations[id].RegistryConfirming? then
      s
    else
      var RegistryConfirming(token, pending, hash) := s.operations[id];
      var shown := if failure.Some? then pending.(stage := Failed, error := failure)
                   else pending.(stage := Confirmed, hash := Some(hash));
      Drop(ReleaseLockOnly(s, token), id).(transaction := Some(shown))
  }

  function OnStartDeployment(s: State, admitted: bool, packageReviewed: bool): State {
    if !admitted || s.lock.Some? || !packageReviewed then
      s
    else
      var token := Token(s.nextId, ForDeployment);
      var pending := Pending(Deployment, NO_AMOUNTS);
      s.(lock := Some(token), transaction := Some(pending),
         operations := s.operations[s.nextId := Deploying(token, pending, None)], nextId := s.nextId + 1)
  }

  function OnDeploymentBroadcast(s: State, id: nat, hash: string): State {
    if id !in s.operations || !s.operations[id].Deploying? then
      s
    else
      var Deploying(token, pending, _) := s.operations[id];
      s.(transaction := Some(pending.(stage := Confirming, hash := Some(hash))),
         operations := s.operations[id := Deploying(token, pending, Some(hash))])
  }

  function OnDeploymentFinish(s: State, id: nat, outcome: Result<Option<string>, string>): State {
    if id !in s.operations || !s.operations[id].Deploying? then
      s
    else
      var Deploying(token, pending, hash) := s.operations[id];
      var shown := match outcome
        case Ok(lastDeclaration) => pending.(stage := Confirmed, hash := Or(hash, lastDeclaration))
        case Err(message) => pending.(stage := Failed, hash := hash, error := Some(message));
      Drop(ReleaseLockOnly(s, token), id).(transaction := Some(shown))
  }

  function Step(s: State, e: Event): State {
    match e
    case SubmitPrivate(kind, session, amounts) => OnSubmitPrivate(s, kind, session, amounts)
    case WalletReply(id, answer) => OnWalletReply(s, id, answer)
    case ChainReply(id, failure) => OnChainReply(s, id, failure)
    case BalanceReply(id, after) => OnBalanceReply(s, id, after)
    case Reconcile(hash, refresh) => OnReconcile(s, hash, refresh)
    case ReconcileBalanceReply(id, failure) => OnReconcileBalanceReply(s, id, failure)
    case ReleasePayroll => OnReleasePayroll(s)
    case Disconnect => s.(lock := None, kind := None, transaction := None)
    case ClearTransaction => s.(transaction := None)
    case RegistryCheck(admitted) =>
      if !admitted || s.lock.Some? then s
      else s.(operations := s.operations[s.nextId := RegistryChecked], nextId := s.nextId + 1)
    case RegistryAbort(id) =>
      if id in s.operations && s.operations[id].RegistryChecked? then Drop(s, id) else s
    case RegistryAcquire(id) => OnRegistryAcquire(s, id)
    case RegistryReply(id, answer) => OnRegistryReply(s, id, answer)
    case RegistryFinish(id, failure) => OnRegistryFinish(s, id, failure)
    case StartDeployment(admitted, packageReviewed) => OnStartDeployment(s, admitted, packageReviewed)
    case DeploymentBroadcast(id, hash) => OnDeploymentBroadcast(s, id, hash)
    case DeploymentFinish(id, outcome) => OnDeploymentFinish(s, id, outcome)
  }

  // ---- Runs and vocabulary ----

  /** Any interleaving whatsoever, from a freshly mounted provider. */
  ghost predicate IsRun(states: seq<State>, events: seq<Event>) {
    && |states| == |events| + 1
    && states[0] == INITIAL
    && forall i | 0 <= i < |events| :: states[i + 1] == Step(states[i], events[i])
  }

  /** Who the lock is held for, as a kind: only private actions have one. */
  function HolderKind(lock: Option<Token>): Option<Kind> {
    if lock.Some? && lock.value.purpose.ForPrivate? then Some(lock.value.purpose.kind) else None
  }

  predicate StartsPrivate(s: State, e: Event) {
    e.SubmitPrivate? && AdmitsPrivate(e.session) && s.lock.None?
  }

  predicate StartsDeployment(s: State, e: Event) {
    e.StartDeployment? && e.admitted && e.packageReviewed && s.lock.None?
  }

  predicate AcquiresForRegistry(s: State, e: Event) {
    e.RegistryAcquire? && e.id in s.operations && s.operations[e.id].RegistryChecked?
  }

  predicate Acquires(s: State, e: Event) {
    StartsPrivate(s, e) || StartsDeployment(s, e) || AcquiresForRegistry(s, e)
  }

  predicate PassesRegistryCheck(s: State, e: Event) {
    e.RegistryCheck? && e.admitted && s.lock.None?
  }

  /** The acquire that is not preceded by a test of the lock in the same stretch. */
  predicate Overwrites(s: State, e: Event) {
    AcquiresForRegistry(s, e) && s.lock.Some?
  }

  ghost predicate Undisturbed(states: seq<State>, events: seq<Event>)
    requires |states| == |events| + 1
  {
    forall i | 0 <= i < |events| :: !Overwrites(states[i], events[i])
  }

  predicate IsHandover(e: Event) {
    e.Reconcile? || e.ReleasePayroll? || e.Disconnect?
  }

  predicate IsFinishing(e: Event) {
    e.WalletReply? || e.ChainReply? || e.BalanceReply? || e.RegistryReply? || e.RegistryFinish? || e.DeploymentFinish?
  }
}
