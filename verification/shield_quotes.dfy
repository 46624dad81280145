/** Shield quotes and the amounts shown for a shield from quote to measured balance. */
module ShieldQuotes {
  import opened Wrappers
  import opened WalletProgress
  import opened WalletProperties
  import opened WalletProtocol

  datatype TokenSymbol = STRK | USDC

  datatype FeeQuote = FeeQuote(token: TokenSymbol, walletFee: int, exact: bool, quotedAt: int)

  datatype ShieldQuote = ShieldQuote(fee: FeeQuote, gross: int, net: int)

  const QUOTE_LIFETIME_MS := 30_000

  /** The fee service's answer, refused when it is for another token or not positive. */
  function RequestPrivateFeeQuote(token: TokenSymbol, answer: Result<FeeQuote, string>): Result<FeeQuote, string> {
    if answer.Err? then answer
    else if answer.value.token != token then Err("invalid quote")
    else if answer.value.walletFee <= 0 then Err("zero fee")
    else answer
  }

  /** `gross` is the parsed amount, which the parser only returns when it is positive. */
  function QuoteShieldToken(token: TokenSymbol, gross: Result<int, string>, answer: Result<FeeQuote, string>)
    : Result<ShieldQuote, string>
  {
    if gross.Err? then Err(gross.error) else
    var quote := RequestPrivateFeeQuote(token, answer);
    if quote.Err? then Err(quote.error)
    else if gross.value <= quote.value.walletFee then Err("amount does not cover the fee")
    else Ok(ShieldQuote(quote.value, gross.value, gross.value - quote.value.walletFee))
  }

  /** The amounts handed to the private action. A supplied quote is reused only for the same token
      and amount and within thirty seconds of being made, as read by two successive clock reads. */
  function ShieldToken(
    token: TokenSymbol, gross: Result<int, string>, supplied: Option<ShieldQuote>, firstRead: int, secondRead: int,
    answer: Result<FeeQuote, string>, publicBalance: int, shieldedBefore: Option<int>)
    : Result<Amounts, string>
  {
    if gross.Err? then Err(gross.error) else
    var isFresh := && supplied.Some? && supplied.value.fee.token == token
                   && supplied.value.gross == gross.value
                   && firstRead - supplied.value.fee.quotedAt >= 0
                   && secondRead - supplied.value.fee.quotedAt <= QUOTE_LIFETIME_MS;
    var quote := if isFresh then Ok(supplied.value) else QuoteShieldToken(token, gross, answer);
    if quote.Err? then Err(quote.error)
    else if gross.value > publicBalance then Err("insufficient public balance")
    else
      Ok(Amounts(Some(gross.value), Some(quote.value.fee.walletFee), Some(quote.value.net),
                 shieldedBefore, Some(quote.value.fee.exact)))
  }

  predicate Balanced(a: Amounts) {
    && a.gross.Some? && a.fee.Some? && a.net.Some?
    && a.gross.value == a.fee.value + a.net.value
    && a.gross.value >= 0 && a.fee.value >= 0 && a.net.value >= 0
  }

  ghost predicate BuiltByQuote(quote: ShieldQuote) {
    exists token, gross, answer :: QuoteShieldToken(token, gross, answer) == Ok(quote)
  }

  /** These amounts came out of shieldToken, given a supplied quote that quoteShieldToken built. */
  ghost predicate ComesFromShieldToken(amounts: Amounts) {
    exists token, gross, supplied: Option<ShieldQuote>, firstRead, secondRead, answer, publicBalance, before ::
      && (supplied.Some? ==> BuiltByQuote(supplied.value))
      && ShieldToken(token, gross, supplied, firstRead, secondRead, answer, publicBalance, before) == Ok(amounts)
  }

  /** Amounts out of shieldToken always cover the fee exactly, within the public balance. */
  lemma ShieldAmountsBalanced(amounts: Amounts)
    requires ComesFromShieldToken(amounts)
    ensures Balanced(amounts) && amounts.fee.value > 0 && amounts.net.value > 0 && amounts.exact.Some?
  {
    var token, gross, supplied: Option<ShieldQuote>, firstRead, secondRead, answer, publicBalance, before :|
      && (supplied.Some? ==> BuiltByQuote(supplied.value))
      && ShieldToken(token, gross, supplied, firstRead, secondRead, answer, publicBalance, before) == Ok(amounts);
    if supplied.Some? {
      var t, g, a :| QuoteShieldToken(t, g, a) == Ok(supplied.value);
    }
  }

  /** A supplied quote that is for this token and amount and at most thirty seconds old. */
  predicate Usable(token: TokenSymbol, gross: int, quote: ShieldQuote, firstRead: int, secondRead: int) {
    quote.fee.token == token && quote.gross == gross
    && quote.fee.quotedAt <= firstRead && secondRead <= quote.fee.quotedAt + 30_000
  }

  /** A usable quote shields the user from the fee service: no answer of it changes the outcome. Any
      other quote is as good as none. */
  lemma QuoteDecidesOrIsIgnored(
    token: TokenSymbol, gross: int, quote: ShieldQuote, firstRead: int, secondRead: int,
    answer: Result<FeeQuote, string>, other: Result<FeeQuote, string>, publicBalance: int, before: Option<int>)
    ensures if Usable(token, gross, quote, firstRead, secondRead) then
              ShieldToken(token, Ok(gross), Some(quote), firstRead, secondRead, answer, publicBalance, before)
              == ShieldToken(token, Ok(gross), Some(quote), firstRead, secondRead, other, publicBalance, before)
            else
              ShieldToken(token, Ok(gross), Some(quote), firstRead, secondRead, answer, publicBalance, before)
              == ShieldToken(token, Ok(gross), None, firstRead, secondRead, answer, publicBalance, before)
  {
  }

  /** The service's answer is for this token, positive, and leaves something of the amount. */
  predicate Pays(token: TokenSymbol, gross: int, answer: Result<FeeQuote, string>) {
    answer.Ok? && answer.value.token == token && 0 < answer.value.walletFee < gross
  }

  /** An amount is shielded exactly when a usable quote or a paying answer of the service covers
      the fee and the public balance covers the amount. It is the amount asked for, at the quote's
      fee and net, or else at the service's fee and what that leaves. */
  lemma ShieldedExactly(
    token: TokenSymbol, gross: Result<int, string>, supplied: Option<ShieldQuote>, firstRead: int, secondRead: int,
    answer: Result<FeeQuote, string>, publicBalance: int, before: Option<int>)
    ensures var shielded := ShieldToken(token, gross, supplied, firstRead, secondRead, answer, publicBalance, before);
            && (shielded.Ok? <==>
                  && gross.Ok? && gross.value <= publicBalance
                  && ((supplied.Some? && Usable(token, gross.value, supplied.value, firstRead, secondRead))
                      || Pays(token, gross.value, answer)))
            && (shielded.Ok? ==>
                  && shielded.value.gross == Some(gross.value) && shielded.value.before == before
                  && if supplied.Some? && Usable(token, gross.value, supplied.value, firstRead, secondRead)
                     then && shielded.value.fee == Some(supplied.value.fee.walletFee)
                          && shielded.value.net == Some(supplied.value.net)
                          && shielded.value.exact == Some(supplied.value.fee.exact)
                     else && shielded.value.fee == Some(answer.value.walletFee)
                          && shielded.value.net == Some(gross.value - answer.value.walletFee)
                          && shielded.value.exact == Some(answer.value.exact))
  {
  }

  // ---- The displayed shield stays balanced over every run ----

  ghost predicate ShieldsQuoted(events: seq<Event>) {
    forall i | 0 <= i < |events| && events[i].SubmitPrivate? && events[i].kind == Shield ::
      ComesFromShieldToken(events[i].amounts)
  }

  predicate BalancedIfShield(t: Transaction) {
    t.kind == Shield ==> Balanced(t.amounts)
  }

  ghost predicate ShieldsBalanced(s: State) {
    && (s.transaction.Some? ==> BalancedIfShield(s.transaction.value))
    && (forall id | id in s.operations && HasToken(s.operations[id]) :: BalancedIfShield(s.operations[id].pending))
  }

  lemma CorrectionKeepsBalance(pending: Transaction, after: int)
    requires BalancedIfShield(pending)
    ensures BalancedIfShield(Corrected(pending, after))
  {
  }

  lemma SpreadKeepsBalance(current: Transaction, confirmed: Transaction, hash: string)
    requires BalancedIfShield(confirmed)
    ensures BalancedIfShield(Spread(current, confirmed, hash))
  {
  }

  lemma ShieldsBalancedStep(s: State, e: Event)
    requires ShieldsBalanced(s)
    requires e.SubmitPrivate? && e.kind == Shield ==> Balanced(e.amounts)
    ensures ShieldsBalanced(Step(s, e))
  {
    if e.BalanceReply? && e.id in s.operations && s.operations[e.id].AwaitingBalance? && e.after.Ok? {
      var pending := s.operations[e.id].pending;
      CorrectionKeepsBalance(pending, e.after.value);
      if s.transaction.Some? {
        SpreadKeepsBalance(s.transaction.value, Corrected(pending, e.after.value), s.operations[e.id].hash);
      }
    }
  }

  /** In every reachable state a displayed shield has gross = fee + net, all non-negative. */
  lemma {:induction false} DisplayedShieldBalanced(states: seq<State>, events: seq<Event>, i: nat)
    requires IsRun(states, events) && ShieldsQuoted(events) && i <= |events|
    ensures ShieldsBalanced(states[i])
    ensures states[i].transaction.Some? && states[i].transaction.value.kind == Shield ==>
              Balanced(states[i].transaction.value.amounts)
  {
    if i > 0 {
      DisplayedShieldBalanced(states, events, i - 1);
      var e := events[i - 1];
      if e.SubmitPrivate? && e.kind == Shield {
        ShieldAmountsBalanced(e.amounts);
      }
      ShieldsBalancedStep(states[i - 1], e);
    }
  }

  /** After the measured balance arrives for a hash still on display, the displayed net is the
      measured increase of the shielded balance, floored at zero and capped by the quote. */
  lemma MeasuredBalanceIsDisplayed(states: seq<State>, events: seq<Event>, i: nat)
    requires IsRun(states, events) && ShieldsQuoted(events) && i < |events|
    requires events[i].BalanceReply? && events[i].after.Ok?
    requires events[i].id in states[i].operations && states[i].operations[events[i].id].AwaitingBalance?
    requires var op := states[i].operations[events[i].id];
             && op.pending.kind == Shield && op.pending.amounts.before.Some?
             && states[i].transaction.Some? && states[i].transaction.value.hash == Some(op.hash)
    ensures var quoted := states[i].operations[events[i].id].pending.amounts;
            var increase := events[i].after.value - quoted.before.value;
            var measured := if increase >= 0 then increase else 0;
            && states[i + 1].transaction.Some? && Balanced(states[i + 1].transaction.value.amounts)
            && states[i + 1].transaction.value.amounts.gross == quoted.gross
            && states[i + 1].transaction.value.amounts.net ==
               (if measured <= quoted.gross.value then Some(measured) else quoted.net)
  {
    DisplayedShieldBalanced(states, events, i);
    DisplayedShieldBalanced(states, events, i + 1);
    assert states[i + 1] == Step(states[i], events[i]);
  }

  /** What the display says of a shield whose balance has been measured: the increase since before
      the submission, floored at zero, is the net, unless it exceeds gross, when the quote stands. */
  predicate ShowsMeasured(t: Transaction, quoted: Amounts, hash: string, after: int)
    requires Balanced(quoted) && quoted.before.Some?
  {
    var increase := after - quoted.before.value;
    var measured := if increase >= 0 then increase else 0;
    var net := if measured <= quoted.gross.value then measured else quoted.net.value;
    && t.kind == Shield && t.stage == Confirmed && t.hash == Some(hash)
    && t.refreshed == Some(true) && t.refreshError == None
    && t.amounts.gross == quoted.gross && t.amounts.net == Some(net) && t.amounts.fee == Some(quoted.gross.value - net)
    && t.amounts.exact == (if measured <= quoted.gross.value then Some(true) else quoted.exact)
  }

  /** Over any run: a shield with a known earlier balance that starts at i, is submitted under its
      lock at j, confirmed at k and measured at m, while its hash is displayed, ends with the
      measured net, refreshed. Whatever else happens in between is other operations' business. */
  lemma ShieldEndsMeasured(states: seq<State>, events: seq<Event>, i: nat, j: nat, k: nat, m: nat, hash: string, after: int)
    requires IsRun(states, events) && i < j < k < m < |events|
    requires StartsPrivate(states[i], events[i]) && events[i].kind == Shield
    requires ComesFromShieldToken(events[i].amounts) && events[i].amounts.before.Some?
    requires var id := states[i].nextId;
             && events[j] == WalletReply(id, Submitted(hash)) && events[k] == ChainReply(id, None)
             && events[m] == BalanceReply(id, Ok(after))
             && forall n | i < n < m && n != j && n != k :: !Concerns(events[n], id)
    requires states[j].lock == states[i + 1].lock
    requires states[m].transaction.Some? && states[m].transaction.value.hash == Some(hash)
    ensures Balanced(events[i].amounts) && states[m + 1].transaction.Some?
    ensures ShowsMeasured(states[m + 1].transaction.value, events[i].amounts, hash, after)
  {
    var id := states[i].nextId;
    ShieldAmountsBalanced(events[i].amounts);
    assert states[i + 1] == Step(states[i], events[i]);
    OperationStays(states, events, i + 1, j, id);
    SubmittedAwaitsChain(states, events, j, id, hash);
    OperationStays(states, events, j + 1, k, id);
    ConfirmedAwaitsBalance(states, events, k, id, None);
    OperationStays(states, events, k + 1, m, id);
    assert states[m + 1] == Step(states[m], events[m]);
    MeasuredStep(states[m], id, events[i].amounts, hash, after);
  }

  lemma MeasuredStep(s: State, id: nat, quoted: Amounts, hash: string, after: int)
    requires Balanced(quoted) && quoted.before.Some? && quoted.exact.Some?
    requires id in s.operations && s.operations[id].AwaitingBalance? && s.operations[id].hash == hash
    requires s.operations[id].pending == Transaction(Shield, Confirming, Some(hash), None, quoted, None, None)
    requires s.transaction.Some? && s.transaction.value.hash == Some(hash)
    ensures var t := Step(s, BalanceReply(id, Ok(after))).transaction; t.Some? && ShowsMeasured(t.value, quoted, hash, after)
  {
  }
}
