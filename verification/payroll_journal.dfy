/** Proof packages: per-token totals, the double-entry journal and the worker partition. */
module PayrollJournal {
  import opened Wrappers

  datatype Token = STRK | USDC

  datatype Line = Line(agreementId: string, token: Token, net: int)

  datatype Account = PrivatePayrollExpense | PrivateTreasury

  datatype Posting = Posting(account: Account, debit: int, credit: int, token: Token)

  /** The tokens in scope, in the order a JavaScript Map lists its keys: first insertion first. */
  function Tokens(lines: seq<Line>): seq<Token> {
    if lines == [] then []
    else
      var before := Tokens(lines[..|lines| - 1]);
      var token := lines[|lines| - 1].token;
      if token in before then before else before + [token]
  }

  function NetOf(lines: seq<Line>, token: Token): int {
    if lines == [] then 0
    else
      NetOf(lines[..|lines| - 1], token) + if lines[|lines| - 1].token == token then lines[|lines| - 1].net else 0
  }

  /** The two postings of each token, in order. */
  function Postings(order: seq<Token>, totals: map<Token, int>): seq<Posting>
    requires forall token | token in order :: token in totals
  {
    if order == [] then []
    else
      [Posting(PrivatePayrollExpense, totals[order[0]], 0, order[0]),
       Posting(PrivateTreasury, 0, totals[order[0]], order[0])] + Postings(order[1..], totals)
  }

  function TotalsOf(lines: seq<Line>): map<Token, int> {
    map token | token in Tokens(lines) :: NetOf(lines, token)
  }

  function Journal(lines: seq<Line>): seq<Posting> {
    Postings(Tokens(lines), TotalsOf(lines))
  }

  /** The totals loop: an insertion-ordered map is a map with its key order beside it. */
  method AddTotals(lines: seq<Line>) returns (order: seq<Token>, totals: map<Token, int>)
    ensures order == Tokens(lines) && totals == TotalsOf(lines)
  {
    order, totals := [], map[];
    for i := 0 to |lines|
      invariant order == Tokens(lines[..i]) && totals == TotalsOf(lines[..i])
    {
      var line := lines[i];
      assert lines[..i + 1][..i] == lines[..i];
      TokensAreThoseOfLines(lines[..i], line.token);
      var previous := if line.token in totals then totals[line.token] else 0;
      if line.token !in totals {
        order := order + [line.token];
      }
      totals := totals[line.token := previous + line.net];
    }
    assert lines[..|lines|] == lines;
  }

  method BuildJournal(lines: seq<Line>) returns (journal: seq<Posting>)
    ensures journal == Journal(lines)
  {
    var order, totals := AddTotals(lines);
    journal := Postings(order, totals);
  }

  ghost predicate Distinct<T>(items: seq<T>) {
    forall i, j | 0 <= i < j < |items| :: items[i] != items[j]
  }

  lemma {:induction false} TokensAreThoseOfLines(lines: seq<Line>, token: Token)
    ensures token in Tokens(lines) <==> exists i :: 0 <= i < |lines| && lines[i].token == token
    ensures token !in Tokens(lines) ==> NetOf(lines, token) == 0
  {
    if lines != [] {
      var k := |lines| - 1;
      TokensAreThoseOfLines(lines[..k], token);
      if i :| 0 <= i < k && lines[i].token == token {
        assert lines[..k][i].token == token;
      }
    }
  }

  lemma {:induction false} TokensDistinct(lines: seq<Line>)
    ensures Distinct(Tokens(lines))
  {
    if lines != [] {
      TokensDistinct(lines[..|lines| - 1]);
    }
  }

  // ---- The journal balances ----

  function Debits(journal: seq<Posting>, account: Account, token: Token): int {
    if journal == [] then 0
    else
      (if journal[0].account == account && journal[0].token == token then journal[0].debit else 0)
      + Debits(journal[1..], account, token)
  }

  function Credits(journal: seq<Posting>, account: Account, token: Token): int {
    if journal == [] then 0
    else
      (if journal[0].account == account && journal[0].token == token then journal[0].credit else 0)
      + Credits(journal[1..], account, token)
  }

  lemma DebitsCons(posting: Posting, rest: seq<Posting>, account: Account, token: Token)
    ensures Debits([posting] + rest, account, token)
            == (if posting.account == account && posting.token == token then posting.debit else 0)
               + Debits(rest, account, token)
    ensures Credits([posting] + rest, account, token)
            == (if posting.account == account && posting.token == token then posting.credit else 0)
               + Credits(rest, account, token)
  {
    assert ([posting] + rest)[1..] == rest;
  }

  lemma PairPosts(token: Token, total: int, rest: seq<Posting>, account: Account, asked: Token)
    ensures var pair := [Posting(PrivatePayrollExpense, total, 0, token), Posting(PrivateTreasury, 0, total, token)];
            && Debits(pair + rest, account, asked)
               == Debits(rest, account, asked) + (if asked == token && account == PrivatePayrollExpense then total else 0)
            && Credits(pair + rest, account, asked)
               == Credits(rest, account, asked) + (if asked == token && account == PrivateTreasury then total else 0)
  {
    var first, second := Posting(PrivatePayrollExpense, total, 0, token), Posting(PrivateTreasury, 0, total, token);
    assert [first, second] + rest == [first] + ([second] + rest);
    DebitsCons(second, rest, account, asked);
    DebitsCons(first, [second] + rest, account, asked);
  }

  lemma {:induction false} PostingsCarryTotals(order: seq<Token>, totals: map<Token, int>, account: Account, token: Token)
    requires Distinct(order) && forall t | t in order :: t in totals
    ensures var total := if token in order then totals[token] else 0;
            var journal := Postings(order, totals);
            && Debits(journal, account, token) == (if account == PrivatePayrollExpense then total else 0)
            && Credits(journal, account, token) == (if account == PrivateTreasury then total else 0)
  {
    if order != [] {
      PostingsCarryTotals(order[1..], totals, account, token);
      PairPosts(order[0], totals[order[0]], Postings(order[1..], totals), account, token);
      assert token in order <==> token == order[0] || token in order[1..];
    }
  }

  /** For every token the expense account is debited, and the treasury credited, with exactly
      the net amounts in scope; nothing is posted the other way round. */
  lemma JournalBalances(lines: seq<Line>, token: Token)
    ensures var journal := Journal(lines);
            && Debits(journal, PrivatePayrollExpense, token) == NetOf(lines, token)
            && Credits(journal, PrivateTreasury, token) == NetOf(lines, token)
            && Credits(journal, PrivatePayrollExpense, token) == 0
            && Debits(journal, PrivateTreasury, token) == 0
  {
    TokensDistinct(lines);
    TokensAreThoseOfLines(lines, token);
    PostingsCarryTotals(Tokens(lines), TotalsOf(lines), PrivatePayrollExpense, token);
    PostingsCarryTotals(Tokens(lines), TotalsOf(lines), PrivateTreasury, token);
  }

  lemma {:induction false} PostingsAt(order: seq<Token>, totals: map<Token, int>, i: nat)
    requires i < |order| && forall t | t in order :: t in totals
    ensures |Postings(order, totals)| == 2 * |order|
    ensures Postings(order, totals)[2 * i] == Posting(PrivatePayrollExpense, totals[order[i]], 0, order[i])
    ensures Postings(order, totals)[2 * i + 1] == Posting(PrivateTreasury, 0, totals[order[i]], order[i])
  {
    if |order| > 1 {
      PostingsAt(order[1..], totals, if i > 0 then i - 1 else 0);
    }
  }

  /** The line that brings in the i-th token. */
  lemma {:induction false} FirstLineOf(lines: seq<Line>, i: nat) returns (k: nat)
    requires i < |Tokens(lines)|
    ensures k < |lines| && lines[k].token == Tokens(lines)[i] && Tokens(lines[..k]) == Tokens(lines)[..i]
  {
    var last := |lines| - 1;
    if i < |Tokens(lines[..last])| {
      k := FirstLineOf(lines[..last], i);
      assert lines[..last][..k] == lines[..k];
    } else {
      k := last;
    }
  }

  /** Token by token, each in the place of the first line that has it, the journal debits the
      expense account and then credits the treasury with the token's net pay. */
  lemma JournalEntries(lines: seq<Line>, i: nat) returns (k: nat)
    requires i < |Tokens(lines)|
    ensures k < |lines| && Tokens(lines[..k]) == Tokens(lines)[..i]
    ensures forall j | 0 <= j < k :: lines[j].token != lines[k].token
    ensures |Journal(lines)| == 2 * |Tokens(lines)|
    ensures Journal(lines)[2 * i] == Posting(PrivatePayrollExpense, NetOf(lines, lines[k].token), 0, lines[k].token)
    ensures Journal(lines)[2 * i + 1] == Posting(PrivateTreasury, 0, NetOf(lines, lines[k].token), lines[k].token)
  {
    k := FirstLineOf(lines, i);
    PostingsAt(Tokens(lines), TotalsOf(lines), i);
    TokensDistinct(lines);
    forall j | 0 <= j < k ensures lines[j].token != lines[k].token {
      TokensAreThoseOfLines(lines[..k], lines[k].token);
      assert lines[..k][j].token == lines[j].token;
    }
  }

  // ---- The packages ----

  datatype Scope = Worker | Employer | Auditor | Tax

  datatype Agreement = Agreement(workflow: string, advanced: bool)

  datatype Package = Package(scope: Scope, key: string, outputStem: string, scopedLines: seq<Line>, lineIndex: Option<nat>)

  /** One workflow's worker package is written under the plain name. */
  function WorkerStem(workflow: string): string {
    if workflow == "statutory-fx-classification" then "worker" else "worker-" + workflow
  }

  predicate Advanced(agreements: map<string, Agreement>, line: Line) {
    line.agreementId in agreements && agreements[line.agreementId].advanced
  }

  /** One package a line, from line `first` on, or the first line whose agreement is missing or
      not advanced. */
  function WorkerPackages(lines: seq<Line>, agreements: map<string, Agreement>, first: nat): Result<seq<Package>, string>
    requires first <= |lines|
    decreases |lines| - first
  {
    if first == |lines| then Ok([])
    else if !Advanced(agreements, lines[first]) then Err(lines[first].agreementId)
    else
      var line := lines[first];
      var workflow := agreements[line.agreementId].workflow;
      var rest :- WorkerPackages(lines, agreements, first + 1);
      Ok([Package(Worker, "worker-" + workflow, WorkerStem(workflow), [line], Some(first))] + rest)
  }

  function WideScopes(lines: seq<Line>): seq<Package> {
    [Package(Employer, "employer", "employer", lines, None), Package(Auditor, "auditor", "auditor", lines, None),
     Package(Tax, "tax", "tax", lines, None)]
  }

  function PackageRequests(lines: seq<Line>, agreements: map<string, Agreement>): Result<seq<Package>, string> {
    var workers :- WorkerPackages(lines, agreements, 0);
    Ok(workers + WideScopes(lines))
  }

  function WorkerPackage(line: Line, agreement: Agreement, index: nat): Package {
    var stem := if agreement.workflow == "statutory-fx-classification" then "worker" else "worker-" + agreement.workflow;
    Package(Worker, "worker-" + agreement.workflow, stem, [line], Some(index))
  }

  /** One package a line, in order, exactly when every line has an advanced agreement. */
  lemma WorkersCoverLines(lines: seq<Line>, agreements: map<string, Agreement>, first: nat)
    requires first <= |lines|
    ensures var workers := WorkerPackages(lines, agreements, first);
            && (workers.Ok? <==> forall i | first <= i < |lines| :: Advanced(agreements, lines[i]))
            && (workers.Ok? ==>
                  && |workers.value| == |lines| - first
                  && forall i | first <= i < |lines| :: Advanced(agreements, lines[i])
                       && workers.value[i - first] == WorkerPackage(lines[i], agreements[lines[i].agreementId], i))
  {
    WorkersExactly(lines, agreements, first);
    if WorkerPackages(lines, agreements, first).Ok? {
      forall i | first <= i < |lines|
        ensures WorkerPackages(lines, agreements, first).value[i - first]
                == WorkerPackage(lines[i], agreements[lines[i].agreementId], i)
      {
        WorkerAt(lines, agreements, first, i);
      }
    }
  }

  lemma {:induction false} WorkersExactly(lines: seq<Line>, agreements: map<string, Agreement>, first: nat)
    requires first <= |lines|
    ensures var workers := WorkerPackages(lines, agreements, first);
            && (workers.Ok? <==> forall i | first <= i < |lines| :: Advanced(agreements, lines[i]))
            && (workers.Ok? ==> |workers.value| == |lines| - first)
    decreases |lines| - first
  {
    if first < |lines| {
      FirstWorker(lines, agreements, first);
      WorkersExactly(lines, agreements, first + 1);
    }
  }

  lemma {:induction false} WorkerAt(lines: seq<Line>, agreements: map<string, Agreement>, first: nat, i: nat)
    requires first <= i < |lines| && WorkerPackages(lines, agreements, first).Ok?
    ensures Advanced(agreements, lines[i]) && i - first < |WorkerPackages(lines, agreements, first).value|
    ensures WorkerPackages(lines, agreements, first).value[i - first]
            == WorkerPackage(lines[i], agreements[lines[i].agreementId], i)
    decreases i - first
  {
    FirstWorker(lines, agreements, first);
    if first < i {
      WorkerAt(lines, agreements, first + 1, i);
    }
  }

  lemma FirstWorker(lines: seq<Line>, agreements: map<string, Agreement>, first: nat)
    requires first < |lines|
    ensures var workers, rest := WorkerPackages(lines, agreements, first), WorkerPackages(lines, agreements, first + 1);
            && (workers.Ok? <==> Advanced(agreements, lines[first]) && rest.Ok?)
            && (workers.Ok? ==>
                  workers.value == [WorkerPackage(lines[first], agreements[lines[first].agreementId], first)] + rest.value)
  {
  }

  /** What is refused is the first line without one. */
  lemma {:induction false} FirstUncoveredIsRefused(lines: seq<Line>, agreements: map<string, Agreement>, first: nat)
    returns (i: nat)
    requires first <= |lines| && WorkerPackages(lines, agreements, first).Err?
    ensures first <= i < |lines| && WorkerPackages(lines, agreements, first) == Err(lines[i].agreementId)
    ensures !Advanced(agreements, lines[i]) && forall k | first <= k < i :: Advanced(agreements, lines[k])
    decreases |lines| - first
  {
    if !Advanced(agreements, lines[first]) {
      i := first;
    } else {
      i := FirstUncoveredIsRefused(lines, agreements, first + 1);
    }
  }

  function ScopedDebits(packages: seq<Package>, scope: Scope, token: Token): int {
    if packages == [] then 0
    else
      ScopedDebits(packages[..|packages| - 1], scope, token)
      + if packages[|packages| - 1].scope != scope then 0
        else Debits(Journal(packages[|packages| - 1].scopedLines), PrivatePayrollExpense, token)
  }

  lemma {:induction false} WorkersSumToNet(lines: seq<Line>, packages: seq<Package>, n: nat, token: Token)
    requires n <= |lines| && n <= |packages|
    requires forall i | 0 <= i < n :: packages[i].scope == Worker && packages[i].scopedLines == [lines[i]]
    ensures ScopedDebits(packages[..n], Worker, token) == NetOf(lines[..n], token)
  {
    if n > 0 {
      assert packages[..n][..n - 1] == packages[..n - 1] && lines[..n][..n - 1] == lines[..n - 1];
      WorkersSumToNet(lines, packages, n - 1, token);
      JournalBalances([lines[n - 1]], token);
      assert [lines[n - 1]][..0] == [];
      assert NetOf([lines[n - 1]], token) == if lines[n - 1].token == token then lines[n - 1].net else 0;
    }
  }

  lemma ScopedDebitsSnoc(packages: seq<Package>, last: Package, scope: Scope, token: Token)
    ensures ScopedDebits(packages + [last], scope, token)
            == ScopedDebits(packages, scope, token)
               + if last.scope != scope then 0 else Debits(Journal(last.scopedLines), PrivatePayrollExpense, token)
  {
    assert (packages + [last])[..|packages|] == packages;
  }

  lemma {:induction false} NoneInScope(packages: seq<Package>, scope: Scope, token: Token)
    requires forall i | 0 <= i < |packages| :: packages[i].scope != scope
    ensures ScopedDebits(packages, scope, token) == 0
  {
    if packages != [] {
      NoneInScope(packages[..|packages| - 1], scope, token);
    }
  }

  lemma AppendWideScopes(workers: seq<Package>, lines: seq<Line>, scope: Scope, token: Token)
    requires forall i | 0 <= i < |workers| :: workers[i].scope == Worker
    ensures ScopedDebits(workers + WideScopes(lines), scope, token)
            == if scope == Worker then ScopedDebits(workers, Worker, token)
               else Debits(Journal(lines), PrivatePayrollExpense, token)
  {
    var wide := WideScopes(lines);
    var employer, auditor, tax := wide[0], wide[1], wide[2];
    assert workers + WideScopes(lines) == ((workers + [employer]) + [auditor]) + [tax];
    ScopedDebitsSnoc(workers, employer, scope, token);
    ScopedDebitsSnoc(workers + [employer], auditor, scope, token);
    ScopedDebitsSnoc((workers + [employer]) + [auditor], tax, scope, token);
    if scope != Worker {
      NoneInScope(workers, scope, token);
    }
  }

  /** The request list is refused exactly when some line has no advanced agreement; otherwise,
      token by token, the single-line worker packages together debit what each of the employer,
      auditor and tax packages debits: the net pay of all lines. */
  lemma WorkersAddUpToEmployer(lines: seq<Line>, agreements: map<string, Agreement>, scope: Scope, token: Token)
    ensures var requests := PackageRequests(lines, agreements);
            && (requests.Ok? <==> forall i | 0 <= i < |lines| :: Advanced(agreements, lines[i]))
            && (requests.Ok? ==>
                  && |requests.value| == |lines| + 3
                  && requests.value[|lines|] == Package(Employer, "employer", "employer", lines, None)
                  && requests.value[|lines| + 1] == Package(Auditor, "auditor", "auditor", lines, None)
                  && requests.value[|lines| + 2] == Package(Tax, "tax", "tax", lines, None)
                  && ScopedDebits(requests.value, scope, token) == NetOf(lines, token))
  {
    WorkersCoverLines(lines, agreements, 0);
    var workers := WorkerPackages(lines, agreements, 0);
    if workers.Ok? {
      forall i | 0 <= i < |lines| ensures workers.value[i].scope == Worker && workers.value[i].scopedLines == [lines[i]] {
        assert workers.value[i - 0] == WorkerPackage(lines[i], agreements[lines[i].agreementId], i);
      }
      ScopedDebitsOfAll(lines, workers.value, scope, token);
    }
  }

  lemma ScopedDebitsOfAll(lines: seq<Line>, workers: seq<Package>, scope: Scope, token: Token)
    requires |workers| == |lines|
    requires forall i | 0 <= i < |lines| :: workers[i].scope == Worker && workers[i].scopedLines == [lines[i]]
    ensures ScopedDebits(workers + WideScopes(lines), scope, token) == NetOf(lines, token)
  {
    WorkersSumToNet(lines, workers, |lines|, token);
    assert workers[..|lines|] == workers && lines[..|lines|] == lines;
    AppendWideScopes(workers, lines, scope, token);
    JournalBalances(lines, token);
  }
}
