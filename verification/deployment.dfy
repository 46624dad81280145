/** Resumable deployment of the contract topology against a chain that only grows. */
module TopologyDeployment {
  import opened Wrappers

  /** Class hashes and addresses are compared as numbers throughout. */
  datatype PlannedContract = PlannedContract(address: nat, classHash: nat)

  datatype Chain = Chain(classes: set<nat>, contracts: map<nat, nat>)

  ghost predicate Grows(before: Chain, after: Chain) {
    && before.classes <= after.classes
    && forall a | a in before.contracts :: a in after.contracts && after.contracts[a] == before.contracts[a]
  }

  datatype Submission = Declaration(classHash: nat) | Deployment(payloads: seq<PlannedContract>)

  /** What became of a broadcast transaction: not known yet, took effect, or never will. */
  datatype Fate = Unsettled | Landed | Lost

  datatype Entry = Entry(submission: Submission, fate: Fate)

  /** The chain together with every transaction the wallet ever broadcast for us, in order. */
  datatype World = World(chain: Chain, log: seq<Entry>)

  predicate Holds(chain: Chain, p: PlannedContract) {
    p.address in chain.contracts && chain.contracts[p.address] == p.classHash
  }

  ghost predicate Complete(plan: seq<PlannedContract>, chain: Chain) {
    forall p | p in plan :: p.classHash in chain.classes && Holds(chain, p)
  }

  ghost predicate Mismatched(plan: seq<PlannedContract>, chain: Chain) {
    exists p :: p in plan && p.address in chain.contracts && !Holds(chain, p)
  }

  ghost predicate DistinctAddresses(plan: seq<PlannedContract>) {
    forall i, j | 0 <= i < j < |plan| :: plan[i].address != plan[j].address
  }

  /** The submission asks only for what the chain does not have. */
  ghost predicate Fresh(chain: Chain, s: Submission) {
    match s
    case Declaration(h) => h !in chain.classes
    case Deployment(payloads) => forall p | p in payloads :: p.address !in chain.contracts
  }

  ghost predicate TookEffect(chain: Chain, s: Submission) {
    match s
    case Declaration(h) => h in chain.classes
    case Deployment(payloads) => forall p | p in payloads :: Holds(chain, p)
  }

  /** The same class declared again, or an address deployed again. */
  ghost predicate Repeats(s: Submission, t: Submission) {
    || (s.Declaration? && s == t)
    || (s.Deployment? && t.Deployment? && exists p, q :: p in s.payloads && q in t.payloads && p.address == q.address)
  }

  ghost predicate Planned(plan: seq<PlannedContract>, s: Submission) {
    match s
    case Declaration(h) => exists p :: p in plan && p.classHash == h
    case Deployment(payloads) => payloads != [] && forall p | p in payloads :: p in plan
  }

  // ---- What one run, however it ends, does to the world ----

  ghost predicate RunSpec(plan: seq<PlannedContract>, before: World, after: World) {
    var n := |before.log|;
    && Grows(before.chain, after.chain)
    && before.log <= after.log
    && (forall j | n <= j < |after.log| ::
          Planned(plan, after.log[j].submission) && Fresh(before.chain, after.log[j].submission))
    && (forall j | n <= j < |after.log| && after.log[j].fate != Landed :: after.log[j].fate == Unsettled && j == |after.log| - 1)
    && (forall j | n <= j < |after.log| && after.log[j].fate == Landed :: TookEffect(after.chain, after.log[j].submission))
    && (forall i, j | n <= i < j < |after.log| :: !Repeats(after.log[i].submission, after.log[j].submission))
  }

  ghost predicate AllLanded(log: seq<Entry>, n: nat) {
    forall j | n <= j < |log| :: log[j].fate == Landed
  }

  ghost predicate NoDeployments(log: seq<Entry>, n: nat) {
    forall j | n <= j < |log| :: log[j].submission.Declaration?
  }

  /** What a normally ended run reports: the classes it declared and the contracts it deployed. */
  datatype Report = Report(declared: seq<nat>, deployed: seq<PlannedContract>)

  function Broadcasts(report: Report): (entries: seq<Entry>)
    ensures |entries| == |report.declared| + (if report.deployed == [] then 0 else 1)
  {
    var declarations := seq(|report.declared|, i requires 0 <= i < |report.declared| =>
                              Entry(Declaration(report.declared[i]), Landed));
    if report.deployed == [] then declarations
    else declarations + [Entry(Deployment(report.deployed), Landed)]
  }

  lemma BroadcastsDeclared(declared: seq<nat>, h: nat)
    ensures Broadcasts(Report(declared + [h], [])) == Broadcasts(Report(declared, [])) + [Entry(Declaration(h), Landed)]
  {
  }

  // ---- Steps that keep the run specification ----

  lemma GrowthKeepsRun(plan: seq<PlannedContract>, before: World, now: World, chain: Chain)
    requires RunSpec(plan, before, now) && Grows(now.chain, chain)
    ensures RunSpec(plan, before, World(chain, now.log))
  {
  }

  /** At most one broadcast of `s`, left unsettled or confirmed. */
  ghost predicate Attempt(s: Submission, mid: World, after: World) {
    && Grows(mid.chain, after.chain)
    && (after.log == mid.log
        || after.log == mid.log + [Entry(s, Unsettled)]
        || (after.log == mid.log + [Entry(s, Landed)] && TookEffect(after.chain, s)))
  }

  lemma AttemptKeepsRun(plan: seq<PlannedContract>, before: World, mid: World, after: World, s: Submission)
    requires RunSpec(plan, before, mid) && AllLanded(mid.log, |before.log|) && NoDeployments(mid.log, |before.log|)
    requires Attempt(s, mid, after)
    requires Planned(plan, s) && Fresh(before.chain, s)
    requires s.Declaration? && after.log != mid.log ==> Fresh(mid.chain, s)
    ensures RunSpec(plan, before, after)
  {
    GrowthKeepsRun(plan, before, mid, after.chain);
    if after.log != mid.log {
      forall i, j | |before.log| <= i < j < |after.log| ensures !Repeats(after.log[i].submission, after.log[j].submission) {
        assert after.log[i] == mid.log[i];
      }
    }
  }

  // ---- The chain as the browser sees it ----

  /** Others may add classes and contracts at any await, reads may fail, the wallet may refuse and a
      wait may give up. On a `reliable` chain none of this happens. */
  class Mainnet {
    const reliable: bool
    /** What each contract getter returns at the block that is verified. */
    const answers: map<Getter, seq<nat>>
    var chain: Chain
    var log: seq<Entry>

    function View(): World
      reads this
    {
      World(chain, log)
    }

    constructor (chain: Chain, reliable: bool, answers: map<Getter, seq<nat>>)
      ensures this.chain == chain && log == [] && this.reliable == reliable && this.answers == answers
    {
      this.answers := answers;
      this.chain := chain;
      this.log := [];
      this.reliable := reliable;
    }

    method OthersAct()
      modifies this`chain
      ensures Grows(old(chain), chain) && (reliable ==> chain == old(chain))
    {
      if !reliable {
        var classes: set<nat> := *;
        var contracts: map<nat, nat> := *;
        chain := Chain(chain.classes + classes, contracts + chain.contracts);
      }
    }

    method ClassExists(classHash: nat) returns (present: Result<bool, string>)
      modifies this`chain
      ensures Grows(old(chain), chain) && (reliable ==> chain == old(chain) && present.Ok?)
      ensures present.Ok? ==> present.value == (classHash in chain.classes)
    {
      OthersAct();
      var fails: bool := *;
      present := if fails && !reliable then Err("rpc") else Ok(classHash in chain.classes);
    }

    method DeployedClassHash(address: nat) returns (current: Result<Option<nat>, string>)
      modifies this`chain
      ensures Grows(old(chain), chain) && (reliable ==> chain == old(chain) && current.Ok?)
      ensures current.Ok? ==> current.value == if address in chain.contracts then Some(chain.contracts[address]) else None
    {
      OthersAct();
      var fails: bool := *;
      current := if fails && !reliable then Err("rpc")
      else Ok(if address in chain.contracts then Some(chain.contracts[address]) else None);
    }

    /** walletAccount.declare and walletAccount.deploy: refused, or broadcast with an unknown fate. */
    method Broadcast(s: Submission) returns (accepted: bool)
      modifies this
      ensures Grows(old(chain), chain) && (reliable ==> chain == old(chain) && accepted)
      ensures log == if accepted then old(log) + [Entry(s, Unsettled)] else old(log)
    {
      OthersAct();
      var refused: bool := *;
      accepted := reliable || !refused;
      if accepted {
        log := log + [Entry(s, Unsettled)];
      }
    }

    /** waitForTransaction on the last broadcast: a confirmed transaction took effect. */
    method WaitForTransaction() returns (confirmed: bool)
      requires |log| > 0
      modifies this
      ensures Grows(old(chain), chain)
      ensures log == if confirmed then old(log)[|old(log)| - 1 := old(log)[|old(log)| - 1].(fate := Landed)] else old(log)
      ensures confirmed ==> TookEffect(chain, old(log)[|old(log)| - 1].submission)
      ensures reliable && Possible(old(chain), old(log)[|old(log)| - 1].submission) ==>
                confirmed && chain == Effect(old(chain), old(log)[|old(log)| - 1].submission)
    {
      OthersAct();
      var s := log[|log| - 1].submission;
      var givesUp: bool := *;
      var possible := Possible(chain, s);
      confirmed := possible && (reliable || !givesUp);
      if confirmed {
        EffectGrows(chain, s);
        chain := Effect(chain, s);
        log := log[|log| - 1 := log[|log| - 1].(fate := Landed)];
      }
    }

    /** callContract at the verified block; a contract without the getter is an error. */
    method CallContract(getter: Getter) returns (response: Result<seq<nat>, string>)
      modifies this`chain
      ensures Grows(old(chain), chain) && (reliable ==> chain == old(chain))
      ensures reliable && getter in answers ==> response.Ok?
      ensures response.Ok? ==> getter in answers && response.value == answers[getter]
    {
      OthersAct();
      var fails: bool := *;
      response := if (fails && !reliable) || getter !in answers then Err("rpc") else Ok(answers[getter]);
    }
  }

  /** The chain accepts it: an undeclared class, or free distinct addresses of declared classes. */
  predicate Possible(chain: Chain, s: Submission) {
    match s
    case Declaration(h) => h !in chain.classes
    case Deployment(payloads) =>
      && (forall p | p in payloads :: p.classHash in chain.classes && p.address !in chain.contracts)
      && (forall i, j | 0 <= i < j < |payloads| :: payloads[i].address != payloads[j].address)
  }

  function Install(contracts: map<nat, nat>, payloads: seq<PlannedContract>): map<nat, nat> {
    if payloads == [] then contracts
    else Install(contracts, payloads[..|payloads| - 1])[payloads[|payloads| - 1].address := payloads[|payloads| - 1].classHash]
  }

  function Effect(chain: Chain, s: Submission): Chain {
    match s
    case Declaration(h) => chain.(classes := chain.classes + {h})
    case Deployment(payloads) => chain.(contracts := Install(chain.contracts, payloads))
  }

  lemma {:induction false} InstallHolds(contracts: map<nat, nat>, payloads: seq<PlannedContract>)
    requires forall i, j | 0 <= i < j < |payloads| :: payloads[i].address != payloads[j].address
    requires forall p | p in payloads :: p.address !in contracts
    ensures var m := Install(contracts, payloads);
            && (forall a | a in contracts :: a in m && m[a] == contracts[a])
            && (forall p | p in payloads :: p.address in m && m[p.address] == p.classHash)
  {
    if payloads != [] {
      var n := |payloads| - 1;
      InstallHolds(contracts, payloads[..n]);
      forall p | p in payloads ensures p.address in Install(contracts, payloads) && Install(contracts, payloads)[p.address] == p.classHash {
        var i :| 0 <= i < |payloads| && payloads[i] == p;
        if i < n {
          assert p == payloads[..n][i];
        }
      }
    }
  }

  lemma {:induction false} InstallAddsOnly(contracts: map<nat, nat>, payloads: seq<PlannedContract>, address: nat)
    requires address in Install(contracts, payloads)
    ensures address in contracts || exists p :: p in payloads && p.address == address
  {
    if payloads != [] {
      var n := |payloads| - 1;
      if address != payloads[n].address {
        InstallAddsOnly(contracts, payloads[..n], address);
      } else {
        assert payloads[n] in payloads;
      }
    }
  }

  lemma EffectGrows(chain: Chain, s: Submission)
    requires Possible(chain, s)
    ensures Grows(chain, Effect(chain, s)) && TookEffect(Effect(chain, s), s)
  {
    if s.Deployment? {
      InstallHolds(chain.contracts, s.payloads);
    }
  }

  // ---- Bindings between the deployed contracts ----

  datatype Getter = Getter(contract: nat, entrypoint: string)

  datatype Binding = Binding(getter: Getter, expected: nat)

  ghost predicate Bound(bindings: seq<Binding>, answers: map<Getter, seq<nat>>) {
    forall b | b in bindings :: b.getter in answers && answers[b.getter] == [b.expected]
  }

  // ---- Exactly what a chain is missing ----

  /** The planned classes the chain lacks, in plan order, each once. */
  function MissingClasses(plan: seq<PlannedContract>, classes: set<nat>): seq<nat> {
    if plan == [] then []
    else
      var before := MissingClasses(plan[..|plan| - 1], classes);
      var h := plan[|plan| - 1].classHash;
      if h in classes || h in before then before else before + [h]
  }

  /** The planned contracts whose address is empty, in plan order. */
  function MissingContracts(plan: seq<PlannedContract>, contracts: map<nat, nat>): seq<PlannedContract> {
    if plan == [] then []
    else
      var before := MissingContracts(plan[..|plan| - 1], contracts);
      var p := plan[|plan| - 1];
      if p.address in contracts then before else before + [p]
  }

  function Missing(plan: seq<PlannedContract>, chain: Chain): Report {
    Report(MissingClasses(plan, chain.classes), MissingContracts(plan, chain.contracts))
  }

  lemma {:induction false} MissingClassesAre(plan: seq<PlannedContract>, classes: set<nat>, h: nat)
    ensures h in MissingClasses(plan, classes) <==> h !in classes && exists i :: 0 <= i < |plan| && plan[i].classHash == h
    ensures forall i, j | 0 <= i < j < |MissingClasses(plan, classes)| ::
              MissingClasses(plan, classes)[i] != MissingClasses(plan, classes)[j]
  {
    if plan != [] {
      var n := |plan| - 1;
      MissingClassesAre(plan[..n], classes, h);
      if i :| 0 <= i < n && plan[i].classHash == h {
        assert plan[..n][i].classHash == h;
      }
    }
  }

  lemma {:induction false} MissingContractsAre(plan: seq<PlannedContract>, contracts: map<nat, nat>, p: PlannedContract)
    ensures p in MissingContracts(plan, contracts) <==> p in plan && p.address !in contracts
  {
    if plan != [] {
      MissingContractsAre(plan[..|plan| - 1], contracts, p);
      assert plan == plan[..|plan| - 1] + [plan[|plan| - 1]];
    }
  }

  // ---- The guarded deployment ----

  /** Broadcasts and waits; the outcome says whether the transaction was confirmed. */
  method Submit(net: Mainnet, s: Submission) returns (confirmed: bool)
    modifies net
    ensures Attempt(s, old(net.View()), net.View())
    ensures confirmed ==> net.log == old(net.log) + [Entry(s, Landed)] && TookEffect(net.chain, s)
    ensures net.reliable && Possible(old(net.chain), s) ==> confirmed && net.chain == Effect(old(net.chain), s)
  {
    confirmed := net.Broadcast(s);
    if confirmed {
      confirmed := net.WaitForTransaction();
    }
  }

  /** Checks one class and declares it when missing; the value says whether it was declared. */
  method DeclareMissing(net: Mainnet, classHash: nat) returns (result: Result<bool, string>)
    modifies net
    ensures Attempt(Declaration(classHash), old(net.View()), net.View())
    ensures net.log != old(net.log) ==> classHash !in old(net.chain).classes
    ensures result.Ok? ==> classHash in net.chain.classes
    ensures result.Ok? ==> net.log == old(net.log) + (if result.value then [Entry(Declaration(classHash), Landed)] else [])
    ensures net.reliable ==> && result.Ok? && result.value == (classHash !in old(net.chain).classes)
                             && net.chain == old(net.chain).(classes := old(net.chain).classes + {classHash})
  {
    var present := net.ClassExists(classHash);
    if present.Err? {
      return Err(present.error);
    }
    if present.value {
      assert net.reliable ==> net.chain.classes == old(net.chain).classes + {classHash};
      return Ok(false);
    }
    var confirmed := Submit(net, Declaration(classHash));
    if !confirmed {
      return Err("declaration refused or not confirmed");
    }
    present := net.ClassExists(classHash);
    if present.Err? || !present.value {
      return Err("not declared after its transaction confirmed");
    }
    result := Ok(true);
  }

  method DeclareAll(net: Mainnet, plan: seq<PlannedContract>) returns (result: Result<seq<nat>, string>)
    modifies net
    ensures RunSpec(plan, old(net.View()), net.View()) && NoDeployments(net.log, |old(net.log)|)
    ensures result.Ok? ==> forall p | p in plan :: p.classHash in net.chain.classes
    ensures result.Ok? ==> net.log == old(net.log) + Broadcasts(Report(result.value, []))
    ensures net.reliable ==> && result == Ok(MissingClasses(plan, old(net.chain).classes))
                             && net.chain.contracts == old(net.chain).contracts
                             && forall h :: h in net.chain.classes <==> h in old(net.chain).classes || h in result.value
  {
    ghost var before := net.View();
    var declared: seq<nat> := [];
    assert net.log == before.log + Broadcasts(Report(declared, []));
    for i := 0 to |plan|
      invariant RunSpec(plan, before, net.View())
      invariant net.log == before.log + Broadcasts(Report(declared, []))
      invariant forall p | p in plan[..i] :: p.classHash in net.chain.classes
      invariant net.reliable ==> && net.chain.contracts == before.chain.contracts
                                 && declared == MissingClasses(plan[..i], before.chain.classes)
                                 && forall h :: h in net.chain.classes <==> h in before.chain.classes || h in declared
    {
      ghost var mid := net.View();
      assert plan[..i + 1][..i] == plan[..i];
      var outcome := DeclareMissing(net, plan[i].classHash);
      AttemptKeepsDeclarations(plan, before, mid, net.View(), declared, plan[i]);
      if outcome.Err? {
        return Err(outcome.error);
      }
      if outcome.value {
        BroadcastsDeclared(declared, plan[i].classHash);
        declared := declared + [plan[i].classHash];
      }
    }
    assert plan[..|plan|] == plan;
    result := Ok(declared);
  }

  lemma AttemptKeepsDeclarations(plan: seq<PlannedContract>, before: World, mid: World, after: World,
                                 declared: seq<nat>, p: PlannedContract)
    requires p in plan && RunSpec(plan, before, mid) && mid.log == before.log + Broadcasts(Report(declared, []))
    requires Attempt(Declaration(p.classHash), mid, after)
    requires after.log != mid.log ==> p.classHash !in mid.chain.classes
    ensures RunSpec(plan, before, after) && NoDeployments(after.log, |before.log|)
  {
    if after.log == mid.log {
      GrowthKeepsRun(plan, before, mid, after.chain);
    } else {
      AttemptKeepsRun(plan, before, mid, after, Declaration(p.classHash));
    }
  }

  /** The planned contracts whose address is still empty; an address with another class is an error. */
  method CollectMissing(net: Mainnet, plan: seq<PlannedContract>) returns (result: Result<seq<PlannedContract>, string>)
    modifies net`chain
    ensures Grows(old(net.chain), net.chain)
    ensures result.Ok? ==> forall p | p in result.value :: p in plan && p.address !in old(net.chain).contracts
    ensures result.Ok? ==> forall p | p in plan :: p in result.value || Holds(net.chain, p)
    ensures Mismatched(plan, old(net.chain)) ==> result.Err?
    ensures DistinctAddresses(plan) && result.Ok? ==> DistinctAddresses(result.value)
    ensures net.reliable ==> && net.chain == old(net.chain)
                             && (result == Ok(MissingContracts(plan, old(net.chain).contracts)) || Mismatched(plan, old(net.chain)))
  {
    var payloads := [];
    for i := 0 to |plan|
      invariant Grows(old(net.chain), net.chain) && (net.reliable ==> net.chain == old(net.chain))
      invariant forall p | p in payloads :: p in plan[..i] && p.address !in old(net.chain).contracts
      invariant forall p | p in plan[..i] :: p in payloads || Holds(net.chain, p)
      invariant forall p | p in plan[..i] && p.address in old(net.chain).contracts :: Holds(old(net.chain), p)
      invariant DistinctAddresses(plan) ==> DistinctAddresses(payloads)
      invariant net.reliable ==> payloads == MissingContracts(plan[..i], old(net.chain).contracts)
    {
      assert plan[..i + 1][..i] == plan[..i];
      var current := net.DeployedClassHash(plan[i].address);
      if current.Err? {
        return Err(current.error);
      }
      if current.value.Some? {
        if current.value.value != plan[i].classHash {
          assert plan[i] in plan;
          return Err("predicted address contains an unexpected class");
        }
      } else {
        payloads := payloads + [plan[i]];
      }
    }
    assert plan[..|plan|] == plan;
    result := Ok(payloads);
  }

  /** Reads every address back at one block, then every binding. */
  method Verify(net: Mainnet, plan: seq<PlannedContract>, bindings: seq<Binding>) returns (result: Result<(), string>)
    modifies net`chain
    ensures Grows(old(net.chain), net.chain)
    ensures result.Ok? ==> Bound(bindings, net.answers) && forall p | p in plan :: Holds(net.chain, p)
    ensures net.reliable ==>
              && net.chain == old(net.chain)
              && (result.Ok? <==> Bound(bindings, net.answers) && forall p | p in plan :: Holds(old(net.chain), p))
  {
    net.OthersAct();
    var verified := net.chain;
    for i := 0 to |plan|
      invariant net.chain == verified
      invariant forall p | p in plan[..i] :: Holds(verified, p)
    {
      var fails: bool := *;
      if fails && !net.reliable {
        return Err("rpc");
      }
      if !Holds(verified, plan[i]) {
        return Err("failed deployed class-hash verification");
      }
    }
    assert plan[..|plan|] == plan;
    for i := 0 to |bindings|
      invariant Grows(verified, net.chain) && (net.reliable ==> net.chain == old(net.chain))
      invariant Bound(bindings[..i], net.answers)
    {
      var response := net.CallContract(bindings[i].getter);
      if response.Err? || |response.value| != 1 || response.value[0] != bindings[i].expected {
        assert bindings[i] in bindings;
        return Err("unexpected deployed binding");
      }
    }
    assert bindings[..|bindings|] == bindings;
    result := Ok(());
  }

  /** Nothing is on the chain afterwards that was not there before or is not planned. */
  ghost predicate AddsOnly(plan: seq<PlannedContract>, before: Chain, after: Chain) {
    && (forall a | a in after.contracts :: a in before.contracts || exists p :: p in plan && p.address == a)
    && (forall h | h in after.classes :: h in before.classes || exists p :: p in plan && p.classHash == h)
  }

  lemma PlannedEffectAddsOnly(plan: seq<PlannedContract>, before: Chain, declared: Chain, after: Chain)
    requires declared.contracts == before.contracts && after.classes == declared.classes
    requires forall h :: h in declared.classes <==> h in before.classes || h in MissingClasses(plan, before.classes)
    requires after.contracts == Install(before.contracts, MissingContracts(plan, before.contracts))
    ensures AddsOnly(plan, before, after)
  {
    forall a | a in after.contracts ensures a in before.contracts || exists p :: p in plan && p.address == a {
      InstallAddsOnly(before.contracts, MissingContracts(plan, before.contracts), a);
      if a !in before.contracts {
        var p :| p in MissingContracts(plan, before.contracts) && p.address == a;
        MissingContractsAre(plan, before.contracts, p);
      }
    }
    forall h | h in after.classes && h !in before.classes ensures exists p :: p in plan && p.classHash == h {
      MissingClassesAre(plan, before.classes, h);
      var i :| 0 <= i < |plan| && plan[i].classHash == h;
      assert plan[i] in plan;
    }
  }

  /** Declares the missing classes one by one, then deploys the missing contracts in one transaction. */
  method SubmitMissing(net: Mainnet, plan: seq<PlannedContract>) returns (result: Result<Report, string>)
    modifies net
    ensures RunSpec(plan, old(net.View()), net.View())
    ensures result.Ok? ==> forall p | p in plan :: p.classHash in net.chain.classes
    ensures result.Ok? ==> net.log == old(net.log) + Broadcasts(result.value)
    ensures Mismatched(plan, old(net.chain)) ==> result.Err? && NoDeployments(net.log, |old(net.log)|)
    ensures net.reliable && DistinctAddresses(plan) && !Mismatched(plan, old(net.chain)) ==>
              result == Ok(Missing(plan, old(net.chain))) && Complete(plan, net.chain) && AddsOnly(plan, old(net.chain), net.chain)
  {
    ghost var before := net.View();
    var declarations := DeclareAll(net, plan);
    if declarations.Err? {
      return Err(declarations.error);
    }
    ghost var declared := net.View();
    var missing := CollectMissing(net, plan);
    GrowthKeepsRun(plan, before, declared, net.chain);
    if missing.Err? {
      return Err(missing.error);
    }
    var payloads := missing.value;
    ghost var mid := net.View();
    if payloads != [] {
      var confirmed := Submit(net, Deployment(payloads));
      AttemptKeepsRun(plan, before, mid, net.View(), Deployment(payloads));
      if !confirmed {
        return Err("deployment refused or not confirmed");
      }
    }
    if net.reliable && !Mismatched(plan, before.chain) && DistinctAddresses(plan) {
      PlannedEffectAddsOnly(plan, before.chain, declared.chain, net.chain);
    }
    result := Ok(Report(declarations.value, payloads));
  }

  /** deployPayoMainnet for any plan: submits what is missing, then verifies every address at one
      block and every binding. */
  method DeployTopology(net: Mainnet, plan: seq<PlannedContract>, bindings: seq<Binding>) returns (result: Result<Report, string>)
    modifies net
    ensures RunSpec(plan, old(net.View()), net.View())
    ensures result.Ok? ==> Complete(plan, net.chain) && Bound(bindings, net.answers)
    ensures result.Ok? ==> net.log == old(net.log) + Broadcasts(result.value)
    ensures Mismatched(plan, old(net.chain)) ==> result.Err? && NoDeployments(net.log, |old(net.log)|)
    ensures net.reliable && DistinctAddresses(plan) && !Mismatched(plan, old(net.chain)) ==>
              && net.log == old(net.log) + Broadcasts(Missing(plan, old(net.chain)))
              && Complete(plan, net.chain) && AddsOnly(plan, old(net.chain), net.chain)
              && (result.Ok? <==> Bound(bindings, net.answers))
              && (result.Ok? ==> result.value == Missing(plan, old(net.chain)))
  {
    ghost var before := net.View();
    result := SubmitMissing(net, plan);
    if result.Err? {
      return;
    }
    ghost var submitted := net.View();
    var verified := Verify(net, plan, bindings);
    GrowthKeepsRun(plan, before, submitted, net.chain);
    if verified.Err? {
      result := Err(verified.error);
    }
  }

  // ---- The PAYO topology ----

  datatype Topology = Topology(
    admin: nat, pool: nat, generatedVerifier: PlannedContract, bundleVerifier: PlannedContract,
    policyRegistry: PlannedContract, obligationRegistry: PlannedContract, payrollSeal: PlannedContract)

  function Contracts(t: Topology): seq<PlannedContract> {
    [t.generatedVerifier, t.bundleVerifier, t.policyRegistry, t.obligationRegistry, t.payrollSeal]
  }

  function Bindings(t: Topology): seq<Binding> {
    [Binding(Getter(t.bundleVerifier.address, "get_underlying_verifier"), t.generatedVerifier.address),
     Binding(Getter(t.policyRegistry.address, "get_admin"), t.admin),
     Binding(Getter(t.policyRegistry.address, "get_fx_publisher"), t.admin),
     Binding(Getter(t.obligationRegistry.address, "get_admin"), t.admin),
     Binding(Getter(t.payrollSeal.address, "get_pool"), t.pool),
     Binding(Getter(t.payrollSeal.address, "get_catalog_registry"), t.policyRegistry.address),
     Binding(Getter(t.payrollSeal.address, "get_obligation_registry"), t.obligationRegistry.address)]
  }

  /** The seven reads pin the topology down from its seal and its bundle verifier: two topologies
      that both verify against the same answers and share these two agree on the pool, the
      administrator, both registries and the generated verifier. */
  lemma ReadsDetermineTopology(t: Topology, u: Topology, answers: map<Getter, seq<nat>>)
    requires Bound(Bindings(t), answers) && Bound(Bindings(u), answers)
    requires t.payrollSeal.address == u.payrollSeal.address && t.bundleVerifier.address == u.bundleVerifier.address
    ensures t.pool == u.pool && t.admin == u.admin
    ensures t.policyRegistry.address == u.policyRegistry.address
    ensures t.obligationRegistry.address == u.obligationRegistry.address
    ensures t.generatedVerifier.address == u.generatedVerifier.address
  {
    SameRead(t, u, answers, 4);
    SameRead(t, u, answers, 5);
    SameRead(t, u, answers, 6);
    SameRead(t, u, answers, 0);
    SameRead(t, u, answers, 1);
  }

  lemma SameRead(t: Topology, u: Topology, answers: map<Getter, seq<nat>>, i: nat)
    requires Bound(Bindings(t), answers) && Bound(Bindings(u), answers) && i < 7
    requires Bindings(t)[i].getter == Bindings(u)[i].getter
    ensures Bindings(t)[i].expected == Bindings(u)[i].expected
  {
    assert Bindings(t)[i] in Bindings(t) && Bindings(u)[i] in Bindings(u);
    SameGetterSameAnswer(Bindings(t)[i], Bindings(u)[i], answers);
  }

  lemma SameGetterSameAnswer(b: Binding, c: Binding, answers: map<Getter, seq<nat>>)
    requires b.getter == c.getter && b.getter in answers
    requires answers[b.getter] == [b.expected] && answers[c.getter] == [c.expected]
    ensures b.expected == c.expected
  {
    assert [b.expected][0] == [c.expected][0];
  }

  /** The contract's class is declared and its address holds that class. */
  predicate Deployed(chain: Chain, p: PlannedContract) {
    p.classHash in chain.classes && p.address in chain.contracts && chain.contracts[p.address] == p.classHash
  }

  /** Getter `entrypoint` of the contract answers with this one value. */
  predicate Answers(answers: map<Getter, seq<nat>>, p: PlannedContract, entrypoint: string, value: nat) {
    Getter(p.address, entrypoint) in answers && answers[Getter(p.address, entrypoint)] == [value]
  }

  /** The seven reads, by contract: the bundle verifier wraps the generated one, both registries
      answer to the administrator, and the seal points at the pool and at both registries. */
  predicate SevenAnswers(t: Topology, answers: map<Getter, seq<nat>>) {
    && Answers(answers, t.bundleVerifier, "get_underlying_verifier", t.generatedVerifier.address)
    && Answers(answers, t.policyRegistry, "get_admin", t.admin)
    && Answers(answers, t.policyRegistry, "get_fx_publisher", t.admin)
    && Answers(answers, t.obligationRegistry, "get_admin", t.admin)
    && Answers(answers, t.payrollSeal, "get_pool", t.pool)
    && Answers(answers, t.payrollSeal, "get_catalog_registry", t.policyRegistry.address)
    && Answers(answers, t.payrollSeal, "get_obligation_registry", t.obligationRegistry.address)
  }

  lemma BindingsAreSevenAnswers(t: Topology, answers: map<Getter, seq<nat>>)
    ensures Bound(Bindings(t), answers) <==> SevenAnswers(t, answers)
  {
    var bindings := Bindings(t);
    if Bound(bindings, answers) {
      forall i | 0 <= i < |bindings| ensures bindings[i].getter in answers && answers[bindings[i].getter] == [bindings[i].expected] {
        assert bindings[i] in bindings;
      }
    }
  }

  lemma PlanHasAllFive(t: Topology)
    ensures forall p | p in {t.generatedVerifier, t.bundleVerifier, t.policyRegistry, t.obligationRegistry, t.payrollSeal} ::
              p in Contracts(t)
    ensures forall p | p in Contracts(t) ::
              p in {t.generatedVerifier, t.bundleVerifier, t.policyRegistry, t.obligationRegistry, t.payrollSeal}
  {
    var plan := Contracts(t);
    assert plan[0] == t.generatedVerifier && plan[1] == t.bundleVerifier && plan[2] == t.policyRegistry
           && plan[3] == t.obligationRegistry && plan[4] == t.payrollSeal;
  }

  predicate AllDeployed(t: Topology, chain: Chain) {
    && Deployed(chain, t.generatedVerifier) && Deployed(chain, t.bundleVerifier) && Deployed(chain, t.policyRegistry)
    && Deployed(chain, t.obligationRegistry) && Deployed(chain, t.payrollSeal)
  }

  lemma CompleteDeploysAll(t: Topology, chain: Chain)
    requires Complete(Contracts(t), chain)
    ensures AllDeployed(t, chain)
  {
    PlanHasAllFive(t);
  }

  lemma FiveAreAll(t: Topology, chain: Chain)
    requires AllDeployed(t, chain) && AddsOnly(Contracts(t), Chain({}, map[]), chain)
    ensures chain.contracts.Keys == {t.generatedVerifier.address, t.bundleVerifier.address, t.policyRegistry.address,
                                     t.obligationRegistry.address, t.payrollSeal.address}
  {
    PlanHasAllFive(t);
  }

  predicate FiveAddresses(t: Topology) {
    var g, b, p, o, s := t.generatedVerifier.address, t.bundleVerifier.address, t.policyRegistry.address,
                         t.obligationRegistry.address, t.payrollSeal.address;
    g != b && g != p && g != o && g != s && b != p && b != o && b != s && p != o && p != s && o != s
  }

  lemma FiveAddressesDistinct(t: Topology)
    requires FiveAddresses(t)
    ensures DistinctAddresses(Contracts(t))
  {
  }

  predicate FiveClasses(t: Topology) {
    var g, b, p, o, s := t.generatedVerifier.classHash, t.bundleVerifier.classHash, t.policyRegistry.classHash,
                         t.obligationRegistry.classHash, t.payrollSeal.classHash;
    g != b && g != p && g != o && g != s && b != p && b != o && b != s && p != o && p != s && o != s
  }

  lemma {:induction false} AllContractsMissing(plan: seq<PlannedContract>)
    ensures MissingContracts(plan, map[]) == plan
  {
    if plan != [] {
      AllContractsMissing(plan[..|plan| - 1]);
    }
  }

  lemma {:induction false} AllClassesMissing(plan: seq<PlannedContract>)
    requires forall i, j | 0 <= i < j < |plan| :: plan[i].classHash != plan[j].classHash
    ensures |MissingClasses(plan, {})| == |plan|
    ensures forall i | 0 <= i < |plan| :: MissingClasses(plan, {})[i] == plan[i].classHash
  {
    if plan != [] {
      AllClassesMissing(plan[..|plan| - 1]);
    }
  }

  lemma SixBroadcasts(t: Topology)
    requires FiveClasses(t)
    ensures Broadcasts(Missing(Contracts(t), Chain({}, map[]))) == [
              Entry(Declaration(t.generatedVerifier.classHash), Landed),
              Entry(Declaration(t.bundleVerifier.classHash), Landed),
              Entry(Declaration(t.policyRegistry.classHash), Landed),
              Entry(Declaration(t.obligationRegistry.classHash), Landed),
              Entry(Declaration(t.payrollSeal.classHash), Landed),
              Entry(Deployment([t.generatedVerifier, t.bundleVerifier, t.policyRegistry, t.obligationRegistry,
                                t.payrollSeal]), Landed)]
  {
    AllContractsMissing(Contracts(t));
    AllClassesMissing(Contracts(t));
  }

  /** deployPayoMainnet: after a normal return all five contracts are declared and deployed and all
      seven reads answer as expected. On an empty chain that nobody disturbs it succeeds exactly
      when they do, and the five are all that is deployed; five different classes take six
      transactions, in this order. */
  method DeployPayoMainnet(net: Mainnet, t: Topology) returns (result: Result<Report, string>)
    modifies net
    ensures RunSpec(Contracts(t), old(net.View()), net.View())
    ensures result.Ok? ==>
              && Deployed(net.chain, t.generatedVerifier) && Deployed(net.chain, t.bundleVerifier)
              && Deployed(net.chain, t.policyRegistry) && Deployed(net.chain, t.obligationRegistry)
              && Deployed(net.chain, t.payrollSeal) && SevenAnswers(t, net.answers)
    ensures net.reliable && old(net.chain) == Chain({}, map[]) && FiveAddresses(t) ==>
              && (result.Ok? <==> SevenAnswers(t, net.answers))
              && net.chain.contracts.Keys == {t.generatedVerifier.address, t.bundleVerifier.address, t.policyRegistry.address,
                                              t.obligationRegistry.address, t.payrollSeal.address}
    ensures net.reliable && old(net.chain) == Chain({}, map[]) && FiveAddresses(t) && FiveClasses(t) ==>
              net.log == old(net.log) + [
                Entry(Declaration(t.generatedVerifier.classHash), Landed),
                Entry(Declaration(t.bundleVerifier.classHash), Landed),
                Entry(Declaration(t.policyRegistry.classHash), Landed),
                Entry(Declaration(t.obligationRegistry.classHash), Landed),
                Entry(Declaration(t.payrollSeal.classHash), Landed),
                Entry(Deployment([t.generatedVerifier, t.bundleVerifier, t.policyRegistry, t.obligationRegistry,
                                  t.payrollSeal]), Landed)]
  {
    result := DeployTopology(net, Contracts(t), Bindings(t));
    BindingsAreSevenAnswers(t, net.answers);
    if result.Ok? {
      CompleteDeploysAll(t, net.chain);
    }
    if net.reliable && old(net.chain) == Chain({}, map[]) && FiveAddresses(t) {
      FiveAddressesDistinct(t);
      CompleteDeploysAll(t, net.chain);
      FiveAreAll(t, net.chain);
      if FiveClasses(t) {
        SixBroadcasts(t);
      }
    }
  }
}
