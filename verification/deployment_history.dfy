/** Sequences of interrupted deployment runs. */
module DeploymentHistory {
  import opened TopologyDeployment

  /** Between two runs others may act, and every broadcast left open takes effect or is lost. */
  ghost predicate Settles(before: World, after: World) {
    && Grows(before.chain, after.chain)
    && |before.log| == |after.log|
    && forall j | 0 <= j < |before.log| ::
         && after.log[j].submission == before.log[j].submission
         && after.log[j].fate != Unsettled
         && (before.log[j].fate != Unsettled ==> after.log[j].fate == before.log[j].fate)
         && (after.log[j].fate == Landed ==> TookEffect(after.chain, after.log[j].submission))
  }

  datatype Run = Run(plan: seq<PlannedContract>, before: World, after: World)

  /** Any number of runs, each of which may stop anywhere, from any chain and an empty log. */
  ghost predicate History(runs: seq<Run>) {
    && (runs != [] ==> runs[0].before.log == [])
    && (forall i | 0 <= i < |runs| :: RunSpec(runs[i].plan, runs[i].before, runs[i].after))
    && (forall i | 0 < i < |runs| :: Settles(runs[i - 1].after, runs[i].before))
  }

  /** Nothing that took effect is submitted again later. */
  ghost predicate NeverRepeated(log: seq<Entry>) {
    forall i, j | 0 <= i < j < |log| && log[i].fate == Landed :: !Repeats(log[i].submission, log[j].submission)
  }

  ghost predicate Sound(w: World) {
    && NeverRepeated(w.log)
    && (forall j | 0 <= j < |w.log| && w.log[j].fate == Landed :: TookEffect(w.chain, w.log[j].submission))
    && (forall j | 0 <= j < |w.log| && w.log[j].fate == Unsettled :: j == |w.log| - 1)
  }

  lemma EffectPersists(before: World, chain: Chain, s: Submission)
    requires TookEffect(before.chain, s) && Grows(before.chain, chain)
    ensures TookEffect(chain, s)
  {
  }

  /** What took effect before a run is not asked for again: it is not fresh any more. */
  lemma EffectBlocksRepeat(chain: Chain, s: Submission, t: Submission)
    requires TookEffect(chain, s) && Fresh(chain, t)
    ensures !Repeats(s, t)
  {
  }

  lemma RunKeepsSound(plan: seq<PlannedContract>, before: World, after: World)
    requires Sound(before) && RunSpec(plan, before, after)
    requires forall j | 0 <= j < |before.log| :: before.log[j].fate != Unsettled
    ensures Sound(after)
  {
    var n := |before.log|;
    forall i, j | 0 <= i < j < |after.log| && after.log[i].fate == Landed
      ensures !Repeats(after.log[i].submission, after.log[j].submission)
    {
      if i < n {
        assert after.log[i] == before.log[i];
        if j < n {
          assert after.log[j] == before.log[j];
        } else {
          EffectBlocksRepeat(before.chain, before.log[i].submission, after.log[j].submission);
        }
      }
    }
    forall j | 0 <= j < |after.log| && after.log[j].fate == Landed
      ensures TookEffect(after.chain, after.log[j].submission)
    {
      if j < n {
        assert after.log[j] == before.log[j];
        EffectPersists(before, after.chain, before.log[j].submission);
      }
    }
  }

  lemma SettlingKeepsSound(before: World, after: World)
    requires Sound(before) && Settles(before, after)
    ensures Sound(after) && forall j | 0 <= j < |after.log| :: after.log[j].fate != Unsettled
  {
    forall i, j | 0 <= i < j < |after.log| && after.log[i].fate == Landed
      ensures !Repeats(after.log[i].submission, after.log[j].submission)
    {
      assert before.log[i].fate == Landed;
    }
  }

  /** Over any history of interrupted runs, settled in between, no class whose declaration took
      effect is declared again and no address whose deployment took effect is deployed again. */
  lemma {:induction false} NothingTwice(runs: seq<Run>, i: nat)
    requires History(runs) && i < |runs|
    ensures Sound(runs[i].before) && Sound(runs[i].after)
    ensures NeverRepeated(runs[i].after.log)
    ensures forall j | 0 <= j < |runs[i].before.log| :: runs[i].before.log[j].fate != Unsettled
  {
    if i > 0 {
      NothingTwice(runs, i - 1);
      SettlingKeepsSound(runs[i - 1].after, runs[i].before);
    }
    RunKeepsSound(runs[i].plan, runs[i].before, runs[i].after);
  }

  lemma CompleteLeavesNothingFresh(plan: seq<PlannedContract>, chain: Chain, s: Submission)
    requires Complete(plan, chain) && Planned(plan, s)
    ensures !Fresh(chain, s)
  {
    if s.Deployment? {
      assert s.payloads[0] in s.payloads;
    }
  }

  /** A run on a finished topology submits nothing. */
  lemma FinishedTopologyIsQuiet(plan: seq<PlannedContract>, before: World, after: World)
    requires RunSpec(plan, before, after) && Complete(plan, before.chain)
    ensures after.log == before.log
  {
    var n := |before.log|;
    var s := if n < |after.log| then after.log[n].submission else Declaration(0);
    if Planned(plan, s) {
      CompleteLeavesNothingFresh(plan, before.chain, s);
    }
  }

  lemma {:induction false} ChainGrowsAlong(runs: seq<Run>, i: nat, j: nat)
    requires History(runs) && i < j < |runs|
    ensures Grows(runs[i].after.chain, runs[j].before.chain)
  {
    if i + 1 < j {
      ChainGrowsAlong(runs, i, j - 1);
      assert Grows(runs[j - 1].before.chain, runs[j - 1].after.chain);
    }
    assert Settles(runs[j - 1].after, runs[j].before);
  }

  /** Once a run leaves its topology complete, every later run of that plan submits nothing and
      leaves it complete, however many other runs came between. */
  lemma CompletedStaysQuiet(runs: seq<Run>, i: nat, j: nat)
    requires History(runs) && i < j < |runs| && runs[j].plan == runs[i].plan
    requires Complete(runs[i].plan, runs[i].after.chain)
    ensures runs[j].after.log == runs[j].before.log && Complete(runs[j].plan, runs[j].after.chain)
  {
    ChainGrowsAlong(runs, i, j);
    FinishedTopologyIsQuiet(runs[j].plan, runs[j].before, runs[j].after);
  }

  // ---- When a rerun repeats an earlier submission ----

  /** The plan still asks for something that `s` asked for and the chain does not show. */
  ghost predicate StillAsked(plan: seq<PlannedContract>, chain: Chain, s: Submission) {
    match s
    case Declaration(h) => h !in chain.classes && exists p :: p in plan && p.classHash == h
    case Deployment(payloads) =>
      exists p, q :: p in payloads && q in plan && p.address == q.address && q.address !in chain.contracts
  }

  /** A run that broadcasts what is missing, as every undisturbed run does, repeats an earlier
      submission exactly when the plan still asks for it and it has not taken effect. */
  lemma RerunRepeatsExactly(plan: seq<PlannedContract>, before: World, after: World, s: Submission)
    requires after.log == before.log + Broadcasts(Missing(plan, before.chain))
    ensures (exists j :: |before.log| <= j < |after.log| && Repeats(s, after.log[j].submission))
            <==> StillAsked(plan, before.chain, s)
  {
    var n, report := |before.log|, Missing(plan, before.chain);
    assert forall j | n <= j < |after.log| :: after.log[j] == Broadcasts(report)[j - n];
    match s
    case Declaration(h) =>
      MissingClassesAre(plan, before.chain.classes, h);
      if k :| 0 <= k < |report.declared| && report.declared[k] == h {
        assert Repeats(s, after.log[n + k].submission);
      }
      if p :| p in plan && p.classHash == h {
        var i :| 0 <= i < |plan| && plan[i] == p;
        assert plan[i].classHash == h;
      }
    case Deployment(payloads) =>
      forall q ensures q in report.deployed <==> q in plan && q.address !in before.chain.contracts {
        MissingContractsAre(plan, before.chain.contracts, q);
      }
      if p, q :| p in payloads && q in plan && p.address == q.address && q.address !in before.chain.contracts {
        assert q in report.deployed;
        assert Repeats(s, after.log[n + |report.declared|].submission);
      }
  }

  /** An undisturbed run that stops right after its k-th broadcast, the ones before having landed. */
  function InterruptedAt(plan: seq<PlannedContract>, before: World, k: nat): World
    requires k < |Broadcasts(Missing(plan, before.chain))|
  {
    var report := Missing(plan, before.chain);
    var entries := Broadcasts(report);
    var declared := if k <= |report.declared| then report.declared[..k] else report.declared;
    World(before.chain.(classes := before.chain.classes + (set h | h in declared)),
          before.log + entries[..k] + [Entry(entries[k].submission, Unsettled)])
  }

  lemma MissingIsPlannedAndFresh(plan: seq<PlannedContract>, chain: Chain, k: nat)
    requires k < |Broadcasts(Missing(plan, chain))|
    ensures var s := Broadcasts(Missing(plan, chain))[k].submission; Planned(plan, s) && Fresh(chain, s)
  {
    var report := Missing(plan, chain);
    if k < |report.declared| {
      MissingClassesAre(plan, chain.classes, report.declared[k]);
      var i :| 0 <= i < |plan| && plan[i].classHash == report.declared[k];
      assert plan[i] in plan;
    } else {
      forall p | p in report.deployed ensures p in plan && p.address !in chain.contracts {
        MissingContractsAre(plan, chain.contracts, p);
      }
    }
  }

  lemma MissingNeverRepeats(plan: seq<PlannedContract>, chain: Chain, i: nat, j: nat)
    requires i < j < |Broadcasts(Missing(plan, chain))|
    ensures var entries := Broadcasts(Missing(plan, chain)); !Repeats(entries[i].submission, entries[j].submission)
  {
    MissingClassesAre(plan, chain.classes, 0);
  }

  lemma InterruptedEntries(plan: seq<PlannedContract>, before: World, k: nat, j: nat)
    requires k < |Broadcasts(Missing(plan, before.chain))| && j <= k
    ensures var entries := Broadcasts(Missing(plan, before.chain));
            var after := InterruptedAt(plan, before, k);
            && |after.log| == |before.log| + k + 1 && before.log == after.log[..|before.log|]
            && after.log[|before.log| + j] == Entry(entries[j].submission, if j < k then Landed else Unsettled)
            && (j < k ==> TookEffect(after.chain, entries[j].submission))
  {
    var report := Missing(plan, before.chain);
    assert InterruptedAt(plan, before, k).log[..|before.log|] == before.log;
    if j < k {
      assert j < |report.declared| && report.declared[j] in report.declared[..k];
    }
  }

  /** Stopped after any of its broadcasts, it is a run like any other. */
  lemma InterruptedIsARun(plan: seq<PlannedContract>, before: World, k: nat)
    requires k < |Broadcasts(Missing(plan, before.chain))|
    ensures RunSpec(plan, before, InterruptedAt(plan, before, k))
  {
    var n, after := |before.log|, InterruptedAt(plan, before, k);
    InterruptedEntries(plan, before, k, k);
    forall j | n <= j < |after.log|
      ensures Planned(plan, after.log[j].submission) && Fresh(before.chain, after.log[j].submission)
      ensures after.log[j].fate == if j == n + k then Unsettled else Landed
      ensures after.log[j].fate == Landed ==> TookEffect(after.chain, after.log[j].submission)
    {
      InterruptedEntries(plan, before, k, j - n);
      MissingIsPlannedAndFresh(plan, before.chain, j - n);
    }
    forall i, j | n <= i < j < |after.log| ensures !Repeats(after.log[i].submission, after.log[j].submission) {
      InterruptedEntries(plan, before, k, i - n);
      InterruptedEntries(plan, before, k, j - n);
      MissingNeverRepeats(plan, before.chain, i - n, j - n);
    }
  }

  /** Where an undisturbed run repeats a submission that is still asked for. */
  lemma RepeatPoint(plan: seq<PlannedContract>, chain: Chain, s: Submission) returns (k: nat)
    requires StillAsked(plan, chain, s)
    ensures k < |Broadcasts(Missing(plan, chain))| && Repeats(s, Broadcasts(Missing(plan, chain))[k].submission)
    ensures Possible(chain, s) ==> Possible(InterruptedAt(plan, World(chain, []), k).chain, s)
  {
    var report := Missing(plan, chain);
    match s
    case Declaration(h) =>
      MissingClassesAre(plan, chain.classes, h);
      var p :| p in plan && p.classHash == h;
      var i :| 0 <= i < |plan| && plan[i] == p;
      assert plan[i].classHash == h;
      k :| 0 <= k < |report.declared| && report.declared[k] == h;
    case Deployment(payloads) =>
      var p, q :| p in payloads && q in plan && p.address == q.address && q.address !in chain.contracts;
      MissingContractsAre(plan, chain.contracts, q);
      k := |report.declared|;
  }

  /** The late landing of `s`, at position n, after a later run broadcast it again. */
  function LateLanding(after: World, n: nat, s: Submission): World
    requires n < |after.log| - 1
  {
    var last := |after.log| - 1;
    World(Effect(after.chain, s), after.log[n := Entry(s, Landed)][last := Entry(after.log[last].submission, Lost)])
  }

  lemma LateLandingSettles(plan: seq<PlannedContract>, before: World, k: nat, s: Submission)
    requires k < |Broadcasts(Missing(plan, before.chain))| && Sound(before) && before.log != []
    requires before.log[|before.log| - 1] == Entry(s, Unsettled)
    requires Possible(InterruptedAt(plan, before, k).chain, s)
    ensures var after := InterruptedAt(plan, before, k);
            |after.log| > |before.log| && Settles(after, LateLanding(after, |before.log| - 1, s))
  {
    var n, after := |before.log| - 1, InterruptedAt(plan, before, k);
    InterruptedEntries(plan, before, k, k);
    var late := LateLanding(after, n, s);
    EffectGrows(after.chain, s);
    forall j | 0 <= j < |after.log|
      ensures late.log[j].submission == after.log[j].submission && late.log[j].fate != Unsettled
      ensures after.log[j].fate != Unsettled ==> late.log[j].fate == after.log[j].fate
      ensures late.log[j].fate == Landed ==> TookEffect(late.chain, late.log[j].submission)
    {
      if j <= n {
        assert after.log[j] == before.log[j];
        if j < n && before.log[j].fate == Landed {
          EffectPersists(before, late.chain, before.log[j].submission);
        }
      } else {
        InterruptedEntries(plan, before, k, j - n - 1);
        if j < |after.log| - 1 {
          EffectPersists(after, late.chain, after.log[j].submission);
        }
      }
    }
  }

  /** Settling is needed. In every world a history can reach whose last broadcast is still open,
      could still land and is still asked for by the plan, declaration or deployment, the next run,
      undisturbed, broadcasts it again before it has taken effect; if the run stops there, the first
      broadcast can land after all, and what has taken effect has been submitted again. */
  lemma UnsettledRerunRepeats(plan: seq<PlannedContract>, before: World, s: Submission) returns (k: nat, late: World)
    requires Sound(before) && before.log != [] && before.log[|before.log| - 1] == Entry(s, Unsettled)
    requires StillAsked(plan, before.chain, s) && Possible(before.chain, s)
    ensures k < |Broadcasts(Missing(plan, before.chain))|
    ensures Repeats(s, Broadcasts(Missing(plan, before.chain))[k].submission)
    ensures RunSpec(plan, before, InterruptedAt(plan, before, k))
    ensures Settles(InterruptedAt(plan, before, k), late) && !NeverRepeated(late.log)
  {
    k := RepeatPoint(plan, before.chain, s);
    var n, after := |before.log| - 1, InterruptedAt(plan, before, k);
    InterruptedIsARun(plan, before, k);
    InterruptedEntries(plan, before, k, k);
    assert InterruptedAt(plan, World(before.chain, []), k).chain == after.chain;
    LateLandingSettles(plan, before, k, s);
    late := LateLanding(after, n, s);
    assert late.log[n].fate == Landed && Repeats(late.log[n].submission, late.log[|late.log| - 1].submission);
  }
}
