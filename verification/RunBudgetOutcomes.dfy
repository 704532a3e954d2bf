/** What each operation of the ledger answers and books, said in numbers: call
    slots, leases, estimates in flight, caps and the clock. */
module RunBudgetOutcomes {
  import opened Common
  import opened Sums
  import opened RunBudget
  import opened RunBudgetInvariant
  import opened RunBudgetRuns

  // ---------------------------------------------------------- configuration

  /** A share is rounded down; shares outside 0..1 are 0 and 1. */
  lemma ShareIs(limit: nat, share: real)
    ensures var tokens, part := ShareTokens(limit, share), limit as real * share;
            && (0.0 <= share <= 1.0 ==> tokens as real <= part < tokens as real + 1.0)
            && (share < 0.0 ==> tokens == 0) && (share > 1.0 ==> tokens == limit)
  {
  }

  /** What a configured number comes to: zero is the default, less than one is one. */
  predicate Configured(given: int, default: int, got: int) {
    (given == 0 ==> got == default) && (given >= 1 ==> got == given) && (given < 0 ==> got == 1)
  }

  /** The research cap is the research share, the repair cap that and the repair
      share, within the limit; negative limits and times are none. */
  lemma ConfigIs(
    tokenLimit: int, callLimit: int, callsPerWorker: int, parallel: int,
    researchShare: real, repairShare: real, started: real, deadline: real, synthesisReserve: real)
    ensures var cfg := MakeConfig(tokenLimit, callLimit, callsPerWorker, parallel,
                                  researchShare, repairShare, started, deadline, synthesisReserve);
            && (if tokenLimit < 0 then cfg.tokenLimit == 0 else cfg.tokenLimit == tokenLimit)
            && (if callLimit < 0 then cfg.callLimit == 0 else cfg.callLimit == callLimit)
            && Configured(callsPerWorker, 8, cfg.callsPerWorker) && Configured(parallel, 3, cfg.parallel)
            && cfg.capResearch == ShareTokens(cfg.tokenLimit, researchShare)
            && (cfg.capRepair == cfg.capResearch + ShareTokens(cfg.tokenLimit, repairShare)
                || (cfg.capRepair == cfg.tokenLimit
                    && cfg.tokenLimit < cfg.capResearch + ShareTokens(cfg.tokenLimit, repairShare)))
            && cfg.started == started
            && (if deadline < 0.0 then cfg.deadline == 0.0 else cfg.deadline == deadline)
            && (synthesisReserve < 0.0 ==> cfg.synthesisReserve == 0.0)
            && (synthesisReserve >= 0.0 ==> cfg.synthesisReserve == synthesisReserve)
  {
  }

  /** Capital letters become small ones, everything else stays. */
  lemma LowerIs(s: string, i: nat)
    requires i < |s|
    ensures |Lower(s)| == |s|
    ensures var c := Lower(s)[i];
            if 'A' <= s[i] <= 'Z' then 'a' <= c <= 'z' && c as int - s[i] as int == 32 else c == s[i]
  {
  }

  // ---------------------------------------------------------- who is charged

  /** Tokens in flight over the whole run. */
  function Held(l: Ledger): nat { SumBy(l.live, TokensOf()) }

  predicate SlotFree(l: Ledger) { l.cfg.callLimit == 0 || l.calls + |l.live| < l.cfg.callLimit }

  /** Lease `i` is the first one of the task. */
  predicate IsFirst(leases: seq<Lease>, task: string, i: nat) {
    i < |leases| && leases[i].task == task && forall j :: 0 <= j < i ==> leases[j].task != task
  }

  ghost predicate HasLease(leases: seq<Lease>, task: string) {
    exists i: nat :: IsFirst(leases, task, i)
  }

  lemma FirstIs(leases: seq<Lease>, task: string)
    ensures HasLease(leases, task) <==> FirstOf(leases, task) < |leases|
    ensures forall i: nat :: IsFirst(leases, task, i) <==> i == FirstOf(leases, task) < |leases|
  {
    FirstOfSpec(leases, task);
    var f := FirstOf(leases, task);
    assert f < |leases| ==> IsFirst(leases, task, f);
    forall i: nat | IsFirst(leases, task, i)
      ensures i == f
    {
      FirstOfIs(leases, task, i);
    }
  }

  /** At least one token is asked for. */
  function Asked(estimate: int): nat { if estimate > 1 then estimate else 1 }

  /** What a call of this phase may not touch of a lease's ceiling. */
  function SetAside(ceiling: nat, phase: string): nat {
    if Lower(phase) in {"finalize", "finalization"} then 0
    else if ceiling * 15 / 100 > 1 then ceiling * 15 / 100 else 1
  }

  predicate CallsLeft(lease: Lease) { lease.calls < lease.maxCalls }

  predicate TokensLeft(lease: Lease, n: nat, phase: string) {
    lease.ceiling == 0 || lease.used + lease.inFlight + n + SetAside(lease.ceiling, phase) <= lease.ceiling
  }

  ghost predicate LeaseAdmits(leases: seq<Lease>, task: string, n: nat, phase: string) {
    task == "" || exists i: nat :: IsFirst(leases, task, i) && CallsLeft(leases[i]) && TokensLeft(leases[i], n, phase)
  }

  predicate RunAdmits(l: Ledger, n: nat) { l.cfg.tokenLimit == 0 || l.used + Held(l) + n <= l.cfg.tokenLimit }

  ghost predicate OnRepair(leases: seq<Lease>, task: string) {
    task != "" && exists i: nat :: IsFirst(leases, task, i) && leases[i].stage.Repair?
  }

  ghost predicate StageAdmits(l: Ledger, n: nat, task: string, phase: string) {
    Lower(phase) in {"execute", "worker", "research", "recover", "validate"} && l.cfg.tokenLimit > 0 ==>
      l.used + Held(l) + n <= (if OnRepair(l.leases, task) then l.cfg.capRepair else l.cfg.capResearch)
  }

  // ------------------------------------------------------ reserve_llm_call

  lemma WorkerAnswer(l: Ledger, n: nat, task: string, phase: string, i: nat)
    requires n >= 1 && IsFirst(l.leases, task, i)
    ensures var lease := l.leases[i];
            WorkerRefusal(l, n, task, Lower(phase))
            == if !CallsLeft(lease) then Some(WorkerCallCap)
               else if !TokensLeft(lease, n, phase) then Some(WorkerTokenCap) else None
  {
    FirstIs(l.leases, task);
  }

  lemma NoLeaseAnswer(l: Ledger, n: nat, task: string, phase: string)
    requires !HasLease(l.leases, task)
    ensures WorkerRefusal(l, n, task, phase) == Some(LeaseMissing)
  {
    FirstIs(l.leases, task);
  }

  lemma WorkerAdmitsIff(l: Ledger, n: nat, task: string, phase: string)
    requires n >= 1 && task != ""
    ensures WorkerRefusal(l, n, task, Lower(phase)).None? <==> LeaseAdmits(l.leases, task, n, phase)
  {
    FirstIs(l.leases, task);
    if HasLease(l.leases, task) {
      WorkerAnswer(l, n, task, phase, FirstOf(l.leases, task));
    } else {
      NoLeaseAnswer(l, n, task, Lower(phase));
    }
  }

  lemma StageIs(l: Ledger, n: nat, task: string, phase: string)
    requires Inv(l) && l.cfg.tokenLimit > 0
    ensures StageAdmits(l, n, task, phase)
       <==> !(IsResearchPhase(Lower(phase))
              && l.used + EffectiveReserved(l) + n > StageCap(l.cfg, StageOf(l.leases, task)))
  {
    ReservedIsLive(l);
    FirstIs(l.leases, task);
  }

  /** A call is granted if and only if a slot is free, the worker's first lease has
      a call and the tokens left, and the run and its stage have the tokens left. */
  lemma GrantedIff(l: Ledger, estimate: int, task: string, phase: string)
    requires Inv(l)
    ensures CallOutcome(l, estimate, task, phase).Granted?
       <==> var n := Asked(estimate);
            SlotFree(l) && LeaseAdmits(l.leases, task, n, phase) && RunAdmits(l, n) && StageAdmits(l, n, task, phase)
  {
    var n := Asked(estimate);
    assert CallTokens(estimate) == n;
    ReservedIsLive(l);
    if task != "" {
      WorkerAdmitsIff(l, n, task, phase);
    }
    if l.cfg.tokenLimit > 0 {
      StageIs(l, n, task, phase);
    }
  }

  /** The first of these that holds is the reason given. */
  ghost function ReasonGiven(l: Ledger, n: nat, task: string, phase: string): Option<Reason> {
    if !SlotFree(l) then Some(RunCallCap)
    else if task != "" && !HasLease(l.leases, task) then Some(LeaseMissing)
    else if task != "" && exists i: nat :: IsFirst(l.leases, task, i) && !CallsLeft(l.leases[i])
    then Some(WorkerCallCap)
    else if !LeaseAdmits(l.leases, task, n, phase) then Some(WorkerTokenCap)
    else if !RunAdmits(l, n) then Some(RunTokenCap)
    else if !StageAdmits(l, n, task, phase) then Some(ResearchTokenCap)
    else None
  }

  lemma RefusalIs(l: Ledger, estimate: int, task: string, phase: string)
    requires Inv(l)
    ensures CallRefusal(l, estimate, task, phase) == ReasonGiven(l, Asked(estimate), task, phase)
  {
    var n := Asked(estimate);
    assert CallTokens(estimate) == n;
    ReservedIsLive(l);
    if task != "" {
      FirstIs(l.leases, task);
      if HasLease(l.leases, task) {
        WorkerAnswer(l, n, task, phase, FirstOf(l.leases, task));
      } else {
        NoLeaseAnswer(l, n, task, Lower(phase));
      }
    }
    if l.cfg.tokenLimit > 0 {
      StageIs(l, n, task, phase);
    }
  }

  lemma RefusedForSlotIff(l: Ledger, estimate: int, task: string, phase: string)
    requires Inv(l)
    ensures CallOutcome(l, estimate, task, phase) == Refused(RunCallCap) <==> !SlotFree(l)
  {
    RefusalIs(l, estimate, task, phase);
  }

  /** Over any run a request is refused for want of a call slot if and only if there
      is a call limit and settled, outside and live calls have reached it. */
  lemma RunCallCapIff(t: Trace, estimate: int, task: string, phase: string)
    requires Constructed(t)
    ensures CallOutcome(State(t), estimate, task, phase) == Refused(RunCallCap)
       <==> var a := AuditOf(t);
            ConfigOf(t).callLimit > 0 && a.settled + a.outsideCalls + |State(t).live| >= ConfigOf(t).callLimit
  {
    SlotsOf(t);
    RefusedForSlotIff(State(t), estimate, task, phase);
  }

  lemma SlotsOf(t: Trace)
    requires Constructed(t)
    ensures State(t).calls == AuditOf(t).settled + AuditOf(t).outsideCalls
    ensures State(t).cfg == ConfigOf(t) && Inv(State(t))
  {
    CallSlotConservation(t);
    InvariantHolds(t);
  }

  /** `leases'` are `leases` but for the first one of the task, which is `x`. */
  predicate OnlyFirstChanged(leases: seq<Lease>, leases': seq<Lease>, task: string, changed: Lease -> Lease) {
    && |leases'| == |leases|
    && forall i :: 0 <= i < |leases| ==>
         leases'[i] == if task != "" && IsFirst(leases, task, i) then changed(leases[i]) else leases[i]
  }

  /** A granted call is booked once: on the first lease of its task, or on the run;
      a refused one nowhere. */
  lemma GrantBooks(l: Ledger, estimate: int, task: string, phase: string)
    ensures CallOutcome(l, estimate, task, phase).Refused? ==> AfterCall(l, estimate, task, phase) == l
    ensures CallOutcome(l, estimate, task, phase).Granted? ==>
              var n, l' := Asked(estimate), AfterCall(l, estimate, task, phase);
              && CallOutcome(l, estimate, task, phase) == Granted(l.nextReservation)
              && l'.live == l.live + [Reservation(l.nextReservation, n, task, Lower(phase))]
              && l'.nextReservation == l.nextReservation + 1 && l'.reservedCalls == l.reservedCalls + 1
              && l'.reservedPlain == l.reservedPlain + (if task == "" then n else 0)
              && OnlyFirstChanged(l.leases, l'.leases, task,
                                  (x: Lease) => x.(inFlight := x.inFlight + n, calls := x.calls + 1))
              && l'.used == l.used && l'.calls == l.calls && l'.tools == l.tools && l'.force == l.force
  {
    FirstIs(l.leases, task);
  }

  // -------------------------------------------- commit_llm_usage and release

  /** What a commit books: the reported tokens, the estimate for a report of none,
      one token for a negative one. */
  lemma CommitBooks(l: Ledger, k: nat, actual: int, now: real)
    requires Inv(l) && k < |l.live|
    ensures var r, l' := l.live[k], Step(l, CommitCall(l.live[k].id, actual), now);
            var spent: nat := if actual >= 1 then actual else if actual == 0 then r.tokens else 1;
            && l'.used == l.used + spent && l'.calls == l.calls + 1 && l'.tools == l.tools
            && l'.live == l.live[..k] + l.live[k + 1..]
            && OnlyFirstChanged(l.leases, l'.leases, r.task,
                                (x: Lease) => x.(used := x.used + spent, inFlight := Max0(x.inFlight - r.tokens)))
  {
    LiveIs(l, k);
    SettleBooks(l, k, Reported(actual, l.live[k].tokens));
  }

  lemma SettleBooks(l: Ledger, k: nat, spent: nat)
    requires k < |l.live|
    ensures var r, l' := l.live[k], Settle(l, k, spent);
            && l'.used == l.used + spent && l'.calls == l.calls + 1 && l'.tools == l.tools && l'.force == l.force
            && l'.live == l.live[..k] + l.live[k + 1..]
            && OnlyFirstChanged(l.leases, l'.leases, r.task,
                                (x: Lease) => x.(used := x.used + spent, inFlight := Max0(x.inFlight - r.tokens)))
  {
    FirstIs(l.leases, l.live[k].task);
  }

  lemma LiveIs(l: Ledger, k: nat)
    requires Inv(l) && k < |l.live|
    ensures LiveIndex(l.live, l.live[k].id) == k && l.live[k].tokens >= 1
  {
    LiveIndexSpec(l.live, l.live[k].id);
  }

  /** A release books a call and no tokens, and leaves the flag alone. */
  lemma ReleaseBooks(l: Ledger, k: nat, now: real)
    requires Inv(l) && k < |l.live|
    ensures var r, l' := l.live[k], Step(l, ReleaseCall(l.live[k].id), now);
            && l'.used == l.used && l'.calls == l.calls + 1 && l'.tools == l.tools && l'.force == l.force
            && l'.live == l.live[..k] + l.live[k + 1..]
            && OnlyFirstChanged(l.leases, l'.leases, r.task,
                                (x: Lease) => x.(inFlight := Max0(x.inFlight - r.tokens)))
  {
    LiveIs(l, k);
    SettleBooks(l, k, 0);
  }

  // ------------------------------------------------------------- leases

  /** A lease is granted if and only if tokens in use and in flight are below the
      run limit and the stage's cap, a call slot and a tool call are free, and the
      time kept for synthesis has not begun. */
  lemma LeaseGrantedIff(l: Ledger, q: LeaseRequest, now: real)
    requires Inv(l)
    ensures LeaseOutcome(l, q, now).Granted?
       <==> var cap := if q.stage.Repair? then l.cfg.capRepair else l.cfg.capResearch;
            && (l.cfg.tokenLimit > 0 ==> l.used + Held(l) < l.cfg.tokenLimit && l.used + Held(l) < cap)
            && SlotFree(l)
            && (l.toolLimit > 0 ==> l.tools < l.toolLimit)
            && (l.cfg.deadline > 0.0 ==> now + l.cfg.synthesisReserve < l.cfg.started + l.cfg.deadline)
  {
    ReservedIsLive(l);
  }

  /** What a lease asks for: the given ceiling, or an even share of the cap. */
  function AskedCeiling(cfg: Config, q: LeaseRequest): nat {
    var cap := if q.stage.Repair? then cfg.capRepair else cfg.capResearch;
    var workers := if q.parallel == 0 then cfg.parallel else if q.parallel < 1 then 1 else q.parallel;
    if q.ceiling.Some? then (if q.ceiling.value < 0 then 0 else q.ceiling.value)
    else if cap == 0 then 0
    else if workers == 0 || cap / workers < 1 then 1 else cap / workers
  }

  /** A granted lease gets the largest ceiling that is asked for and that its stage
      and the run have left. */
  lemma CeilingIsLargest(l: Ledger, q: LeaseRequest, now: real)
    requires Inv(l) && LeaseOutcome(l, q, now).Granted?
    ensures var c, asked := GrantedCeiling(l, q), AskedCeiling(l.cfg, q);
            var cap := if q.stage.Repair? then l.cfg.capRepair else l.cfg.capResearch;
            var workers := SumBy(l.live, WorkerTokens());
            && c <= asked
            && (cap > 0 ==> l.used + workers + c <= cap)
            && (l.cfg.tokenLimit > 0 ==> l.used + Held(l) + c <= l.cfg.tokenLimit)
            && (c == asked || (cap > 0 && l.used + workers + c == cap)
                || (l.cfg.tokenLimit > 0 && l.used + Held(l) + c == l.cfg.tokenLimit))
  {
    ReservedIsLive(l);
    SumSplitsInto(l.live, TokensOf(), TaskTokens(""), WorkerTokens());
    AskedIs(l.cfg, q);
  }

  lemma AskedIs(cfg: Config, q: LeaseRequest)
    requires cfg.Valid()
    ensures AskedCeiling(cfg, q) == if q.ceiling.Some? then Max0(q.ceiling.value)
                                    else FairShare(StageCap(cfg, q.stage), OrElse(q.parallel, cfg.parallel))
  {
  }

  lemma LeaseBooks(l: Ledger, q: LeaseRequest, now: real)
    ensures LeaseOutcome(l, q, now).Refused? ==> AfterLease(l, q, now) == l
    ensures LeaseOutcome(l, q, now).Granted? ==>
              var l' := AfterLease(l, q, now);
              && LeaseOutcome(l, q, now) == Granted(l.nextLease)
              && |l'.leases| == |l.leases| + 1 && l'.leases[..|l.leases|] == l.leases
              && (var x := l'.leases[|l.leases|];
                 && x.id == l.nextLease && x.task == q.task && x.stage == q.stage
                 && x.ceiling == GrantedCeiling(l, q)
                 && x.maxCalls == (if q.maxCalls == 0 then Max(1, l.cfg.callsPerWorker) else Max(1, q.maxCalls))
                 && x.maxOutput == (if q.maxOutput == 0 then 4096 else Max(1, q.maxOutput))
                 && x.used == x.inFlight == x.calls == x.finalCalls == 0)
              && l' == l.(leases := l'.leases, nextLease := l.nextLease + 1)
  {
  }

  /** Releasing a lease ends every reservation of its task at the cost of a call
      slot each, and of no tokens ... */
  lemma LeaseReleaseBooks(l: Ledger, i: nat, now: real)
    requires Inv(l) && i < |l.leases|
    ensures var task, l' := l.leases[i].task, Step(l, ReleaseLease(l.leases[i].id), now);
            && (forall r :: r in l'.live <==> r in l.live && r.task != task)
            && l'.calls + |l'.live| == l.calls + |l.live|
            && l'.used == l.used && l'.tools == l.tools
  {
    LeaseIs(l, i);
    WithoutMembers(l.live, l.leases[i].task);
    WithoutOnly(l.live, l.leases[i].task, TokensOf());
  }

  /** ... the lease goes, and of the others only those of its task change, which
      have nothing in flight any more. */
  lemma LeaseReleaseLeaves(l: Ledger, i: nat, now: real, j: nat)
    requires Inv(l) && i < |l.leases| && j < |l.leases| - 1
    ensures var task, l' := l.leases[i].task, Step(l, ReleaseLease(l.leases[i].id), now);
            var x := l.leases[if j < i then j else j + 1];
            && |l'.leases| == |l.leases| - 1
            && l'.leases[j] == if task != "" && x.task == task then x.(inFlight := 0) else x
  {
    LeaseIs(l, i);
    var task, rest := l.leases[i].task, RemoveAt(l.leases, i);
    FirstOfSpec(rest, task);
    if task != "" && rest[j].task == task {
      NothingLeftInFlight(l, i, now);
      assert Step(l, ReleaseLease(l.leases[i].id), now).leases[j] in Step(l, ReleaseLease(l.leases[i].id), now).leases;
    }
  }

  lemma LeaseIs(l: Ledger, i: nat)
    requires Inv(l) && i < |l.leases|
    ensures LeaseIndex(l.leases, l.leases[i].id) == i
  {
    FirstIndexIsFirst(l.leases, WithLeaseId(l.leases[i].id));
  }

  lemma NothingLeftInFlight(l: Ledger, i: nat, now: real)
    requires Inv(l) && i < |l.leases| && l.leases[i].task != ""
    ensures var l' := Step(l, ReleaseLease(l.leases[i].id), now);
            forall x :: x in l'.leases && x.task == l.leases[i].task ==> x.inFlight == 0
  {
    var l', task := Step(l, ReleaseLease(l.leases[i].id), now), l.leases[i].task;
    LeaseIs(l, i);
    StepKeepsInv(l, ReleaseLease(l.leases[i].id), now);
    WithoutTaskIsZero(l.live, task);
    forall x | x in l'.leases && x.task == task
      ensures x.inFlight == 0
    {
      var j :| 0 <= j < |l'.leases| && l'.leases[j] == x;
      assert CarriedAt(l'.leases, l'.live, j);
    }
  }

  /** One more call, once per lease, while the run has a free slot. */
  lemma FinalizationIs(l: Ledger, task: string)
    requires Inv(l)
    ensures GrantAllowed(l, task)
       <==> SlotFree(l) && exists i: nat :: IsFirst(l.leases, task, i) && l.leases[i].finalCalls == 0
    ensures !GrantAllowed(l, task) ==> AfterGrant(l, task) == l
    ensures GrantAllowed(l, task) ==>
              var i, l' := FirstOf(l.leases, task), AfterGrant(l, task);
              && i < |l.leases| && l' == l.(leases := l'.leases)
              && l'.leases == l.leases[i := l.leases[i].(maxCalls := l.leases[i].maxCalls + 1, finalCalls := 1)]
  {
    FirstIs(l.leases, task);
  }

  // ------------------------------------------------- tools, usage, exhaustion

  lemma ToolsBook(l: Ledger, count: int, now: real)
    ensures var n, l' := if count > 1 then count else 1, Step(l, ReserveTools(count), now);
            && (ToolsRefused(l, count) <==> l.toolLimit > 0 && l.tools + n > l.toolLimit)
            && l'.tools == (if ToolsRefused(l, count) then l.tools else l.tools + n)
            && (ToolsRefused(l, count) ==> l' == l)
            && l' == l.(tools := l'.tools, force := l'.force)
  {
  }

  lemma UsageBooks(l: Ledger, used: int, calls: int, tools: int, now: real)
    ensures var l' := Step(l, SyncUsage(used, calls, tools), now);
            && l'.used >= used && l'.calls >= calls && l'.tools >= tools
            && (l'.used == l.used || l'.used == used > l.used)
            && (l'.calls == l.calls || l'.calls == calls > l.calls)
            && (l'.tools == l.tools || l'.tools == tools > l.tools)
            && l'.live == l.live && l'.leases == l.leases
    ensures forall limit: int ::
              var l' := Step(l, CapTools(limit), now);
              l'.toolLimit == if limit > 0 && (l.toolLimit == 0 || limit < l.toolLimit) then limit else l.toolLimit
    ensures forall n: int :: Step(l, CommitTokens(n), now).used == if n > 0 then l.used + n else l.used
    ensures Step(l, NoteCall, now).calls == l.calls + 1
  {
  }

  /** The budget is exhausted if and only if the research cap, the call limit or the
      tool limit is reached by committed usage, or the time for synthesis has come. */
  lemma ExhaustedIff(l: Ledger, now: real)
    requires l.cfg.Valid()
    ensures Exhausted(l, now)
       <==> || (l.cfg.tokenLimit > 0 && l.used >= l.cfg.capResearch)
            || (l.cfg.callLimit > 0 && l.calls >= l.cfg.callLimit)
            || (l.toolLimit > 0 && l.tools >= l.toolLimit)
            || (l.cfg.deadline > 0.0 && now + l.cfg.synthesisReserve >= l.cfg.started + l.cfg.deadline)
    ensures Step(l, QueryForce, now).force <==> l.force || Exhausted(l, now)
  {
    ExhaustedIsMustSynthesize(l, now);
  }

  predicate TimeUp(cfg: Config, now: real) { cfg.deadline > 0.0 && now >= cfg.started + cfg.deadline }

  predicate SynthesisTime(cfg: Config, now: real) {
    cfg.deadline > 0.0 && now + cfg.synthesisReserve >= cfg.started + cfg.deadline
  }

  /** The reason a lease is refused: the first of these that holds, usage in flight
      counted. */
  lemma LeaseReasonIs(l: Ledger, q: LeaseRequest, now: real)
    requires Inv(l)
    ensures var total := l.used + Held(l);
            LeaseOutcome(l, q, now)
            == if l.cfg.tokenLimit > 0 && total >= l.cfg.tokenLimit then Refused(RunTokenCap)
               else if l.cfg.tokenLimit > 0
                       && total >= (if q.stage.Repair? then l.cfg.capRepair else l.cfg.capResearch)
               then Refused(ResearchTokenCap)
               else if !SlotFree(l) then Refused(RunCallCap)
               else if l.toolLimit > 0 && l.tools >= l.toolLimit then Refused(ToolCap)
               else if TimeUp(l.cfg, now) then Refused(DeadlineExceeded)
               else if SynthesisTime(l.cfg, now) then Refused(SynthesisTimeReserve)
               else Granted(l.nextLease)
  {
    ReservedIsLive(l);
  }

  /** The same reasons for exhaustion, usage in flight not counted. */
  lemma ExhaustionReasonIs(l: Ledger, now: real)
    requires l.cfg.Valid()
    ensures ExhaustionReason(l, now)
         == if l.cfg.tokenLimit > 0 && l.used >= l.cfg.tokenLimit then Some(RunTokenCap)
            else if l.cfg.tokenLimit > 0 && l.used >= l.cfg.capResearch then Some(ResearchTokenCap)
            else if l.cfg.callLimit > 0 && l.calls >= l.cfg.callLimit then Some(RunCallCap)
            else if l.toolLimit > 0 && l.tools >= l.toolLimit then Some(ToolCap)
            else if TimeUp(l.cfg, now) then Some(DeadlineExceeded)
            else if SynthesisTime(l.cfg, now) then Some(SynthesisTimeReserve)
            else None
  {
  }

  /** The operations that look at the budget again when they end. */
  predicate LooksAgain(l: Ledger, op: Op) {
    match op
    case ReleaseLease(id) => exists x :: x in l.leases && x.id == id
    case CommitCall(id, _) => exists r :: r in l.live && r.id == id
    case ReserveTools(count) => !ToolsRefused(l, count)
    case CapTools(limit) => limit > 0 && (l.toolLimit == 0 || limit < l.toolLimit)
    case SyncUsage(_, _, _) => true
    case CommitTokens(_) => true
    case NoteCall => true
    case QueryForce => true
    case _ => false
  }

  lemma LooksAgainIs(l: Ledger, op: Op, now: real) returns (before: Ledger)
    ensures LooksAgain(l, op) ==>
              before.force == l.force && before.cfg == l.cfg && Step(l, op, now) == Refresh(before, now)
    ensures !LooksAgain(l, op) ==> Step(l, op, now).force == (l.force || op.MarkForce?)
  {
    before := l;
    match op
    case ReleaseLease(id) =>
      FirstIndexIsFirst(l.leases, WithLeaseId(id));
      var i := LeaseIndex(l.leases, id);
      if i < |l.leases| {
        before := ReleaseTask(l.(leases := RemoveAt(l.leases, i)), l.leases[i].task);
      }
    case CommitCall(id, actual) =>
      LiveIndexSpec(l.live, id);
      var k := LiveIndex(l.live, id);
      if k < |l.live| {
        before := Settle(l, k, ActualTokens(actual, l.live[k].tokens));
      }
    case ReserveTools(count) => before := l.(tools := l.tools + Max(1, OrElse(count, 1)));
    case CapTools(limit) => before := l.(toolLimit := Max0(limit));
    case SyncUsage(used, calls, tools) =>
      before := l.(used := Max(l.used, used), calls := Max(l.calls, calls), tools := Max(l.tools, tools));
    case CommitTokens(tokens) => before := l.(used := l.used + Max0(tokens));
    case NoteCall => before := l.(calls := l.calls + 1);
    case _ =>
  }

  /** The flag is up if it was, if it is raised by hand, or if an operation that
      looks at the budget leaves it exhausted. */
  lemma FlagIs(l: Ledger, op: Op, now: real)
    requires l.cfg.Valid()
    ensures var l' := Step(l, op, now);
            l'.force <==> l.force || op.MarkForce? || (LooksAgain(l, op) && Exhausted(l', now))
  {
    var before := LooksAgainIs(l, op, now);
    if LooksAgain(l, op) {
      ExhaustedIsMustSynthesize(Refresh(before, now), now);
    }
  }
}
