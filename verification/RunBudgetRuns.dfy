/** Whole runs of the ledger: conservation, protected shares, reserves, call
    slots and exhaustion, for every finite sequence of operations. */
module RunBudgetRuns {
  import opened Common
  import opened Sums
  import opened RunBudget
  import opened RunBudgetInvariant

  /** A run: construction followed by operations, each with its clock reading. */
  datatype Trace = Start(cfg: Config, tools: nat) | Then(before: Trace, op: Op, now: real)

  function State(t: Trace): Ledger {
    match t
    case Start(cfg, tools) => InitialLedger(cfg, tools)
    case Then(before, op, now) => Step(State(before), op, now)
  }

  predicate Constructed(t: Trace) {
    match t
    case Start(cfg, _) => cfg.Valid()
    case Then(before, _, _) => Constructed(before)
  }

  function ConfigOf(t: Trace): Config {
    match t
    case Start(cfg, _) => cfg
    case Then(before, _, _) => ConfigOf(before)
  }

  predicate Continues(t0: Trace, t: Trace) {
    t == t0 || (t.Then? && Continues(t0, t.before))
  }

  /** The representation invariant holds in every reachable state. */
  lemma {:induction false} InvariantHolds(t: Trace)
    requires Constructed(t)
    ensures Inv(State(t)) && State(t).cfg == ConfigOf(t)
  {
    match t
    case Start(_, _) =>
    case Then(before, op, now) =>
      InvariantHolds(before);
      StepKeepsInv(State(before), op, now);
      StepKeepsConfig(State(before), op, now);
  }

  // ------------------------------------------------------------------ audit

  /** The share of the run budget a reservation is charged to. */
  datatype Share = ResearchShare | RepairShare | ProtectedShare

  function ShareOf(leases: seq<Lease>, r: Reservation): Share {
    if !IsResearchPhase(r.phase) then ProtectedShare
    else if StageOf(leases, r.task).Repair? then RepairShare
    else ResearchShare
  }

  datatype Totals = Totals(research: nat, repair: nat, protected: nat) {
    function Add(share: Share, n: nat): Totals {
      match share
      case ResearchShare => this.(research := research + n)
      case RepairShare => this.(repair := repair + n)
      case ProtectedShare => this.(protected := protected + n)
    }

    function Sum(): nat { research + repair + protected }
  }

  /** Totals over a run: tokens spent by commits and overruns of commits over
      their estimates, per share; usage and calls booked without a reservation;
      reservations granted. */
  datatype Audit = Audit(spent: Totals, over: Totals, outside: nat, outsideCalls: nat, granted: nat, settled: nat)

  /** What a commit reports: `actual` tokens, the estimate if it reports none, and
      one token if it reports a negative number. */
  function Reported(actual: int, estimate: nat): nat {
    if actual >= 1 then actual else if actual == 0 && estimate >= 1 then estimate else 1
  }

  function AuditStep(l: Ledger, op: Op, a: Audit): Audit {
    match op
    case CommitCall(id, actual) =>
      var k := LiveIndex(l.live, id);
      if k == |l.live| then a
      else
        var r := l.live[k];
        var spent := Reported(actual, r.tokens);
        a.(spent := a.spent.Add(ShareOf(l.leases, r), spent),
           over := a.over.Add(ShareOf(l.leases, r), Max0(spent - r.tokens)),
           settled := a.settled + 1)
    case ReleaseCall(id) => if LiveIndex(l.live, id) == |l.live| then a else a.(settled := a.settled + 1)
    case ReleaseLease(id) =>
      var i := LeaseIndex(l.leases, id);
      if i == |l.leases| then a else a.(settled := a.settled + |Only(l.live, l.leases[i].task)|)
    case ReserveCall(estimate, task, phase) =>
      if CallRefusal(l, estimate, task, phase).Some? then a else a.(granted := a.granted + 1)
    case SyncUsage(used, calls, _) =>
      a.(outside := a.outside + Max0(used - l.used), outsideCalls := a.outsideCalls + Max0(calls - l.calls))
    case CommitTokens(tokens) => a.(outside := a.outside + Max0(tokens))
    case NoteCall => a.(outsideCalls := a.outsideCalls + 1)
    case _ => a
  }

  function AuditOf(t: Trace): Audit {
    match t
    case Start(_, _) => Audit(Totals(0, 0, 0), Totals(0, 0, 0), 0, 0, 0, 0)
    case Then(before, op, _) => AuditStep(State(before), op, AuditOf(before))
  }

  // ----------------------------------------------------------- live shares

  function ShareTokensOf(leases: seq<Lease>, share: Share): Reservation -> nat {
    (r: Reservation) => if ShareOf(leases, r) == share then r.tokens else 0
  }

  /** Live estimates per share. */
  function LiveShares(leases: seq<Lease>, live: seq<Reservation>): Totals {
    Totals(SumBy(live, ShareTokensOf(leases, ResearchShare)),
           SumBy(live, ShareTokensOf(leases, RepairShare)),
           SumBy(live, ShareTokensOf(leases, ProtectedShare)))
  }

  function NotResearchTokensOf(leases: seq<Lease>): Reservation -> nat {
    (r: Reservation) => if ShareOf(leases, r) == ResearchShare then 0 else r.tokens
  }

  lemma SharesPartitionLive(leases: seq<Lease>, live: seq<Reservation>)
    ensures LiveShares(leases, live).Sum() == SumBy(live, TokensOf())
  {
    SumSplitsInto(live, TokensOf(), ShareTokensOf(leases, ResearchShare), NotResearchTokensOf(leases));
    SumSplitsInto(live, NotResearchTokensOf(leases),
                  ShareTokensOf(leases, RepairShare), ShareTokensOf(leases, ProtectedShare));
  }

  lemma SharesFrame(leases: seq<Lease>, leases': seq<Lease>, live: seq<Reservation>)
    requires forall r :: r in live ==> StageOf(leases, r.task) == StageOf(leases', r.task)
    ensures LiveShares(leases, live) == LiveShares(leases', live)
  {
    SumFrame(live, ShareTokensOf(leases, ResearchShare), ShareTokensOf(leases', ResearchShare));
    SumFrame(live, ShareTokensOf(leases, RepairShare), ShareTokensOf(leases', RepairShare));
    SumFrame(live, ShareTokensOf(leases, ProtectedShare), ShareTokensOf(leases', ProtectedShare));
  }

  lemma SharesAppend(leases: seq<Lease>, live: seq<Reservation>, r: Reservation)
    ensures LiveShares(leases, live + [r]) == LiveShares(leases, live).Add(ShareOf(leases, r), r.tokens)
  {
    SumAppend(live, r, ShareTokensOf(leases, ResearchShare));
    SumAppend(live, r, ShareTokensOf(leases, RepairShare));
    SumAppend(live, r, ShareTokensOf(leases, ProtectedShare));
  }

  lemma SharesRemove(leases: seq<Lease>, live: seq<Reservation>, k: nat)
    requires k < |live|
    ensures LiveShares(leases, live)
         == LiveShares(leases, RemoveAt(live, k)).Add(ShareOf(leases, live[k]), live[k].tokens)
  {
    SumRemove(live, k, ShareTokensOf(leases, ResearchShare));
    SumRemove(live, k, ShareTokensOf(leases, RepairShare));
    SumRemove(live, k, ShareTokensOf(leases, ProtectedShare));
  }

  predicate Within(a: Totals, b: Totals) {
    a.research <= b.research && a.repair <= b.repair && a.protected <= b.protected
  }

  lemma SharesWithout(leases: seq<Lease>, live: seq<Reservation>, task: string)
    ensures Within(LiveShares(leases, Without(live, task)), LiveShares(leases, live))
  {
    WithoutOnly(live, task, ShareTokensOf(leases, ResearchShare));
    WithoutOnly(live, task, ShareTokensOf(leases, RepairShare));
    WithoutOnly(live, task, ShareTokensOf(leases, ProtectedShare));
  }

  // ------------------------------------------------ stages do not change

  lemma StageSame(a: seq<Lease>, b: seq<Lease>, task: string)
    requires |a| == |b|
    requires forall i :: 0 <= i < |a| ==> a[i].task == b[i].task && a[i].stage == b[i].stage
    ensures StageOf(a, task) == StageOf(b, task)
  {
    SameTasksSameFirst(a, b, task);
  }

  lemma StageAfterAppend(leases: seq<Lease>, x: Lease, task: string)
    requires FirstOf(leases, task) < |leases| || task == ""
    ensures StageOf(leases, task) == StageOf(leases + [x], task)
  {
    FirstAfterAppend(leases, x, task);
  }

  lemma StageAfterRemove(leases: seq<Lease>, i: nat, task: string)
    requires i < |leases| && leases[i].task != task
    ensures StageOf(leases, task) == StageOf(RemoveAt(leases, i), task)
  {
    FirstOfSpec(leases, task);
    FirstAfterRemove(leases, i, task);
  }

  // ------------------------------------------------------------ the balance

  /** What the audit says about the ledger after any run. */
  predicate Balanced(l: Ledger, a: Audit) {
    Counted(l, a) && (l.cfg.tokenLimit > 0 ==> Capped(l.cfg, a, LiveShares(l.leases, l.live)))
  }

  /** The counts and the used tokens of the balance. */
  predicate Counted(l: Ledger, a: Audit) {
    && l.used == a.spent.Sum() + a.outside
    && l.calls == a.settled + a.outsideCalls
    && a.granted == a.settled + |l.live|
    && (l.cfg.callLimit > 0 ==> l.calls + |l.live| <= l.cfg.callLimit + a.outsideCalls)
  }

  predicate Capped(cfg: Config, a: Audit, live: Totals) {
    && a.spent.Sum() + live.Sum() <= cfg.tokenLimit + a.over.Sum()
    && a.spent.research + live.research <= cfg.capResearch + a.over.research
    && a.spent.research + live.research + a.spent.repair + live.repair
       <= cfg.capRepair + a.over.research + a.over.repair
  }

  lemma NewLeaseBalanced(l: Ledger, q: LeaseRequest, now: real, a: Audit)
    requires Inv(l) && Balanced(l, a)
    ensures Balanced(AfterLease(l, q, now), a)
  {
    var x := NewLease(l, q);
    forall r | r in l.live
      ensures StageOf(l.leases, r.task) == StageOf(l.leases + [x], r.task)
    {
      if r.task != "" {
        BackedMember(l.leases, l.live, r);
      }
      StageAfterAppend(l.leases, x, r.task);
    }
    SharesFrame(l.leases, l.leases + [x], l.live);
  }

  lemma AdmissionShares(l: Ledger, estimate: int, task: string, phase: string)
    requires CallRefusal(l, estimate, task, phase).None?
    ensures var l', r := AfterCall(l, estimate, task, phase), NewReservation(l, estimate, task, phase);
            LiveShares(l'.leases, l'.live) == LiveShares(l.leases, l.live).Add(ShareOf(l.leases, r), r.tokens)
  {
    var l', r := AfterCall(l, estimate, task, phase), NewReservation(l, estimate, task, phase);
    forall q | q in l'.live
      ensures StageOf(l.leases, q.task) == StageOf(l'.leases, q.task)
    {
      StageSame(l.leases, l'.leases, q.task);
    }
    SharesFrame(l.leases, l'.leases, l'.live);
    SharesAppend(l.leases, l.live, r);
  }

  /** Adding a reservation that fits keeps the shares within their caps. */
  lemma CappedGrows(cfg: Config, a: Audit, live: Totals, share: Share, n: nat)
    requires cfg.Valid() && Capped(cfg, a, live)
    requires a.spent.Sum() + live.Sum() + n <= cfg.tokenLimit + a.over.Sum()
    requires share.ResearchShare? ==> a.spent.Sum() + live.Sum() + n <= cfg.capResearch + a.over.research
    requires share.RepairShare? ==> a.spent.Sum() + live.Sum() + n <= cfg.capRepair + a.over.research + a.over.repair
    ensures Capped(cfg, a, live.Add(share, n))
  {
  }

  /** What an admitted call leaves below the caps, in terms of the audit. */
  lemma AdmittedFits(l: Ledger, estimate: int, task: string, phase: string, a: Audit)
    requires Inv(l) && Balanced(l, a) && l.cfg.tokenLimit > 0 && CallRefusal(l, estimate, task, phase).None?
    ensures var live := LiveShares(l.leases, l.live);
            var share := ShareOf(l.leases, NewReservation(l, estimate, task, phase));
            var all := a.spent.Sum() + live.Sum() + CallTokens(estimate);
            && all <= l.cfg.tokenLimit
            && (share.ResearchShare? ==> all <= l.cfg.capResearch)
            && (share.RepairShare? ==> all <= l.cfg.capRepair)
  {
    var live := LiveShares(l.leases, l.live);
    assert EffectiveReserved(l) == live.Sum() by {
      ReservedIsLive(l);
      SharesPartitionLive(l.leases, l.live);
    }
    assert l.used >= a.spent.Sum();
    AdmittedWithinCaps(l, estimate, task, phase);
  }

  lemma AdmissionCounted(l: Ledger, estimate: int, task: string, phase: string, a: Audit)
    requires l.reservedCalls == |l.live| && Counted(l, a) && CallRefusal(l, estimate, task, phase).None?
    ensures Counted(AfterCall(l, estimate, task, phase), a.(granted := a.granted + 1))
  {
  }

  lemma AdmissionBalanced(l: Ledger, estimate: int, task: string, phase: string, a: Audit)
    requires Inv(l) && Balanced(l, a) && CallRefusal(l, estimate, task, phase).None?
    ensures Balanced(AfterCall(l, estimate, task, phase), a.(granted := a.granted + 1))
  {
    AdmissionCounted(l, estimate, task, phase, a);
    AdmissionShares(l, estimate, task, phase);
    if l.cfg.tokenLimit > 0 {
      AdmittedFits(l, estimate, task, phase, a);
      var share := ShareOf(l.leases, NewReservation(l, estimate, task, phase));
      CappedGrows(l.cfg, a, LiveShares(l.leases, l.live), share, CallTokens(estimate));
    }
  }

  /** An admitted call fits under the run limit, and a research call under the
      cap of its stage. */
  lemma AdmittedWithinCaps(l: Ledger, estimate: int, task: string, phase: string)
    requires l.cfg.tokenLimit > 0 && CallRefusal(l, estimate, task, phase).None?
    ensures l.used + EffectiveReserved(l) + CallTokens(estimate) <= l.cfg.tokenLimit
    ensures IsResearchPhase(Lower(phase)) ==>
              l.used + EffectiveReserved(l) + CallTokens(estimate) <= StageCap(l.cfg, StageOf(l.leases, task))
  {
  }

  lemma SettleShares(l: Ledger, k: nat, spent: nat)
    requires k < |l.live|
    ensures var l' := Settle(l, k, spent);
            LiveShares(l.leases, l.live)
              == LiveShares(l'.leases, l'.live).Add(ShareOf(l.leases, l.live[k]), l.live[k].tokens)
  {
    var l' := Settle(l, k, spent);
    forall q | q in l'.live
      ensures StageOf(l.leases, q.task) == StageOf(l'.leases, q.task)
    {
      StageSame(l.leases, l'.leases, q.task);
    }
    SharesFrame(l.leases, l'.leases, l'.live);
    SharesRemove(l.leases, l.live, k);
  }

  /** What a commit spends beyond its estimate is an overrun of its share. */
  lemma CappedSettles(cfg: Config, a: Audit, live: Totals, share: Share, estimate: nat, spent: nat)
    requires Capped(cfg, a, live.Add(share, estimate))
    ensures Capped(cfg, Spending(a, share, estimate, spent), live)
  {
  }

  lemma CommitCounted(l: Ledger, k: nat, spent: nat, share: Share, over: Totals, now: real, a: Audit)
    requires Counted(l, a) && k < |l.live|
    ensures Counted(Refresh(Settle(l, k, spent), now),
                    a.(spent := a.spent.Add(share, spent), over := over, settled := a.settled + 1))
  {
  }

  /** The audit of a commit that spent this much. */
  function Spending(a: Audit, share: Share, estimate: nat, spent: nat): Audit {
    a.(spent := a.spent.Add(share, spent), over := a.over.Add(share, Max0(spent - estimate)), settled := a.settled + 1)
  }

  lemma SpendingBalanced(l: Ledger, k: nat, spent: nat, now: real, a: Audit)
    requires Balanced(l, a) && k < |l.live|
    ensures Balanced(Refresh(Settle(l, k, spent), now),
                     Spending(a, ShareOf(l.leases, l.live[k]), l.live[k].tokens, spent))
  {
    var r, l' := l.live[k], Settle(l, k, spent);
    var share := ShareOf(l.leases, r);
    CommitCounted(l, k, spent, share, a.over.Add(share, Max0(spent - r.tokens)), now, a);
    if l.cfg.tokenLimit > 0 {
      SettleShares(l, k, spent);
      CappedSettles(l.cfg, a, LiveShares(l'.leases, l'.live), share, r.tokens, spent);
    }
  }

  lemma CommitIs(l: Ledger, id: nat, actual: int, now: real)
    ensures var k := LiveIndex(l.live, id);
            AfterCommit(l, id, actual, now)
            == if k == |l.live| then l else Refresh(Settle(l, k, Reported(actual, l.live[k].tokens)), now)
  {
  }

  lemma CommitBalanced(l: Ledger, id: nat, actual: int, now: real, a: Audit)
    requires Balanced(l, a)
    ensures Balanced(AfterCommit(l, id, actual, now), AuditStep(l, CommitCall(id, actual), a))
  {
    var k := LiveIndex(l.live, id);
    CommitIs(l, id, actual, now);
    if k < |l.live| {
      SpendingBalanced(l, k, Reported(actual, l.live[k].tokens), now, a);
    }
  }

  lemma ReleaseBalanced(l: Ledger, id: nat, a: Audit)
    requires Balanced(l, a)
    ensures Balanced(AfterRelease(l, id), AuditStep(l, ReleaseCall(id), a))
  {
    var k := LiveIndex(l.live, id);
    if k < |l.live| {
      SettleShares(l, k, 0);
    }
  }

  lemma LeaseReleaseShares(l: Ledger, i: nat)
    requires i < |l.leases|
    ensures var task := l.leases[i].task;
            var l' := ReleaseTask(l.(leases := RemoveAt(l.leases, i)), task);
            Within(LiveShares(l'.leases, l'.live), LiveShares(l.leases, l.live))
  {
    var task, rest := l.leases[i].task, RemoveAt(l.leases, i);
    var l' := ReleaseTask(l.(leases := rest), task);
    WithoutMembers(l.live, task);
    forall r | r in l'.live
      ensures StageOf(l.leases, r.task) == StageOf(l'.leases, r.task)
    {
      StageAfterRemove(l.leases, i, r.task);
      StageSame(rest, l'.leases, r.task);
    }
    SharesFrame(l.leases, l'.leases, l'.live);
    SharesWithout(l.leases, l.live, task);
  }

  lemma LeaseReleaseBalanced(l: Ledger, id: nat, now: real, a: Audit)
    requires Balanced(l, a)
    ensures Balanced(AfterLeaseRelease(l, id, now), AuditStep(l, ReleaseLease(id), a))
  {
    var i := LeaseIndex(l.leases, id);
    if i < |l.leases| {
      LeaseReleaseShares(l, i);
      WithoutOnly(l.live, l.leases[i].task, TokensOf());
    }
  }

  lemma GrantBalanced(l: Ledger, task: string, a: Audit)
    requires Balanced(l, a)
    ensures Balanced(AfterGrant(l, task), a)
  {
    var l' := AfterGrant(l, task);
    forall r | r in l.live
      ensures StageOf(l.leases, r.task) == StageOf(l'.leases, r.task)
    {
      StageSame(l.leases, l'.leases, r.task);
    }
    SharesFrame(l.leases, l'.leases, l.live);
  }

  /** Steps that touch neither leases nor reservations. */
  lemma OtherStepBalanced(l: Ledger, op: Op, now: real, a: Audit)
    requires Balanced(l, a)
    requires op.ReserveTools? || op.CapTools? || op.SyncUsage? || op.CommitTokens? || op.NoteCall?
          || op.MarkForce? || op.QueryForce?
    ensures Balanced(Step(l, op, now), AuditStep(l, op, a))
  {
    var l' := Step(l, op, now);
    assert l'.leases == l.leases && l'.live == l.live && l'.cfg == l.cfg;
  }

  lemma StepBalanced(l: Ledger, op: Op, now: real, a: Audit)
    requires Inv(l) && Balanced(l, a)
    ensures Balanced(Step(l, op, now), AuditStep(l, op, a))
  {
    match op
    case ReserveLease(q) => NewLeaseBalanced(l, q, now, a);
    case ReleaseLease(id) => LeaseReleaseBalanced(l, id, now, a);
    case GrantFinalization(task) => GrantBalanced(l, task, a);
    case ReserveCall(estimate, task, phase) =>
      if CallRefusal(l, estimate, task, phase).None? {
        AdmissionBalanced(l, estimate, task, phase, a);
      }
    case CommitCall(id, actual) => CommitBalanced(l, id, actual, now, a);
    case ReleaseCall(id) => ReleaseBalanced(l, id, a);
    case _ => OtherStepBalanced(l, op, now, a);
  }

  lemma {:induction false} RunBalanced(t: Trace)
    requires Constructed(t)
    ensures Balanced(State(t), AuditOf(t))
  {
    match t
    case Start(_, _) =>
    case Then(before, op, now) =>
      RunBalanced(before);
      InvariantHolds(before);
      StepBalanced(State(before), op, now, AuditOf(before));
  }

  // -------------------------------------------------------- main theorems

  /** Token conservation.  Used tokens are exactly what commits spent plus what
      was booked without a reservation, and used plus reserved tokens pass the
      hard cap by no more than commits overran their estimates. */
  lemma TokenConservation(t: Trace)
    requires Constructed(t)
    ensures State(t).used == AuditOf(t).spent.Sum() + AuditOf(t).outside
    ensures EffectiveReserved(State(t)) == SumBy(State(t).live, TokensOf())
    ensures ConfigOf(t).tokenLimit > 0 ==>
              State(t).used + EffectiveReserved(State(t))
              <= ConfigOf(t).tokenLimit + AuditOf(t).over.Sum() + AuditOf(t).outside
  {
    RunBalanced(t);
    InvariantHolds(t);
    ReservedIsLive(State(t));
    SharesPartitionLive(State(t).leases, State(t).live);
  }

  /** Tokens charged to a share: spent by settled calls, reserved by live ones. */
  function ChargedIn(l: Ledger, a: Audit): Totals {
    var live := LiveShares(l.leases, l.live);
    Totals(a.spent.research + live.research, a.spent.repair + live.repair, a.spent.protected + live.protected)
  }

  function Charged(t: Trace): Totals { ChargedIn(State(t), AuditOf(t)) }

  lemma BalancedShares(l: Ledger, a: Audit)
    requires Inv(l) && Balanced(l, a) && l.cfg.tokenLimit > 0
    ensures l.used + EffectiveReserved(l) == ChargedIn(l, a).Sum() + a.outside
    ensures ChargedIn(l, a).research <= l.cfg.capResearch + a.over.research
    ensures ChargedIn(l, a).research + ChargedIn(l, a).repair <= l.cfg.capRepair + a.over.research + a.over.repair
  {
    ReservedIsLive(l);
    SharesPartitionLive(l.leases, l.live);
  }

  /** Research calls stay inside the research share, research and repair calls
      together inside the repair ceiling, up to their own overruns. */
  lemma ResearchStaysInItsShare(t: Trace)
    requires Constructed(t) && ConfigOf(t).tokenLimit > 0
    ensures State(t).used + EffectiveReserved(State(t)) == Charged(t).Sum() + AuditOf(t).outside
    ensures Charged(t).research <= ConfigOf(t).capResearch + AuditOf(t).over.research
    ensures Charged(t).research + Charged(t).repair
         <= ConfigOf(t).capRepair + AuditOf(t).over.research + AuditOf(t).over.repair
  {
    var l, a := State(t), AuditOf(t);
    assert Inv(l) && Balanced(l, a) && l.cfg == ConfigOf(t) by {
      RunBalanced(t);
      InvariantHolds(t);
    }
    BalancedShares(l, a);
  }

  /** Whatever research did, a run-level request outside the research phases is
      not refused for tokens while it fits the protected rest of the budget. */
  lemma ProtectedShareIsAvailable(t: Trace, estimate: int, phase: string)
    requires Constructed(t) && ConfigOf(t).tokenLimit > 0
    requires !IsResearchPhase(Lower(phase))
    requires CallTokens(estimate) + Charged(t).protected + AuditOf(t).outside
             + AuditOf(t).over.research + AuditOf(t).over.repair
          <= ConfigOf(t).tokenLimit - ConfigOf(t).capRepair
    ensures CallRefusal(State(t), estimate, "", phase) in {None, Some(RunCallCap)}
  {
    ResearchStaysInItsShare(t);
    InvariantHolds(t);
  }

  /** Call slots: every granted reservation is live or settled exactly once,
      and settled plus live calls never pass the limit. */
  lemma CallSlotConservation(t: Trace)
    requires Constructed(t)
    ensures State(t).reservedCalls == |State(t).live|
    ensures State(t).calls == AuditOf(t).settled + AuditOf(t).outsideCalls
    ensures AuditOf(t).granted == AuditOf(t).settled + |State(t).live|
    ensures ConfigOf(t).callLimit > 0 ==>
              AuditOf(t).settled + |State(t).live| <= ConfigOf(t).callLimit
  {
    RunBalanced(t);
    InvariantHolds(t);
  }

  // ------------------------------------------------------ settled for good

  predicate IsLive(l: Ledger, id: nat) {
    exists k :: 0 <= k < |l.live| && l.live[k].id == id
  }

  lemma LiveIndexSpec(live: seq<Reservation>, id: nat)
    ensures LiveIndex(live, id) < |live| ==> live[LiveIndex(live, id)].id == id
    ensures LiveIndex(live, id) == |live| <==> forall k :: 0 <= k < |live| ==> live[k].id != id
  {
    FirstIndexIsFirst(live, WithId(id));
  }

  lemma NotLiveIn(l: Ledger, live: seq<Reservation>, id: nat)
    requires !IsLive(l, id) && forall r :: r in live ==> r in l.live
    ensures LiveIndex(live, id) == |live|
  {
    LiveIndexSpec(l.live, id);
    forall k | 0 <= k < |live|
      ensures live[k].id != id
    {
      assert live[k] in l.live;
    }
    LiveIndexSpec(live, id);
  }

  lemma SettlingRevivesNothing(l: Ledger, k: nat, spent: nat, id: nat)
    requires k < |l.live| && !IsLive(l, id)
    ensures !IsLive(Settle(l, k, spent), id)
  {
    RemoveAtMembers(l.live, k);
    NotLiveIn(l, RemoveAt(l.live, k), id);
  }

  lemma LeaseReleaseRevivesNothing(l: Ledger, lease: nat, now: real, id: nat)
    requires !IsLive(l, id)
    ensures !IsLive(AfterLeaseRelease(l, lease, now), id)
  {
    var i := LeaseIndex(l.leases, lease);
    if i < |l.leases| {
      WithoutMembers(l.live, l.leases[i].task);
      NotLiveIn(l, Without(l.live, l.leases[i].task), id);
    }
  }

  lemma CallRevivesNothing(l: Ledger, estimate: int, task: string, phase: string, id: nat)
    requires id < l.nextReservation && !IsLive(l, id)
    ensures !IsLive(AfterCall(l, estimate, task, phase), id)
  {
    var r := NewReservation(l, estimate, task, phase);
    LiveIndexSpec(l.live, id);
    LiveIndexSpec(l.live + [r], id);
  }

  /** A step makes no reservation live except a fresh one it grants. */
  lemma StepRevivesNothing(l: Ledger, op: Op, now: real, id: nat)
    requires id < l.nextReservation && !IsLive(l, id)
    ensures !IsLive(Step(l, op, now), id)
  {
    match op
    case ReserveCall(estimate, task, phase) => CallRevivesNothing(l, estimate, task, phase, id);
    case ReleaseLease(lease) => LeaseReleaseRevivesNothing(l, lease, now, id);
    case CommitCall(r, actual) =>
      var k := LiveIndex(l.live, r);
      if k < |l.live| {
        SettlingRevivesNothing(l, k, ActualTokens(actual, l.live[k].tokens), id);
      }
    case ReleaseCall(r) =>
      var k := LiveIndex(l.live, r);
      if k < |l.live| {
        SettlingRevivesNothing(l, k, 0, id);
      }
    case _ =>
  }

  /** Once settled, by commit, release or lease release, a reservation stays
      settled, and settling it again changes nothing. */
  lemma {:induction false} SettledOnce(t0: Trace, t: Trace, id: nat, actual: int, now: real)
    requires Continues(t0, t)
    requires id < State(t0).nextReservation && !IsLive(State(t0), id)
    ensures id < State(t).nextReservation && !IsLive(State(t), id)
    ensures Step(State(t), CommitCall(id, actual), now) == State(t)
    ensures Step(State(t), ReleaseCall(id), now) == State(t)
  {
    if t != t0 {
      SettledOnce(t0, t.before, id, actual, now);
      StepRevivesNothing(State(t.before), t.op, t.now, id);
      StepKeepsConfig(State(t.before), t.op, t.now);
    }
    LiveIndexSpec(State(t).live, id);
  }

  /** Settling a live reservation does settle it. */
  lemma SettlingEndsIt(l: Ledger, id: nat, actual: int, now: real)
    requires Inv(l) && IsLive(l, id)
    ensures !IsLive(Step(l, CommitCall(id, actual), now), id)
    ensures !IsLive(Step(l, ReleaseCall(id), now), id)
    ensures Step(l, CommitCall(id, actual), now).calls == l.calls + 1
    ensures Step(l, ReleaseCall(id), now).calls == l.calls + 1
    ensures Step(l, ReleaseCall(id), now).used == l.used
  {
    LiveIndexSpec(l.live, id);
    var k := LiveIndex(l.live, id);
    forall j | 0 <= j < |l.live| - 1
      ensures RemoveAt(l.live, k)[j].id != id
    {
      assert RemoveAt(l.live, k)[j] == l.live[if j < k then j else j + 1];
    }
  }

  // ------------------------------------------------------------ exhaustion

  /** The clock of a run never goes back. */
  predicate Ordered(t: Trace) {
    match t
    case Start(_, _) => true
    case Then(before, _, now) => Ordered(before) && (before.Then? ==> before.now <= now)
  }

  predicate Exhausted(l: Ledger, now: real) { ExhaustionReason(l, now).Some? }

  lemma ExhaustedIsMustSynthesize(l: Ledger, now: real)
    requires l.cfg.Valid()
    ensures Exhausted(l, now) <==> MustSynthesize(l, now)
  {
  }

  /** One step never takes a cause of exhaustion away. */
  lemma StepKeepsExhaustion(l: Ledger, op: Op, now: real, later: real)
    requires Inv(l) && now <= later && MustSynthesize(l, now)
    ensures MustSynthesize(Step(l, op, later), later)
  {
    StepKeepsConfig(l, op, later);
    RemainingShrinks(l.cfg, now, later);
    StepKeepsUsage(l, op, later);
  }

  lemma RemainingShrinks(cfg: Config, now: real, later: real)
    requires now <= later
    ensures RemainingResearch(cfg, now) <= 0.0 ==> RemainingResearch(cfg, later) <= 0.0
  {
  }

  /** Usage never falls, and a tool limit that is reached stays reached. */
  lemma StepKeepsUsage(l: Ledger, op: Op, now: real)
    requires Inv(l)
    ensures var l' := Step(l, op, now);
            && l'.used >= l.used && l'.calls >= l.calls && l'.tools >= l.tools
            && (l.toolLimit > 0 && l.tools >= l.toolLimit ==> l'.toolLimit > 0 && l'.tools >= l'.toolLimit)
  {
  }

  /** Exhaustion is absorbing: from then on, at any later time, the budget is
      exhausted, synthesis is forced, and no research lease is granted. */
  lemma {:induction false} ExhaustionIsAbsorbing(t0: Trace, t: Trace, now: real, request: LeaseRequest)
    requires Constructed(t) && Continues(t0, t) && Ordered(t)
    requires t0.Then? && Exhausted(State(t0), t0.now)
    requires t.now <= now && request.stage.Research?
    ensures Exhausted(State(t), t.now) && Exhausted(State(t), now)
    ensures Step(State(t), QueryForce, now).force
    ensures LeaseOutcome(State(t), request, now).Refused?
    ensures Step(State(t), ReserveLease(request), now) == State(t)
  {
    InvariantHolds(t);
    if t != t0 {
      ContinuesLater(t0, t.before);
      ExhaustionIsAbsorbing(t0, t.before, t.now, request);
      InvariantHolds(t.before);
      ExhaustedIsMustSynthesize(State(t.before), t.before.now);
      StepKeepsExhaustion(State(t.before), t.op, t.before.now, t.now);
    }
    ExhaustedIsMustSynthesize(State(t), t.now);
    ExhaustedIsMustSynthesize(State(t), now);
    ExhaustionBlocksResearch(State(t), now);
  }

  lemma {:induction false} ContinuesLater(t0: Trace, t: Trace)
    requires Continues(t0, t) && t0.Then?
    ensures t.Then?
  {
  }

  lemma ExhaustionBlocksResearch(l: Ledger, now: real)
    requires l.cfg.Valid() && MustSynthesize(l, now)
    ensures BlockReason(l, Research, now).Some?
  {
  }
}
