/** `RunBudgetManager` itself: the object whose methods update the ledger in
    place, each proved to be one step of the value model. */
module RunBudgetManager {
  import opened Common
  import opened Sums
  import opened RunBudget
  import opened RunBudgetInvariant
  import opened RunBudgetRuns

  lemma LeaseIndexIs(leases: seq<Lease>, id: nat, i: nat)
    requires i <= |leases| && forall j :: 0 <= j < i ==> leases[j].id != id
    requires i < |leases| ==> leases[i].id == id
    ensures LeaseIndex(leases, id) == i
  {
    FirstIndexIsFirst(leases, WithLeaseId(id));
  }

  lemma LiveIndexIs(live: seq<Reservation>, id: nat, i: nat)
    requires i <= |live| && forall j :: 0 <= j < i ==> live[j].id != id
    requires i < |live| ==> live[i].id == id
    ensures LiveIndex(live, id) == i
  {
    FirstIndexIsFirst(live, WithId(id));
  }

  /** Releasing, one by one, those of the first `k` reservations of `l` that
      were made for `task`. */
  function ReleaseFirst(l: Ledger, task: string, k: nat): Ledger
    requires k <= |l.live|
  {
    if k == 0 then l
    else if l.live[k - 1].task == task then AfterRelease(ReleaseFirst(l, task, k - 1), l.live[k - 1].id)
    else ReleaseFirst(l, task, k - 1)
  }

  /** The same, at once. */
  function ReleasedTo(l: Ledger, task: string, k: nat): Ledger
    requires k <= |l.live|
  {
    var mine := Only(l.live[..k], task);
    Dropped(l, task, SumBy(mine, TokensOf()), |mine|, Without(l.live[..k], task) + l.live[k..])
  }

  /** Two charges to the first lease of a task add up, also when clamped. */
  lemma SettleTwice(leases: seq<Lease>, task: string, a: nat, b: nat)
    ensures SettleLease(SettleLease(leases, task, a, 0), task, b, 0) == SettleLease(leases, task, a + b, 0)
  {
    FirstOfSpec(leases, task);
    SameTasksSameFirst(leases, SettleLease(leases, task, a, 0), task);
  }

  lemma DroppedOneMore(l: Ledger, task: string, tokens: nat, n: nat, live: seq<Reservation>, m: nat)
    requires m < |live| && live[m].task == task
    ensures Settle(Dropped(l, task, tokens, n, live), m, 0)
         == Dropped(l, task, tokens + live[m].tokens, n + 1, RemoveAt(live, m))
  {
    SettleTwice(l.leases, task, tokens, live[m].tokens);
  }

  /** What the filters do with one more reservation. */
  lemma OneMore(live: seq<Reservation>, task: string, k: nat)
    requires k < |live|
    ensures Only(live[..k + 1], task) == Only(live[..k], task) + (if live[k].task == task then [live[k]] else [])
    ensures Without(live[..k + 1], task) + live[k + 1..]
         == Without(live[..k], task) + (if live[k].task == task then live[k + 1..] else live[k..])
  {
    assert live[..k + 1][..k] == live[..k];
    assert live[k..] == [live[k]] + live[k + 1..];
  }

  /** Where that reservation is found. */
  lemma OneMorePlace(live: seq<Reservation>, task: string, k: nat, next: nat)
    requires k < |live| && LiveOk(live, next)
    ensures var kept := Without(live[..k], task);
            && LiveIndex(kept + live[k..], live[k].id) == |kept|
            && RemoveAt(kept + live[k..], |kept|) == kept + live[k + 1..]
  {
    var kept := Without(live[..k], task);
    WithoutMembers(live[..k], task);
    forall j | 0 <= j < |kept|
      ensures kept[j].id != live[k].id
    {
      assert kept[j] in live[..k];
    }
    LiveIndexIs(kept + live[k..], live[k].id, |kept|);
  }

  /** Releasing the reservation found at position `m`. */
  lemma ReleaseFound(l: Ledger, id: nat, m: nat)
    requires m < |l.live| && LiveIndex(l.live, id) == m
    ensures AfterRelease(l, id) == Settle(l, m, 0)
  {
  }

  lemma ReleasedToDrops(l: Ledger, task: string, k: nat)
    requires k < |l.live| && LiveOk(l.live, l.nextReservation) && l.live[k].task == task
    ensures AfterRelease(ReleasedTo(l, task, k), l.live[k].id) == ReleasedTo(l, task, k + 1)
  {
    var mine, kept := Only(l.live[..k], task), Without(l.live[..k], task);
    var held := kept + l.live[k..];
    OneMorePlace(l.live, task, k, l.nextReservation);
    ReleaseFound(ReleasedTo(l, task, k), l.live[k].id, |kept|);
    DroppedOneMore(l, task, SumBy(mine, TokensOf()), |mine|, held, |kept|);
    ReleasedToNext(l, task, k);
  }

  lemma ReleasedToNext(l: Ledger, task: string, k: nat)
    requires k < |l.live| && l.live[k].task == task
    ensures var mine, kept := Only(l.live[..k], task), Without(l.live[..k], task);
            ReleasedTo(l, task, k + 1)
            == Dropped(l, task, SumBy(mine, TokensOf()) + l.live[k].tokens, |mine| + 1, kept + l.live[k + 1..])
  {
    OneMore(l.live, task, k);
    SumAppend(Only(l.live[..k], task), l.live[k], TokensOf());
  }

  lemma ReleasedToSkips(l: Ledger, task: string, k: nat)
    requires k < |l.live| && l.live[k].task != task
    ensures ReleasedTo(l, task, k) == ReleasedTo(l, task, k + 1)
  {
    OneMore(l.live, task, k);
    assert Only(l.live[..k + 1], task) == Only(l.live[..k], task);
  }

  /** One by one or at once, the released ledger is the same. */
  lemma {:induction false} ReleaseFirstIsReleasedTo(l: Ledger, task: string, k: nat)
    requires k <= |l.live| && LiveOk(l.live, l.nextReservation)
    ensures ReleaseFirst(l, task, k) == ReleasedTo(l, task, k)
  {
    if k == 0 {
      NothingReleased(l, task);
    } else {
      ReleaseFirstIsReleasedTo(l, task, k - 1);
      if l.live[k - 1].task == task {
        ReleasedToDrops(l, task, k - 1);
      } else {
        ReleasedToSkips(l, task, k - 1);
      }
    }
  }

  lemma NothingReleased(l: Ledger, task: string)
    ensures ReleasedTo(l, task, 0) == l
  {
    assert l.live[..0] == [] && [] + l.live[0..] == l.live;
    FirstOfSpec(l.leases, task);
  }

  lemma ReleasingIsReleaseTask(l: Ledger, task: string)
    requires LiveOk(l.live, l.nextReservation)
    ensures ReleaseFirst(l, task, |l.live|) == ReleaseTask(l, task)
  {
    ReleaseFirstIsReleasedTo(l, task, |l.live|);
    assert l.live[..|l.live|] == l.live;
    assert Without(l.live, task) + l.live[|l.live|..] == Without(l.live, task);
  }

  /** A lease that is not blocked has room under both caps, so the two refusals
      for lack of room never come to pass. */
  lemma UnblockedHasRoom(l: Ledger, stage: Stage, now: real)
    requires BlockReason(l, stage, now).None?
    ensures l.cfg.tokenLimit > 0 ==> StageCap(l.cfg, stage) - l.used - WorkerReserved(l) > 0
    ensures l.cfg.tokenLimit > 0 ==> l.cfg.tokenLimit - l.used - l.reservedPlain - WorkerReserved(l) > 0
    ensures l.cfg.Valid() && StageCap(l.cfg, stage) > 0 ==> l.cfg.tokenLimit > 0
  {
  }

  class Manager {
    const cfg: Config
    var toolLimit: nat
    var used: nat
    var calls: nat
    var tools: nat
    var force: bool
    var reservedPlain: nat
    var reservedCalls: nat
    var leases: seq<Lease>
    var live: seq<Reservation>
    var nextLease: nat
    var nextReservation: nat

    ghost function View(): Ledger
      reads this
    {
      Ledger(cfg, toolLimit, used, calls, tools, force, reservedPlain, reservedCalls,
             leases, live, nextLease, nextReservation)
    }

    constructor (tokenLimit: int, callLimit: int, toolLimit: int, callsPerWorker: int, parallel: int,
                 researchShare: real, repairShare: real, started: real, deadline: real, synthesisReserve: real)
      ensures cfg == MakeConfig(tokenLimit, callLimit, callsPerWorker, parallel,
                                researchShare, repairShare, started, deadline, synthesisReserve)
      ensures View() == InitialLedger(cfg, Max0(toolLimit)) && Inv(View())
    {
      cfg := MakeConfig(tokenLimit, callLimit, callsPerWorker, parallel,
                        researchShare, repairShare, started, deadline, synthesisReserve);
      this.toolLimit := Max0(toolLimit);
      used, calls, tools, force := 0, 0, 0, false;
      reservedPlain, reservedCalls, leases, live := 0, 0, [], [];
      nextLease, nextReservation := 0, 0;
    }

    method ActiveWorkerReserved() returns (n: nat)
      ensures n == WorkerReserved(View())
    {
      n := 0;
      for i := 0 to |leases|
        invariant n == SumBy(leases[..i], InFlightOf())
      {
        assert leases[..i + 1] == leases[..i] + [leases[i]];
        SumAppend(leases[..i], leases[i], InFlightOf());
        n := n + leases[i].inFlight;
      }
      assert leases[..|leases|] == leases;
    }

    method FindLease(task: string) returns (i: nat)
      ensures i == FirstOf(leases, task)
    {
      i := 0;
      while i < |leases| && leases[i].task != task
        invariant i <= |leases|
        invariant forall j :: 0 <= j < i ==> leases[j].task != task
      {
        i := i + 1;
      }
      FirstOfIs(leases, task, i);
    }

    method FindReservation(id: nat) returns (k: nat)
      ensures k == LiveIndex(live, id)
    {
      k := 0;
      while k < |live| && live[k].id != id
        invariant k <= |live|
        invariant forall j :: 0 <= j < k ==> live[j].id != id
      {
        k := k + 1;
      }
      LiveIndexIs(live, id, k);
    }

    method MaybeForceSynthesis(now: real)
      modifies this`force
      ensures View() == Refresh(old(View()), now)
    {
      if cfg.tokenLimit > 0 && used >= cfg.capResearch {
        force := true;
      }
      if cfg.callLimit > 0 && calls >= cfg.callLimit {
        force := true;
      }
      if toolLimit > 0 && tools >= toolLimit {
        force := true;
      }
      if RemainingResearch(cfg, now) <= 0.0 && cfg.deadline > 0.0 {
        force := true;
      }
    }

    method ResearchBlockReason(stage: Stage, now: real) returns (reason: Option<Reason>)
      ensures reason == BlockReason(View(), stage, now)
    {
      var active := ActiveWorkerReserved();
      var effective := used + reservedPlain + active;
      if cfg.tokenLimit > 0 && effective >= cfg.tokenLimit {
        return Some(RunTokenCap);
      }
      if cfg.tokenLimit > 0 && effective >= StageCap(cfg, stage) {
        return Some(ResearchTokenCap);
      }
      if cfg.callLimit > 0 && calls + reservedCalls >= cfg.callLimit {
        return Some(RunCallCap);
      }
      if toolLimit > 0 && tools >= toolLimit {
        return Some(ToolCap);
      }
      if cfg.deadline > 0.0 && Elapsed(cfg, now) >= cfg.deadline {
        return Some(DeadlineExceeded);
      }
      if cfg.deadline > 0.0 && RemainingResearch(cfg, now) <= 0.0 {
        return Some(SynthesisTimeReserve);
      }
      return None;
    }

    method ReserveWorkerLease(q: LeaseRequest, now: real) returns (outcome: Outcome)
      modifies this
      ensures View() == AfterLease(old(View()), q, now)
      ensures outcome == LeaseOutcome(old(View()), q, now)
    {
      var cap := StageCap(cfg, q.stage);
      var requested := if q.ceiling.Some? then Max0(q.ceiling.value)
                       else FairShare(cap, OrElse(q.parallel, cfg.parallel));
      var reason := ResearchBlockReason(q.stage, now);
      if reason.Some? {
        return Refused(reason.value);
      }
      var active := ActiveWorkerReserved();
      UnblockedHasRoom(View(), q.stage, now);
      assert cfg.tokenLimit > 0 ==> cap - used - active > 0 && cfg.tokenLimit - used - reservedPlain - active > 0;
      if cap > 0 {
        requested := Min(requested, cap - used - active);
      }
      if cfg.tokenLimit > 0 {
        requested := Min(requested, cfg.tokenLimit - used - reservedPlain - active);
      }
      var lease := Lease(nextLease, q.task, Max0(requested), Max(1, OrElse(q.maxCalls, cfg.callsPerWorker)),
                         Max(1, OrElse(q.maxOutput, 4096)), 0, 0, 0, 0, q.stage);
      leases, nextLease := leases + [lease], nextLease + 1;
      outcome := Granted(lease.id);
    }

    method ReleaseWorkerLease(id: nat, now: real)
      requires Inv(View())
      modifies this
      ensures View() == AfterLeaseRelease(old(View()), id, now)
    {
      var i := FindLeaseById(id);
      if i == |leases| {
        return;
      }
      var task := leases[i].task;
      leases := RemoveAt(leases, i);
      ReleaseReservationsOf(task);
      MaybeForceSynthesis(now);
    }

    method FindLeaseById(id: nat) returns (i: nat)
      ensures i == LeaseIndex(leases, id)
    {
      i := 0;
      while i < |leases| && leases[i].id != id
        invariant i <= |leases|
        invariant forall j :: 0 <= j < i ==> leases[j].id != id
      {
        i := i + 1;
      }
      LeaseIndexIs(leases, id, i);
    }

    /** The loop over a snapshot of the reservations. */
    method ReleaseReservationsOf(task: string)
      requires LiveOk(live, nextReservation)
      modifies this
      ensures View() == ReleaseTask(old(View()), task)
    {
      var snapshot := live;
      for k := 0 to |snapshot|
        invariant View() == ReleaseFirst(old(View()), task, k)
      {
        if snapshot[k].task == task {
          ReleaseLlmReservation(snapshot[k].id);
        }
      }
      ReleasingIsReleaseTask(old(View()), task);
    }

    method GrantWorkerFinalizationCall(task: string) returns (granted: bool)
      modifies this`leases
      ensures View() == AfterGrant(old(View()), task)
      ensures granted == GrantAllowed(old(View()), task)
    {
      var i := FindLease(task);
      if i == |leases| || leases[i].finalCalls >= 1 {
        return false;
      }
      if cfg.callLimit > 0 && calls + reservedCalls >= cfg.callLimit {
        return false;
      }
      leases := leases[i := leases[i].(maxCalls := leases[i].maxCalls + 1,
                                       finalCalls := leases[i].finalCalls + 1)];
      return true;
    }

    /** The checks a worker's own lease makes on a request. */
    method CheckWorker(i: nat, total: nat, phase: string) returns (reason: Option<Reason>)
      requires i <= |leases|
      ensures forall task :: FirstOf(leases, task) == i ==> reason == WorkerRefusal(View(), total, task, phase)
    {
      if i == |leases| {
        return Some(LeaseMissing);
      }
      var lease := leases[i];
      if lease.calls >= lease.maxCalls {
        return Some(WorkerCallCap);
      }
      var limit := lease.ceiling;
      if lease.ceiling > 0 && !IsFinalizePhase(phase) {
        limit := Max0(lease.ceiling - FinalizationReserve(lease.ceiling));
      }
      if lease.ceiling > 0 && lease.used + lease.inFlight + total > limit {
        return Some(WorkerTokenCap);
      }
      return None;
    }

    method ReserveLlmCall(estimate: int, task: string, phase: string) returns (outcome: Outcome)
      modifies this
      ensures View() == AfterCall(old(View()), estimate, task, phase)
      ensures outcome == CallOutcome(old(View()), estimate, task, phase)
    {
      var total := Max(1, OrElse(estimate, 1));
      var normalized := Lower(phase);
      if cfg.callLimit > 0 && calls + reservedCalls >= cfg.callLimit {
        return Refused(RunCallCap);
      }
      var i := |leases|;
      if task != "" {
        i := FindLease(task);
        var refusal := CheckWorker(i, total, normalized);
        if refusal.Some? {
          return Refused(refusal.value);
        }
      }
      var active := ActiveWorkerReserved();
      var after := used + reservedPlain + active + total;
      if cfg.tokenLimit > 0 && after > cfg.tokenLimit {
        return Refused(RunTokenCap);
      }
      var stage := if i < |leases| then leases[i].stage else Research;
      if IsResearchPhase(normalized) && cfg.tokenLimit > 0 && after > StageCap(cfg, stage) {
        return Refused(ResearchTokenCap);
      }
      Admit(i, total, task, normalized);
      outcome := Granted(nextReservation - 1);
    }

    /** Books an authorized request, on lease `i` or on the run. */
    method Admit(i: nat, total: nat, task: string, phase: string)
      requires i == if task != "" then FirstOf(leases, task) else |leases|
      modifies this
      ensures View() == old(View()).(
                live := old(live) + [Reservation(old(nextReservation), total, task, phase)],
                reservedCalls := old(reservedCalls) + 1,
                leases := if task != "" then ChargeLease(old(leases), task, total) else old(leases),
                reservedPlain := old(reservedPlain) + (if i < |old(leases)| then 0 else total),
                nextReservation := old(nextReservation) + 1)
    {
      live := live + [Reservation(nextReservation, total, task, phase)];
      reservedCalls := reservedCalls + 1;
      nextReservation := nextReservation + 1;
      if i < |leases| {
        leases := leases[i := leases[i].(inFlight := leases[i].inFlight + total, calls := leases[i].calls + 1)];
      } else {
        reservedPlain := reservedPlain + total;
      }
    }

    /** Takes a reservation out of the ledger and settles it where it was charged. */
    method PopReservation(k: nat, spent: nat)
      requires k < |live|
      modifies this
      ensures View() == Settle(old(View()), k, spent)
    {
      var r := live[k];
      live := RemoveAt(live, k);
      reservedCalls := Max0(reservedCalls - 1);
      if r.task != "" {
        SettleOnLease(r.task, r.tokens, spent);
      } else {
        reservedPlain := Max0(reservedPlain - r.tokens);
      }
      used := used + spent;
      calls := calls + 1;
    }

    /** The first lease of the task, if it is still there, is charged. */
    method SettleOnLease(task: string, estimate: nat, spent: nat)
      modifies this`leases
      ensures leases == SettleLease(old(leases), task, estimate, spent)
    {
      var i := FindLease(task);
      if i < |leases| {
        leases := leases[i := leases[i].(used := leases[i].used + spent,
                                         inFlight := Max0(leases[i].inFlight - estimate))];
      }
    }

    method CommitLlmUsage(id: nat, actual: int, now: real)
      modifies this
      ensures View() == AfterCommit(old(View()), id, actual, now)
    {
      var k := FindReservation(id);
      if k == |live| {
        return;
      }
      PopReservation(k, Max(1, OrElse(actual, live[k].tokens)));
      MaybeForceSynthesis(now);
    }

    method ReleaseLlmReservation(id: nat)
      modifies this
      ensures View() == AfterRelease(old(View()), id)
    {
      var k := FindReservation(id);
      if k < |live| {
        PopReservation(k, 0);
      }
    }

    method ReserveToolCalls(count: int, now: real) returns (ok: bool)
      modifies this
      ensures View() == AfterTools(old(View()), count, now)
      ensures ok == !ToolsRefused(old(View()), count)
    {
      var n := Max(1, OrElse(count, 1));
      if toolLimit > 0 && tools + n > toolLimit {
        return false;
      }
      tools := tools + n;
      MaybeForceSynthesis(now);
      return true;
    }

    method CapToolCalls(limit: int, now: real)
      modifies this
      ensures View() == AfterToolCap(old(View()), limit, now)
    {
      if limit <= 0 {
        return;
      }
      if toolLimit == 0 || limit < toolLimit {
        toolLimit := limit;
        MaybeForceSynthesis(now);
      }
    }

    method SyncFromUsage(usedTokens: int, llmCalls: int, toolCalls: int, now: real)
      modifies this
      ensures View() == AfterSync(old(View()), usedTokens, llmCalls, toolCalls, now)
    {
      used, calls, tools := Max(used, usedTokens), Max(calls, llmCalls), Max(tools, toolCalls);
      MaybeForceSynthesis(now);
    }

    method CommitTokens(tokens: int, now: real)
      modifies this
      ensures View() == Step(old(View()), Op.CommitTokens(tokens), now)
    {
      used := used + Max0(tokens);
      MaybeForceSynthesis(now);
    }

    method NoteLlmCall(now: real)
      modifies this
      ensures View() == Step(old(View()), NoteCall, now)
    {
      calls := calls + 1;
      MaybeForceSynthesis(now);
    }

    method ForceSynthesis(now: real) returns (forced: bool)
      modifies this`force
      ensures View() == Step(old(View()), QueryForce, now)
      ensures forced == (old(force) || MustSynthesize(old(View()), now))
    {
      MaybeForceSynthesis(now);
      return force;
    }
  }
}
