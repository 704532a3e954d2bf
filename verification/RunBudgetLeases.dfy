/** The life of one worker lease: its finalization reserve and its call limit. */
module RunBudgetLeases {
  import opened Common
  import opened Sums
  import opened RunBudget
  import opened RunBudgetInvariant
  import opened RunBudgetRuns

  // ------------------------------------------------- finalization reserve

  /** Tokens of the live finalize calls of `task`. */
  function FinalTokens(task: string): Reservation -> nat {
    (r: Reservation) => if r.task == task && IsFinalizePhase(r.phase) then r.tokens else 0
  }

  /** Tokens in flight for finalize calls on lease `i`. */
  function FinalInFlight(leases: seq<Lease>, live: seq<Reservation>, i: nat): nat
    requires i < |leases|
  {
    if leases[i].task != "" && FirstOf(leases, leases[i].task) == i
    then SumBy(live, FinalTokens(leases[i].task)) else 0
  }

  /** Tokens that commits charged to one lease for finalize calls, and by how
      much commits on it overran their estimates. */
  datatype LeaseAudit = LeaseAudit(spentFinal: nat, over: nat)

  function LeaseAuditStep(l: Ledger, op: Op, id: nat, a: LeaseAudit): LeaseAudit {
    match op
    case CommitCall(r, actual) =>
      var k := LiveIndex(l.live, r);
      if k == |l.live| then a else ChargedTo(l, k, Reported(actual, l.live[k].tokens), id, a)
    case _ => a
  }

  function ChargedTo(l: Ledger, k: nat, spent: nat, id: nat, a: LeaseAudit): LeaseAudit
    requires k < |l.live|
  {
    var r := l.live[k];
    var i := FirstOf(l.leases, r.task);
    if r.task == "" || i == |l.leases| || l.leases[i].id != id then a
    else
      LeaseAudit(a.spentFinal + (if IsFinalizePhase(r.phase) then spent else 0),
                 a.over + Max0(spent - r.tokens))
  }

  function LeaseAuditOf(t: Trace, id: nat): LeaseAudit {
    match t
    case Start(_, _) => LeaseAudit(0, 0)
    case Then(before, op, _) => LeaseAuditStep(State(before), op, id, LeaseAuditOf(before, id))
  }

  /** Everything on lease `i` beyond its finalize calls and its overruns stays
      below the reserve. */
  predicate LeaseKept(leases: seq<Lease>, live: seq<Reservation>, i: nat, a: LeaseAudit)
    requires i < |leases|
  {
    leases[i].ceiling > 0 ==>
      leases[i].used + leases[i].inFlight
      <= leases[i].ceiling - FinalizationReserve(leases[i].ceiling)
         + a.spentFinal + FinalInFlight(leases, live, i) + a.over
  }

  predicate ReserveKept(leases: seq<Lease>, live: seq<Reservation>, id: nat, a: LeaseAudit) {
    forall i :: 0 <= i < |leases| && leases[i].id == id ==> LeaseKept(leases, live, i, a)
  }

  /** A lease that an in-place change of another lease leaves alone. */
  lemma UntouchedKept(
    leases: seq<Lease>, live: seq<Reservation>, leases': seq<Lease>, live': seq<Reservation>, i: nat, a: LeaseAudit)
    requires |leases| == |leases'| && i < |leases| && leases'[i] == leases[i]
    requires forall j :: 0 <= j < |leases| ==> leases[j].task == leases'[j].task
    requires leases[i].task != "" && FirstOf(leases, leases[i].task) == i ==>
               SumBy(live', FinalTokens(leases[i].task)) == SumBy(live, FinalTokens(leases[i].task))
    requires LeaseKept(leases, live, i, a)
    ensures LeaseKept(leases', live', i, a)
  {
    SameTasksSameFirst(leases, leases', leases[i].task);
  }

  lemma AppendedKept(leases: seq<Lease>, live: seq<Reservation>, x: Lease, id: nat, a: LeaseAudit)
    requires ReserveKept(leases, live, id, a) && x.used == x.inFlight == 0
    ensures ReserveKept(leases + [x], live, id, a)
  {
    var b := leases + [x];
    forall i | 0 <= i < |b| && b[i].id == id
      ensures LeaseKept(b, live, i, a)
    {
      if i < |leases| {
        assert LeaseKept(leases, live, i, a);
        FirstAfterAppend(leases, x, b[i].task);
      }
    }
  }

  /** The call is charged to this lease, which admitted it. */
  lemma AdmittedOwnLease(l: Ledger, estimate: int, task: string, phase: string, i: nat, a: LeaseAudit)
    requires i < |l.leases| && task != "" && FirstOf(l.leases, task) == i
    requires LeaseKept(l.leases, l.live, i, a) && CallRefusal(l, estimate, task, phase).None?
    ensures var l' := AfterCall(l, estimate, task, phase); LeaseKept(l'.leases, l'.live, i, a)
  {
    var l', r := AfterCall(l, estimate, task, phase), NewReservation(l, estimate, task, phase);
    FirstOfSpec(l.leases, task);
    SumAppend(l.live, r, FinalTokens(l.leases[i].task));
    SameTasksSameFirst(l.leases, l'.leases, task);
  }

  /** The call is charged elsewhere. */
  lemma AdmittedOtherLease(leases: seq<Lease>, live: seq<Reservation>, r: Reservation, i: nat, a: LeaseAudit)
    requires i < |leases| && !(r.task != "" && FirstOf(leases, r.task) == i)
    requires LeaseKept(leases, live, i, a)
    ensures var leases' := if r.task != "" then ChargeLease(leases, r.task, r.tokens) else leases;
            LeaseKept(leases', live + [r], i, a)
  {
    var leases' := if r.task != "" then ChargeLease(leases, r.task, r.tokens) else leases;
    FirstOfSpec(leases, r.task);
    SumAppend(live, r, FinalTokens(leases[i].task));
    UntouchedKept(leases, live, leases', live + [r], i, a);
  }

  lemma AdmittedKept(l: Ledger, estimate: int, task: string, phase: string, id: nat, a: LeaseAudit)
    requires ReserveKept(l.leases, l.live, id, a) && CallRefusal(l, estimate, task, phase).None?
    ensures var l' := AfterCall(l, estimate, task, phase); ReserveKept(l'.leases, l'.live, id, a)
  {
    var l' := AfterCall(l, estimate, task, phase);
    forall i | 0 <= i < |l'.leases| && l'.leases[i].id == id
      ensures LeaseKept(l'.leases, l'.live, i, a)
    {
      assert l.leases[i].id == id;
      if task != "" && FirstOf(l.leases, task) == i {
        AdmittedOwnLease(l, estimate, task, phase, i, a);
      } else {
        AdmittedOtherLease(l.leases, l.live, NewReservation(l, estimate, task, phase), i, a);
      }
    }
  }

  lemma SettledKept(l: Ledger, k: nat, spent: nat, id: nat, a: LeaseAudit)
    requires Inv(l) && k < |l.live| && ReserveKept(l.leases, l.live, id, a)
    ensures var l' := Settle(l, k, spent);
            ReserveKept(l'.leases, l'.live, id, ChargedTo(l, k, spent, id, a))
  {
    var l', r := Settle(l, k, spent), l.live[k];
    forall i | 0 <= i < |l.leases| && l.leases[i].id == id
      ensures LeaseKept(l'.leases, l'.live, i, ChargedTo(l, k, spent, id, a))
    {
      assert LeaseKept(l.leases, l.live, i, a);
      if r.task != "" && FirstOf(l.leases, r.task) == i {
        SettledOwnLease(l, k, spent, id, i, a);
      } else {
        SettledOtherLease(l, k, spent, i, a);
      }
    }
  }

  lemma SettledOwnLease(l: Ledger, k: nat, spent: nat, id: nat, i: nat, a: LeaseAudit)
    requires Carried(l.leases, l.live) && k < |l.live| && i < |l.leases| && l.leases[i].id == id
    requires l.live[k].task != "" && FirstOf(l.leases, l.live[k].task) == i && LeaseKept(l.leases, l.live, i, a)
    ensures var l' := Settle(l, k, spent); LeaseKept(l'.leases, l'.live, i, ChargedTo(l, k, spent, id, a))
  {
    var l', r := Settle(l, k, spent), l.live[k];
    FirstOfSpec(l.leases, r.task);
    SumRemove(l.live, k, FinalTokens(r.task));
    SumRemove(l.live, k, TaskTokens(r.task));
    SameTasksSameFirst(l.leases, l'.leases, r.task);
    assert CarriedAt(l.leases, l.live, i);
  }

  lemma SettledOtherLease(l: Ledger, k: nat, spent: nat, i: nat, a: LeaseAudit)
    requires k < |l.live| && i < |l.leases| && !(l.live[k].task != "" && FirstOf(l.leases, l.live[k].task) == i)
    requires LeaseKept(l.leases, l.live, i, a)
    ensures var l' := Settle(l, k, spent); LeaseKept(l'.leases, l'.live, i, a)
  {
    var l', r := Settle(l, k, spent), l.live[k];
    FirstOfSpec(l.leases, r.task);
    SumRemove(l.live, k, FinalTokens(l.leases[i].task));
    UntouchedKept(l.leases, l.live, l'.leases, l'.live, i, a);
  }

  lemma {:induction false} FinalWithinTask(live: seq<Reservation>, task: string)
    ensures SumBy(live, FinalTokens(task)) <= SumBy(live, TaskTokens(task))
  {
    if |live| > 0 {
      FinalWithinTask(live[..|live| - 1], task);
    }
  }

  /** What is left of the leases when lease `i` goes and its task is settled. */
  function LeasesWithout(leases: seq<Lease>, live: seq<Reservation>, i: nat): (b: seq<Lease>)
    requires i < |leases|
    ensures |b| == |leases| - 1
  {
    var task, rest := leases[i].task, RemoveAt(leases, i);
    if task != "" then SettleLease(rest, task, SumBy(live, TaskTokens(task)), 0) else rest
  }

  /** The remaining leases of the released task: nothing is in flight any more,
      and no more than the live estimates was. */
  lemma ReleasedTaskKept(leases: seq<Lease>, live: seq<Reservation>, i: nat, j: nat, a: LeaseAudit)
    requires Carried(leases, live) && i < |leases| && j < |leases| - 1
    requires RemoveAt(leases, i)[j].task == leases[i].task
    requires LeaseKept(leases, live, if j < i then j else j + 1, a)
    ensures LeaseKept(LeasesWithout(leases, live, i), Without(live, leases[i].task), j, a)
  {
    var task, h := leases[i].task, if j < i then j else j + 1;
    FinalWithinTask(live, task);
    assert CarriedAt(leases, live, h);
    if task != "" {
      RemainingOfTask(leases, live, i, j);
    }
  }

  lemma ReleasedLeaseKept(leases: seq<Lease>, live: seq<Reservation>, i: nat, j: nat, a: LeaseAudit)
    requires Carried(leases, live) && i < |leases| && j < |leases| - 1
    requires LeaseKept(leases, live, if j < i then j else j + 1, a)
    ensures LeaseKept(LeasesWithout(leases, live, i), Without(live, leases[i].task), j, a)
  {
    var task, rest := leases[i].task, RemoveAt(leases, i);
    var t := rest[j].task;
    if t == task {
      ReleasedTaskKept(leases, live, i, j, a);
    } else {
      FirstOfSpec(rest, task);
      SameTasksSameFirst(rest, LeasesWithout(leases, live, i), t);
      FirstOfSpec(leases, t);
      FirstAfterRemove(leases, i, t);
      WithoutKeeps(live, task, FinalTokens(t));
    }
  }

  lemma LeasesWithoutKept(leases: seq<Lease>, live: seq<Reservation>, i: nat, id: nat, a: LeaseAudit)
    requires Carried(leases, live) && i < |leases| && ReserveKept(leases, live, id, a)
    ensures ReserveKept(LeasesWithout(leases, live, i), Without(live, leases[i].task), id, a)
  {
    var b := LeasesWithout(leases, live, i);
    forall j | 0 <= j < |b| && b[j].id == id
      ensures LeaseKept(b, Without(live, leases[i].task), j, a)
    {
      assert LeaseKept(leases, live, if j < i then j else j + 1, a);
      ReleasedLeaseKept(leases, live, i, j, a);
    }
  }

  lemma ReleasedKept(l: Ledger, i: nat, id: nat, a: LeaseAudit)
    requires Inv(l) && i < |l.leases| && ReserveKept(l.leases, l.live, id, a)
    ensures var l' := ReleaseTask(l.(leases := RemoveAt(l.leases, i)), l.leases[i].task);
            ReserveKept(l'.leases, l'.live, id, a)
  {
    OnlyTokens(l.live, l.leases[i].task);
    LeasesWithoutKept(l.leases, l.live, i, id, a);
  }

  lemma GrantedKept(l: Ledger, task: string, id: nat, a: LeaseAudit)
    requires ReserveKept(l.leases, l.live, id, a)
    ensures ReserveKept(AfterGrant(l, task).leases, l.live, id, a)
  {
    var l' := AfterGrant(l, task);
    forall i | 0 <= i < |l'.leases| && l'.leases[i].id == id
      ensures LeaseKept(l'.leases, l.live, i, a)
    {
      assert LeaseKept(l.leases, l.live, i, a);
      SameTasksSameFirst(l.leases, l'.leases, l.leases[i].task);
    }
  }

  lemma CommittedKept(l: Ledger, r: nat, actual: int, now: real, id: nat, a: LeaseAudit)
    requires Inv(l) && ReserveKept(l.leases, l.live, id, a)
    ensures var l' := AfterCommit(l, r, actual, now);
            ReserveKept(l'.leases, l'.live, id, LeaseAuditStep(l, CommitCall(r, actual), id, a))
  {
    var k := LiveIndex(l.live, r);
    if k < |l.live| {
      SettledKept(l, k, ActualTokens(actual, l.live[k].tokens), id, a);
    }
  }

  lemma ReleasedCallKept(l: Ledger, r: nat, id: nat, a: LeaseAudit)
    requires Inv(l) && ReserveKept(l.leases, l.live, id, a)
    ensures var l' := AfterRelease(l, r); ReserveKept(l'.leases, l'.live, id, a)
  {
    var k := LiveIndex(l.live, r);
    if k < |l.live| {
      SettledKept(l, k, 0, id, a);
      assert ChargedTo(l, k, 0, id, a) == a;
    }
  }

  lemma LeaseReleaseKept(l: Ledger, lease: nat, now: real, id: nat, a: LeaseAudit)
    requires Inv(l) && ReserveKept(l.leases, l.live, id, a)
    ensures var l' := AfterLeaseRelease(l, lease, now); ReserveKept(l'.leases, l'.live, id, a)
  {
    var i := LeaseIndex(l.leases, lease);
    if i < |l.leases| {
      ReleasedKept(l, i, id, a);
    }
  }

  lemma CallKept(l: Ledger, estimate: int, task: string, phase: string, id: nat, a: LeaseAudit)
    requires ReserveKept(l.leases, l.live, id, a)
    ensures var l' := AfterCall(l, estimate, task, phase); ReserveKept(l'.leases, l'.live, id, a)
  {
    if CallRefusal(l, estimate, task, phase).None? {
      AdmittedKept(l, estimate, task, phase, id, a);
    }
  }

  lemma BookkeepingKept(l: Ledger, op: Op, now: real)
    requires Bookkeeping(op)
    ensures Step(l, op, now).leases == l.leases && Step(l, op, now).live == l.live
  {
  }

  lemma StepKept(l: Ledger, op: Op, now: real, id: nat, a: LeaseAudit)
    requires Inv(l) && ReserveKept(l.leases, l.live, id, a)
    ensures var l' := Step(l, op, now);
            ReserveKept(l'.leases, l'.live, id, LeaseAuditStep(l, op, id, a))
  {
    match op
    case ReserveLease(q) => AppendedKept(l.leases, l.live, NewLease(l, q), id, a);
    case ReleaseLease(lease) => LeaseReleaseKept(l, lease, now, id, a);
    case GrantFinalization(task) => GrantedKept(l, task, id, a);
    case ReserveCall(estimate, task, phase) => CallKept(l, estimate, task, phase, id, a);
    case CommitCall(r, actual) => CommittedKept(l, r, actual, now, id, a);
    case ReleaseCall(r) => ReleasedCallKept(l, r, id, a);
    case _ => BookkeepingKept(l, op, now);
  }

  lemma {:induction false} ReserveKeptAlways(t: Trace, id: nat)
    requires Constructed(t)
    ensures ReserveKept(State(t).leases, State(t).live, id, LeaseAuditOf(t, id))
  {
    match t
    case Start(_, _) =>
    case Then(before, op, now) =>
      ReserveKeptAlways(before, id);
      InvariantHolds(before);
      StepKept(State(before), op, now, id, LeaseAuditOf(before, id));
  }

  /** Everything on the lease except finalize calls and overruns stays below the
      ceiling less the reserve, and a finalize call that fits what finalize
      calls and overruns left of the reserve is not refused with the worker's
      token cap. */
  predicate ReserveAvailable(l: Ledger, i: nat, a: LeaseAudit, estimate: int, phase: string)
    requires i < |l.leases|
  {
    var lease := l.leases[i];
    var finals := a.spentFinal + FinalInFlight(l.leases, l.live, i);
    && lease.used + lease.inFlight <= lease.ceiling - FinalizationReserve(lease.ceiling) + finals + a.over
    && (IsFinalizePhase(Lower(phase)) && lease.task != "" && FirstOf(l.leases, lease.task) == i
        && CallTokens(estimate) + finals + a.over <= FinalizationReserve(lease.ceiling)
        ==> CallRefusal(l, estimate, lease.task, phase) != Some(WorkerTokenCap))
  }

  lemma KeptReserveIsAvailable(l: Ledger, i: nat, a: LeaseAudit, estimate: int, phase: string)
    requires i < |l.leases| && l.leases[i].ceiling > 0 && ReserveKept(l.leases, l.live, l.leases[i].id, a)
    ensures ReserveAvailable(l, i, a, estimate, phase)
  {
    assert LeaseKept(l.leases, l.live, i, a);
  }

  /** The finalization reserve is there on every lease with a ceiling, at any
      point of any run. */
  lemma FinalizationReserveIsAvailable(t: Trace, i: nat, estimate: int, phase: string)
    requires Constructed(t) && i < |State(t).leases| && State(t).leases[i].ceiling > 0
    ensures ReserveAvailable(State(t), i, LeaseAuditOf(t, State(t).leases[i].id), estimate, phase)
  {
    var l := State(t);
    ReserveKeptAlways(t, l.leases[i].id);
    KeptReserveIsAvailable(l, i, LeaseAuditOf(t, l.leases[i].id), estimate, phase);
  }

  // ------------------------------------------------------- calls of a lease

  /** `y` is lease `x` at a later moment. */
  predicate Ages(x: Lease, y: Lease) {
    && y.id == x.id && y.task == x.task && y.ceiling == x.ceiling && y.stage == x.stage
    && y.maxCalls - y.finalCalls == x.maxCalls - x.finalCalls
    && x.calls <= y.calls && x.used <= y.used && x.finalCalls <= y.finalCalls
  }

  predicate ComesFrom(l: Ledger, y: Lease) {
    || (y.id == l.nextLease && y.calls == y.finalCalls == 0)
    || exists x :: x in l.leases && Ages(x, y)
  }

  lemma SettleAges(leases: seq<Lease>, task: string, estimate: nat, spent: nat, j: nat)
    requires j < |leases|
    ensures Ages(leases[j], SettleLease(leases, task, estimate, spent)[j])
  {
  }

  lemma CallAges(l: Ledger, estimate: int, task: string, phase: string, j: nat)
    requires j < |l.leases|
    ensures |AfterCall(l, estimate, task, phase).leases| == |l.leases|
    ensures Ages(l.leases[j], AfterCall(l, estimate, task, phase).leases[j])
  {
  }

  lemma GrantAges(l: Ledger, task: string, j: nat)
    requires j < |l.leases|
    ensures |AfterGrant(l, task).leases| == |l.leases| && Ages(l.leases[j], AfterGrant(l, task).leases[j])
  {
  }

  lemma SettledAges(l: Ledger, k: nat, spent: nat, j: nat)
    requires k < |l.live| && j < |l.leases|
    ensures |Settle(l, k, spent).leases| == |l.leases| && Ages(l.leases[j], Settle(l, k, spent).leases[j])
  {
    SettleAges(l.leases, l.live[k].task, l.live[k].tokens, spent, j);
  }

  lemma InPlaceAges(l: Ledger, op: Op, now: real, j: nat)
    requires !op.ReserveLease? && !op.ReleaseLease? && j < |l.leases|
    ensures |Step(l, op, now).leases| == |l.leases| && Ages(l.leases[j], Step(l, op, now).leases[j])
  {
    match op
    case GrantFinalization(task) => GrantAges(l, task, j);
    case ReserveCall(estimate, task, phase) => CallAges(l, estimate, task, phase, j);
    case CommitCall(r, actual) =>
      var k := LiveIndex(l.live, r);
      if k < |l.live| {
        SettledAges(l, k, ActualTokens(actual, l.live[k].tokens), j);
      }
    case ReleaseCall(r) =>
      var k := LiveIndex(l.live, r);
      if k < |l.live| {
        SettledAges(l, k, 0, j);
      }
    case _ => BookkeepingKept(l, op, now);
  }

  lemma ReleaseAges(l: Ledger, i: nat, j: nat)
    requires i < |l.leases| && j < |l.leases| - 1
    ensures var l' := ReleaseTask(l.(leases := RemoveAt(l.leases, i)), l.leases[i].task);
            exists x :: x in l.leases && Ages(x, l'.leases[j])
  {
    var rest := RemoveAt(l.leases, i);
    SettleAges(rest, l.leases[i].task, SumBy(Only(l.live, l.leases[i].task), TokensOf()), 0, j);
    var h := if j < i then j else j + 1;
    assert rest[j] == l.leases[h] && l.leases[h] in l.leases;
  }

  lemma StepAges(l: Ledger, op: Op, now: real, j: nat)
    requires j < |Step(l, op, now).leases|
    ensures ComesFrom(l, Step(l, op, now).leases[j])
  {
    if op.ReserveLease? {
      if j < |l.leases| {
        assert Ages(l.leases[j], l.leases[j]);
      }
    } else if op.ReleaseLease? {
      var i := LeaseIndex(l.leases, op.lease);
      if i < |l.leases| {
        ReleaseAges(l, i, j);
      } else {
        assert Ages(l.leases[j], l.leases[j]);
      }
    } else {
      InPlaceAges(l, op, now, if j < |l.leases| then j else 0);
      assert l.leases[j] in l.leases;
    }
  }

  /** Over its life a lease keeps its task, ceiling and stage; its calls never
      pass its limit, and the limit grows by at most one, with the single
      finalization grant. */
  lemma {:induction false} LeaseLife(t0: Trace, t: Trace, i: nat, j: nat)
    requires Constructed(t) && Constructed(t0) && Continues(t0, t)
    requires i < |State(t0).leases| && j < |State(t).leases|
    requires State(t0).leases[i].id == State(t).leases[j].id
    ensures Ages(State(t0).leases[i], State(t).leases[j])
    ensures State(t).leases[j].calls <= State(t).leases[j].maxCalls <= State(t0).leases[i].maxCalls + 1
    ensures State(t).leases[j].maxCalls == State(t0).leases[i].maxCalls
            <==> State(t).leases[j].finalCalls == State(t0).leases[i].finalCalls
  {
    InvariantHolds(t);
    InvariantHolds(t0);
    if t == t0 {
      SameLease(State(t), i, j);
    } else {
      InvariantHolds(t.before);
      NeverReissued(t0, t.before);
      var k := StepComesFrom(State(t.before), t.op, t.now, j, State(t0).leases[i].id);
      LeaseLife(t0, t.before, i, k);
    }
    OneGrant(State(t0).leases[i], State(t).leases[j], State(t0), State(t), i, j);
  }

  lemma SameLease(l: Ledger, i: nat, j: nat)
    requires Inv(l) && i < |l.leases| && j < |l.leases| && l.leases[i].id == l.leases[j].id
    ensures i == j
  {
  }

  /** A lease that is not new is an older lease at a later moment. */
  lemma StepComesFrom(l: Ledger, op: Op, now: real, j: nat, id: nat) returns (k: nat)
    requires j < |Step(l, op, now).leases| && Step(l, op, now).leases[j].id == id < l.nextLease
    ensures k < |l.leases| && Ages(l.leases[k], Step(l, op, now).leases[j])
  {
    StepAges(l, op, now, j);
    var y := Step(l, op, now).leases[j];
    var x :| x in l.leases && Ages(x, y);
    k :| 0 <= k < |l.leases| && l.leases[k] == x;
  }

  lemma OneGrant(x: Lease, y: Lease, l: Ledger, l': Ledger, i: nat, j: nat)
    requires Inv(l) && Inv(l') && i < |l.leases| && j < |l'.leases| && l.leases[i] == x && l'.leases[j] == y
    requires Ages(x, y)
    ensures y.calls <= y.maxCalls <= x.maxCalls + 1 && (y.maxCalls == x.maxCalls <==> y.finalCalls == x.finalCalls)
  {
  }

  lemma {:induction false} NeverReissued(t0: Trace, t: Trace)
    requires Continues(t0, t)
    ensures State(t0).nextLease <= State(t).nextLease
  {
    if t != t0 {
      NeverReissued(t0, t.before);
      StepKeepsConfig(State(t.before), t.op, t.now);
    }
  }
}
