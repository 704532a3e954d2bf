/** The representation invariant of the ledger: what every operation keeps. */
module RunBudgetInvariant {
  import opened Common
  import opened Sums
  import opened RunBudget

  /** What lease `i` has in flight: all live estimates of its task if it is the
      first lease of that task, and nothing otherwise. */
  function ExpectedInFlight(leases: seq<Lease>, live: seq<Reservation>, i: nat): nat
    requires i < |leases|
  {
    if leases[i].task != "" && FirstOf(leases, leases[i].task) == i
    then SumBy(live, TaskTokens(leases[i].task)) else 0
  }

  predicate CarriedAt(leases: seq<Lease>, live: seq<Reservation>, i: nat)
    requires i < |leases|
  {
    leases[i].inFlight == ExpectedInFlight(leases, live, i)
  }

  predicate Carried(leases: seq<Lease>, live: seq<Reservation>) {
    forall i :: 0 <= i < |leases| ==> CarriedAt(leases, live, i)
  }

  predicate BackedAt(leases: seq<Lease>, live: seq<Reservation>, i: nat)
    requires i < |live|
  {
    live[i].task != "" ==> FirstOf(leases, live[i].task) < |leases|
  }

  /** Every reservation made for a worker has a lease of that worker. */
  predicate Backed(leases: seq<Lease>, live: seq<Reservation>) {
    forall i :: 0 <= i < |live| ==> BackedAt(leases, live, i)
  }

  predicate LeasesOk(leases: seq<Lease>, nextLease: nat) {
    && (forall i :: 0 <= i < |leases| ==> leases[i].id < nextLease)
    && (forall i, j :: 0 <= i < j < |leases| ==> leases[i].id < leases[j].id)
    && (forall i :: 0 <= i < |leases| ==> leases[i].calls <= leases[i].maxCalls && leases[i].finalCalls <= 1)
  }

  predicate LiveOk(live: seq<Reservation>, nextReservation: nat) {
    && (forall i :: 0 <= i < |live| ==> live[i].id < nextReservation && live[i].tokens >= 1)
    && (forall i, j :: 0 <= i < j < |live| ==> live[i].id < live[j].id)
  }

  predicate Inv(l: Ledger) {
    && l.cfg.Valid()
    && l.reservedCalls == |l.live|
    && l.reservedPlain == SumBy(l.live, TaskTokens(""))
    && SumBy(l.leases, InFlightOf()) == SumBy(l.live, WorkerTokens())
    && Carried(l.leases, l.live)
    && Backed(l.leases, l.live)
    && LeasesOk(l.leases, l.nextLease)
    && LiveOk(l.live, l.nextReservation)
  }

  /** The two reserves together are exactly the live estimates. */
  lemma ReservedIsLive(l: Ledger)
    requires Inv(l)
    ensures EffectiveReserved(l) == SumBy(l.live, TokensOf())
  {
    SumSplitsInto(l.live, TokensOf(), TaskTokens(""), WorkerTokens());
  }

  // ------------------------------------------------------------ first leases

  lemma FirstOfSpec(leases: seq<Lease>, task: string)
    ensures forall j :: 0 <= j < FirstOf(leases, task) ==> leases[j].task != task
    ensures FirstOf(leases, task) < |leases| ==> leases[FirstOf(leases, task)].task == task
  {
    FirstIndexIsFirst(leases, ForTask(task));
  }

  /** The specification determines the position. */
  lemma FirstOfIs(leases: seq<Lease>, task: string, i: nat)
    requires i <= |leases| && forall j :: 0 <= j < i ==> leases[j].task != task
    requires i < |leases| ==> leases[i].task == task
    ensures FirstOf(leases, task) == i
  {
    FirstOfSpec(leases, task);
  }

  lemma {:induction false} SameTasksSameFirst(a: seq<Lease>, b: seq<Lease>, task: string)
    requires |a| == |b|
    requires forall i :: 0 <= i < |a| ==> a[i].task == b[i].task
    ensures FirstOf(a, task) == FirstOf(b, task)
  {
    if |a| > 0 {
      SameTasksSameFirst(a[1..], b[1..], task);
    }
  }

  lemma FirstAfterAppend(leases: seq<Lease>, x: Lease, task: string)
    ensures FirstOf(leases, task) < |leases| ==> FirstOf(leases + [x], task) == FirstOf(leases, task)
    ensures FirstOf(leases, task) == |leases| ==> FirstOf(leases + [x], task) >= |leases|
  {
    FirstOfSpec(leases, task);
    FirstOfSpec(leases + [x], task);
    if FirstOf(leases, task) < |leases| {
      FirstOfIs(leases + [x], task, FirstOf(leases, task));
    }
  }

  /** Dropping lease `i` moves the first lease of another task by at most one. */
  lemma FirstAfterRemove(leases: seq<Lease>, i: nat, task: string)
    requires i < |leases| && leases[i].task != task
    ensures FirstOf(RemoveAt(leases, i), task)
         == if FirstOf(leases, task) > i then FirstOf(leases, task) - 1 else FirstOf(leases, task)
  {
    FirstOfSpec(leases, task);
    var f := FirstOf(leases, task);
    FirstOfIs(RemoveAt(leases, i), task, if f > i then f - 1 else f);
  }

  // ------------------------------------------------------------ filters

  lemma {:induction false} WithoutOnly(live: seq<Reservation>, task: string, f: Reservation -> nat)
    ensures SumBy(Without(live, task), f) + SumBy(Only(live, task), f) == SumBy(live, f)
    ensures |Without(live, task)| + |Only(live, task)| == |live|
  {
    if |live| > 0 {
      var rest, r := live[..|live| - 1], live[|live| - 1];
      WithoutOnly(rest, task, f);
      if r.task == task {
        assert Without(live, task) == Without(rest, task);
        SumAppend(Only(rest, task), r, f);
      } else {
        assert Only(live, task) == Only(rest, task);
        SumAppend(Without(rest, task), r, f);
      }
    }
  }

  lemma {:induction false} OnlyTokens(live: seq<Reservation>, task: string)
    ensures SumBy(Only(live, task), TokensOf()) == SumBy(live, TaskTokens(task))
    ensures forall r :: r in Only(live, task) ==> r in live && r.task == task
  {
    if |live| > 0 {
      var rest, r := live[..|live| - 1], live[|live| - 1];
      OnlyTokens(rest, task);
      if r.task == task {
        SumAppend(Only(rest, task), r, TokensOf());
      } else {
        assert Only(live, task) == Only(rest, task);
      }
    }
  }

  lemma {:induction false} SumOfZeros<T>(s: seq<T>, f: T -> nat)
    requires forall x :: x in s ==> f(x) == 0
    ensures SumBy(s, f) == 0
  {
    if |s| > 0 {
      SumOfZeros(s[..|s| - 1], f);
    }
  }

  lemma {:induction false} WithoutMembers(live: seq<Reservation>, task: string)
    ensures forall r :: r in Without(live, task) <==> r in live && r.task != task
  {
    if |live| > 0 {
      WithoutMembers(live[..|live| - 1], task);
      assert live == live[..|live| - 1] + [live[|live| - 1]];
    }
  }

  lemma {:induction false} WithoutOk(live: seq<Reservation>, task: string, next: nat)
    requires LiveOk(live, next)
    ensures LiveOk(Without(live, task), next)
  {
    if |live| > 0 {
      var rest, r := live[..|live| - 1], live[|live| - 1];
      WithoutOk(rest, task, next);
      WithoutMembers(rest, task);
      forall i | 0 <= i < |Without(rest, task)|
        ensures Without(rest, task)[i].id < r.id
      {
        assert Without(rest, task)[i] in rest;
      }
    }
  }

  /** A measure that ignores the dropped task is not changed by dropping it. */
  lemma WithoutKeeps(live: seq<Reservation>, task: string, f: Reservation -> nat)
    requires forall r :: r in live && r.task == task ==> f(r) == 0
    ensures SumBy(Without(live, task), f) == SumBy(live, f)
  {
    WithoutOnly(live, task, f);
    OnlyTokens(live, task);
    SumOfZeros(Only(live, task), f);
  }

  /** Nothing is left of the dropped task. */
  lemma WithoutTaskIsZero(live: seq<Reservation>, task: string)
    ensures SumBy(Without(live, task), TaskTokens(task)) == 0
  {
    WithoutMembers(live, task);
    SumOfZeros(Without(live, task), TaskTokens(task));
  }

  // ------------------------------------------------------------ new leases

  lemma BackedMember(leases: seq<Lease>, live: seq<Reservation>, r: Reservation)
    requires Backed(leases, live) && r in live && r.task != ""
    ensures FirstOf(leases, r.task) < |leases|
  {
    var i :| 0 <= i < |live| && live[i] == r;
    assert BackedAt(leases, live, i);
  }

  /** Backing depends on the reservations' tasks only. */
  lemma BackedSubset(leases: seq<Lease>, live: seq<Reservation>, live': seq<Reservation>)
    requires Backed(leases, live) && forall r :: r in live' ==> r in live
    ensures Backed(leases, live')
  {
    forall i | 0 <= i < |live'|
      ensures BackedAt(leases, live', i)
    {
      if live'[i].task != "" {
        BackedMember(leases, live, live'[i]);
      }
    }
  }

  lemma BackedAppend(leases: seq<Lease>, live: seq<Reservation>, r: Reservation)
    requires Backed(leases, live) && (r.task != "" ==> FirstOf(leases, r.task) < |leases|)
    ensures Backed(leases, live + [r])
  {
    forall i | 0 <= i < |live| + 1
      ensures BackedAt(leases, live + [r], i)
    {
      if i < |live| {
        assert BackedAt(leases, live, i);
      }
    }
  }

  lemma AppendedLeaseCarried(leases: seq<Lease>, live: seq<Reservation>, x: Lease)
    requires Carried(leases, live) && Backed(leases, live) && x.inFlight == 0
    ensures Carried(leases + [x], live) && Backed(leases + [x], live)
  {
    var b := leases + [x];
    forall i | 0 <= i < |b|
      ensures CarriedAt(b, live, i)
    {
      if i < |leases| {
        assert CarriedAt(leases, live, i);
      }
      FirstAfterAppend(leases, x, b[i].task);
      if i == |leases| && x.task != "" && FirstOf(b, x.task) == i {
        NothingForNewTask(leases, live, x.task);
      }
    }
    forall i | 0 <= i < |live|
      ensures BackedAt(b, live, i)
    {
      assert BackedAt(leases, live, i);
      FirstAfterAppend(leases, x, live[i].task);
    }
  }

  lemma NothingForNewTask(leases: seq<Lease>, live: seq<Reservation>, task: string)
    requires Backed(leases, live) && task != "" && FirstOf(leases, task) == |leases|
    ensures SumBy(live, TaskTokens(task)) == 0
  {
    forall r | r in live
      ensures TaskTokens(task)(r) == 0
    {
      if r.task == task {
        BackedMember(leases, live, r);
      }
    }
    SumOfZeros(live, TaskTokens(task));
  }

  lemma AppendedLeasesOk(leases: seq<Lease>, x: Lease)
    requires LeasesOk(leases, x.id) && x.calls <= x.maxCalls && x.finalCalls <= 1
    ensures LeasesOk(leases + [x], x.id + 1)
  {
  }

  lemma AddedLeaseKeepsInv(l: Ledger, x: Lease)
    requires Inv(l) && x.id == l.nextLease && x.inFlight == 0 && x.calls <= x.maxCalls && x.finalCalls <= 1
    ensures Inv(AddLease(l, x))
  {
    AppendedLeasesOk(l.leases, x);
    AppendedLeaseCarried(l.leases, l.live, x);
    SumAppend(l.leases, x, InFlightOf());
    InvFrom(l, AddLease(l, x));
  }

  /** The invariant of a ledger whose leases alone have changed. */
  lemma InvFrom(l: Ledger, l': Ledger)
    requires Inv(l) && l' == l.(leases := l'.leases, nextLease := l'.nextLease)
    requires LeasesOk(l'.leases, l'.nextLease) && Carried(l'.leases, l.live) && Backed(l'.leases, l.live)
    requires SumBy(l'.leases, InFlightOf()) == SumBy(l.leases, InFlightOf())
    ensures Inv(l')
  {
  }

  lemma NewLeaseKeepsInv(l: Ledger, q: LeaseRequest, now: real)
    requires Inv(l)
    ensures Inv(AfterLease(l, q, now))
  {
    NewLeaseIs(l, q);
    var x := NewLease(l, q);
    assert Inv(AddLease(l, x)) by {
      AddedLeaseKeepsInv(l, x);
    }
  }

  lemma NewLeaseIs(l: Ledger, q: LeaseRequest)
    ensures var x := NewLease(l, q);
            x.id == l.nextLease && x.inFlight == x.used == x.calls == x.finalCalls == 0 && x.maxCalls >= 1
  {
  }

  // ------------------------------------------- changing one lease in place

  /** Replacing the first lease of `task` and the reservations of that task. */
  lemma UpdatedLeaseCarried(
    leases: seq<Lease>, live: seq<Reservation>, i: nat, x: Lease, live': seq<Reservation>)
    requires Carried(leases, live)
    requires i < |leases| && x.task == leases[i].task && x.task != "" && FirstOf(leases, x.task) == i
    requires x.inFlight == SumBy(live', TaskTokens(x.task))
    requires forall t :: t != x.task ==> SumBy(live', TaskTokens(t)) == SumBy(live, TaskTokens(t))
    ensures Carried(leases[i := x], live')
  {
    var b := leases[i := x];
    forall j | 0 <= j < |b|
      ensures CarriedAt(b, live', j)
    {
      assert CarriedAt(leases, live, j);
      SameTasksSameFirst(leases, b, b[j].task);
    }
  }

  lemma UpdatedLeaseBacked(leases: seq<Lease>, live: seq<Reservation>, i: nat, x: Lease)
    requires Backed(leases, live) && i < |leases| && x.task == leases[i].task
    ensures Backed(leases[i := x], live)
  {
    var b := leases[i := x];
    forall k | 0 <= k < |live|
      ensures BackedAt(b, live, k)
    {
      assert BackedAt(leases, live, k);
      SameTasksSameFirst(leases, b, live[k].task);
    }
  }

  /** Reservations of no task do not matter to the leases. */
  lemma PlainChangeCarried(leases: seq<Lease>, live: seq<Reservation>, live': seq<Reservation>)
    requires Carried(leases, live)
    requires forall t :: t != "" ==> SumBy(live', TaskTokens(t)) == SumBy(live, TaskTokens(t))
    ensures Carried(leases, live')
  {
    forall i | 0 <= i < |leases|
      ensures CarriedAt(leases, live', i)
    {
      assert CarriedAt(leases, live, i);
    }
  }

  lemma AdmitCarried(leases: seq<Lease>, live: seq<Reservation>, r: Reservation)
    requires Carried(leases, live) && Backed(leases, live)
    requires r.task != "" ==> FirstOf(leases, r.task) < |leases|
    ensures var leases' := if r.task != "" then ChargeLease(leases, r.task, r.tokens) else leases;
            && Carried(leases', live + [r]) && Backed(leases', live + [r])
            && SumBy(leases', InFlightOf()) == SumBy(leases, InFlightOf()) + WorkerTokens()(r)
  {
    var live' := live + [r];
    forall t: string
      ensures SumBy(live', TaskTokens(t)) == SumBy(live, TaskTokens(t)) + TaskTokens(t)(r)
    {
      SumAppend(live, r, TaskTokens(t));
    }
    BackedAppend(leases, live, r);
    if r.task == "" {
      PlainChangeCarried(leases, live, live');
    } else {
      var i := FirstOf(leases, r.task);
      FirstOfSpec(leases, r.task);
      var x := ChargeLease(leases, r.task, r.tokens)[i];
      assert CarriedAt(leases, live, i);
      UpdatedLeaseCarried(leases, live, i, x, live');
      UpdatedLeaseBacked(leases, live', i, x);
      SumUpdate(leases, i, x, InFlightOf());
    }
  }

  lemma AdmissionKeepsInv(l: Ledger, estimate: int, task: string, phase: string)
    requires Inv(l)
    ensures Inv(AfterCall(l, estimate, task, phase))
  {
    if CallRefusal(l, estimate, task, phase).None? {
      if task != "" {
        AdmittedHasLease(l, estimate, task, phase);
      }
      BookingKeepsInv(l, NewReservation(l, estimate, task, phase));
    }
  }

  lemma BookingKeepsInv(l: Ledger, r: Reservation)
    requires Inv(l) && r.id == l.nextReservation && r.tokens >= 1
    requires r.task != "" ==>
               var i := FirstOf(l.leases, r.task); i < |l.leases| && l.leases[i].calls < l.leases[i].maxCalls
    ensures Inv(Book(l, r))
  {
    var l' := Book(l, r);
    assert LeasesOk(l'.leases, l'.nextLease) && LiveOk(l'.live, l'.nextReservation) by {
      if r.task != "" {
        ChargedLeasesOk(l.leases, r.task, r.tokens, l.nextLease);
      }
      AddedLiveOk(l.live, r);
    }
    AdmitCarried(l.leases, l.live, r);
    SumAppend(l.live, r, TaskTokens(""));
    SumAppend(l.live, r, WorkerTokens());
  }

  /** A worker's call is admitted only on a lease with a call left. */
  lemma AdmittedHasLease(l: Ledger, estimate: int, task: string, phase: string)
    requires task != "" && CallRefusal(l, estimate, task, phase).None?
    ensures FirstOf(l.leases, task) < |l.leases|
    ensures l.leases[FirstOf(l.leases, task)].calls < l.leases[FirstOf(l.leases, task)].maxCalls
  {
  }

  lemma AddedLiveOk(live: seq<Reservation>, r: Reservation)
    requires LiveOk(live, r.id) && r.tokens >= 1
    ensures LiveOk(live + [r], r.id + 1)
  {
  }

  lemma ChargedLeasesOk(leases: seq<Lease>, task: string, total: nat, next: nat)
    requires LeasesOk(leases, next)
    requires FirstOf(leases, task) < |leases| ==>
               leases[FirstOf(leases, task)].calls < leases[FirstOf(leases, task)].maxCalls
    ensures LeasesOk(ChargeLease(leases, task, total), next)
  {
  }

  // ------------------------------------------------------------ settlement

  lemma SettleCarried(leases: seq<Lease>, live: seq<Reservation>, k: nat, spent: nat)
    requires Carried(leases, live) && Backed(leases, live) && k < |live|
    ensures var r := live[k];
            var leases' := if r.task != "" then SettleLease(leases, r.task, r.tokens, spent) else leases;
            && Carried(leases', RemoveAt(live, k)) && Backed(leases', RemoveAt(live, k))
            && SumBy(leases', InFlightOf()) == SumBy(leases, InFlightOf()) - WorkerTokens()(r)
  {
    var r, live' := live[k], RemoveAt(live, k);
    forall t: string
      ensures SumBy(live', TaskTokens(t)) == SumBy(live, TaskTokens(t)) - TaskTokens(t)(r)
    {
      SumRemove(live, k, TaskTokens(t));
    }
    RemoveAtMembers(live, k);
    BackedSubset(leases, live, live');
    if r.task == "" {
      PlainChangeCarried(leases, live, live');
    } else {
      var i := FirstOf(leases, r.task);
      FirstOfSpec(leases, r.task);
      BackedMember(leases, live, r);
      var x := SettleLease(leases, r.task, r.tokens, spent)[i];
      assert CarriedAt(leases, live, i);
      UpdatedLeaseCarried(leases, live, i, x, live');
      UpdatedLeaseBacked(leases, live', i, x);
      SumUpdate(leases, i, x, InFlightOf());
    }
  }

  lemma SettleKeepsInv(l: Ledger, k: nat, spent: nat)
    requires Inv(l) && k < |l.live|
    ensures Inv(Settle(l, k, spent))
  {
    SettleCarried(l.leases, l.live, k, spent);
    SumRemove(l.live, k, TaskTokens(""));
    SumRemove(l.live, k, WorkerTokens());
    SettledLeasesOk(l.leases, l.live[k].task, l.live[k].tokens, spent, l.nextLease);
    RemovedLiveOk(l.live, k, l.nextReservation);
  }

  lemma SettledLeasesOk(leases: seq<Lease>, task: string, estimate: nat, spent: nat, next: nat)
    requires LeasesOk(leases, next)
    ensures LeasesOk(SettleLease(leases, task, estimate, spent), next)
  {
  }

  lemma RemovedLiveOk(live: seq<Reservation>, k: nat, next: nat)
    requires LiveOk(live, next) && k < |live|
    ensures LiveOk(RemoveAt(live, k), next)
  {
  }

  lemma RemovedLeasesOk(leases: seq<Lease>, i: nat, next: nat)
    requires LeasesOk(leases, next) && i < |leases|
    ensures LeasesOk(RemoveAt(leases, i), next)
  {
  }

  lemma GrantKeepsInv(l: Ledger, task: string)
    requires Inv(l)
    ensures Inv(AfterGrant(l, task))
  {
    if GrantAllowed(l, task) {
      var l', i := AfterGrant(l, task), FirstOf(l.leases, task);
      UpdatedLeaseBacked(l.leases, l.live, i, l'.leases[i]);
      SumUpdate(l.leases, i, l'.leases[i], InFlightOf());
      forall j | 0 <= j < |l'.leases|
        ensures CarriedAt(l'.leases, l'.live, j)
      {
        SameTasksSameFirst(l.leases, l'.leases, l.leases[j].task);
        assert CarriedAt(l.leases, l.live, j);
      }
    }
  }

  // ------------------------------------------------------------ lease release

  /** Dropping a lease of another task, or of none, leaves a lease as it was. */
  lemma OtherLeaseCarried(leases: seq<Lease>, live: seq<Reservation>, i: nat, j: nat)
    requires Carried(leases, live) && i < |leases| && j < |leases| - 1
    requires RemoveAt(leases, i)[j].task != leases[i].task
    ensures RemoveAt(leases, i)[j].inFlight
         == ExpectedInFlight(RemoveAt(leases, i), Without(live, leases[i].task), j)
  {
    var h := if j < i then j else j + 1;
    var t := leases[h].task;
    assert CarriedAt(leases, live, h);
    FirstOfSpec(leases, t);
    FirstAfterRemove(leases, i, t);
    WithoutKeeps(live, leases[i].task, TaskTokens(t));
  }

  /** Of two leases of one task, at most the first carries anything, so what is
      left after dropping one of them carries all or nothing. */
  lemma RemainingOfTask(leases: seq<Lease>, live: seq<Reservation>, i: nat, j: nat)
    requires Carried(leases, live) && i < |leases| && j < |leases| - 1
    requires leases[i].task != "" && RemoveAt(leases, i)[j].task == leases[i].task
    ensures var rest, task := RemoveAt(leases, i), leases[i].task;
            var all := SumBy(live, TaskTokens(task));
            && leases[i].inFlight + rest[j].inFlight <= all
            && (FirstOf(rest, task) == j ==> leases[i].inFlight + rest[j].inFlight == all)
            && (FirstOf(rest, task) != j ==> rest[j].inFlight == 0)
  {
    var rest, task := RemoveAt(leases, i), leases[i].task;
    var h := if j < i then j else j + 1;
    var f, g := FirstOf(leases, task), FirstOf(rest, task);
    assert CarriedAt(leases, live, h);
    assert CarriedAt(leases, live, i);
    FirstOfSpec(leases, task);
    FirstOfSpec(rest, task);
    if f < i {
      FirstOfIs(rest, task, f);
    }
  }

  lemma ReleasedLeaseCarried(leases: seq<Lease>, live: seq<Reservation>, i: nat, j: nat)
    requires Carried(leases, live) && i < |leases| && j < |leases| - 1
    requires leases[i].task != ""
    ensures var task := leases[i].task;
            var b := SettleLease(RemoveAt(leases, i), task, SumBy(live, TaskTokens(task)), 0);
            b[j].inFlight == ExpectedInFlight(b, Without(live, task), j)
  {
    var task, rest := leases[i].task, RemoveAt(leases, i);
    var b := SettleLease(rest, task, SumBy(live, TaskTokens(task)), 0);
    SameTasksSameFirst(rest, b, rest[j].task);
    if rest[j].task == task {
      RemainingOfTask(leases, live, i, j);
      WithoutTaskIsZero(live, task);
    } else {
      FirstOfSpec(rest, task);
      OtherLeaseCarried(leases, live, i, j);
    }
  }

  lemma ReleasedFlight(leases: seq<Lease>, live: seq<Reservation>, i: nat)
    requires Carried(leases, live) && i < |leases| && leases[i].task != ""
    ensures var task := leases[i].task;
            var all := SumBy(live, TaskTokens(task));
            SumBy(SettleLease(RemoveAt(leases, i), task, all, 0), InFlightOf())
              == SumBy(leases, InFlightOf()) - all
  {
    var task, rest := leases[i].task, RemoveAt(leases, i);
    var all, g := SumBy(live, TaskTokens(task)), FirstOf(rest, task);
    SumRemove(leases, i, InFlightOf());
    FirstOfSpec(rest, task);
    if g < |rest| {
      RemainingOfTask(leases, live, i, g);
      SumUpdate(rest, g, SettleLease(rest, task, all, 0)[g], InFlightOf());
    } else {
      assert CarriedAt(leases, live, i);
      FirstOfIs(leases, task, i);
    }
  }

  lemma ReleasedBacked(leases: seq<Lease>, live: seq<Reservation>, i: nat, b: seq<Lease>)
    requires Backed(leases, live) && i < |leases|
    requires |b| == |leases| - 1 && forall j :: 0 <= j < |b| ==> b[j].task == RemoveAt(leases, i)[j].task
    ensures Backed(b, Without(live, leases[i].task))
  {
    var live' := Without(live, leases[i].task);
    WithoutMembers(live, leases[i].task);
    forall k | 0 <= k < |live'|
      ensures BackedAt(b, live', k)
    {
      var r := live'[k];
      assert r in live';
      if r.task != "" {
        BackedMember(leases, live, r);
        FirstAfterRemove(leases, i, r.task);
        SameTasksSameFirst(RemoveAt(leases, i), b, r.task);
        FirstOfSpec(leases, r.task);
      }
    }
  }

  lemma ReleaseCarried(leases: seq<Lease>, live: seq<Reservation>, i: nat)
    requires Carried(leases, live) && Backed(leases, live) && i < |leases|
    ensures var task := leases[i].task;
            var b := if task != "" then SettleLease(RemoveAt(leases, i), task, SumBy(live, TaskTokens(task)), 0)
                     else RemoveAt(leases, i);
            && Carried(b, Without(live, task)) && Backed(b, Without(live, task))
            && SumBy(b, InFlightOf())
               == SumBy(leases, InFlightOf()) - (if task == "" then 0 else SumBy(live, TaskTokens(task)))
  {
    var task, rest := leases[i].task, RemoveAt(leases, i);
    var b := if task != "" then SettleLease(rest, task, SumBy(live, TaskTokens(task)), 0) else rest;
    FirstOfSpec(rest, task);
    ReleasedBacked(leases, live, i, b);
    forall j | 0 <= j < |b|
      ensures CarriedAt(b, Without(live, task), j)
    {
      if task != "" {
        ReleasedLeaseCarried(leases, live, i, j);
      } else if b[j].task != "" {
        OtherLeaseCarried(leases, live, i, j);
      } else {
        var h := if j < i then j else j + 1;
        assert CarriedAt(leases, live, h);
      }
    }
    if task != "" {
      ReleasedFlight(leases, live, i);
    } else {
      assert CarriedAt(leases, live, i);
      SumRemove(leases, i, InFlightOf());
    }
  }

  lemma ReleasedSums(live: seq<Reservation>, task: string)
    ensures var all := SumBy(live, TaskTokens(task));
            && SumBy(Only(live, task), TokensOf()) == all
            && SumBy(Without(live, task), TaskTokens(""))
               == SumBy(live, TaskTokens("")) - (if task == "" then all else 0)
            && SumBy(Without(live, task), WorkerTokens())
               == SumBy(live, WorkerTokens()) - (if task == "" then 0 else all)
  {
    OnlyTokens(live, task);
    WithoutOnly(live, task, TaskTokens(""));
    WithoutOnly(live, task, WorkerTokens());
    if task == "" {
      SumFrame(Only(live, task), TaskTokens(""), TokensOf());
      SumOfZeros(Only(live, task), WorkerTokens());
    } else {
      SumFrame(Only(live, task), WorkerTokens(), TokensOf());
      SumOfZeros(Only(live, task), TaskTokens(""));
    }
  }

  lemma ReleasedLeasesOk(leases: seq<Lease>, i: nat, estimate: nat, next: nat)
    requires LeasesOk(leases, next) && i < |leases|
    ensures LeasesOk(RemoveAt(leases, i), next)
    ensures LeasesOk(SettleLease(RemoveAt(leases, i), leases[i].task, estimate, 0), next)
  {
    RemovedLeasesOk(leases, i, next);
    SettledLeasesOk(RemoveAt(leases, i), leases[i].task, estimate, 0, next);
  }

  lemma ReleaseTaskInv(l: Ledger, i: nat)
    requires Inv(l) && i < |l.leases|
    ensures Inv(ReleaseTask(l.(leases := RemoveAt(l.leases, i)), l.leases[i].task))
  {
    var task := l.leases[i].task;
    ReleasedSums(l.live, task);
    ReleaseCarried(l.leases, l.live, i);
    WithoutOnly(l.live, task, TokensOf());
    WithoutOk(l.live, task, l.nextReservation);
    ReleasedLeasesOk(l.leases, i, SumBy(l.live, TaskTokens(task)), l.nextLease);
  }

  lemma LeaseReleaseKeepsInv(l: Ledger, id: nat, now: real)
    requires Inv(l)
    ensures Inv(AfterLeaseRelease(l, id, now))
  {
    var i := LeaseIndex(l.leases, id);
    if i < |l.leases| {
      ReleaseTaskInv(l, i);
    }
  }

  // ------------------------------------------------------------ every step

  /** Steps that leave leases, reservations and their totals alone. */
  predicate Bookkeeping(op: Op) {
    || op.ReserveTools? || op.CapTools? || op.SyncUsage? || op.CommitTokens? || op.NoteCall?
    || op.MarkForce? || op.QueryForce?
  }

  lemma BookkeepingKeepsInv(l: Ledger, op: Op, now: real)
    requires Inv(l) && Bookkeeping(op)
    ensures Inv(Step(l, op, now))
    ensures Step(l, op, now).leases == l.leases && Step(l, op, now).live == l.live
  {
  }

  lemma CommitKeepsInv(l: Ledger, id: nat, actual: int, now: real)
    requires Inv(l)
    ensures Inv(AfterCommit(l, id, actual, now))
  {
    var k := LiveIndex(l.live, id);
    if k < |l.live| {
      SettleKeepsInv(l, k, ActualTokens(actual, l.live[k].tokens));
    }
  }

  lemma ReleaseKeepsInv(l: Ledger, id: nat)
    requires Inv(l)
    ensures Inv(AfterRelease(l, id))
  {
    if LiveIndex(l.live, id) < |l.live| {
      SettleKeepsInv(l, LiveIndex(l.live, id), 0);
    }
  }

  lemma StepKeepsInv(l: Ledger, op: Op, now: real)
    requires Inv(l)
    ensures Inv(Step(l, op, now))
  {
    match op
    case ReserveLease(q) => NewLeaseKeepsInv(l, q, now);
    case ReleaseLease(id) => LeaseReleaseKeepsInv(l, id, now);
    case GrantFinalization(task) => GrantKeepsInv(l, task);
    case ReserveCall(estimate, task, phase) => AdmissionKeepsInv(l, estimate, task, phase);
    case CommitCall(id, actual) => CommitKeepsInv(l, id, actual, now);
    case ReleaseCall(id) => ReleaseKeepsInv(l, id);
    case _ => BookkeepingKeepsInv(l, op, now);
  }

  lemma StepKeepsConfig(l: Ledger, op: Op, now: real)
    ensures Step(l, op, now).cfg == l.cfg
    ensures Step(l, op, now).nextLease >= l.nextLease && Step(l, op, now).nextReservation >= l.nextReservation
  {
  }
}
