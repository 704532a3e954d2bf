/** The run budget ledger of `app/agent/harness/run_budget.py`, as values.

    A dictionary of the original is a sequence in insertion order (re-assigning
    a key keeps its place).  The random identifiers are drawn from counters, so
    an identifier is never issued twice.  The stage caps depend only on values
    fixed at construction and are computed once.  A limit of zero means
    "unlimited".  Every method of the original holds one lock, so it is one
    atomic step; the clock reading it makes is its parameter `now`. */
module RunBudget {
  import opened Common
  import opened Sums

  // ---------------------------------------------------------------- data

  datatype Stage = Research | Repair

  datatype Lease = Lease(
    id: nat, task: string, ceiling: nat, maxCalls: nat, maxOutput: nat,
    used: nat, inFlight: nat, calls: nat, finalCalls: nat, stage: Stage)

  datatype Reservation = Reservation(id: nat, tokens: nat, task: string, phase: string)

  datatype Config = Config(
    tokenLimit: nat, callLimit: nat, callsPerWorker: nat, parallel: nat,
    capResearch: nat, capRepair: nat,
    started: real, deadline: real, synthesisReserve: real)
  {
    /** What construction establishes, whatever the configured shares are. */
    predicate Valid() {
      && capResearch <= capRepair <= tokenLimit
      && callsPerWorker >= 1 && parallel >= 1
      && deadline >= 0.0 && synthesisReserve >= 0.0
    }
  }

  datatype Ledger = Ledger(
    cfg: Config, toolLimit: nat,
    used: nat, calls: nat, tools: nat, force: bool,
    reservedPlain: nat, reservedCalls: nat,
    leases: seq<Lease>, live: seq<Reservation>,
    nextLease: nat, nextReservation: nat)

  datatype Reason =
    | RunTokenCap | ResearchTokenCap | RunCallCap | ToolCap | DeadlineExceeded | SynthesisTimeReserve
    | LeaseMissing | WorkerCallCap | WorkerTokenCap

  datatype Outcome = Granted(id: nat) | Refused(reason: Reason)

  // -------------------------------------------------------- configuration

  function ClampShare(share: real): real {
    if share < 0.0 then 0.0 else if share > 1.0 then 1.0 else share
  }

  /** Tokens of a stage share; never more than the whole limit. */
  function ShareTokens(limit: nat, share: real): (r: nat)
    ensures r <= limit
  {
    var product := limit as real * ClampShare(share);
    assert 0.0 <= product <= limit as real;
    product.Floor
  }

  /** `value or default` of the original, for integers. */
  function OrElse(value: int, default: int): int {
    if value == 0 then default else value
  }

  function MakeConfig(
    tokenLimit: int, callLimit: int, callsPerWorker: int, parallel: int,
    researchShare: real, repairShare: real,
    started: real, deadline: real, synthesisReserve: real): (cfg: Config)
    ensures cfg.Valid()
    ensures tokenLimit <= 0 ==> cfg.tokenLimit == cfg.capResearch == cfg.capRepair == 0
  {
    var limit := Max0(tokenLimit);
    var initial := ShareTokens(limit, researchShare);
    Config(limit, Max0(callLimit), Max(1, OrElse(callsPerWorker, 8)), Max(1, OrElse(parallel, 3)),
           initial, Min(limit, initial + ShareTokens(limit, repairShare)),
           started, if deadline < 0.0 then 0.0 else deadline,
           if synthesisReserve < 0.0 then 0.0 else synthesisReserve)
  }

  function InitialLedger(cfg: Config, toolLimit: nat): Ledger {
    Ledger(cfg, toolLimit, 0, 0, 0, false, 0, 0, [], [], 0, 0)
  }

  function StageCap(cfg: Config, stage: Stage): nat {
    if stage.Repair? then cfg.capRepair else cfg.capResearch
  }

  // ---------------------------------------------------------------- phases

  function LowerChar(c: char): char {
    if 'A' <= c <= 'Z' then c - 'A' + 'a' else c
  }

  function Lower(s: string): string {
    seq(|s|, i requires 0 <= i < |s| => LowerChar(s[i]))
  }

  predicate IsResearchPhase(phase: string) {
    phase in {"execute", "worker", "research", "recover", "validate"}
  }

  predicate IsFinalizePhase(phase: string) {
    phase in {"finalize", "finalization"}
  }

  // ------------------------------------------------------- sums and lookups

  function InFlightOf(): Lease -> nat { (lease: Lease) => lease.inFlight }

  function TokensOf(): Reservation -> nat { (r: Reservation) => r.tokens }

  /** Tokens of the reservations made for `task`. */
  function TaskTokens(task: string): Reservation -> nat {
    (r: Reservation) => if r.task == task then r.tokens else 0
  }

  function WorkerTokens(): Reservation -> nat {
    (r: Reservation) => if r.task != "" then r.tokens else 0
  }

  function WorkerReserved(l: Ledger): nat { SumBy(l.leases, InFlightOf()) }

  function EffectiveReserved(l: Ledger): nat { l.reservedPlain + WorkerReserved(l) }

  function ForTask(task: string): Lease -> bool { (lease: Lease) => lease.task == task }

  /** Position of the first lease of `task`, or the number of leases. */
  function FirstOf(leases: seq<Lease>, task: string): (i: nat)
    ensures i <= |leases|
  {
    FirstIndex(leases, ForTask(task))
  }

  function WithLeaseId(id: nat): Lease -> bool { (lease: Lease) => lease.id == id }

  function LeaseIndex(leases: seq<Lease>, id: nat): (i: nat)
    ensures i <= |leases|
  {
    FirstIndex(leases, WithLeaseId(id))
  }

  function WithId(id: nat): Reservation -> bool { (r: Reservation) => r.id == id }

  function LiveIndex(live: seq<Reservation>, id: nat): (i: nat)
    ensures i <= |live|
  {
    FirstIndex(live, WithId(id))
  }

  function Without(live: seq<Reservation>, task: string): seq<Reservation> {
    if |live| == 0 then []
    else
      var r := live[|live| - 1];
      Without(live[..|live| - 1], task) + (if r.task == task then [] else [r])
  }

  function Only(live: seq<Reservation>, task: string): seq<Reservation> {
    if |live| == 0 then []
    else
      var r := live[|live| - 1];
      Only(live[..|live| - 1], task) + (if r.task == task then [r] else [])
  }

  // ------------------------------------------------------ clock and refusals

  function RemainingRun(cfg: Config, now: real): real {
    if cfg.deadline <= 0.0 then 1000000000.0
    else if cfg.started + cfg.deadline - now < 0.0 then 0.0
    else cfg.started + cfg.deadline - now
  }

  function RemainingResearch(cfg: Config, now: real): real {
    var left := RemainingRun(cfg, now) - cfg.synthesisReserve;
    if left < 0.0 then 0.0 else left
  }

  function Elapsed(cfg: Config, now: real): real {
    if now - cfg.started < 0.0 then 0.0 else now - cfg.started
  }

  /** `_research_block_reason_locked`: why no lease of this stage is given now. */
  function BlockReason(l: Ledger, stage: Stage, now: real): Option<Reason> {
    var effective := l.used + EffectiveReserved(l);
    if l.cfg.tokenLimit > 0 && effective >= l.cfg.tokenLimit then Some(RunTokenCap)
    else if l.cfg.tokenLimit > 0 && effective >= StageCap(l.cfg, stage) then Some(ResearchTokenCap)
    else if l.cfg.callLimit > 0 && l.calls + l.reservedCalls >= l.cfg.callLimit then Some(RunCallCap)
    else if l.toolLimit > 0 && l.tools >= l.toolLimit then Some(ToolCap)
    else if l.cfg.deadline > 0.0 && Elapsed(l.cfg, now) >= l.cfg.deadline then Some(DeadlineExceeded)
    else if l.cfg.deadline > 0.0 && RemainingResearch(l.cfg, now) <= 0.0 then Some(SynthesisTimeReserve)
    else None
  }

  /** `exhaustion_reason`: like the above, over committed usage only. */
  function ExhaustionReason(l: Ledger, now: real): Option<Reason> {
    if l.cfg.tokenLimit > 0 && l.used >= l.cfg.tokenLimit then Some(RunTokenCap)
    else if l.cfg.tokenLimit > 0 && l.used >= l.cfg.capResearch then Some(ResearchTokenCap)
    else if l.cfg.callLimit > 0 && l.calls >= l.cfg.callLimit then Some(RunCallCap)
    else if l.toolLimit > 0 && l.tools >= l.toolLimit then Some(ToolCap)
    else if l.cfg.deadline > 0.0 && RemainingRun(l.cfg, now) <= 0.0 then Some(DeadlineExceeded)
    else if l.cfg.deadline > 0.0 && RemainingResearch(l.cfg, now) <= 0.0 then Some(SynthesisTimeReserve)
    else None
  }

  predicate MustSynthesize(l: Ledger, now: real) {
    || (l.cfg.tokenLimit > 0 && l.used >= l.cfg.capResearch)
    || (l.cfg.callLimit > 0 && l.calls >= l.cfg.callLimit)
    || (l.toolLimit > 0 && l.tools >= l.toolLimit)
    || (RemainingResearch(l.cfg, now) <= 0.0 && l.cfg.deadline > 0.0)
  }

  /** `_maybe_force_synthesis_locked`: the flag only ever rises. */
  function Refresh(l: Ledger, now: real): Ledger {
    l.(force := l.force || MustSynthesize(l, now))
  }

  // ---------------------------------------------------------------- leases

  datatype LeaseRequest = LeaseRequest(
    task: string, maxCalls: int, ceiling: Option<int>, parallel: int, maxOutput: int, stage: Stage)

  function FairShare(cap: nat, workers: int): nat {
    if cap > 0 then Max(1, cap / Max(1, workers)) else 0
  }

  /** The token ceiling a granted lease gets. */
  function GrantedCeiling(l: Ledger, q: LeaseRequest): nat {
    var cap := StageCap(l.cfg, q.stage);
    var active := WorkerReserved(l);
    var wanted := if q.ceiling.Some? then Max0(q.ceiling.value)
                  else FairShare(cap, OrElse(q.parallel, l.cfg.parallel));
    var inStage := if cap > 0 then Min(wanted, cap - l.used - active) else wanted;
    var inRun := if l.cfg.tokenLimit > 0
                 then Min(inStage, l.cfg.tokenLimit - l.used - l.reservedPlain - active) else inStage;
    Max0(inRun)
  }

  function NewLease(l: Ledger, q: LeaseRequest): Lease {
    Lease(l.nextLease, q.task, GrantedCeiling(l, q), Max(1, OrElse(q.maxCalls, l.cfg.callsPerWorker)),
          Max(1, OrElse(q.maxOutput, 4096)), 0, 0, 0, 0, q.stage)
  }

  function LeaseOutcome(l: Ledger, q: LeaseRequest, now: real): Outcome {
    match BlockReason(l, q.stage, now)
    case Some(reason) => Refused(reason)
    case None => Granted(l.nextLease)
  }

  function AfterLease(l: Ledger, q: LeaseRequest, now: real): Ledger {
    if BlockReason(l, q.stage, now).Some? then l else AddLease(l, NewLease(l, q))
  }

  function AddLease(l: Ledger, x: Lease): Ledger {
    l.(leases := l.leases + [x], nextLease := l.nextLease + 1)
  }

  /** Charge the first lease of `task`: `spent` tokens are used, `estimate` no
      longer in flight. */
  function SettleLease(leases: seq<Lease>, task: string, estimate: nat, spent: nat): (r: seq<Lease>)
    ensures |r| == |leases|
  {
    var i := FirstOf(leases, task);
    if i < |leases| then
      leases[i := leases[i].(used := leases[i].used + spent,
                             inFlight := Max0(leases[i].inFlight - estimate))]
    else leases
  }

  /** Releasing a lease settles every reservation of its task as an errored
      request, all at once. */
  function AfterLeaseRelease(l: Ledger, id: nat, now: real): Ledger {
    var i := LeaseIndex(l.leases, id);
    if i == |l.leases| then l
    else
      var task := l.leases[i].task;
      Refresh(ReleaseTask(l.(leases := RemoveAt(l.leases, i)), task), now)
  }

  function ReleaseTask(l: Ledger, task: string): Ledger {
    var mine := Only(l.live, task);
    Dropped(l, task, SumBy(mine, TokensOf()), |mine|, Without(l.live, task))
  }

  /** The ledger after `n` reservations of `task`, of `tokens` tokens in all,
      ended in error and `live` is what is left. */
  function Dropped(l: Ledger, task: string, tokens: nat, n: nat, live: seq<Reservation>): Ledger {
    l.(live := live,
       leases := if task != "" then SettleLease(l.leases, task, tokens, 0) else l.leases,
       reservedPlain := if task == "" then Max0(l.reservedPlain - tokens) else l.reservedPlain,
       reservedCalls := Max0(l.reservedCalls - n),
       calls := l.calls + n)
  }

  predicate GrantAllowed(l: Ledger, task: string) {
    var i := FirstOf(l.leases, task);
    && i < |l.leases|
    && l.leases[i].finalCalls < 1
    && !(l.cfg.callLimit > 0 && l.calls + l.reservedCalls >= l.cfg.callLimit)
  }

  function AfterGrant(l: Ledger, task: string): Ledger {
    if !GrantAllowed(l, task) then l
    else
      var i := FirstOf(l.leases, task);
      l.(leases := l.leases[i := l.leases[i].(maxCalls := l.leases[i].maxCalls + 1,
                                              finalCalls := l.leases[i].finalCalls + 1)])
  }

  // ------------------------------------------------------- LLM reservations

  /** Tokens of a lease only a finalize call may use. */
  function FinalizationReserve(ceiling: nat): nat {
    if ceiling > 0 then Max(1, ceiling * 15 / 100) else 0
  }

  function WorkerLimit(lease: Lease, phase: string): nat {
    if lease.ceiling > 0 && !IsFinalizePhase(phase)
    then Max0(lease.ceiling - FinalizationReserve(lease.ceiling)) else lease.ceiling
  }

  function WorkerRefusal(l: Ledger, total: nat, task: string, phase: string): Option<Reason> {
    var i := FirstOf(l.leases, task);
    if i == |l.leases| then Some(LeaseMissing)
    else if l.leases[i].calls >= l.leases[i].maxCalls then Some(WorkerCallCap)
    else if l.leases[i].ceiling > 0
         && l.leases[i].used + l.leases[i].inFlight + total > WorkerLimit(l.leases[i], phase)
    then Some(WorkerTokenCap)
    else None
  }

  function StageOf(leases: seq<Lease>, task: string): Stage {
    var i := FirstOf(leases, task);
    if task != "" && i < |leases| then leases[i].stage else Research
  }

  function CallTokens(estimate: int): nat { Max(1, OrElse(estimate, 1)) }

  /** Why `reserve_llm_call` refuses, if it does. */
  function CallRefusal(l: Ledger, estimate: int, task: string, phase: string): Option<Reason> {
    var total := CallTokens(estimate);
    var after := l.used + EffectiveReserved(l) + total;
    if l.cfg.callLimit > 0 && l.calls + l.reservedCalls >= l.cfg.callLimit then Some(RunCallCap)
    else if task != "" && WorkerRefusal(l, total, task, Lower(phase)).Some?
    then WorkerRefusal(l, total, task, Lower(phase))
    else if l.cfg.tokenLimit > 0 && after > l.cfg.tokenLimit then Some(RunTokenCap)
    else if IsResearchPhase(Lower(phase)) && l.cfg.tokenLimit > 0
         && after > StageCap(l.cfg, StageOf(l.leases, task))
    then Some(ResearchTokenCap)
    else None
  }

  function CallOutcome(l: Ledger, estimate: int, task: string, phase: string): Outcome {
    match CallRefusal(l, estimate, task, phase)
    case Some(reason) => Refused(reason)
    case None => Granted(l.nextReservation)
  }

  function NewReservation(l: Ledger, estimate: int, task: string, phase: string): Reservation {
    Reservation(l.nextReservation, CallTokens(estimate), task, Lower(phase))
  }

  function ChargeLease(leases: seq<Lease>, task: string, total: nat): (r: seq<Lease>)
    ensures |r| == |leases|
  {
    var i := FirstOf(leases, task);
    if i < |leases| then
      leases[i := leases[i].(inFlight := leases[i].inFlight + total, calls := leases[i].calls + 1)]
    else leases
  }

  function AfterCall(l: Ledger, estimate: int, task: string, phase: string): Ledger {
    if CallRefusal(l, estimate, task, phase).Some? then l else Book(l, NewReservation(l, estimate, task, phase))
  }

  /** Charge a reservation to its lease, or to the run. */
  function Book(l: Ledger, r: Reservation): Ledger {
    l.(live := l.live + [r],
       reservedCalls := l.reservedCalls + 1,
       leases := if r.task != "" then ChargeLease(l.leases, r.task, r.tokens) else l.leases,
       reservedPlain := if r.task != "" then l.reservedPlain else l.reservedPlain + r.tokens,
       nextReservation := l.nextReservation + 1)
  }

  function ActualTokens(actual: int, estimate: nat): nat { Max(1, OrElse(actual, estimate)) }

  /** One reservation leaves the ledger, having spent `spent` tokens. */
  function Settle(l: Ledger, k: nat, spent: nat): Ledger
    requires k < |l.live|
  {
    var r := l.live[k];
    l.(live := RemoveAt(l.live, k),
       reservedCalls := Max0(l.reservedCalls - 1),
       leases := if r.task != "" then SettleLease(l.leases, r.task, r.tokens, spent) else l.leases,
       reservedPlain := if r.task != "" then l.reservedPlain else Max0(l.reservedPlain - r.tokens),
       used := l.used + spent,
       calls := l.calls + 1)
  }

  function AfterCommit(l: Ledger, id: nat, actual: int, now: real): Ledger {
    var k := LiveIndex(l.live, id);
    if k == |l.live| then l
    else Refresh(Settle(l, k, ActualTokens(actual, l.live[k].tokens)), now)
  }

  /** An errored request still costs its call slot; the flag is not refreshed. */
  function AfterRelease(l: Ledger, id: nat): Ledger {
    var k := LiveIndex(l.live, id);
    if k == |l.live| then l else Settle(l, k, 0)
  }

  // -------------------------------------------------- tools and other steps

  predicate ToolsRefused(l: Ledger, count: int) {
    l.toolLimit > 0 && l.tools + Max(1, OrElse(count, 1)) > l.toolLimit
  }

  function AfterTools(l: Ledger, count: int, now: real): Ledger {
    if ToolsRefused(l, count) then l
    else Refresh(l.(tools := l.tools + Max(1, OrElse(count, 1))), now)
  }

  function AfterToolCap(l: Ledger, limit: int, now: real): Ledger {
    if limit <= 0 then l
    else if l.toolLimit == 0 || limit < l.toolLimit then Refresh(l.(toolLimit := limit), now)
    else l
  }

  function AfterSync(l: Ledger, used: int, calls: int, tools: int, now: real): Ledger {
    Refresh(l.(used := Max(l.used, used), calls := Max(l.calls, calls), tools := Max(l.tools, tools)), now)
  }

  /** Every state-changing public method. */
  datatype Op =
    | ReserveLease(request: LeaseRequest)
    | ReleaseLease(lease: nat)
    | GrantFinalization(task: string)
    | ReserveCall(estimate: int, task: string, phase: string)
    | CommitCall(reservation: nat, actual: int)
    | ReleaseCall(reservation: nat)
    | ReserveTools(count: int)
    | CapTools(limit: int)
    | SyncUsage(used: int, calls: int, tools: int)
    | CommitTokens(tokens: int)
    | NoteCall
    | MarkForce
    | QueryForce

  function Step(l: Ledger, op: Op, now: real): Ledger {
    match op
    case ReserveLease(q) => AfterLease(l, q, now)
    case ReleaseLease(id) => AfterLeaseRelease(l, id, now)
    case GrantFinalization(task) => AfterGrant(l, task)
    case ReserveCall(estimate, task, phase) => AfterCall(l, estimate, task, phase)
    case CommitCall(id, actual) => AfterCommit(l, id, actual, now)
    case ReleaseCall(id) => AfterRelease(l, id)
    case ReserveTools(count) => AfterTools(l, count, now)
    case CapTools(limit) => AfterToolCap(l, limit, now)
    case SyncUsage(used, calls, tools) => AfterSync(l, used, calls, tools, now)
    case CommitTokens(tokens) => Refresh(l.(used := l.used + Max0(tokens)), now)
    case NoteCall => Refresh(l.(calls := l.calls + 1), now)
    case MarkForce => l.(force := true)
    case QueryForce => Refresh(l, now)
  }
}
