/**
 The checkout protocol between one account's rows and Stripe
 (api/src/billing/billing.service.ts): concurrent callers that may crash or lose replies
 anywhere between two transactions, and create requests that Stripe executes on its own time.
 */
module BillingProtocol {
  import opened Options
  import opened BillingAccounts

  /**
   `settle`: a create request is executed at most this long after the fence it was sent
   under. `gap`: a reconciliation commits at most this long after asking for its listing.
   */
  datatype Config = Config(settle: nat, gap: nat)

  /** A create request on its way to Stripe, named by the fence it was sent under. */
  datatype Request = Request(op: nat, owner: nat, attempt: nat, order: Option<Order>, fencedAt: nat)

  /** What a caller holds between transactions; `expiring` is the attempt it has expired a session for. */
  datatype Caller =
    | Reserved(op: nat, owner: nat, order: Order, expiring: Option<nat>)
    | Snapped(op: nat, owner: nat, order: Order, expiring: Option<nat>, snap: Snapshot)
    | Listed(op: nat, owner: nat, order: Order, expiring: Option<nat>, snap: Snapshot)
    | Sending(op: nat, owner: nat, attempt: nat, plan: Option<Order>, fencedAt: nat)
    | Waiting(op: nat, owner: nat, attempt: nat, plan: Option<Order>, fencedAt: nat)
    | Returned(op: nat, owner: nat, attempt: nat)
    | Ambiguous(op: nat, owner: nat)
    | OpeningPortal(op: nat, owner: nat)
    | Finishing(op: nat, owner: nat)
    | ReadyToReconcile
    | ReconcileSnapped(snap: Snapshot)
    | ReconcileListed(snap: Snapshot)
    | SubscriptionListed(snap: Snapshot)

  /** The owner token a caller holds. */
  function OwnerOf(c: Caller): Option<nat> {
    if c.ReadyToReconcile? || c.ReconcileSnapped? || c.ReconcileListed? || c.SubscriptionListed? then None
    else Some(c.owner)
  }

  /** A session Stripe has created, with the request that created it. */
  datatype Created = Created(origin: Request, executedAt: nat)

  /**
   `recorded` collects every session that was ever on the user row or among the cleanup
   intents; `unused` is the next unused identifier.
   */
  datatype World = World(
    now: nat, account: Account, sessions: map<nat, Created>, requests: set<Request>, callers: map<nat, Caller>,
    recorded: set<nat>, unused: nat)

  const NO_COLUMNS := Columns(None, None, None, None, None, None, None)

  const START := World(0, Account(NO_COLUMNS, map[], {}, 0), map[], {}, map[], {}, 0)

  datatype Step =
    | Advance(to: nat)
    | ReserveCheckout(caller: nat, order: Order)
    | EnsureCustomer(caller: nat)
    | TakeSnapshot(caller: nat)
    | ListSessions(caller: nat, subscribed: bool, listed: seq<SessionInfo>)
    | CoordinateTx(caller: nat)
    | Send(caller: nat)
    | ExecuteCreate(request: Request)
    | DropCreate(request: Request)
    | CreateSucceeds(caller: nat)
    | CreateRefused(caller: nat)
    | CreateAmbiguous(caller: nat)
    | PersistTx(caller: nat, url: Option<string>)
    | UncertainTx(caller: nat)
    | FinishTx(caller: nat)
    | Throw(caller: nat)
    | Crash(caller: nat)
    | BeginReconcile(caller: nat)
    | ReconcileSnapshot(caller: nat)
    | ReconcileListing(caller: nat, listed: seq<SessionInfo>)
    | ReconcileTx(caller: nat, expired: seq<nat>)
    | CleanupOwnedTx(session: nat)
    | CleanupDoneTx(session: nat)
    | ReservePortalTx(caller: nat)
    | RenewPortalTx(caller: nat)
    | PortalAmbiguous(caller: nat)
    | PortalSettled(caller: nat)
    | SubscriptionSnapshot(caller: nat)
    | SubscriptionTx(caller: nat, state: Subscription)
    | SetPlan(plan: string, limits: Option<nat>, manualOverride: bool)

  predicate MovesCaller(step: Step) {
    || step.TakeSnapshot? || step.ListSessions? || step.CreateSucceeds? || step.CreateAmbiguous? || step.Throw?
    || step.PortalAmbiguous? || step.PortalSettled? || step.ReconcileSnapshot? || step.ReconcileListing? || step.Crash?
  }

  predicate IsCheckoutTx(step: Step) {
    step.CoordinateTx? || step.PersistTx? || step.UncertainTx? || step.FinishTx? || step.RenewPortalTx?
  }

  predicate IsStripeStep(step: Step) { step.Send? || step.ExecuteCreate? || step.DropCreate? || step.CreateRefused? }

  /** The transactions that read no caller's token, new callers, and time. */
  predicate IsAccountStep(step: Step) {
    !MovesCaller(step) && !IsCheckoutTx(step) && !IsStripeStep(step) && !step.ReconcileTx?
  }

  /** A complete listing: exactly the sessions Stripe has, each once. */
  ghost predicate CompleteListing(w: World, listed: seq<SessionInfo>) {
    && (forall i, j :: 0 <= i < j < |listed| ==> listed[i].attempt != listed[j].attempt)
    && (forall a :: a in w.sessions <==> exists i :: 0 <= i < |listed| && listed[i].attempt == a)
  }

  ghost predicate MoveEnabled(w: World, step: Step)
    requires MovesCaller(step)
  {
    step.caller in w.callers
    && var caller := w.callers[step.caller];
       match step
       case TakeSnapshot(_) => caller.Reserved? && w.account.cols.customer.Some?
       case ListSessions(_, _, listed) => caller.Snapped? && CompleteListing(w, listed)
       case CreateSucceeds(_) => caller.Waiting? && caller.attempt in w.sessions && RequestOf(caller) !in w.requests
       case CreateAmbiguous(_) => caller.Waiting?
       case Throw(_) => caller.Reserved? || caller.Snapped? || caller.Listed?
       case PortalAmbiguous(_) => caller.OpeningPortal?
       case PortalSettled(_) => caller.OpeningPortal?
       case ReconcileSnapshot(_) => caller.ReadyToReconcile?
       case ReconcileListing(_, listed) =>
         caller.ReconcileSnapped? && if caller.snap.customer.Some? then CompleteListing(w, listed) else listed == []
       case _ => true
  }

  predicate CheckoutTxEnabled(w: World, step: Step)
    requires IsCheckoutTx(step)
  {
    step.caller in w.callers
    && var caller := w.callers[step.caller];
       match step
       case CoordinateTx(_) => caller.Listed?
       case PersistTx(_, _) => caller.Returned?
       case UncertainTx(_) => caller.Ambiguous?
       case FinishTx(_) => caller.Finishing?
       case _ => caller.OpeningPortal?
  }

  predicate StripeEnabled(cfg: Config, w: World, step: Step)
    requires IsStripeStep(step)
  {
    match step
    case Send(c) => c in w.callers && w.callers[c].Sending?
    case ExecuteCreate(r) => r in w.requests && w.now <= r.fencedAt + cfg.settle
    case DropCreate(r) => r in w.requests
    case CreateRefused(c) => c in w.callers && w.callers[c].Waiting? && RequestOf(w.callers[c]) in w.requests
  }

  ghost predicate ReconcileEnabled(cfg: Config, w: World, c: nat, expired: seq<nat>) {
    && c in w.callers && w.callers[c].ReconcileListed? && w.now <= w.callers[c].snap.listedAt + cfg.gap
    && ListsExpired(w.account, expired, w.now)
  }

  ghost predicate AccountEnabled(w: World, step: Step)
    requires IsAccountStep(step)
  {
    match step
    case Advance(to) => w.now < to
    case ReserveCheckout(c, order) => c !in w.callers && CanReserve(w.account, order, w.now)
    case EnsureCustomer(c) => c in w.callers && w.callers[c].Reserved?
    case BeginReconcile(c) =>
      c !in w.callers && exists op :: op in w.account.operations && w.account.operations[op].leaseExpiresAt <= w.now
    case ReservePortalTx(c) => c !in w.callers && CanReservePortal(w.account)
    case SubscriptionSnapshot(c) => c !in w.callers && w.account.cols.customer.Some?
    case SubscriptionTx(c, _) => c in w.callers && w.callers[c].SubscriptionListed?
    case _ => true
  }

  ghost predicate Enabled(cfg: Config, w: World, step: Step) {
    if MovesCaller(step) then MoveEnabled(w, step)
    else if IsCheckoutTx(step) then CheckoutTxEnabled(w, step)
    else if IsStripeStep(step) then StripeEnabled(cfg, w, step)
    else if step.ReconcileTx? then ReconcileEnabled(cfg, w, step.caller, step.expired)
    else AccountEnabled(w, step)
  }

  function RequestOf(c: Caller): Request
    requires c.Waiting? || c.Sending?
  {
    Request(c.op, c.owner, c.attempt, c.plan, c.fencedAt)
  }

  function SnapshotNow(w: World): Snapshot {
    Snapshot(w.account.version, w.account.cols.customer, w.account.cols, false, [], w.now)
  }

  function RecordedNow(a: Account): set<nat> {
    a.intents + if a.cols.session.Some? then {a.cols.session.value} else {}
  }

  function WithAccount(w: World, a: Account): World {
    w.(account := a, recorded := w.recorded + RecordedNow(a))
  }

  function WithCaller(w: World, c: nat, caller: Caller): World { w.(callers := w.callers[c := caller]) }

  function WithoutCaller(w: World, c: nat): World { w.(callers := w.callers - {c}) }

  /**
   How a coordinated caller goes on. After expiring one session it coordinates once more; a
   second session to expire stops it if it is for the same attempt, and otherwise is left
   open while the session of the new attempt is created.
   */
  function AfterCoordinate(caller: Caller, action: Action, now: nat): Caller
    requires caller.Listed?
  {
    match action
    case RetryStale => Reserved(caller.op, caller.owner, caller.order, caller.expiring)
    case RefuseCheckout => Finishing(caller.op, caller.owner)
    case ReuseSession => Finishing(caller.op, caller.owner)
    case OpenPortal => OpeningPortal(caller.op, caller.owner)
    case CreateSession(attempt) => Sending(caller.op, caller.owner, attempt, Some(caller.order), now)
    case ExpireSession(attempt, _) =>
      match caller.expiring
      case None => Reserved(caller.op, caller.owner, caller.order, Some(attempt))
      case Some(before) =>
        if before == attempt then Finishing(caller.op, caller.owner)
        else Sending(caller.op, caller.owner, attempt, Some(caller.order), now)
  }

  /** The steps between transactions: callers that read, list, give up or crash. */
  function MoveCaller(w: World, step: Step): World
    requires MovesCaller(step) && MoveEnabled(w, step)
  {
    var c, caller := step.caller, w.callers[step.caller];
    match step
    case TakeSnapshot(_) =>
      WithCaller(w, c, Snapped(caller.op, caller.owner, caller.order, caller.expiring, SnapshotNow(w)))
    case ListSessions(_, subscribed, listed) =>
      var snap := caller.snap.(subscribed := subscribed, listed := listed, listedAt := w.now);
      WithCaller(w, c, Listed(caller.op, caller.owner, caller.order, caller.expiring, snap))
    case CreateSucceeds(_) => WithCaller(w, c, Returned(caller.op, caller.owner, caller.attempt))
    case CreateAmbiguous(_) => WithCaller(w, c, Ambiguous(caller.op, caller.owner))
    case Throw(_) => WithCaller(w, c, Finishing(caller.op, caller.owner))
    case PortalAmbiguous(_) => WithCaller(w, c, Ambiguous(caller.op, caller.owner))
    case PortalSettled(_) => WithCaller(w, c, Finishing(caller.op, caller.owner))
    case ReconcileSnapshot(_) => WithCaller(w, c, ReconcileSnapped(SnapshotNow(w)))
    case ReconcileListing(_, listed) =>
      WithCaller(w, c, ReconcileListed(caller.snap.(listed := listed, listedAt := w.now)))
    case _ => WithoutCaller(w, c)
  }

  /** The checkout transactions of the step's caller. */
  function CheckoutTx(w: World, step: Step): World
    requires IsCheckoutTx(step) && CheckoutTxEnabled(w, step)
  {
    var c, caller := step.caller, w.callers[step.caller];
    match step
    case CoordinateTx(_) =>
      var (account, action) :=
        Coordinate(w.account, caller.op, caller.owner, caller.order, caller.snap, w.unused, w.now);
      WithCaller(WithAccount(w, account), c, AfterCoordinate(caller, action, w.now)).(unused := w.unused + 1)
    case PersistTx(_, url) =>
      var (account, _) := PersistReturned(w.account, caller.op, caller.owner, caller.attempt, url);
      WithCaller(WithAccount(w, account), c, Finishing(caller.op, caller.owner))
    case UncertainTx(_) => WithoutCaller(WithAccount(w, MarkUncertain(w.account, caller.op, caller.owner)), c)
    case FinishTx(_) => WithoutCaller(WithAccount(w, CompleteOperation(w.account, caller.op, caller.owner)), c)
    case _ => WithAccount(w, RenewPortal(w.account, caller.op, caller.owner, w.now))
  }

  /** What Stripe sees: a request sent, executed, dropped or refused. */
  function StripeStep(w: World, step: Step): World
    requires IsStripeStep(step)
    requires step.Send? ==> step.caller in w.callers && w.callers[step.caller].Sending?
    requires step.CreateRefused? ==> step.caller in w.callers && w.callers[step.caller].Waiting?
  {
    match step
    case Send(c) =>
      var caller := w.callers[c];
      WithCaller(w, c, Waiting(caller.op, caller.owner, caller.attempt, caller.plan, caller.fencedAt)).(
        requests := w.requests + {RequestOf(caller)})
    case ExecuteCreate(r) =>
      var sessions := if r.attempt in w.sessions then w.sessions else w.sessions[r.attempt := Created(r, w.now)];
      w.(sessions := sessions, requests := w.requests - {r})
    case DropCreate(r) => w.(requests := w.requests - {r})
    case CreateRefused(c) =>
      var caller := w.callers[c];
      WithCaller(w, c, Finishing(caller.op, caller.owner)).(requests := w.requests - {RequestOf(caller)})
  }

  /** The transaction over the expired operations; it goes on with at most one of them. */
  ghost function ReconcileStep(w: World, c: nat, expired: seq<nat>): World
    requires c in w.callers && w.callers[c].ReconcileListed? && ListsExpired(w.account, expired, w.now)
  {
    match ReconcileOperations(w.account, w.callers[c].snap, expired, w.unused, w.now)
    case None => WithCaller(w, c, ReadyToReconcile)
    case Some((account, recovery)) =>
      var w' := WithAccount(w, account).(unused := w.unused + 1);
      match recovery
      case NoRecovery => WithoutCaller(w', c)
      case RecoverCheckout(op, owner, attempt, order) => WithCaller(w', c, Sending(op, owner, attempt, order, w.now))
      case RecoverPortal(op, owner) => WithCaller(w', c, OpeningPortal(op, owner))
  }

  /** Time, new callers, and the transactions that read no caller's token. */
  function AccountStep(w: World, step: Step): World
    requires IsAccountStep(step)
    requires step.SubscriptionTx? ==> step.caller in w.callers && w.callers[step.caller].SubscriptionListed?
  {
    match step
    case Advance(to) => w.(now := to)
    case ReserveCheckout(c, order) =>
      var op, owner, attempt := w.unused, w.unused + 1, w.unused + 2;
      WithCaller(WithAccount(w, Reserve(w.account, order, w.now, op, owner, attempt)), c,
                 Reserved(op, owner, order, None)).(
        unused := w.unused + 3)
    case EnsureCustomer(c) =>
      WithAccount(w, AssignCustomer(w.account, w.account.version, w.unused)).(unused := w.unused + 1)
    case BeginReconcile(c) => WithCaller(w, c, ReadyToReconcile)
    case CleanupOwnedTx(session) => WithAccount(w, CleanupOwned(w.account, session))
    case CleanupDoneTx(session) => WithAccount(w, DropIntent(w.account, session))
    case ReservePortalTx(c) =>
      WithCaller(WithAccount(w, ReservePortal(w.account, w.now, w.unused, w.unused + 1)), c,
                 OpeningPortal(w.unused, w.unused + 1)).(unused := w.unused + 2)
    case SubscriptionSnapshot(c) => WithCaller(w, c, SubscriptionListed(SnapshotNow(w)))
    case SubscriptionTx(c, state) =>
      var snap := w.callers[c].snap;
      WithoutCaller(WithAccount(w, ApplySubscription(w.account, snap.version, snap.customer, state)), c)
    case SetPlan(plan, limits, manualOverride) =>
      WithAccount(w, SetUserPlan(w.account, plan, limits, manualOverride))
  }

  lemma MoveKeepsRest(w: World, step: Step)
    requires MovesCaller(step) && MoveEnabled(w, step)
    ensures MoveCaller(w, step) == w.(callers := MoveCaller(w, step).callers)
  {
  }

  lemma StripeKeepsAccount(cfg: Config, w: World, step: Step)
    requires IsStripeStep(step) && StripeEnabled(cfg, w, step)
    ensures var w' := StripeStep(w, step);
            w'.account == w.account && w'.now == w.now && w'.recorded == w.recorded && w'.unused == w.unused
  {
  }

  ghost function Apply(cfg: Config, w: World, step: Step): World
    requires Enabled(cfg, w, step)
  {
    if MovesCaller(step) then MoveCaller(w, step)
    else if IsCheckoutTx(step) then CheckoutTx(w, step)
    else if IsStripeStep(step) then StripeStep(w, step)
    else if step.ReconcileTx? then ReconcileStep(w, step.caller, step.expired)
    else AccountStep(w, step)
  }

  ghost predicate Legal(cfg: Config, w: World, steps: seq<Step>)
    decreases |steps|
  {
    steps == [] || (Enabled(cfg, w, steps[0]) && Legal(cfg, Apply(cfg, w, steps[0]), steps[1..]))
  }

  ghost function After(cfg: Config, w: World, steps: seq<Step>): World
    requires Legal(cfg, w, steps)
    decreases |steps|
  {
    if steps == [] then w else After(cfg, Apply(cfg, w, steps[0]), steps[1..])
  }

  lemma {:induction false} LegalThen(cfg: Config, w: World, steps: seq<Step>, step: Step)
    requires Legal(cfg, w, steps) && Enabled(cfg, After(cfg, w, steps), step)
    ensures Legal(cfg, w, steps + [step])
    ensures After(cfg, w, steps + [step]) == Apply(cfg, After(cfg, w, steps), step)
    decreases |steps|
  {
    if steps == [] {
      assert Legal(cfg, Apply(cfg, w, step), []);
      assert (steps + [step])[1..] == [];
    } else {
      LegalThen(cfg, Apply(cfg, w, steps[0]), steps[1..], step);
      assert (steps + [step])[1..] == steps[1..] + [step];
    }
  }

  /** A created session that was never recorded and that no operation row names any more. */
  ghost predicate Lost(w: World, attempt: nat) {
    && attempt in w.sessions && attempt !in w.recorded
    && forall op :: op in w.account.operations ==> w.account.operations[op].attempt != Some(attempt)
  }

  ghost predicate NothingLost(w: World) {
    forall attempt :: attempt in w.sessions ==> !Lost(w, attempt)
  }

  /** A create settles well before a reconciliation that began listing could commit past its lease. */
  predicate SafeTiming(cfg: Config) { cfg.settle + cfg.gap < CHECKOUT_OPERATION_LEASE_MS }
}
