/**
 The transactions of the billing service on one account
 (api/src/billing/billing.service.ts). Each holds the account lock, so each is one
 function from the rows it reads to the rows it leaves.
 */
module BillingAccounts {
  import opened Options

  const CHECKOUT_OPERATION_LEASE_MS: nat := 2 * 60 * 1000
  const STRIPE_IDEMPOTENCY_RETENTION_MS: nat := 24 * 60 * 60 * 1000
  const CHECKOUT_OPERATION_ABANDON_HORIZON_MS: nat := STRIPE_IDEMPOTENCY_RETENTION_MS + CHECKOUT_OPERATION_LEASE_MS

  datatype Order = Order(plan: string, interval: string)

  datatype Subscription = Subscription(
    plan: string, status: string, stripeSubscriptionId: Option<nat>, manualOverride: bool, limits: Option<nat>)

  /** The user's billing columns and its account subscription, all but the version. */
  datatype Columns = Columns(
    customer: Option<nat>, attempt: Option<nat>, attemptOrder: Option<Order>, attemptCreatedAt: Option<nat>,
    session: Option<nat>, sessionUrl: Option<string>, subscription: Option<Subscription>)

  datatype OperationKind = CHECKOUT | PORTAL

  /** `complete` says that the row holds every parameter of its request. */
  datatype Operation = Operation(
    kind: OperationKind, attempt: Option<nat>, order: Option<Order>, customer: Option<nat>, complete: bool,
    owner: nat, uncertain: bool, leaseExpiresAt: nat, createdAt: nat)

  datatype Account = Account(cols: Columns, operations: map<nat, Operation>, intents: set<nat>, version: nat)

  datatype SessionStatus = OPEN | COMPLETE | EXPIRED

  /** A checkout session as listed; its idempotency key makes it the session of its attempt. */
  datatype SessionInfo = SessionInfo(attempt: nat, status: SessionStatus, url: Option<string>)

  function Bump(a: Account): Account { a.(version := a.version + 1) }

  predicate Owns(a: Account, op: nat, owner: nat) { op in a.operations && a.operations[op].owner == owner }

  function ClearAttempt(cols: Columns): Columns {
    cols.(attempt := None, attemptOrder := None, attemptCreatedAt := None, session := None, sessionUrl := None)
  }

  function FindSession(listed: seq<SessionInfo>, attempt: Option<nat>): (r: Option<SessionInfo>)
    ensures r.Some? ==> r.value in listed && attempt == Some(r.value.attempt)
    ensures r.None? ==> forall s :: s in listed ==> Some(s.attempt) != attempt
  {
    if listed == [] then None
    else if Some(listed[0].attempt) == attempt then Some(listed[0])
    else FindSession(listed[1..], attempt)
  }

  // ----- Customer -----

  function AssignCustomer(a: Account, snapshotVersion: nat, customer: nat): Account {
    if a.cols.customer.Some? || a.version != snapshotVersion then a
    else Bump(a.(cols := a.cols.(customer := Some(customer))))
  }

  // ----- Cleanup intents -----

  function DropIntent(a: Account, session: nat): Account {
    if session in a.intents then Bump(a.(intents := a.intents - {session})) else a
  }

  function CleanupOwned(a: Account, session: nat): Account {
    if a.cols.session == Some(session) then DropIntent(a, session) else a
  }

  // ----- An operation's end -----

  function CompleteOperation(a: Account, op: nat, owner: nat): Account {
    if Owns(a, op, owner) then Bump(a.(operations := a.operations - {op})) else a
  }

  function MarkUncertain(a: Account, op: nat, owner: nat): Account {
    if Owns(a, op, owner) then Bump(a.(operations := a.operations[op := a.operations[op].(uncertain := true)])) else a
  }

  datatype Persistence = PERSISTED_OWNED | PERSISTED_CLEANUP | PERSISTED_STALE

  /** Records a returned session on the user row, or else as a cleanup intent. */
  function PersistReturned(a: Account, op: nat, owner: nat, attempt: nat, url: Option<string>): (Account, Persistence) {
    var fenced := Owns(a, op, owner);
    var operations := if fenced then a.operations - {op} else a.operations;
    if fenced && url.Some? && a.cols.attempt == Some(attempt) then
      (Bump(a.(cols := a.cols.(session := Some(attempt), sessionUrl := url),
               intents := a.intents - {attempt}, operations := operations)), PERSISTED_OWNED)
    else
      (Bump(a.(intents := a.intents + {attempt}, operations := operations)),
       if fenced then PERSISTED_CLEANUP else PERSISTED_STALE)
  }

  // ----- Reservation -----

  predicate Conflicts(row: Operation, order: Order, now: nat) {
    row.leaseExpiresAt > now && (row.kind == PORTAL || (row.order.Some? && row.order.value != order))
  }

  predicate CanReserve(a: Account, order: Order, now: nat) {
    a.intents == {} && forall op :: op in a.operations ==> !Conflicts(a.operations[op], order, now)
  }

  /** Opens an operation, and an attempt when the account has none. */
  function Reserve(a: Account, order: Order, now: nat, op: nat, owner: nat, freshAttempt: nat): Account {
    var cols :=
      if a.cols.attempt.Some? then a.cols
      else a.cols.(attempt := Some(freshAttempt), attemptOrder := Some(order), attemptCreatedAt := Some(now),
                   session := None, sessionUrl := None);
    var row := Operation(CHECKOUT, cols.attempt, Some(order), None, true, owner, false,
                         now + CHECKOUT_OPERATION_LEASE_MS, now);
    Bump(a.(cols := cols, operations := a.operations[op := row]))
  }

  // ----- Coordination -----

  datatype Action =
    | RetryStale
    | RefuseCheckout
    | OpenPortal
    | ReuseSession
    | CreateSession(attempt: nat)
    | ExpireSession(attempt: nat, session: nat)

  /** What the service read before the transaction, `listedAt` being when it asked Stripe. */
  datatype Snapshot = Snapshot(
    version: nat, customer: Option<nat>, cols: Columns, subscribed: bool, listed: seq<SessionInfo>, listedAt: nat)

  function RenewFence(a: Account, op: nat, attempt: Option<nat>, now: nat): Account
    requires op in a.operations
  {
    var row := a.operations[op];
    var renewed := row.(attempt := if attempt.Some? then attempt else row.attempt, uncertain := false,
                        leaseExpiresAt := now + CHECKOUT_OPERATION_LEASE_MS);
    a.(operations := a.operations[op := renewed])
  }

  function NewAttempt(cols: Columns, attempt: nat, order: Order, now: nat, session: Option<nat>): Columns {
    cols.(attempt := Some(attempt), attemptOrder := Some(order), attemptCreatedAt := Some(now),
          session := session, sessionUrl := None)
  }

  function IsOpen(s: Option<SessionInfo>): bool { s.Some? && s.value.status == OPEN }

  /** The decision of `coordinate` once the version matched and no cleanup is pending. */
  function Decide(cols: Columns, order: Order, snap: Snapshot, freshAttempt: nat, now: nat): (Action, Columns) {
    if snap.subscribed then (OpenPortal, ClearAttempt(cols))
    else
      var sameParams := cols.attemptOrder == Some(order);
      var attemptSession := FindSession(snap.listed, cols.attempt);
      var persisted := FindSession(snap.listed, cols.session);
      var known := if attemptSession.Some? then attemptSession else persisted;
      var oldEnough := cols.attemptCreatedAt.Some?
                       && now >= cols.attemptCreatedAt.value + STRIPE_IDEMPOTENCY_RETENTION_MS;
      var persistedIsCurrent := if persisted.Some? then Some(persisted.value.attempt) == cols.attempt else false;
      if sameParams && IsOpen(attemptSession) && attemptSession.value.url.Some? then
        (ReuseSession, cols.(session := Some(attemptSession.value.attempt), sessionUrl := attemptSession.value.url))
      else if !sameParams && !oldEnough then
        if IsOpen(known) then
          (ExpireSession(freshAttempt, known.value.attempt),
           NewAttempt(cols, freshAttempt, order, now, Some(known.value.attempt)))
        else (RefuseCheckout, cols)
      else if sameParams && !persistedIsCurrent && cols.attempt.Some?
              && (persisted.None? || persisted.value.status != COMPLETE) then
        if IsOpen(persisted) then (ExpireSession(cols.attempt.value, persisted.value.attempt), cols)
        else (CreateSession(cols.attempt.value), cols)
      else if !(sameParams && !persistedIsCurrent) && !oldEnough && known.Some? then (RefuseCheckout, cols)
      else if cols.attempt.None? || (!sameParams && known.Some?) || oldEnough then
        (CreateSession(freshAttempt), NewAttempt(cols, freshAttempt, order, now, None))
      else (CreateSession(cols.attempt.value), cols)
  }

  /** The attempt a fence is renewed for, when the branch names one. */
  function FenceAttempt(action: Action): Option<nat> {
    match action
    case CreateSession(attempt) => Some(attempt)
    case ExpireSession(attempt, _) => Some(attempt)
    case _ => None
  }

  function Coordinate(
        a: Account, op: nat, owner: nat, order: Order, snap: Snapshot, freshAttempt: nat, now: nat): (Account, Action) {
    if a.cols.customer != snap.customer || a.version != snap.version then (a, RetryStale)
    else if a.intents != {} then (a, RefuseCheckout)
    else
      var (action, cols) := Decide(a.cols, order, snap, freshAttempt, now);
      if action == RefuseCheckout then (a, RefuseCheckout)
      else if !Owns(a, op, owner) then (a, RetryStale)
      else
        var fence := if action == ReuseSession then a.cols.attempt else FenceAttempt(action);
        var fenced := RenewFence(a, op, fence, now);
        if cols == a.cols && !action.ReuseSession? && !action.OpenPortal? then (fenced, action)
        else (Bump(fenced.(cols := cols)), action)
  }

  // ----- Reconciliation of expired operations -----

  datatype Recovery =
    | NoRecovery
    | RecoverCheckout(op: nat, owner: nat, attempt: nat, order: Option<Order>)
    | RecoverPortal(op: nat, owner: nat)

  datatype Progress = Progress(account: Account, changed: bool, recovery: Recovery)

  function DeleteRow(p: Progress, op: nat): Progress {
    p.(account := p.account.(operations := p.account.operations - {op}), changed := true)
  }

  function Abandon(p: Progress, op: nat, now: nat): Progress
    requires op in p.account.operations
  {
    if now >= p.account.operations[op].createdAt + CHECKOUT_OPERATION_ABANDON_HORIZON_MS then DeleteRow(p, op) else p
  }

  function Claim(p: Progress, op: nat, freshOwner: nat, now: nat, recovery: Recovery): Progress
    requires op in p.account.operations
  {
    var row := p.account.operations[op].(owner := freshOwner, uncertain := false,
                                         leaseExpiresAt := now + CHECKOUT_OPERATION_LEASE_MS);
    Progress(p.account.(operations := p.account.operations[op := row]), true, recovery)
  }

  /** One expired operation. */
  function ReconcileOne(p: Progress, op: nat, listed: seq<SessionInfo>, freshOwner: nat, now: nat): Progress
    requires op in p.account.operations
  {
    var a, row := p.account, p.account.operations[op];
    if row.kind == PORTAL then
      if row.customer.None? || !row.complete || a.cols.customer != row.customer then Abandon(p, op, now)
      else if p.recovery != NoRecovery then p
      else Claim(p, op, freshOwner, now, RecoverPortal(op, freshOwner))
    else
      var session := FindSession(listed, row.attempt);
      if session.Some? then
        var found := session.value.attempt;
        if a.cols.attempt == row.attempt then
          DeleteRow(p.(account := a.(cols := a.cols.(session := Some(found), sessionUrl := session.value.url),
                                     intents := a.intents - {found})), op)
        else DeleteRow(p.(account := a.(intents := a.intents + {found})), op)
      else if a.cols.attempt != row.attempt then Abandon(p, op, now)
      else if row.attempt.None? || !row.complete then Abandon(p, op, now)
      else if a.cols.customer.None? || p.recovery != NoRecovery then p
      else Claim(p, op, freshOwner, now, RecoverCheckout(op, freshOwner, row.attempt.value, row.order))
  }

  /** The loop over the expired operations, in the order they were read. */
  function ReconcileAll(p: Progress, expired: seq<nat>, listed: seq<SessionInfo>, freshOwner: nat, now: nat): Progress
    requires forall i :: 0 <= i < |expired| ==> expired[i] in p.account.operations
    requires forall i, j :: 0 <= i < j < |expired| ==> expired[i] != expired[j]
    decreases |expired|
  {
    if expired == [] then p
    else
      var next := ReconcileOne(p, expired[0], listed, freshOwner, now);
      ReconcileAll(next, expired[1..], listed, freshOwner, now)
  }

  /** Oldest first, then by identifier. */
  predicate Precedes(a: Account, p: nat, q: nat)
    requires p in a.operations && q in a.operations
  {
    a.operations[p].createdAt < a.operations[q].createdAt
    || (a.operations[p].createdAt == a.operations[q].createdAt && p < q)
  }

  /** `ids` lists each operation whose lease has run out exactly once, oldest first. */
  ghost predicate ListsExpired(a: Account, ids: seq<nat>, now: nat) {
    && (forall op :: op in ids <==> op in a.operations && a.operations[op].leaseExpiresAt <= now)
    && (forall i, j :: 0 <= i < j < |ids| ==>
          ids[i] in a.operations && ids[j] in a.operations && Precedes(a, ids[i], ids[j]))
  }

  function ReconcileOperations(
        a: Account, snap: Snapshot, expired: seq<nat>, freshOwner: nat, now: nat): (r: Option<(Account, Recovery)>)
    requires ListsExpired(a, expired, now)
  {
    if a.cols.customer != snap.customer || a.version != snap.version then None
    else
      var p := ReconcileAll(Progress(a, false, NoRecovery), expired, snap.listed, freshOwner, now);
      Some((if p.changed then Bump(p.account) else p.account, p.recovery))
  }

  // ----- Portal -----

  predicate CanReservePortal(a: Account) {
    && a.operations == map[] && a.cols.customer.Some? && a.cols.subscription.Some?
    && a.cols.subscription.value.plan != "SOLO"
    && a.cols.subscription.value.status in {"active", "trialing", "past_due"}
  }

  function ReservePortal(a: Account, now: nat, op: nat, owner: nat): Account {
    var row := Operation(PORTAL, None, None, a.cols.customer, true, owner, false,
                         now + CHECKOUT_OPERATION_LEASE_MS, now);
    Bump(a.(operations := a.operations[op := row]))
  }

  function RenewPortal(a: Account, op: nat, owner: nat, now: nat): Account {
    if Owns(a, op, owner) && a.operations[op].kind == PORTAL then RenewFence(a, op, None, now) else a
  }

  // ----- Subscription state -----

  /** `state` is what Stripe reports; a manual override keeps its plan. */
  function ApplySubscription(a: Account, snapVersion: nat, snapCustomer: Option<nat>, state: Subscription): Account {
    if a.cols.customer != snapCustomer || a.version != snapVersion then a
    else
      var cols := if state.stripeSubscriptionId.Some? then ClearAttempt(a.cols) else a.cols;
      var existing := a.cols.subscription;
      var subscription :=
        if existing.Some? && existing.value.manualOverride then
          existing.value.(status := state.status, stripeSubscriptionId := state.stripeSubscriptionId)
        else if existing.Some? then
          existing.value.(plan := state.plan, status := state.status,
                          stripeSubscriptionId := state.stripeSubscriptionId)
        else Subscription(state.plan, state.status, state.stripeSubscriptionId, false, None);
      Bump(a.(cols := cols.(subscription := Some(subscription))))
  }

  function SetUserPlan(a: Account, plan: string, limits: Option<nat>, manualOverride: bool): Account {
    var subscription :=
      if a.cols.subscription.Some? then
        a.cols.subscription.value.(plan := plan, limits := limits, manualOverride := manualOverride)
      else Subscription(plan, "active", None, manualOverride, limits);
    Bump(a.(cols := a.cols.(subscription := Some(subscription))))
  }
}
