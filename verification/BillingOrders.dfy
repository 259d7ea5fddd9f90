/**
 Which order a checkout session is for. An attempt's identifier is Stripe's idempotency
 key, so everything created under it should be for the one order the attempt stands for.
 */
module BillingOrders {
  import opened Options
  import opened BillingAccounts
  import opened BillingReconcile
  import opened BillingProtocol
  import opened BillingInvariant
  import opened BillingQuiet
  import opened BillingSafety
  import opened BillingFencing
  import opened BillingDecisions
  import opened BillingVersion

  /** The order each attempt was opened for; an attempt's identifier is never given to another order. */
  type Orders = map<nat, Option<Order>>

  predicate Named(orders: Orders, attempt: nat, order: Option<Order>) { attempt in orders && orders[attempt] == order }

  /** A row that carries an attempt but asks for another order. */
  predicate Mismatched(orders: Orders, row: Operation) {
    row.attempt.Some? && row.attempt.value in orders && row.order != orders[row.attempt.value]
  }

  /** A row asks for its attempt's order, or for nothing any more because the attempt has its session. */
  predicate RowFits(w: World, orders: Orders, row: Operation) {
    row.attempt.Some? ==>
      row.attempt.value in orders && (row.order == orders[row.attempt.value] || row.attempt.value in w.sessions)
  }

  predicate AllListedExist(w: World, listed: seq<SessionInfo>) { forall s :: s in listed ==> s.attempt in w.sessions }

  /** A listing that may still be acted on shows the session of every mismatched row. */
  predicate ListsMismatched(w: World, orders: Orders, snap: Snapshot) {
    snap.version == w.account.version && snap.customer.Some? ==>
      forall op :: op in w.account.operations && Mismatched(orders, w.account.operations[op]) ==>
        IsListed(snap, w.account.operations[op].attempt.value)
  }

  predicate CallerFits(w: World, orders: Orders, c: Caller) {
    match c
    case Reserved(op, owner, order, _) => CheckoutRow(w.account, op, owner, order)
    case Snapped(op, owner, order, _, _) => CheckoutRow(w.account, op, owner, order)
    case Listed(op, owner, order, _, snap) => CheckoutRow(w.account, op, owner, order) && AllListedExist(w, snap.listed)
    case Sending(_, _, attempt, plan, _) => Named(orders, attempt, plan)
    case Waiting(_, _, attempt, plan, _) => Named(orders, attempt, plan)
    case ReconcileListed(snap) => ListsMismatched(w, orders, snap)
    case _ => true
  }

  /** The account's attempt stands for the order in its columns. */
  predicate AttemptNamed(w: World, orders: Orders) {
    && (forall t :: t in orders ==> t < w.unused)
    && (w.account.cols.attempt.Some? ==>
          w.account.cols.attemptOrder.Some? && Named(orders, w.account.cols.attempt.value, w.account.cols.attemptOrder))
  }

  ghost predicate OrdersOk(w: World, orders: Orders) {
    && AttemptNamed(w, orders)
    && (forall op :: op in w.account.operations ==> RowFits(w, orders, w.account.operations[op]))
    && (forall r :: r in w.requests ==> Named(orders, r.attempt, r.order))
    && (forall t :: t in w.sessions ==>
          w.sessions[t].origin.attempt == t && Named(orders, t, w.sessions[t].origin.order))
    && (forall c :: c in w.callers ==> CallerFits(w, orders, w.callers[c]))
  }

  // ----- What a step keeps of the names -----

  predicate Extends(orders: Orders, more: Orders) { forall t :: t in orders ==> t in more && more[t] == orders[t] }

  predicate SameName(row: Operation, row': Operation) { row'.attempt == row.attempt && row'.order == row.order }

  /** The row of a caller that may still coordinate is for the same order, unless it was lost. */
  predicate OwnRowKept(w: World, w': World, c: Caller) {
    (c.Reserved? || c.Snapped? || c.Listed?) && Owns(w'.account, c.op, c.owner) ==>
      Owns(w.account, c.op, c.owner) && SameKind(w, w', c.op)
  }

  predicate SameKind(w: World, w': World, op: nat)
    requires op in w.account.operations && op in w'.account.operations
  {
    w'.account.operations[op].kind == w.account.operations[op].kind
    && w'.account.operations[op].order == w.account.operations[op].order
  }

  /** A commit that adds a mismatched row bumps the version. */
  predicate MismatchesKept(w: World, w': World, more: Orders) {
    && w.account.version <= w'.account.version
    && (w.account.version == w'.account.version ==>
          forall o :: o in w'.account.operations && Mismatched(more, w'.account.operations[o]) ==>
            o in w.account.operations && SameName(w.account.operations[o], w'.account.operations[o]))
  }

  /** A commit that touches the row `op` keeps what every other row is for. */
  ghost predicate KeepsRowNames(w: World, w': World, orders: Orders, more: Orders, op: nat) {
    && Extends(orders, more) && AttemptNamed(w', more) && MismatchesKept(w, w', more)
    && w'.sessions == w.sessions && w'.requests == w.requests
    && (forall o :: o in w'.account.operations && o != op ==>
          o in w.account.operations && SameName(w.account.operations[o], w'.account.operations[o]))
    && (op in w'.account.operations ==> RowFits(w', more, w'.account.operations[op]))
  }

  ghost predicate KeepsCallerNames(w: World, w': World, more: Orders, c: nat) {
    && (forall d :: d in w'.callers && d != c ==>
          d in w.callers && w'.callers[d] == w.callers[d] && OwnRowKept(w, w', w.callers[d]))
    && (c in w'.callers ==> CallerFits(w', more, w'.callers[c]))
  }

  lemma ListingStays(w: World, w': World, orders: Orders, more: Orders, snap: Snapshot)
    requires OrdersOk(w, orders) && Extends(orders, more) && MismatchesKept(w, w', more)
    requires ListsMismatched(w, orders, snap) && snap.version <= w.account.version
    ensures ListsMismatched(w', more, snap)
  {
    if snap.version == w'.account.version && snap.customer.Some? {
      forall o | o in w'.account.operations && Mismatched(more, w'.account.operations[o])
        ensures IsListed(snap, w'.account.operations[o].attempt.value)
      {
        assert RowFits(w, orders, w.account.operations[o]);
      }
    }
  }

  lemma UnmovedCallerFits(w: World, w': World, orders: Orders, more: Orders, c: Caller)
    requires OrdersOk(w, orders) && Extends(orders, more) && MismatchesKept(w, w', more)
    requires CallerFits(w, orders, c) && CallerFresh(w.account, c) && OwnRowKept(w, w', c)
    requires forall t :: t in w.sessions ==> t in w'.sessions
    ensures CallerFits(w', more, c)
  {
    if c.ReconcileListed? {
      ListingStays(w, w', orders, more, c.snap);
    }
  }

  lemma NamesKeepOrders(w: World, w': World, orders: Orders, more: Orders, c: nat, op: nat)
    requires OrdersOk(w, orders) && SnapshotsFresh(w)
    requires KeepsRowNames(w, w', orders, more, op) && KeepsCallerNames(w, w', more, c)
    ensures OrdersOk(w', more)
  {
    forall o | o in w'.account.operations ensures RowFits(w', more, w'.account.operations[o]) {
      if o != op {
        assert RowFits(w, orders, w.account.operations[o]);
      }
    }
    forall d | d in w'.callers && d != c ensures CallerFits(w', more, w'.callers[d]) {
      assert CallerFits(w, orders, w.callers[d]) && CallerFresh(w.account, w.callers[d]);
      UnmovedCallerFits(w, w', orders, more, w.callers[d]);
    }
  }

  // ----- Reservations -----

  /**
   A reservation that opens an attempt, asks for the order of the one there is, or finds
   that the attempt already has its session.
   */
  predicate Harmless(w: World, order: Order) {
    var cols := w.account.cols;
    cols.attempt.None? || cols.attemptOrder == Some(order) || cols.attempt.value in w.sessions
  }

  predicate IsHarmless(w: World, step: Step) { step.ReserveCheckout? ==> Harmless(w, step.order) }

  /** What the attempts are for once a step has opened the attempt `t`, if it did. */
  function Opened(orders: Orders, cols: Columns): Orders {
    if cols.attempt.Some? && cols.attempt.value !in orders then orders[cols.attempt.value := cols.attemptOrder]
    else orders
  }

  lemma ReserveKeepsRowNames(w: World, orders: Orders, c: nat, order: Order)
    requires OrdersOk(w, orders) && Harmless(w, order)
    ensures var w' := AccountStep(w, ReserveCheckout(c, order));
            KeepsRowNames(w, w', orders, Opened(orders, w'.account.cols), w.unused)
  {
    var w' := AccountStep(w, ReserveCheckout(c, order));
    assert w'.account == Reserve(w.account, order, w.now, w.unused, w.unused + 1, w.unused + 2);
  }

  lemma ReserveKeepsOrders(w: World, orders: Orders, c: nat, order: Order)
    requires OrdersOk(w, orders) && TokensOk(w) && SnapshotsFresh(w) && c !in w.callers && Harmless(w, order)
    ensures var w' := AccountStep(w, ReserveCheckout(c, order)); OrdersOk(w', Opened(orders, w'.account.cols))
  {
    var w' := AccountStep(w, ReserveCheckout(c, order));
    ReserveKeepsRowNames(w, orders, c, order);
    assert w'.account == Reserve(w.account, order, w.now, w.unused, w.unused + 1, w.unused + 2);
    assert w'.callers == w.callers[c := Reserved(w.unused, w.unused + 1, order, None)];
    NamesKeepOrders(w, w', orders, Opened(orders, w'.account.cols), c, w.unused);
  }

  lemma PortalKeepsRowNames(w: World, orders: Orders, c: nat)
    requires OrdersOk(w, orders)
    ensures KeepsRowNames(w, AccountStep(w, ReservePortalTx(c)), orders, orders, w.unused)
  {
    var w' := AccountStep(w, ReservePortalTx(c));
    assert w'.account == ReservePortal(w.account, w.now, w.unused, w.unused + 1);
  }

  lemma PortalKeepsOrders(w: World, orders: Orders, c: nat)
    requires OrdersOk(w, orders) && TokensOk(w) && SnapshotsFresh(w) && c !in w.callers
    ensures OrdersOk(AccountStep(w, ReservePortalTx(c)), orders)
  {
    var w' := AccountStep(w, ReservePortalTx(c));
    PortalKeepsRowNames(w, orders, c);
    assert w'.account == ReservePortal(w.account, w.now, w.unused, w.unused + 1);
    assert w'.callers == w.callers[c := OpeningPortal(w.unused, w.unused + 1)];
    NamesKeepOrders(w, w', orders, orders, c, w.unused);
  }

  // ----- Steps that leave rows and sessions alone -----

  /** Callers of `w'` are as they were or hold nothing that needs a name; rows and what Stripe knows are the same. */
  predicate OnlyColumns(w: World, w': World) {
    && w'.account.operations == w.account.operations && w'.sessions == w.sessions && w'.requests == w.requests
    && w.unused <= w'.unused && w.account.version <= w'.account.version
    && (w'.account.cols.attempt.None?
        || (w'.account.cols.attempt == w.account.cols.attempt
            && w'.account.cols.attemptOrder == w.account.cols.attemptOrder))
    && (forall d :: d in w'.callers ==>
          || (d in w.callers && w'.callers[d] == w.callers[d])
          || w'.callers[d].ReadyToReconcile? || w'.callers[d].SubscriptionListed?)
  }

  lemma ColumnsKeepOrders(w: World, w': World, orders: Orders)
    requires OrdersOk(w, orders) && SnapshotsFresh(w) && OnlyColumns(w, w')
    ensures OrdersOk(w', orders)
  {
    forall o | o in w'.account.operations ensures RowFits(w', orders, w'.account.operations[o]) {
      assert RowFits(w, orders, w.account.operations[o]);
    }
    forall d | d in w'.callers ensures CallerFits(w', orders, w'.callers[d]) {
      if d in w.callers && w'.callers[d] == w.callers[d] {
        assert CallerFits(w, orders, w.callers[d]) && CallerFresh(w.account, w.callers[d]);
        UnmovedCallerFits(w, w', orders, orders, w.callers[d]);
      }
    }
  }

  lemma ColumnStepMeaning(w: World, step: Step)
    requires KeepsRows(step)
    requires step.SubscriptionTx? ==> step.caller in w.callers && w.callers[step.caller].SubscriptionListed?
    ensures OnlyColumns(w, AccountStep(w, step))
  {
  }

  lemma NewReconcilerMeaning(w: World, step: Step)
    requires (step.BeginReconcile? || step.SubscriptionSnapshot?) && step.caller !in w.callers
    ensures OnlyColumns(w, AccountStep(w, step))
  {
  }

  lemma AccountKeepsOrders(w: World, step: Step, orders: Orders)
    requires OrdersOk(w, orders) && Tidy(w) && SnapshotsFresh(w) && IsHarmless(w, step)
    requires IsAccountStep(step) && AccountEnabled(w, step)
    ensures var w' := AccountStep(w, step); exists more :: OrdersOk(w', more)
  {
    var w' := AccountStep(w, step);
    if step.ReserveCheckout? {
      ReserveKeepsOrders(w, orders, step.caller, step.order);
    } else if step.ReservePortalTx? {
      PortalKeepsOrders(w, orders, step.caller);
    } else {
      if step.BeginReconcile? || step.SubscriptionSnapshot? {
        NewReconcilerMeaning(w, step);
      } else {
        ColumnStepMeaning(w, step);
      }
      ColumnsKeepOrders(w, w', orders);
    }
  }

  // ----- Callers that read, list or give up -----

  /** Only the caller `c` moved, to something that fits. */
  lemma MovedCallerKeepsOrders(w: World, w': World, orders: Orders, c: nat)
    requires OrdersOk(w, orders) && w' == w.(callers := w'.callers)
    requires forall d :: d in w'.callers && d != c ==> d in w.callers && w'.callers[d] == w.callers[d]
    requires c in w'.callers ==> CallerFits(w', orders, w'.callers[c])
    ensures OrdersOk(w', orders)
  {
    forall o | o in w'.account.operations ensures RowFits(w', orders, w'.account.operations[o]) {
      assert RowFits(w, orders, w.account.operations[o]);
    }
    forall d | d in w'.callers ensures CallerFits(w', orders, w'.callers[d]) {
      assert d != c ==> CallerFits(w, orders, w.callers[d]);
    }
  }

  /** A complete listing shows every session, so also those of mismatched rows. */
  lemma CompleteListsMismatched(w: World, orders: Orders, snap: Snapshot)
    requires OrdersOk(w, orders) && (snap.customer.Some? ==> CompleteListing(w, snap.listed))
    ensures ListsMismatched(w, orders, snap)
  {
    forall op | op in w.account.operations && Mismatched(orders, w.account.operations[op]) && snap.customer.Some?
      ensures IsListed(snap, w.account.operations[op].attempt.value)
    {
      assert RowFits(w, orders, w.account.operations[op]);
    }
  }

  lemma ListingKeepsOrders(w: World, orders: Orders, c: nat, listed: seq<SessionInfo>)
    requires OrdersOk(w, orders) && MoveEnabled(w, ReconcileListing(c, listed))
    ensures OrdersOk(MoveCaller(w, ReconcileListing(c, listed)), orders)
  {
    var w' := MoveCaller(w, ReconcileListing(c, listed));
    CompleteListsMismatched(w, orders, w'.callers[c].snap);
    MovedCallerKeepsOrders(w, w', orders, c);
  }

  lemma OtherMoveKeepsOrders(w: World, step: Step, orders: Orders)
    requires OrdersOk(w, orders) && MovesCaller(step) && MoveEnabled(w, step) && !step.ReconcileListing?
    ensures OrdersOk(MoveCaller(w, step), orders)
  {
    assert CallerFits(w, orders, w.callers[step.caller]);
    MovedCallerKeepsOrders(w, MoveCaller(w, step), orders, step.caller);
  }

  // ----- Checkout transactions -----

  /** An operation's end: rows stay as they are named or go, callers stay or finish. */
  predicate OnlyEnds(w: World, w': World) {
    && w'.sessions == w.sessions && w'.requests == w.requests && w'.unused == w.unused
    && w.account.version <= w'.account.version
    && w'.account.cols.attempt == w.account.cols.attempt && w'.account.cols.attemptOrder == w.account.cols.attemptOrder
    && (forall o :: o in w'.account.operations ==>
          && o in w.account.operations && SameName(w.account.operations[o], w'.account.operations[o])
          && w'.account.operations[o].kind == w.account.operations[o].kind
          && w'.account.operations[o].owner == w.account.operations[o].owner)
    && (forall d :: d in w'.callers ==> d in w.callers && (w'.callers[d] == w.callers[d] || w'.callers[d].Finishing?))
  }

  lemma PersistOnlyEnds(w: World, step: Step)
    requires step.PersistTx? && CheckoutTxEnabled(w, step)
    ensures OnlyEnds(w, CheckoutTx(w, step))
  {
  }

  lemma OtherEndOnlyEnds(w: World, step: Step)
    requires (step.UncertainTx? || step.FinishTx? || step.RenewPortalTx?) && CheckoutTxEnabled(w, step)
    ensures OnlyEnds(w, CheckoutTx(w, step))
  {
  }

  lemma EndsKeepOrders(w: World, w': World, orders: Orders)
    requires OrdersOk(w, orders) && SnapshotsFresh(w) && OnlyEnds(w, w')
    ensures OrdersOk(w', orders)
  {
    forall o | o in w'.account.operations ensures RowFits(w', orders, w'.account.operations[o]) {
      assert RowFits(w, orders, w.account.operations[o]);
    }
    forall d | d in w'.callers ensures CallerFits(w', orders, w'.callers[d]) {
      assert CallerFits(w, orders, w.callers[d]) && CallerFresh(w.account, w.callers[d]);
      if w'.callers[d] == w.callers[d] {
        UnmovedCallerFits(w, w', orders, orders, w.callers[d]);
      }
    }
  }

  predicate SameButAttempt(row: Operation, row': Operation) {
    row'.owner == row.owner && row'.kind == row.kind && row'.order == row.order
  }

  /** What a decision leaves under a row of its own order: row, attempt and order agree. */
  predicate DecisionNames(
        a: Account, b: Account, op: nat, owner: nat, order: Order, freshAttempt: nat, action: Action)
  {
    && a.version <= b.version
    && (|| b.cols.attempt.None?
        || (b.cols.attempt == a.cols.attempt && b.cols.attemptOrder == a.cols.attemptOrder)
        || (b.cols.attempt == Some(freshAttempt) && b.cols.attemptOrder == Some(order)))
    && (forall o :: o in b.operations && o != op ==> o in a.operations && b.operations[o] == a.operations[o])
    && (op in b.operations ==>
          && op in a.operations && SameButAttempt(a.operations[op], b.operations[op])
          && (b.operations[op].attempt == a.operations[op].attempt
              || (Owns(a, op, owner) && b.operations[op].attempt == b.cols.attempt
                  && b.cols.attemptOrder == Some(order))))
    && (action.CreateSession? || action.ExpireSession? ==>
          b.cols.attempt == Some(action.attempt) && b.cols.attemptOrder == Some(order))
  }

  lemma DecisionIsNamed(a: Account, op: nat, owner: nat, order: Order, snap: Snapshot, freshAttempt: nat, now: nat)
    requires CheckoutRow(a, op, owner, order)
    ensures var (b, action) := Coordinate(a, op, owner, order, snap, freshAttempt, now);
            DecisionNames(a, b, op, owner, order, freshAttempt, action)
  {
    DecideNames(a.cols, order, snap, freshAttempt, now);
  }

  lemma DecideNames(cols: Columns, order: Order, snap: Snapshot, freshAttempt: nat, now: nat)
    ensures var (action, next) := Decide(cols, order, snap, freshAttempt, now);
            && (|| next.attempt.None?
                || (next.attempt == cols.attempt && next.attemptOrder == cols.attemptOrder)
                || (next.attempt == Some(freshAttempt) && next.attemptOrder == Some(order)))
            && (action.CreateSession? || action.ExpireSession? || action.ReuseSession? ==>
                  next.attemptOrder == Some(order) && next.attempt.Some?)
            && (action.CreateSession? || action.ExpireSession? ==> next.attempt == Some(action.attempt))
            && (action.ReuseSession? ==> next.attempt == cols.attempt)
  {
  }

  /** What a coordination by `c` leaves. */
  predicate Decided(w: World, w': World, c: nat, op: nat, owner: nat, order: Order, action: Action) {
    && w'.sessions == w.sessions && w'.requests == w.requests && w'.unused == w.unused + 1
    && DecisionNames(w.account, w'.account, op, owner, order, w.unused, action)
    && (forall d :: d in w'.callers && d != c ==> d in w.callers && w'.callers[d] == w.callers[d])
    && (c in w'.callers ==>
          || (w'.callers[c].Reserved? && w'.callers[c].op == op && w'.callers[c].owner == owner
              && w'.callers[c].order == order)
          || w'.callers[c].Finishing? || w'.callers[c].OpeningPortal?
          || (w'.callers[c].Sending? && (action.CreateSession? || action.ExpireSession?)
              && w'.callers[c].attempt == action.attempt && w'.callers[c].plan == Some(order)))
  }

  lemma CoordinateDecides(w: World, step: Step, c: nat)
    requires step.CoordinateTx? && CheckoutTxEnabled(w, step) && c == step.caller
    requires CheckoutRow(w.account, w.callers[c].op, w.callers[c].owner, w.callers[c].order)
    ensures var k := w.callers[c];
            var action := Coordinate(w.account, k.op, k.owner, k.order, k.snap, w.unused, w.now).1;
            Decided(w, CheckoutTx(w, step), c, k.op, k.owner, k.order, action)
  {
    var k := w.callers[c];
    DecisionIsNamed(w.account, k.op, k.owner, k.order, k.snap, w.unused, w.now);
  }

  lemma DecisionKeepsOrders(
      w: World, w': World, orders: Orders, c: nat, op: nat, owner: nat, order: Order, action: Action)
    requires OrdersOk(w, orders) && SnapshotsFresh(w) && CheckoutRow(w.account, op, owner, order)
    requires Decided(w, w', c, op, owner, order, action)
    ensures OrdersOk(w', Opened(orders, w'.account.cols))
  {
    if op in w.account.operations {
      assert RowFits(w, orders, w.account.operations[op]);
    }
    NamesKeepOrders(w, w', orders, Opened(orders, w'.account.cols), c, op);
  }

  lemma CheckoutKeepsOrders(w: World, step: Step, orders: Orders)
    requires OrdersOk(w, orders) && SnapshotsFresh(w) && IsCheckoutTx(step) && CheckoutTxEnabled(w, step)
    ensures var w' := CheckoutTx(w, step); exists more :: OrdersOk(w', more)
  {
    var c, w' := step.caller, CheckoutTx(w, step);
    if step.CoordinateTx? {
      var k := w.callers[c];
      assert CallerFits(w, orders, k);
      CoordinateDecides(w, step, c);
      var action := Coordinate(w.account, k.op, k.owner, k.order, k.snap, w.unused, w.now).1;
      DecisionKeepsOrders(w, w', orders, c, k.op, k.owner, k.order, action);
    } else {
      if step.PersistTx? {
        PersistOnlyEnds(w, step);
      } else {
        OtherEndOnlyEnds(w, step);
      }
      EndsKeepOrders(w, w', orders);
    }
  }

  // ----- Stripe -----

  lemma SendKeepsOrders(w: World, orders: Orders, c: nat)
    requires OrdersOk(w, orders) && c in w.callers && w.callers[c].Sending?
    ensures OrdersOk(StripeStep(w, Send(c)), orders)
  {
    var w' := StripeStep(w, Send(c));
    assert CallerFits(w, orders, w.callers[c]);
    forall o | o in w'.account.operations ensures RowFits(w', orders, w'.account.operations[o]) {
      assert RowFits(w, orders, w.account.operations[o]);
    }
    forall d | d in w'.callers ensures CallerFits(w', orders, w'.callers[d]) {
      assert d in w.callers && CallerFits(w, orders, w.callers[d]);
    }
  }

  /** Fewer requests, more sessions; a new session is for its request's order. */
  lemma ExecutionKeepsOrders(w: World, orders: Orders, step: Step)
    requires OrdersOk(w, orders) && (step.ExecuteCreate? || step.DropCreate?) && step.request in w.requests
    ensures OrdersOk(StripeStep(w, step), orders)
  {
    var w' := StripeStep(w, step);
    forall o | o in w'.account.operations ensures RowFits(w', orders, w'.account.operations[o]) {
      assert RowFits(w, orders, w.account.operations[o]);
    }
    forall d | d in w'.callers ensures CallerFits(w', orders, w'.callers[d]) {
      assert CallerFits(w, orders, w.callers[d]);
    }
  }

  lemma RefusalKeepsOrders(w: World, orders: Orders, c: nat)
    requires OrdersOk(w, orders) && c in w.callers && w.callers[c].Waiting?
    ensures OrdersOk(StripeStep(w, CreateRefused(c)), orders)
  {
    var w' := StripeStep(w, CreateRefused(c));
    forall o | o in w'.account.operations ensures RowFits(w', orders, w'.account.operations[o]) {
      assert RowFits(w, orders, w.account.operations[o]);
    }
    forall d | d in w'.callers ensures CallerFits(w', orders, w'.callers[d]) {
      assert d in w.callers && CallerFits(w, orders, w.callers[d]);
    }
  }

  lemma StripeKeepsOrders(cfg: Config, w: World, step: Step, orders: Orders)
    requires OrdersOk(w, orders) && IsStripeStep(step) && StripeEnabled(cfg, w, step)
    ensures OrdersOk(StripeStep(w, step), orders)
  {
    match step
    case Send(c) => SendKeepsOrders(w, orders, c);
    case CreateRefused(c) => RefusalKeepsOrders(w, orders, c);
    case _ => ExecutionKeepsOrders(w, orders, step);
  }

  // ----- Recovery -----

  /** Recovery goes on only with rows for their attempt's order: a mismatched one's session is in the listing. */
  lemma RecoveryIsNamed(w: World, w': World, orders: Orders, c: nat, recovery: Recovery)
    requires OrdersOk(w, orders) && Reconciliation(w, w', c, recovery) && recovery.RecoverCheckout?
    requires w.callers[c].snap.version == w.account.version && w.callers[c].snap.customer == w.account.cols.customer
    ensures Named(orders, recovery.attempt, recovery.order)
  {
    var snap := w.callers[c].snap;
    assert CallerFits(w, orders, w.callers[c]);
    assert RowFits(w, orders, w.account.operations[recovery.op]);
    if Mismatched(orders, w.account.operations[recovery.op]) {
      FindsListed(snap.listed, recovery.attempt);
    }
  }

  lemma ReconciliationKeepsRows(w: World, w': World, orders: Orders, c: nat, recovery: Recovery)
    requires OrdersOk(w, orders) && Reconciliation(w, w', c, recovery)
    ensures forall o :: o in w'.account.operations ==> RowFits(w', orders, w'.account.operations[o])
  {
    forall o | o in w'.account.operations ensures RowFits(w', orders, w'.account.operations[o]) {
      assert RowFits(w, orders, w.account.operations[o]);
    }
  }

  lemma ReconciliationKeepsCallers(w: World, w': World, orders: Orders, c: nat, recovery: Recovery)
    requires OrdersOk(w, orders) && SnapshotsFresh(w) && Tidy(w) && Reconciliation(w, w', c, recovery)
    requires w.account.version <= w'.account.version
    ensures forall d :: d in w'.callers && d != c ==> CallerFits(w', orders, w'.callers[d])
  {
    forall d | d in w'.callers && d != c ensures CallerFits(w', orders, w'.callers[d]) {
      assert CallerFits(w, orders, w.callers[d]) && CallerFresh(w.account, w.callers[d]);
      UnmovedCallerFits(w, w', orders, orders, w.callers[d]);
    }
  }

  lemma ReconciliationKeepsOrders(w: World, w': World, orders: Orders, c: nat, recovery: Recovery)
    requires OrdersOk(w, orders) && SnapshotsFresh(w) && Tidy(w) && Reconciliation(w, w', c, recovery)
    requires w.account.version <= w'.account.version
    requires w.callers[c].snap.version == w.account.version && w.callers[c].snap.customer == w.account.cols.customer
    ensures OrdersOk(w', orders)
  {
    if recovery.RecoverCheckout? {
      RecoveryIsNamed(w, w', orders, c, recovery);
    }
    ReconciliationKeepsRows(w, w', orders, c, recovery);
    ReconciliationKeepsCallers(w, w', orders, c, recovery);
  }

  lemma ReconcileKeepsOrders(w: World, orders: Orders, c: nat, expired: seq<nat>)
    requires OrdersOk(w, orders) && SnapshotsFresh(w) && Tidy(w)
    requires c in w.callers && w.callers[c].ReconcileListed? && ListsExpired(w.account, expired, w.now)
    ensures OrdersOk(ReconcileStep(w, c, expired), orders)
  {
    ReconcileStepMeaning(w, c, expired);
    var w', snap := ReconcileStep(w, c, expired), w.callers[c].snap;
    var r := ReconcileOperations(w.account, snap, expired, w.unused, w.now);
    if r.Some? {
      ReconcileIsCovered(w.account, snap, expired, w.unused, w.now);
      ReconciliationKeepsOrders(w, w', orders, c, r.value.1);
    } else {
      MovedCallerKeepsOrders(w, w', orders, c);
    }
  }

  // ----- Runs -----

  lemma StepKeepsOrders(cfg: Config, w: World, step: Step, orders: Orders, w': World) returns (more: Orders)
    requires OrdersOk(w, orders) && Tidy(w) && SnapshotsFresh(w)
    requires Enabled(cfg, w, step) && IsHarmless(w, step) && w' == Apply(cfg, w, step)
    ensures OrdersOk(w', more)
  {
    more := orders;
    if MovesCaller(step) {
      if step.ReconcileListing? {
        ListingKeepsOrders(w, orders, step.caller, step.listed);
      } else {
        OtherMoveKeepsOrders(w, step, orders);
      }
    } else if IsCheckoutTx(step) {
      CheckoutKeepsOrders(w, step, orders);
      more :| OrdersOk(w', more);
    } else if IsStripeStep(step) {
      StripeKeepsOrders(cfg, w, step, orders);
    } else if step.ReconcileTx? {
      ReconcileKeepsOrders(w, orders, step.caller, step.expired);
    } else {
      AccountKeepsOrders(w, step, orders);
      more :| OrdersOk(w', more);
    }
  }

  /** Every reservation of the run is harmless where it happens. */
  ghost predicate HarmlessRun(cfg: Config, w: World, steps: seq<Step>)
    requires Legal(cfg, w, steps)
    decreases |steps|
  {
    steps == [] || (IsHarmless(w, steps[0]) && HarmlessRun(cfg, Apply(cfg, w, steps[0]), steps[1..]))
  }

  lemma {:induction false} RunKeepsOrders(cfg: Config, w: World, steps: seq<Step>, orders: Orders)
    returns (more: Orders)
    requires OrdersOk(w, orders) && Tidy(w) && SnapshotsFresh(w) && Legal(cfg, w, steps) && HarmlessRun(cfg, w, steps)
    ensures var v := After(cfg, w, steps); OrdersOk(v, more) && Tidy(v) && SnapshotsFresh(v)
    decreases |steps|
  {
    more := orders;
    if steps != [] {
      var w' := Apply(cfg, w, steps[0]);
      more := StepKeepsOrders(cfg, w, steps[0], orders, w');
      StepFades(cfg, w, steps[0], w');
      StepKeepsSnapshotsFresh(cfg, w, steps[0], w');
      more := RunKeepsOrders(cfg, w', steps[1..], more);
    }
  }

  // ----- Sessions handed out -----

  /** The caller is about to be given a session: the open one of its attempt, or the one its create returns. */
  predicate HandsOut(w: World, c: nat) {
    && c in w.callers
    && match w.callers[c]
       case Listed(op, owner, order, _, snap) =>
         Coordinate(w.account, op, owner, order, snap, w.unused, w.now).1 == ReuseSession
       case Waiting(_, _, attempt, _, _) => attempt in w.sessions && RequestOf(w.callers[c]) !in w.requests
       case _ => false
  }

  /** That session was created for the order the caller asked for. */
  predicate AsAsked(w: World, c: nat)
    requires HandsOut(w, c)
  {
    match w.callers[c]
    case Listed(_, _, order, _, _) =>
      && w.account.cols.attempt.Some? && w.account.cols.attempt.value in w.sessions
      && w.sessions[w.account.cols.attempt.value].origin.order == Some(order)
    case Waiting(_, _, attempt, plan, _) => w.sessions[attempt].origin.order == plan
  }

  lemma OrdersMeanAsAsked(w: World, orders: Orders, c: nat)
    requires OrdersOk(w, orders) && HandsOut(w, c)
    ensures AsAsked(w, c)
  {
    var k := w.callers[c];
    assert CallerFits(w, orders, k);
    if k.Listed? {
      ReusesTheOpenSession(w.account.cols, k.order, k.snap, w.unused, w.now);
      var s :| s in k.snap.listed && s.attempt == w.account.cols.attempt.value && s.status == OPEN;
      assert Named(orders, s.attempt, w.sessions[s.attempt].origin.order);
    } else {
      assert Named(orders, k.attempt, w.sessions[k.attempt].origin.order);
    }
  }

  /**
   While reservations are harmless, whatever crashes and recoveries happen, a session handed out is of
   the order asked for.
   */
  lemma SessionsAreAsAsked(cfg: Config, steps: seq<Step>, c: nat)
    requires Legal(cfg, START, steps) && HarmlessRun(cfg, START, steps) && HandsOut(After(cfg, START, steps), c)
    ensures AsAsked(After(cfg, START, steps), c)
  {
    var orders := RunKeepsOrders(cfg, START, steps, map[]);
    OrdersMeanAsAsked(After(cfg, START, steps), orders, c);
  }
}
