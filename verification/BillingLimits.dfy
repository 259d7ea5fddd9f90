/** When a checkout session can be lost: exactly when a create may outlast a listing. */
module BillingLimits {
  import opened Options
  import opened BillingAccounts
  import opened BillingReconcile
  import opened BillingProtocol
  import opened BillingSafety

  ghost predicate Reachable(cfg: Config, w: World) {
    exists steps :: Legal(cfg, START, steps) && After(cfg, START, steps) == w
  }

  /** Some run, whatever the crashes and delays, ends with a lost session. */
  ghost predicate CanLose(cfg: Config) {
    exists steps :: Legal(cfg, START, steps) && !NothingLost(After(cfg, START, steps))
  }

  lemma Extend(cfg: Config, w: World, step: Step) returns (w': World)
    requires Reachable(cfg, w) && Enabled(cfg, w, step)
    ensures Reachable(cfg, w') && w' == Apply(cfg, w, step)
  {
    w' := Apply(cfg, w, step);
    var steps :| Legal(cfg, START, steps) && After(cfg, START, steps) == w;
    LegalThen(cfg, START, steps, step);
  }

  lemma Wait(cfg: Config, w: World, to: nat) returns (w': World)
    requires Reachable(cfg, w) && w.now <= to
    ensures Reachable(cfg, w') && w' == w.(now := to)
  {
    if w.now < to {
      w' := Extend(cfg, w, Advance(to));
    } else {
      w' := w;
    }
  }

  const LEASE: nat := CHECKOUT_OPERATION_LEASE_MS
  const LATE: nat := CHECKOUT_OPERATION_ABANDON_HORIZON_MS
  const ORDER := Order("SIGNAL", "month")
  const SUBSCRIBED := Subscription("SIGNAL", "active", Some(0), false, None)

  function Row(owner: nat, leaseExpiresAt: nat): Operation {
    Operation(CHECKOUT, Some(2), Some(ORDER), None, true, owner, false, leaseExpiresAt, 0)
  }

  const PENDING := Columns(Some(6), Some(2), Some(ORDER), Some(0), None, None, None)
  const REQUEST := Request(0, 1, 2, Some(ORDER), LATE)

  lemma OneCallerReserves(cfg: Config) returns (w: World)
    ensures Reachable(cfg, w) && w.now == 0
    ensures w.account == Account(PENDING.(customer := None), map[0 := Row(1, LEASE)], {}, 1)
    ensures w.sessions == map[] && w.requests == {} && w.recorded == {} && w.unused == 3
    ensures w.callers == map[0 := Reserved(0, 1, ORDER, None)]
  {
    assert Legal(cfg, START, []) && After(cfg, START, []) == START;
    w := Extend(cfg, START, ReserveCheckout(0, ORDER));
  }

  /** Two callers reserve the same attempt. */
  lemma TwoCallersReserve(cfg: Config) returns (w: World)
    ensures Reachable(cfg, w) && w.now == 0
    ensures w.account == Account(PENDING.(customer := None), map[0 := Row(1, LEASE), 3 := Row(4, LEASE)], {}, 2)
    ensures w.sessions == map[] && w.requests == {} && w.recorded == {} && w.unused == 6
    ensures w.callers == map[0 := Reserved(0, 1, ORDER, None), 1 := Reserved(3, 4, ORDER, None)]
  {
    w := OneCallerReserves(cfg);
    w := Extend(cfg, w, ReserveCheckout(1, ORDER));
  }

  /** The first caller comes back after the horizon. */
  lemma FirstCallerReads(cfg: Config) returns (w: World)
    ensures Reachable(cfg, w) && w.now == LATE
    ensures w.account == Account(PENDING, map[0 := Row(1, LEASE), 3 := Row(4, LEASE)], {}, 3)
    ensures w.sessions == map[] && w.requests == {} && w.recorded == {} && w.unused == 7
    ensures w.callers.Keys == {0, 1}
    ensures w.callers[0] == Snapped(0, 1, ORDER, None, Snapshot(3, Some(6), PENDING, false, [], LATE))
  {
    w := TwoCallersReserve(cfg);
    w := Extend(cfg, w, EnsureCustomer(0));
    w := Wait(cfg, w, LATE);
    w := Extend(cfg, w, TakeSnapshot(0));
  }

  /** Asked for the attempt's own order, with no session listed, the service creates its session. */
  lemma FirstCallerCreates(a: Account, snap: Snapshot, freshAttempt: nat)
    requires a == Account(PENDING, map[0 := Row(1, LEASE), 3 := Row(4, LEASE)], {}, 3)
    requires snap == Snapshot(3, Some(6), PENDING, false, [], LATE)
    ensures Coordinate(a, 0, 1, ORDER, snap, freshAttempt, LATE)
         == (Account(PENDING, map[0 := Row(1, LATE + LEASE), 3 := Row(4, LEASE)], {}, 3), CreateSession(2))
  {
    assert Decide(PENDING, ORDER, snap, freshAttempt, LATE) == (CreateSession(2), PENDING);
    assert RenewFence(a, 0, Some(2), LATE).operations == map[0 := Row(1, LATE + LEASE), 3 := Row(4, LEASE)];
  }

  lemma FirstCallerLists(cfg: Config) returns (w: World)
    ensures Reachable(cfg, w) && w.now == LATE
    ensures w.account == Account(PENDING, map[0 := Row(1, LEASE), 3 := Row(4, LEASE)], {}, 3)
    ensures w.sessions == map[] && w.requests == {} && w.recorded == {} && w.unused == 7
    ensures w.callers.Keys == {0, 1}
    ensures w.callers[0] == Listed(0, 1, ORDER, None, Snapshot(3, Some(6), PENDING, false, [], LATE))
  {
    w := FirstCallerReads(cfg);
    assert CompleteListing(w, []);
    w := Extend(cfg, w, ListSessions(0, false, []));
  }

  lemma FirstCallerFences(cfg: Config) returns (w: World)
    ensures Reachable(cfg, w) && w.now == LATE
    ensures w.account == Account(PENDING, map[0 := Row(1, LATE + LEASE), 3 := Row(4, LEASE)], {}, 3)
    ensures w.sessions == map[] && w.requests == {} && w.recorded == {}
    ensures w.callers.Keys == {0, 1} && w.callers[0] == Sending(0, 1, 2, Some(ORDER), LATE)
  {
    w := FirstCallerLists(cfg);
    FirstCallerCreates(w.account, w.callers[0].snap, w.unused);
    w := Extend(cfg, w, CoordinateTx(0));
  }

  const CLEARED := Columns(Some(6), None, None, None, None, None, Some(SUBSCRIBED))

  /** Its request is on the way ... */
  lemma FirstCallerSends(cfg: Config) returns (w: World)
    ensures Reachable(cfg, w) && w.now == LATE
    ensures w.account == Account(PENDING, map[0 := Row(1, LATE + LEASE), 3 := Row(4, LEASE)], {}, 3)
    ensures w.sessions == map[] && w.requests == {REQUEST} && w.recorded == {} && w.callers.Keys == {0, 1}
  {
    w := FirstCallerFences(cfg);
    w := Extend(cfg, w, Send(0));
  }

  /** ... when a subscription event clears the attempt ... */
  lemma AttemptIsCleared(cfg: Config) returns (w: World)
    ensures Reachable(cfg, w) && w.now == LATE
    ensures w.account == Account(CLEARED, map[0 := Row(1, LATE + LEASE), 3 := Row(4, LEASE)], {}, 4)
    ensures w.sessions == map[] && w.requests == {REQUEST} && w.recorded == {} && w.callers.Keys == {0, 1}
  {
    w := FirstCallerSends(cfg);
    w := Extend(cfg, w, SubscriptionSnapshot(2));
    w := Extend(cfg, w, SubscriptionTx(2, SUBSCRIBED));
  }

  /** ... and a reconciliation begins. */
  lemma ReconcilerStarts(cfg: Config) returns (w: World)
    ensures Reachable(cfg, w) && w.now == LATE
    ensures w.account == Account(CLEARED, map[0 := Row(1, LATE + LEASE), 3 := Row(4, LEASE)], {}, 4)
    ensures w.sessions == map[] && w.requests == {REQUEST} && w.recorded == {}
    ensures 3 in w.callers && w.callers[3].ReadyToReconcile?
  {
    w := AttemptIsCleared(cfg);
    assert 3 in w.account.operations && w.account.operations[3].leaseExpiresAt <= w.now;
    w := Extend(cfg, w, BeginReconcile(3));
  }

  lemma ReconciliationBegins(cfg: Config) returns (w: World)
    ensures Reachable(cfg, w) && w.now == LATE
    ensures w.account == Account(CLEARED, map[0 := Row(1, LATE + LEASE), 3 := Row(4, LEASE)], {}, 4)
    ensures w.sessions == map[] && w.requests == {REQUEST} && w.recorded == {}
    ensures 3 in w.callers && w.callers[3] == ReconcileSnapped(Snapshot(4, Some(6), CLEARED, false, [], LATE))
  {
    w := ReconcilerStarts(cfg);
    w := Extend(cfg, w, ReconcileSnapshot(3));
  }

  /** It lists late enough to commit after the lease has run out ... */
  lemma ReconciliationLists(cfg: Config) returns (w: World)
    requires !SafeTiming(cfg)
    ensures Reachable(cfg, w) && LATE <= w.now <= LATE + LEASE && LATE + LEASE <= w.now + cfg.gap
            && w.now <= LATE + cfg.settle
    ensures w.account == Account(CLEARED, map[0 := Row(1, LATE + LEASE), 3 := Row(4, LEASE)], {}, 4)
    ensures w.sessions == map[] && w.requests == {REQUEST} && w.recorded == {}
    ensures 3 in w.callers && w.callers[3] == ReconcileListed(Snapshot(4, Some(6), CLEARED, false, [], w.now))
  {
    w := ReconciliationBegins(cfg);
    w := Wait(cfg, w, if cfg.gap < LEASE then LATE + LEASE - cfg.gap else LATE);
    assert CompleteListing(w, []);
    w := Extend(cfg, w, ReconcileListing(3, []));
  }

  /** ... and the create executes just after. */
  lemma CreateOutlastsListing(cfg: Config) returns (w: World)
    requires !SafeTiming(cfg)
    ensures Reachable(cfg, w) && w.now == LATE + LEASE
    ensures w.account == Account(CLEARED, map[0 := Row(1, LATE + LEASE), 3 := Row(4, LEASE)], {}, 4)
    ensures w.sessions.Keys == {2} && w.recorded == {}
    ensures 3 in w.callers && w.callers[3].ReconcileListed?
    ensures var snap := w.callers[3].snap;
            snap.listed == [] && snap.version == 4 && snap.customer == Some(6) && w.now <= snap.listedAt + cfg.gap
  {
    w := ReconciliationLists(cfg);
    w := Extend(cfg, w, ExecuteCreate(REQUEST));
    w := Wait(cfg, w, LATE + LEASE);
  }

  lemma BothRowsAreAbandoned(a: Account, unused: nat, snap: Snapshot)
    requires a == Account(CLEARED, map[0 := Row(1, LATE + LEASE), 3 := Row(4, LEASE)], {}, 4)
    requires snap.listed == [] && snap.version == 4 && snap.customer == Some(6)
    ensures ListsExpired(a, [0, 3], LATE + LEASE)
    ensures ReconcileOperations(a, snap, [0, 3], unused, LATE + LEASE)
            == Some((a.(operations := map[], version := 5), NoRecovery))
  {
    var ids, p := [0, 3], Progress(a, false, NoRecovery);
    assert ids[0] == 0 && ids[1] == 3;
    var q := ReconcileOne(p, 0, [], unused, LATE + LEASE);
    assert q == Progress(a.(operations := map[3 := Row(4, LEASE)]), true, NoRecovery);
    var r := ReconcileOne(q, 3, [], unused, LATE + LEASE);
    assert r == Progress(a.(operations := map[]), true, NoRecovery);
    assert ids[1..] == [3] && [3][1..] == [];
    assert ReconcileAll(r, [], [], unused, LATE + LEASE) == r;
    assert ReconcileAll(q, [3], [], unused, LATE + LEASE) == r;
  }

  lemma UnsafeTimingLoses(cfg: Config)
    requires !SafeTiming(cfg)
    ensures CanLose(cfg)
  {
    var w := CreateOutlastsListing(cfg);
    BothRowsAreAbandoned(w.account, w.unused, w.callers[3].snap);
    w := Extend(cfg, w, ReconcileTx(3, [0, 3]));
    assert 2 in w.sessions && Lost(w, 2);
  }

  /** Sessions can be lost exactly when a create may still be executed after the listing its row is judged by. */
  lemma LossIffUnsafeTiming(cfg: Config)
    ensures CanLose(cfg) <==> !SafeTiming(cfg)
  {
    if SafeTiming(cfg) {
      forall steps | Legal(cfg, START, steps) ensures NothingLost(After(cfg, START, steps)) {
        NoSessionIsLost(cfg, steps);
      }
    } else {
      UnsafeTimingLoses(cfg);
    }
  }
}
