/** The version counter guards every optimistic commit: there is no ABA. */
module BillingVersion {
  import opened Options
  import opened BillingAccounts
  import opened BillingReconcile
  import opened BillingProtocol

  /** The version never goes back, and grows whenever a billing column changes. */
  predicate VersionCovers(before: Account, after: Account) {
    before.version <= after.version && (after.cols != before.cols ==> before.version < after.version)
  }

  lemma ReconcileIsCovered(a: Account, snap: Snapshot, expired: seq<nat>, freshOwner: nat, now: nat)
    requires ListsExpired(a, expired, now)
    ensures var r := ReconcileOperations(a, snap, expired, freshOwner, now);
            r.Some? ==> VersionCovers(a, r.value.0)
  {
    if a.cols.customer == snap.customer && a.version == snap.version {
      ReconcileMeaning(a, snap, expired, freshOwner, now);
    }
  }

  lemma CheckoutTxIsCovered(w: World, step: Step)
    requires IsCheckoutTx(step) && CheckoutTxEnabled(w, step)
    ensures VersionCovers(w.account, CheckoutTx(w, step).account)
  {
  }

  lemma AccountStepIsCovered(w: World, step: Step)
    requires IsAccountStep(step)
    requires step.SubscriptionTx? ==> step.caller in w.callers && w.callers[step.caller].SubscriptionListed?
    ensures VersionCovers(w.account, AccountStep(w, step).account)
  {
  }

  /** Every commit that changes a customer, attempt, session or subscription column bumps the version. */
  lemma StepIsCovered(cfg: Config, w: World, step: Step, w': World)
    requires Enabled(cfg, w, step) && w' == Apply(cfg, w, step)
    ensures VersionCovers(w.account, w'.account)
  {
    if IsCheckoutTx(step) {
      CheckoutTxIsCovered(w, step);
    } else if step.ReconcileTx? {
      ReconcileIsCovered(w.account, w.callers[step.caller].snap, step.expired, w.unused, w.now);
    } else if MovesCaller(step) {
      MoveKeepsRest(w, step);
    } else if IsStripeStep(step) {
      StripeKeepsAccount(cfg, w, step);
    } else {
      AccountStepIsCovered(w, step);
    }
  }

  /** Equal versions mean equal columns, over any run between two states. */
  lemma {:induction false} SameVersionSameColumns(cfg: Config, w: World, steps: seq<Step>)
    requires Legal(cfg, w, steps)
    ensures VersionCovers(w.account, After(cfg, w, steps).account)
    decreases |steps|
  {
    if steps != [] {
      var w' := Apply(cfg, w, steps[0]);
      StepIsCovered(cfg, w, steps[0], w');
      SameVersionSameColumns(cfg, w', steps[1..]);
    }
  }

  /** What a caller read is still there while the version it read is. */
  predicate SnapshotFresh(a: Account, snap: Snapshot) {
    snap.version <= a.version && snap.customer == snap.cols.customer
    && (snap.version == a.version ==> snap.cols == a.cols)
  }

  predicate CallerFresh(a: Account, c: Caller) {
    match c
    case Snapped(_, _, _, _, snap) => SnapshotFresh(a, snap)
    case Listed(_, _, _, _, snap) => SnapshotFresh(a, snap)
    case ReconcileSnapped(snap) => SnapshotFresh(a, snap)
    case ReconcileListed(snap) => SnapshotFresh(a, snap)
    case SubscriptionListed(snap) => SnapshotFresh(a, snap)
    case _ => true
  }

  ghost predicate SnapshotsFresh(w: World) {
    forall c :: c in w.callers ==> CallerFresh(w.account, w.callers[c])
  }

  lemma MovedSnapshot(w: World, step: Step, c: nat)
    requires MovesCaller(step) && MoveEnabled(w, step) && c in MoveCaller(w, step).callers
    requires c in w.callers && CallerFresh(w.account, w.callers[c])
    ensures CallerFresh(w.account, MoveCaller(w, step).callers[c])
  {
  }

  lemma CheckoutSnapshot(w: World, step: Step, c: nat)
    requires IsCheckoutTx(step) && CheckoutTxEnabled(w, step)
    requires c in CheckoutTx(w, step).callers && c in w.callers && CallerFresh(w.account, w.callers[c])
    ensures CallerFresh(w.account, CheckoutTx(w, step).callers[c])
  {
  }

  lemma AccountSnapshot(w: World, step: Step, c: nat)
    requires IsAccountStep(step)
    requires step.SubscriptionTx? ==> step.caller in w.callers && w.callers[step.caller].SubscriptionListed?
    requires c in AccountStep(w, step).callers
    requires c in w.callers ==> CallerFresh(w.account, w.callers[c])
    ensures CallerFresh(w.account, AccountStep(w, step).callers[c])
  {
  }

  lemma ReconcileSnapshots(w: World, d: nat, expired: seq<nat>, c: nat)
    requires d in w.callers && w.callers[d].ReconcileListed? && ListsExpired(w.account, expired, w.now)
    requires c in ReconcileStep(w, d, expired).callers
    requires c in w.callers ==> CallerFresh(w.account, w.callers[c])
    ensures CallerFresh(w.account, ReconcileStep(w, d, expired).callers[c])
  {
  }

  /** A caller after a step: unmoved, with a fresh snapshot, or with none. */
  lemma SnapshotsAreTaken(cfg: Config, w: World, step: Step, w': World, c: nat)
    requires Enabled(cfg, w, step) && w' == Apply(cfg, w, step) && c in w'.callers
    requires c in w.callers ==> CallerFresh(w.account, w.callers[c])
    ensures CallerFresh(w.account, w'.callers[c])
  {
    if MovesCaller(step) {
      MovedSnapshot(w, step, c);
    } else if IsCheckoutTx(step) {
      CheckoutSnapshot(w, step, c);
    } else if IsStripeStep(step) {
      assert w' == StripeStep(w, step);
    } else if step.ReconcileTx? {
      assert w' == ReconcileStep(w, step.caller, step.expired);
      ReconcileSnapshots(w, step.caller, step.expired, c);
    } else {
      AccountSnapshot(w, step, c);
    }
  }

  lemma StepKeepsSnapshotsFresh(cfg: Config, w: World, step: Step, w': World)
    requires SnapshotsFresh(w) && Enabled(cfg, w, step) && w' == Apply(cfg, w, step)
    ensures SnapshotsFresh(w')
  {
    StepIsCovered(cfg, w, step, w');
    forall c | c in w'.callers ensures CallerFresh(w'.account, w'.callers[c]) {
      SnapshotsAreTaken(cfg, w, step, w', c);
    }
  }

  lemma {:induction false} SnapshotsStayFresh(cfg: Config, w: World, steps: seq<Step>)
    requires SnapshotsFresh(w) && Legal(cfg, w, steps)
    ensures SnapshotsFresh(After(cfg, w, steps))
    decreases |steps|
  {
    if steps != [] {
      var w' := Apply(cfg, w, steps[0]);
      StepKeepsSnapshotsFresh(cfg, w, steps[0], w');
      SnapshotsStayFresh(cfg, w', steps[1..]);
    }
  }

  /** The transactions that check the version before they write. */
  predicate IsGuardedCommit(w: World, step: Step) {
    match step
    case CoordinateTx(c) => c in w.callers && w.callers[c].Listed?
    case ReconcileTx(c, _) => c in w.callers && w.callers[c].ReconcileListed?
    case SubscriptionTx(c, _) => c in w.callers && w.callers[c].SubscriptionListed?
    case _ => false
  }

  function SnapshotOf(c: Caller): Snapshot
    requires c.Snapped? || c.Listed? || c.ReconcileSnapped? || c.ReconcileListed? || c.SubscriptionListed?
  {
    c.snap
  }

  /**
   A guarded commit changes rows only if the columns are exactly those it read before it
   called Stripe; otherwise it writes nothing.
   */
  lemma GuardedCommitsActOnWhatTheyRead(cfg: Config, steps: seq<Step>, step: Step)
    requires Legal(cfg, START, steps)
    requires var w := After(cfg, START, steps); IsGuardedCommit(w, step) && Enabled(cfg, w, step)
    ensures var w := After(cfg, START, steps);
            Apply(cfg, w, step).account != w.account ==>
              SnapshotOf(w.callers[step.caller]).cols == w.account.cols
  {
    var w := After(cfg, START, steps);
    SnapshotsStayFresh(cfg, START, steps);
    assert CallerFresh(w.account, w.callers[step.caller]);
  }
}
