/**
 How the service loses sight of a session it had recorded: exactly which transactions take
 it off the user row without leaving a cleanup intent for it.
 */
module BillingForgetting {
  import opened Options
  import opened BillingAccounts
  import opened BillingReconcile
  import opened BillingProtocol
  import opened BillingDecisions
  import opened BillingVersion

  /** The session is on the user row, and no intent names it. */
  predicate OnRow(a: Account, t: nat) { a.cols.session == Some(t) && t !in a.intents }

  predicate IsForgotten(a: Account, t: nat) { t !in RecordedNow(a) }

  // ----- A session has an attempt -----

  predicate SessionHasAttempt(a: Account) { a.cols.session.Some? ==> a.cols.attempt.Some? }

  lemma CoordinateKeepsAttempt(
        a: Account, op: nat, owner: nat, order: Order, snap: Snapshot, freshAttempt: nat, now: nat)
    requires SessionHasAttempt(a)
    ensures SessionHasAttempt(Coordinate(a, op, owner, order, snap, freshAttempt, now).0)
  {
  }

  lemma CheckoutKeepsAttempt(w: World, step: Step, c: nat)
    requires SessionHasAttempt(w.account) && IsCheckoutTx(step) && CheckoutTxEnabled(w, step) && c == step.caller
    ensures SessionHasAttempt(CheckoutTx(w, step).account)
  {
    if step.CoordinateTx? {
      var k := w.callers[c];
      CoordinateKeepsAttempt(w.account, k.op, k.owner, k.order, k.snap, w.unused, w.now);
    }
  }

  lemma AccountKeepsAttempt(w: World, step: Step)
    requires SessionHasAttempt(w.account) && IsAccountStep(step) && AccountEnabled(w, step)
    ensures SessionHasAttempt(AccountStep(w, step).account)
  {
  }

  lemma StepKeepsAttempt(cfg: Config, w: World, step: Step, w': World)
    requires SessionHasAttempt(w.account) && Enabled(cfg, w, step) && w' == Apply(cfg, w, step)
    ensures SessionHasAttempt(w'.account)
  {
    if MovesCaller(step) {
      MoveKeepsRest(w, step);
    } else if IsCheckoutTx(step) {
      CheckoutKeepsAttempt(w, step, step.caller);
    } else if IsStripeStep(step) {
      StripeKeepsAccount(cfg, w, step);
    } else if step.ReconcileTx? {
      var snap := w.callers[step.caller].snap;
      if Commits(w.account, snap) {
        FoundSessions(Progress(w.account, false, NoRecovery), step.expired, snap.listed, w.unused, w.now);
      }
    } else {
      AccountKeepsAttempt(w, step);
    }
  }

  lemma {:induction false} RunKeepsAttempt(cfg: Config, w: World, steps: seq<Step>)
    requires SessionHasAttempt(w.account) && Legal(cfg, w, steps)
    ensures SessionHasAttempt(After(cfg, w, steps).account)
    decreases |steps|
  {
    if steps != [] {
      var w' := Apply(cfg, w, steps[0]);
      StepKeepsAttempt(cfg, w, steps[0], w');
      RunKeepsAttempt(cfg, w', steps[1..]);
    }
  }

  // ----- Reconciliation -----

  /** An optimistic commit goes ahead. */
  predicate Commits(a: Account, snap: Snapshot) { a.cols.customer == snap.customer && a.version == snap.version }

  /** Some expired checkout of the attempt `t` has its session in the listing. */
  predicate Finds(a: Account, expired: seq<nat>, listed: seq<SessionInfo>, t: Option<nat>) {
    exists op :: op in expired && op in a.operations && a.operations[op].attempt == t
                 && HasListedSession(a.operations[op], listed)
  }

  /** The loop records what it finds: of the current attempt on the user row, of others as intents. */
  lemma {:induction false} FoundSessions(
        p: Progress, expired: seq<nat>, listed: seq<SessionInfo>, freshOwner: nat, now: nat)
    requires forall i :: 0 <= i < |expired| ==> expired[i] in p.account.operations
    requires forall i, j :: 0 <= i < j < |expired| ==> expired[i] != expired[j]
    ensures var a, b := p.account, ReconcileAll(p, expired, listed, freshOwner, now).account;
            && b.cols.attempt == a.cols.attempt
            && b.cols.session == (if Finds(a, expired, listed, a.cols.attempt) then a.cols.attempt else a.cols.session)
            && forall t: nat :: Some(t) != a.cols.attempt ==>
                 (t in b.intents <==> t in a.intents || Finds(a, expired, listed, Some(t)))
    decreases |expired|
  {
    if expired != [] {
      var op, rest, a := expired[0], expired[1..], p.account;
      var q := ReconcileOne(p, op, listed, freshOwner, now);
      ReconcileOneRest(p, op, listed, freshOwner, now);
      FoundSessions(q, rest, listed, freshOwner, now);
      forall t ensures Finds(a, expired, listed, t) <==>
                         (a.operations[op].attempt == t && HasListedSession(a.operations[op], listed))
                         || Finds(q.account, rest, listed, t)
      {
        FindsFirstOrRest(a, q.account, expired, listed, t);
      }
    }
  }

  lemma FindsFirstOrRest(a: Account, b: Account, expired: seq<nat>, listed: seq<SessionInfo>, t: Option<nat>)
    requires expired != [] && expired[0] in a.operations && expired[0] !in expired[1..]
    requires forall op :: op in expired[1..] ==>
              op in a.operations && op in b.operations && b.operations[op] == a.operations[op]
    ensures Finds(a, expired, listed, t) <==>
              (a.operations[expired[0]].attempt == t && HasListedSession(a.operations[expired[0]], listed))
              || Finds(b, expired[1..], listed, t)
  {
    assert expired == [expired[0]] + expired[1..];
  }

  // ----- The condition -----

  /**
   A decision that forgets the session `t` of the row: for a subscription; for the open
   session the current attempt turned out to have instead; or because Stripe has forgotten the
   attempt, unless `t` is what must be expired before the attempt's own session is created.
   */
  predicate DecisionForgets(cols: Columns, order: Order, snap: Snapshot, now: nat, t: nat) {
    var matches := cols.attemptOrder == Some(order);
    var current := FindSession(snap.listed, cols.attempt);
    var onRow := FindSession(snap.listed, Some(t));
    var reusable := matches && IsOpen(current) && current.value.url.Some?;
    var awaited := matches && (cols.attempt != Some(t) || onRow.None?)
                   && !(onRow.Some? && onRow.value.status == COMPLETE);
    || snap.subscribed
    || (cols.attempt != Some(t) && (reusable || (!matches && !OldEnough(cols, now) && IsOpen(current))))
    || (OldEnough(cols, now) && !reusable && !awaited)
  }

  lemma DecisionForgetsIff(cols: Columns, order: Order, snap: Snapshot, freshAttempt: nat, now: nat, t: nat)
    requires cols.session == Some(t) && cols.attempt.Some?
    ensures Decide(cols, order, snap, freshAttempt, now).1.session != Some(t) <==>
            DecisionForgets(cols, order, snap, now, t)
  {
  }

  ghost predicate Forgets(w: World, step: Step, t: nat) {
    var a := w.account;
    match step
    case CoordinateTx(c) =>
      && c in w.callers && w.callers[c].Listed?
      && var k := w.callers[c];
         && Commits(a, k.snap) && a.intents == {} && Owns(a, k.op, k.owner)
         && DecisionForgets(a.cols, k.order, k.snap, w.now, t)
    case PersistTx(c, url) =>
      && c in w.callers && w.callers[c].Returned?
      && var k := w.callers[c];
         Owns(a, k.op, k.owner) && url.Some? && a.cols.attempt == Some(k.attempt) && k.attempt != t
    case SubscriptionTx(c, state) =>
      && c in w.callers && w.callers[c].SubscriptionListed?
      && Commits(a, w.callers[c].snap) && state.stripeSubscriptionId.Some?
    case ReconcileTx(c, expired) =>
      && c in w.callers && w.callers[c].ReconcileListed?
      && var snap := w.callers[c].snap;
         && Commits(a, snap) && a.cols.attempt != Some(t)
         && Finds(a, expired, snap.listed, a.cols.attempt) && !Finds(a, expired, snap.listed, Some(t))
    case _ => false
  }

  lemma CoordinateForgetsIff(w: World, step: Step, t: nat)
    requires step.CoordinateTx? && CheckoutTxEnabled(w, step) && SessionHasAttempt(w.account) && OnRow(w.account, t)
    ensures IsForgotten(CheckoutTx(w, step).account, t) <==> Forgets(w, step, t)
  {
    var k := w.callers[step.caller];
    DecisionForgetsIff(w.account.cols, k.order, k.snap, w.unused, w.now, t);
  }

  lemma EndForgetsIff(w: World, step: Step, t: nat)
    requires IsCheckoutTx(step) && !step.CoordinateTx? && CheckoutTxEnabled(w, step) && OnRow(w.account, t)
    ensures IsForgotten(CheckoutTx(w, step).account, t) <==> Forgets(w, step, t)
  {
  }

  lemma AccountForgetsIff(w: World, step: Step, t: nat)
    requires IsAccountStep(step) && AccountEnabled(w, step) && SessionHasAttempt(w.account) && OnRow(w.account, t)
    ensures IsForgotten(AccountStep(w, step).account, t) <==> Forgets(w, step, t)
  {
  }

  lemma ReconcileForgetsIff(w: World, c: nat, expired: seq<nat>, t: nat)
    requires c in w.callers && w.callers[c].ReconcileListed? && ListsExpired(w.account, expired, w.now)
    requires SessionHasAttempt(w.account) && OnRow(w.account, t)
    ensures IsForgotten(ReconcileStep(w, c, expired).account, t) <==> Forgets(w, ReconcileTx(c, expired), t)
  {
    var snap := w.callers[c].snap;
    if Commits(w.account, snap) {
      FoundSessions(Progress(w.account, false, NoRecovery), expired, snap.listed, w.unused, w.now);
    }
  }

  /**
   At every reachable state, a step takes the session off the user row without an intent for it
   if and only if it is a coordination that decides against it, the return of the current
   attempt's own session, a subscription event, or a reconciliation that finds the current
   attempt's session and no expired row for this one.
   */
  lemma SessionIsForgottenIff(cfg: Config, steps: seq<Step>, step: Step, t: nat)
    requires Legal(cfg, START, steps) && Enabled(cfg, After(cfg, START, steps), step)
    requires OnRow(After(cfg, START, steps).account, t)
    ensures var w := After(cfg, START, steps);
            IsForgotten(Apply(cfg, w, step).account, t) <==> Forgets(w, step, t)
  {
    var w := After(cfg, START, steps);
    RunKeepsAttempt(cfg, START, steps);
    if MovesCaller(step) {
      MoveKeepsRest(w, step);
    } else if IsCheckoutTx(step) {
      if step.CoordinateTx? {
        CoordinateForgetsIff(w, step, t);
      } else {
        EndForgetsIff(w, step, t);
      }
    } else if IsStripeStep(step) {
      StripeKeepsAccount(cfg, w, step);
    } else if step.ReconcileTx? {
      ReconcileForgetsIff(w, step.caller, step.expired, t);
    } else {
      AccountForgetsIff(w, step, t);
    }
  }
}
