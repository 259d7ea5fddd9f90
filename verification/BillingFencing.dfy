/** A superseded owner token is powerless: recovery fences off the caller it took over from. */
module BillingFencing {
  import opened Options
  import opened BillingAccounts
  import opened BillingProtocol
  import opened BillingInvariant
  import opened BillingQuiet
  import opened BillingReconcile
  import opened BillingSafety

  /** A step of the caller that holds `owner` for the operation `op`. */
  predicate ActsFor(w: World, step: Step, op: nat, owner: nat) {
    && (MovesCaller(step) || IsCheckoutTx(step) || step.EnsureCustomer? || step.Send? || step.CreateRefused?)
    && step.caller in w.callers && OwnerOf(w.callers[step.caller]) == Some(owner) && w.callers[step.caller].op == op
  }

  /** No row, attempt or session column changes; a missing customer may be filled, an intent added. */
  predicate LeavesAlone(a: Account, b: Account) {
    && b.operations == a.operations && a.intents <= b.intents && a.version <= b.version
    && (a.cols.customer.Some? ==> b.cols == a.cols)
    && b.cols == a.cols.(customer := b.cols.customer)
  }

  lemma SupersededTxIsHarmless(w: World, step: Step, c: nat)
    requires IsCheckoutTx(step) && CheckoutTxEnabled(w, step) && c == step.caller
    requires !Owns(w.account, w.callers[c].op, w.callers[c].owner)
    ensures LeavesAlone(w.account, CheckoutTx(w, step).account)
  {
  }

  lemma SupersededIsHarmless(cfg: Config, w: World, step: Step, op: nat, owner: nat, w': World)
    requires Enabled(cfg, w, step) && w' == Apply(cfg, w, step)
    requires ActsFor(w, step, op, owner) && !Owns(w.account, op, owner)
    ensures LeavesAlone(w.account, w'.account)
  {
    if MovesCaller(step) {
      MoveKeepsRest(w, step);
    } else if IsCheckoutTx(step) {
      SupersededTxIsHarmless(w, step, step.caller);
    } else if IsStripeStep(step) {
      StripeKeepsAccount(cfg, w, step);
    } else {
      assert w' == AccountStep(w, step);
    }
  }

  // ----- A token once lost is never regained -----

  /** Tokens stay tidy, and nobody comes to own a row under an old token. */
  ghost predicate TokensOnlyFade(w: World, w': World) {
    && Tidy(w') && w.unused <= w'.unused
    && forall op, t: nat :: t < w.unused && Owns(w'.account, op, t) ==> Owns(w.account, op, t)
  }

  lemma QuietFades(w: World, w': World, c: nat, owner: nat)
    requires Tidy(w) && Quiet(w, w', c, owner)
    ensures TokensOnlyFade(w, w')
  {
    QuietKeepsTokens(w, w', c, owner);
  }

  lemma ReconcileFades(w: World, c: nat, expired: seq<nat>, w': World)
    requires Tidy(w) && c in w.callers && w.callers[c].ReconcileListed? && ListsExpired(w.account, expired, w.now)
    requires w' == ReconcileStep(w, c, expired)
    ensures TokensOnlyFade(w, w')
  {
    ReconcileStepMeaning(w, c, expired);
    var r := ReconcileOperations(w.account, w.callers[c].snap, expired, w.unused, w.now);
    if r.Some? {
      ReconciliationKeepsTokens(w, w', c, r.value.1);
    }
  }

  lemma CheckoutFades(w: World, step: Step, w': World)
    requires Tidy(w) && IsCheckoutTx(step) && CheckoutTxEnabled(w, step) && w' == CheckoutTx(w, step)
    ensures TokensOnlyFade(w, w')
  {
    var c := step.caller;
    CheckoutIsQuiet(w, step, c);
    QuietFades(w, w', c, TokenIn(w, c));
  }

  lemma AccountFades(w: World, step: Step, w': World)
    requires Tidy(w) && IsAccountStep(step) && AccountEnabled(w, step) && w' == AccountStep(w, step)
    ensures TokensOnlyFade(w, w')
  {
    if HasNewCaller(step) {
      NewCallerIsQuiet(w, step);
    } else {
      ColumnStepIsQuiet(w, step, 0);
    }
    QuietFades(w, w', if HasNewCaller(step) then step.caller else 0, w.unused);
  }

  lemma StepFades(cfg: Config, w: World, step: Step, w': World)
    requires Tidy(w) && Enabled(cfg, w, step) && w' == Apply(cfg, w, step)
    ensures TokensOnlyFade(w, w')
  {
    if MovesCaller(step) {
      MoveIsQuiet(w, step);
      QuietFades(w, w', step.caller, TokenIn(w, step.caller));
    } else if IsCheckoutTx(step) {
      CheckoutFades(w, step, w');
    } else if IsStripeStep(step) {
      assert w' == StripeStep(w, step);
    } else if step.ReconcileTx? {
      ReconcileFades(w, step.caller, step.expired, w');
    } else {
      AccountFades(w, step, w');
    }
  }

  lemma {:induction false} RunFades(cfg: Config, w: World, steps: seq<Step>)
    requires Tidy(w) && Legal(cfg, w, steps)
    ensures TokensOnlyFade(w, After(cfg, w, steps))
    decreases |steps|
  {
    if steps != [] {
      var w' := Apply(cfg, w, steps[0]);
      StepFades(cfg, w, steps[0], w');
      RunFades(cfg, w', steps[1..]);
    }
  }

  /**
   Once recovery has re-issued or closed an operation, at any later time, whatever else
   happened, a step of the superseded owner touches neither an operation row nor the
   attempt and session columns.
   */
  lemma SupersededOwnerIsPowerless(cfg: Config, before: seq<Step>, later: seq<Step>, step: Step, op: nat, owner: nat)
    requires Legal(cfg, START, before)
    requires var w := After(cfg, START, before); owner < w.unused && !Owns(w.account, op, owner) && Legal(cfg, w, later)
    requires var w := After(cfg, After(cfg, START, before), later); ActsFor(w, step, op, owner) && Enabled(cfg, w, step)
    ensures var w := After(cfg, After(cfg, START, before), later);
            LeavesAlone(w.account, Apply(cfg, w, step).account)
  {
    RunFades(cfg, START, before);
    var w := After(cfg, START, before);
    RunFades(cfg, w, later);
    var w' := After(cfg, w, later);
    SupersededIsHarmless(cfg, w', step, op, owner, Apply(cfg, w', step));
  }

  lemma ReconciledRowHasNewToken(a: Account, snap: Snapshot, expired: seq<nat>, unused: nat, now: nat, op: nat)
    requires ListsExpired(a, expired, now) && op in a.operations && a.operations[op].owner < unused
    requires a.cols.customer == snap.customer && a.version == snap.version
    ensures var r := ReconcileOperations(a, snap, expired, unused, now);
            && r.Some?
            && var b := r.value.0;
               op in b.operations && b.operations[op] != a.operations[op] ==>
                 b.operations[op].owner == unused && !Owns(b, op, a.operations[op].owner)
  {
    ReconcileMeaning(a, snap, expired, unused, now);
    var p := ReconcileAll(Progress(a, false, NoRecovery), expired, snap.listed, unused, now);
    assert op in expired ==> RowOutcome(a, p, op, snap.listed, unused, now);
  }

  /** Recovery supersedes: a row that a reconciliation changes carries a token nobody had before. */
  lemma RecoveryIssuesNewToken(cfg: Config, before: seq<Step>, step: Step, op: nat)
    requires Legal(cfg, START, before)
    requires var w := After(cfg, START, before);
             && Enabled(cfg, w, step) && step.ReconcileTx?
             && op in w.account.operations
    ensures var w := After(cfg, START, before);
            var a, b := w.account, Apply(cfg, w, step).account;
            op in b.operations && b.operations[op] != a.operations[op] ==>
              b.operations[op].owner == w.unused && !Owns(b, op, a.operations[op].owner)
  {
    RunFades(cfg, START, before);
    var w := After(cfg, START, before);
    var snap := w.callers[step.caller].snap;
    assert Apply(cfg, w, step) == ReconcileStep(w, step.caller, step.expired);
    if w.account.cols.customer == snap.customer && w.account.version == snap.version {
      ReconciledRowHasNewToken(w.account, snap, step.expired, w.unused, w.now, op);
    }
  }
}
