/** Every step keeps the invariant, and so no checkout session is ever lost. */
module BillingSafety {
  import opened Options
  import opened BillingAccounts
  import opened BillingReconcile
  import opened BillingProtocol
  import opened BillingInvariant
  import opened BillingQuiet

  /** What the invariant says of a caller's own request and session. */
  lemma TokenUse(cfg: Config, w: World, c: nat)
    requires Inv(cfg, w) && c in w.callers
    ensures CallerOk(cfg, w, w.callers[c])
    ensures forall r :: r in w.requests && OwnerOf(w.callers[c]) == Some(r.owner) ==> AwaitsRequest(w.callers[c], r)
    ensures forall a :: a in w.sessions && OwnerOf(w.callers[c]) == Some(w.sessions[a].origin.owner) ==>
              a in w.recorded
              || (RowFenced(w.account, w.sessions[a].origin) && KnowsSession(w, w.callers[c], w.sessions[a].origin))
    ensures forall a :: a in w.sessions ==> w.sessions[a].origin.owner < w.unused && w.sessions[a].origin.attempt == a
    ensures forall r :: r in w.requests ==> r.owner < w.unused
  {
    forall r | r in w.requests
      ensures r.owner < w.unused
      ensures OwnerOf(w.callers[c]) == Some(r.owner) ==> AwaitsRequest(w.callers[c], r)
    {
      assert RequestOk(cfg, w, r);
    }
    forall a | a in w.sessions
      ensures w.sessions[a].origin.owner < w.unused && w.sessions[a].origin.attempt == a
      ensures OwnerOf(w.callers[c]) == Some(w.sessions[a].origin.owner) ==>
                a in w.recorded
                || (RowFenced(w.account, w.sessions[a].origin) && KnowsSession(w, w.callers[c], w.sessions[a].origin))
    {
      assert SessionOk(cfg, w, a);
    }
  }

  lemma ReplyKeepsOwn(cfg: Config, w: World, step: Step)
    requires Inv(cfg, w) && (step.CreateSucceeds? || step.CreateAmbiguous?) && MoveEnabled(w, step)
    ensures OwnKept(cfg, w, MoveCaller(w, step), step.caller, TokenIn(w, step.caller))
  {
    TokenUse(cfg, w, step.caller);
  }

  /** A caller that has sent nothing. */
  predicate HasSentNothing(k: Caller) { k.Reserved? || k.Snapped? || k.Listed? || k.OpeningPortal? || k.Sending? }

  lemma NothingSentKeepsOwn(cfg: Config, w: World, w': World, c: nat)
    requires Inv(cfg, w) && c in w.callers && HasSentNothing(w.callers[c]) && w.recorded <= w'.recorded
    requires c in w'.callers ==> CallerOk(cfg, w', w'.callers[c])
    ensures OwnKept(cfg, w, w', c, TokenIn(w, c))
  {
    TokenUse(cfg, w, c);
  }

  lemma ReaderKeepsOwn(cfg: Config, w: World, step: Step)
    requires Inv(cfg, w) && (step.TakeSnapshot? || step.ListSessions?) && MoveEnabled(w, step)
    ensures OwnKept(cfg, w, MoveCaller(w, step), step.caller, TokenIn(w, step.caller))
  {
    assert CallerOk(cfg, w, w.callers[step.caller]);
    NothingSentKeepsOwn(cfg, w, MoveCaller(w, step), step.caller);
  }

  lemma GivingUpKeepsOwn(cfg: Config, w: World, step: Step)
    requires Inv(cfg, w) && (step.Throw? || step.PortalAmbiguous? || step.PortalSettled?) && MoveEnabled(w, step)
    ensures OwnKept(cfg, w, MoveCaller(w, step), step.caller, TokenIn(w, step.caller))
  {
    NothingSentKeepsOwn(cfg, w, MoveCaller(w, step), step.caller);
  }

  lemma CrashKeepsOwn(cfg: Config, w: World, step: Step)
    requires Inv(cfg, w) && step.Crash? && MoveEnabled(w, step)
    ensures OwnKept(cfg, w, MoveCaller(w, step), step.caller, TokenIn(w, step.caller))
  {
    TokenUse(cfg, w, step.caller);
  }

  lemma ReconcilerMoveKeepsOwn(cfg: Config, w: World, step: Step)
    requires Inv(cfg, w) && (step.ReconcileSnapshot? || step.ReconcileListing?) && MoveEnabled(w, step)
    ensures OwnKept(cfg, w, MoveCaller(w, step), step.caller, TokenIn(w, step.caller))
  {
    TokenUse(cfg, w, step.caller);
  }

  /** A decision to create or to expire a session leaves the caller's row fenced for the attempt it names. */
  lemma CreationIsFenced(a: Account, op: nat, owner: nat, order: Order, snap: Snapshot, freshAttempt: nat, now: nat)
    requires CheckoutRow(a, op, owner, order)
    ensures var (b, action) := Coordinate(a, op, owner, order, snap, freshAttempt, now);
            && CheckoutRow(b, op, owner, order)
            && (action.CreateSession? || action.ExpireSession? ==>
                  && RowFenced(b, Request(op, owner, action.attempt, Some(order), now))
                  && b.cols.customer == snap.customer)
  {
  }

  lemma CoordinatedCallerIsOk(cfg: Config, w: World, step: Step, c: nat)
    requires Inv(cfg, w) && step.CoordinateTx? && CheckoutTxEnabled(w, step) && c == step.caller
    ensures var w' := CheckoutTx(w, step); c in w'.callers && CallerOk(cfg, w', w'.callers[c])
  {
    var k := w.callers[c];
    TokenUse(cfg, w, c);
    CreationIsFenced(w.account, k.op, k.owner, k.order, k.snap, w.unused, w.now);
  }

  lemma CoordinateKeepsOwn(cfg: Config, w: World, step: Step, c: nat)
    requires Inv(cfg, w) && step.CoordinateTx? && CheckoutTxEnabled(w, step) && c == step.caller
    ensures OwnKept(cfg, w, CheckoutTx(w, step), c, TokenIn(w, c))
  {
    CoordinatedCallerIsOk(cfg, w, step, c);
    NothingSentKeepsOwn(cfg, w, CheckoutTx(w, step), c);
  }

  lemma PersistKeepsOwn(cfg: Config, w: World, step: Step, c: nat)
    requires Inv(cfg, w) && step.PersistTx? && CheckoutTxEnabled(w, step) && c == step.caller
    ensures OwnKept(cfg, w, CheckoutTx(w, step), c, TokenIn(w, c))
  {
    TokenUse(cfg, w, c);
  }

  lemma UncertainKeepsOwn(cfg: Config, w: World, step: Step, c: nat)
    requires Inv(cfg, w) && step.UncertainTx? && CheckoutTxEnabled(w, step) && c == step.caller
    ensures OwnKept(cfg, w, CheckoutTx(w, step), c, TokenIn(w, c))
  {
    TokenUse(cfg, w, c);
  }

  lemma FinishKeepsOwn(cfg: Config, w: World, step: Step, c: nat)
    requires Inv(cfg, w) && step.FinishTx? && CheckoutTxEnabled(w, step) && c == step.caller
    ensures OwnKept(cfg, w, CheckoutTx(w, step), c, TokenIn(w, c))
  {
    TokenUse(cfg, w, c);
  }

  lemma PortalKeepsOwn(cfg: Config, w: World, step: Step, c: nat)
    requires Inv(cfg, w) && step.RenewPortalTx? && CheckoutTxEnabled(w, step) && c == step.caller
    ensures OwnKept(cfg, w, CheckoutTx(w, step), c, TokenIn(w, c))
  {
    TokenUse(cfg, w, c);
  }

  // ----- Account steps -----

  lemma AccountStepKeepsOwn(cfg: Config, w: World, step: Step)
    requires Inv(cfg, w) && HasNewCaller(step) && step.caller !in w.callers
    ensures OwnKept(cfg, w, AccountStep(w, step), step.caller, w.unused)
  {
    TokensAreOld(cfg, w);
  }

  lemma TokensAreOld(cfg: Config, w: World)
    requires Inv(cfg, w)
    ensures forall a :: a in w.sessions ==> w.sessions[a].origin.owner < w.unused
    ensures forall r :: r in w.requests ==> r.owner < w.unused
  {
    forall r | r in w.requests ensures r.owner < w.unused {
      assert RequestOk(cfg, w, r);
    }
    forall a | a in w.sessions ensures w.sessions[a].origin.owner < w.unused {
      assert SessionOk(cfg, w, a);
    }
  }

  lemma NewCallerKeepsInv(cfg: Config, w: World, step: Step)
    requires Inv(cfg, w) && HasNewCaller(step) && step.caller !in w.callers
    ensures Inv(cfg, AccountStep(w, step))
  {
    var c, w' := step.caller, AccountStep(w, step);
    assert Quiet(w, w', c, w.unused) by {
      NewCallerIsQuiet(w, step);
    }
    assert OwnKept(cfg, w, w', c, w.unused) by {
      AccountStepKeepsOwn(cfg, w, step);
    }
    QuietKeepsInv(cfg, w, w', c, w.unused);
  }

  /** The next token has no request and no session yet. */
  lemma NobodysOwnIsKept(cfg: Config, w: World, w': World, c: nat)
    requires Inv(cfg, w) && (c in w'.callers ==> c in w.callers && w'.callers[c] == w.callers[c])
    ensures OwnKept(cfg, w, w', c, w.unused)
  {
    TokensAreOld(cfg, w);
  }

  lemma ColumnStepKeepsOwn(cfg: Config, w: World, step: Step)
    requires Inv(cfg, w) && KeepsRows(step)
    requires step.SubscriptionTx? ==> step.caller in w.callers && w.callers[step.caller].SubscriptionListed?
    ensures OwnKept(cfg, w, AccountStep(w, step), 0, w.unused)
  {
    var callers := AccountStep(w, step).callers;
    assert 0 in callers ==> 0 in w.callers && callers[0] == w.callers[0];
    NobodysOwnIsKept(cfg, w, AccountStep(w, step), 0);
  }

  lemma ColumnStepKeepsInv(cfg: Config, w: World, step: Step)
    requires Inv(cfg, w) && KeepsRows(step)
    requires step.Advance? ==> w.now <= step.to
    requires step.SubscriptionTx? ==> step.caller in w.callers && w.callers[step.caller].SubscriptionListed?
    ensures Inv(cfg, AccountStep(w, step))
  {
    var w' := AccountStep(w, step);
    ColumnStepIsQuiet(w, step, 0);
    ColumnStepKeepsOwn(cfg, w, step);
    QuietKeepsInv(cfg, w, w', 0, w.unused);
  }

  // ----- Stripe -----

  lemma SendKeepsRequests(cfg: Config, w: World, step: Step)
    requires Inv(cfg, w) && step.Send? && step.caller in w.callers && w.callers[step.caller].Sending?
    ensures var w' := StripeStep(w, step); forall r :: r in w'.requests ==> RequestOk(cfg, w', r)
  {
    var w' := StripeStep(w, step);
    assert CallerOk(cfg, w, w.callers[step.caller]);
    forall r | r in w'.requests ensures RequestOk(cfg, w', r) {
      assert r in w.requests ==> RequestOk(cfg, w, r);
    }
  }

  lemma SendKeepsSessions(cfg: Config, w: World, step: Step)
    requires Inv(cfg, w) && step.Send? && step.caller in w.callers && w.callers[step.caller].Sending?
    ensures var w' := StripeStep(w, step); forall a :: a in w'.sessions ==> SessionOk(cfg, w', a)
  {
    var w' := StripeStep(w, step);
    TokenUse(cfg, w, step.caller);
    forall a | a in w'.sessions ensures SessionOk(cfg, w', a) {
      assert SessionOk(cfg, w, a);
    }
  }

  lemma SendKeepsInv(cfg: Config, w: World, step: Step)
    requires Inv(cfg, w) && step.Send? && step.caller in w.callers && w.callers[step.caller].Sending?
    ensures Inv(cfg, StripeStep(w, step))
  {
    var w' := StripeStep(w, step);
    SendKeepsRequests(cfg, w, step);
    SendKeepsSessions(cfg, w, step);
    assert CallerOk(cfg, w, w.callers[step.caller]);
    forall d | d in w'.callers ensures CallerOk(cfg, w', w'.callers[d]) {
      assert CallerOk(cfg, w, w.callers[d]);
    }
  }

  lemma ExecuteKeepsInv(cfg: Config, w: World, step: Step)
    requires Inv(cfg, w) && step.ExecuteCreate? && step.request in w.requests && MayExecute(cfg, w, step.request)
    ensures Inv(cfg, StripeStep(w, step))
  {
    var s, w' := step.request, StripeStep(w, step);
    assert RequestOk(cfg, w, s);
    forall r | r in w'.requests ensures RequestOk(cfg, w', r) {
      assert RequestOk(cfg, w, r);
    }
    forall a | a in w'.sessions ensures SessionOk(cfg, w', a) {
      assert a in w.sessions ==> SessionOk(cfg, w, a);
    }
    forall d | d in w'.callers ensures CallerOk(cfg, w', w'.callers[d]) {
      assert CallerOk(cfg, w, w.callers[d]);
    }
  }

  lemma DropKeepsInv(cfg: Config, w: World, step: Step)
    requires Inv(cfg, w) && step.DropCreate? && step.request in w.requests
    ensures Inv(cfg, StripeStep(w, step))
  {
    var w' := StripeStep(w, step);
    forall r | r in w'.requests ensures RequestOk(cfg, w', r) {
      assert RequestOk(cfg, w, r);
    }
    forall a | a in w'.sessions ensures SessionOk(cfg, w', a) {
      assert SessionOk(cfg, w, a);
    }
    forall d | d in w'.callers ensures CallerOk(cfg, w', w'.callers[d]) {
      assert CallerOk(cfg, w, w.callers[d]);
    }
  }

  lemma RefusalKeepsStripe(cfg: Config, w: World, step: Step)
    requires Inv(cfg, w) && step.CreateRefused? && step.caller in w.callers && w.callers[step.caller].Waiting?
    requires RequestOf(w.callers[step.caller]) in w.requests
    ensures var w' := StripeStep(w, step);
            && (forall r :: r in w'.requests ==> RequestOk(cfg, w', r))
            && (forall a :: a in w'.sessions ==> SessionOk(cfg, w', a))
  {
    var w' := StripeStep(w, step);
    TokenUse(cfg, w, step.caller);
    forall r | r in w'.requests ensures RequestOk(cfg, w', r) {
      assert RequestOk(cfg, w, r);
    }
    forall a | a in w'.sessions ensures SessionOk(cfg, w', a) {
      assert SessionOk(cfg, w, a);
    }
  }

  lemma RefusalKeepsInv(cfg: Config, w: World, step: Step)
    requires Inv(cfg, w) && step.CreateRefused? && step.caller in w.callers && w.callers[step.caller].Waiting?
    requires RequestOf(w.callers[step.caller]) in w.requests
    ensures Inv(cfg, StripeStep(w, step))
  {
    var w' := StripeStep(w, step);
    RefusalKeepsStripe(cfg, w, step);
    forall d | d in w'.callers ensures CallerOk(cfg, w', w'.callers[d]) {
      assert d in w.callers;
      assert CallerOk(cfg, w, w.callers[d]);
    }
  }

  // ----- Reconciliation -----

  predicate FoundExpired(row: Operation, listed: seq<SessionInfo>, now: nat) {
    row.leaseExpiresAt <= now && HasListedSession(row, listed)
  }

  /** A row stays what it is for; its owner changes only if it is the one that recovery goes on with. */
  predicate KeepsItsName(row: Operation, row': Operation, op: nat, recovery: Recovery, unused: nat) {
    && row'.kind == row.kind && row'.attempt == row.attempt && row'.order == row.order
    && (row'.owner == row.owner || (row'.owner == unused && !recovery.NoRecovery? && recovery.op == op))
  }

  /** What a reconciliation with fresh token `unused` leaves of the rows. */
  predicate RowsReconciled(
        a: Account, b: Account, recovery: Recovery, listed: seq<SessionInfo>, unused: nat, now: nat) {
    && b.cols.customer == a.cols.customer && b.cols.attempt == a.cols.attempt
    && b.cols.attemptOrder == a.cols.attemptOrder
    && (forall op :: op in a.operations && a.operations[op].leaseExpiresAt > now ==>
          op in b.operations && b.operations[op] == a.operations[op])
    && (forall op :: op in b.operations ==>
          op in a.operations && KeepsItsName(a.operations[op], b.operations[op], op, recovery, unused))
    && (forall op :: op in a.operations && FoundExpired(a.operations[op], listed, now) ==>
          a.operations[op].attempt.value in RecordedNow(b))
    && (!recovery.NoRecovery? ==> recovery.owner == unused)
    && (recovery.RecoverCheckout? ==> FindSession(listed, Some(recovery.attempt)).None?)
    && (recovery.RecoverCheckout? ==>
          RowFenced(b, Request(recovery.op, unused, recovery.attempt, recovery.order, now)) && b.cols.customer.Some?)
  }

  lemma ReconcileLeaves(a: Account, snap: Snapshot, expired: seq<nat>, unused: nat, now: nat)
    requires ListsExpired(a, expired, now)
    requires ReconcileOperations(a, snap, expired, unused, now).Some?
    ensures var (b, recovery) := ReconcileOperations(a, snap, expired, unused, now).value;
            RowsReconciled(a, b, recovery, snap.listed, unused, now)
  {
    ReconcileMeaning(a, snap, expired, unused, now);
    var b := ReconcileOperations(a, snap, expired, unused, now).value.0;
    var p := ReconcileAll(Progress(a, false, NoRecovery), expired, snap.listed, unused, now);
    ReconciledLeaves(a, p, b, (set op | op in expired), snap.listed, unused, now);
  }

  lemma ReconciledLeaves(
        a: Account, p: Progress, b: Account, done: set<nat>, listed: seq<SessionInfo>, unused: nat, now: nat)
    requires Reconciled(a, p, done, listed, unused, now) && (b == p.account || b == Bump(p.account))
    requires forall op :: op in done <==> op in a.operations && a.operations[op].leaseExpiresAt <= now
    ensures RowsReconciled(a, b, p.recovery, listed, unused, now)
  {
    FoundRowsAreRecorded(a, p, done, listed, unused, now);
    RowsKeepTheirNames(a, p, done, listed, unused, now);
  }

  lemma RowsKeepTheirNames(a: Account, p: Progress, done: set<nat>, listed: seq<SessionInfo>, unused: nat, now: nat)
    requires Reconciled(a, p, done, listed, unused, now)
    ensures forall op :: op in p.account.operations ==>
              op in a.operations && KeepsItsName(a.operations[op], p.account.operations[op], op, p.recovery, unused)
  {
    forall op | op in p.account.operations
      ensures op in a.operations
      ensures KeepsItsName(a.operations[op], p.account.operations[op], op, p.recovery, unused)
    {
      assert op in done ==> RowOutcome(a, p, op, listed, unused, now);
    }
  }

  lemma FoundRowsAreRecorded(a: Account, p: Progress, done: set<nat>, listed: seq<SessionInfo>, unused: nat, now: nat)
    requires Reconciled(a, p, done, listed, unused, now)
    requires forall op :: op in done <==> op in a.operations && a.operations[op].leaseExpiresAt <= now
    ensures forall op :: op in a.operations && FoundExpired(a.operations[op], listed, now) ==>
              a.operations[op].attempt.value in RecordedNow(p.account)
  {
    forall op | op in a.operations && FoundExpired(a.operations[op], listed, now)
      ensures a.operations[op].attempt.value in RecordedNow(p.account)
    {
      assert op in done && RowOutcome(a, p, op, listed, unused, now);
    }
  }

  lemma FindsListed(listed: seq<SessionInfo>, attempt: nat)
    requires exists i :: 0 <= i < |listed| && listed[i].attempt == attempt
    ensures FindSession(listed, Some(attempt)).Some?
  {
    var i :| 0 <= i < |listed| && listed[i].attempt == attempt;
    assert listed[i] in listed;
  }

  /** The caller list after a reconciliation: only the reconciler moved, and it holds nothing but the fresh token. */
  predicate ReconcilerMoved(w: World, w': World, c: nat, recovery: Recovery) {
    && (forall d :: d in w'.callers && d != c ==> d in w.callers && w'.callers[d] == w.callers[d])
    && match recovery
       case NoRecovery => c !in w'.callers
       case RecoverCheckout(op, owner, attempt, order) =>
         c in w'.callers && w'.callers[c] == Sending(op, owner, attempt, order, w.now)
       case RecoverPortal(op, owner) => c in w'.callers && w'.callers[c] == OpeningPortal(op, owner)
  }

  /** A committed reconciliation, described by its effects. */
  ghost predicate Reconciliation(w: World, w': World, c: nat, recovery: Recovery) {
    && c in w.callers && w.callers[c].ReconcileListed?
    && w'.now == w.now && w'.sessions == w.sessions && w'.requests == w.requests && w'.unused == w.unused + 1
    && w'.recorded == w.recorded + RecordedNow(w'.account)
    && RowsReconciled(w.account, w'.account, recovery, w.callers[c].snap.listed, w.unused, w.now)
    && ReconcilerMoved(w, w', c, recovery)
  }

  lemma ReconciliationKeepsRequest(cfg: Config, w: World, w': World, c: nat, recovery: Recovery, r: Request)
    requires SafeTiming(cfg) && Reconciliation(w, w', c, recovery) && r in w.requests && RequestOk(cfg, w, r)
    ensures RequestOk(cfg, w', r)
  {
  }

  /**
   The heart of the matter: a session still unrecorded was created before the listing its
   expired row is judged by, so the reconciliation finds and records it.
   */
  lemma ReconciliationKeepsSession(cfg: Config, w: World, w': World, c: nat, recovery: Recovery, attempt: nat)
    requires SafeTiming(cfg) && Reconciliation(w, w', c, recovery)
    requires attempt in w.sessions && SessionOk(cfg, w, attempt) && w.account.cols.customer.Some?
    requires ListingOk(w, w.callers[c].snap) && w.callers[c].snap.customer == w.account.cols.customer
    requires w.now <= w.callers[c].snap.listedAt + cfg.gap
    ensures SessionOk(cfg, w', attempt)
  {
    var r, snap := w.sessions[attempt].origin, w.callers[c].snap;
    if attempt !in w.recorded && w.account.operations[r.op].leaseExpiresAt <= w.now {
      assert IsListed(snap, attempt);
      FindsListed(snap.listed, attempt);
      assert FoundExpired(w.account.operations[r.op], snap.listed, w.now);
    }
  }

  lemma ReconciliationKeepsCaller(cfg: Config, w: World, w': World, c: nat, recovery: Recovery, d: nat)
    requires SafeTiming(cfg) && Reconciliation(w, w', c, recovery) && TokensOk(w)
    requires d in w.callers && d != c && CallerOk(cfg, w, w.callers[d])
    ensures CallerOk(cfg, w', w.callers[d])
  {
  }

  lemma ReconciliationKeepsCallers(cfg: Config, w: World, w': World, c: nat, recovery: Recovery)
    requires SafeTiming(cfg) && Inv(cfg, w) && Reconciliation(w, w', c, recovery)
    ensures forall d :: d in w'.callers ==> CallerOk(cfg, w', w'.callers[d])
  {
    TokensAreOld(cfg, w);
    forall d | d in w'.callers && d != c ensures CallerOk(cfg, w', w'.callers[d]) {
      ReconciliationKeepsCaller(cfg, w, w', c, recovery, d);
    }
  }

  lemma ReconciliationKeepsTokens(w: World, w': World, c: nat, recovery: Recovery)
    requires Reconciliation(w, w', c, recovery) && TokensOk(w)
    ensures TokensOk(w')
  {
    var rows, rows' := w.account.operations, w'.account.operations;
    forall p, q | p in rows' && q in rows' && p != q ensures rows'[p].owner != rows'[q].owner {
      assert rows[p].owner != rows[q].owner && rows[p].owner < w.unused && rows[q].owner < w.unused;
    }
    ReconciliationKeepsHolders(w, w', c, recovery);
  }

  lemma ReconciliationKeepsHolders(w: World, w': World, c: nat, recovery: Recovery)
    requires Reconciliation(w, w', c, recovery) && TokensOk(w)
    ensures forall d :: d in w'.callers && OwnerOf(w'.callers[d]).Some? ==> OwnerOf(w'.callers[d]).value < w'.unused
    ensures forall d, e :: d in w'.callers && e in w'.callers && d != e && OwnerOf(w'.callers[d]).Some? ==>
              OwnerOf(w'.callers[d]) != OwnerOf(w'.callers[e])
  {
    forall d | d in w'.callers && OwnerOf(w'.callers[d]).Some?
      ensures OwnerOf(w'.callers[d]).value < w.unused || (d == c && OwnerOf(w'.callers[d]).value == w.unused)
    {
    }
  }

  lemma ReconciliationKeepsInv(cfg: Config, w: World, w': World, c: nat, recovery: Recovery)
    requires SafeTiming(cfg) && Inv(cfg, w) && Reconciliation(w, w', c, recovery)
    requires w.callers[c].snap.customer == w.account.cols.customer && w.now <= w.callers[c].snap.listedAt + cfg.gap
    ensures Inv(cfg, w')
  {
    ReconciliationKeepsTokens(w, w', c, recovery);
    assert CallerOk(cfg, w, w.callers[c]);
    forall r | r in w'.requests ensures RequestOk(cfg, w', r) {
      ReconciliationKeepsRequest(cfg, w, w', c, recovery, r);
    }
    forall a | a in w'.sessions ensures SessionOk(cfg, w', a) {
      ReconciliationKeepsSession(cfg, w, w', c, recovery, a);
    }
    ReconciliationKeepsCallers(cfg, w, w', c, recovery);
  }

  lemma ReconcileStepMeaning(w: World, c: nat, expired: seq<nat>)
    requires c in w.callers && w.callers[c].ReconcileListed? && ListsExpired(w.account, expired, w.now)
    ensures var r := ReconcileOperations(w.account, w.callers[c].snap, expired, w.unused, w.now);
            && (r.None? ==> ReconcileStep(w, c, expired) == WithCaller(w, c, ReadyToReconcile))
            && (r.Some? ==> Reconciliation(w, ReconcileStep(w, c, expired), c, r.value.1))
  {
    var r := ReconcileOperations(w.account, w.callers[c].snap, expired, w.unused, w.now);
    if r.Some? {
      ReconcileLeaves(w.account, w.callers[c].snap, expired, w.unused, w.now);
    }
  }

  lemma StaleReconcileKeepsInv(cfg: Config, w: World, c: nat)
    requires Inv(cfg, w) && c in w.callers && w.callers[c].ReconcileListed?
    ensures Inv(cfg, WithCaller(w, c, ReadyToReconcile))
  {
    TokensAreOld(cfg, w);
    QuietKeepsInv(cfg, w, WithCaller(w, c, ReadyToReconcile), c, w.unused);
  }

  lemma ReconcileKeepsInv(cfg: Config, w: World, c: nat, expired: seq<nat>)
    requires SafeTiming(cfg) && Inv(cfg, w) && c in w.callers && w.callers[c].ReconcileListed?
    requires w.now <= w.callers[c].snap.listedAt + cfg.gap && ListsExpired(w.account, expired, w.now)
    ensures Inv(cfg, ReconcileStep(w, c, expired))
  {
    ReconcileStepMeaning(w, c, expired);
    var r := ReconcileOperations(w.account, w.callers[c].snap, expired, w.unused, w.now);
    var w' := ReconcileStep(w, c, expired);
    if r.Some? {
      ReconciliationKeepsInv(cfg, w, w', c, r.value.1);
    } else {
      StaleReconcileKeepsInv(cfg, w, c);
    }
  }

  // ----- The theorem -----

  lemma MoveKeepsOwn(cfg: Config, w: World, step: Step)
    requires Inv(cfg, w) && MovesCaller(step) && MoveEnabled(w, step)
    ensures OwnKept(cfg, w, MoveCaller(w, step), step.caller, TokenIn(w, step.caller))
  {
    if step.TakeSnapshot? || step.ListSessions? {
      ReaderKeepsOwn(cfg, w, step);
    } else if step.CreateSucceeds? || step.CreateAmbiguous? {
      ReplyKeepsOwn(cfg, w, step);
    } else if step.ReconcileSnapshot? || step.ReconcileListing? {
      ReconcilerMoveKeepsOwn(cfg, w, step);
    } else if step.Crash? {
      CrashKeepsOwn(cfg, w, step);
    } else {
      GivingUpKeepsOwn(cfg, w, step);
    }
  }

  lemma MoveKeepsInv(cfg: Config, w: World, step: Step)
    requires Inv(cfg, w) && MovesCaller(step) && MoveEnabled(w, step)
    ensures Inv(cfg, MoveCaller(w, step))
  {
    MoveIsQuiet(w, step);
    MoveKeepsOwn(cfg, w, step);
    QuietKeepsInv(cfg, w, MoveCaller(w, step), step.caller, TokenIn(w, step.caller));
  }

  lemma CheckoutKeepsOwn(cfg: Config, w: World, step: Step, c: nat)
    requires Inv(cfg, w) && IsCheckoutTx(step) && CheckoutTxEnabled(w, step) && c == step.caller
    ensures OwnKept(cfg, w, CheckoutTx(w, step), c, TokenIn(w, c))
  {
    if step.CoordinateTx? {
      CoordinateKeepsOwn(cfg, w, step, c);
    } else if step.PersistTx? {
      PersistKeepsOwn(cfg, w, step, c);
    } else if step.UncertainTx? {
      UncertainKeepsOwn(cfg, w, step, c);
    } else if step.FinishTx? {
      FinishKeepsOwn(cfg, w, step, c);
    } else {
      PortalKeepsOwn(cfg, w, step, c);
    }
  }

  lemma CheckoutKeepsInv(cfg: Config, w: World, step: Step)
    requires Inv(cfg, w) && IsCheckoutTx(step) && CheckoutTxEnabled(w, step)
    ensures Inv(cfg, CheckoutTx(w, step))
  {
    var c := step.caller;
    CheckoutIsQuiet(w, step, c);
    CheckoutKeepsOwn(cfg, w, step, c);
    QuietKeepsInv(cfg, w, CheckoutTx(w, step), c, TokenIn(w, c));
  }

  lemma StripeStepKeepsInv(cfg: Config, w: World, step: Step)
    requires Inv(cfg, w) && IsStripeStep(step) && StripeEnabled(cfg, w, step)
    ensures Inv(cfg, StripeStep(w, step))
  {
    match step
    case Send(_) => SendKeepsInv(cfg, w, step);
    case ExecuteCreate(_) => ExecuteKeepsInv(cfg, w, step);
    case DropCreate(_) => DropKeepsInv(cfg, w, step);
    case CreateRefused(_) => RefusalKeepsInv(cfg, w, step);
  }

  lemma AccountStepKeepsInv(cfg: Config, w: World, step: Step)
    requires Inv(cfg, w) && IsAccountStep(step) && AccountEnabled(w, step)
    ensures Inv(cfg, AccountStep(w, step))
  {
    if HasNewCaller(step) {
      NewCallerKeepsInv(cfg, w, step);
    } else {
      ColumnStepKeepsInv(cfg, w, step);
    }
  }

  lemma StepKeepsInv(cfg: Config, w: World, step: Step, w': World)
    requires SafeTiming(cfg) && Inv(cfg, w) && Enabled(cfg, w, step) && w' == Apply(cfg, w, step)
    ensures Inv(cfg, w')
  {
    if IsStripeStep(step) {
      StripeStepKeepsInv(cfg, w, step);
    } else if step.ReconcileTx? {
      ReconcileKeepsInv(cfg, w, step.caller, step.expired);
    } else if MovesCaller(step) {
      MoveKeepsInv(cfg, w, step);
    } else if IsCheckoutTx(step) {
      CheckoutKeepsInv(cfg, w, step);
    } else {
      AccountStepKeepsInv(cfg, w, step);
    }
  }

  lemma {:induction false} RunKeepsInv(cfg: Config, w: World, steps: seq<Step>)
    requires SafeTiming(cfg) && Inv(cfg, w) && Legal(cfg, w, steps)
    ensures Inv(cfg, After(cfg, w, steps))
    decreases |steps|
  {
    if steps != [] {
      var w' := Apply(cfg, w, steps[0]);
      StepKeepsInv(cfg, w, steps[0], w');
      RunKeepsInv(cfg, w', steps[1..]);
    }
  }

  /** At every reachable state, a created session is recorded or an operation row still carries its attempt. */
  lemma NoSessionIsLost(cfg: Config, steps: seq<Step>)
    requires SafeTiming(cfg) && Legal(cfg, START, steps)
    ensures NothingLost(After(cfg, START, steps))
  {
    RunKeepsInv(cfg, START, steps);
    var w := After(cfg, START, steps);
    forall a | a in w.sessions ensures !Lost(w, a) {
      assert SessionOk(cfg, w, a);
      assert a !in w.recorded ==> RowFenced(w.account, w.sessions[a].origin);
    }
  }
}
