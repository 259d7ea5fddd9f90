/** The steps that leave Stripe and the rows of other owners alone keep the invariant. */
module BillingQuiet {
  import opened Options
  import opened BillingAccounts
  import opened BillingProtocol
  import opened BillingInvariant

  /** Rows of owners other than `owner` stay; a new row has fresh tokens; the customer is never cleared. */
  predicate RowsKept(a: Account, b: Account, owner: nat, unused: nat) {
    && (forall op :: op in a.operations && a.operations[op].owner != owner ==>
          op in b.operations && b.operations[op] == a.operations[op])
    && (forall op :: op in b.operations ==>
          || (op in a.operations && b.operations[op].owner == a.operations[op].owner
              && b.operations[op].kind == a.operations[op].kind && b.operations[op].order == a.operations[op].order)
          || (op == unused && b.operations[op].owner == unused + 1))
    && (a.cols.customer.Some? ==> b.cols.customer == a.cols.customer)
  }

  ghost predicate TokenKept(w: World, w': World, c: nat, owner: nat) {
    c in w'.callers && OwnerOf(w'.callers[c]).Some? ==>
      || (OwnerOf(w'.callers[c]) == Some(owner) && c in w.callers && OwnerOf(w.callers[c]) == Some(owner))
      || (OwnerOf(w'.callers[c]) == Some(w.unused + 1) && w.unused + 2 <= w'.unused)
  }

  /** A step of the caller `c`, which holds at most the token `owner`. */
  ghost predicate Quiet(w: World, w': World, c: nat, owner: nat) {
    && w.now <= w'.now && w'.sessions == w.sessions && w'.requests == w.requests
    && w.recorded + RecordedNow(w'.account) <= w'.recorded
    && RowsKept(w.account, w'.account, owner, w.unused)
    && w.unused <= w'.unused && (w.unused in w'.account.operations ==> w.unused + 2 <= w'.unused)
    && (forall d :: d in w'.callers ==>
          (d in w.callers && w'.callers[d] == w.callers[d]) || (d == c && TokenKept(w, w', c, owner)))
  }

  lemma QuietKeepsTokens(w: World, w': World, c: nat, owner: nat)
    requires TokensOk(w) && Quiet(w, w', c, owner)
    ensures TokensOk(w')
  {
  }

  lemma QuietKeepsRequest(cfg: Config, w: World, w': World, c: nat, owner: nat, r: Request)
    requires Quiet(w, w', c, owner) && r in w.requests && RequestOk(cfg, w, r)
    requires r.owner == owner ==> (RowFenced(w.account, r) ==> RowFenced(w'.account, r))
    requires r.owner == owner && c in w'.callers && OwnerOf(w'.callers[c]) == Some(owner) ==>
              AwaitsRequest(w'.callers[c], r)
    ensures RequestOk(cfg, w', r)
  {
  }

  lemma QuietKeepsSession(cfg: Config, w: World, w': World, c: nat, owner: nat, attempt: nat)
    requires Quiet(w, w', c, owner) && attempt in w.sessions && SessionOk(cfg, w, attempt)
    requires var r := w.sessions[attempt].origin;
             attempt !in w'.recorded && r.owner == owner ==>
               && RowFenced(w'.account, r)
               && (c in w'.callers && OwnerOf(w'.callers[c]) == Some(owner) ==> KnowsSession(w', w'.callers[c], r))
    ensures SessionOk(cfg, w', attempt)
  {
  }

  lemma QuietKeepsCaller(cfg: Config, w: World, w': World, c: nat, owner: nat, d: nat)
    requires Quiet(w, w', c, owner) && TokensOk(w) && d in w.callers && CallerOk(cfg, w, w.callers[d])
    requires OwnerOf(w.callers[d]) != Some(owner)
    ensures CallerOk(cfg, w', w.callers[d])
  {
  }

  // ----- The quiet steps -----

  /** Every token is below the next fresh one, and what is recorded now was recorded. */
  ghost predicate Tidy(w: World) { TokensOk(w) && RecordedNow(w.account) <= w.recorded }

  /** The token of `c`; one that nobody holds if it has none. */
  function TokenIn(w: World, c: nat): nat {
    if c in w.callers then OwnerOf(w.callers[c]).GetOr(w.unused) else w.unused
  }

  /** The caller `c` has moved on, if at all, with the token it had. */
  predicate OnlyMoves(w: World, w': World, c: nat) {
    && w' == w.(callers := w'.callers)
    && forall d :: d in w'.callers ==>
         && d in w.callers
         && if d == c then OwnerOf(w'.callers[d]) == OwnerOf(w.callers[d]) else w'.callers[d] == w.callers[d]
  }

  lemma MoveOnlyMoves(w: World, step: Step)
    requires MovesCaller(step) && MoveEnabled(w, step)
    ensures OnlyMoves(w, MoveCaller(w, step), step.caller)
  {
  }

  lemma MoveIsQuiet(w: World, step: Step)
    requires MovesCaller(step) && MoveEnabled(w, step) && Tidy(w)
    ensures Quiet(w, MoveCaller(w, step), step.caller, TokenIn(w, step.caller))
  {
    MoveOnlyMoves(w, step);
  }

  lemma CoordinateKeepsRows(
        a: Account, op: nat, owner: nat, order: Order, snap: Snapshot, freshAttempt: nat, now: nat, unused: nat)
    ensures RowsKept(a, Coordinate(a, op, owner, order, snap, freshAttempt, now).0, owner, unused)
  {
    var b := Coordinate(a, op, owner, order, snap, freshAttempt, now).0;
    if Owns(a, op, owner) && b.operations != a.operations {
      assert b.operations == a.operations[op := b.operations[op]];
    }
  }

  lemma PersistKeepsRows(a: Account, op: nat, owner: nat, attempt: nat, url: Option<string>, unused: nat)
    ensures RowsKept(a, PersistReturned(a, op, owner, attempt, url).0, owner, unused)
  {
  }

  lemma EndKeepsRows(a: Account, op: nat, owner: nat, now: nat, unused: nat)
    ensures RowsKept(a, MarkUncertain(a, op, owner), owner, unused)
    ensures RowsKept(a, CompleteOperation(a, op, owner), owner, unused)
    ensures RowsKept(a, RenewPortal(a, op, owner, now), owner, unused)
  {
  }

  lemma CoordinateIsQuiet(w: World, step: Step, c: nat)
    requires step.CoordinateTx? && CheckoutTxEnabled(w, step) && c == step.caller && Tidy(w)
    ensures Quiet(w, CheckoutTx(w, step), c, TokenIn(w, c))
  {
    var k := w.callers[c];
    CoordinateKeepsRows(w.account, k.op, k.owner, k.order, k.snap, w.unused, w.now, w.unused);
    var (a, action) := Coordinate(w.account, k.op, k.owner, k.order, k.snap, w.unused, w.now);
    assert CheckoutTx(w, step)
        == WithCaller(WithAccount(w, a), c, AfterCoordinate(k, action, w.now)).(unused := w.unused + 1);
    DecidedIsQuiet(w, c, a, AfterCoordinate(k, action, w.now));
  }

  lemma DecidedIsQuiet(w: World, c: nat, a: Account, next: Caller)
    requires Tidy(w) && c in w.callers && OwnerOf(w.callers[c]).Some? && OwnerOf(next) == OwnerOf(w.callers[c])
    requires RowsKept(w.account, a, w.callers[c].owner, w.unused) && w.unused !in a.operations
    ensures Quiet(w, WithCaller(WithAccount(w, a), c, next).(unused := w.unused + 1), c, TokenIn(w, c))
  {
  }

  lemma PersistIsQuiet(w: World, step: Step, c: nat)
    requires step.PersistTx? && CheckoutTxEnabled(w, step) && c == step.caller && Tidy(w)
    ensures Quiet(w, CheckoutTx(w, step), c, TokenIn(w, c))
  {
    var caller := w.callers[c];
    PersistKeepsRows(w.account, caller.op, caller.owner, caller.attempt, step.url, w.unused);
  }

  lemma UncertainIsQuiet(w: World, step: Step, c: nat)
    requires step.UncertainTx? && CheckoutTxEnabled(w, step) && c == step.caller && Tidy(w)
    ensures Quiet(w, CheckoutTx(w, step), c, TokenIn(w, c))
  {
    EndKeepsRows(w.account, w.callers[c].op, w.callers[c].owner, w.now, w.unused);
    EndedIsQuiet(w, CheckoutTx(w, step), c, MarkUncertain(w.account, w.callers[c].op, w.callers[c].owner));
  }

  lemma FinishIsQuiet(w: World, step: Step, c: nat)
    requires step.FinishTx? && CheckoutTxEnabled(w, step) && c == step.caller && Tidy(w)
    ensures Quiet(w, CheckoutTx(w, step), c, TokenIn(w, c))
  {
    EndKeepsRows(w.account, w.callers[c].op, w.callers[c].owner, w.now, w.unused);
    EndedIsQuiet(w, CheckoutTx(w, step), c, CompleteOperation(w.account, w.callers[c].op, w.callers[c].owner));
  }

  lemma RenewalIsQuiet(w: World, step: Step, c: nat)
    requires step.RenewPortalTx? && CheckoutTxEnabled(w, step) && c == step.caller && Tidy(w)
    ensures Quiet(w, CheckoutTx(w, step), c, TokenIn(w, c))
  {
    EndKeepsRows(w.account, w.callers[c].op, w.callers[c].owner, w.now, w.unused);
    EndedIsQuiet(w, CheckoutTx(w, step), c, RenewPortal(w.account, w.callers[c].op, w.callers[c].owner, w.now));
  }

  lemma EndedIsQuiet(w: World, w': World, c: nat, a: Account)
    requires Tidy(w) && c in w.callers && OwnerOf(w.callers[c]).Some?
    requires RowsKept(w.account, a, w.callers[c].owner, w.unused) && w.unused !in a.operations
    requires w' == WithAccount(w, a) || w' == WithoutCaller(WithAccount(w, a), c)
    ensures Quiet(w, w', c, TokenIn(w, c))
  {
  }

  lemma CheckoutIsQuiet(w: World, step: Step, c: nat)
    requires Tidy(w) && IsCheckoutTx(step) && CheckoutTxEnabled(w, step) && c == step.caller
    ensures Quiet(w, CheckoutTx(w, step), c, TokenIn(w, c))
  {
    if step.CoordinateTx? {
      CoordinateIsQuiet(w, step, c);
    } else if step.PersistTx? {
      PersistIsQuiet(w, step, c);
    } else if step.UncertainTx? {
      UncertainIsQuiet(w, step, c);
    } else if step.FinishTx? {
      FinishIsQuiet(w, step, c);
    } else {
      RenewalIsQuiet(w, step, c);
    }
  }

  lemma ReserveKeepsRows(a: Account, order: Order, now: nat, unused: nat)
    requires unused !in a.operations && unused + 1 !in a.operations
    ensures RowsKept(a, Reserve(a, order, now, unused, unused + 1, unused + 2), unused, unused)
  {
  }

  lemma ReservationIsQuiet(w: World, step: Step)
    requires step.ReserveCheckout? && step.caller !in w.callers && Tidy(w)
    ensures Quiet(w, AccountStep(w, step), step.caller, w.unused)
  {
    var b := Reserve(w.account, step.order, w.now, w.unused, w.unused + 1, w.unused + 2);
    assert RowsKept(w.account, b, w.unused, w.unused) by {
      ReserveKeepsRows(w.account, step.order, w.now, w.unused);
    }
    assert AccountStep(w, step)
        == WithCaller(WithAccount(w, b), step.caller,
                      Reserved(w.unused, w.unused + 1, step.order, None)).(unused := w.unused + 3);
  }

  lemma ReservePortalKeepsRows(a: Account, now: nat, unused: nat)
    requires unused !in a.operations && unused + 1 !in a.operations
    ensures RowsKept(a, ReservePortal(a, now, unused, unused + 1), unused, unused)
  {
  }

  lemma PortalReservationIsQuiet(w: World, step: Step)
    requires step.ReservePortalTx? && step.caller !in w.callers && Tidy(w)
    ensures Quiet(w, AccountStep(w, step), step.caller, w.unused)
  {
    var b := ReservePortal(w.account, w.now, w.unused, w.unused + 1);
    assert RowsKept(w.account, b, w.unused, w.unused) by {
      ReservePortalKeepsRows(w.account, w.now, w.unused);
    }
    assert AccountStep(w, step)
        == WithCaller(WithAccount(w, b), step.caller, OpeningPortal(w.unused, w.unused + 1)).(unused := w.unused + 2);
  }

  lemma NewReconcilerIsQuiet(w: World, step: Step)
    requires (step.BeginReconcile? || step.SubscriptionSnapshot?) && step.caller !in w.callers && Tidy(w)
    ensures Quiet(w, AccountStep(w, step), step.caller, w.unused)
  {
  }

  predicate HasNewCaller(step: Step) {
    step.ReserveCheckout? || step.ReservePortalTx? || step.BeginReconcile? || step.SubscriptionSnapshot?
  }

  lemma NewCallerIsQuiet(w: World, step: Step)
    requires HasNewCaller(step) && step.caller !in w.callers && Tidy(w)
    ensures Quiet(w, AccountStep(w, step), step.caller, w.unused)
  {
    match step
    case ReserveCheckout(_, _) => ReservationIsQuiet(w, step);
    case ReservePortalTx(_) => PortalReservationIsQuiet(w, step);
    case _ => NewReconcilerIsQuiet(w, step);
  }

  /** The transactions that touch the columns and the intents alone. */
  predicate KeepsRows(step: Step) {
    || step.EnsureCustomer? || step.CleanupOwnedTx? || step.CleanupDoneTx? || step.SetPlan? || step.Advance?
    || step.SubscriptionTx?
  }

  lemma ColumnStepIsQuiet(w: World, step: Step, c: nat)
    requires KeepsRows(step) && Tidy(w)
    requires step.Advance? ==> w.now <= step.to
    requires step.SubscriptionTx? ==> step.caller in w.callers && w.callers[step.caller].SubscriptionListed?
    ensures Quiet(w, AccountStep(w, step), c, w.unused)
  {
  }

  // ----- What is left to show of a quiet step -----

  /** A request of the moving caller keeps its row and its caller. */
  ghost predicate OwnRequestKept(w: World, w': World, c: nat, r: Request) {
    && (RowFenced(w.account, r) ==> RowFenced(w'.account, r))
    && (c in w'.callers && OwnerOf(w'.callers[c]) == Some(r.owner) ==> AwaitsRequest(w'.callers[c], r))
  }

  /** So does a session of the moving caller, unless the step records it. */
  ghost predicate OwnSessionKept(w: World, w': World, c: nat, attempt: nat)
    requires attempt in w.sessions
  {
    var r := w.sessions[attempt].origin;
    attempt in w'.recorded
    || (RowFenced(w'.account, r)
        && (c in w'.callers && OwnerOf(w'.callers[c]) == Some(r.owner) ==> KnowsSession(w', w'.callers[c], r)))
  }

  ghost predicate OwnKept(cfg: Config, w: World, w': World, c: nat, owner: nat) {
    && (owner == w.unused || (c in w.callers && OwnerOf(w.callers[c]) == Some(owner)))
    && (forall r :: r in w.requests && r.owner == owner ==> OwnRequestKept(w, w', c, r))
    && (forall a :: a in w.sessions && w.sessions[a].origin.owner == owner ==> OwnSessionKept(w, w', c, a))
    && (c in w'.callers && !(owner == w.unused && c in w.callers && w'.callers[c] == w.callers[c]) ==>
          CallerOk(cfg, w', w'.callers[c]))
  }

  lemma QuietKeepsInv(cfg: Config, w: World, w': World, c: nat, owner: nat)
    requires Inv(cfg, w) && Quiet(w, w', c, owner) && OwnKept(cfg, w, w', c, owner)
    ensures Inv(cfg, w')
  {
    QuietKeepsTokens(w, w', c, owner);
    forall r | r in w'.requests ensures RequestOk(cfg, w', r) {
      QuietKeepsRequest(cfg, w, w', c, owner, r);
    }
    forall a | a in w'.sessions ensures SessionOk(cfg, w', a) {
      assert SessionOk(cfg, w, a);
      QuietKeepsSession(cfg, w, w', c, owner, a);
    }
    forall d | d in w'.callers ensures CallerOk(cfg, w', w'.callers[d]) {
      if d != c || (owner == w.unused && c in w.callers && w'.callers[c] == w.callers[c]) {
        assert CallerOk(cfg, w, w.callers[d]);
        QuietKeepsCaller(cfg, w, w', c, owner, d);
      }
    }
  }
}
