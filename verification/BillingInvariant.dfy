/** What every reachable state keeps: the invariant behind "no checkout session is lost". */
module BillingInvariant {
  import opened Options
  import opened BillingAccounts
  import opened BillingProtocol

  /** The operation row of a request, still under the fence the request was sent under. */
  predicate RowFenced(a: Account, r: Request) {
    && r.op in a.operations
    && var row := a.operations[r.op];
       && row.kind == CHECKOUT && row.owner == r.owner && row.attempt == Some(r.attempt) && row.order == r.order
       && row.leaseExpiresAt == r.fencedAt + CHECKOUT_OPERATION_LEASE_MS
  }

  /** A request Stripe may still execute. */
  predicate MayExecute(cfg: Config, w: World, r: Request) { w.now <= r.fencedAt + cfg.settle }

  /** The caller of a request that is in flight. */
  predicate AwaitsRequest(c: Caller, r: Request) { c.Ambiguous? || (c.Waiting? && RequestOf(c) == r) }

  /** The caller of a request that created a session nobody has recorded. */
  predicate KnowsSession(w: World, c: Caller, r: Request) {
    || c.Ambiguous?
    || (c.Waiting? && RequestOf(c) == r && r !in w.requests)
    || (c.Returned? && c.op == r.op && c.attempt == r.attempt)
  }

  ghost predicate TokensOk(w: World) {
    && (forall op :: op in w.account.operations ==> op < w.unused && w.account.operations[op].owner < w.unused)
    && (forall p, q :: p in w.account.operations && q in w.account.operations && p != q ==>
          w.account.operations[p].owner != w.account.operations[q].owner)
    && (forall c :: c in w.callers && OwnerOf(w.callers[c]).Some? ==> OwnerOf(w.callers[c]).value < w.unused)
    && (forall c, d :: c in w.callers && d in w.callers && c != d && OwnerOf(w.callers[c]).Some? ==>
          OwnerOf(w.callers[c]) != OwnerOf(w.callers[d]))
  }

  ghost predicate RequestOk(cfg: Config, w: World, r: Request) {
    && r.fencedAt <= w.now && r.owner < w.unused
    && (MayExecute(cfg, w, r) ==> RowFenced(w.account, r))
    && (forall c :: c in w.callers && OwnerOf(w.callers[c]) == Some(r.owner) ==> AwaitsRequest(w.callers[c], r))
    && (forall q :: q in w.requests && q.owner == r.owner ==> q == r)
  }

  ghost predicate SessionOk(cfg: Config, w: World, attempt: nat) {
    attempt in w.sessions && (
      var r := w.sessions[attempt].origin;
      && r.attempt == attempt && r.owner < w.unused
      && w.sessions[attempt].executedAt <= r.fencedAt + cfg.settle && w.sessions[attempt].executedAt <= w.now
      && (attempt !in w.recorded ==>
            && RowFenced(w.account, r)
            && (forall c :: c in w.callers && OwnerOf(w.callers[c]) == Some(r.owner) ==>
                KnowsSession(w, w.callers[c], r))
            && (forall q :: q in w.requests ==> q.owner != r.owner)))
  }

  predicate IsListed(snap: Snapshot, attempt: nat) {
    exists i :: 0 <= i < |snap.listed| && snap.listed[i].attempt == attempt
  }

  ghost predicate ListingOk(w: World, snap: Snapshot) {
    && snap.listedAt <= w.now
    && (snap.customer.Some? ==>
          forall a :: a in w.sessions && w.sessions[a].executedAt < snap.listedAt ==> IsListed(snap, a))
  }

  /** The caller's row, while it is its own, is the checkout of its order. */
  predicate CheckoutRow(a: Account, op: nat, owner: nat, order: Order) {
    Owns(a, op, owner) ==> a.operations[op].kind == CHECKOUT && a.operations[op].order == Some(order)
  }

  ghost predicate CallerOk(cfg: Config, w: World, c: Caller) {
    match c
    case Reserved(op, owner, order, _) => CheckoutRow(w.account, op, owner, order)
    case Snapped(op, owner, order, _, snap) => CheckoutRow(w.account, op, owner, order) && snap.customer.Some?
    case Listed(op, owner, order, _, snap) => CheckoutRow(w.account, op, owner, order) && snap.customer.Some?
    case Sending(_, owner, _, _, _) =>
      && w.account.cols.customer.Some? && RequestOf(c).fencedAt <= w.now
      && (MayExecute(cfg, w, RequestOf(c)) ==> RowFenced(w.account, RequestOf(c)))
      && (forall r :: r in w.requests ==> r.owner != owner)
    case ReconcileListed(snap) => ListingOk(w, snap)
    case _ => true
  }

  ghost predicate Inv(cfg: Config, w: World) {
    && TokensOk(w)
    && (forall r :: r in w.requests ==> RequestOk(cfg, w, r))
    && (forall a :: a in w.sessions ==> SessionOk(cfg, w, a))
    && (forall c :: c in w.callers ==> CallerOk(cfg, w, w.callers[c]))
    && RecordedNow(w.account) <= w.recorded
    && (w.requests != {} || w.sessions != map[] ==> w.account.cols.customer.Some?)
  }
}
