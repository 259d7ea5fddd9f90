/**
 Exactly which reservations can lead a checkout to a session of another order: those for
 another order than their attempt's, made before the attempt has its session.
 */
module BillingMisdirection {
  import opened Options
  import opened Sets
  import opened BillingAccounts
  import opened BillingReconcile
  import opened BillingProtocol
  import opened BillingInvariant
  import opened BillingQuiet
  import opened BillingSafety
  import opened BillingFencing
  import opened BillingVersion
  import opened BillingOrders

  // ----- Continuations without a further harmful reservation -----

  ghost predicate Leads(cfg: Config, w: World, steps: seq<Step>, v: World) {
    Legal(cfg, w, steps) && HarmlessRun(cfg, w, steps) && After(cfg, w, steps) == v
  }

  ghost predicate Continues(cfg: Config, w: World, v: World) { exists steps :: Leads(cfg, w, steps, v) }

  lemma {:induction false} HarmlessThen(cfg: Config, w: World, steps: seq<Step>, step: Step)
    requires Legal(cfg, w, steps) && HarmlessRun(cfg, w, steps)
    requires Enabled(cfg, After(cfg, w, steps), step) && IsHarmless(After(cfg, w, steps), step)
    requires Legal(cfg, w, steps + [step])
    ensures HarmlessRun(cfg, w, steps + [step])
    decreases |steps|
  {
    if steps == [] {
      assert (steps + [step])[1..] == [];
    } else {
      assert (steps + [step])[1..] == steps[1..] + [step];
      HarmlessThen(cfg, Apply(cfg, w, steps[0]), steps[1..], step);
    }
  }

  lemma Go(cfg: Config, w: World, v: World, step: Step) returns (v': World)
    requires Continues(cfg, w, v) && Enabled(cfg, v, step) && IsHarmless(v, step)
    ensures Continues(cfg, w, v') && v' == Apply(cfg, v, step)
  {
    v' := Apply(cfg, v, step);
    var steps :| Leads(cfg, w, steps, v);
    LegalThen(cfg, w, steps, step);
    HarmlessThen(cfg, w, steps, step);
    assert Leads(cfg, w, steps + [step], v');
  }

  lemma WaitUntil(cfg: Config, w: World, v: World, to: nat) returns (v': World)
    requires Continues(cfg, w, v)
    ensures Continues(cfg, w, v') && v' == v.(now := if v.now < to then to else v.now)
  {
    if v.now < to {
      v' := Go(cfg, w, v, Advance(to));
    } else {
      v' := v;
    }
  }

  // ----- Leases end -----

  /** No lease runs for longer than the lease time from now. */
  predicate LeasesBounded(a: Account, now: nat) {
    forall op :: op in a.operations ==> a.operations[op].leaseExpiresAt <= now + CHECKOUT_OPERATION_LEASE_MS
  }

  lemma CheckoutKeepsLeases(w: World, step: Step)
    requires LeasesBounded(w.account, w.now) && IsCheckoutTx(step) && CheckoutTxEnabled(w, step)
    ensures LeasesBounded(CheckoutTx(w, step).account, w.now)
  {
  }

  lemma ReconcileKeepsLeases(w: World, c: nat, expired: seq<nat>)
    requires LeasesBounded(w.account, w.now)
    requires c in w.callers && w.callers[c].ReconcileListed? && ListsExpired(w.account, expired, w.now)
    ensures LeasesBounded(ReconcileStep(w, c, expired).account, w.now)
  {
    var a, snap := w.account, w.callers[c].snap;
    if a.cols.customer == snap.customer && a.version == snap.version {
      ReconcileMeaning(a, snap, expired, w.unused, w.now);
      var p := ReconcileAll(Progress(a, false, NoRecovery), expired, snap.listed, w.unused, w.now);
      forall op | op in p.account.operations
        ensures p.account.operations[op].leaseExpiresAt <= w.now + CHECKOUT_OPERATION_LEASE_MS
      {
        assert op in expired ==> RowOutcome(a, p, op, snap.listed, w.unused, w.now);
      }
    }
  }

  lemma AccountKeepsLeases(w: World, step: Step)
    requires LeasesBounded(w.account, w.now) && IsAccountStep(step) && AccountEnabled(w, step)
    ensures var w' := AccountStep(w, step); LeasesBounded(w'.account, w'.now)
  {
  }

  lemma StepKeepsLeases(cfg: Config, w: World, step: Step, w': World)
    requires LeasesBounded(w.account, w.now) && Enabled(cfg, w, step) && w' == Apply(cfg, w, step)
    ensures LeasesBounded(w'.account, w'.now)
  {
    if MovesCaller(step) {
      MoveKeepsRest(w, step);
    } else if IsCheckoutTx(step) {
      CheckoutKeepsLeases(w, step);
    } else if IsStripeStep(step) {
      StripeKeepsAccount(cfg, w, step);
    } else if step.ReconcileTx? {
      ReconcileKeepsLeases(w, step.caller, step.expired);
    } else {
      AccountKeepsLeases(w, step);
    }
  }

  lemma {:induction false} RunKeepsLeases(cfg: Config, w: World, steps: seq<Step>)
    requires LeasesBounded(w.account, w.now) && Legal(cfg, w, steps)
    ensures LeasesBounded(After(cfg, w, steps).account, After(cfg, w, steps).now)
    decreases |steps|
  {
    if steps != [] {
      var w' := Apply(cfg, w, steps[0]);
      StepKeepsLeases(cfg, w, steps[0], w');
      RunKeepsLeases(cfg, w', steps[1..]);
    }
  }

  // ----- Things that exist -----

  ghost function Above(s: set<nat>): (n: nat)
    ensures forall x :: x in s ==> x < n
  {
    if s == {} then 0
    else
      var x :| x in s;
      var rest := Above(s - {x});
      assert forall y :: y in s ==> y == x || y in s - {x};
      if x < rest then rest else x + 1
  }

  function OpenSession(attempt: nat): SessionInfo { SessionInfo(attempt, OPEN, Some("url")) }

  /** A listing of the sessions of `attempts`, all open. */
  ghost function OpenListing(attempts: set<nat>): seq<SessionInfo> {
    if attempts == {} then []
    else
      var a :| a in attempts;
      [OpenSession(a)] + OpenListing(attempts - {a})
  }

  lemma {:induction false} OpenListingHolds(attempts: set<nat>)
    ensures forall s :: s in OpenListing(attempts) <==> s == OpenSession(s.attempt) && s.attempt in attempts
    ensures forall i, j :: 0 <= i < j < |OpenListing(attempts)| ==>
              OpenListing(attempts)[i].attempt != OpenListing(attempts)[j].attempt
  {
    if attempts != {} {
      var a :| a in attempts && OpenListing(attempts) == [OpenSession(a)] + OpenListing(attempts - {a});
      OpenListingHolds(attempts - {a});
      var rest := OpenListing(attempts - {a});
      forall i, j | 0 <= i < j < |rest| + 1
        ensures ([OpenSession(a)] + rest)[i].attempt != ([OpenSession(a)] + rest)[j].attempt
      {
        assert rest[j - 1] in rest;
      }
    }
  }

  lemma OpenListingIsComplete(v: World)
    ensures CompleteListing(v, OpenListing(v.sessions.Keys))
  {
    var listed := OpenListing(v.sessions.Keys);
    OpenListingHolds(v.sessions.Keys);
    forall a ensures a in v.sessions <==> exists i :: 0 <= i < |listed| && listed[i].attempt == a {
      if a in v.sessions {
        assert OpenSession(a) in listed;
      }
    }
  }

  predicate OldestFirst(a: Account, ids: seq<nat>) {
    forall i, j :: 0 <= i < j < |ids| ==>
      ids[i] in a.operations && ids[j] in a.operations && Precedes(a, ids[i], ids[j])
  }

  function InsertOperation(a: Account, op: nat, ids: seq<nat>): (r: seq<nat>)
    requires op in a.operations && op !in ids && OldestFirst(a, ids) && forall x :: x in ids ==> x in a.operations
    ensures OldestFirst(a, r)
    ensures forall x :: x in r <==> x == op || x in ids
  {
    if ids == [] then [op]
    else
      assert ids == [ids[0]] + ids[1..];
      if Precedes(a, op, ids[0]) then [op] + ids
      else
        var rest := InsertOperation(a, op, ids[1..]);
        assert forall i :: 0 <= i < |rest| ==> rest[i] in rest;
        assert forall i :: 1 <= i < |ids| ==> ids[1..][i - 1] == ids[i];
        [ids[0]] + rest
  }

  ghost function InOrder(a: Account, ops: set<nat>): (ids: seq<nat>)
    requires forall op :: op in ops ==> op in a.operations
    ensures OldestFirst(a, ids)
    ensures forall op :: op in ids <==> op in ops
  {
    if ops == {} then []
    else
      var op :| op in ops;
      InsertOperation(a, op, InOrder(a, ops - {op}))
  }

  function Expired(a: Account, now: nat): set<nat> {
    set op | op in a.operations && a.operations[op].leaseExpiresAt <= now
  }

  // ----- What one reconciliation does to a claimable row -----

  predicate Claimable(a: Account, op: nat, listed: seq<SessionInfo>) {
    && op in a.operations && a.cols.customer.Some?
    && var row := a.operations[op];
       && row.kind == CHECKOUT && row.attempt.Some? && row.attempt == a.cols.attempt && row.complete
       && FindSession(listed, row.attempt).None?
  }

  lemma {:induction false} RecoveryStays(
        p: Progress, expired: seq<nat>, listed: seq<SessionInfo>, freshOwner: nat, now: nat)
    requires forall i :: 0 <= i < |expired| ==> expired[i] in p.account.operations
    requires forall i, j :: 0 <= i < j < |expired| ==> expired[i] != expired[j]
    requires p.recovery != NoRecovery
    ensures ReconcileAll(p, expired, listed, freshOwner, now).recovery == p.recovery
    decreases |expired|
  {
    if expired != [] {
      ReconcileOneRest(p, expired[0], listed, freshOwner, now);
      RecoveryStays(ReconcileOne(p, expired[0], listed, freshOwner, now), expired[1..], listed, freshOwner, now);
    }
  }

  /** A claimable row among the expired ones makes the reconciliation go on with some operation. */
  lemma {:induction false} SomethingIsClaimed(
      p: Progress, expired: seq<nat>, listed: seq<SessionInfo>, freshOwner: nat, now: nat, op: nat)
    requires forall i :: 0 <= i < |expired| ==> expired[i] in p.account.operations
    requires forall i, j :: 0 <= i < j < |expired| ==> expired[i] != expired[j]
    requires op in expired && Claimable(p.account, op, listed)
    ensures ReconcileAll(p, expired, listed, freshOwner, now).recovery != NoRecovery
    decreases |expired|
  {
    var next := ReconcileOne(p, expired[0], listed, freshOwner, now);
    ReconcileOneRest(p, expired[0], listed, freshOwner, now);
    if expired[0] == op {
      assert next.recovery != NoRecovery;
      RecoveryStays(next, expired[1..], listed, freshOwner, now);
    } else {
      assert expired == [expired[0]] + expired[1..];
      SomethingIsClaimed(next, expired[1..], listed, freshOwner, now, op);
    }
  }

  /** The row is claimed, or another expired one is and the row stays. */
  predicate RoundOutcome(a: Account, b: Account, recovery: Recovery, op: nat, freshOwner: nat, now: nat)
    requires op in a.operations
  {
    && b.cols.attempt == a.cols.attempt && b.cols.attemptOrder == a.cols.attemptOrder
    && b.cols.customer == a.cols.customer
    && !recovery.NoRecovery? && recovery.op in a.operations && recovery.op in b.operations && op in b.operations
    && a.operations[recovery.op].leaseExpiresAt <= now
    && b.operations[recovery.op] == ClaimedRow(a.operations[recovery.op], freshOwner, now)
    && (forall o :: o in b.operations && o != recovery.op ==> o in a.operations && b.operations[o] == a.operations[o])
    && (recovery.op == op && a.operations[op].attempt.Some? ==>
          recovery == RecoverCheckout(op, freshOwner, a.operations[op].attempt.value, a.operations[op].order))
  }

  lemma RoundClaims(a: Account, snap: Snapshot, expired: seq<nat>, freshOwner: nat, now: nat, op: nat)
    requires ListsExpired(a, expired, now) && op in expired && Claimable(a, op, snap.listed)
    requires a.cols.customer == snap.customer && a.version == snap.version
    requires now < a.operations[op].createdAt + CHECKOUT_OPERATION_ABANDON_HORIZON_MS
    ensures var r := ReconcileOperations(a, snap, expired, freshOwner, now);
            r.Some? && RoundOutcome(a, r.value.0, r.value.1, op, freshOwner, now)
  {
    var start := Progress(a, false, NoRecovery);
    ReconcileMeaning(a, snap, expired, freshOwner, now);
    SomethingIsClaimed(start, expired, snap.listed, freshOwner, now, op);
    var p := ReconcileAll(start, expired, snap.listed, freshOwner, now);
    forall o | o in a.operations && o in expired ensures RowOutcome(a, p, o, snap.listed, freshOwner, now) {
    }
    assert RowOutcome(a, p, op, snap.listed, freshOwner, now);
  }

  // ----- From the reservation to the wrong session -----

  /** The row `b` asks for `wrong` under the attempt `t`, which stands for `right` and has no session yet. */
  ghost predicate Asks(v: World, b: nat, t: nat, right: Order, wrong: Order) {
    && Tidy(v) && LeasesBounded(v.account, v.now) && t !in v.sessions
    && v.account.cols.attempt == Some(t) && v.account.cols.attemptOrder == Some(right)
    && b in v.account.operations
    && var row := v.account.operations[b];
       && row.kind == CHECKOUT && row.attempt == Some(t) && row.order == Some(wrong) && row.complete
       && v.now < row.createdAt + CHECKOUT_OPERATION_ABANDON_HORIZON_MS
  }

  ghost predicate Pending(v: World, b: nat, t: nat, right: Order, wrong: Order) {
    Asks(v, b, t, right, wrong) && v.account.cols.customer.Some?
  }

  /** The attempt stands for `right`, but its session is for `wrong`. */
  ghost predicate Misled(v: World, t: nat, right: Order, wrong: Order) {
    && Tidy(v) && LeasesBounded(v.account, v.now) && v.account.cols.customer.Some?
    && v.account.cols.attempt == Some(t) && v.account.cols.attemptOrder == Some(right)
    && t in v.sessions && v.sessions[t].origin.order == Some(wrong)
  }

  lemma GoKeeps(cfg: Config, w: World, v: World, step: Step) returns (v': World)
    requires Continues(cfg, w, v) && Enabled(cfg, v, step) && IsHarmless(v, step)
    requires Tidy(v) && LeasesBounded(v.account, v.now)
    ensures Continues(cfg, w, v') && v' == Apply(cfg, v, step)
    ensures Tidy(v') && LeasesBounded(v'.account, v'.now)
  {
    v' := Go(cfg, w, v, step);
    StepFades(cfg, v, step, v');
    StepKeepsLeases(cfg, v, step, v');
  }

  lemma ReservationAsks(cfg: Config, w: World, c: nat, wrong: Order, right: Order)
    requires Tidy(w) && LeasesBounded(w.account, w.now) && Enabled(cfg, w, ReserveCheckout(c, wrong))
    requires w.account.cols.attempt.Some? && w.account.cols.attemptOrder == Some(right)
    requires w.account.cols.attempt.value !in w.sessions
    ensures var w' := Apply(cfg, w, ReserveCheckout(c, wrong));
            && Asks(w', w.unused, w.account.cols.attempt.value, right, wrong)
            && w'.account.operations[w.unused].createdAt == w'.now && c in w'.callers && w'.callers[c].Reserved?
  {
    var w' := Apply(cfg, w, ReserveCheckout(c, wrong));
    StepFades(cfg, w, ReserveCheckout(c, wrong), w');
    StepKeepsLeases(cfg, w, ReserveCheckout(c, wrong), w');
    assert w' == AccountStep(w, ReserveCheckout(c, wrong));
    assert w'.account == Reserve(w.account, wrong, w.now, w.unused, w.unused + 1, w.unused + 2);
  }

  lemma ReserverGetsCustomer(cfg: Config, w: World, c: nat, b: nat, t: nat, right: Order, wrong: Order)
    returns (v: World)
    requires Asks(w, b, t, right, wrong) && c in w.callers && w.callers[c].Reserved?
    ensures Continues(cfg, w, v) && Pending(v, b, t, right, wrong) && v.now == w.now
    ensures v.account.operations == w.account.operations
  {
    assert Leads(cfg, w, [], w);
    v := GoKeeps(cfg, w, w, EnsureCustomer(c));
    assert v == AccountStep(w, EnsureCustomer(c));
  }

  /** The reserving caller gets its customer and is not heard of again until its lease has run out. */
  lemma ReserverStalls(cfg: Config, w: World, c: nat, b: nat, t: nat, right: Order, wrong: Order) returns (v: World)
    requires Asks(w, b, t, right, wrong) && c in w.callers && w.callers[c].Reserved?
    requires w.account.operations[b].createdAt == w.now
    ensures Continues(cfg, w, v) && Pending(v, b, t, right, wrong) && b in Expired(v.account, v.now)
  {
    v := ReserverGetsCustomer(cfg, w, c, b, t, right, wrong);
    v := WaitUntil(cfg, w, v, w.now + CHECKOUT_OPERATION_LEASE_MS);
  }

  lemma ReconcilerBegins(cfg: Config, w: World, v: World, b: nat) returns (u: World, k: nat)
    requires Continues(cfg, w, v) && Tidy(v) && LeasesBounded(v.account, v.now)
    requires b in v.account.operations && v.account.operations[b].leaseExpiresAt <= v.now
    ensures Continues(cfg, w, u) && Tidy(u) && LeasesBounded(u.account, u.now) && u == v.(callers := u.callers)
    ensures k in u.callers && u.callers[k].ReadyToReconcile?
  {
    k := Above(v.callers.Keys);
    u := GoKeeps(cfg, w, v, BeginReconcile(k));
    assert u == AccountStep(v, BeginReconcile(k));
  }

  lemma ReconcilerSnaps(cfg: Config, w: World, v: World, b: nat) returns (u: World, k: nat)
    requires Continues(cfg, w, v) && Tidy(v) && LeasesBounded(v.account, v.now)
    requires b in v.account.operations && v.account.operations[b].leaseExpiresAt <= v.now
    ensures Continues(cfg, w, u) && Tidy(u) && LeasesBounded(u.account, u.now) && u == v.(callers := u.callers)
    ensures k in u.callers && u.callers[k] == ReconcileSnapped(SnapshotNow(v))
  {
    u, k := ReconcilerBegins(cfg, w, v, b);
    u := GoKeeps(cfg, w, u, ReconcileSnapshot(k));
  }

  /** A new caller begins to reconcile and reads and lists everything as it is. */
  lemma ReconcilerReads(cfg: Config, w: World, v: World, b: nat) returns (u: World, k: nat)
    requires Continues(cfg, w, v) && Tidy(v) && LeasesBounded(v.account, v.now) && v.account.cols.customer.Some?
    requires b in v.account.operations && v.account.operations[b].leaseExpiresAt <= v.now
    ensures Continues(cfg, w, u) && Tidy(u) && u == v.(callers := u.callers)
    ensures k in u.callers && u.callers[k].ReconcileListed?
    ensures var snap := u.callers[k].snap;
            && snap.version == v.account.version && snap.customer == v.account.cols.customer && snap.listedAt == v.now
            && forall s :: s in snap.listed ==> s.attempt in v.sessions
  {
    var listed := OpenListing(v.sessions.Keys);
    u, k := ReconcilerSnaps(cfg, w, v, b);
    OpenListingIsComplete(u);
    OpenListingHolds(v.sessions.Keys);
    u := GoKeeps(cfg, w, u, ReconcileListing(k, listed));
  }

  predicate IsClaimed(v: World, b: nat, t: nat, wrong: Order, k: nat) {
    && k in v.callers && v.callers[k].Sending? && Owns(v.account, b, v.callers[k].owner)
    && v.callers[k] == Sending(b, v.callers[k].owner, t, Some(wrong), v.now)
  }

  lemma RoundCommits(cfg: Config, w: World, u: World, k: nat, ids: seq<nat>, b: nat, t: nat, right: Order, wrong: Order)
    returns (v': World)
    requires Continues(cfg, w, u) && Pending(u, b, t, right, wrong) && b in Expired(u.account, u.now)
    requires Enabled(cfg, u, ReconcileTx(k, ids))
    requires var r := ReconcileOperations(u.account, u.callers[k].snap, ids, u.unused, u.now);
             r.Some? && RoundOutcome(u.account, r.value.0, r.value.1, b, u.unused, u.now)
    ensures Continues(cfg, w, v') && Pending(v', b, t, right, wrong) && v'.now == u.now
    ensures || IsClaimed(v', b, t, wrong, k)
            || (b in Expired(v'.account, v'.now) && Expired(v'.account, v'.now) < Expired(u.account, u.now))
  {
    v' := GoKeeps(cfg, w, u, ReconcileTx(k, ids));
    assert v' == ReconcileStep(u, k, ids);
    RoundShrinks(u, v', k, ids, b);
  }

  /** One reconciliation: the row is claimed, or one expired row fewer is left before it. */
  lemma Round(cfg: Config, w: World, v: World, b: nat, t: nat, right: Order, wrong: Order) returns (v': World, k: nat)
    requires Continues(cfg, w, v) && Pending(v, b, t, right, wrong) && b in Expired(v.account, v.now)
    ensures Continues(cfg, w, v') && Pending(v', b, t, right, wrong) && v'.now == v.now
    ensures || IsClaimed(v', b, t, wrong, k)
            || (b in Expired(v'.account, v'.now) && Expired(v'.account, v'.now) < Expired(v.account, v.now))
  {
    var u;
    u, k := ReconcilerReads(cfg, w, v, b);
    var a, snap := u.account, u.callers[k].snap;
    var ids := InOrder(a, Expired(a, u.now));
    assert b in ids && ListsExpired(a, ids, u.now);
    assert FindSession(snap.listed, Some(t)).None?;
    RoundClaims(a, snap, ids, u.unused, u.now, b);
    v' := RoundCommits(cfg, w, u, k, ids, b, t, right, wrong);
  }

  lemma RoundShrinks(u: World, v': World, k: nat, ids: seq<nat>, b: nat)
    requires k in u.callers && u.callers[k].ReconcileListed? && ListsExpired(u.account, ids, u.now)
    requires v' == ReconcileStep(u, k, ids) && b in Expired(u.account, u.now) && u.account.operations[b].attempt.Some?
    requires var r := ReconcileOperations(u.account, u.callers[k].snap, ids, u.unused, u.now);
             r.Some? && RoundOutcome(u.account, r.value.0, r.value.1, b, u.unused, u.now)
    ensures var row := u.account.operations[b];
            var recovery := ReconcileOperations(u.account, u.callers[k].snap, ids, u.unused, u.now).value.1;
            && v'.now == u.now && v'.sessions == u.sessions
            && (recovery.op == b ==>
                  && k in v'.callers && v'.callers[k] == Sending(b, u.unused, row.attempt.value, row.order, u.now)
                  && Owns(v'.account, b, u.unused))
            && (recovery.op != b ==>
                  b in Expired(v'.account, v'.now) && Expired(v'.account, v'.now) < Expired(u.account, u.now))
  {
    var recovery := ReconcileOperations(u.account, u.callers[k].snap, ids, u.unused, u.now).value.1;
    assert recovery.op in Expired(u.account, u.now) && recovery.op !in Expired(v'.account, v'.now);
  }

  /** Reconciliation after reconciliation, the row is claimed in the end. */
  lemma {:induction false} RowIsClaimed(cfg: Config, w: World, v: World, b: nat, t: nat, right: Order, wrong: Order)
    returns (v': World, k: nat)
    requires Continues(cfg, w, v) && Pending(v, b, t, right, wrong) && b in Expired(v.account, v.now)
    ensures Continues(cfg, w, v') && Pending(v', b, t, right, wrong) && IsClaimed(v', b, t, wrong, k)
    decreases |Expired(v.account, v.now)|
  {
    v', k := Round(cfg, w, v, b, t, right, wrong);
    if !IsClaimed(v', b, t, wrong, k) {
      ProperSubsetSize(Expired(v'.account, v'.now), Expired(v.account, v.now));
      v', k := RowIsClaimed(cfg, w, v', b, t, right, wrong);
    }
  }

  lemma WrongCreateIsSent(
      cfg: Config, w: World, v: World, b: nat, t: nat, right: Order, wrong: Order, k: nat) returns (v': World)
    requires Continues(cfg, w, v) && Pending(v, b, t, right, wrong) && IsClaimed(v, b, t, wrong, k)
    ensures Continues(cfg, w, v') && Pending(v', b, t, right, wrong) && v'.now == v.now && v'.account == v.account
    ensures k in v'.callers && v'.callers[k] == Waiting(b, v.callers[k].owner, t, Some(wrong), v.now)
    ensures RequestOf(v.callers[k]) in v'.requests
  {
    v' := GoKeeps(cfg, w, v, Send(k));
  }

  /** Stripe creates the recovery's session, for the row's order, ... */
  lemma WrongCreateExecutes(
      cfg: Config, w: World, v: World, b: nat, t: nat, right: Order, wrong: Order, k: nat) returns (v': World)
    requires Continues(cfg, w, v) && Pending(v, b, t, right, wrong) && IsClaimed(v, b, t, wrong, k)
    ensures Continues(cfg, w, v') && Misled(v', t, right, wrong) && Owns(v'.account, b, v.callers[k].owner)
    ensures k in v'.callers && v'.callers[k] == Waiting(b, v.callers[k].owner, t, Some(wrong), v.now)
    ensures RequestOf(v'.callers[k]) !in v'.requests
  {
    var request := RequestOf(v.callers[k]);
    v' := WrongCreateIsSent(cfg, w, v, b, t, right, wrong, k);
    v' := GoKeeps(cfg, w, v', ExecuteCreate(request));
    assert v'.sessions[t] == Created(request, v.now) && request !in v'.requests;
  }

  /** ... and it becomes the attempt's. */
  lemma WrongSessionIsRecorded(
      cfg: Config, w: World, v: World, b: nat, t: nat, right: Order, wrong: Order, k: nat) returns (v': World)
    requires Continues(cfg, w, v) && Misled(v, t, right, wrong) && k in v.callers && v.callers[k].Waiting?
    requires v.callers[k].op == b && v.callers[k].attempt == t && Owns(v.account, b, v.callers[k].owner)
    requires RequestOf(v.callers[k]) !in v.requests
    ensures Continues(cfg, w, v') && Misled(v', t, right, wrong)
  {
    var u := GoKeeps(cfg, w, v, CreateSucceeds(k));
    v' := GoKeeps(cfg, w, u, PersistTx(k, Some("url")));
    assert v' == CheckoutTx(u, PersistTx(k, Some("url")));
  }

  /** Cleanup finishes, one intent after the other. */
  lemma {:induction false} CleanupFinishes(cfg: Config, w: World, v: World, t: nat, right: Order, wrong: Order)
    returns (v': World)
    requires Continues(cfg, w, v) && Misled(v, t, right, wrong)
             && Expired(v.account, v.now) == v.account.operations.Keys
    ensures Continues(cfg, w, v') && Misled(v', t, right, wrong) && v'.account.intents == {}
    ensures Expired(v'.account, v'.now) == v'.account.operations.Keys
    decreases |v.account.intents|
  {
    if v.account.intents == {} {
      v' := v;
    } else {
      var s :| s in v.account.intents;
      v' := GoKeeps(cfg, w, v, CleanupDoneTx(s));
      assert v' == AccountStep(v, CleanupDoneTx(s));
      ProperSubsetSize(v'.account.intents, v.account.intents);
      v' := CleanupFinishes(cfg, w, v', t, right, wrong);
    }
  }

  /** With the attempt's open session listed and the order the attempt's, coordinate hands the session out. */
  lemma OpenSessionIsReused(a: Account, op: nat, owner: nat, order: Order, snap: Snapshot, freshAttempt: nat, now: nat)
    requires a.version == snap.version && a.cols.customer == snap.customer && a.intents == {} && Owns(a, op, owner)
    requires !snap.subscribed && a.cols.attemptOrder == Some(order)
    requires IsOpen(FindSession(snap.listed, a.cols.attempt))
             && FindSession(snap.listed, a.cols.attempt).value.url.Some?
    ensures Coordinate(a, op, owner, order, snap, freshAttempt, now).1 == ReuseSession
  {
  }

  /** The next checkout for the attempt's own order reserves, ... */
  lemma NextCheckoutReserves(cfg: Config, w: World, v: World, t: nat, right: Order, wrong: Order)
    returns (v': World, c: nat)
    requires Continues(cfg, w, v) && Misled(v, t, right, wrong) && v.account.intents == {}
    requires Expired(v.account, v.now) == v.account.operations.Keys
    ensures Continues(cfg, w, v') && Misled(v', t, right, wrong) && v'.account.intents == {}
    ensures c in v'.callers && v'.callers[c].Reserved? && v'.callers[c].order == right
    ensures Owns(v'.account, v'.callers[c].op, v'.callers[c].owner)
  {
    c := Above(v.callers.Keys);
    forall op | op in v.account.operations ensures !Conflicts(v.account.operations[op], right, v.now) {
      assert op in Expired(v.account, v.now);
    }
    v' := GoKeeps(cfg, w, v, ReserveCheckout(c, right));
    assert v' == AccountStep(v, ReserveCheckout(c, right));
  }

  /** ... reads and lists ... */
  lemma NextCheckoutLists(cfg: Config, w: World, v: World, t: nat, right: Order, wrong: Order, c: nat)
    returns (v': World)
    requires Continues(cfg, w, v) && Misled(v, t, right, wrong) && c in v.callers && v.callers[c].Reserved?
    ensures Continues(cfg, w, v') && v' == v.(callers := v'.callers)
    ensures c in v'.callers && v'.callers[c].Listed? && v'.callers[c].order == v.callers[c].order
    ensures v'.callers[c].op == v.callers[c].op && v'.callers[c].owner == v.callers[c].owner
    ensures var snap := v'.callers[c].snap;
            && snap.version == v'.account.version && snap.customer == v'.account.cols.customer && !snap.subscribed
            && snap.listed == OpenListing(v'.sessions.Keys)
  {
    v' := GoKeeps(cfg, w, v, TakeSnapshot(c));
    OpenListingIsComplete(v');
    v' := GoKeeps(cfg, w, v', ListSessions(c, false, OpenListing(v'.sessions.Keys)));
  }

  /** ... and is handed the session of the other order. */
  lemma NextCheckoutIsMisled(cfg: Config, w: World, v: World, t: nat, right: Order, wrong: Order)
    returns (v': World, c: nat)
    requires Continues(cfg, w, v) && Misled(v, t, right, wrong) && v.account.intents == {} && right != wrong
    requires Expired(v.account, v.now) == v.account.operations.Keys
    ensures Continues(cfg, w, v') && HandsOut(v', c) && !AsAsked(v', c)
  {
    v', c := NextCheckoutReserves(cfg, w, v, t, right, wrong);
    v' := NextCheckoutLists(cfg, w, v', t, right, wrong, c);
    var k := v'.callers[c];
    OpenListingHolds(v'.sessions.Keys);
    assert OpenSession(t) in k.snap.listed;
    var found := FindSession(k.snap.listed, Some(t)).value;
    assert found == OpenSession(found.attempt);
    OpenSessionIsReused(v'.account, k.op, k.owner, right, k.snap, v'.unused, v'.now);
  }

  // ----- The theorem -----

  /** The run hands some caller a session of another order than it asked for. */
  ghost predicate Misdirects(cfg: Config, w: World, steps: seq<Step>) {
    && Legal(cfg, w, steps) && HarmlessRun(cfg, w, steps)
    && exists c :: HandsOut(After(cfg, w, steps), c) && !AsAsked(After(cfg, w, steps), c)
  }

  lemma WrongSessionComesToBe(cfg: Config, w: World, v: World, b: nat, t: nat, right: Order, wrong: Order)
    returns (v': World)
    requires Continues(cfg, w, v) && Pending(v, b, t, right, wrong) && b in Expired(v.account, v.now)
    ensures Continues(cfg, w, v') && Misled(v', t, right, wrong)
    ensures Expired(v'.account, v'.now) == v'.account.operations.Keys
  {
    var k;
    v', k := RowIsClaimed(cfg, w, v, b, t, right, wrong);
    v' := WrongCreateExecutes(cfg, w, v', b, t, right, wrong, k);
    v' := WrongSessionIsRecorded(cfg, w, v', b, t, right, wrong, k);
    v' := WaitUntil(cfg, w, v', v'.now + CHECKOUT_OPERATION_LEASE_MS);
  }

  /**
   After a harmful reservation some continuation without another one misdirects, from any such state
   and whatever the timing.
   */
  lemma HarmfulReservationMisdirects(cfg: Config, w: World, c: nat, wrong: Order)
    requires Tidy(w) && LeasesBounded(w.account, w.now) && Enabled(cfg, w, ReserveCheckout(c, wrong))
    requires w.account.cols.attempt.Some? ==> w.account.cols.attemptOrder.Some?
    requires !Harmless(w, wrong)
    ensures exists later :: Misdirects(cfg, Apply(cfg, w, ReserveCheckout(c, wrong)), later)
  {
    var w', b, t := Apply(cfg, w, ReserveCheckout(c, wrong)), w.unused, w.account.cols.attempt.value;
    var right := w.account.cols.attemptOrder.value;
    ReservationAsks(cfg, w, c, wrong, right);
    var v := ReserverStalls(cfg, w', c, b, t, right, wrong);
    v := WrongSessionComesToBe(cfg, w', v, b, t, right, wrong);
    v := CleanupFinishes(cfg, w', v, t, right, wrong);
    var k;
    v, k := NextCheckoutIsMisled(cfg, w', v, t, right, wrong);
    var later :| Leads(cfg, w', later, v);
    assert Misdirects(cfg, w', later);
  }

  /** After a harmless one none does. */
  lemma HarmlessReservationNeverMisdirects(
        cfg: Config, w: World, orders: Orders, c: nat, order: Order, later: seq<Step>)
    requires OrdersOk(w, orders) && Tidy(w) && SnapshotsFresh(w)
    requires Enabled(cfg, w, ReserveCheckout(c, order)) && Harmless(w, order)
    ensures !Misdirects(cfg, Apply(cfg, w, ReserveCheckout(c, order)), later)
  {
    var step := ReserveCheckout(c, order);
    var w' := Apply(cfg, w, step);
    var more := StepKeepsOrders(cfg, w, step, orders, w');
    StepFades(cfg, w, step, w');
    StepKeepsSnapshotsFresh(cfg, w, step, w');
    if Legal(cfg, w', later) && HarmlessRun(cfg, w', later) {
      var last := RunKeepsOrders(cfg, w', later, more);
      forall d | HandsOut(After(cfg, w', later), d) ensures AsAsked(After(cfg, w', later), d) {
        OrdersMeanAsAsked(After(cfg, w', later), last, d);
      }
    }
  }

  /**
   From every state that harmless reservations lead to, a reservation can lead a checkout
   to a session of another order if and only if the account's attempt is for another order
   and has no session yet.
   */
  lemma ReservationMisdirectsIff(cfg: Config, before: seq<Step>, c: nat, order: Order)
    requires Legal(cfg, START, before) && HarmlessRun(cfg, START, before)
    requires Enabled(cfg, After(cfg, START, before), ReserveCheckout(c, order))
    ensures var w := After(cfg, START, before);
            var cols := w.account.cols;
            (exists later :: Misdirects(cfg, Apply(cfg, w, ReserveCheckout(c, order)), later))
            <==> cols.attempt.Some? && cols.attemptOrder != Some(order) && cols.attempt.value !in w.sessions
  {
    var w := After(cfg, START, before);
    var orders := RunKeepsOrders(cfg, START, before, map[]);
    RunKeepsLeases(cfg, START, before);
    if Harmless(w, order) {
      forall later ensures !Misdirects(cfg, Apply(cfg, w, ReserveCheckout(c, order)), later) {
        HarmlessReservationNeverMisdirects(cfg, w, orders, c, order, later);
      }
    } else {
      HarmfulReservationMisdirects(cfg, w, c, order);
    }
  }
}
