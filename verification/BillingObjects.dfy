/**
 The rows of one billing account, updated in place as the service's transactions do
 (api/src/billing/billing.service.ts); each method leaves what its transaction function says.
 */
module BillingObjects {
  import opened Options
  import opened BillingAccounts
  import opened BillingReconcile
  import opened BillingDecisions
  import opened BillingEffects

  class AccountRows {
    var cols: Columns
    var operations: map<nat, Operation>
    var intents: set<nat>
    var version: nat

    constructor ()
      ensures View() == Account(Columns(None, None, None, None, None, None, None), map[], {}, 0)
    {
      cols := Columns(None, None, None, None, None, None, None);
      operations, intents, version := map[], {}, 0;
    }

    ghost function View(): Account
      reads this
    {
      Account(cols, operations, intents, version)
    }

    /** The transaction of `completeCheckoutOperation`: deletes the row its owner still holds. */
    method CompleteCheckoutOperation(op: nat, owner: nat)
      modifies this
      ensures View() == CompleteOperation(old(View()), op, owner)
      ensures !Owns(View(), op, owner) && cols == old(cols) && intents == old(intents)
      ensures forall o :: o in old(operations) && o != op ==> o in operations && operations[o] == old(operations)[o]
    {
      if op in operations && operations[op].owner == owner {
        operations := operations - {op};
        version := version + 1;
      }
    }

    method MarkCheckoutOperationUncertain(op: nat, owner: nat)
      modifies this
      ensures View() == MarkUncertain(old(View()), op, owner)
      ensures operations.Keys == old(operations).Keys && (Owns(View(), op, owner) ==> operations[op].uncertain)
    {
      if op in operations && operations[op].owner == owner {
        operations := operations[op := operations[op].(uncertain := true)];
        version := version + 1;
      }
    }

    /** Records a session Stripe returned; whatever else happened, it ends up on the user row or as an intent. */
    method PersistReturnedCheckoutSession(
          op: nat, owner: nat, attempt: nat, url: Option<string>)
      returns (r: Persistence)
      modifies this
      ensures (View(), r) == PersistReturned(old(View()), op, owner, attempt, url)
      ensures RecordedIn(View(), attempt) && !Owns(View(), op, owner) && old(version) < version
      ensures r == PERSISTED_OWNED <==>
              Owns(old(View()), op, owner) && url.Some? && old(cols).attempt == Some(attempt)
      ensures r == PERSISTED_STALE <==> !Owns(old(View()), op, owner)
      ensures r == PERSISTED_OWNED ==>
                cols == old(cols).(session := Some(attempt), sessionUrl := url) && intents == old(intents) - {attempt}
      ensures r != PERSISTED_OWNED ==> cols == old(cols) && intents == old(intents) + {attempt}
      ensures operations == if Owns(old(View()), op, owner) then old(operations) - {op} else old(operations)
    {
      var hasFence := op in operations && operations[op].owner == owner;
      if hasFence && url.Some? && cols.attempt == Some(attempt) {
        cols := cols.(session := Some(attempt), sessionUrl := url);
        version := version + 1;
        intents := intents - {attempt};
        operations := operations - {op};
        return PERSISTED_OWNED;
      }
      intents := intents + {attempt};
      if hasFence {
        operations := operations - {op};
      }
      version := version + 1;
      r := if hasFence then PERSISTED_CLEANUP else PERSISTED_STALE;
    }

    /** The reservation of `createCheckout`; refused while a cleanup or a conflicting operation is pending. */
    method ReserveCheckout(order: Order, now: nat, op: nat, owner: nat, freshAttempt: nat) returns (ok: bool)
      requires op !in operations
      modifies this
      ensures ok == CanReserve(old(View()), order, now)
      ensures View() == if ok then Reserve(old(View()), order, now, op, owner, freshAttempt) else old(View())
      ensures ok ==> Owns(View(), op, owner) && operations[op].order == Some(order)
      ensures ok ==> cols.attempt.Some? && operations[op].attempt == cols.attempt && old(version) < version
      ensures old(cols.attempt).Some? ==> cols == old(cols)
    {
      if intents != {} || exists id :: id in operations && Conflicts(operations[id], order, now) {
        return false;
      }
      if cols.attempt.None? {
        cols := cols.(attempt := Some(freshAttempt), attemptOrder := Some(order), attemptCreatedAt := Some(now),
                      session := None, sessionUrl := None);
      }
      version := version + 1;
      operations := operations[op := Operation(CHECKOUT, cols.attempt, Some(order), None, true, owner, false,
                                               now + CHECKOUT_OPERATION_LEASE_MS, now)];
      ok := true;
    }

    /** One round of `coordinate`. */
    method CoordinateCheckout(
          op: nat, owner: nat, order: Order, snap: Snapshot, freshAttempt: nat, now: nat)
      returns (action: Action)
      modifies this
      ensures (View(), action) == Coordinate(old(View()), op, owner, order, snap, freshAttempt, now)
      ensures action.RetryStale? || action.RefuseCheckout? ==> View() == old(View())
      ensures (old(cols).attempt != Some(freshAttempt) && IsCurrent(old(View()), snap)
               && Owns(old(View()), op, owner)) ==>
                Chooses(old(View()), order, snap, freshAttempt, now, action)
      ensures action.CreateSession? || action.ExpireSession? ==>
                && Owns(View(), op, owner) && operations[op].attempt == Some(action.attempt)
                && operations[op].leaseExpiresAt == now + CHECKOUT_OPERATION_LEASE_MS
                && cols.attempt == Some(action.attempt) && cols.attemptOrder == Some(order)
      ensures action.ReuseSession? ==> cols.attempt.Some? && cols.session == cols.attempt && cols.sessionUrl.Some?
      ensures cols != old(cols) ==> old(version) < version
    {
      if cols.attempt != Some(freshAttempt) && IsCurrent(View(), snap) && Owns(View(), op, owner) {
        CoordinateChooses(View(), op, owner, order, snap, freshAttempt, now);
      }
      if cols.customer != snap.customer || version != snap.version {
        return RetryStale;
      }
      if intents != {} {
        return RefuseCheckout;
      }
      var (decided, next) := Decide(cols, order, snap, freshAttempt, now);
      if decided == RefuseCheckout {
        return RefuseCheckout;
      }
      if !(op in operations && operations[op].owner == owner) {
        return RetryStale;
      }
      var named := if decided == ReuseSession then cols.attempt else FenceAttempt(decided);
      var row := operations[op];
      operations := operations[op := row.(attempt := if named.Some? then named else row.attempt, uncertain := false,
                                          leaseExpiresAt := now + CHECKOUT_OPERATION_LEASE_MS)];
      if cols != next || decided.ReuseSession? || decided.OpenPortal? {
        cols := next;
        version := version + 1;
      }
      action := decided;
    }

    method AssignStripeCustomer(snapshotVersion: nat, customer: nat) returns (result: Option<nat>)
      modifies this
      ensures View() == AssignCustomer(old(View()), snapshotVersion, customer)
      ensures result.Some? ==> cols.customer == result
      ensures result.None? ==> old(cols.customer).None? && old(version) != snapshotVersion
    {
      if cols.customer.Some? {
        return cols.customer;
      }
      if version != snapshotVersion {
        return None;
      }
      cols := cols.(customer := Some(customer));
      version := version + 1;
      result := Some(customer);
    }

    method ApplySubscriptionEvent(
          snapVersion: nat, snapCustomer: Option<nat>, state: Subscription)
      returns (applied: bool)
      modifies this
      ensures applied == (old(cols.customer) == snapCustomer && old(version) == snapVersion)
      ensures View() == ApplySubscription(old(View()), snapVersion, snapCustomer, state)
      ensures applied ==> old(version) < version && operations == old(operations) && intents == old(intents)
      ensures applied ==>
                cols.subscription.Some? && IsUpdated(old(cols).subscription, cols.subscription.value, state)
      ensures applied && state.stripeSubscriptionId.Some? ==> cols.attempt.None? && cols.session.None?
    {
      if cols.customer != snapCustomer || version != snapVersion {
        return false;
      }
      var existing := cols.subscription;
      if state.stripeSubscriptionId.Some? {
        cols := ClearAttempt(cols);
      }
      version := version + 1;
      if existing.Some? && existing.value.manualOverride {
        cols := cols.(subscription :=
          Some(existing.value.(status := state.status, stripeSubscriptionId := state.stripeSubscriptionId)));
      } else if existing.Some? {
        cols := cols.(subscription :=
          Some(existing.value.(plan := state.plan, status := state.status,
                               stripeSubscriptionId := state.stripeSubscriptionId)));
      } else {
        cols := cols.(subscription :=
          Some(Subscription(state.plan, state.status, state.stripeSubscriptionId, false, None)));
      }
      applied := true;
    }

    /** The transaction of `reconcileCheckoutOperations`: one pass over the expired operations. */
    method ReconcileCheckoutOperations(
          snap: Snapshot, expired: seq<nat>, freshOwner: nat, now: nat)
      returns (r: Option<Recovery>)
      requires ListsExpired(View(), expired, now)
      modifies this
      ensures var spec := ReconcileOperations(old(View()), snap, expired, freshOwner, now);
              && (spec.None? ==> r.None? && View() == old(View()))
              && (spec.Some? ==> r == Some(spec.value.1) && View() == spec.value.0)
      ensures r.Some? ==>
                forall op :: op in expired && HasListedSession(old(operations)[op], snap.listed) ==>
                  op !in operations && RecordedIn(View(), old(operations)[op].attempt.value)
      ensures forall op :: op in old(operations) && op !in expired ==>
                op in operations && operations[op] == old(operations)[op]
    {
      if cols.customer != snap.customer || version != snap.version {
        return None;
      }
      ghost var before := View();
      var changed, recovery := ReconcileEach(expired, snap.listed, freshOwner, now);
      RowsEnd(before, snap, expired, freshOwner, now);
      if changed {
        version := version + 1;
      }
      r := Some(recovery);
    }

    /** Its loop over the expired operations. */
    method ReconcileEach(
          expired: seq<nat>, listed: seq<SessionInfo>, freshOwner: nat, now: nat)
      returns (changed: bool, recovery: Recovery)
      requires forall i :: 0 <= i < |expired| ==> expired[i] in operations
      requires forall i, j :: 0 <= i < j < |expired| ==> expired[i] != expired[j]
      modifies this
      ensures Progress(View(), changed, recovery)
           == ReconcileAll(Progress(old(View()), false, NoRecovery), expired, listed, freshOwner, now)
    {
      ghost var start := Progress(View(), false, NoRecovery);
      changed, recovery := false, NoRecovery;
      var i := 0;
      while i < |expired|
        invariant 0 <= i <= |expired|
        invariant forall k :: i <= k < |expired| ==> expired[k] in operations
        invariant ReconcileAll(start, expired, listed, freshOwner, now)
               == ReconcileAll(Progress(View(), changed, recovery), expired[i..], listed, freshOwner, now)
      {
        var op := expired[i];
        ghost var before := Progress(View(), changed, recovery);
        changed, recovery := ReconcileOperation(op, changed, recovery, listed, freshOwner, now);
        assert Progress(View(), changed, recovery) == ReconcileOne(before, op, listed, freshOwner, now);
        ReconcileOneRest(before, op, listed, freshOwner, now);
        assert expired[i..][0] == op && expired[i..][1..] == expired[i + 1..];
        i := i + 1;
      }
    }

    /**
     The body of that loop: a listed session is recorded as its row goes; a row goes only then or
     past the horizon; the first row that can go on is claimed under a fresh owner and lease.
     */
    method ReconcileOperation(
          op: nat, changed0: bool, recovery0: Recovery, listed: seq<SessionInfo>, freshOwner: nat, now: nat)
      returns (changed: bool, recovery: Recovery)
      requires op in operations
      modifies this
      ensures Progress(View(), changed, recovery)
           == ReconcileOne(Progress(old(View()), changed0, recovery0), op, listed, freshOwner, now)
      ensures HasListedSession(old(operations)[op], listed) ==>
                op !in operations && RecordedIn(View(), old(operations)[op].attempt.value)
      ensures op !in operations ==>
                || HasListedSession(old(operations)[op], listed)
                || now >= old(operations)[op].createdAt + CHECKOUT_OPERATION_ABANDON_HORIZON_MS
      ensures op in operations && operations[op] != old(operations)[op] ==>
                operations[op] == ClaimedRow(old(operations)[op], freshOwner, now) && recovery.op == op
      ensures recovery != recovery0 <==>
                recovery0 == NoRecovery && CanGoOn(old(View()), old(operations)[op], listed)
      ensures recovery != recovery0 ==>
              recovery.op == op && recovery.owner == freshOwner && Owns(View(), op, freshOwner)
      ensures forall o :: o in old(operations) && o != op ==> o in operations && operations[o] == old(operations)[o]
      ensures forall t :: RecordedIn(old(View()), t) ==> RecordedIn(View(), t)
      ensures version == old(version) && cols.attempt == old(cols.attempt) && cols.customer == old(cols.customer)
    {
      changed, recovery := changed0, recovery0;
      var row := operations[op];
      var abandoned := now >= row.createdAt + CHECKOUT_OPERATION_ABANDON_HORIZON_MS;
      var claimed := row.(owner := freshOwner, uncertain := false, leaseExpiresAt := now + CHECKOUT_OPERATION_LEASE_MS);
      if row.kind == PORTAL {
        if row.customer.None? || !row.complete || cols.customer != row.customer {
          if abandoned {
            operations := operations - {op};
            changed := true;
          }
        } else if recovery == NoRecovery {
          operations := operations[op := claimed];
          changed, recovery := true, RecoverPortal(op, freshOwner);
        }
        return;
      }
      var session := FindSession(listed, row.attempt);
      if session.Some? {
        if cols.attempt == row.attempt {
          cols := cols.(session := Some(session.value.attempt), sessionUrl := session.value.url);
          intents := intents - {session.value.attempt};
        } else {
          intents := intents + {session.value.attempt};
        }
        operations := operations - {op};
        changed := true;
      } else if cols.attempt != row.attempt || row.attempt.None? || !row.complete {
        if abandoned {
          operations := operations - {op};
          changed := true;
        }
      } else if cols.customer.Some? && recovery == NoRecovery {
        operations := operations[op := claimed];
        changed, recovery := true, RecoverCheckout(op, freshOwner, row.attempt.value, row.order);
      }
    }
  }
}
