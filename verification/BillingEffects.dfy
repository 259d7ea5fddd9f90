/** What each billing transaction does to the account's rows, and what it leaves alone. */
module BillingEffects {
  import opened Options
  import opened BillingAccounts
  import opened BillingDecisions

  predicate SameAttempt(a: Columns, b: Columns) {
    && b.attempt == a.attempt && b.attemptOrder == a.attemptOrder && b.attemptCreatedAt == a.attemptCreatedAt
    && b.session == a.session && b.sessionUrl == a.sessionUrl
  }

  predicate NoAttempt(b: Columns) {
    b.attempt.None? && b.attemptOrder.None? && b.attemptCreatedAt.None? && b.session.None? && b.sessionUrl.None?
  }

  predicate SameRows(a: Account, b: Account) { b.operations == a.operations && b.intents == a.intents }

  /** A new row for `op`; the others stay. */
  predicate Opens(a: Account, b: Account, op: nat) {
    && op in b.operations && b.operations.Keys == a.operations.Keys + {op}
    && forall o :: o in a.operations && o != op ==> b.operations[o] == a.operations[o]
  }

  /** A subscription event: Stripe's status and identifier, and its plan unless an administrator overrode it. */
  lemma SubscriptionMeaning(a: Account, version: nat, customer: Option<nat>, state: Subscription)
    ensures var b := ApplySubscription(a, version, customer, state);
            if a.cols.customer != customer || a.version != version then b == a
            else
              && b.version == a.version + 1 && SameRows(a, b) && b.cols.customer == a.cols.customer
              && (if state.stripeSubscriptionId.Some? then NoAttempt(b.cols) else SameAttempt(a.cols, b.cols))
              && b.cols.subscription.Some? && IsUpdated(a.cols.subscription, b.cols.subscription.value, state)
  {
  }

  predicate IsUpdated(before: Option<Subscription>, s: Subscription, state: Subscription) {
    && s.status == state.status && s.stripeSubscriptionId == state.stripeSubscriptionId
    && s.manualOverride == (before.Some? && before.value.manualOverride)
    && s.limits == (if before.Some? then before.value.limits else None)
    && s.plan == if before.Some? && before.value.manualOverride then before.value.plan else state.plan
  }

  /** An administrator's plan: the Stripe side of an existing subscription stays. */
  lemma UserPlanMeaning(a: Account, plan: string, limits: Option<nat>, manualOverride: bool)
    ensures var b := SetUserPlan(a, plan, limits, manualOverride);
            && b.version == a.version + 1 && SameRows(a, b) && b.cols.customer == a.cols.customer
            && SameAttempt(a.cols, b.cols) && b.cols.subscription.Some?
            && var s := b.cols.subscription.value;
               && s.plan == plan && s.limits == limits && s.manualOverride == manualOverride
               && (if a.cols.subscription.Some? then
                     s.status == a.cols.subscription.value.status
                     && s.stripeSubscriptionId == a.cols.subscription.value.stripeSubscriptionId
                   else s.status == "active" && s.stripeSubscriptionId.None?)
  {
  }

  /** A reservation is a fresh lease on a row for the order, under the account's attempt or a new one. */
  lemma ReservationMeaning(a: Account, order: Order, now: nat, op: nat, owner: nat, freshAttempt: nat)
    ensures var b := Reserve(a, order, now, op, owner, freshAttempt);
            && b.version == a.version + 1 && b.intents == a.intents && Opens(a, b, op)
            && var row := b.operations[op];
               && row.kind == CHECKOUT && row.order == Some(order) && row.complete && !row.uncertain
               && row.owner == owner && row.createdAt == now && row.leaseExpiresAt == now + CHECKOUT_OPERATION_LEASE_MS
               && row.attempt == b.cols.attempt
               && (if a.cols.attempt.Some? then b.cols == a.cols
                   else
                     && b.cols.attempt == Some(freshAttempt) && b.cols.attemptOrder == Some(order)
                     && b.cols.attemptCreatedAt == Some(now) && b.cols.session.None? && b.cols.sessionUrl.None?
                     && b.cols.customer == a.cols.customer && b.cols.subscription == a.cols.subscription)
  {
  }

  /** Refused while a cleanup is pending, or a portal visit or a checkout for another order holds a lease. */
  lemma ReservationAcceptedIff(a: Account, order: Order, now: nat)
    ensures CanReserve(a, order, now) <==>
            && (forall s :: s !in a.intents)
            && (forall op :: op in a.operations && now < a.operations[op].leaseExpiresAt ==>
                  && a.operations[op].kind == CHECKOUT
                  && (a.operations[op].order.None? || a.operations[op].order == Some(order)))
  {
    if CanReserve(a, order, now) {
      forall op | op in a.operations && now < a.operations[op].leaseExpiresAt
        ensures a.operations[op].kind == CHECKOUT
                && (a.operations[op].order.None? || a.operations[op].order == Some(order))
      {
        assert !Conflicts(a.operations[op], order, now);
      }
    }
  }

  /**
   A portal visit is a fresh lease on a row for the customer; it needs a paid, live
   subscription and no other operation.
   */
  lemma PortalMeaning(a: Account, now: nat, op: nat, owner: nat)
    ensures var b := ReservePortal(a, now, op, owner);
            && b.version == a.version + 1 && b.intents == a.intents && b.cols == a.cols && Opens(a, b, op)
            && var row := b.operations[op];
               && row.kind == PORTAL && row.attempt.None? && row.order.None? && row.customer == a.cols.customer
               && row.complete && !row.uncertain && row.owner == owner
               && row.createdAt == now && row.leaseExpiresAt == now + CHECKOUT_OPERATION_LEASE_MS
    ensures CanReservePortal(a) <==>
            && (forall o :: o !in a.operations) && a.cols.customer.Some? && a.cols.subscription.Some?
            && a.cols.subscription.value.plan != "SOLO"
            && (|| a.cols.subscription.value.status == "active" || a.cols.subscription.value.status == "trialing"
                || a.cols.subscription.value.status == "past_due")
  {
  }

  lemma PortalRenewalMeaning(a: Account, op: nat, owner: nat, now: nat)
    ensures var b := RenewPortal(a, op, owner, now);
            if Owns(a, op, owner) && a.operations[op].kind == PORTAL then
              && b.cols == a.cols && b.intents == a.intents && b.version == a.version
              && OnlyRow(a.operations, b.operations, op) && op in b.operations
              && IsRenewed(a.operations[op], b.operations[op], None, now)
            else b == a
  {
  }

  /** Cleanup forgets an intent, because its session is the row's own or is done with; the row stays. */
  lemma CleanupMeaning(a: Account, session: nat)
    ensures var b := DropIntent(a, session);
            && b.cols == a.cols && b.operations == a.operations && b.intents == a.intents - {session}
            && b.version == a.version + (if session in a.intents then 1 else 0)
    ensures CleanupOwned(a, session) == if a.cols.session == Some(session) then DropIntent(a, session) else a
  {
  }

  lemma CustomerMeaning(a: Account, snapshotVersion: nat, customer: nat)
    ensures var b := AssignCustomer(a, snapshotVersion, customer);
            && SameRows(a, b) && SameAttempt(a.cols, b.cols) && b.cols.subscription == a.cols.subscription
            && (if a.cols.customer.None? && a.version == snapshotVersion then
                  b.cols.customer == Some(customer) && b.version == a.version + 1
                else b == a)
  {
  }

  /** An operation ends for its owner only: its row goes, or is marked when the reply was ambiguous. */
  lemma EndMeaning(a: Account, op: nat, owner: nat)
    ensures var b := CompleteOperation(a, op, owner);
            if Owns(a, op, owner) then
              b == a.(operations := b.operations, version := a.version + 1) && b.operations == a.operations - {op}
            else b == a
    ensures var b := MarkUncertain(a, op, owner);
            if Owns(a, op, owner) then
              && b == a.(operations := b.operations, version := a.version + 1)
              && OnlyRow(a.operations, b.operations, op)
              && op in b.operations && b.operations[op] == a.operations[op].(uncertain := true)
            else b == a
  {
  }

  /** A returned session goes to the user row of its still current attempt, else among the intents; its row goes. */
  lemma ReturnMeaning(a: Account, op: nat, owner: nat, attempt: nat, url: Option<string>)
    ensures var (b, r) := PersistReturned(a, op, owner, attempt, url);
            && b.version == a.version + 1
            && b.operations == (if Owns(a, op, owner) then a.operations - {op} else a.operations)
            && (r == PERSISTED_OWNED <==> Owns(a, op, owner) && url.Some? && a.cols.attempt == Some(attempt))
            && (r == PERSISTED_STALE <==> !Owns(a, op, owner))
            && (if r == PERSISTED_OWNED then
                  b.cols == a.cols.(session := Some(attempt), sessionUrl := url) && b.intents == a.intents - {attempt}
                else b.cols == a.cols && b.intents == a.intents + {attempt})
  {
  }
}
