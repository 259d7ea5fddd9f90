/** What the decision of `coordinate` guarantees about attempts and sessions. */
module BillingDecisions {
  import opened Options
  import opened BillingAccounts

  predicate OldEnough(cols: Columns, now: nat) {
    cols.attemptCreatedAt.Some? && now >= cols.attemptCreatedAt.value + STRIPE_IDEMPOTENCY_RETENTION_MS
  }

  predicate ListedAs(snap: Snapshot, attempt: nat, status: SessionStatus) {
    exists s :: s in snap.listed && s.attempt == attempt && s.status == status
  }

  /**
   A session is created, or its open predecessor expired, only for an attempt that now stands for the
   order asked for.
   */
  lemma CreatesForTheOrder(cols: Columns, order: Order, snap: Snapshot, freshAttempt: nat, now: nat)
    ensures var (action, next) := Decide(cols, order, snap, freshAttempt, now);
            action.CreateSession? || action.ExpireSession? ==>
              && !snap.subscribed && next.attempt == Some(action.attempt) && next.attemptOrder == Some(order)
              && (action.attempt == freshAttempt || next == cols)
  {
  }

  /**
   An attempt is given up only for a subscription, after Stripe forgot its key, or while its open session is
   expired.
   */
  lemma AttemptsAreNotAbandoned(cols: Columns, order: Order, snap: Snapshot, freshAttempt: nat, now: nat)
    ensures var (action, next) := Decide(cols, order, snap, freshAttempt, now);
            cols.attempt.Some? && next.attempt != cols.attempt ==>
              || snap.subscribed
              || OldEnough(cols, now)
              || (action.ExpireSession? && ListedAs(snap, action.session, OPEN) && next.session == Some(action.session))
  {
  }

  /** A reused session is open and belongs to the attempt, whose order is the one asked for. */
  lemma ReusesTheOpenSession(cols: Columns, order: Order, snap: Snapshot, freshAttempt: nat, now: nat)
    ensures var (action, next) := Decide(cols, order, snap, freshAttempt, now);
            action.ReuseSession? ==>
              && cols.attempt.Some? && ListedAs(snap, cols.attempt.value, OPEN) && cols.attemptOrder == Some(order)
              && next.attempt == cols.attempt && next.session == cols.attempt && next.sessionUrl.Some?
  {
  }

  /** A refused checkout keeps every column, and none is refused once Stripe has forgotten the attempt. */
  lemma RefusalsAreTemporary(cols: Columns, order: Order, snap: Snapshot, freshAttempt: nat, now: nat)
    ensures var (action, next) := Decide(cols, order, snap, freshAttempt, now);
            action.RefuseCheckout? ==> next == cols && !OldEnough(cols, now) && !snap.subscribed
  {
  }

  // ----- When each decision is taken -----

  predicate Matches(cols: Columns, order: Order) { cols.attemptOrder == Some(order) }

  /** Stripe lists the session of `t`, with that status. */
  predicate IsListedAs(listed: seq<SessionInfo>, t: Option<nat>, status: SessionStatus) {
    FindSession(listed, t).Some? && FindSession(listed, t).value.status == status
  }

  predicate HasSession(listed: seq<SessionInfo>, t: Option<nat>) { FindSession(listed, t).Some? }

  /** The attempt is for the order, and its own session is open and has a page to go to. */
  predicate CanReuse(cols: Columns, order: Order, snap: Snapshot) {
    && !snap.subscribed && Matches(cols, order)
    && IsListedAs(snap.listed, cols.attempt, OPEN) && FindSession(snap.listed, cols.attempt).value.url.Some?
  }

  /** The session Stripe knows of the attempt, or else the one on the user row. */
  function KnownSession(cols: Columns, listed: seq<SessionInfo>): Option<nat> {
    if HasSession(listed, cols.attempt) then cols.attempt else cols.session
  }

  /** The row's session is the attempt's own, and Stripe lists it. */
  predicate HasOwnSession(cols: Columns, listed: seq<SessionInfo>) {
    HasSession(listed, cols.session) && cols.session == cols.attempt
  }

  /** A checkout for another order, within the retention, without an open session to expire first, ... */
  predicate MustWait(cols: Columns, order: Order, snap: Snapshot, now: nat) {
    && !snap.subscribed && !OldEnough(cols, now)
    && if Matches(cols, order) then !CanReuse(cols, order, snap) && HasOwnSession(cols, snap.listed)
       else !IsListedAs(snap.listed, KnownSession(cols, snap.listed), OPEN)
  }

  /** An open session for another order, replaced by a new attempt. */
  predicate Replaces(cols: Columns, order: Order, snap: Snapshot, now: nat) {
    && !snap.subscribed && !Matches(cols, order) && !OldEnough(cols, now)
    && IsListedAs(snap.listed, KnownSession(cols, snap.listed), OPEN)
  }

  /**
   The attempt is the order's, its session is not known yet, and the row names an earlier
   attempt's session or none.
   */
  predicate AwaitsOwnSession(cols: Columns, order: Order, snap: Snapshot) {
    && !snap.subscribed && Matches(cols, order) && !CanReuse(cols, order, snap)
    && cols.attempt.Some? && !HasOwnSession(cols, snap.listed)
  }

  predicate CreatesForAttempt(cols: Columns, order: Order, snap: Snapshot, now: nat) {
    && AwaitsOwnSession(cols, order, snap) && !IsListedAs(snap.listed, cols.session, OPEN)
    && (IsListedAs(snap.listed, cols.session, COMPLETE) ==> !OldEnough(cols, now))
  }

  /** There is no attempt of the order, or its idempotency key is no longer remembered. */
  predicate CreatesAnew(cols: Columns, order: Order, snap: Snapshot, now: nat) {
    && !snap.subscribed && !CanReuse(cols, order, snap)
    && if Matches(cols, order) then
         || cols.attempt.None?
         || (OldEnough(cols, now)
             && (HasOwnSession(cols, snap.listed) || IsListedAs(snap.listed, cols.session, COMPLETE)))
       else OldEnough(cols, now)
  }

  /** Each decision is taken exactly on its condition. */
  lemma DecidesExactlyWhen(cols: Columns, order: Order, snap: Snapshot, freshAttempt: nat, now: nat)
    requires cols.attempt != Some(freshAttempt)
    ensures var (action, next) := Decide(cols, order, snap, freshAttempt, now);
            && (action == OpenPortal <==> snap.subscribed)
            && (action == ReuseSession <==> CanReuse(cols, order, snap))
            && (action == RefuseCheckout <==> MustWait(cols, order, snap, now))
            && (action.CreateSession? && Some(action.attempt) == cols.attempt <==>
                CreatesForAttempt(cols, order, snap, now))
            && (action == CreateSession(freshAttempt) <==> CreatesAnew(cols, order, snap, now))
            && (action.ExpireSession? && action.attempt == freshAttempt <==> Replaces(cols, order, snap, now))
            && (action.ExpireSession? && Some(action.attempt) == cols.attempt <==>
                AwaitsOwnSession(cols, order, snap) && IsListedAs(snap.listed, cols.session, OPEN))
  {
  }

  /** What each decision leaves in the columns: nothing, an ended attempt, a recorded session, or a new attempt. */
  lemma DecidedColumns(cols: Columns, order: Order, snap: Snapshot, freshAttempt: nat, now: nat)
    requires cols.attempt != Some(freshAttempt)
    ensures var (action, next) := Decide(cols, order, snap, freshAttempt, now);
            && next.customer == cols.customer && next.subscription == cols.subscription
            && (action == OpenPortal ==>
                  next.attempt.None? && next.attemptOrder.None? && next.attemptCreatedAt.None?
                  && next.session.None? && next.sessionUrl.None?)
            && (action == ReuseSession ==>
                  && next.attempt == cols.attempt && next.attemptOrder == cols.attemptOrder
                  && next.attemptCreatedAt == cols.attemptCreatedAt && next.session == cols.attempt
                  && next.sessionUrl == FindSession(snap.listed, cols.attempt).value.url)
            && (action == CreateSession(freshAttempt) || (action.ExpireSession? && action.attempt == freshAttempt) ==>
                  && next.attempt == Some(freshAttempt) && next.attemptOrder == Some(order)
                  && next.attemptCreatedAt == Some(now) && next.sessionUrl.None?
                  && next.session == (if action.ExpireSession? then Some(action.session) else None))
            && (action == RefuseCheckout ==> next == cols)
            && ((action.CreateSession? || action.ExpireSession?) && action.attempt != freshAttempt ==> next == cols)
            && (action.ExpireSession? ==>
                  Some(action.session)
                  == if action.attempt == freshAttempt then KnownSession(cols, snap.listed) else cols.session)
  {
  }

  /** The account is as it was read and nothing is being cleaned up. */
  predicate IsCurrent(a: Account, snap: Snapshot) { a.cols.customer == snap.customer && a.version == snap.version }

  /** The caller's row after its fence was renewed for the attempt `t`, if one is named. */
  predicate IsRenewed(row: Operation, row': Operation, t: Option<nat>, now: nat) {
    row' == row.(attempt := if t.Some? then t else row.attempt, uncertain := false,
                 leaseExpiresAt := now + CHECKOUT_OPERATION_LEASE_MS)
  }

  /** Only the row `op` differs. */
  predicate OnlyRow(before: map<nat, Operation>, after: map<nat, Operation>, op: nat) {
    after.Keys == before.Keys && forall o :: o in before && o != op ==> after[o] == before[o]
  }

  /**
   A round of coordination: a changed account is read again, a pending cleanup or a decision
   to wait refuses, a lost row is read again, and none of these writes anything. Otherwise
   the decision's columns are written, the row is renewed for the decision's attempt, and the
   version grows exactly if a column changed, or a session or portal is handed out.
   */
  lemma CoordinateMeaning(a: Account, op: nat, owner: nat, order: Order, snap: Snapshot, freshAttempt: nat, now: nat)
    requires a.cols.attempt != Some(freshAttempt)
    ensures var (b, action) := Coordinate(a, op, owner, order, snap, freshAttempt, now);
            var refused := a.intents != {} || MustWait(a.cols, order, snap, now);
            && (action == RetryStale <==> !IsCurrent(a, snap) || (!refused && !Owns(a, op, owner)))
            && (action == RefuseCheckout <==> IsCurrent(a, snap) && refused)
            && (action == RetryStale || action == RefuseCheckout ==> b == a)
            && (action != RetryStale && action != RefuseCheckout ==>
                  && (action, b.cols) == Decide(a.cols, order, snap, freshAttempt, now)
                  && Owns(a, op, owner) && b.intents == {}
                  && OnlyRow(a.operations, b.operations, op) && op in b.operations
                  && IsRenewed(a.operations[op], b.operations[op], AttemptOf(a.cols, action), now)
                  && b.version
                     == if b.cols != a.cols || action == ReuseSession || action == OpenPortal then a.version + 1
                        else a.version)
  {
  }

  /** The action of a round, for an account that was read as it is and a caller that holds its row. */
  predicate Chooses(a: Account, order: Order, snap: Snapshot, freshAttempt: nat, now: nat, action: Action) {
    && (action.RefuseCheckout? <==> a.intents != {} || MustWait(a.cols, order, snap, now))
    && (!action.RefuseCheckout? ==>
          && (action.OpenPortal? <==> snap.subscribed)
          && (action.ReuseSession? <==> CanReuse(a.cols, order, snap))
          && (action == CreateSession(freshAttempt) <==> CreatesAnew(a.cols, order, snap, now))
          && (action.CreateSession? && action.attempt != freshAttempt <==> CreatesForAttempt(a.cols, order, snap, now))
          && (action.ExpireSession? && action.attempt == freshAttempt <==> Replaces(a.cols, order, snap, now))
          && (action.ExpireSession? && action.attempt != freshAttempt <==>
              AwaitsOwnSession(a.cols, order, snap) && IsListedAs(snap.listed, a.cols.session, OPEN)))
  }

  lemma CoordinateChooses(a: Account, op: nat, owner: nat, order: Order, snap: Snapshot, freshAttempt: nat, now: nat)
    requires a.cols.attempt != Some(freshAttempt) && IsCurrent(a, snap) && Owns(a, op, owner)
    ensures Chooses(a, order, snap, freshAttempt, now, Coordinate(a, op, owner, order, snap, freshAttempt, now).1)
  {
    DecidesExactlyWhen(a.cols, order, snap, freshAttempt, now);
  }

  /** The attempt a decision is about. */
  function AttemptOf(cols: Columns, action: Action): Option<nat> {
    match action
    case CreateSession(t) => Some(t)
    case ExpireSession(t, _) => Some(t)
    case ReuseSession => cols.attempt
    case _ => None
  }

  /** After a decision to expire `s` for the attempt `t`, the row and the account await the session of `t`. */
  lemma ExpiryLeaves(a: Account, op: nat, owner: nat, order: Order, snap: Snapshot, freshAttempt: nat, now: nat)
    requires a.cols.attempt != Some(freshAttempt)
    ensures var (b, action) := Coordinate(a, op, owner, order, snap, freshAttempt, now);
            action.ExpireSession? ==>
              && b.cols.attempt == Some(action.attempt) && Matches(b.cols, order)
              && b.cols.session == Some(action.session)
              && b.intents == {} && Owns(b, op, owner)
  {
  }

  lemma AwaitingDecision(cols: Columns, order: Order, snap: Snapshot, freshAttempt: nat, now: nat, t: nat, s: nat)
    requires cols.attempt == Some(t) && cols.session == Some(s) && Matches(cols, order) && !snap.subscribed
    requires !HasSession(snap.listed, Some(t))
    ensures IsListedAs(snap.listed, Some(s), EXPIRED) ==>
              Decide(cols, order, snap, freshAttempt, now) == (CreateSession(t), cols)
    ensures IsListedAs(snap.listed, Some(s), OPEN) ==>
              Decide(cols, order, snap, freshAttempt, now) == (ExpireSession(t, s), cols)
  {
  }

  /**
   A plan change takes two rounds: once the session to expire is listed as expired, and the
   new attempt has none, coordinating again creates the new attempt's session. While it is
   still listed as open, the same session is to be expired again for the same attempt.
   */
  lemma SecondRound(
        a: Account, op: nat, owner: nat, order: Order, snap: Snapshot, freshAttempt: nat, now: nat,
        again: Snapshot, nextFresh: nat, later: nat)
    requires a.cols.attempt != Some(freshAttempt)
    requires var (b, action) := Coordinate(a, op, owner, order, snap, freshAttempt, now);
             && action.ExpireSession? && IsCurrent(b, again) && !again.subscribed
             && !HasSession(again.listed, Some(action.attempt))
    ensures var (b, action) := Coordinate(a, op, owner, order, snap, freshAttempt, now);
            var (b', second) := Coordinate(b, op, owner, order, again, nextFresh, later);
            && (IsListedAs(again.listed, Some(action.session), EXPIRED) ==>
                  && second == CreateSession(action.attempt) && b'.cols == b.cols
                  && Owns(b', op, owner) && b'.operations[op].attempt == Some(action.attempt))
            && (IsListedAs(again.listed, Some(action.session), OPEN) ==> second == action)
  {
    var (b, action) := Coordinate(a, op, owner, order, snap, freshAttempt, now);
    ExpiryLeaves(a, op, owner, order, snap, freshAttempt, now);
    AwaitingDecision(b.cols, order, again, nextFresh, later, action.attempt, action.session);
  }
}
