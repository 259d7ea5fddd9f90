/** What the reconciliation loop leaves of the rows it goes over. */
module BillingReconcile {
  import opened Options
  import opened BillingAccounts

  /** The session of an attempt is on the user row or among the cleanup intents. */
  predicate RecordedIn(a: Account, attempt: nat) {
    attempt in a.intents || (a.cols.attempt == Some(attempt) && a.cols.session == Some(attempt))
  }

  /** Stripe lists a session of the checkout's attempt. */
  predicate HasListedSession(row: Operation, listed: seq<SessionInfo>) {
    row.kind == CHECKOUT && FindSession(listed, row.attempt).Some?
  }

  /** An expired row that a recovery can continue: Stripe knows no session of it, and it still matches the account. */
  predicate CanGoOn(a: Account, row: Operation, listed: seq<SessionInfo>) {
    && a.cols.customer.Some? && row.complete
    && (row.kind == PORTAL ==> row.customer == a.cols.customer)
    && (row.kind == CHECKOUT ==>
          row.attempt.Some? && row.attempt == a.cols.attempt && FindSession(listed, row.attempt).None?)
  }

  function ClaimedRow(row: Operation, freshOwner: nat, now: nat): Operation {
    row.(owner := freshOwner, uncertain := false, leaseExpiresAt := now + CHECKOUT_OPERATION_LEASE_MS)
  }

  /**
   How an expired row may end: left as it was, claimed, or deleted once its session was recorded or it was
   abandoned.
   */
  predicate RowOutcome(a0: Account, p: Progress, op: nat, listed: seq<SessionInfo>, freshOwner: nat, now: nat)
    requires op in a0.operations
  {
    var row := a0.operations[op];
    && (HasListedSession(row, listed) ==>
          op !in p.account.operations && RecordedIn(p.account, row.attempt.value))
    && (op in p.account.operations ==>
          || p.account.operations[op] == row
          || (p.account.operations[op] == ClaimedRow(row, freshOwner, now)
              && (p.recovery == RecoverPortal(op, freshOwner)
                  || (row.attempt.Some?
                      && p.recovery == RecoverCheckout(op, freshOwner, row.attempt.value, row.order)))))
    && (op !in p.account.operations ==>
          || HasListedSession(row, listed)
          || now >= row.createdAt + CHECKOUT_OPERATION_ABANDON_HORIZON_MS)
  }

  /** The loop's state after the rows `done`. */
  predicate Reconciled(a0: Account, p: Progress, done: set<nat>, listed: seq<SessionInfo>, freshOwner: nat, now: nat) {
    var a := p.account;
    && a.version == a0.version && a.cols.attempt == a0.cols.attempt && a.cols.attemptOrder == a0.cols.attemptOrder
    && a.cols.customer == a0.cols.customer
    && a.cols.subscription == a0.cols.subscription
    && a.operations.Keys <= a0.operations.Keys
    && (forall op :: op in a0.operations && op !in done ==> op in a.operations && a.operations[op] == a0.operations[op])
    && (forall op :: op in a0.operations && op in done ==> RowOutcome(a0, p, op, listed, freshOwner, now))
    && (!p.changed ==> a == a0 && p.recovery == NoRecovery)
    && match p.recovery
       case NoRecovery => true
       case RecoverCheckout(op, owner, attempt, order) =>
         && op in done && op in a0.operations && op in a.operations && owner == freshOwner && a.cols.customer.Some?
         && a0.operations[op].kind == CHECKOUT && a0.operations[op].attempt == Some(attempt)
         && a0.operations[op].order == order
         && a0.operations[op].attempt == a0.cols.attempt && FindSession(listed, Some(attempt)).None?
         && a.operations[op] == ClaimedRow(a0.operations[op], freshOwner, now)
       case RecoverPortal(op, owner) =>
         && op in done && op in a0.operations && op in a.operations && owner == freshOwner && a.cols.customer.Some?
         && a0.operations[op].kind == PORTAL
         && a.operations[op] == ClaimedRow(a0.operations[op], freshOwner, now)
  }

  lemma ReconcileOneOutcome(a0: Account, p: Progress, op: nat, listed: seq<SessionInfo>, freshOwner: nat, now: nat)
    requires op in a0.operations && op in p.account.operations && p.account.operations[op] == a0.operations[op]
    ensures RowOutcome(a0, ReconcileOne(p, op, listed, freshOwner, now), op, listed, freshOwner, now)
  {
  }

  /** The other rows, the columns that name the account, and what was recorded are kept. */
  lemma ReconcileOneRest(p: Progress, op: nat, listed: seq<SessionInfo>, freshOwner: nat, now: nat)
    requires op in p.account.operations
    ensures var a, q := p.account, ReconcileOne(p, op, listed, freshOwner, now);
            && q.account.version == a.version && q.account.cols.attempt == a.cols.attempt
            && q.account.cols.attemptOrder == a.cols.attemptOrder && q.account.cols.customer == a.cols.customer
            && q.account.cols.subscription == a.cols.subscription
            && (forall x :: x in a.operations && x != op ==>
                x in q.account.operations && q.account.operations[x] == a.operations[x])
            && q.account.operations.Keys <= a.operations.Keys
            && (forall t :: RecordedIn(a, t) ==> RecordedIn(q.account, t))
            && (p.recovery != NoRecovery ==> q.recovery == p.recovery)
            && (q == p || q.changed)
  {
  }

  lemma ReconcileOneKeeps(
        a0: Account, p: Progress, op: nat, done: set<nat>, listed: seq<SessionInfo>, freshOwner: nat, now: nat)
    requires Reconciled(a0, p, done, listed, freshOwner, now) && op in a0.operations && op !in done
    ensures Reconciled(a0, ReconcileOne(p, op, listed, freshOwner, now), done + {op}, listed, freshOwner, now)
  {
    var q := ReconcileOne(p, op, listed, freshOwner, now);
    ReconcileOneOutcome(a0, p, op, listed, freshOwner, now);
    ReconcileOneRest(p, op, listed, freshOwner, now);
    forall other | other in a0.operations && other in done + {op}
      ensures RowOutcome(a0, q, other, listed, freshOwner, now)
    {
      assert other != op ==> RowOutcome(a0, p, other, listed, freshOwner, now);
    }
  }

  lemma {:induction false} ReconcileAllKeeps(
      a0: Account, p: Progress, expired: seq<nat>, done: set<nat>, listed: seq<SessionInfo>, freshOwner: nat, now: nat)
    requires Reconciled(a0, p, done, listed, freshOwner, now)
    requires forall i :: 0 <= i < |expired| ==> expired[i] in a0.operations && expired[i] !in done
    requires forall i, j :: 0 <= i < j < |expired| ==> expired[i] != expired[j]
    ensures forall i :: 0 <= i < |expired| ==> expired[i] in p.account.operations
    ensures Reconciled(a0, ReconcileAll(p, expired, listed, freshOwner, now), done + (set op | op in expired),
                       listed, freshOwner, now)
    decreases |expired|
  {
    if expired == [] {
      assert done + (set op | op in expired) == done;
    } else {
      var op, rest := expired[0], expired[1..];
      ReconcileOneKeeps(a0, p, op, done, listed, freshOwner, now);
      ReconcileAllKeeps(a0, ReconcileOne(p, op, listed, freshOwner, now), rest, done + {op}, listed, freshOwner, now);
      assert done + {op} + (set x | x in rest) == done + (set x | x in expired);
    }
  }

  /** The whole loop: unexpired rows stay, and expired ones end as `RowOutcome` says. */
  lemma ReconcileMeaning(a: Account, snap: Snapshot, expired: seq<nat>, freshOwner: nat, now: nat)
    requires ListsExpired(a, expired, now)
    requires a.cols.customer == snap.customer && a.version == snap.version
    ensures var p := ReconcileAll(Progress(a, false, NoRecovery), expired, snap.listed, freshOwner, now);
            && Reconciled(a, p, (set op | op in expired), snap.listed, freshOwner, now)
            && ReconcileOperations(a, snap, expired, freshOwner, now)
               == Some((if p.changed then Bump(p.account) else p.account, p.recovery))
  {
    ReconcileAllKeeps(a, Progress(a, false, NoRecovery), expired, {}, snap.listed, freshOwner, now);
    assert {} + (set op | op in expired) == (set op | op in expired);
  }

  /** A checkout whose session is listed ends with its session recorded, and unexpired rows stay. */
  lemma RowsEnd(a: Account, snap: Snapshot, expired: seq<nat>, freshOwner: nat, now: nat)
    requires ListsExpired(a, expired, now)
    requires a.cols.customer == snap.customer && a.version == snap.version
    ensures var b := ReconcileOperations(a, snap, expired, freshOwner, now).value.0;
            && (forall op :: op in expired && HasListedSession(a.operations[op], snap.listed) ==>
                  op !in b.operations && RecordedIn(b, a.operations[op].attempt.value))
            && (forall op :: op in a.operations && op !in expired ==>
                  op in b.operations && b.operations[op] == a.operations[op])
  {
    ReconcileMeaning(a, snap, expired, freshOwner, now);
    var p := ReconcileAll(Progress(a, false, NoRecovery), expired, snap.listed, freshOwner, now);
    var done := set op | op in expired;
    forall op | op in expired ensures op in a.operations && RowOutcome(a, p, op, snap.listed, freshOwner, now) {
      assert op in done;
    }
  }

  // ----- Which operation goes on -----

  /** The operation that a recovery continues, as its row says. */
  function RecoveryOf(row: Operation, op: nat, freshOwner: nat): Recovery {
    if row.kind == PORTAL || row.attempt.None? then RecoverPortal(op, freshOwner)
    else RecoverCheckout(op, freshOwner, row.attempt.value, row.order)
  }

  lemma CanGoOnStays(p: Progress, op: nat, other: nat, listed: seq<SessionInfo>, freshOwner: nat, now: nat)
    requires op in p.account.operations && other in p.account.operations && op != other
    ensures var q := ReconcileOne(p, op, listed, freshOwner, now);
            && other in q.account.operations && q.account.operations[other] == p.account.operations[other]
            && CanGoOn(q.account, q.account.operations[other], listed)
               == CanGoOn(p.account, p.account.operations[other], listed)
  {
  }

  /**
   Without a recovery yet, the loop goes on with the first row that can, in the order given;
   with one, it keeps it.
   */
  lemma {:induction false} FirstIsClaimed(
      p: Progress, expired: seq<nat>, listed: seq<SessionInfo>, freshOwner: nat, now: nat, k: nat)
    requires forall i :: 0 <= i < |expired| ==> expired[i] in p.account.operations
    requires forall i, j :: 0 <= i < j < |expired| ==> expired[i] != expired[j]
    requires k <= |expired|
    requires forall i :: 0 <= i < k ==> !CanGoOn(p.account, p.account.operations[expired[i]], listed)
    requires k < |expired| ==> CanGoOn(p.account, p.account.operations[expired[k]], listed)
    ensures ReconcileAll(p, expired, listed, freshOwner, now).recovery
         == if p.recovery != NoRecovery || k == |expired| then p.recovery
            else RecoveryOf(p.account.operations[expired[k]], expired[k], freshOwner)
    decreases |expired|
  {
    if expired != [] {
      var q, rest := ReconcileOne(p, expired[0], listed, freshOwner, now), expired[1..];
      forall i | 0 <= i < |rest|
        ensures rest[i] in q.account.operations
        ensures CanGoOn(q.account, q.account.operations[rest[i]], listed)
             == CanGoOn(p.account, p.account.operations[rest[i]], listed)
        ensures q.account.operations[rest[i]] == p.account.operations[rest[i]]
      {
        CanGoOnStays(p, expired[0], rest[i], listed, freshOwner, now);
      }
      if k > 0 {
        FirstIsClaimed(q, rest, listed, freshOwner, now, k - 1);
      } else {
        var first := FirstThatCan(q.account, rest, listed, 0);
        FirstIsClaimed(q, rest, listed, freshOwner, now, first);
      }
    }
  }

  lemma FirstThatCan(a: Account, ids: seq<nat>, listed: seq<SessionInfo>, from: nat) returns (k: nat)
    requires from <= |ids| && forall i :: 0 <= i < |ids| ==> ids[i] in a.operations
    requires forall i :: 0 <= i < from ==> !CanGoOn(a, a.operations[ids[i]], listed)
    ensures k <= |ids| && forall i :: 0 <= i < k ==> !CanGoOn(a, a.operations[ids[i]], listed)
    ensures k < |ids| ==> CanGoOn(a, a.operations[ids[k]], listed)
    decreases |ids| - from
  {
    k := from;
    if k < |ids| && !CanGoOn(a, a.operations[ids[k]], listed) {
      k := FirstThatCan(a, ids, listed, k + 1);
    }
  }

  /** A found session goes to the user row with its page if the account's attempt is its own, else among the intents. */
  lemma FoundIsRecorded(p: Progress, op: nat, listed: seq<SessionInfo>, freshOwner: nat, now: nat)
    requires op in p.account.operations && HasListedSession(p.account.operations[op], listed)
    ensures var a, b := p.account, ReconcileOne(p, op, listed, freshOwner, now).account;
            var found := FindSession(listed, a.operations[op].attempt).value;
            && b.operations == a.operations - {op}
            && (if a.cols.attempt == Some(found.attempt) then
                  && b.cols == a.cols.(session := Some(found.attempt), sessionUrl := found.url)
                  && b.intents == a.intents - {found.attempt}
                else b.cols == a.cols && b.intents == a.intents + {found.attempt})
  {
  }

  /** A checkout that would go on but for the account's missing customer. */
  predicate AwaitsCustomer(a: Account, row: Operation) {
    row.kind == CHECKOUT && row.complete && row.attempt.Some? && row.attempt == a.cols.attempt && a.cols.customer.None?
  }

  /** What becomes of an expired row: recorded and gone, claimed, abandoned once past the horizon, or left for later. */
  lemma RowEndsExactly(p: Progress, op: nat, listed: seq<SessionInfo>, freshOwner: nat, now: nat)
    requires op in p.account.operations
    ensures var a, row := p.account, p.account.operations[op];
            var q := ReconcileOne(p, op, listed, freshOwner, now);
            var late := row.createdAt + CHECKOUT_OPERATION_ABANDON_HORIZON_MS <= now;
            if HasListedSession(row, listed) then op !in q.account.operations && q.recovery == p.recovery
            else if CanGoOn(a, row, listed) && p.recovery == NoRecovery then
              && op in q.account.operations && q.account.operations[op] == ClaimedRow(row, freshOwner, now)
              && q.recovery == RecoveryOf(row, op, freshOwner)
            else if late && !CanGoOn(a, row, listed) && !AwaitsCustomer(a, row) then
              op !in q.account.operations && q.recovery == p.recovery && q.account.cols == a.cols
            else q == p
  {
  }

  /** A reconciliation is given up exactly if the account changed since it was read. */
  lemma StaleIsGivenUp(a: Account, snap: Snapshot, expired: seq<nat>, freshOwner: nat, now: nat)
    requires ListsExpired(a, expired, now)
    ensures ReconcileOperations(a, snap, expired, freshOwner, now).None? <==>
            a.cols.customer != snap.customer || a.version != snap.version
  {
  }

  /** An operation whose lease has run out, and that a recovery can continue. */
  predicate IsCandidate(a: Account, op: nat, listed: seq<SessionInfo>, now: nat) {
    op in a.operations && a.operations[op].leaseExpiresAt <= now && CanGoOn(a, a.operations[op], listed)
  }

  /** A reconciliation goes on with the oldest operation that can be continued, if there is one. */
  lemma OldestGoesOn(a: Account, snap: Snapshot, expired: seq<nat>, freshOwner: nat, now: nat)
    requires ListsExpired(a, expired, now) && a.cols.customer == snap.customer && a.version == snap.version
    ensures var recovery := ReconcileOperations(a, snap, expired, freshOwner, now).value.1;
            if recovery == NoRecovery then forall op :: !IsCandidate(a, op, snap.listed, now)
            else
              && IsCandidate(a, recovery.op, snap.listed, now)
              && recovery == RecoveryOf(a.operations[recovery.op], recovery.op, freshOwner)
              && forall op :: IsCandidate(a, op, snap.listed, now) ==>
                   a.operations[recovery.op].createdAt <= a.operations[op].createdAt
  {
    var k := FirstThatCan(a, expired, snap.listed, 0);
    FirstIsClaimed(Progress(a, false, NoRecovery), expired, snap.listed, freshOwner, now, k);
    forall op | IsCandidate(a, op, snap.listed, now)
      ensures k < |expired| && a.operations[expired[k]].createdAt <= a.operations[op].createdAt
    {
      var i :| 0 <= i < |expired| && expired[i] == op;
      assert k <= i;
    }
    if k < |expired| {
      assert expired[k] in expired;
    }
  }
}
