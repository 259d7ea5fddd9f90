/**
 Checkouts that nothing disturbs come to their end: a first one to its session, and a plan
 change, over the expiry of the old session, to the new plan's.
 */
module BillingCheckout {
  import opened Options
  import opened BillingAccounts
  import opened BillingDecisions
  import opened BillingProtocol
  import opened BillingInvariant
  import opened BillingOrders
  import opened BillingMisdirection

  /** The caller `c` holds its row for `order` under the attempt `t`, which is the account's and for that order. */
  ghost predicate Holds(v: World, c: nat, k: Caller, order: Order, t: nat) {
    && c in v.callers && v.callers[c] == k && OwnerOf(k).Some? && Owns(v.account, k.op, k.owner)
    && v.account.intents == {} && v.account.cols.customer.Some?
    && v.account.cols.attempt == Some(t) && v.account.cols.attemptOrder == Some(order)
  }

  lemma Starts(cfg: Config, w: World)
    ensures Continues(cfg, w, w)
  {
    assert Leads(cfg, w, [], w);
  }

  // ----- From the reservation to the listing -----

  lemma ReservesRow(cfg: Config, w: World, v: World, c: nat, order: Order) returns (u: World)
    requires Continues(cfg, w, v) && Enabled(cfg, v, ReserveCheckout(c, order)) && Harmless(v, order)
    ensures Continues(cfg, w, u) && u.sessions == v.sessions && u.now == v.now && u.requests == v.requests
    ensures c in u.callers && u.callers[c] == Reserved(v.unused, v.unused + 1, order, None)
    ensures u.account == Reserve(v.account, order, v.now, v.unused, v.unused + 1, v.unused + 2)
    ensures u.unused == v.unused + 3 && v.account.intents == {}
  {
    u := Go(cfg, w, v, ReserveCheckout(c, order));
  }

  /** A reservation whose caller has the customer it needs. */
  lemma Reserves(cfg: Config, w: World, v: World, c: nat, order: Order) returns (u: World)
    requires Continues(cfg, w, v) && Enabled(cfg, v, ReserveCheckout(c, order)) && Harmless(v, order)
    ensures Continues(cfg, w, u) && u.sessions == v.sessions && u.now == v.now && u.requests == v.requests
    ensures c in u.callers && u.callers[c] == Reserved(v.unused, v.unused + 1, order, None)
    ensures Owns(u.account, v.unused, v.unused + 1) && u.account.intents == {} && u.account.cols.customer.Some?
    ensures v.account.cols.attempt.None? ==>
              u.account.cols.attempt == Some(v.unused + 2) && u.account.cols.attemptOrder == Some(order)
              && u.account.cols.session.None?
    ensures v.account.cols.attempt.Some? ==>
              u.account.cols.(customer := None) == v.account.cols.(customer := None)
    ensures u.unused == v.unused + 4
  {
    u := ReservesRow(cfg, w, v, c, order);
    u := Go(cfg, w, u, EnsureCustomer(c));
  }

  /** It reads the account as it is, and Stripe answers with the listing. */
  lemma Lists(cfg: Config, w: World, v: World, c: nat, listed: seq<SessionInfo>) returns (u: World)
    requires Continues(cfg, w, v) && c in v.callers && v.callers[c].Reserved? && v.account.cols.customer.Some?
    requires CompleteListing(v, listed)
    ensures Continues(cfg, w, u) && u == v.(callers := u.callers) && c in u.callers
    ensures var k := v.callers[c];
            u.callers[c] == Listed(k.op, k.owner, k.order, k.expiring,
                                   SnapshotNow(v).(listed := listed, listedAt := v.now))
  {
    u := Go(cfg, w, v, TakeSnapshot(c));
    u := Go(cfg, w, u, ListSessions(c, false, listed));
  }

  // ----- From the decision to the session -----

  /** Nothing is listed for the attempt, and nothing open is on the row: its session is created. */
  lemma Decides(cfg: Config, w: World, v: World, c: nat, t: nat) returns (u: World)
    requires Continues(cfg, w, v) && c in v.callers && v.callers[c].Listed?
    requires var k := v.callers[c];
             && Holds(v, c, k, k.order, t) && IsCurrent(v.account, k.snap) && !k.snap.subscribed
             && !HasSession(k.snap.listed, Some(t)) && v.account.cols.session != Some(t)
             && (v.account.cols.session.None? || IsListedAs(k.snap.listed, v.account.cols.session, EXPIRED))
    ensures var k := v.callers[c];
            && Continues(cfg, w, u) && u.sessions == v.sessions && u.now == v.now
            && Holds(u, c, Sending(k.op, k.owner, t, Some(k.order), v.now), k.order, t)
  {
    var k := v.callers[c];
    u := Go(cfg, w, v, CoordinateTx(c));
    assert Decide(v.account.cols, k.order, k.snap, v.unused, v.now) == (CreateSession(t), v.account.cols);
  }

  /** The create succeeds. */
  lemma Creates(cfg: Config, w: World, v: World, c: nat, k: Caller, order: Order, t: nat) returns (u: World)
    requires Continues(cfg, w, v) && Holds(v, c, k, order, t) && k.Sending? && t !in v.sessions
    requires k.attempt == t && k.plan == Some(order) && k.fencedAt == v.now
    ensures Continues(cfg, w, u) && u.account == v.account && u.sessions.Keys == v.sessions.Keys + {t}
    ensures u.sessions[t].origin.order == Some(order) && RequestOf(k) !in u.requests
    ensures c in u.callers && u.callers[c] == Waiting(k.op, k.owner, t, Some(order), v.now)
  {
    u := Go(cfg, w, v, Send(c));
    u := Go(cfg, w, u, ExecuteCreate(RequestOf(k)));
  }

  /** The session ends up on the user row, and the operation is over. */
  lemma Records(cfg: Config, w: World, v: World, c: nat, order: Order, t: nat) returns (u: World)
    requires Continues(cfg, w, v) && c in v.callers && v.callers[c].Waiting? && v.callers[c].attempt == t
    requires t in v.sessions && RequestOf(v.callers[c]) !in v.requests
    requires Owns(v.account, v.callers[c].op, v.callers[c].owner) && v.account.cols.attempt == Some(t)
    ensures Continues(cfg, w, u) && u.sessions == v.sessions
    ensures u.account.cols == v.account.cols.(session := Some(t), sessionUrl := Some("url"))
    ensures u.account.operations == v.account.operations - {v.callers[c].op} && c !in u.callers
  {
    u := Go(cfg, w, v, CreateSucceeds(c));
    u := Go(cfg, w, u, PersistTx(c, Some("url")));
    u := Go(cfg, w, u, FinishTx(c));
  }

  /**
   The account's attempt is for the order, its session exists for that order, and the user
   row sends the user to it.
   */
  ghost predicate HasSessionFor(v: World, order: Order, t: nat) {
    && v.account.cols.attempt == Some(t) && v.account.cols.attemptOrder == Some(order)
    && v.account.cols.session == Some(t) && v.account.cols.sessionUrl.Some?
    && t in v.sessions && v.sessions[t].origin.order == Some(order)
  }

  lemma Completes(cfg: Config, w: World, v: World, c: nat, t: nat) returns (u: World)
    requires Continues(cfg, w, v) && c in v.callers && v.callers[c].Listed? && t !in v.sessions
    requires var k := v.callers[c];
             && Holds(v, c, k, k.order, t) && IsCurrent(v.account, k.snap) && !k.snap.subscribed
             && !HasSession(k.snap.listed, Some(t)) && v.account.cols.session != Some(t)
             && (v.account.cols.session.None? || IsListedAs(k.snap.listed, v.account.cols.session, EXPIRED))
    ensures Continues(cfg, w, u) && HasSessionFor(u, v.callers[c].order, t)
    ensures v.callers[c].op !in u.account.operations && c !in u.callers
  {
    var k := v.callers[c];
    u := Decides(cfg, w, v, c, t);
    var sending := u.callers[c];
    u := Creates(cfg, w, u, c, sending, k.order, t);
    u := Records(cfg, w, u, c, k.order, t);
  }

  /** The listing leaves out what Stripe does not have. */
  lemma NotListed(listed: seq<SessionInfo>, t: nat)
    requires forall s :: s in listed ==> s.attempt != t
    ensures !HasSession(listed, Some(t))
  {
  }

  // ----- The two theorems -----

  /**
   A first checkout, left alone and answered, comes to a session of its order on the user
   row, and leaves no operation behind.
   */
  lemma FirstCheckoutSucceeds(cfg: Config, w: World, c: nat, order: Order) returns (u: World)
    requires Enabled(cfg, w, ReserveCheckout(c, order)) && w.account.cols.attempt.None? && w.unused + 2 !in w.sessions
    ensures Continues(cfg, w, u) && HasSessionFor(u, order, w.unused + 2)
    ensures w.unused !in u.account.operations && c !in u.callers
  {
    Starts(cfg, w);
    u := Reserves(cfg, w, w, c, order);
    var listed := OpenListing(u.sessions.Keys);
    OpenListingIsComplete(u);
    OpenListingHolds(u.sessions.Keys);
    NotListed(listed, w.unused + 2);
    u := Lists(cfg, w, u, c, listed);
    u := Completes(cfg, w, u, c, w.unused + 2);
  }

  /** The listing once the session of `t` has expired. */
  function WithExpired(listed: seq<SessionInfo>, t: nat): (r: seq<SessionInfo>)
    ensures |r| == |listed|
    ensures forall i :: 0 <= i < |r| ==>
              r[i] == if listed[i].attempt == t then listed[i].(status := EXPIRED) else listed[i]
  {
    seq(|listed|, i requires 0 <= i < |listed| =>
      if listed[i].attempt == t then listed[i].(status := EXPIRED) else listed[i])
  }

  lemma ExpiredListingIsComplete(v: World, listed: seq<SessionInfo>, t: nat)
    requires CompleteListing(v, listed)
    ensures CompleteListing(v, WithExpired(listed, t))
  {
    var expired := WithExpired(listed, t);
    forall a ensures a in v.sessions <==> exists i :: 0 <= i < |expired| && expired[i].attempt == a {
      if a in v.sessions {
        var i :| 0 <= i < |listed| && listed[i].attempt == a;
        assert expired[i].attempt == a;
      }
    }
  }

  lemma ListsAs(listed: seq<SessionInfo>, t: nat, status: SessionStatus)
    requires exists s :: s in listed && s.attempt == t
    requires forall s :: s in listed && s.attempt == t ==> s.status == status
    ensures IsListedAs(listed, Some(t), status)
  {
    var found := FindSession(listed, Some(t));
    assert found.Some? && found.value in listed;
  }

  /** The open session of another order is to be expired first, for a new attempt. */
  lemma DecidesToExpire(cfg: Config, w: World, v: World, c: nat, t: nat) returns (u: World)
    requires Continues(cfg, w, v) && c in v.callers && v.callers[c].Listed? && v.callers[c].expiring.None?
    requires var k := v.callers[c];
             && Owns(v.account, k.op, k.owner) && v.account.intents == {} && v.account.cols.customer.Some?
             && IsCurrent(v.account, k.snap) && !k.snap.subscribed && v.account.cols.attempt == Some(t)
             && Replaces(v.account.cols, k.order, k.snap, v.now) && IsListedAs(k.snap.listed, Some(t), OPEN)
             && t != v.unused
    ensures var k := v.callers[c];
            && Continues(cfg, w, u) && u.sessions == v.sessions && u.account.cols.session == Some(t)
            && Holds(u, c, Reserved(k.op, k.owner, k.order, Some(v.unused)), k.order, v.unused)
  {
    var k := v.callers[c];
    u := Go(cfg, w, v, CoordinateTx(c));
    assert Decide(v.account.cols, k.order, k.snap, v.unused, v.now)
        == (ExpireSession(v.unused, t), NewAttempt(v.account.cols, v.unused, k.order, v.now, Some(t)));
  }

  lemma ShowsOpen(v: World, t: nat)
    requires t in v.sessions
    ensures CompleteListing(v, OpenListing(v.sessions.Keys)) && IsListedAs(OpenListing(v.sessions.Keys), Some(t), OPEN)
  {
    OpenListingIsComplete(v);
    OpenListingHolds(v.sessions.Keys);
    assert OpenSession(t) in OpenListing(v.sessions.Keys);
    ListsAs(OpenListing(v.sessions.Keys), t, OPEN);
  }

  lemma ShowsExpired(v: World, t: nat, other: nat)
    requires t in v.sessions && other !in v.sessions
    ensures var expired := WithExpired(OpenListing(v.sessions.Keys), t);
            CompleteListing(v, expired) && IsListedAs(expired, Some(t), EXPIRED) && !HasSession(expired, Some(other))
  {
    var expired := WithExpired(OpenListing(v.sessions.Keys), t);
    OpenListingIsComplete(v);
    ExpiredListingIsComplete(v, OpenListing(v.sessions.Keys), t);
    CompleteShows(v, expired, t);
    ListsAs(expired, t, EXPIRED);
    NotListed(expired, other);
  }

  lemma CompleteShows(v: World, listed: seq<SessionInfo>, t: nat)
    requires CompleteListing(v, listed) && t in v.sessions
    ensures exists s :: s in listed && s.attempt == t
    ensures forall s :: s in listed ==> s.attempt in v.sessions
  {
    var i :| 0 <= i < |listed| && listed[i].attempt == t;
    assert listed[i] in listed;
  }

  /** The open session is to be expired for a new attempt, ... */
  lemma PlanChangeExpires(cfg: Config, w: World, c: nat, order: Order, t: nat) returns (u: World)
    requires Enabled(cfg, w, ReserveCheckout(c, order)) && w.account.cols.attempt == Some(t) && t in w.sessions
    requires w.account.cols.session == Some(t) && !Matches(w.account.cols, order) && !OldEnough(w.account.cols, w.now)
    requires t != w.unused + 4
    ensures Continues(cfg, w, u) && u.sessions == w.sessions && u.account.cols.session == Some(t)
    ensures Holds(u, c, Reserved(w.unused, w.unused + 1, order, Some(w.unused + 4)), order, w.unused + 4)
  {
    Starts(cfg, w);
    u := Reserves(cfg, w, w, c, order);
    ShowsOpen(u, t);
    u := Lists(cfg, w, u, c, OpenListing(u.sessions.Keys));
    u := DecidesToExpire(cfg, w, u, c, t);
  }

  /** ... and once it is, the new attempt's is created. */
  lemma ExpiryCreates(cfg: Config, w: World, v: World, c: nat, order: Order, t: nat, more: nat) returns (u: World)
    requires Continues(cfg, w, v) && t in v.sessions && more !in v.sessions && v.account.cols.session == Some(t)
    requires c in v.callers && v.callers[c].Reserved? && Holds(v, c, v.callers[c], order, more)
    requires v.callers[c].order == order
    ensures Continues(cfg, w, u) && HasSessionFor(u, order, more)
    ensures v.callers[c].op !in u.account.operations && c !in u.callers
  {
    ShowsExpired(v, t, more);
    u := Lists(cfg, w, v, c, WithExpired(OpenListing(v.sessions.Keys), t));
    u := Completes(cfg, w, u, c, more);
  }

  /**
   A checkout for another order than the account's open session, left alone and answered,
   has that session expired and comes to a session of its own order on the user row.
   */
  lemma PlanChangeSucceeds(cfg: Config, w: World, c: nat, order: Order, t: nat) returns (u: World)
    requires Enabled(cfg, w, ReserveCheckout(c, order)) && w.account.cols.attempt == Some(t) && t in w.sessions
    requires w.account.cols.session == Some(t) && !Matches(w.account.cols, order) && !OldEnough(w.account.cols, w.now)
    requires w.unused + 4 !in w.sessions
    ensures Continues(cfg, w, u) && HasSessionFor(u, order, w.unused + 4)
    ensures w.unused !in u.account.operations && c !in u.callers
  {
    u := PlanChangeExpires(cfg, w, c, order, t);
    u := ExpiryCreates(cfg, w, u, c, order, t, w.unused + 4);
  }

  // ----- Other ways a checkout goes on -----

  /**
   How a caller goes on after a round: it reads again, gives up, hands out, opens the portal
   or sends a create. It asks for one expiry; when a second one comes up it gives up if that
   is for the same attempt, and otherwise creates that attempt's session at once.
   */
  lemma GoesOnAfter(cfg: Config, w: World, c: nat)
    requires Enabled(cfg, w, CoordinateTx(c))
    ensures var k := w.callers[c];
            var action := Coordinate(w.account, k.op, k.owner, k.order, k.snap, w.unused, w.now).1;
            var w' := Apply(cfg, w, CoordinateTx(c));
            && c in w'.callers
            && var k' := w'.callers[c];
               && OwnerOf(k') == Some(k.owner) && k'.op == k.op
               && (action == RetryStale <==> k'.Reserved? && k'.expiring == k.expiring && !action.ExpireSession?)
               && (action == RefuseCheckout || action == ReuseSession ==> k'.Finishing?)
               && (action == OpenPortal <==> k'.OpeningPortal?)
               && (action.CreateSession? ==> k' == Sending(k.op, k.owner, action.attempt, Some(k.order), w.now))
               && (action.ExpireSession? && k.expiring.None? ==>
                     k' == Reserved(k.op, k.owner, k.order, Some(action.attempt)))
               && (action.ExpireSession? && k.expiring == Some(action.attempt) ==> k'.Finishing?)
               && (action.ExpireSession? && k.expiring.Some? && k.expiring != Some(action.attempt) ==>
                     k' == Sending(k.op, k.owner, action.attempt, Some(k.order), w.now))
  {
  }

  /** A user who turns out to be subscribed is sent to the portal, and the attempt is over. */
  lemma SubscribedGoesToPortal(cfg: Config, w: World, v: World, c: nat, listed: seq<SessionInfo>) returns (u: World)
    requires Continues(cfg, w, v) && c in v.callers && v.callers[c].Reserved? && v.account.cols.customer.Some?
    requires Owns(v.account, v.callers[c].op, v.callers[c].owner) && v.account.intents == {}
    requires CompleteListing(v, listed)
    ensures Continues(cfg, w, u) && c in u.callers && u.callers[c].OpeningPortal?
    ensures u.account.cols.attempt.None? && u.account.cols.session.None?
  {
    u := Go(cfg, w, v, TakeSnapshot(c));
    u := Go(cfg, w, u, ListSessions(c, true, listed));
    u := Go(cfg, w, u, CoordinateTx(c));
  }
}
