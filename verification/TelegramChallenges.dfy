/** Connection links for Telegram destinations (api/src/telegram/telegram-connections.service.ts). */
module TelegramChallenges {
  import opened Options
  import opened Sets

  const CHALLENGE_TTL_MS := 10 * 60 * 1000
  const CHALLENGES_PER_MINUTE := 6
  const PENDING_DELIVERY_LEASE_MS := 30_000
  const RECENT_WINDOW_MS := 60 * 1000

  /** `destination` is the chat with its topic; `createdAt` is set by the database. */
  datatype Challenge = Challenge(
    destination: nat, updateId: nat, createdAt: int, expiresAt: int, delivered: bool, consumed: bool)

  type Rows = map<nat, Challenge>

  datatype Claim = DUPLICATE_DELIVERED | PENDING_ACTIVE | THROTTLED | Issue(id: nat)

  /** How a connection attempt ends: connected, or with the first objection. */
  datatype Connection =
    | CONNECTED
    | LINK_INVALID
    | LINK_NOT_READY
    | LINK_USED
    | LINK_EXPIRED
    | PROJECT_NOT_FOUND
    | NOT_A_MEMBER
    | ALREADY_CONNECTED

  function ForUpdate(rows: Rows, updateId: nat): set<nat> { set id | id in rows && rows[id].updateId == updateId }

  function Recent(rows: Rows, destination: nat, since: int): set<nat> {
    set id | id in rows && rows[id].destination == destination && rows[id].createdAt >= since
  }

  function InWindow(rows: Rows, destination: nat, start: int, length: int): set<nat> {
    set id | id in rows && rows[id].destination == destination && start <= rows[id].createdAt <= start + length
  }

  /** At most six stored challenges of one destination were created in any window of that length. */
  ghost predicate Limited(rows: Rows, length: int) {
    forall destination, start :: |InWindow(rows, destination, start, length)| <= CHALLENGES_PER_MINUTE
  }

  predicate IsUsable(challenge: Challenge, now: int) {
    challenge.delivered && !challenge.consumed && now < challenge.expiresAt
  }

  /** An earlier challenge of the update whose reply was never sent, and may still be. */
  predicate IsPending(rows: Rows, updateId: nat, now: int) {
    exists id :: id in rows && rows[id].updateId == updateId && !rows[id].delivered
                 && rows[id].createdAt > now - PENDING_DELIVERY_LEASE_MS
  }

  predicate IsDelivered(rows: Rows, updateId: nat) {
    exists id :: id in rows && rows[id].updateId == updateId && rows[id].delivered
  }

  /** The challenges the limiter counts: those of other updates, from the last minute. */
  function Counted(rows: Rows, updateId: nat, destination: nat, now: int): set<nat> {
    Recent(rows - ForUpdate(rows, updateId), destination, now - RECENT_WINDOW_MS)
  }

  /** One update has one challenge. */
  predicate UpdatesUnique(rows: Rows) {
    forall a, b :: a in rows && b in rows && rows[a].updateId == rows[b].updateId ==> a == b
  }

  lemma FewerRowsStayLimited(rows: Rows, fewer: Rows, length: int)
    requires Limited(rows, length)
    requires forall id :: id in fewer ==>
               id in rows && fewer[id].destination == rows[id].destination && fewer[id].createdAt == rows[id].createdAt
    ensures Limited(fewer, length)
  {
    forall destination, start ensures |InWindow(fewer, destination, start, length)| <= CHALLENGES_PER_MINUTE {
      SubsetSize(InWindow(fewer, destination, start, length), InWindow(rows, destination, start, length));
    }
  }

  /**
   A challenge is inserted after fewer than six are counted since a minute before `now`.
   However late the database dates it, no window grows past six; if its clock may lag the
   API's by `skew`, that holds of windows shorter by as much.
   */
  lemma InsertionStaysLimited(rows: Rows, id: nat, challenge: Challenge, now: int, skew: nat)
    requires Limited(rows, RECENT_WINDOW_MS - skew) && id !in rows && now <= challenge.createdAt + skew
    requires |Recent(rows, challenge.destination, now - RECENT_WINDOW_MS)| < CHALLENGES_PER_MINUTE
    ensures Limited(rows[id := challenge], RECENT_WINDOW_MS - skew)
  {
    var length, more := RECENT_WINDOW_MS - skew, rows[id := challenge];
    forall destination, start ensures |InWindow(more, destination, start, length)| <= CHALLENGES_PER_MINUTE {
      var window := InWindow(more, destination, start, length);
      if id in window {
        var others := Recent(rows, destination, now - RECENT_WINDOW_MS);
        assert window <= others + {id};
        SubsetSize(window, others + {id});
      } else {
        assert window == InWindow(rows, destination, start, length);
      }
    }
  }

  lemma NoRowsAreLimited(length: int)
    ensures Limited(map[], length)
  {
    forall destination, start ensures |InWindow(map[], destination, start, length)| <= CHALLENGES_PER_MINUTE {
      assert InWindow(map[], destination, start, length) == {};
    }
  }

  /** An insertion the limiter allows when the database's clock lags by at most `skew`. */
  predicate Allowed(rows: Rows, id: nat, challenge: Challenge, now: int, skew: nat) {
    && id !in rows && now <= challenge.createdAt + skew
    && |Recent(rows, challenge.destination, now - RECENT_WINDOW_MS)| < CHALLENGES_PER_MINUTE
  }

  ghost predicate KeepsFullMinute(skew: nat) {
    forall rows, id, challenge, now ::
      Limited(rows, RECENT_WINDOW_MS) && Allowed(rows, id, challenge, now, skew) ==>
        Limited(rows[id := challenge], RECENT_WINDOW_MS)
  }

  /** Full minutes hold at most six challenges exactly when the database's clock never lags the API's. */
  lemma FullMinuteIffNoLag(skew: nat)
    ensures KeepsFullMinute(skew) <==> skew == 0
  {
    if skew == 0 {
      forall rows, id, challenge, now | Limited(rows, RECENT_WINDOW_MS) && Allowed(rows, id, challenge, now, skew)
        ensures Limited(rows[id := challenge], RECENT_WINDOW_MS)
      {
        InsertionStaysLimited(rows, id, challenge, now, skew);
      }
    } else {
      SeventhInAMinute(skew);
    }
  }

  function Sent(updateId: nat, createdAt: int): Challenge { Challenge(0, updateId, createdAt, createdAt, false, false) }

  function Six(): Rows { map id: nat | 0 <= id < 6 :: Sent(id, 0) }

  lemma SixAreLimited()
    ensures Limited(Six(), RECENT_WINDOW_MS)
  {
    var ids: set<nat> := {0, 1, 2, 3, 4, 5};
    forall destination, start ensures |InWindow(Six(), destination, start, RECENT_WINDOW_MS)| <= CHALLENGES_PER_MINUTE {
      SubsetSize(InWindow(Six(), destination, start, RECENT_WINDOW_MS), ids);
    }
  }

  /** A seventh challenge, counted from a millisecond after the six and dated a minute after them. */
  lemma SeventhInAMinute(skew: nat)
    requires skew > 0
    ensures Limited(Six(), RECENT_WINDOW_MS)
    ensures Allowed(Six(), 6, Sent(6, RECENT_WINDOW_MS), RECENT_WINDOW_MS + 1, skew)
    ensures !Limited(Six()[6 := Sent(6, RECENT_WINDOW_MS)], RECENT_WINDOW_MS)
  {
    SixAreLimited();
    assert Recent(Six(), 0, 1) == {};
    var window := InWindow(Six()[6 := Sent(6, RECENT_WINDOW_MS)], 0, 0, RECENT_WINDOW_MS);
    var seven: set<nat> := {0, 1, 2, 3, 4, 5, 6};
    assert seven <= window;
    SubsetSize(seven, window);
  }

  class ChallengeTable {
    /** How far the database's clock may lag behind the API's. */
    const skew: nat
    var rows: Rows
    var connected: seq<nat>
    /** Projects with the destinations they have a channel for. */
    var channels: set<(nat, nat)>

    ghost predicate Valid()
      reads this
    {
      && Limited(rows, RECENT_WINDOW_MS - skew) && UpdatesUnique(rows)
      && (forall i, j :: 0 <= i < j < |connected| ==> connected[i] != connected[j])
      && (forall id :: id in rows && id in connected ==> rows[id].consumed)
    }

    constructor (skew: nat)
      ensures Valid() && this.skew == skew && rows == map[] && connected == [] && channels == {}
    {
      this.skew := skew;
      rows, connected, channels := map[], [], {};
      new;
      NoRowsAreLimited(RECENT_WINDOW_MS - skew);
    }

    /** The transaction under the destination's lock; `now` was read before waiting for it. */
    method ClaimChallenge(
          destination: nat, updateId: nat, now: int, createdAt: int, freshId: nat)
      returns (claim: Claim)
      requires Valid() && now <= createdAt + skew && freshId !in rows && freshId !in connected
      modifies this`rows
      ensures Valid()
      ensures claim.DUPLICATE_DELIVERED? <==> IsDelivered(old(rows), updateId)
      ensures claim.PENDING_ACTIVE? <==> IsPending(old(rows), updateId, now)
      ensures claim.THROTTLED? <==>
                && !IsDelivered(old(rows), updateId) && !IsPending(old(rows), updateId, now)
                && |Counted(old(rows), updateId, destination, now)| >= CHALLENGES_PER_MINUTE
      ensures claim.Issue? ==>
                && claim.id == freshId && freshId in rows
                && rows[freshId] == Challenge(destination, updateId, createdAt, now + CHALLENGE_TTL_MS, false, false)
                && ForUpdate(rows, updateId) == {freshId}
      ensures claim.DUPLICATE_DELIVERED? || claim.PENDING_ACTIVE? ==> rows == old(rows)
      ensures forall id :: id in rows && id != freshId ==> id in old(rows) && rows[id] == old(rows)[id]
      ensures forall id :: id in old(rows) && id !in rows ==>
              old(rows)[id].updateId == updateId && !old(rows)[id].delivered
    {
      var existing := ForUpdate(rows, updateId);
      assert forall x :: x in rows && rows[x].updateId == updateId ==> x in existing;
      if existing != {} {
        var id :| id in existing;
        assert forall x :: x in rows && rows[x].updateId == updateId ==> x == id;
        if rows[id].delivered {
          return DUPLICATE_DELIVERED;
        }
        if rows[id].createdAt > now - PENDING_DELIVERY_LEASE_MS {
          return PENDING_ACTIVE;
        }
        assert existing == {id};
      }
      FewerRowsStayLimited(rows, rows - existing, RECENT_WINDOW_MS - skew);
      rows := rows - existing;
      var recent := Recent(rows, destination, now - RECENT_WINDOW_MS);
      if |recent| >= CHALLENGES_PER_MINUTE {
        return THROTTLED;
      }
      var challenge := Challenge(destination, updateId, createdAt, now + CHALLENGE_TTL_MS, false, false);
      InsertionStaysLimited(rows, freshId, challenge, now, skew);
      rows := rows[freshId := challenge];
      claim := Issue(freshId);
    }

    /** The reply was sent. */
    method MarkDelivered(id: nat) returns (ok: bool)
      requires Valid()
      modifies this`rows
      ensures Valid()
      ensures ok == (id in old(rows) && !old(rows)[id].delivered)
      ensures rows == if ok then old(rows)[id := old(rows)[id].(delivered := true)] else old(rows)
    {
      ok := id in rows && !rows[id].delivered;
      if ok {
        FewerRowsStayLimited(rows, rows[id := rows[id].(delivered := true)], RECENT_WINDOW_MS - skew);
        rows := rows[id := rows[id].(delivered := true)];
      }
    }

    /** A failed reply takes its challenge back; so does the cleanup of long-expired ones. */
    method Delete(ids: set<nat>)
      requires Valid()
      modifies this`rows
      ensures Valid() && rows == old(rows) - ids
    {
      FewerRowsStayLimited(rows, rows - ids, RECENT_WINDOW_MS - skew);
      rows := rows - ids;
    }

    /**
     A delivered, unused and unexpired link connects its destination to a project of the
     caller that has no channel for it yet; anything else leaves all as it was.
     */
    method Connect(id: nat, project: nat, known: bool, isMember: bool, now: int) returns (result: Connection)
      requires Valid()
      modifies this
      ensures Valid()
      ensures result.LINK_INVALID? <==> id !in old(rows)
      ensures result.LINK_NOT_READY? <==> id in old(rows) && !old(rows)[id].delivered
      ensures result.LINK_USED? <==> id in old(rows) && old(rows)[id].delivered && old(rows)[id].consumed
      ensures result.CONNECTED? || result.PROJECT_NOT_FOUND? || result.NOT_A_MEMBER? || result.ALREADY_CONNECTED? <==>
                id in old(rows) && IsUsable(old(rows)[id], now)
      ensures result.PROJECT_NOT_FOUND? ==> !known
      ensures result.NOT_A_MEMBER? ==> known && !isMember
      ensures result.ALREADY_CONNECTED? ==> known && isMember && (project, old(rows)[id].destination) in old(channels)
      ensures result.CONNECTED? ==>
                && known && isMember && id !in old(connected) && connected == old(connected) + [id]
                && (project, old(rows)[id].destination) !in old(channels)
                && channels == old(channels) + {(project, old(rows)[id].destination)}
                && rows == old(rows)[id := old(rows)[id].(consumed := true)]
      ensures !result.CONNECTED? ==> rows == old(rows) && connected == old(connected) && channels == old(channels)
    {
      if id !in rows {
        return LINK_INVALID;
      }
      var challenge := rows[id];
      if !challenge.delivered {
        return LINK_NOT_READY;
      }
      if challenge.consumed {
        return LINK_USED;
      }
      if challenge.expiresAt <= now {
        return LINK_EXPIRED;
      }
      if !known {
        return PROJECT_NOT_FOUND;
      }
      if !isMember {
        return NOT_A_MEMBER;
      }
      if (project, challenge.destination) in channels {
        return ALREADY_CONNECTED;
      }
      FewerRowsStayLimited(rows, rows[id := challenge.(consumed := true)], RECENT_WINDOW_MS - skew);
      rows := rows[id := challenge.(consumed := true)];
      connected := connected + [id];
      channels := channels + {(project, challenge.destination)};
      result := CONNECTED;
    }
  }
}
