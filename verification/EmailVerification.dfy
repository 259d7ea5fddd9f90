/** Email channel verification tokens (api/src/channels/email-verification.service.ts). */
module EmailVerification {
  import opened Options

  const RESEND_COOLDOWN_MS := 60_000

  /** What a resend holds between its rotation and its acknowledgement. */
  datatype Rotation = Rotation(tokenHash: nat, reservedAt: int)

  datatype VerifyOutcome = VERIFIED | EXPIRED | INVALID

  datatype RotateOutcome = Rotated(rotation: Rotation) | ALREADY_VERIFIED | COOLING_DOWN

  /** One channel's verification columns; `issued` is every token hash it was ever given. */
  class EmailChannel {
    var enabled: bool
    var verifiedAt: Option<int>
    var tokenHash: Option<nat>
    var expiresAt: Option<int>
    var sentAt: Option<int>
    ghost var issued: seq<nat>

    ghost predicate Valid()
      reads this
    {
      && (forall i, j :: 0 <= i < j < |issued| ==> issued[i] != issued[j])
      && (tokenHash.Some? ==> verifiedAt.None? && issued != [] && tokenHash.value == issued[|issued| - 1])
      && (verifiedAt.Some? ==> tokenHash.None? && expiresAt.None?)
    }

    constructor ()
      ensures Valid() && issued == [] && tokenHash.None? && verifiedAt.None? && !enabled
    {
      enabled, verifiedAt, tokenHash, expiresAt, sentAt := false, None, None, None, None;
      issued := [];
    }

    /** `rotateToken`: a fresh token replaces the previous one, at most once a minute. */
    method RotateToken(now: int, freshHash: nat, expiry: int) returns (r: RotateOutcome)
      requires Valid() && freshHash !in issued
      modifies this
      ensures Valid()
      ensures r.ALREADY_VERIFIED? <==> old(verifiedAt).Some?
      ensures r.COOLING_DOWN? <==>
                old(verifiedAt).None? && old(sentAt).Some? && now - old(sentAt).value < RESEND_COOLDOWN_MS
      ensures r.Rotated? ==>
                && r.rotation == Rotation(freshHash, now) && issued == old(issued) + [freshHash]
                && tokenHash == Some(freshHash) && expiresAt == Some(expiry) && sentAt == Some(now)
                && verifiedAt.None? && !enabled
      ensures !r.Rotated? ==>
                && tokenHash == old(tokenHash) && expiresAt == old(expiresAt) && sentAt == old(sentAt)
                && verifiedAt == old(verifiedAt) && enabled == old(enabled) && issued == old(issued)
    {
      if verifiedAt.Some? {
        return ALREADY_VERIFIED;
      }
      if sentAt.Some? && now - sentAt.value < RESEND_COOLDOWN_MS {
        return COOLING_DOWN;
      }
      enabled := false;
      tokenHash := Some(freshHash);
      expiresAt := Some(expiry);
      sentAt := Some(now);
      issued := issued + [freshHash];
      r := Rotated(Rotation(freshHash, now));
    }

    /** `resend` after its email was queued: it dates the sending of its own rotation only. */
    method AcknowledgeSent(rotation: Rotation, at: int) returns (ok: bool)
      requires Valid()
      modifies this`sentAt
      ensures Valid()
      ensures ok == (old(tokenHash) == Some(rotation.tokenHash) && old(sentAt) == Some(rotation.reservedAt))
      ensures sentAt == if ok then Some(at) else old(sentAt)
      ensures ok ==> issued != [] && rotation.tokenHash == issued[|issued| - 1]
    {
      ok := tokenHash == Some(rotation.tokenHash) && sentAt == Some(rotation.reservedAt);
      if ok {
        sentAt := Some(at);
      }
    }

    /** `resend` when the email could not be queued: it gives the cooldown of its own rotation back. */
    method ClearReservation(rotation: Rotation) returns (ok: bool)
      requires Valid()
      modifies this`sentAt
      ensures Valid()
      ensures ok == (old(tokenHash) == Some(rotation.tokenHash) && old(sentAt) == Some(rotation.reservedAt))
      ensures sentAt == if ok then None else old(sentAt)
    {
      ok := tokenHash == Some(rotation.tokenHash) && sentAt == Some(rotation.reservedAt);
      if ok {
        sentAt := None;
      }
    }

    /** `verify`: only the newest token, unexpired, and only once. */
    method Verify(hash: nat, now: int) returns (r: VerifyOutcome)
      requires Valid()
      modifies this
      ensures Valid() && issued == old(issued) && sentAt == old(sentAt)
      ensures r == VERIFIED <==>
                old(tokenHash) == Some(hash) && old(expiresAt).Some? && now < old(expiresAt).value
      ensures r == VERIFIED ==>
                && issued != [] && hash == issued[|issued| - 1] && old(verifiedAt).None?
                && enabled && verifiedAt == Some(now) && tokenHash.None? && expiresAt.None?
      ensures r == EXPIRED <==>
                old(tokenHash) == Some(hash) && (old(expiresAt).None? || old(expiresAt).value <= now)
      ensures r != VERIFIED ==>
                && enabled == old(enabled) && verifiedAt == old(verifiedAt) && tokenHash == old(tokenHash)
                && expiresAt == old(expiresAt)
    {
      if tokenHash != Some(hash) || verifiedAt.Some? {
        return INVALID;
      }
      if expiresAt.None? || expiresAt.value <= now {
        return EXPIRED;
      }
      enabled, verifiedAt, tokenHash, expiresAt := true, Some(now), None, None;
      r := VERIFIED;
    }
  }
}
