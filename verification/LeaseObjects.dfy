/**
 The objects of worker/src/lease.ts: a store entry and a lease instance whose handlers
 update its fields, each tied to the step function the protocol proofs are about.
 */
module LeaseObjects {
  import opened Options
  import opened LeaseProtocol

  class LeaseStore {
    var entry: Entry

    constructor ()
      ensures entry == Free
    {
      entry := Free;
    }

    method SetIfAbsent(token: Token, now: nat, ttl: nat) returns (granted: bool)
      modifies this
      ensures (entry, granted) == StoreSet(old(entry), token, now, ttl)
      ensures granted <==> old(entry) == Free
      ensures entry == if granted then Held(token, now + ttl) else old(entry)
    {
      granted := entry.Free?;
      if granted {
        entry := Held(token, now + ttl);
      }
    }

    method RenewIfOwner(token: Token, now: nat, ttl: nat) returns (renewed: bool)
      modifies this
      ensures (entry, renewed) == StoreRenew(old(entry), token, now, ttl)
      ensures renewed <==> old(entry).Held? && old(entry).token == token
      ensures entry == if renewed then Held(token, now + ttl) else old(entry)
    {
      renewed := false;
      if entry.Held? && entry.token == token {
        entry := Held(token, now + ttl);
        renewed := true;
      }
    }

    method ReleaseIfOwner(token: Token) returns (released: bool)
      modifies this
      ensures (entry, released) == StoreRelease(old(entry), token)
      ensures released <==> old(entry).Held? && old(entry).token == token
      ensures entry == if released then Free else old(entry)
    {
      released := false;
      if entry.Held? && entry.token == token {
        entry := Free;
        released := true;
      }
    }
  }

  class RedisLease {
    const ttlMs: nat
    var phase: Phase
    var candidate: Token
    var token: Option<Token>
    var renews: bool
    var renewalTimer: Option<nat>
    var deadlineTimer: Option<nat>
    var activeRenewal: Option<nat>
    var serial: nat
    var aborted: bool
    var cancelled: bool
    var callbackFailed: bool
    var ownershipError: bool
    var renewalTimedOut: bool
    var stopRequested: bool
    var outcome: Outcome

    /** At most one renewal is waited for or in flight, and a lost lease has neither. */
    ghost predicate Valid()
      reads this
    {
      && (activeRenewal.Some? <==> deadlineTimer.Some?)
      && !(renewalTimer.Some? && activeRenewal.Some?)
      && (ownershipError ==> aborted && renewalTimer.None? && activeRenewal.None?)
      && (stopRequested ==> renewalTimer.None?)
    }

    ghost function View(): Client
      reads this
    {
      var timer :=
        if renewalTimer.Some? then Waiting(renewalTimer.value)
        else if activeRenewal.Some? && deadlineTimer.Some? then Renewing(activeRenewal.value, deadlineTimer.value)
        else Off;
      Client(phase, candidate, token, renews, timer, serial, aborted, cancelled, callbackFailed, ownershipError,
             renewalTimedOut, stopRequested, outcome)
    }

    constructor (ttlMs: nat)
      requires ttlMs > 0
      ensures Valid() && View() == IDLE_CLIENT && this.ttlMs == ttlMs
    {
      this.ttlMs := ttlMs;
      phase, candidate, token, renews := Idle, 0, None, false;
      renewalTimer, deadlineTimer, activeRenewal, serial := None, None, None, 0;
      aborted, cancelled, callbackFailed, ownershipError := false, false, false, false;
      renewalTimedOut, stopRequested, outcome := false, false, NoRun;
    }

    /** Draws a token and asks for the lease; an instance already running refuses. */
    method BeginRun(drawn: Token, renewing: bool) returns (request: Option<Token>)
      requires Valid()
      modifies this
      ensures Valid()
      ensures old(phase) != Idle ==> request == None && View() == old(View())
      ensures old(phase) == Idle ==>
              request == Some(drawn) && View() == LeaseProtocol.BeginRun(old(View()), drawn, renewing)
    {
      request := None;
      if phase == Idle {
        ResetRun(drawn, renewing);
        request := Some(drawn);
      }
    }

    /** A run starts with a fresh renewal loop. */
    method ClearRenewal()
      modifies this`renewalTimer, this`deadlineTimer, this`activeRenewal
      modifies this`ownershipError, this`renewalTimedOut, this`stopRequested
      ensures renewalTimer.None? && deadlineTimer.None? && activeRenewal.None?
      ensures !ownershipError && !renewalTimedOut && !stopRequested
    {
      renewalTimer, deadlineTimer, activeRenewal := None, None, None;
      ownershipError, renewalTimedOut, stopRequested := false, false, false;
    }

    method ResetRun(drawn: Token, renewing: bool)
      modifies this
      ensures Valid() && View() == LeaseProtocol.BeginRun(old(View()), drawn, renewing)
    {
      ClearRenewal();
      aborted, cancelled, callbackFailed := false, false, false;
      phase, candidate, renews, outcome := Acquiring, drawn, renewing, NoRun;
    }

    method OnAcquireReply(granted: bool, now: nat)
      requires Valid() && phase == Acquiring && activeRenewal.None? && renewalTimer.None? && !stopRequested
      requires !ownershipError
      modifies this
      ensures Valid()
      ensures View() == if granted then AcquireGranted(old(View()), now, Interval(ttlMs))
                        else AcquireRefused(old(View()), Contended)
      ensures granted ==> phase == InCallback && token == Some(candidate) && outcome == old(outcome)
      ensures granted ==> renewalTimer == if renews then Some(now + Interval(ttlMs)) else None
      ensures !granted ==> phase == Idle && outcome == Contended && token == old(token) && renewalTimer.None?
    {
      if !granted {
        phase, outcome := Idle, Contended;
        return;
      }
      token := Some(candidate);
      phase := InCallback;
      if renews {
        renewalTimer := Some(now + Interval(ttlMs));
      }
    }

    /** The interval timer fires: one renewal is sent and its deadline is armed. */
    method OnRenewalTimer(now: nat) returns (request: Option<Token>)
      requires Valid() && renewalTimer.Some?
      modifies this
      ensures Valid() && View() == RenewalDue(old(View()), now, Interval(ttlMs))
      ensures request == old(token)
      ensures renewalTimer.None? && activeRenewal == Some(old(serial)) && deadlineTimer == Some(now + Interval(ttlMs))
    {
      renewalTimer := None;
      activeRenewal := Some(serial);
      serial := serial + 1;
      deadlineTimer := Some(now + Interval(ttlMs));
      request := token;
    }

    method LoseOwnership()
      requires activeRenewal.None? && deadlineTimer.None? && (ownershipError ==> aborted && renewalTimer.None?)
      requires !(renewalTimer.Some? && activeRenewal.Some?)
      modifies this`ownershipError, this`renewalTimer, this`aborted
      ensures Valid() && View() == LeaseProtocol.LoseOwnership(old(View()))
    {
      if ownershipError {
        return;
      }
      ownershipError := true;
      renewalTimer := None;
      aborted := true;
    }

    method OnDeadline()
      requires Valid() && activeRenewal.Some?
      modifies this
      ensures Valid() && View() == DeadlinePassed(old(View()))
      ensures renewalTimedOut && ownershipError && aborted && renewalTimer.None? && activeRenewal.None?
    {
      deadlineTimer, activeRenewal := None, None;
      renewalTimedOut := true;
      LoseOwnership();
    }

    method OnRenewReply(renewed: bool, now: nat)
      requires Valid() && activeRenewal.Some?
      modifies this
      ensures Valid() && View() == RenewalSettled(old(View()), renewed, now, Interval(ttlMs))
      ensures activeRenewal.None? && renewalTimedOut == old(renewalTimedOut)
      ensures !renewed ==> ownershipError && aborted && renewalTimer.None?
      ensures renewed ==> ownershipError == old(ownershipError) && aborted == old(aborted)
      ensures renewed ==> renewalTimer == if stopRequested then None else Some(now + Interval(ttlMs))
    {
      deadlineTimer, activeRenewal := None, None;
      if !renewed {
        LoseOwnership();
      } else if !stopRequested {
        renewalTimer := Some(now + Interval(ttlMs));
      }
    }

    method Stop()
      requires Valid()
      modifies this`stopRequested, this`renewalTimer
      ensures Valid() && View() == StopRenewal(old(View()))
    {
      stopRequested := true;
      renewalTimer := None;
    }

    method OnCancel()
      requires Valid()
      modifies this
      ensures Valid() && View() == CancelRun(old(View()))
      ensures cancelled && aborted && stopRequested && renewalTimer.None? && activeRenewal == old(activeRenewal)
      ensures phase == old(phase) && outcome == old(outcome)
    {
      cancelled, aborted := true, true;
      Stop();
    }

    method OnCallbackSettled(failed: bool)
      requires Valid()
      modifies this
      ensures Valid() && View() == CallbackSettled(old(View()), failed)
      ensures phase == Stopping && callbackFailed == failed && cancelled == old(cancelled)
      ensures stopRequested && renewalTimer.None? && activeRenewal == old(activeRenewal)
    {
      phase, callbackFailed := Stopping, failed;
      Stop();
    }

    /** Decides, once no renewal is in flight, whether releasing is safe. */
    method OnRenewalStopped() returns (request: Option<Token>)
      requires Valid() && phase == Stopping && activeRenewal.None?
      modifies this
      ensures Valid() && View() == RenewalStopped(old(View()))
      ensures request == if ReleaseIsSafe(old(View())) then old(token) else None
      ensures !old(renewalTimedOut) && !old(ownershipError) ==> phase == Releasing && request == old(token)
      ensures old(renewalTimedOut) || old(ownershipError) ==> phase == Idle && outcome == Failed && request.None?
    {
      if !renewalTimedOut && !ownershipError {
        phase := Releasing;
        return token;
      }
      phase, outcome := Idle, Failed;
      request := None;
    }

    method OnReleaseReply(released: bool)
      requires Valid() && phase == Releasing
      modifies this
      ensures Valid() && View() == ReleaseSettled(old(View()), released)
      ensures phase == Idle && token != Some(candidate)
      ensures outcome == Ran <==> released && !old(callbackFailed) && !old(cancelled)
      ensures outcome == Ran || outcome == Failed
    {
      if token == Some(candidate) {
        token := None;
      }
      phase := Idle;
      outcome := if released && !callbackFailed && !cancelled then Ran else Failed;
    }
  }
}
