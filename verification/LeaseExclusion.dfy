/** Exclusion in time: the store holds the token of every protected callback. */
module LeaseExclusion {
  import opened Options
  import opened LeaseProtocol

  /** The last instant at which a client may still believe it holds the lease. */
  function Horizon(k: Client, d: nat): nat {
    match k.timer
    case Waiting(due) => due + d
    case Renewing(_, deadline) => deadline
    case Off => 0
  }

  predicate ClientOk(s: State, c: nat, d: nat)
    requires c < |s.clients|
  {
    var k := s.clients[c];
    && (k.phase != Idle ==> k.candidate < |s.issued| && s.issued[k.candidate] == c)
    && (k.phase in {InCallback, Stopping, Releasing} ==> k.held == Some(k.candidate))
    && (k.timer != Off ==> k.phase == InCallback || k.phase == Stopping)
    && (k.timer.Waiting? ==> k.renews && !k.stopRequested && s.now <= k.timer.due <= s.now + d)
    && (k.timer.Renewing? ==> k.renews && k.serial > k.timer.serial && s.now <= k.timer.deadline <= s.now + d)
    && (Protected(k) ==> k.timer != Off && !k.stopRequested)
    && (k.phase == Acquiring ==> !k.stopRequested && !k.aborted && k.timer == Off)
  }

  /** A protected client's token stays in the store at least until its horizon. */
  predicate Covered(s: State, c: nat, d: nat)
    requires c < |s.clients|
  {
    var k := s.clients[c];
    Protected(k) ==> s.entry.Held? && s.entry.token == k.candidate && Horizon(k, d) <= s.entry.expiry
  }

  /** A token is used by its client only after it was granted. */
  predicate NotYetGranted(s: State, client: nat, token: Token) {
    && !(s.entry.Held? && s.entry.token == token)
    && (client < |s.clients| && s.clients[client].candidate == token ==>
          s.clients[client].phase == Acquiring || s.clients[client].phase == Idle)
  }

  predicate MessageOk(cfg: Config, s: State, m: Message) {
    && m.token < |s.issued| && s.issued[m.token] == m.client
    && match m
       case SetRequest(c, token) => NotYetGranted(s, c, token)
       case SetReply(c, token, granted, executedAt) =>
         granted ==>
           && executedAt <= s.now
           && (c < |s.clients| && Awaited(s.clients[c], m) && s.now < executedAt + cfg.ttl ==>
                 s.entry == Held(token, executedAt + cfg.ttl))
       case RenewRequest(c, token, serial) =>
         c < |s.clients| && s.clients[c].candidate == token ==>
           s.clients[c].phase != Acquiring && serial < s.clients[c].serial
       case RenewReply(c, token, serial, renewed) =>
         c < |s.clients| && s.clients[c].candidate == token ==>
           && serial < s.clients[c].serial && s.clients[c].phase != Acquiring
           && (renewed && Awaited(s.clients[c], m) && Protected(s.clients[c]) ==>
                 s.entry.Held? && s.clients[c].timer.deadline + 2 * Interval(cfg.ttl) <= s.entry.expiry)
       case ReleaseRequest(c, token) =>
         c < |s.clients| && s.clients[c].candidate == token ==>
           s.clients[c].phase == Releasing || s.clients[c].phase == Idle
       case ReleaseReply(_, _, _) => true
  }

  /** At most one message carries the request or the grant of a token. */
  predicate GrantsUnique(s: State) {
    forall m, n :: m in s.net && n in s.net && m != n && m.token == n.token ==>
      !(m.SetRequest? && (n.SetRequest? || n.SetReply?)) && !(m.SetReply? && n.SetReply?)
  }

  predicate EntryOk(cfg: Config, s: State) {
    s.entry.Held? ==> s.entry.token < |s.issued| && s.now <= s.entry.expiry <= s.now + cfg.ttl
  }

  predicate Inv(cfg: Config, s: State) {
    var d := Interval(cfg.ttl);
    && EntryOk(cfg, s)
    && (forall c :: 0 <= c < |s.clients| ==> ClientOk(s, c, d) && Covered(s, c, d))
    && (forall m :: m in s.net ==> MessageOk(cfg, s, m))
    && GrantsUnique(s)
  }

  lemma AdvanceKeeps(cfg: Config, s: State, step: Step)
    requires SafeTiming(cfg) && Inv(cfg, s) && Enabled(cfg, s, step) && (step.Advance? || step.Expire?)
    ensures Inv(cfg, Apply(cfg, s, step))
  {
    var s', d := Apply(cfg, s, step), Interval(cfg.ttl);
    forall c | 0 <= c < |s.clients| ensures ClientOk(s', c, d) && Covered(s', c, d) {
      assert ClientOk(s, c, d) && Covered(s, c, d);
    }
    forall m | m in s'.net ensures MessageOk(cfg, s', m) {
      assert MessageOk(cfg, s, m);
    }
  }

  /** Steps of one client that send nothing. */
  predicate IsLocal(step: Step) {
    step.FailRequest? || step.DeadlineFires? || step.Cancel? || step.CallbackEnds? || step.Crash?
  }

  lemma LocalKeepsClient(cfg: Config, s: State, step: Step, c: nat)
    requires Enabled(cfg, s, step) && IsLocal(step) && c < |s.clients|
    requires ClientOk(s, c, Interval(cfg.ttl)) && Covered(s, c, Interval(cfg.ttl))
    ensures ClientOk(Apply(cfg, s, step), c, Interval(cfg.ttl)) && Covered(Apply(cfg, s, step), c, Interval(cfg.ttl))
  {
  }

  lemma LocalKeepsMessage(cfg: Config, s: State, step: Step, m: Message)
    requires Enabled(cfg, s, step) && IsLocal(step) && MessageOk(cfg, s, m)
    requires m.client < |s.clients| ==> ClientOk(s, m.client, Interval(cfg.ttl))
    ensures MessageOk(cfg, Apply(cfg, s, step), m)
  {
  }

  lemma LocalKeeps(cfg: Config, s: State, step: Step)
    requires Inv(cfg, s) && Enabled(cfg, s, step) && IsLocal(step)
    ensures Inv(cfg, Apply(cfg, s, step))
  {
    var s', d := Apply(cfg, s, step), Interval(cfg.ttl);
    forall c | 0 <= c < |s'.clients| ensures ClientOk(s', c, d) && Covered(s', c, d) {
      LocalKeepsClient(cfg, s, step, c);
    }
    forall m | m in s'.net ensures MessageOk(cfg, s', m) {
      LocalKeepsMessage(cfg, s, step, m);
    }
    assert s'.net == s.net;
  }

  predicate IsSending(step: Step) { step.TimerFires? || step.AfterStop? || step.Drop? }

  lemma SendingKeepsClient(cfg: Config, s: State, step: Step, c: nat)
    requires Enabled(cfg, s, step) && IsSending(step) && c < |s.clients|
    requires ClientOk(s, c, Interval(cfg.ttl)) && Covered(s, c, Interval(cfg.ttl))
    ensures ClientOk(Apply(cfg, s, step), c, Interval(cfg.ttl)) && Covered(Apply(cfg, s, step), c, Interval(cfg.ttl))
  {
  }

  lemma SendingKeepsMessage(cfg: Config, s: State, step: Step, m: Message)
    requires Enabled(cfg, s, step) && IsSending(step) && m in Apply(cfg, s, step).net
    requires m in s.net ==> MessageOk(cfg, s, m)
    requires m.client < |s.clients| ==> ClientOk(s, m.client, Interval(cfg.ttl))
    ensures MessageOk(cfg, Apply(cfg, s, step), m)
  {
  }

  lemma SendingKeeps(cfg: Config, s: State, step: Step)
    requires Inv(cfg, s) && Enabled(cfg, s, step) && IsSending(step)
    ensures Inv(cfg, Apply(cfg, s, step))
  {
    var s', d := Apply(cfg, s, step), Interval(cfg.ttl);
    forall c | 0 <= c < |s'.clients| ensures ClientOk(s', c, d) && Covered(s', c, d) {
      SendingKeepsClient(cfg, s, step, c);
    }
    forall m | m in s'.net ensures MessageOk(cfg, s', m) {
      SendingKeepsMessage(cfg, s, step, m);
    }
    assert forall m :: m in s'.net && (m.SetRequest? || m.SetReply?) ==> m in s.net;
  }

  lemma RunKeeps(cfg: Config, s: State, step: Step)
    requires Inv(cfg, s) && Enabled(cfg, s, step) && step.Run?
    ensures Inv(cfg, Apply(cfg, s, step))
  {
    var s', d := Apply(cfg, s, step), Interval(cfg.ttl);
    forall c | 0 <= c < |s'.clients| ensures ClientOk(s', c, d) && Covered(s', c, d) {
      assert ClientOk(s, c, d) && Covered(s, c, d);
    }
    forall m | m in s'.net ensures MessageOk(cfg, s', m) {
      if m in s.net {
        assert MessageOk(cfg, s, m);
      }
    }
  }

  /** While an entry is held for a protected client, no acquire is granted. */
  lemma ExecuteKeepsClient(cfg: Config, s: State, step: Step, c: nat)
    requires Enabled(cfg, s, step) && step.Execute? && c < |s.clients| && EntryOk(cfg, s)
    requires MessageOk(cfg, s, step.message)
    requires ClientOk(s, c, Interval(cfg.ttl)) && Covered(s, c, Interval(cfg.ttl))
    ensures ClientOk(Apply(cfg, s, step), c, Interval(cfg.ttl)) && Covered(Apply(cfg, s, step), c, Interval(cfg.ttl))
  {
  }

  lemma ExecuteKeepsOldMessage(cfg: Config, s: State, step: Step, m: Message)
    requires Enabled(cfg, s, step) && step.Execute? && m in s.net && m != step.message && EntryOk(cfg, s)
    requires MessageOk(cfg, s, step.message) && MessageOk(cfg, s, m) && GrantsUnique(s)
    requires m.client < |s.clients| ==>
              ClientOk(s, m.client, Interval(cfg.ttl)) && Covered(s, m.client, Interval(cfg.ttl))
    ensures MessageOk(cfg, Apply(cfg, s, step), m)
  {
  }

  lemma ExecuteMakesGoodReply(cfg: Config, s: State, step: Step, m: Message)
    requires SafeTiming(cfg) && Enabled(cfg, s, step) && step.Execute? && EntryOk(cfg, s)
    requires m in Apply(cfg, s, step).net && m !in s.net && MessageOk(cfg, s, step.message)
    requires m.client < |s.clients| ==>
              ClientOk(s, m.client, Interval(cfg.ttl)) && Covered(s, m.client, Interval(cfg.ttl))
    ensures MessageOk(cfg, Apply(cfg, s, step), m)
  {
  }

  lemma ExecuteKeeps(cfg: Config, s: State, step: Step)
    requires SafeTiming(cfg) && Inv(cfg, s) && Enabled(cfg, s, step) && step.Execute?
    ensures Inv(cfg, Apply(cfg, s, step))
  {
    var s', d := Apply(cfg, s, step), Interval(cfg.ttl);
    forall c | 0 <= c < |s'.clients| ensures ClientOk(s', c, d) && Covered(s', c, d) {
      ExecuteKeepsClient(cfg, s, step, c);
    }
    forall m | m in s'.net ensures MessageOk(cfg, s', m) {
      if m in s.net && m != step.message {
        ExecuteKeepsOldMessage(cfg, s, step, m);
      } else {
        ExecuteMakesGoodReply(cfg, s, step, m);
      }
    }
    ExecuteKeepsGrants(cfg, s, step);
  }

  lemma ExecuteKeepsGrants(cfg: Config, s: State, step: Step)
    requires GrantsUnique(s) && Enabled(cfg, s, step) && step.Execute?
    ensures GrantsUnique(Apply(cfg, s, step))
  {
    var s' := Apply(cfg, s, step);
    forall m, n | m in s'.net && n in s'.net && m != n && m.token == n.token
      ensures !(m.SetRequest? && (n.SetRequest? || n.SetReply?)) && !(m.SetReply? && n.SetReply?)
    {
    }
  }

  lemma DeliverKeepsClient(cfg: Config, s: State, step: Step, c: nat)
    requires SafeTiming(cfg) && Enabled(cfg, s, step) && step.Deliver? && c < |s.clients|
    requires MessageOk(cfg, s, step.message)
    requires ClientOk(s, c, Interval(cfg.ttl)) && Covered(s, c, Interval(cfg.ttl))
    ensures ClientOk(Apply(cfg, s, step), c, Interval(cfg.ttl)) && Covered(Apply(cfg, s, step), c, Interval(cfg.ttl))
  {
  }

  lemma DeliverKeepsMessage(cfg: Config, s: State, step: Step, m: Message)
    requires SafeTiming(cfg) && Enabled(cfg, s, step) && step.Deliver? && m in s.net && m != step.message
    requires MessageOk(cfg, s, step.message) && MessageOk(cfg, s, m) && GrantsUnique(s)
    requires m.client < |s.clients| ==>
              ClientOk(s, m.client, Interval(cfg.ttl)) && Covered(s, m.client, Interval(cfg.ttl))
    ensures MessageOk(cfg, Apply(cfg, s, step), m)
  {
  }

  lemma DeliverKeeps(cfg: Config, s: State, step: Step)
    requires SafeTiming(cfg) && Inv(cfg, s) && Enabled(cfg, s, step) && step.Deliver?
    ensures Inv(cfg, Apply(cfg, s, step))
  {
    var s', d := Apply(cfg, s, step), Interval(cfg.ttl);
    assert s'.net == s.net - {step.message};
    forall c | 0 <= c < |s'.clients| ensures ClientOk(s', c, d) && Covered(s', c, d) {
      DeliverKeepsClient(cfg, s, step, c);
    }
    forall m | m in s'.net ensures MessageOk(cfg, s', m) {
      DeliverKeepsMessage(cfg, s, step, m);
    }
  }

  lemma StepKeeps(cfg: Config, s: State, step: Step)
    requires SafeTiming(cfg) && Inv(cfg, s) && Enabled(cfg, s, step)
    ensures Inv(cfg, Apply(cfg, s, step))
  {
    match step
    case Advance(_) => AdvanceKeeps(cfg, s, step);
    case Expire => AdvanceKeeps(cfg, s, step);
    case Run(_, _) => RunKeeps(cfg, s, step);
    case Execute(_) => ExecuteKeeps(cfg, s, step);
    case Deliver(_) => DeliverKeeps(cfg, s, step);
    case Drop(_) => SendingKeeps(cfg, s, step);
    case TimerFires(_) => SendingKeeps(cfg, s, step);
    case AfterStop(_) => SendingKeeps(cfg, s, step);
    case _ => LocalKeeps(cfg, s, step);
  }

  lemma {:induction false} InvHolds(cfg: Config, s: State, steps: seq<Step>)
    requires SafeTiming(cfg) && Inv(cfg, s) && Legal(cfg, s, steps)
    ensures Inv(cfg, After(cfg, s, steps))
    decreases |steps|
  {
    if steps != [] {
      StepKeeps(cfg, s, steps[0]);
      InvHolds(cfg, Apply(cfg, s, steps[0]), steps[1..]);
    }
  }

  /**
   Under the timing condition, in every reachable state the store holds the token of
   every protected callback, so no two of them run at once.
   */
  lemma SafeTimingExcludes(cfg: Config, steps: seq<Step>)
    requires SafeTiming(cfg) && Legal(cfg, Start(cfg), steps)
    ensures Fenced(After(cfg, Start(cfg), steps)) && Exclusive(After(cfg, Start(cfg), steps))
  {
    var s := After(cfg, Start(cfg), steps);
    InvHolds(cfg, Start(cfg), steps);
    var d := Interval(cfg.ttl);
    forall c | 0 <= c < |s.clients| && Protected(s.clients[c])
      ensures s.entry.Held? && s.entry.token == s.clients[c].candidate && s.issued[s.clients[c].candidate] == c
    {
      assert ClientOk(s, c, d) && Covered(s, c, d);
    }
  }
}
