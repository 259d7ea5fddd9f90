/** The timing condition is exact: without it some run lets two protected callbacks overlap. */
module LeaseLimits {
  import opened Options
  import opened LeaseProtocol
  import opened LeaseExclusion

  /** A reachable state, with the steps that lead to it. */
  ghost predicate Reaches(cfg: Config, steps: seq<Step>, s: State) {
    Legal(cfg, Start(cfg), steps) && After(cfg, Start(cfg), steps) == s
  }

  /** Client 0 waits with a grant executed at instant 0; client 1 has done nothing. */
  ghost predicate FirstGranted(cfg: Config, s: State) {
    && |s.clients| == cfg.clients >= 2
    && s.clients[0].phase == Acquiring && s.clients[0].candidate == 0 && s.clients[0].renews
    && !s.clients[0].aborted && s.clients[0].timer == Off && !s.clients[0].stopRequested && s.clients[0].serial == 0
    && (forall c :: 1 <= c < |s.clients| ==> s.clients[c] == IDLE_CLIENT)
    && s.net == {SetReply(0, 0, true, 0)}
    && s.issued == [0]
  }

  lemma Extend(cfg: Config, steps: seq<Step>, s: State, step: Step)
    requires Reaches(cfg, steps, s) && Enabled(cfg, s, step)
    ensures Reaches(cfg, steps + [step], Apply(cfg, s, step))
  {
    LegalThen(cfg, Start(cfg), steps, step);
  }

  lemma GrantFirst(cfg: Config) returns (steps: seq<Step>, s: State)
    requires cfg.clients >= 2
    ensures Reaches(cfg, steps, s) && FirstGranted(cfg, s) && s.now == 0 && s.entry == Held(0, cfg.ttl)
  {
    var s0 := Start(cfg);
    Extend(cfg, [], s0, Run(0, true));
    var s1 := Apply(cfg, s0, Run(0, true));
    Extend(cfg, [] + [Run(0, true)], s1, Execute(SetRequest(0, 0)));
    s := Apply(cfg, s1, Execute(SetRequest(0, 0)));
    steps := [] + [Run(0, true)] + [Execute(SetRequest(0, 0))];
    assert s.net == {SetReply(0, 0, true, 0)};
  }

  /** Once the entry is free while client 0 is protected, client 1 gets in at the same instant. */
  lemma SecondGetsIn(cfg: Config, steps: seq<Step>, s: State)
    requires Reaches(cfg, steps, s) && |s.clients| == cfg.clients >= 2
    requires Protected(s.clients[0]) && s.clients[1] == IDLE_CLIENT && s.entry == Free
    requires forall m :: m in s.net ==> m.token < |s.issued|
    ensures CanOverlap(cfg)
  {
    var token := |s.issued|;
    var a, b, c := Run(1, true), Execute(SetRequest(1, token)), Deliver(SetReply(1, token, true, s.now));
    Extend(cfg, steps, s, a);
    var s1 := Apply(cfg, s, a);
    Extend(cfg, steps + [a], s1, b);
    var s2 := Apply(cfg, s1, b);
    assert s2.clients[1].phase == Acquiring && s2.clients[1].candidate == token;
    Extend(cfg, steps + [a] + [b], s2, c);
    var s3 := Apply(cfg, s2, c);
    assert Protected(s3.clients[0]) && Protected(s3.clients[1]);
    assert !Exclusive(s3);
  }

  /** The reply comes when the entry has already expired. */
  lemma LateReplyOverlaps(cfg: Config)
    requires cfg.clients >= 2 && cfg.ttl > 0 && cfg.acquireBound >= cfg.ttl
    ensures CanOverlap(cfg)
  {
    var steps, s := GrantFirst(cfg);
    Extend(cfg, steps, s, Advance(cfg.ttl));
    var s1 := Apply(cfg, s, Advance(cfg.ttl));
    Extend(cfg, steps + [Advance(cfg.ttl)], s1, Expire);
    var s2 := Apply(cfg, s1, Expire);
    var reply := Deliver(SetReply(0, 0, true, 0));
    Extend(cfg, steps + [Advance(cfg.ttl)] + [Expire], s2, reply);
    var s3 := Apply(cfg, s2, reply);
    assert s3.clients[0].phase == InCallback;
    SecondGetsIn(cfg, steps + [Advance(cfg.ttl)] + [Expire] + [reply], s3);
  }

  /** Client 0 in its callback, everything else quiet. */
  ghost predicate Quiet(cfg: Config, s: State) {
    && |s.clients| == cfg.clients >= 2 && s.issued == [0] && s.net == {} && s.clients[1] == IDLE_CLIENT
    && Protected(s.clients[0]) && s.clients[0].held == Some(0) && s.clients[0].candidate == 0
    && !s.clients[0].stopRequested && forall c :: 1 <= c < |s.clients| ==> s.clients[c].timer == Off
  }

  /** Client 0 enters its callback when the reply arrives, `acquireBound` after the grant. */
  lemma EnterCallback(cfg: Config) returns (steps: seq<Step>, s: State)
    requires cfg.clients >= 2 && cfg.acquireBound < cfg.ttl
    ensures Reaches(cfg, steps, s) && Quiet(cfg, s) && s.now == cfg.acquireBound && s.entry == Held(0, cfg.ttl)
    ensures s.clients[0].timer == Waiting(s.now + Interval(cfg.ttl)) && s.clients[0].serial == 0
  {
    steps, s := GrantFirst(cfg);
    if cfg.acquireBound > 0 {
      Extend(cfg, steps, s, Advance(cfg.acquireBound));
      steps, s := steps + [Advance(cfg.acquireBound)], Apply(cfg, s, Advance(cfg.acquireBound));
    }
    var reply := Deliver(SetReply(0, 0, true, 0));
    assert Awaited(s.clients[0], reply.message);
    Extend(cfg, steps, s, reply);
    steps, s := steps + [reply], Apply(cfg, s, reply);
    assert s.net == {};
  }

  /** The first renewal is still pending when the entry expires. */
  lemma LateFirstRenewalOverlaps(cfg: Config)
    requires cfg.clients >= 2 && cfg.acquireBound < cfg.ttl < cfg.acquireBound + 2 * Interval(cfg.ttl)
    ensures CanOverlap(cfg)
  {
    var ttl := cfg.ttl;
    var steps, s := EnterCallback(cfg);
    var due := s.clients[0].timer.due;
    if due <= ttl {
      Extend(cfg, steps, s, Advance(due));
      steps, s := steps + [Advance(due)], Apply(cfg, s, Advance(due));
      Extend(cfg, steps, s, TimerFires(0));
      steps, s := steps + [TimerFires(0)], Apply(cfg, s, TimerFires(0));
    }
    if s.now < ttl {
      Extend(cfg, steps, s, Advance(ttl));
      steps, s := steps + [Advance(ttl)], Apply(cfg, s, Advance(ttl));
    }
    Extend(cfg, steps, s, Expire);
    SecondGetsIn(cfg, steps + [Expire], Apply(cfg, s, Expire));
  }

  /** A two-millisecond lease, renewed at instant 1, with the reply taking until instant 2. */
  lemma TwoMillisecondRenewal(cfg: Config) returns (steps: seq<Step>, s: State)
    requires cfg.clients >= 2 && cfg.ttl == 2 && cfg.acquireBound == 0
    ensures Reaches(cfg, steps, s) && Quiet(cfg, s) && s.now == 1 && s.entry == Held(0, 2)
    ensures s.clients[0].timer == Waiting(1) && s.clients[0].serial == 0
  {
    steps, s := EnterCallback(cfg);
    Extend(cfg, steps, s, Advance(1));
    steps, s := steps + [Advance(1)], Apply(cfg, s, Advance(1));
  }

  lemma TwoMillisecondReply(cfg: Config, before: seq<Step>, s0: State) returns (steps: seq<Step>, s: State)
    requires cfg.clients >= 2 && cfg.ttl == 2 && Reaches(cfg, before, s0) && Quiet(cfg, s0) && s0.now == 1
    requires s0.entry == Held(0, 2) && s0.clients[0].timer == Waiting(1) && s0.clients[0].serial == 0
    ensures Reaches(cfg, steps, s) && Quiet(cfg, s) && s.now == 2 && s.entry == Held(0, 3)
    ensures s.clients[0].timer == Waiting(3)
  {
    Extend(cfg, before, s0, TimerFires(0));
    steps, s := before + [TimerFires(0)], Apply(cfg, s0, TimerFires(0));
    var request := Execute(RenewRequest(0, 0, 0));
    Extend(cfg, steps, s, request);
    steps, s := steps + [request], Apply(cfg, s, request);
    assert s.net == {RenewReply(0, 0, 0, true)};
    Extend(cfg, steps, s, Advance(2));
    steps, s := steps + [Advance(2)], Apply(cfg, s, Advance(2));
    var renewed := Deliver(RenewReply(0, 0, 0, true));
    Extend(cfg, steps, s, renewed);
    steps, s := steps + [renewed], Apply(cfg, s, renewed);
  }

  /** The next renewal of that lease is sent when the entry expires. */
  lemma TwoMillisecondLeaseOverlaps(cfg: Config)
    requires cfg.clients >= 2 && cfg.ttl == 2 && cfg.acquireBound == 0
    ensures CanOverlap(cfg)
  {
    var before, s0 := TwoMillisecondRenewal(cfg);
    var steps, s := TwoMillisecondReply(cfg, before, s0);
    Extend(cfg, steps, s, Advance(3));
    steps, s := steps + [Advance(3)], Apply(cfg, s, Advance(3));
    Extend(cfg, steps, s, TimerFires(0));
    steps, s := steps + [TimerFires(0)], Apply(cfg, s, TimerFires(0));
    Extend(cfg, steps, s, Expire);
    SecondGetsIn(cfg, steps + [Expire], Apply(cfg, s, Expire));
  }

  /**
   Exclusion in time, exactly: for two or more clients, some run lets two protected
   callbacks overlap if and only if the lease is shorter than three renewal intervals or
   than a late acquire reply and two intervals.
   */
  lemma OverlapIffUnsafeTiming(cfg: Config)
    requires cfg.clients >= 2 && cfg.ttl > 0
    ensures CanOverlap(cfg) <==> !SafeTiming(cfg)
  {
    if SafeTiming(cfg) {
      forall steps | Legal(cfg, Start(cfg), steps) ensures Exclusive(After(cfg, Start(cfg), steps)) {
        SafeTimingExcludes(cfg, steps);
      }
    } else if cfg.acquireBound >= cfg.ttl {
      LateReplyOverlaps(cfg);
    } else if cfg.ttl < cfg.acquireBound + 2 * Interval(cfg.ttl) {
      LateFirstRenewalOverlaps(cfg);
    } else {
      assert cfg.ttl == 2 && cfg.acquireBound == 0;
      TwoMillisecondLeaseOverlaps(cfg);
    }
  }

  /** A lease of three milliseconds or more excludes when acquire replies take at most one interval. */
  lemma OneIntervalRepliesExclude(cfg: Config, steps: seq<Step>)
    requires cfg.ttl >= 3 && cfg.acquireBound <= cfg.ttl / 3 && Legal(cfg, Start(cfg), steps)
    ensures Fenced(After(cfg, Start(cfg), steps)) && Exclusive(After(cfg, Start(cfg), steps))
  {
    SafeTimingExcludes(cfg, steps);
  }
}
