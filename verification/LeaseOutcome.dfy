/**
 What a lease run reports, read off the run itself: "ran" exactly when its release was
 confirmed, its callback succeeded and nobody cancelled it.
 */
module LeaseOutcome {
  import opened Options
  import opened LeaseProtocol
  import opened LeaseHistory

  // ----- The current run of a client -----

  /** The steps since client `c` last began a run. */
  function Since(steps: seq<Step>, c: nat): (r: seq<Step>) {
    if steps == [] then []
    else
      var last := steps[|steps| - 1];
      if last.Run? && last.client == c then [] else Since(steps[..|steps| - 1], c) + [last]
  }

  predicate WasCancelled(steps: seq<Step>, c: nat) { Cancel(c) in Since(steps, c) }

  predicate CallbackSucceeded(steps: seq<Step>, c: nat) { CallbackEnds(c, false) in Since(steps, c) }

  lemma {:induction false} LegalFront(cfg: Config, s: State, steps: seq<Step>)
    requires Legal(cfg, s, steps) && steps != []
    ensures var k := |steps| - 1;
            && Legal(cfg, s, steps[..k]) && Enabled(cfg, After(cfg, s, steps[..k]), steps[k])
            && After(cfg, s, steps) == Apply(cfg, After(cfg, s, steps[..k]), steps[k])
    decreases |steps|
  {
    var k := |steps| - 1;
    if k > 0 {
      LegalFront(cfg, Apply(cfg, s, steps[0]), steps[1..]);
      assert steps[1..][..k - 1] == steps[..k][1..];
    } else {
      assert Legal(cfg, Apply(cfg, s, steps[0]), []);
    }
  }

  /** The client learns that it may have lost the lease: no answer in time, a failed request, or a refused renewal. */
  predicate LosesLease(s: State, step: Step, c: nat) {
    || step == DeadlineFires(c)
    || step == FailRequest(c)
    || (step.Deliver? && step.message.RenewReply? && step.message.client == c && !step.message.renewed
        && c < |s.clients| && Awaited(s.clients[c], step.message))
  }

  predicate LeaseLost(cfg: Config, steps: seq<Step>, c: nat)
    requires Legal(cfg, Start(cfg), steps)
    decreases |steps|
  {
    steps != [] && (
      var k := |steps| - 1;
      LegalFront(cfg, Start(cfg), steps);
      !(steps[k].Run? && steps[k].client == c)
      && (LosesLease(After(cfg, Start(cfg), steps[..k]), steps[k], c) || LeaseLost(cfg, steps[..k], c)))
  }

  lemma SinceThen(steps: seq<Step>, step: Step, c: nat)
    ensures var more, begins := steps + [step], step.Run? && step.client == c;
            && (WasCancelled(more, c) <==> !begins && (step == Cancel(c) || WasCancelled(steps, c)))
            && (CallbackSucceeded(more, c) <==>
                !begins && (step == CallbackEnds(c, false) || CallbackSucceeded(steps, c)))
  {
    assert (steps + [step])[..|steps|] == steps;
  }

  lemma LostThen(cfg: Config, steps: seq<Step>, step: Step, c: nat)
    requires Legal(cfg, Start(cfg), steps + [step]) && Legal(cfg, Start(cfg), steps)
    ensures LeaseLost(cfg, steps + [step], c) <==>
            !(step.Run? && step.client == c)
            && (LosesLease(After(cfg, Start(cfg), steps), step, c) || LeaseLost(cfg, steps, c))
  {
    assert (steps + [step])[..|steps|] == steps;
  }

  // ----- What the client remembers of it -----

  /** The flags of a client with a run tell whether it was cancelled, its callback succeeded and the lease was lost. */
  predicate FlagsTell(k: Client, cancelled: bool, succeeded: bool, lost: bool) {
    k.phase != Idle ==>
      && k.cancelled == cancelled && k.lost == lost && (k.timedOut ==> k.lost)
      && (k.phase in {Acquiring, InCallback} ==> !succeeded)
      && (k.phase in {Stopping, Releasing} ==> k.callbackFailed == !succeeded)
      && (k.timer != Off ==> k.phase in {InCallback, Stopping} && !k.lost)
      && (k.phase == Acquiring ==> !k.stopRequested && !k.lost)
      && (k.phase in {Stopping, Releasing} ==> k.stopRequested)
      && (k.timer.Waiting? ==> k.phase == InCallback && !k.stopRequested) && (k.cancelled ==> k.stopRequested)
  }

  lemma ReplyKeepsFlags(cfg: Config, s: State, step: Step, c: nat, cancelled: bool, succeeded: bool, lost: bool)
    requires Enabled(cfg, s, step) && step.Deliver? && c < |s.clients|
    requires FlagsTell(s.clients[c], cancelled, succeeded, lost)
    ensures FlagsTell(Apply(cfg, s, step).clients[c], cancelled, succeeded, lost || LosesLease(s, step, c))
  {
  }

  lemma StepKeepsFlags(cfg: Config, s: State, step: Step, c: nat, cancelled: bool, succeeded: bool, lost: bool)
    requires Enabled(cfg, s, step) && !step.Deliver? && !step.Run? && c < |s.clients|
    requires FlagsTell(s.clients[c], cancelled, succeeded, lost)
    ensures FlagsTell(Apply(cfg, s, step).clients[c], cancelled || step == Cancel(c),
                      succeeded || step == CallbackEnds(c, false), lost || LosesLease(s, step, c))
  {
  }

  lemma RunBeginsAnew(cfg: Config, s: State, step: Step, c: nat, cancelled: bool, succeeded: bool, lost: bool)
    requires Enabled(cfg, s, step) && step.Run? && c < |s.clients|
    requires FlagsTell(s.clients[c], cancelled, succeeded, lost)
    ensures var begins := step.client == c;
            FlagsTell(Apply(cfg, s, step).clients[c], !begins && cancelled, !begins && succeeded, !begins && lost)
  {
  }

  lemma {:induction false} FlagsHold(cfg: Config, steps: seq<Step>, c: nat)
    requires Legal(cfg, Start(cfg), steps) && c < |After(cfg, Start(cfg), steps).clients|
    ensures FlagsTell(After(cfg, Start(cfg), steps).clients[c], WasCancelled(steps, c), CallbackSucceeded(steps, c),
                      LeaseLost(cfg, steps, c))
    decreases |steps|
  {
    if steps != [] {
      var k := |steps| - 1;
      var front, step := steps[..k], steps[k];
      LegalFront(cfg, Start(cfg), steps);
      assert front + [step] == steps;
      SinceThen(front, step, c);
      LostThen(cfg, front, step, c);
      FlagsHold(cfg, front, c);
      FlagsFollow(cfg, After(cfg, Start(cfg), front), step, c, WasCancelled(front, c), CallbackSucceeded(front, c),
                  LeaseLost(cfg, front, c));
    }
  }

  lemma FlagsFollow(cfg: Config, s: State, step: Step, c: nat, cancelled: bool, succeeded: bool, lost: bool)
    requires Enabled(cfg, s, step) && c < |s.clients| && FlagsTell(s.clients[c], cancelled, succeeded, lost)
    ensures var begins := step.Run? && step.client == c;
            FlagsTell(Apply(cfg, s, step).clients[c], !begins && (step == Cancel(c) || cancelled),
                      !begins && (step == CallbackEnds(c, false) || succeeded),
                      !begins && (LosesLease(s, step, c) || lost))
  {
    if step.Deliver? {
      ReplyKeepsFlags(cfg, s, step, c, cancelled, succeeded, lost);
    } else if step.Run? {
      RunBeginsAnew(cfg, s, step, c, cancelled, succeeded, lost);
    } else {
      StepKeepsFlags(cfg, s, step, c, cancelled, succeeded, lost);
    }
  }

  // ----- How a run ends -----

  predicate IsAwaitedReply(s: State, step: Step, c: nat) {
    step.Deliver? && step.message.client == c && c < |s.clients| && Awaited(s.clients[c], step.message)
  }

  /** The store confirms the release of a run that succeeded and was not cancelled. */
  predicate EndsRan(s: State, steps: seq<Step>, step: Step, c: nat) {
    && IsAwaitedReply(s, step, c) && step.message.ReleaseReply? && step.message.released
    && CallbackSucceeded(steps, c) && !WasCancelled(steps, c)
  }

  /** The store refuses the acquire. */
  predicate EndsContended(s: State, step: Step, c: nat) {
    IsAwaitedReply(s, step, c) && step.message.SetReply? && !step.message.granted
  }

  /** The acquire or the release fails, the lease was lost, or the release was answered to any other run. */
  predicate EndsFailed(cfg: Config, s: State, steps: seq<Step>, step: Step, c: nat)
    requires Legal(cfg, Start(cfg), steps)
  {
    && c < |s.clients|
    && (|| (step == FailRequest(c) && s.clients[c].phase in {Acquiring, Releasing})
        || (step == AfterStop(c) && LeaseLost(cfg, steps, c))
        || (IsAwaitedReply(s, step, c) && step.message.ReleaseReply? && !EndsRan(s, steps, step, c)))
  }

  predicate Forgets(step: Step, c: nat) { (step.Run? || step.Crash?) && step.client == c }

  predicate EndsRun(cfg: Config, s: State, steps: seq<Step>, step: Step, c: nat)
    requires Legal(cfg, Start(cfg), steps)
  {
    || Forgets(step, c) || EndsRan(s, steps, step, c) || EndsContended(s, step, c)
    || EndsFailed(cfg, s, steps, step, c)
  }

  lemma DeliveryOutcome(cfg: Config, s: State, step: Step, c: nat, cancelled: bool, succeeded: bool, lost: bool)
    requires Enabled(cfg, s, step) && step.Deliver? && c < |s.clients|
    requires FlagsTell(s.clients[c], cancelled, succeeded, lost)
    ensures var k, k' := s.clients[c], Apply(cfg, s, step).clients[c];
            if !IsAwaitedReply(s, step, c) then k' == k
            else
              match step.message
              case SetReply(_, _, granted, _) =>
                if granted then k'.phase == InCallback && k'.held == Some(k.candidate) && k'.outcome == k.outcome
                else k'.phase == Idle && k'.outcome == Contended
              case ReleaseReply(_, _, released) =>
                && k'.phase == Idle && k'.held != Some(k.candidate)
                && k'.outcome == (if released && succeeded && !cancelled then Ran else Failed)
              case _ => k'.phase == k.phase && k'.outcome == k.outcome && k'.held == k.held
  {
  }

  lemma OtherStepOutcome(cfg: Config, s: State, step: Step, c: nat, cancelled: bool, succeeded: bool, lost: bool)
    requires Enabled(cfg, s, step) && !step.Deliver? && c < |s.clients|
    requires FlagsTell(s.clients[c], cancelled, succeeded, lost)
    ensures var k, k' := s.clients[c], Apply(cfg, s, step).clients[c];
            k'.outcome == if Forgets(step, c) then NoRun
                          else if step == FailRequest(c) && k.phase in {Acquiring, Releasing} then Failed
                          else if step == AfterStop(c) && lost then Failed
                          else k.outcome
  {
  }

  /** The outcome after a step: what just ended the run, or what it was if nothing did. */
  predicate OutcomeFollows(cfg: Config, s: State, steps: seq<Step>, step: Step, c: nat, before: Outcome, after: Outcome)
    requires Legal(cfg, Start(cfg), steps)
  {
    && (after == Ran <==>
        (EndsRan(s, steps, step, c) || (before == Ran && !EndsRun(cfg, s, steps, step, c))))
    && (after == Contended <==>
        (EndsContended(s, step, c) || (before == Contended && !EndsRun(cfg, s, steps, step, c))))
    && (after == Failed <==>
        (EndsFailed(cfg, s, steps, step, c) || (before == Failed && !EndsRun(cfg, s, steps, step, c))))
  }

  lemma DeliveryTells(cfg: Config, steps: seq<Step>, step: Step, c: nat)
    requires Legal(cfg, Start(cfg), steps) && Enabled(cfg, After(cfg, Start(cfg), steps), step) && step.Deliver?
    requires c < |After(cfg, Start(cfg), steps).clients|
    ensures var s := After(cfg, Start(cfg), steps);
            OutcomeFollows(cfg, s, steps, step, c, s.clients[c].outcome, Apply(cfg, s, step).clients[c].outcome)
  {
    FlagsHold(cfg, steps, c);
    DeliveryOutcome(cfg, After(cfg, Start(cfg), steps), step, c, WasCancelled(steps, c), CallbackSucceeded(steps, c),
                    LeaseLost(cfg, steps, c));
  }

  lemma OtherStepTells(cfg: Config, steps: seq<Step>, step: Step, c: nat)
    requires Legal(cfg, Start(cfg), steps) && Enabled(cfg, After(cfg, Start(cfg), steps), step) && !step.Deliver?
    requires c < |After(cfg, Start(cfg), steps).clients|
    ensures var s := After(cfg, Start(cfg), steps);
            OutcomeFollows(cfg, s, steps, step, c, s.clients[c].outcome, Apply(cfg, s, step).clients[c].outcome)
  {
    FlagsHold(cfg, steps, c);
    OtherStepOutcome(cfg, After(cfg, Start(cfg), steps), step, c, WasCancelled(steps, c), CallbackSucceeded(steps, c),
                     LeaseLost(cfg, steps, c));
  }

  /**
   Over every run of the system, a client's outcome is exactly what ended its latest run:
   "ran" on the confirmed release of a run that succeeded uncancelled, "contended" on a
   refused acquire, "failed" on anything else, until it runs again or its process is gone.
   */
  lemma OutcomeTells(cfg: Config, steps: seq<Step>, step: Step, c: nat)
    requires Legal(cfg, Start(cfg), steps) && Enabled(cfg, After(cfg, Start(cfg), steps), step)
    requires c < |After(cfg, Start(cfg), steps).clients|
    ensures var s := After(cfg, Start(cfg), steps);
            OutcomeFollows(cfg, s, steps, step, c, s.clients[c].outcome, Apply(cfg, s, step).clients[c].outcome)
  {
    if step.Deliver? {
      DeliveryTells(cfg, steps, step, c);
    } else {
      OtherStepTells(cfg, steps, step, c);
    }
  }

  /** Renewals are sent only while the callback runs, the lease is not lost and the run is not cancelled. */
  lemma OnlyLiveRunsRenew(cfg: Config, steps: seq<Step>, c: nat)
    requires Legal(cfg, Start(cfg), steps) && Enabled(cfg, After(cfg, Start(cfg), steps), TimerFires(c))
    ensures var k := After(cfg, Start(cfg), steps).clients[c];
            k.phase == InCallback && !WasCancelled(steps, c) && !LeaseLost(cfg, steps, c)
  {
    FlagsHold(cfg, steps, c);
    HistoryHolds(cfg, Start(cfg), steps);
    assert ClientHistoryOk(After(cfg, Start(cfg), steps), c);
  }

  /** A run that stops without having lost the lease asks the store to release its token. */
  lemma StoppedRunReleases(cfg: Config, steps: seq<Step>, c: nat)
    requires Legal(cfg, Start(cfg), steps) && Enabled(cfg, After(cfg, Start(cfg), steps), AfterStop(c))
    ensures var s := After(cfg, Start(cfg), steps);
            var s' := Apply(cfg, s, AfterStop(c));
            if LeaseLost(cfg, steps, c) then s'.net == s.net && s'.clients[c].phase == Idle
            else ReleaseRequest(c, s.clients[c].candidate) in s'.net && s'.clients[c].phase == Releasing
  {
    FlagsHold(cfg, steps, c);
    HistoryHolds(cfg, Start(cfg), steps);
    assert ClientHistoryOk(After(cfg, Start(cfg), steps), c);
  }

  // ----- A release is answered once -----

  /** The run of this token has asked for its release, or is over. */
  predicate Asked(s: State, c: nat, token: Token) {
    && token < |s.issued|
    && (c < |s.clients| ==> s.clients[c].candidate != token || s.clients[c].phase in {Releasing, Idle})
  }

  /** A release request is unanswered; a reply in flight says whether the store released the token. */
  predicate ReleasesTold(s: State) {
    && (forall m :: m in s.net && m.ReleaseRequest? ==>
          && Asked(s, m.client, m.token) && Released(m.client, m.token) !in s.log
          && ReleaseReply(m.client, m.token, true) !in s.net && ReleaseReply(m.client, m.token, false) !in s.net)
    && (forall m :: m in s.net && m.ReleaseReply? ==>
          Asked(s, m.client, m.token) && (m.released <==> Released(m.client, m.token) in s.log))
    && (forall k :: 0 <= k < |s.log| && s.log[k].Released? ==> Asked(s, s.log[k].client, s.log[k].token))
  }

  lemma ExecuteKeepsReleases(cfg: Config, s: State, step: Step)
    requires ReleasesTold(s) && Enabled(cfg, s, step) && step.Execute?
    ensures ReleasesTold(Apply(cfg, s, step))
  {
  }

  lemma ReplyKeepsReleases(cfg: Config, s: State, step: Step)
    requires ReleasesTold(s) && HistoryInv(s) && Enabled(cfg, s, step) && step.Deliver?
    ensures ReleasesTold(Apply(cfg, s, step))
  {
  }

  lemma AfterStopKeepsReleases(cfg: Config, s: State, step: Step)
    requires ReleasesTold(s) && HistoryInv(s) && Enabled(cfg, s, step) && step.AfterStop?
    ensures ReleasesTold(Apply(cfg, s, step))
  {
    assert ClientHistoryOk(s, step.client);
  }

  lemma OtherStepKeepsReleases(cfg: Config, s: State, step: Step)
    requires ReleasesTold(s) && HistoryInv(s) && Enabled(cfg, s, step)
    requires !step.Execute? && !step.Deliver? && !step.AfterStop?
    ensures ReleasesTold(Apply(cfg, s, step))
  {
    var s' := Apply(cfg, s, step);
    assert s'.log == s.log || step.Expire?;
    forall d: nat, token | Asked(s, d, token) ensures Asked(s', d, token) {
    }
  }

  lemma {:induction false} ReleasesAreTold(cfg: Config, steps: seq<Step>)
    requires Legal(cfg, Start(cfg), steps)
    ensures ReleasesTold(After(cfg, Start(cfg), steps))
    decreases |steps|
  {
    if steps != [] {
      var k := |steps| - 1;
      LegalFront(cfg, Start(cfg), steps);
      ReleasesAreTold(cfg, steps[..k]);
      HistoryHolds(cfg, Start(cfg), steps[..k]);
      var s, step := After(cfg, Start(cfg), steps[..k]), steps[k];
      match step
      case Execute(_) => ExecuteKeepsReleases(cfg, s, step);
      case Deliver(_) => ReplyKeepsReleases(cfg, s, step);
      case AfterStop(_) => AfterStopKeepsReleases(cfg, s, step);
      case _ => OtherStepKeepsReleases(cfg, s, step);
    }
  }

  /**
   When the reply to its release arrives, a run is reported as "ran" if and only if the
   store did release its token, its callback succeeded, and it was not cancelled.
   */
  lemma ReleaseReplyReports(cfg: Config, steps: seq<Step>, m: Message)
    requires Legal(cfg, Start(cfg), steps) && Enabled(cfg, After(cfg, Start(cfg), steps), Deliver(m))
    requires m.ReleaseReply? && Awaited(After(cfg, Start(cfg), steps).clients[m.client], m)
    ensures var s, c := After(cfg, Start(cfg), steps), m.client;
            var k' := Apply(cfg, s, Deliver(m)).clients[c];
            && k'.phase == Idle && k'.outcome in {Ran, Failed}
            && (k'.outcome == Ran <==>
                (Released(c, m.token) in s.log && CallbackSucceeded(steps, c) && !WasCancelled(steps, c)))
  {
    var s, c := After(cfg, Start(cfg), steps), m.client;
    ReleasesAreTold(cfg, steps);
    FlagsHold(cfg, steps, c);
    DeliveryOutcome(cfg, s, Deliver(m), c, WasCancelled(steps, c), CallbackSucceeded(steps, c),
                    LeaseLost(cfg, steps, c));
  }

  // ----- A run alone succeeds -----

  ghost predicate Reaches(cfg: Config, s: State, s': State) {
    exists steps :: Legal(cfg, s, steps) && After(cfg, s, steps) == s'
  }

  lemma Go(cfg: Config, s: State, s': State, step: Step) returns (next: State)
    requires Reaches(cfg, s, s') && Enabled(cfg, s', step)
    ensures Reaches(cfg, s, next) && next == Apply(cfg, s', step)
  {
    var steps :| Legal(cfg, s, steps) && After(cfg, s, steps) == s';
    LegalThen(cfg, s, steps, step);
    next := Apply(cfg, s', step);
  }

  /** On a free entry the acquire is granted and the callback runs. */
  lemma AloneItRuns(cfg: Config, s: State, c: nat) returns (u: State)
    requires s.entry.Free? && c < |s.clients| && s.clients[c].phase == Idle
    ensures Reaches(cfg, s, u) && |u.clients| == |s.clients| && u.entry == Held(|s.issued|, s.now + cfg.ttl)
    ensures var k := u.clients[c];
            && k.phase == InCallback && k.candidate == |s.issued| && k.held == Some(k.candidate)
            && !k.cancelled && !k.lost && !k.timedOut && k.timer == Off
  {
    assert Legal(cfg, s, []) && After(cfg, s, []) == s;
    u := Go(cfg, s, s, Run(c, false));
    u := Go(cfg, s, u, Execute(SetRequest(c, |s.issued|)));
    u := Go(cfg, s, u, Deliver(SetReply(c, |s.issued|, true, s.now)));
  }

  /** A run on a free entry that nobody disturbs is reported as "ran", and frees the entry again. */
  lemma AloneItRan(cfg: Config, s: State, c: nat) returns (u: State)
    requires s.entry.Free? && c < |s.clients| && s.clients[c].phase == Idle
    ensures Reaches(cfg, s, u) && c < |u.clients| && u.clients[c].outcome == Ran && u.entry.Free?
  {
    u := AloneItRuns(cfg, s, c);
    u := Go(cfg, s, u, CallbackEnds(c, false));
    u := Go(cfg, s, u, AfterStop(c));
    u := AloneItReleases(cfg, s, u, c);
  }

  lemma AloneItReleases(cfg: Config, s: State, v: State, c: nat) returns (u: State)
    requires Reaches(cfg, s, v) && c < |v.clients| && v.clients[c].phase == Releasing
    requires var k := v.clients[c];
             && v.entry.Held? && v.entry.token == k.candidate && ReleaseRequest(c, k.candidate) in v.net
             && !k.callbackFailed && !k.cancelled
    ensures Reaches(cfg, s, u) && c < |u.clients| && u.clients[c].outcome == Ran && u.entry.Free?
  {
    var token := v.clients[c].candidate;
    u := Go(cfg, s, v, Execute(ReleaseRequest(c, token)));
    u := Go(cfg, s, u, Deliver(ReleaseReply(c, token, true)));
  }
}
