/**
 One check under the watchdog, the prober, pings and edits, each of them reading first and
 committing later (worker/src/watchdog.ts, worker/src/probe-handler.ts,
 worker/src/probe-scheduler.ts, api/src/ping/ping.service.ts, api/src/checks/checks.service.ts).
 */
module CheckLifecycle {
  import opened CheckStatus
  import opened Options
  import opened CheckUpdate
  import Aggregate = OverviewAggregate
  import Totals = OverviewTotals

  // ----- Selection -----

  predicate HasCadence(c: Check) { c.heartbeat.periodSeconds.Some? || c.heartbeat.schedule.Some? }

  /** The rows the sweep reads, and the condition it writes under. */
  predicate Sweepable(c: Check) { (c.status == UP || c.status == GRACE) && HasCadence(c) }

  predicate Overdue(c: Check, now: int, fire: Aggregate.CronFire) {
    && c.lastEventAt.Some?
    && var grace := c.heartbeat.graceSeconds.GetOr(0) * 1000;
       if c.heartbeat.schedule.Some? && c.heartbeat.schedule.value != "" then
         fire(c.heartbeat.schedule.value, c.heartbeat.tz.GetOr("UTC"), c.lastEventAt.value) + grace < now
       else
         c.heartbeat.periodSeconds.Some?
         && c.lastEventAt.value + c.heartbeat.periodSeconds.value * 1000 + grace < now
  }

  predicate SweepSelects(c: Check, now: int, fire: Aggregate.CronFire) {
    Sweepable(c) && c.lastEventAt.Some? && Overdue(c, now, fire)
  }

  predicate IsProbed(c: Check) { c.kind == "HTTP" || c.kind == "TCP" }

  predicate ProbeSelects(c: Check) { IsProbed(c) && c.status != PAUSED && c.active.intervalSeconds.Some? }

  /**
   On well-formed rows the prober selects exactly the active checks that are not paused, and
   the watchdog only heartbeats that are up or in grace: never the same check.
   */
  lemma SelectionsAreDisjoint(c: Check, now: int, fire: Aggregate.CronFire)
    requires WellFormed(c)
    ensures Sweepable(c) ==> c.kind == "HEARTBEAT"
    ensures ProbeSelects(c) ==> c.kind != "HEARTBEAT" && !SweepSelects(c, now, fire)
    ensures c.kind == "HEARTBEAT" && c.lastEventAt.None? ==> !SweepSelects(c, now, fire)
    ensures ProbeSelects(c) <==> c.kind != "HEARTBEAT" && c.status != PAUSED
    ensures Sweepable(c) <==> c.kind == "HEARTBEAT" && c.status in {UP, GRACE}
  {
  }

  // ----- The dashboard's prediction -----

  function OverviewRow(id: string, organization: string, createdAt: int, c: Check): Totals.Check {
    Totals.Check(id, organization, c.kind, c.status, createdAt, c.lastEventAt, c.heartbeat.periodSeconds,
                 c.heartbeat.graceSeconds, c.heartbeat.schedule, c.heartbeat.tz)
  }

  predicate PredictedDown(row: Totals.Check, now: int, fire: Aggregate.CronFire) {
    var late := Aggregate.LateState(row, now, fire);
    late.Some? && late.value.downAt < now
  }

  /**
   At every instant the watchdog finds an up heartbeat overdue exactly when the time the overview showed for
   it has passed.
   */
  ghost predicate PredictionAgrees(row: Totals.Check, c: Check, fire: Aggregate.CronFire) {
    forall now: int :: PredictedDown(row, now, fire) <==> Overdue(c, now, fire)
  }

  /** The prediction is right exactly when the grace is not negative. */
  lemma PredictionAgreesIff(id: string, organization: string, createdAt: int, c: Check, fire: Aggregate.CronFire)
    requires HeartbeatShaped(c) && c.status == UP && c.lastEventAt.Some?
    ensures PredictionAgrees(OverviewRow(id, organization, createdAt, c), c, fire) <==>
            c.heartbeat.graceSeconds.value >= 0
  {
    var row := OverviewRow(id, organization, createdAt, c);
    var expected :=
      if c.heartbeat.schedule.Some? then
        fire(c.heartbeat.schedule.value, c.heartbeat.tz.value, c.lastEventAt.value)
      else c.lastEventAt.value + c.heartbeat.periodSeconds.value * 1000;
    var grace := c.heartbeat.graceSeconds.value * 1000;
    forall now: int ensures Overdue(c, now, fire) <==> expected + grace < now {
    }
    forall now: int ensures PredictedDown(row, now, fire) <==> expected < now && expected + grace < now {
    }
    if grace < 0 {
      assert Overdue(c, expected, fire) && !PredictedDown(row, expected, fire);
    }
  }

  // ----- The machine -----

  /** What a reader may conclude of the alerts: alerts, and the points where the status was reset by hand. */
  datatype Entry = DownAlert | RecoveryAlert | Reset

  /** `candidates` holds the row a sweep read, and when; `probes` and `pings` passed their first look at the row. */
  datatype World = World(
    now: int, row: Option<Check>, candidates: map<nat, (Check, int)>, probes: set<nat>, pings: set<nat>,
    log: seq<Entry>)

  datatype Step =
    | Advance(to: int)
    | ReadCandidate(id: nat)
    | SweepTx(id: nat)
    | StartProbe(id: nat)
    | ProbeTx(id: nat, up: bool)
    | StartPing(id: nat)
    | PingTx(id: nat)
    | PauseTx
    | ResumeTx
    | UpdateTx(input: CheckInput, freshSlug: string)
    | DeleteTx

  datatype Setting = Setting(env: Env, fire: Aggregate.CronFire)

  predicate Enabled(ctx: Setting, w: World, step: Step) {
    match step
    case Advance(to) => w.now < to
    case ReadCandidate(id) => id !in w.candidates && w.row.Some? && SweepSelects(w.row.value, w.now, ctx.fire)
    case SweepTx(id) => id in w.candidates
    case StartProbe(id) => id !in w.probes && w.row.Some? && w.row.value.status != PAUSED && IsProbed(w.row.value)
    case ProbeTx(id, _) => id in w.probes
    case StartPing(id) => id !in w.pings && w.row.Some? && w.row.value.kind == "HEARTBEAT"
    case PingTx(id) => id in w.pings
    case PauseTx => w.row.Some?
    case ResumeTx => w.row.Some?
    case UpdateTx(input, _) => w.row.Some? && ResolveCheckUpdate(ctx.env, w.row.value, input).Ok?
    case DeleteTx => w.row.Some?
  }

  function Swept(row: Check): (Check, seq<Entry>) {
    if Sweepable(row) then (row.(status := DOWN), [DownAlert]) else (row, [])
  }

  function Probed(row: Check, up: bool, now: int): (Check, seq<Entry>) {
    if row.status == PAUSED || !IsProbed(row) then (row, [])
    else
      (row.(status := if up then UP else DOWN, lastEventAt := Some(now)),
       if !up && row.status != DOWN then [DownAlert] else if up && row.status == DOWN then [RecoveryAlert] else [])
  }

  function Pinged(row: Check, now: int): (Check, seq<Entry>) {
    if row.kind != "HEARTBEAT" then (row, [])
    else (row.(status := UP, lastEventAt := Some(now)), if row.status == DOWN then [RecoveryAlert] else [])
  }

  function Edited(ctx: Setting, row: Check, input: CheckInput, freshSlug: string): (Check, seq<Entry>)
    requires ResolveCheckUpdate(ctx.env, row, input).Ok?
  {
    var resolved := ResolveCheckUpdate(ctx.env, row, input).value;
    (Written(row, resolved, freshSlug), if resolved.data.restart then [Reset] else [])
  }

  function Commit(w: World, result: (Check, seq<Entry>)): World { w.(row := Some(result.0), log := w.log + result.1) }

  function Apply(ctx: Setting, w: World, step: Step): World
    requires Enabled(ctx, w, step)
  {
    match step
    case Advance(to) => w.(now := to)
    case ReadCandidate(id) => w.(candidates := w.candidates[id := (w.row.value, w.now)])
    case SweepTx(id) =>
      var w' := w.(candidates := w.candidates - {id});
      if w.row.None? then w' else Commit(w', Swept(w.row.value))
    case StartProbe(id) => w.(probes := w.probes + {id})
    case ProbeTx(id, up) =>
      var w' := w.(probes := w.probes - {id});
      if w.row.None? then w' else Commit(w', Probed(w.row.value, up, w.now))
    case StartPing(id) => w.(pings := w.pings + {id})
    case PingTx(id) =>
      var w' := w.(pings := w.pings - {id});
      if w.row.None? then w' else Commit(w', Pinged(w.row.value, w.now))
    case PauseTx => Commit(w, (w.row.value.(status := PAUSED), [Reset]))
    case ResumeTx => Commit(w, (w.row.value.(status := NEW), [Reset]))
    case UpdateTx(input, freshSlug) => Commit(w, Edited(ctx, w.row.value, input, freshSlug))
    case DeleteTx => w.(row := None)
  }

  /** A check as it is created. */
  predicate IsInitial(w: World) {
    && w.row.Some? && WellFormed(w.row.value) && w.row.value.status == NEW && w.row.value.lastEventAt.None?
    && w.candidates == map[] && w.probes == {} && w.pings == {} && w.log == []
  }

  predicate Legal(ctx: Setting, w: World, steps: seq<Step>)
    decreases |steps|
  {
    steps == [] || (Enabled(ctx, w, steps[0]) && Legal(ctx, Apply(ctx, w, steps[0]), steps[1..]))
  }

  function After(ctx: Setting, w: World, steps: seq<Step>): World
    requires Legal(ctx, w, steps)
    decreases |steps|
  {
    if steps == [] then w else After(ctx, Apply(ctx, w, steps[0]), steps[1..])
  }

  // ----- Alerts alternate -----

  /** A recovery directly follows a down alert, and a down alert never does. */
  predicate Alternates(log: seq<Entry>) {
    forall i :: 0 <= i < |log| ==> EntryFits(log, i)
  }

  predicate EntryFits(log: seq<Entry>, i: nat)
    requires i < |log|
  {
    && (log[i] == RecoveryAlert ==> 0 < i && log[i - 1] == DownAlert)
    && (log[i] == DownAlert ==> i == 0 || log[i - 1] != DownAlert)
  }

  predicate EndsDown(log: seq<Entry>) { log != [] && log[|log| - 1] == DownAlert }

  /** The row is down exactly when the last entry says so. */
  predicate Inv(w: World) {
    && Alternates(w.log)
    && (w.row.Some? ==> WellFormed(w.row.value) && (w.row.value.status == DOWN <==> EndsDown(w.log)))
  }

  lemma LogKeepsAlternating(log: seq<Entry>, added: seq<Entry>)
    requires Alternates(log) && |added| <= 1
    requires added == [RecoveryAlert] ==> EndsDown(log)
    requires added == [DownAlert] ==> !EndsDown(log)
    ensures Alternates(log + added)
  {
    forall i | 0 <= i < |log + added| ensures EntryFits(log + added, i) {
      assert i < |log| ==> EntryFits(log, i);
    }
  }

  lemma CommitKeepsInv(w: World, row: Check, added: seq<Entry>)
    requires Inv(w) && w.row.Some? && WellFormed(row) && |added| <= 1
    requires added == [RecoveryAlert] ==> EndsDown(w.log)
    requires added == [DownAlert] ==> !EndsDown(w.log)
    requires row.status == DOWN <==> if added == [] then EndsDown(w.log) else added[0] == DownAlert
    ensures Inv(Commit(w, (row, added)))
  {
    LogKeepsAlternating(w.log, added);
  }

  lemma SweepKeepsInv(w: World)
    requires Inv(w) && w.row.Some?
    ensures Inv(Commit(w, Swept(w.row.value)))
  {
    var (row, added) := Swept(w.row.value);
    CommitKeepsInv(w, row, added);
  }

  lemma ProbeKeepsInv(w: World, up: bool)
    requires Inv(w) && w.row.Some?
    ensures Inv(Commit(w, Probed(w.row.value, up, w.now)))
  {
    var (row, added) := Probed(w.row.value, up, w.now);
    CommitKeepsInv(w, row, added);
  }

  lemma PingKeepsInv(w: World)
    requires Inv(w) && w.row.Some?
    ensures Inv(Commit(w, Pinged(w.row.value, w.now)))
  {
    var (row, added) := Pinged(w.row.value, w.now);
    CommitKeepsInv(w, row, added);
  }

  lemma ResetKeepsInv(w: World, status: Status)
    requires Inv(w) && w.row.Some? && status != DOWN
    ensures Inv(Commit(w, (w.row.value.(status := status), [Reset])))
  {
    CommitKeepsInv(w, w.row.value.(status := status), [Reset]);
  }

  lemma EditKeepsInv(ctx: Setting, w: World, input: CheckInput, freshSlug: string)
    requires Inv(w) && w.row.Some? && ResolveCheckUpdate(ctx.env, w.row.value, input).Ok?
    ensures Inv(Commit(w, Edited(ctx, w.row.value, input, freshSlug)))
  {
    UpdatesAreWellFormed(ctx.env, w.row.value, input, freshSlug);
    var (row, added) := Edited(ctx, w.row.value, input, freshSlug);
    CommitKeepsInv(w, row, added);
  }

  lemma StepKeepsInv(ctx: Setting, w: World, step: Step)
    requires Inv(w) && Enabled(ctx, w, step)
    ensures Inv(Apply(ctx, w, step))
  {
    if w.row.Some? {
      match step
      case SweepTx(_) => SweepKeepsInv(w);
      case ProbeTx(_, up) => ProbeKeepsInv(w, up);
      case PingTx(_) => PingKeepsInv(w);
      case PauseTx => ResetKeepsInv(w, PAUSED);
      case ResumeTx => ResetKeepsInv(w, NEW);
      case UpdateTx(input, freshSlug) => EditKeepsInv(ctx, w, input, freshSlug);
      case _ =>
    }
  }

  lemma {:induction false} RunKeepsInv(ctx: Setting, w: World, steps: seq<Step>)
    requires Inv(w) && Legal(ctx, w, steps)
    ensures Inv(After(ctx, w, steps))
    decreases |steps|
  {
    if steps != [] {
      StepKeepsInv(ctx, w, steps[0]);
      RunKeepsInv(ctx, Apply(ctx, w, steps[0]), steps[1..]);
    }
  }

  /** In every run of a check, every recovery alert directly follows a down alert ... */
  lemma RecoveriesFollowDowns(ctx: Setting, w: World, steps: seq<Step>, i: nat)
    requires IsInitial(w) && Legal(ctx, w, steps)
    requires var log := After(ctx, w, steps).log; i < |log| && log[i] == RecoveryAlert
    ensures var log := After(ctx, w, steps).log; 0 < i && log[i - 1] == DownAlert
  {
    RunKeepsInv(ctx, w, steps);
    assert EntryFits(After(ctx, w, steps).log, i);
  }

  /** ... and two down alerts without a recovery between them have a pause, resume or conversion between them. */
  lemma DownsAreSeparated(ctx: Setting, w: World, steps: seq<Step>, i: nat, j: nat)
    requires IsInitial(w) && Legal(ctx, w, steps)
    requires var log := After(ctx, w, steps).log;
             i < j < |log| && log[i] == DownAlert && log[j] == DownAlert && RecoveryAlert !in log[i..j]
    ensures var log := After(ctx, w, steps).log; exists k :: i < k < j && log[k] == Reset
  {
    RunKeepsInv(ctx, w, steps);
    var log := After(ctx, w, steps).log;
    assert EntryFits(log, j);
    assert log[i..j][j - 1 - i] == log[j - 1];
    assert i < j - 1 && log[j - 1] == Reset;
  }

  /** At every reachable state a check is down exactly if the last thing logged of it is a down alert. */
  lemma DownMeansAlerted(ctx: Setting, w: World, steps: seq<Step>)
    requires IsInitial(w) && Legal(ctx, w, steps) && After(ctx, w, steps).row.Some?
    ensures var v := After(ctx, w, steps); v.row.value.status == DOWN <==> EndsDown(v.log)
  {
    RunKeepsInv(ctx, w, steps);
  }

  /** What a step on a check's row leaves in its status and last event. */
  predicate StepEffect(ctx: Setting, w: World, step: Step, a: Check, b: Check) {
    match step
    case SweepTx(_) => b == a.(status := if Sweepable(a) then DOWN else a.status)
    case ProbeTx(_, up) =>
      if (a.kind == "HTTP" || a.kind == "TCP") && a.status != PAUSED then
        b == a.(status := if up then UP else DOWN, lastEventAt := Some(w.now))
      else b == a
    case PingTx(_) => if a.kind == "HEARTBEAT" then b == a.(status := UP, lastEventAt := Some(w.now)) else b == a
    case PauseTx => b == a.(status := PAUSED)
    case ResumeTx => b == a.(status := NEW)
    case UpdateTx(_, _) =>
      if a.kind != "HEARTBEAT" && b.kind == "HEARTBEAT" then b.status == NEW && b.lastEventAt.None?
      else b.status == a.status && b.lastEventAt == a.lastEventAt
    case _ => b == a
  }

  /**
   A sweep, a probe and a ping alert exactly when they take a check down or bring it back; a
   pause, a resume and a conversion to heartbeat are the only other entries.
   */
  predicate EntryEffect(step: Step, a: Check, b: Check, added: seq<Entry>) {
    added
    == if step.PauseTx? || step.ResumeTx? || (step.UpdateTx? && a.kind != "HEARTBEAT" && b.kind == "HEARTBEAT")
       then [Reset]
       else if a.status != DOWN && b.status == DOWN then [DownAlert]
       else if a.status == DOWN && b.status != DOWN then [RecoveryAlert]
       else []
  }

  predicate HasEffect(ctx: Setting, w: World, step: Step, w': World)
    requires w.row.Some?
  {
    && w'.row.Some? && StepEffect(ctx, w, step, w.row.value, w'.row.value)
    && w.log <= w'.log && EntryEffect(step, w.row.value, w'.row.value, w'.log[|w.log|..])
  }

  lemma EditsResetOnConversion(ctx: Setting, w: World, step: Step)
    requires w.row.Some? && Enabled(ctx, w, step) && step.UpdateTx?
    ensures HasEffect(ctx, w, step, Apply(ctx, w, step))
  {
    ConversionsRestart(ctx.env, w.row.value, step.input, step.freshSlug);
  }

  lemma ActorsAlertOnChange(ctx: Setting, w: World, step: Step)
    requires w.row.Some? && Enabled(ctx, w, step) && !step.UpdateTx? && !step.DeleteTx?
    ensures HasEffect(ctx, w, step, Apply(ctx, w, step))
  {
  }

  /** Every step on a check has exactly these effects; a deletion logs nothing. */
  lemma StepsAlertOnChange(ctx: Setting, w: World, step: Step)
    requires w.row.Some? && Enabled(ctx, w, step)
    ensures if step.DeleteTx? then Apply(ctx, w, step).row.None? && Apply(ctx, w, step).log == w.log
            else HasEffect(ctx, w, step, Apply(ctx, w, step))
  {
    if step.UpdateTx? {
      EditsResetOnConversion(ctx, w, step);
    } else if !step.DeleteTx? {
      ActorsAlertOnChange(ctx, w, step);
    }
  }

  // ----- Who may change a check -----

  /**
   Over every run the watchdog downs only heartbeats, probes move only HTTP and TCP checks, and pings only
   heartbeats.
   */
  lemma EachActorKeepsToItsMode(ctx: Setting, w: World, steps: seq<Step>, step: Step)
    requires IsInitial(w) && Legal(ctx, w, steps) && Enabled(ctx, After(ctx, w, steps), step)
    ensures var before := After(ctx, w, steps);
            var after := Apply(ctx, before, step);
            before.row.Some? && after.row != before.row ==>
              && (step.SweepTx? ==> before.row.value.kind == "HEARTBEAT" && !IsProbed(before.row.value))
              && (step.ProbeTx? ==> IsProbed(before.row.value) && before.row.value.heartbeat == NO_HEARTBEAT)
              && (step.PingTx? ==> before.row.value.kind == "HEARTBEAT")
  {
    RunKeepsInv(ctx, w, steps);
  }

  // ----- What the watchdog knew -----

  ghost predicate CandidatesWereOverdue(ctx: Setting, w: World) {
    forall id :: id in w.candidates ==>
      w.candidates[id].1 <= w.now && SweepSelects(w.candidates[id].0, w.candidates[id].1, ctx.fire)
  }

  lemma StepKeepsCandidates(ctx: Setting, w: World, step: Step)
    requires CandidatesWereOverdue(ctx, w) && Enabled(ctx, w, step)
    ensures CandidatesWereOverdue(ctx, Apply(ctx, w, step))
  {
  }

  lemma {:induction false} RunKeepsCandidates(ctx: Setting, w: World, steps: seq<Step>)
    requires CandidatesWereOverdue(ctx, w) && Legal(ctx, w, steps)
    ensures CandidatesWereOverdue(ctx, After(ctx, w, steps))
    decreases |steps|
  {
    if steps != [] {
      StepKeepsCandidates(ctx, w, steps[0]);
      RunKeepsCandidates(ctx, Apply(ctx, w, steps[0]), steps[1..]);
    }
  }

  predicate SameTiming(a: Check, b: Check) { a.heartbeat == b.heartbeat && a.lastEventAt == b.lastEventAt }

  /**
   The watchdog downs only what was overdue when it read it; still overdue under the lock, if event and
   cadence are those it read.
   */
  lemma SweptWasOverdue(ctx: Setting, w: World, steps: seq<Step>, id: nat)
    requires IsInitial(w) && Legal(ctx, w, steps) && Enabled(ctx, After(ctx, w, steps), SweepTx(id))
    ensures var before := After(ctx, w, steps);
            var (seen, at) := before.candidates[id];
            && SweepSelects(seen, at, ctx.fire)
            && (before.row.Some? && SameTiming(before.row.value, seen) ==>
                Overdue(before.row.value, before.now, ctx.fire))
  {
    RunKeepsCandidates(ctx, w, steps);
  }

  lemma {:induction false} LegalThen(ctx: Setting, w: World, steps: seq<Step>, step: Step)
    requires Legal(ctx, w, steps) && Enabled(ctx, After(ctx, w, steps), step)
    ensures Legal(ctx, w, steps + [step])
    ensures After(ctx, w, steps + [step]) == Apply(ctx, After(ctx, w, steps), step)
    decreases |steps|
  {
    if steps == [] {
      assert Legal(ctx, Apply(ctx, w, step), []);
      assert (steps + [step])[1..] == [];
    } else {
      LegalThen(ctx, Apply(ctx, w, steps[0]), steps[1..], step);
      assert (steps + [step])[1..] == steps[1..] + [step];
    }
  }

  function PingedAt(row: Check, at: int): Check { row.(status := UP, lastEventAt := Some(at)) }

  /** A heartbeat pinged once and then left alone until it is overdue. */
  lemma PingedOnce(ctx: Setting, w: World, late: int) returns (steps: seq<Step>)
    requires IsInitial(w) && w.row.value.kind == "HEARTBEAT" && w.now < late
    ensures Legal(ctx, w, steps)
    ensures After(ctx, w, steps) == w.(now := late, row := Some(PingedAt(w.row.value, w.now)))
  {
    assert Legal(ctx, w, []) && After(ctx, w, []) == w;
    LegalThen(ctx, w, [], StartPing(0));
    LegalThen(ctx, w, [] + [StartPing(0)], PingTx(0));
    steps := [] + [StartPing(0)] + [PingTx(0)];
    LegalThen(ctx, w, steps, Advance(late));
    steps := steps + [Advance(late)];
  }

  /**
   A ping between the read and the write is not noticed: the check goes down at the very moment of its last
   event. This needs only an instant `late` at which a first ping is overdue and a new one is not.
   */
  lemma SweepMayDownAFreshCheck(ctx: Setting, w: World, late: int, id: nat)
    requires IsInitial(w) && w.row.value.kind == "HEARTBEAT" && w.now < late
    requires Overdue(PingedAt(w.row.value, w.now), late, ctx.fire)
             && !Overdue(PingedAt(w.row.value, late), late, ctx.fire)
    ensures exists steps ::
              && Legal(ctx, w, steps) && Enabled(ctx, After(ctx, w, steps), SweepTx(id))
              && var before := After(ctx, w, steps);
                 && before.row.Some? && !Overdue(before.row.value, before.now, ctx.fire)
                 && before.row.value.lastEventAt == Some(before.now)
                 && Apply(ctx, before, SweepTx(id)).row == Some(before.row.value.(status := DOWN))
  {
    var steps := PingedOnce(ctx, w, late);
    LegalThen(ctx, w, steps, ReadCandidate(id));
    steps := steps + [ReadCandidate(id)];
    LegalThen(ctx, w, steps, StartPing(0));
    steps := steps + [StartPing(0)];
    LegalThen(ctx, w, steps, PingTx(0));
    steps := steps + [PingTx(0)];
    assert Legal(ctx, w, steps);
  }

  /** Every period heartbeat whose period and grace are not negative has such an instant. */
  lemma PeriodHeartbeatsGetOverdue(row: Check, at: int, fire: Aggregate.CronFire) returns (late: int)
    requires HeartbeatShaped(row) && row.heartbeat.periodSeconds.Some?
    requires row.heartbeat.periodSeconds.value >= 0 && row.heartbeat.graceSeconds.value >= 0
    ensures at < late && Overdue(PingedAt(row, at), late, fire) && !Overdue(PingedAt(row, late), late, fire)
  {
    late := at + (row.heartbeat.periodSeconds.value + row.heartbeat.graceSeconds.value) * 1000 + 1;
  }

  /** Every cron heartbeat whose schedule fires later than asked, and whose grace is not negative, has one too. */
  lemma CronHeartbeatsGetOverdue(row: Check, at: int, fire: Aggregate.CronFire) returns (late: int)
    requires HeartbeatShaped(row) && row.heartbeat.schedule.Some? && row.heartbeat.graceSeconds.value >= 0
    requires forall schedule, tz, t :: t <= fire(schedule, tz, t)
    ensures at < late && Overdue(PingedAt(row, at), late, fire) && !Overdue(PingedAt(row, late), late, fire)
  {
    var expected := fire(row.heartbeat.schedule.value, row.heartbeat.tz.value, at);
    late := expected + row.heartbeat.graceSeconds.value * 1000 + 1;
  }
}
