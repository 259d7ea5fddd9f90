/**
 The scheduler lease (worker/src/lease.ts) as a timed protocol: any number of clients,
 one store entry with an expiry, requests and replies in flight, and a clock.

 Each handler of the source runs to completion between two awaits, so it is one step.
 */
module LeaseProtocol {
  import opened Options

  /** Tokens are numbered in the order they are drawn; no number is drawn twice. */
  type Token = nat

  // ----- The store -----

  datatype Entry = Free | Held(token: Token, expiry: nat)

  /** `SET key token PX ttl NX`. */
  function StoreSet(entry: Entry, token: Token, now: nat, ttl: nat): (Entry, bool) {
    if entry.Free? then (Held(token, now + ttl), true) else (entry, false)
  }

  /** The compare-and-expire script. */
  function StoreRenew(entry: Entry, token: Token, now: nat, ttl: nat): (Entry, bool) {
    if entry.Held? && entry.token == token then (Held(token, now + ttl), true) else (entry, false)
  }

  /** The compare-and-delete script. */
  function StoreRelease(entry: Entry, token: Token): (Entry, bool) {
    if entry.Held? && entry.token == token then (Free, true) else (entry, false)
  }

  // ----- One client -----

  datatype Phase = Idle | Acquiring | InCallback | Stopping | Releasing

  datatype Timer =
    | Off
    | Waiting(due: nat)
    | Renewing(serial: nat, deadline: nat)

  datatype Outcome = NoRun | Ran | Contended | Failed

  /**
   `candidate` is the token of the current run, `held` the instance's token field.
   `serial` numbers the renewals, so that a late reply is told from the current one.
   */
  datatype Client = Client(
    phase: Phase, candidate: Token, held: Option<Token>, renews: bool, timer: Timer, serial: nat,
    aborted: bool, cancelled: bool, callbackFailed: bool, lost: bool, timedOut: bool, stopRequested: bool,
    outcome: Outcome)

  const IDLE_CLIENT :=
    Client(Idle, 0, None, false, Off, 0, false, false, false, false, false, false, NoRun)

  /** The renewal interval, which is also the deadline of each renewal. */
  function Interval(ttl: nat): (d: nat)
    ensures d >= 1
    ensures ttl >= 3 ==> 3 * d <= ttl < 3 * d + 3
  {
    if ttl / 3 < 1 then 1 else ttl / 3
  }

  function BeginRun(k: Client, token: Token, renews: bool): Client {
    Client(Acquiring, token, k.held, renews, Off, k.serial, false, false, false, false, false, false, NoRun)
  }

  function AcquireGranted(k: Client, now: nat, d: nat): Client {
    k.(phase := InCallback, held := Some(k.candidate), timer := if k.renews then Waiting(now + d) else Off)
  }

  function AcquireRefused(k: Client, outcome: Outcome): Client {
    k.(phase := Idle, outcome := outcome)
  }

  function RenewalDue(k: Client, now: nat, d: nat): Client {
    k.(timer := Renewing(k.serial, now + d), serial := k.serial + 1)
  }

  function LoseOwnership(k: Client): Client {
    k.(lost := true, aborted := true, timer := Off)
  }

  function DeadlinePassed(k: Client): Client {
    LoseOwnership(k.(timedOut := true))
  }

  function RenewalSettled(k: Client, renewed: bool, now: nat, d: nat): Client {
    if !renewed then LoseOwnership(k)
    else k.(timer := if k.stopRequested then Off else Waiting(now + d))
  }

  /** Stopping clears the interval timer; a renewal in flight is left to settle. */
  function StopRenewal(k: Client): Client {
    k.(stopRequested := true, timer := if k.timer.Waiting? then Off else k.timer)
  }

  function CancelRun(k: Client): Client {
    StopRenewal(k.(cancelled := true, aborted := true))
  }

  function CallbackSettled(k: Client, failed: bool): Client {
    StopRenewal(k.(phase := Stopping, callbackFailed := failed))
  }

  /** The release is sent only when no renewal timed out and ownership was not lost. */
  predicate ReleaseIsSafe(k: Client) { !k.timedOut && !k.lost }

  function RenewalStopped(k: Client): Client {
    if ReleaseIsSafe(k) then k.(phase := Releasing) else k.(phase := Idle, outcome := Failed)
  }

  function ReleaseSettled(k: Client, released: bool): Client {
    k.(phase := Idle, held := if k.held == Some(k.candidate) then None else k.held,
       outcome := if released && !k.callbackFailed && !k.cancelled then Ran else Failed)
  }

  /** A new process: nothing is remembered; the numbering goes on so that old replies stay recognisable. */
  function Crashed(k: Client): Client {
    IDLE_CLIENT.(candidate := k.candidate, serial := k.serial)
  }

  /** The callback is running in a renewing run and its abort signal has not fired. */
  predicate Protected(k: Client) { k.phase == InCallback && k.renews && !k.aborted }

  // ----- The system -----

  datatype Message =
    | SetRequest(client: nat, token: Token)
    | SetReply(client: nat, token: Token, granted: bool, executedAt: nat)
    | RenewRequest(client: nat, token: Token, serial: nat)
    | RenewReply(client: nat, token: Token, serial: nat, renewed: bool)
    | ReleaseRequest(client: nat, token: Token)
    | ReleaseReply(client: nat, token: Token, released: bool)

  /** What happened to the store entry, and at whose request. */
  datatype Event =
    | Acquired(client: nat, token: Token)
    | Renewed(client: nat, token: Token)
    | Released(client: nat, token: Token)
    | Expired(token: Token)

  /** `acquireBound` limits how late the reply to a granted acquire may arrive after its execution. */
  datatype Config = Config(clients: nat, ttl: nat, acquireBound: nat)

  /** `issued[t]` is the client that drew token `t`. */
  datatype State = State(
    now: nat, entry: Entry, clients: seq<Client>, net: set<Message>, issued: seq<nat>, log: seq<Event>)

  function Start(cfg: Config): State {
    State(0, Free, seq(cfg.clients, _ => IDLE_CLIENT), {}, [], [])
  }

  datatype Step =
    | Advance(to: nat)
    | Expire
    | Run(client: nat, renews: bool)
    | Execute(message: Message)
    | Drop(message: Message)
    | Deliver(message: Message)
    | FailRequest(client: nat)
    | TimerFires(client: nat)
    | DeadlineFires(client: nat)
    | Cancel(client: nat)
    | CallbackEnds(client: nat, failed: bool)
    | AfterStop(client: nat)
    | Crash(client: nat)

  predicate TimerBefore(k: Client, t: nat) {
    match k.timer
    case Off => false
    case Waiting(due) => due < t
    case Renewing(_, deadline) => deadline < t
  }

  predicate NoTimerBefore(clients: seq<Client>, t: nat) {
    forall c :: 0 <= c < |clients| ==> !TimerBefore(clients[c], t)
  }

  /** A reply that its client is still waiting for. */
  predicate Awaited(k: Client, m: Message) {
    match m
    case SetReply(_, token, _, _) => k.phase == Acquiring && k.candidate == token
    case RenewReply(_, token, serial, _) => k.timer.Renewing? && k.timer.serial == serial && k.held == Some(token)
    case ReleaseReply(_, token, _) => k.phase == Releasing && k.candidate == token
    case _ => false
  }

  /**
   Timers are exact: the clock cannot pass a due timer, and an entry that expires at
   the same instant as a timer expires after it.
   */
  predicate Enabled(cfg: Config, s: State, step: Step) {
    match step
    case Advance(to) =>
      s.now < to && NoTimerBefore(s.clients, to) && (s.entry.Held? ==> to <= s.entry.expiry)
    case Expire => s.entry.Held? && s.entry.expiry <= s.now && NoTimerBefore(s.clients, s.now + 1)
    case Run(c, _) => c < |s.clients| && s.clients[c].phase == Idle
    case Execute(m) => m in s.net && (m.SetRequest? || m.RenewRequest? || m.ReleaseRequest?)
    case Drop(m) => m in s.net
    case Deliver(m) =>
      && m in s.net && (m.SetReply? || m.RenewReply? || m.ReleaseReply?) && m.client < |s.clients|
      && (m.SetReply? && m.granted ==> s.now <= m.executedAt + cfg.acquireBound)
    case FailRequest(c) =>
      c < |s.clients|
      && (s.clients[c].phase == Acquiring || s.clients[c].phase == Releasing || s.clients[c].timer.Renewing?)
    case TimerFires(c) => c < |s.clients| && s.clients[c].timer.Waiting? && s.clients[c].timer.due <= s.now
    case DeadlineFires(c) => c < |s.clients| && s.clients[c].timer.Renewing? && s.clients[c].timer.deadline <= s.now
    case Cancel(c) => c < |s.clients| && s.clients[c].phase == InCallback
    case CallbackEnds(c, _) => c < |s.clients| && s.clients[c].phase == InCallback
    case AfterStop(c) => c < |s.clients| && s.clients[c].phase == Stopping && s.clients[c].timer == Off
    case Crash(c) => c < |s.clients|
  }

  function WithClient(s: State, c: nat, k: Client): State
    requires c < |s.clients|
  {
    s.(clients := s.clients[c := k])
  }

  function ExecuteRequest(cfg: Config, s: State, m: Message): State
    requires m.SetRequest? || m.RenewRequest? || m.ReleaseRequest?
  {
    var net := s.net - {m};
    match m
    case SetRequest(c, token) =>
      var (entry, granted) := StoreSet(s.entry, token, s.now, cfg.ttl);
      s.(entry := entry, net := net + {SetReply(c, token, granted, s.now)},
         log := if granted then s.log + [Acquired(c, token)] else s.log)
    case RenewRequest(c, token, serial) =>
      var (entry, renewed) := StoreRenew(s.entry, token, s.now, cfg.ttl);
      s.(entry := entry, net := net + {RenewReply(c, token, serial, renewed)},
         log := if renewed then s.log + [Renewed(c, token)] else s.log)
    case ReleaseRequest(c, token) =>
      var (entry, released) := StoreRelease(s.entry, token);
      s.(entry := entry, net := net + {ReleaseReply(c, token, released)},
         log := if released then s.log + [Released(c, token)] else s.log)
  }

  function DeliverReply(cfg: Config, s: State, m: Message): State
    requires m.client < |s.clients|
  {
    var k, rest := s.clients[m.client], s.(net := s.net - {m});
    if !Awaited(k, m) then rest
    else
      match m
      case SetReply(c, _, granted, _) =>
        WithClient(rest, c, if granted then AcquireGranted(k, s.now, Interval(cfg.ttl))
                            else AcquireRefused(k, Contended))
      case RenewReply(c, _, _, renewed) => WithClient(rest, c, RenewalSettled(k, renewed, s.now, Interval(cfg.ttl)))
      case ReleaseReply(c, _, released) => WithClient(rest, c, ReleaseSettled(k, released))
      case _ => rest
  }

  /** A request fails at the client; the request itself may still be executed later. */
  function FailedRequest(k: Client): Client {
    if k.phase == Acquiring then AcquireRefused(k, Failed)
    else if k.phase == Releasing then ReleaseSettled(k, false)
    else LoseOwnership(k)
  }

  function Apply(cfg: Config, s: State, step: Step): State
    requires Enabled(cfg, s, step)
  {
    match step
    case Advance(to) => s.(now := to)
    case Expire => s.(entry := Free, log := s.log + [Expired(s.entry.token)])
    case Run(c, renews) =>
      var token := |s.issued|;
      WithClient(s, c, BeginRun(s.clients[c], token, renews)).(
        issued := s.issued + [c], net := s.net + {SetRequest(c, token)})
    case Execute(m) => ExecuteRequest(cfg, s, m)
    case Drop(m) => s.(net := s.net - {m})
    case Deliver(m) => DeliverReply(cfg, s, m)
    case FailRequest(c) => WithClient(s, c, FailedRequest(s.clients[c]))
    case TimerFires(c) =>
      var k := s.clients[c];
      var request := if k.held.Some? then {RenewRequest(c, k.held.value, k.serial)} else {};
      WithClient(s, c, RenewalDue(k, s.now, Interval(cfg.ttl))).(net := s.net + request)
    case DeadlineFires(c) => WithClient(s, c, DeadlinePassed(s.clients[c]))
    case Cancel(c) => WithClient(s, c, CancelRun(s.clients[c]))
    case CallbackEnds(c, failed) => WithClient(s, c, CallbackSettled(s.clients[c], failed))
    case AfterStop(c) =>
      var k := s.clients[c];
      var request := if ReleaseIsSafe(k) && k.held.Some? then {ReleaseRequest(c, k.held.value)} else {};
      WithClient(s, c, RenewalStopped(k)).(net := s.net + request)
    case Crash(c) => WithClient(s, c, Crashed(s.clients[c]))
  }

  predicate Legal(cfg: Config, s: State, steps: seq<Step>)
    decreases |steps|
  {
    steps == [] || (Enabled(cfg, s, steps[0]) && Legal(cfg, Apply(cfg, s, steps[0]), steps[1..]))
  }

  /** The state a sequence of steps leads to. */
  function After(cfg: Config, s: State, steps: seq<Step>): State
    requires Legal(cfg, s, steps)
    decreases |steps|
  {
    if steps == [] then s else After(cfg, Apply(cfg, s, steps[0]), steps[1..])
  }

  lemma {:induction false} LegalThen(cfg: Config, s: State, steps: seq<Step>, step: Step)
    requires Legal(cfg, s, steps) && Enabled(cfg, After(cfg, s, steps), step)
    ensures Legal(cfg, s, steps + [step])
    ensures After(cfg, s, steps + [step]) == Apply(cfg, After(cfg, s, steps), step)
    decreases |steps|
  {
    if steps == [] {
      assert Legal(cfg, Apply(cfg, s, step), []);
      assert (steps + [step])[1..] == [];
    } else {
      LegalThen(cfg, Apply(cfg, s, steps[0]), steps[1..], step);
      assert (steps + [step])[1..] == steps[1..] + [step];
    }
  }

  // ----- What is to be kept -----

  /** Every protected callback's token is in the store. */
  predicate Fenced(s: State) {
    forall c :: 0 <= c < |s.clients| && Protected(s.clients[c]) ==>
      s.entry.Held? && s.entry.token == s.clients[c].candidate
  }

  /** No two protected callbacks run at once. */
  predicate Exclusive(s: State) {
    forall b, c :: 0 <= b < c < |s.clients| ==> !(Protected(s.clients[b]) && Protected(s.clients[c]))
  }

  /** Some run breaks exclusion. */
  ghost predicate CanOverlap(cfg: Config) {
    exists steps :: Legal(cfg, Start(cfg), steps) && !Exclusive(After(cfg, Start(cfg), steps))
  }

  /** The timing condition: three intervals fit in the lease, and so do a late acquire reply and two intervals. */
  predicate SafeTiming(cfg: Config) {
    3 * Interval(cfg.ttl) <= cfg.ttl && cfg.acquireBound + 2 * Interval(cfg.ttl) <= cfg.ttl
  }
}
