/** What the history of the store entry says about a run that returned "ran". No timing is assumed. */
module LeaseHistory {
  import opened Options
  import opened LeaseProtocol

  predicate HoldsAfter(e: Event) { e.Acquired? || e.Renewed? }

  /** The entry's history: each tenure is one acquire, renewals of its token, and one end. */
  predicate WellFormedLog(log: seq<Event>) {
    forall k :: 0 <= k < |log| ==> FollowsOn(log, k)
  }

  predicate FollowsOn(log: seq<Event>, k: nat)
    requires k < |log|
  {
    if log[k].Acquired? then k == 0 || !HoldsAfter(log[k - 1])
    else k > 0 && HoldsAfter(log[k - 1]) && log[k - 1].token == log[k].token
  }

  predicate LogDescribesEntry(s: State) {
    if s.log == [] then s.entry.Free?
    else if HoldsAfter(s.log[|s.log| - 1]) then s.entry.Held? && s.entry.token == s.log[|s.log| - 1].token
    else s.entry.Free?
  }

  /** Only the client that drew a token renews or releases it. */
  predicate OwnersOnly(s: State) {
    forall k :: 0 <= k < |s.log| ==>
      s.log[k].token < |s.issued| && (s.log[k].Expired? || s.issued[s.log[k].token] == s.log[k].client)
  }

  predicate TokenOf(s: State, token: Token, c: nat) {
    token < |s.issued| && s.issued[token] == c
  }

  predicate ClientHistoryOk(s: State, c: nat)
    requires c < |s.clients|
  {
    var k := s.clients[c];
    && (k.phase != Idle ==> TokenOf(s, k.candidate, c))
    && (k.held.Some? ==> TokenOf(s, k.held.value, c))
    && (k.phase in {InCallback, Stopping, Releasing} ==> k.held == Some(k.candidate))
    && (k.timer != Off ==> k.phase == InCallback || k.phase == Stopping)
    && (k.outcome == Ran ==> Released(c, k.candidate) in s.log)
  }

  predicate MessageHistoryOk(s: State, m: Message) {
    && TokenOf(s, m.token, m.client)
    && (m.ReleaseReply? && m.released ==> Released(m.client, m.token) in s.log)
  }

  predicate HistoryInv(s: State) {
    && WellFormedLog(s.log) && LogDescribesEntry(s) && OwnersOnly(s)
    && (forall c :: 0 <= c < |s.clients| ==> ClientHistoryOk(s, c))
    && (forall m :: m in s.net ==> MessageHistoryOk(s, m))
  }

  lemma LogKept(cfg: Config, s: State, step: Step)
    requires HistoryInv(s) && Enabled(cfg, s, step)
    ensures var s' := Apply(cfg, s, step);
            s.log <= s'.log && s.issued <= s'.issued && WellFormedLog(s'.log) && LogDescribesEntry(s') && OwnersOnly(s')
  {
    if step.Execute? {
      assert MessageHistoryOk(s, step.message);
    }
    var log' := Apply(cfg, s, step).log;
    forall k | 0 <= k < |log'| ensures FollowsOn(log', k) {
      assert k < |s.log| ==> FollowsOn(s.log, k);
    }
  }

  /** A delivered reply: "ran" is reported only on the reply to an executed release. */
  lemma DeliveryKeepsClientHistory(cfg: Config, s: State, step: Step, c: nat)
    requires Enabled(cfg, s, step) && step.Deliver? && c < |s.clients|
    requires ClientHistoryOk(s, c) && MessageHistoryOk(s, step.message)
    ensures ClientHistoryOk(Apply(cfg, s, step), c)
  {
    match step.message
    case SetReply(_, _, _, _) => SetReplyKeepsClientHistory(cfg, s, step.message, c);
    case RenewReply(_, _, _, _) => RenewReplyKeepsClientHistory(cfg, s, step.message, c);
    case ReleaseReply(_, _, _) => ReleaseReplyKeepsClientHistory(cfg, s, step.message, c);
  }

  lemma SetReplyKeepsClientHistory(cfg: Config, s: State, m: Message, c: nat)
    requires m.SetReply? && m.client < |s.clients| && c < |s.clients| && ClientHistoryOk(s, c)
    ensures ClientHistoryOk(DeliverReply(cfg, s, m), c)
  {
  }

  lemma RenewReplyKeepsClientHistory(cfg: Config, s: State, m: Message, c: nat)
    requires m.RenewReply? && m.client < |s.clients| && c < |s.clients| && ClientHistoryOk(s, c)
    ensures ClientHistoryOk(DeliverReply(cfg, s, m), c)
  {
  }

  lemma ReleaseReplyKeepsClientHistory(cfg: Config, s: State, m: Message, c: nat)
    requires m.ReleaseReply? && m.client < |s.clients| && c < |s.clients|
    requires ClientHistoryOk(s, c) && MessageHistoryOk(s, m)
    ensures ClientHistoryOk(DeliverReply(cfg, s, m), c)
  {
  }

  lemma StepKeepsClientHistory(cfg: Config, s: State, step: Step, c: nat)
    requires Enabled(cfg, s, step) && !step.Deliver? && c < |s.clients| && ClientHistoryOk(s, c)
    ensures ClientHistoryOk(Apply(cfg, s, step), c)
  {
  }

  lemma ClientHistoryKept(cfg: Config, s: State, step: Step, c: nat)
    requires HistoryInv(s) && Enabled(cfg, s, step) && c < |s.clients|
    ensures ClientHistoryOk(Apply(cfg, s, step), c)
  {
    if step.Deliver? {
      DeliveryKeepsClientHistory(cfg, s, step, c);
    } else {
      StepKeepsClientHistory(cfg, s, step, c);
    }
  }

  lemma MessageHistoryKept(cfg: Config, s: State, step: Step, m: Message)
    requires HistoryInv(s) && Enabled(cfg, s, step) && m in Apply(cfg, s, step).net
    ensures MessageHistoryOk(Apply(cfg, s, step), m)
  {
    LogKept(cfg, s, step);
    if m in s.net {
      assert MessageHistoryOk(s, m);
    } else if step.Execute? {
      assert MessageHistoryOk(s, step.message);
    } else if m.client < |s.clients| {
      assert ClientHistoryOk(s, m.client);
    }
  }

  lemma {:induction false} HistoryHolds(cfg: Config, s: State, steps: seq<Step>)
    requires HistoryInv(s) && Legal(cfg, s, steps)
    ensures HistoryInv(After(cfg, s, steps))
    decreases |steps|
  {
    if steps != [] {
      var s' := Apply(cfg, s, steps[0]);
      LogKept(cfg, s, steps[0]);
      forall c | 0 <= c < |s'.clients| ensures ClientHistoryOk(s', c) {
        ClientHistoryKept(cfg, s, steps[0], c);
      }
      forall m | m in s'.net ensures MessageHistoryOk(s', m) {
        MessageHistoryKept(cfg, s, steps[0], m);
      }
      HistoryHolds(cfg, s', steps[1..]);
    }
  }

  /** Goes back from an event to the acquire that began its tenure. */
  lemma {:induction false} TenureOf(log: seq<Event>, k: nat) returns (i: nat)
    requires WellFormedLog(log) && k < |log|
    ensures i <= k && log[i].Acquired? && log[i].token == log[k].token && (log[k].Acquired? ==> i == k)
    ensures forall j :: i < j < k ==> log[j].Renewed? && log[j].token == log[k].token
    decreases k
  {
    assert FollowsOn(log, k);
    if log[k].Acquired? {
      i := k;
    } else {
      i := TenureOf(log, k - 1);
    }
  }

  /** From event `i` to event `j` the entry is acquired, renewed and released by one client under one token. */
  predicate UnbrokenTenure(log: seq<Event>, i: nat, j: nat, c: nat, token: Token) {
    && i < j < |log| && log[i] == Acquired(c, token) && log[j] == Released(c, token)
    && forall k :: i < k < j ==> log[k] == Renewed(c, token)
  }

  /**
   A run that returned "ran" held its token in the store without a break from acquire to
   release: the only events in between are its own renewals, so nobody else acquired.
   */
  lemma RanMeansUnbroken(cfg: Config, steps: seq<Step>, c: nat)
    requires Legal(cfg, Start(cfg), steps)
    ensures var s := After(cfg, Start(cfg), steps);
            c < |s.clients| && s.clients[c].outcome == Ran ==>
              exists i, j :: UnbrokenTenure(s.log, i, j, c, s.clients[c].candidate)
  {
    var s := After(cfg, Start(cfg), steps);
    HistoryHolds(cfg, Start(cfg), steps);
    if c < |s.clients| && s.clients[c].outcome == Ran {
      assert ClientHistoryOk(s, c);
      var token := s.clients[c].candidate;
      var j :| 0 <= j < |s.log| && s.log[j] == Released(c, token);
      var i := TenureOf(s.log, j);
      assert UnbrokenTenure(s.log, i, j, c, token);
    }
  }

  /** No renewal and no release ever touches an entry another client acquired. */
  lemma NoForeignTouch(cfg: Config, steps: seq<Step>, k: nat)
    requires Legal(cfg, Start(cfg), steps)
    ensures var log := After(cfg, Start(cfg), steps).log;
            k < |log| && (log[k].Renewed? || log[k].Released?) ==>
              exists i :: 0 <= i < k && log[i] == Acquired(log[k].client, log[k].token)
                          && forall j :: i < j < k ==> log[j] == Renewed(log[k].client, log[k].token)
  {
    var s := After(cfg, Start(cfg), steps);
    HistoryHolds(cfg, Start(cfg), steps);
    if k < |s.log| && (s.log[k].Renewed? || s.log[k].Released?) {
      var i := TenureOf(s.log, k);
      assert s.log[i] == Acquired(s.log[k].client, s.log[k].token);
    }
  }
}
