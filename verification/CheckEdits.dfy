/** What an edit of a check stores, and exactly when it is accepted (api/src/checks/check-update.ts). */
module CheckEdits {
  import opened CheckStatus
  import opened Options
  import opened CheckUpdate
  import opened Slugs

  /** A column after the edit: what was given, nothing after an explicit null, else what was there. */
  function Merged<T>(given: Input<T>, before: Option<T>): Option<T> {
    match given
    case Given(v) => Some(v)
    case Null => None
    case Absent => before
  }

  /** A text: trimmed, and cleared by a blank one or an explicit null. */
  predicate StoresText(env: Env, given: Input<string>, before: Option<string>, after: Option<string>) {
    match given
    case Given(v) => after == if env.trim(v) == "" then None else Some(env.trim(v))
    case Null => after.None?
    case Absent => after == before
  }

  predicate GivenSchedule(input: CheckInput) {
    input.schedule.Null? || (input.schedule.Given? && input.schedule.value != "")
  }

  /** The cadence before the edit counts only for a check that stays a heartbeat. */
  function Stored<T>(current: Check, kind: string, before: Option<T>): Option<T> {
    if current.kind == kind then before else None
  }

  predicate StoresTexts(env: Env, current: Check, input: CheckInput, c: Check) {
    && c.kind == (if input.kind.Given? then input.kind.value else current.kind)
    && c.name == (if input.name.Given? then env.trim(input.name.value) else current.name)
    && c.slug == (if input.slug.Given? then input.slug.value else current.slug)
    && StoresText(env, input.description, current.description, c.description)
    && StoresText(env, input.agentInstructions, current.agentInstructions, c.agentInstructions)
  }

  /** Giving a period or a schedule replaces the cadence; otherwise it stays. A schedule's zone defaults to UTC. */
  predicate StoresHeartbeat(current: Check, input: CheckInput, c: Check) {
    var h := current.heartbeat;
    && c.heartbeat.graceSeconds == Merged(input.graceSeconds, Stored(current, c.kind, h.graceSeconds))
    && (input.periodSeconds.Given? ==>
          c.heartbeat.periodSeconds == Some(input.periodSeconds.value) && c.heartbeat.schedule.None?)
    && (GivenSchedule(input) ==> input.schedule.Given? && c.heartbeat.schedule == Some(input.schedule.value))
    && (input.periodSeconds.Absent? && !GivenSchedule(input) ==>
          && c.heartbeat.periodSeconds == Stored(current, c.kind, h.periodSeconds)
          && (c.heartbeat.periodSeconds.None? ==> c.heartbeat.schedule == Stored(current, c.kind, h.schedule)))
    && (c.heartbeat.schedule.Some? ==>
          c.heartbeat.tz == Some(OrUtc(Merged(input.tz, Stored(current, c.kind, h.tz)))))
  }

  predicate StoresActive(current: Check, input: CheckInput, c: Check) {
    var a := current.active;
    && c.active.target == Merged(input.target, Stored(current, c.kind, a.target))
    && c.active.intervalSeconds == Merged(input.intervalSeconds, Stored(current, c.kind, a.intervalSeconds))
    && c.active.timeoutMs == Merged(input.timeoutMs, Stored(current, c.kind, a.timeoutMs))
    && (c.kind == "HTTP" ==>
          && c.active.expectedStatus == Merged(input.expectedStatus, Stored(current, c.kind, a.expectedStatus))
          && c.active.httpMethod
             == Some(Merged(input.httpMethod, Stored(current, c.kind, a.httpMethod)).GetOr("GET")))
  }

  lemma HeartbeatEditStores(
        env: Env, current: Check, input: CheckInput, data: Update, isConversion: bool, freshSlug: string)
    requires data.kind == "HEARTBEAT" && isConversion == (current.kind != "HEARTBEAT")
    requires ResolveHeartbeat(env, current, input, data, isConversion).Ok?
    ensures StoresHeartbeat(current, input,
              Written(current, ResolveHeartbeat(env, current, input, data, isConversion).value, freshSlug))
  {
  }

  lemma ActiveEditStores(
        env: Env, current: Check, input: CheckInput, data: Update, isConversion: bool, freshSlug: string)
    requires data.kind in {"HTTP", "TCP"} && isConversion == (current.kind != data.kind)
    requires ResolveActive(env, current, input, data, isConversion).Ok?
    ensures StoresActive(current, input,
              Written(current, ResolveActive(env, current, input, data, isConversion).value, freshSlug))
  {
  }

  /** An accepted edit stores every field it gives and keeps every other of the mode it leaves the check in. */
  lemma EditStores(env: Env, current: Check, input: CheckInput, freshSlug: string)
    requires ResolveCheckUpdate(env, current, input).Ok?
    ensures var c := Written(current, ResolveCheckUpdate(env, current, input).value, freshSlug);
            && StoresTexts(env, current, input, c)
            && (if c.kind == "HEARTBEAT" then StoresHeartbeat(current, input, c) else StoresActive(current, input, c))
            && c.pingSlug
               == if c.kind == "HEARTBEAT" && current.pingSlug.None? then Some(freshSlug) else current.pingSlug
  {
    var kind := KindAfter(current, input);
    var data := ResolveTexts(env, kind, input).value;
    if kind == "HEARTBEAT" {
      HeartbeatEditStores(env, current, input, data, kind != current.kind, freshSlug);
    } else {
      ActiveEditStores(env, current, input, data, kind != current.kind, freshSlug);
    }
  }

  // ----- When an edit is accepted -----

  predicate TextFits(env: Env, given: Input<string>, maxLength: nat) {
    given.Given? ==> |env.trim(given.value)| <= maxLength
  }

  predicate TextsAccepted(env: Env, input: CheckInput) {
    && (input.name.Absent? || (input.name.Given? && env.trim(input.name.value) != ""))
    && (input.slug.Absent? || (input.slug.Given? && IsValidSlug(input.slug.value)))
    && TextFits(env, input.description, MAX_CHECK_DESCRIPTION_LENGTH)
    && TextFits(env, input.agentInstructions, MAX_CHECK_AGENT_INSTRUCTIONS_LENGTH)
  }

  /** Exactly one cadence is left, a grace, and a schedule that cron and its zone understand. */
  predicate HeartbeatAccepted(env: Env, current: Check, input: CheckInput) {
    var kind, h := "HEARTBEAT", current.heartbeat;
    var moved := !input.periodSeconds.Absent? || GivenSchedule(input);
    var period := Merged(input.periodSeconds, if moved then None else Stored(current, kind, h.periodSeconds));
    var schedule := if moved && !GivenSchedule(input) then None
                    else Merged(input.schedule, Stored(current, kind, h.schedule));
    var zone := OrUtc(Merged(input.tz, Stored(current, kind, h.tz)));
    var isCron := schedule.Some? && schedule.value != "";
    && !(!input.periodSeconds.Absent? && GivenSchedule(input))
    && (period.Some? <==> !isCron)
    && Merged(input.graceSeconds, Stored(current, kind, h.graceSeconds)).Some?
    && (isCron ==> env.validCron(schedule.value) && env.validTz(zone))
  }

  /** A target its mode understands, an interval and a timeout. */
  predicate ActiveAccepted(current: Check, input: CheckInput, kind: string) {
    var target := Merged(input.target, Stored(current, kind, current.active.target));
    && target.Some? && target.value != ""
    && (if kind == "HTTP" then IsHttpTarget(target.value) else IsValidTcpTarget(target.value))
    && Merged(input.intervalSeconds, Stored(current, kind, current.active.intervalSeconds)).Some?
    && Merged(input.timeoutMs, Stored(current, kind, current.active.timeoutMs)).Some?
  }

  /**
   An edit is accepted exactly if its type is known, its texts fit, and its mode's columns
   come out complete and valid.
   */
  lemma EditAcceptedIff(env: Env, current: Check, input: CheckInput)
    ensures var kind := KindAfter(current, input);
            ResolveCheckUpdate(env, current, input).Ok? <==>
            && kind in {"HEARTBEAT", "HTTP", "TCP"} && TextsAccepted(env, input)
            && (if kind == "HEARTBEAT" then HeartbeatAccepted(env, current, input)
                else ActiveAccepted(current, input, kind))
  {
    var kind := KindAfter(current, input);
    if kind in {"HEARTBEAT", "HTTP", "TCP"} && TextsAccepted(env, input) {
      var data := ResolveTexts(env, kind, input).value;
      if kind == "HEARTBEAT" {
        HeartbeatAcceptedIff(env, current, input, data);
      } else {
        ActiveAcceptedIff(env, current, input, data);
      }
    }
  }

  lemma HeartbeatAcceptedIff(env: Env, current: Check, input: CheckInput, data: Update)
    ensures ResolveHeartbeat(env, current, input, data, current.kind != "HEARTBEAT").Ok? <==>
            HeartbeatAccepted(env, current, input)
  {
  }

  lemma ActiveAcceptedIff(env: Env, current: Check, input: CheckInput, data: Update)
    requires data.kind in {"HTTP", "TCP"}
    ensures ResolveActive(env, current, input, data, current.kind != data.kind).Ok? <==>
            ActiveAccepted(current, input, data.kind)
  {
  }

  /**
   Creation accepts exactly one cadence that cron and its zone understand, or a target of its
   mode, and stores what it is given.
   */
  lemma CreationStores(
        env: Env, name: string, slug: string, grace: int, period: Option<int>, schedule: Option<string>,
        tz: Option<string>, pingSlug: string, kind: string, target: string, interval: int, timeout: int,
        httpMethod: Option<string>, expectedStatus: Option<int>)
    ensures var h := CreateHeartbeat(env, name, slug, grace, period, schedule, tz, pingSlug);
            var isCron := schedule.Some? && schedule.value != "";
            && (h.Ok? <==> (period.Some? <==> !isCron)
                           && (isCron ==> env.validCron(schedule.value) && env.validTz(OrUtc(tz))))
            && (h.Ok? ==>
                  && h.value.status == NEW && h.value.lastEventAt.None? && h.value.name == name && h.value.slug == slug
                  && h.value.pingSlug == Some(pingSlug) && h.value.description.None? && h.value.agentInstructions.None?
                  && h.value.heartbeat.graceSeconds == Some(grace) && h.value.heartbeat.periodSeconds == period
                  && (isCron ==> h.value.heartbeat.schedule == schedule && h.value.heartbeat.tz == Some(OrUtc(tz))))
    ensures var a := CreateActive(name, slug, kind, target, interval, timeout, httpMethod, expectedStatus);
            && (a.Ok? <==> (kind == "HTTP" && IsHttpTarget(target)) || (kind == "TCP" && ':' in target))
            && (a.Ok? ==>
                  && a.value.status == NEW && a.value.lastEventAt.None? && a.value.name == name && a.value.slug == slug
                  && a.value.kind == kind && a.value.pingSlug.None? && a.value.active.target == Some(target)
                  && a.value.active.intervalSeconds == Some(interval) && a.value.active.timeoutMs == Some(timeout)
                  && a.value.active.expectedStatus == expectedStatus
                  && a.value.active.httpMethod
                     == if kind == "HTTP" && httpMethod.None? then Some("GET") else httpMethod)
  {
  }

  // ----- Targets -----

  lemma ContainsMeaning(s: string, part: string)
    ensures Contains(s, part) <==> exists a, b :: s == a + part + b
  {
    if Contains(s, part) {
      var i :| 0 <= i <= |s| && PartAt(s, part, i);
      assert s == s[..i] + part + s[i + |part|..];
    }
    if a, b :| s == a + part + b {
      assert PartAt(s, part, |a|);
    }
  }

  /** An HTTP target is anything that begins with either scheme. */
  lemma HttpTargetMeaning(target: string)
    ensures IsHttpTarget(target) <==> exists rest :: target == "http://" + rest || target == "https://" + rest
  {
    if "http://" <= target {
      assert target == "http://" + target[7..];
    }
    if "https://" <= target {
      assert target == "https://" + target[8..];
    }
  }

  /** A decimal number is read as itself. */
  lemma {:induction false} NumberReadsBack(n: nat)
    ensures AllDigits(Decimal(n)) && Number(Decimal(n)) == n
  {
    var s := Decimal(n);
    if n >= 10 {
      NumberReadsBack(n / 10);
      assert s[..|s| - 1] == Decimal(n / 10);
    } else {
      assert s[..0] == "";
    }
  }

  /** Every host without a scheme is accepted with every port from 1 to 65535, and with no other. */
  lemma PortsInRangeAreAccepted(host: string, n: nat)
    requires host != "" && !Contains(host + ":" + Decimal(n), "://")
    ensures IsValidTcpTarget(host + ":" + Decimal(n)) <==> 1 <= n <= 65535
  {
    NumberReadsBack(n);
    LastColonSplits(host, Decimal(n));
    assert (host + ":" + Decimal(n))[|host| + 1..] == Decimal(n);
  }
}
