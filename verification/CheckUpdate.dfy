/** Creating and editing checks (api/src/checks/check-update.ts, api/src/checks/checks.service.ts). */
module CheckUpdate {
  import opened CheckStatus
  import opened Options
  import opened Slugs

  const MAX_CHECK_DESCRIPTION_LENGTH := 2000
  const MAX_CHECK_AGENT_INSTRUCTIONS_LENGTH := 4000

  /** A field of the edit: left out, an explicit null, or a value. */
  datatype Input<T> = Absent | Null | Given(value: T)

  datatype CheckInput = CheckInput(
    name: Input<string>, slug: Input<string>, description: Input<string>, agentInstructions: Input<string>,
    kind: Input<string>, periodSeconds: Input<int>, graceSeconds: Input<int>, schedule: Input<string>,
    tz: Input<string>,
    target: Input<string>, httpMethod: Input<string>, expectedStatus: Input<int>, intervalSeconds: Input<int>,
    timeoutMs: Input<int>)

  /** The columns of each mode. */
  datatype Heartbeat = Heartbeat(
    periodSeconds: Option<int>, graceSeconds: Option<int>, schedule: Option<string>, tz: Option<string>)

  datatype Active = Active(
    target: Option<string>, httpMethod: Option<string>, expectedStatus: Option<int>, intervalSeconds: Option<int>,
    timeoutMs: Option<int>)

  const NO_HEARTBEAT := Heartbeat(None, None, None, None)
  const NO_ACTIVE := Active(None, None, None, None, None)

  datatype Check = Check(
    kind: string, status: Status, lastEventAt: Option<int>, name: string, slug: string, description: Option<string>,
    agentInstructions: Option<string>, pingSlug: Option<string>, heartbeat: Heartbeat, active: Active)

  /** Cron, time zones and trimming, as this program uses them. */
  datatype Env = Env(
    validCron: string -> bool, validTz: string -> bool, minCronGapSeconds: (string, string) -> int,
    trim: string -> string)

  datatype Error =
    | UNKNOWN_TYPE | EMPTY_NAME | BAD_SLUG | TEXT_TOO_LONG | ONE_OF_PERIOD_OR_SCHEDULE | GRACE_REQUIRED
    | INVALID_CRON | INVALID_TIMEZONE | TARGET_REQUIRED | INTERVAL_REQUIRED | TIMEOUT_REQUIRED | BAD_HTTP_TARGET
    | BAD_TCP_TARGET

  datatype Result<T> = Ok(value: T) | Err(error: Error)

  /** The columns to write; a free-form column is written only when it is `Some`. */
  datatype Update = Update(
    kind: string, name: Option<string>, slug: Option<string>, description: Option<Option<string>>,
    agentInstructions: Option<Option<string>>, heartbeat: Heartbeat, active: Active, restart: bool)

  datatype Resolved = Resolved(data: Update, intervalToValidate: Option<int>, mintPingSlug: bool)

  // ----- Small pieces -----

  function Pick<T>(provided: Input<T>, stored: Option<T>, isConversion: bool): Option<T> {
    match provided
    case Given(v) => Some(v)
    case Null => None
    case Absent => if isConversion then None else stored
  }

  function NormalizeText(env: Env, raw: Input<string>, maxLength: nat): Result<Option<string>> {
    if !raw.Given? then Ok(None)
    else
      var value := env.trim(raw.value);
      if |value| > maxLength then Err(TEXT_TOO_LONG) else Ok(if |value| > 0 then Some(value) else None)
  }

  function OrUtc(tz: Option<string>): string { if tz.Some? && tz.value != "" then tz.value else "UTC" }

  predicate StartsWith(s: string, prefix: string) { prefix <= s }

  predicate PartAt(s: string, part: string, i: nat) { i + |part| <= |s| && s[i..i + |part|] == part }

  predicate Contains(s: string, part: string) { exists i :: 0 <= i <= |s| && PartAt(s, part, i) }

  function LastIndexOf(s: string, c: char): (k: int)
    ensures -1 <= k < |s|
    ensures 0 <= k ==> s[k] == c
    ensures forall i :: k < i < |s| ==> s[i] != c
  {
    if s == [] then -1
    else if s[|s| - 1] == c then |s| - 1
    else LastIndexOf(s[..|s| - 1], c)
  }

  predicate AllDigits(s: string) { forall i :: 0 <= i < |s| ==> '0' <= s[i] <= '9' }

  function Number(s: string): nat
    requires AllDigits(s)
  {
    if s == [] then 0 else Number(s[..|s| - 1]) * 10 + (s[|s| - 1] as int - '0' as int)
  }

  predicate IsValidTcpTarget(target: string) {
    && !Contains(target, "://")
    && var lastColon := LastIndexOf(target, ':');
       && 0 < lastColon
       && var port := target[lastColon + 1..];
          port != "" && AllDigits(port) && 1 <= Number(port) <= 65535
  }

  predicate IsHttpTarget(target: string) { StartsWith(target, "http://") || StartsWith(target, "https://") }

  // ----- resolveCheckUpdate -----

  function ResolveTexts(env: Env, kind: string, input: CheckInput): Result<Update> {
    var name := if input.name.Given? then env.trim(input.name.value) else "";
    var description := NormalizeText(env, input.description, MAX_CHECK_DESCRIPTION_LENGTH);
    var agent := NormalizeText(env, input.agentInstructions, MAX_CHECK_AGENT_INSTRUCTIONS_LENGTH);
    if !input.name.Absent? && name == "" then Err(EMPTY_NAME)
    else if input.slug.Null? || (input.slug.Given? && !IsValidSlug(input.slug.value)) then Err(BAD_SLUG)
    else if description.Err? then Err(description.error)
    else if agent.Err? then Err(agent.error)
    else
      Ok(Update(kind, if input.name.Absent? then None else Some(name),
                if input.slug.Absent? then None else Some(input.slug.value),
                if input.description.Absent? then None else Some(description.value),
                if input.agentInstructions.Absent? then None else Some(agent.value),
                NO_HEARTBEAT, NO_ACTIVE, false))
  }

  /** Exactly one of period and schedule when either is given; otherwise what is stored. */
  function Cadence(current: Check, input: CheckInput, isConversion: bool): Result<(Option<int>, Option<string>)> {
    var explicitPeriod := !input.periodSeconds.Absent?;
    var explicitSchedule := !input.schedule.Absent? && input.schedule != Given("");
    if explicitPeriod && explicitSchedule then Err(ONE_OF_PERIOD_OR_SCHEDULE)
    else if explicitPeriod || explicitSchedule then
      Ok((if explicitPeriod then Pick(input.periodSeconds, None, true) else None,
          if explicitSchedule then Pick(input.schedule, None, true) else None))
    else
      Ok((Pick(input.periodSeconds, current.heartbeat.periodSeconds, isConversion),
          Pick(input.schedule, current.heartbeat.schedule, isConversion)))
  }

  function ResolveHeartbeat(
        env: Env, current: Check, input: CheckInput, data: Update, isConversion: bool): Result<Resolved> {
    var cadence := Cadence(current, input, isConversion);
    if cadence.Err? then Err(cadence.error)
    else
      var (periodSeconds, schedule) := cadence.value;
      var grace := Pick(input.graceSeconds, current.heartbeat.graceSeconds, isConversion);
      var cron := if schedule == Some("") then None else schedule;
      if periodSeconds.Some? == cron.Some? then Err(ONE_OF_PERIOD_OR_SCHEDULE)
      else if grace.None? then Err(GRACE_REQUIRED)
      else if cron.Some? then
        var zone := OrUtc(Pick(input.tz, current.heartbeat.tz, isConversion));
        if !env.validCron(cron.value) then Err(INVALID_CRON)
        else if !env.validTz(zone) then Err(INVALID_TIMEZONE)
        else
          var changed := current.heartbeat.schedule != cron || OrUtc(current.heartbeat.tz) != zone;
          Ok(Resolved(data.(heartbeat := Heartbeat(None, grace, cron, Some(zone)), restart := isConversion),
                      if isConversion || changed then Some(env.minCronGapSeconds(cron.value, zone)) else None,
                      current.pingSlug.None?))
      else
        var changed := current.heartbeat.schedule.Some? || current.heartbeat.periodSeconds != periodSeconds;
        Ok(Resolved(data.(heartbeat := Heartbeat(periodSeconds, grace, None, None), restart := isConversion),
                    if isConversion || changed then periodSeconds else None,
                    current.pingSlug.None?))
  }

  function ResolveActive(
        env: Env, current: Check, input: CheckInput, data: Update, isConversion: bool): Result<Resolved> {
    var target := Pick(input.target, current.active.target, isConversion);
    var interval := Pick(input.intervalSeconds, current.active.intervalSeconds, isConversion);
    var timeout := Pick(input.timeoutMs, current.active.timeoutMs, isConversion);
    if target.None? || target.value == "" then Err(TARGET_REQUIRED)
    else if interval.None? then Err(INTERVAL_REQUIRED)
    else if timeout.None? then Err(TIMEOUT_REQUIRED)
    else if data.kind == "HTTP" && !IsHttpTarget(target.value) then Err(BAD_HTTP_TARGET)
    else if data.kind != "HTTP" && !IsValidTcpTarget(target.value) then Err(BAD_TCP_TARGET)
    else
      var active :=
        if data.kind == "HTTP" then
          Active(target, Some(Pick(input.httpMethod, current.active.httpMethod, isConversion).GetOr("GET")),
                 Pick(input.expectedStatus, current.active.expectedStatus, isConversion), interval, timeout)
        else Active(target, None, None, interval, timeout);
      Ok(Resolved(data.(active := active),
                  if isConversion || interval != current.active.intervalSeconds then interval else None, false))
  }

  function ResolveCheckUpdate(env: Env, current: Check, input: CheckInput): Result<Resolved> {
    var kind := if input.kind.Given? then input.kind.value else current.kind;
    if kind !in {"HEARTBEAT", "HTTP", "TCP"} then Err(UNKNOWN_TYPE)
    else
      var data := ResolveTexts(env, kind, input);
      if data.Err? then Err(data.error)
      else if kind == "HEARTBEAT" then ResolveHeartbeat(env, current, input, data.value, kind != current.kind)
      else ResolveActive(env, current, input, data.value, kind != current.kind)
  }

  /** The row after the resolved columns are written, `freshSlug` being minted if one is due. */
  function Written(current: Check, resolved: Resolved, freshSlug: string): Check {
    var d := resolved.data;
    Check(d.kind, if d.restart then NEW else current.status, if d.restart then None else current.lastEventAt,
          d.name.GetOr(current.name), d.slug.GetOr(current.slug), d.description.GetOr(current.description),
          d.agentInstructions.GetOr(current.agentInstructions),
          if resolved.mintPingSlug then Some(freshSlug) else current.pingSlug, d.heartbeat, d.active)
  }

  /** The same, filling the record of columns field by field. */
  method FillUpdate(env: Env, current: Check, input: CheckInput) returns (r: Result<Resolved>)
    ensures r == ResolveCheckUpdate(env, current, input)
  {
    var kind := if input.kind.Given? then input.kind.value else current.kind;
    if kind !in {"HEARTBEAT", "HTTP", "TCP"} {
      return Err(UNKNOWN_TYPE);
    }
    var data := Update(kind, None, None, None, None, NO_HEARTBEAT, NO_ACTIVE, false);
    if !input.name.Absent? {
      var name := if input.name.Given? then env.trim(input.name.value) else "";
      if name == "" {
        return Err(EMPTY_NAME);
      }
      data := data.(name := Some(name));
    }
    if !input.slug.Absent? {
      if input.slug.Null? || !IsValidSlug(input.slug.value) {
        return Err(BAD_SLUG);
      }
      data := data.(slug := Some(input.slug.value));
    }
    if !input.description.Absent? {
      var description := NormalizeText(env, input.description, MAX_CHECK_DESCRIPTION_LENGTH);
      if description.Err? {
        return Err(description.error);
      }
      data := data.(description := Some(description.value));
    }
    if !input.agentInstructions.Absent? {
      var agent := NormalizeText(env, input.agentInstructions, MAX_CHECK_AGENT_INSTRUCTIONS_LENGTH);
      if agent.Err? {
        return Err(agent.error);
      }
      data := data.(agentInstructions := Some(agent.value));
    }
    if kind == "HEARTBEAT" {
      r := FillHeartbeat(env, current, input, data, kind != current.kind);
    } else {
      r := FillActive(env, current, input, data, kind != current.kind);
    }
  }

  method FillHeartbeat(
        env: Env, current: Check, input: CheckInput, data0: Update, isConversion: bool)
    returns (r: Result<Resolved>)
    ensures r == ResolveHeartbeat(env, current, input, data0, isConversion)
  {
    var data := data0;
    var cadence := Cadence(current, input, isConversion);
    if cadence.Err? {
      return Err(cadence.error);
    }
    var (periodSeconds, schedule) := cadence.value;
    var grace := Pick(input.graceSeconds, current.heartbeat.graceSeconds, isConversion);
    var cron := if schedule == Some("") then None else schedule;
    if periodSeconds.Some? == cron.Some? {
      return Err(ONE_OF_PERIOD_OR_SCHEDULE);
    }
    if grace.None? {
      return Err(GRACE_REQUIRED);
    }
    var newInterval, cadenceChanged;
    if cron.Some? {
      if !env.validCron(cron.value) {
        return Err(INVALID_CRON);
      }
      var zone := OrUtc(Pick(input.tz, current.heartbeat.tz, isConversion));
      if !env.validTz(zone) {
        return Err(INVALID_TIMEZONE);
      }
      data := data.(heartbeat := Heartbeat(None, None, cron, Some(zone)));
      newInterval := env.minCronGapSeconds(cron.value, zone);
      cadenceChanged := current.heartbeat.schedule != cron || OrUtc(current.heartbeat.tz) != zone;
    } else {
      data := data.(heartbeat := Heartbeat(periodSeconds, None, None, None));
      newInterval := periodSeconds.value;
      cadenceChanged := current.heartbeat.schedule.Some? || current.heartbeat.periodSeconds != periodSeconds;
    }
    data := data.(heartbeat := data.heartbeat.(graceSeconds := grace));
    if isConversion {
      data := data.(restart := true);
    } else {
      data := data.(restart := false);
    }
    r := Ok(Resolved(data, if isConversion || cadenceChanged then Some(newInterval) else None, current.pingSlug.None?));
  }

  method FillActive(
        env: Env, current: Check, input: CheckInput, data0: Update, isConversion: bool)
    returns (r: Result<Resolved>)
    ensures r == ResolveActive(env, current, input, data0, isConversion)
  {
    var data := data0;
    var target := Pick(input.target, current.active.target, isConversion);
    var interval := Pick(input.intervalSeconds, current.active.intervalSeconds, isConversion);
    var timeout := Pick(input.timeoutMs, current.active.timeoutMs, isConversion);
    if target.None? || target.value == "" {
      return Err(TARGET_REQUIRED);
    }
    if interval.None? {
      return Err(INTERVAL_REQUIRED);
    }
    if timeout.None? {
      return Err(TIMEOUT_REQUIRED);
    }
    var active := NO_ACTIVE;
    if data.kind == "HTTP" {
      if !IsHttpTarget(target.value) {
        return Err(BAD_HTTP_TARGET);
      }
      var httpMethod := Pick(input.httpMethod, current.active.httpMethod, isConversion);
      active := active.(httpMethod := Some(httpMethod.GetOr("GET")));
      active := active.(expectedStatus := Pick(input.expectedStatus, current.active.expectedStatus, isConversion));
    } else if !IsValidTcpTarget(target.value) {
      return Err(BAD_TCP_TARGET);
    }
    active := active.(target := target, intervalSeconds := interval, timeoutMs := timeout);
    data := data.(active := active);
    var changed := isConversion || interval != current.active.intervalSeconds;
    r := Ok(Resolved(data, if changed then interval else None, false));
  }

  // ----- create and createActiveCheck -----

  function CreateHeartbeat(
        env: Env, name: string, slug: string, grace: int, period: Option<int>, schedule: Option<string>,
                           tz: Option<string>, pingSlug: string): Result<Check> {
    var cron := if schedule == Some("") then None else schedule;
    var zone := OrUtc(tz);
    if period.Some? == cron.Some? then Err(ONE_OF_PERIOD_OR_SCHEDULE)
    else if cron.Some? && !env.validCron(cron.value) then Err(INVALID_CRON)
    else if cron.Some? && !env.validTz(zone) then Err(INVALID_TIMEZONE)
    else
      Ok(Check("HEARTBEAT", NEW, None, name, slug, None, None, Some(pingSlug),
               Heartbeat(period, Some(grace), cron, if cron.Some? then Some(zone) else None), NO_ACTIVE))
  }

  function CreateActive(name: string, slug: string, kind: string, target: string, interval: int, timeout: int,
                        httpMethod: Option<string>, expectedStatus: Option<int>): Result<Check> {
    if kind != "HTTP" && kind != "TCP" then Err(UNKNOWN_TYPE)
    else if kind == "HTTP" && !IsHttpTarget(target) then Err(BAD_HTTP_TARGET)
    else if kind == "TCP" && ':' !in target then Err(BAD_TCP_TARGET)
    else
      Ok(Check(kind, NEW, None, name, slug, None, None, None, NO_HEARTBEAT,
               Active(Some(target), if kind == "HTTP" then Some(httpMethod.GetOr("GET")) else httpMethod,
                      expectedStatus,
                      Some(interval), Some(timeout))))
  }

  // ----- Every check is one mode or the other -----

  predicate HeartbeatShaped(c: Check) {
    && c.kind == "HEARTBEAT" && c.active == NO_ACTIVE && c.pingSlug.Some?
    && c.heartbeat.graceSeconds.Some?
    && (c.heartbeat.periodSeconds.Some? <==> c.heartbeat.schedule.None?)
    && (c.heartbeat.schedule.Some? <==> c.heartbeat.tz.Some?)
    && (c.heartbeat.schedule.Some? ==> c.heartbeat.schedule.value != "" && c.heartbeat.tz.value != "")
  }

  predicate ActiveShaped(c: Check) {
    && c.kind in {"HTTP", "TCP"} && c.heartbeat == NO_HEARTBEAT
    && c.active.target.Some? && c.active.target.value != "" && c.active.intervalSeconds.Some?
    && c.active.timeoutMs.Some?
    && (c.kind == "HTTP" ==> IsHttpTarget(c.active.target.value) && c.active.httpMethod.Some?)
  }

  predicate WellFormed(c: Check) { HeartbeatShaped(c) || ActiveShaped(c) }

  lemma CreatesAreWellFormed(
        env: Env, name: string, slug: string, grace: int, period: Option<int>, schedule: Option<string>,
        tz: Option<string>, pingSlug: string, kind: string, target: string, interval: int, timeout: int,
        httpMethod: Option<string>, expectedStatus: Option<int>)
    ensures var h := CreateHeartbeat(env, name, slug, grace, period, schedule, tz, pingSlug);
            h.Ok? ==> HeartbeatShaped(h.value)
    ensures var a := CreateActive(name, slug, kind, target, interval, timeout, httpMethod, expectedStatus);
            a.Ok? ==> ActiveShaped(a.value)
  {
  }

  /** An accepted edit of any row, even one that was not well-formed, leaves exactly one mode's columns set. */
  lemma UpdatesAreWellFormed(env: Env, current: Check, input: CheckInput, freshSlug: string)
    ensures var r := ResolveCheckUpdate(env, current, input);
            r.Ok? ==>
              var c := Written(current, r.value, freshSlug);
              && WellFormed(c)
              && (c.kind == "TCP" ==> IsValidTcpTarget(c.active.target.value) && c.active.httpMethod.None?)
  {
    var kind := if input.kind.Given? then input.kind.value else current.kind;
    var data := ResolveTexts(env, kind, input);
    if kind in {"HEARTBEAT", "HTTP", "TCP"} && data.Ok? {
      if kind == "HEARTBEAT" {
        HeartbeatUpdatesAreShaped(env, current, input, data.value, kind != current.kind, freshSlug);
      } else {
        ActiveUpdatesAreShaped(env, current, input, data.value, kind != current.kind, freshSlug);
      }
    }
  }

  lemma HeartbeatUpdatesAreShaped(
        env: Env, current: Check, input: CheckInput, data: Update, isConversion: bool, freshSlug: string)
    requires data.kind == "HEARTBEAT" && data.active == NO_ACTIVE
    ensures var r := ResolveHeartbeat(env, current, input, data, isConversion);
            r.Ok? ==> HeartbeatShaped(Written(current, r.value, freshSlug))
  {
  }

  lemma ActiveUpdatesAreShaped(
        env: Env, current: Check, input: CheckInput, data: Update, isConversion: bool, freshSlug: string)
    requires data.kind in {"HTTP", "TCP"} && data.heartbeat == NO_HEARTBEAT && !data.restart
    ensures var r := ResolveActive(env, current, input, data, isConversion);
            r.Ok? ==>
              var c := Written(current, r.value, freshSlug);
              && ActiveShaped(c)
              && (c.kind == "TCP" ==> IsValidTcpTarget(c.active.target.value) && c.active.httpMethod.None?)
  {
  }

  /** A heartbeat that was converted to starts over: new, with no event yet. */
  lemma ConversionsRestart(env: Env, current: Check, input: CheckInput, freshSlug: string)
    requires ResolveCheckUpdate(env, current, input).Ok?
    ensures var c := Written(current, ResolveCheckUpdate(env, current, input).value, freshSlug);
            && (c.kind == "HEARTBEAT" && current.kind != "HEARTBEAT" ==> c.status == NEW && c.lastEventAt.None?)
            && (c.kind == current.kind || c.kind != "HEARTBEAT" ==>
                c.status == current.status && c.lastEventAt == current.lastEventAt)
            && (current.pingSlug.Some? ==> c.pingSlug == current.pingSlug)
  {
  }

  lemma HeartbeatUpdatesAreIdempotent(
        env: Env, current: Check, once: Check, input: CheckInput, data: Update, isConversion: bool, freshSlug:
        string)
    requires ResolveHeartbeat(env, current, input, data, isConversion).Ok?
    requires data.kind == "HEARTBEAT" && isConversion == (current.kind != "HEARTBEAT")
    requires once == Written(current, ResolveHeartbeat(env, current, input, data, isConversion).value, freshSlug)
    ensures var again := ResolveHeartbeat(env, once, input, data, false);
            && again.Ok? && again.value.intervalToValidate.None? && !again.value.mintPingSlug
            && again.value.data.heartbeat == once.heartbeat && !again.value.data.restart
            && again.value.data == data.(heartbeat := once.heartbeat, restart := false)
  {
  }

  lemma ActiveUpdatesAreIdempotent(
        env: Env, current: Check, once: Check, input: CheckInput, data: Update, isConversion: bool, freshSlug:
        string)
    requires ResolveActive(env, current, input, data, isConversion).Ok?
    requires once == Written(current, ResolveActive(env, current, input, data, isConversion).value, freshSlug)
    ensures var again := ResolveActive(env, once, input, data, false);
            && again.Ok? && again.value.intervalToValidate.None? && !again.value.mintPingSlug
            && again.value.data == data.(active := once.active)
  {
  }

  function KindAfter(current: Check, input: CheckInput): string {
    if input.kind.Given? then input.kind.value else current.kind
  }

  /** Once written, the same texts resolve to the same columns. */
  lemma TextsAreIdempotent(env: Env, current: Check, once: Check, input: CheckInput, data: Update, freshSlug: string)
    requires ResolveTexts(env, once.kind, input) == Ok(data)
    requires once.name == data.name.GetOr(current.name) && once.slug == data.slug.GetOr(current.slug)
    requires once.description == data.description.GetOr(current.description)
    requires once.agentInstructions == data.agentInstructions.GetOr(current.agentInstructions)
    ensures var again := Resolved(data.(heartbeat := once.heartbeat, active := once.active), None, false);
            data.kind == once.kind && !data.restart ==> Written(once, again, freshSlug) == once
  {
  }

  /** Applying an accepted edit again changes nothing, needs no plan check and mints no ping slug. */
  lemma UpdatesAreIdempotent(env: Env, current: Check, input: CheckInput, freshSlug: string, laterSlug: string)
    requires ResolveCheckUpdate(env, current, input).Ok?
    ensures var once := Written(current, ResolveCheckUpdate(env, current, input).value, freshSlug);
            var again := ResolveCheckUpdate(env, once, input);
            && again.Ok? && Written(once, again.value, laterSlug) == once
            && again.value.intervalToValidate.None? && !again.value.mintPingSlug
  {
    var kind := KindAfter(current, input);
    var data := ResolveTexts(env, kind, input).value;
    var once := Written(current, ResolveCheckUpdate(env, current, input).value, freshSlug);
    assert once.kind == kind && KindAfter(once, input) == kind;
    TextsAreIdempotent(env, current, once, input, data, laterSlug);
    if kind == "HEARTBEAT" {
      HeartbeatUpdatesAreIdempotent(env, current, once, input, data, kind != current.kind, freshSlug);
    } else {
      ActiveUpdatesAreIdempotent(env, current, once, input, data, kind != current.kind, freshSlug);
    }
  }

  // ----- When the plan's minimum interval is checked -----

  /** What makes a check due, apart from its grace. */
  function CadenceOf(c: Check): (string, Option<int>, Option<string>, Option<string>) {
    if c.kind == "HEARTBEAT" then (c.kind, c.heartbeat.periodSeconds, c.heartbeat.schedule, c.heartbeat.tz)
    else (c.kind, c.active.intervalSeconds, None, None)
  }

  function EffectiveInterval(env: Env, c: Check): int
    requires WellFormed(c)
  {
    if c.kind != "HEARTBEAT" then c.active.intervalSeconds.value
    else if c.heartbeat.periodSeconds.Some? then c.heartbeat.periodSeconds.value
    else env.minCronGapSeconds(c.heartbeat.schedule.value, c.heartbeat.tz.value)
  }

  lemma HeartbeatFloorCheckedIff(env: Env, current: Check, input: CheckInput, data: Update, isConversion: bool)
    requires WellFormed(current) && isConversion == (current.kind != "HEARTBEAT")
    requires ResolveHeartbeat(env, current, input, data, isConversion).Ok?
    ensures var r := ResolveHeartbeat(env, current, input, data, isConversion).value;
            var h := r.data.heartbeat;
            && (r.intervalToValidate.Some? <==>
                  isConversion || h.(graceSeconds := None) != current.heartbeat.(graceSeconds := None))
            && (r.intervalToValidate.Some? ==>
                  r.intervalToValidate.value
                  == if h.periodSeconds.Some? then h.periodSeconds.value
                     else env.minCronGapSeconds(h.schedule.value, h.tz.value))
  {
  }

  /**
   The plan's floor is checked against the new interval exactly when the cadence moves; a rename is never
   refused for it.
   */
  lemma PlanFloorCheckedIff(env: Env, current: Check, input: CheckInput, freshSlug: string)
    requires WellFormed(current) && ResolveCheckUpdate(env, current, input).Ok?
    ensures var r := ResolveCheckUpdate(env, current, input).value;
            var once := Written(current, r, freshSlug);
            && WellFormed(once)
            && (r.intervalToValidate.Some? <==> CadenceOf(once) != CadenceOf(current))
            && (r.intervalToValidate.Some? ==> r.intervalToValidate.value == EffectiveInterval(env, once))
  {
    UpdatesAreWellFormed(env, current, input, freshSlug);
    var kind := KindAfter(current, input);
    if kind == "HEARTBEAT" {
      HeartbeatFloorCheckedIff(env, current, input, ResolveTexts(env, kind, input).value, kind != current.kind);
    }
  }

  // ----- TCP targets -----

  /** A host, one last colon and a decimal port in range. */
  predicate HostAndPort(target: string, host: string, port: string) {
    target == host + ":" + port && host != "" && port != "" && AllDigits(port) && 1 <= Number(port) <= 65535
  }

  lemma {:induction false} LastColonSplits(host: string, port: string)
    requires AllDigits(port)
    ensures LastIndexOf(host + ":" + port, ':') == |host|
    decreases |port|
  {
    if port != "" {
      var front := port[..|port| - 1];
      LastColonSplits(host, front);
      assert (host + ":" + port)[..|host| + |port|] == host + ":" + front;
      assert (host + ":" + port)[|host| + |port|] == port[|port| - 1];
    }
  }

  /** The validator accepts exactly `host:port` without a scheme, split where the prober splits it. */
  lemma TcpTargetMeaning(target: string)
    ensures IsValidTcpTarget(target) <==>
              !Contains(target, "://") && exists host, port :: HostAndPort(target, host, port)
  {
    var k := LastIndexOf(target, ':');
    if IsValidTcpTarget(target) {
      assert target == target[..k] + ":" + target[k + 1..];
      assert HostAndPort(target, target[..k], target[k + 1..]);
    }
    if exists host, port :: HostAndPort(target, host, port) {
      var host, port :| HostAndPort(target, host, port);
      LastColonSplits(host, port);
      assert target[|host| + 1..] == port;
    }
  }

  // ----- Edits of checks as they were created -----

  function Rename(name: string): CheckInput {
    CheckInput(Given(name), Absent, Absent, Absent, Absent, Absent, Absent,
               Absent, Absent, Absent, Absent, Absent, Absent, Absent)
  }

  /** A heartbeat can be renamed as soon as it exists. */
  lemma CreatedHeartbeatCanBeRenamed(
        env: Env, name: string, slug: string, grace: int, period: Option<int>, schedule: Option<string>,
        tz: Option<string>, pingSlug: string, rename: string)
    requires env.trim(rename) != ""
    ensures var h := CreateHeartbeat(env, name, slug, grace, period, schedule, tz, pingSlug);
            h.Ok? ==> ResolveCheckUpdate(env, h.value, Rename(rename)).Ok?
  {
  }

  /**
   An HTTP check too; but creation only asks a TCP target for a colon, so a TCP check can
   be renamed exactly when its target also passes the editor's stricter test.
   */
  lemma CreatedActiveCanBeRenamedIff(
        env: Env, name: string, slug: string, kind: string, target: string, interval: int, timeout: int,
        httpMethod: Option<string>, expectedStatus: Option<int>, rename: string)
    requires env.trim(rename) != ""
    ensures var a := CreateActive(name, slug, kind, target, interval, timeout, httpMethod, expectedStatus);
            a.Ok? ==> (ResolveCheckUpdate(env, a.value, Rename(rename)).Ok? <==>
                       (kind == "TCP" ==> IsValidTcpTarget(target)))
  {
  }

  /** Such a target: accepted at creation, refused by every later edit that keeps it. */
  lemma SchemedTargetIsCreatedButNotEdited(env: Env, rename: string)
    requires env.trim(rename) != ""
    ensures var a := CreateActive("db", "db", "TCP", "tcp://db:5432", 60, 1000, None, None);
            a.Ok? && ResolveCheckUpdate(env, a.value, Rename(rename)) == Err(BAD_TCP_TARGET)
  {
    assert "tcp://db:5432"[3] == ':' && PartAt("tcp://db:5432", "://", 3);
  }
}
