/**
 The rows of many checks, swept, probed and pinged in place
 (worker/src/watchdog.ts, worker/src/probe-handler.ts, worker/src/probe-scheduler.ts,
 api/src/ping/ping.service.ts).
 */
module CheckObjects {
  import opened CheckStatus
  import opened Options
  import opened CheckUpdate
  import opened CheckLifecycle

  /** `ids`, each once, in the order rows are read. */
  ghost predicate Lists(ids: seq<nat>, rows: map<nat, Check>) {
    (forall i, j :: 0 <= i < j < |ids| ==> ids[i] != ids[j]) && (forall id :: id in ids <==> id in rows)
  }

  /** The checks of `ids` that a sweep at `now` selects, in order. */
  function Selected(ids: seq<nat>, rows: map<nat, Check>, now: int, fire: Aggregate.CronFire): seq<nat> {
    if ids == [] then []
    else
      var front, id := Selected(ids[..|ids| - 1], rows, now, fire), ids[|ids| - 1];
      if id in rows && SweepSelects(rows[id], now, fire) then front + [id] else front
  }

  lemma {:induction false} SelectedMeaning(
        ids: seq<nat>, rows: map<nat, Check>, now: int, fire: Aggregate.CronFire, id: nat)
    ensures id in Selected(ids, rows, now, fire) <==> id in ids && id in rows && SweepSelects(rows[id], now, fire)
  {
    if ids != [] {
      SelectedMeaning(ids[..|ids| - 1], rows, now, fire, id);
      assert ids == ids[..|ids| - 1] + [ids[|ids| - 1]];
    }
  }

  class CheckTable {
    var rows: map<nat, Check>
    var alerts: seq<(nat, Entry)>

    constructor (rows: map<nat, Check>)
      ensures this.rows == rows && alerts == []
    {
      this.rows := rows;
      alerts := [];
    }

    /** The candidate read and its filter. */
    method FindOverdue(ids: seq<nat>, now: int, fire: Aggregate.CronFire) returns (overdue: seq<nat>)
      requires Lists(ids, rows)
      ensures overdue == Selected(ids, rows, now, fire)
    {
      overdue := [];
      for i := 0 to |ids|
        invariant overdue == Selected(ids[..i], rows, now, fire)
      {
        assert ids[..i + 1][..i] == ids[..i];
        assert ids[i] in ids;
        if SweepSelects(rows[ids[i]], now, fire) {
          overdue := overdue + [ids[i]];
        }
      }
      assert ids[..|ids|] == ids;
    }

    /** One sweep with nobody else at work: exactly the overdue checks go down, each with one alert, in order. */
    method SweepOverdue(ids: seq<nat>, now: int, fire: Aggregate.CronFire) returns (count: nat)
      requires Lists(ids, rows)
      modifies this
      ensures rows.Keys == old(rows).Keys
      ensures forall id :: id in rows ==>
                rows[id] == if SweepSelects(old(rows)[id], now, fire) then old(rows)[id].(status := DOWN)
                            else old(rows)[id]
      ensures count == |Selected(ids, old(rows), now, fire)|
      ensures alerts == old(alerts) + Downs(Selected(ids, old(rows), now, fire))
    {
      var overdue := FindOverdue(ids, now, fire);
      SelectedAreDistinct(ids, rows, now, fire);
      forall id ensures id in overdue <==> id in rows && SweepSelects(rows[id], now, fire) {
        SelectedMeaning(ids, rows, now, fire, id);
      }
      count := TakeDown(overdue);
    }

    /** The loop over the candidates. */
    method TakeDown(overdue: seq<nat>) returns (count: nat)
      requires forall i, j :: 0 <= i < j < |overdue| ==> overdue[i] != overdue[j]
      requires forall id :: id in overdue ==> id in rows && Sweepable(rows[id])
      modifies this
      ensures rows.Keys == old(rows).Keys && count == |overdue| && alerts == old(alerts) + Downs(overdue)
      ensures forall id :: id in rows ==>
                rows[id] == if id in overdue then old(rows)[id].(status := DOWN) else old(rows)[id]
    {
      count := 0;
      for k := 0 to |overdue|
        invariant count == k && rows.Keys == old(rows).Keys
        invariant alerts == old(alerts) + Downs(overdue[..k])
        invariant forall id :: id in rows ==>
                    rows[id] == if id in overdue[..k] then old(rows)[id].(status := DOWN) else old(rows)[id]
      {
        assert overdue[k] in overdue && overdue[k] !in overdue[..k];
        var transition := Sweep(overdue[k]);
        assert transition;
        assert overdue[..k + 1] == overdue[..k] + [overdue[k]];
        count := count + 1;
      }
      assert overdue[..|overdue|] == overdue;
    }

    /** The locked transaction of one candidate; a check that no longer fits is passed over. */
    method Sweep(id: nat) returns (transition: bool)
      modifies this
      ensures transition == (id in old(rows) && Sweepable(old(rows)[id]))
      ensures rows == if transition then old(rows)[id := Swept(old(rows)[id]).0] else old(rows)
      ensures transition ==> rows == old(rows)[id := old(rows)[id].(status := DOWN)]
      ensures alerts == if transition then old(alerts) + [(id, DownAlert)] else old(alerts)
    {
      if id !in rows || !((rows[id].status == UP || rows[id].status == GRACE) && HasCadence(rows[id])) {
        return false;
      }
      rows := rows[id := rows[id].(status := DOWN)];
      alerts := alerts + [(id, DownAlert)];
      transition := true;
    }

    /** The transaction of a probe result. */
    method HandleProbe(id: nat, up: bool, now: int)
      modifies this
      ensures id !in old(rows) ==> rows == old(rows) && alerts == old(alerts)
      ensures id in old(rows) ==>
                && rows == old(rows)[id := Probed(old(rows)[id], up, now).0]
                && alerts == old(alerts) + Tagged(id, Probed(old(rows)[id], up, now).1)
      ensures id in old(rows) && IsProbed(old(rows)[id]) && old(rows)[id].status != PAUSED ==>
                && rows == old(rows)[id := old(rows)[id].(status := if up then UP else DOWN, lastEventAt := Some(now))]
                && alerts == old(alerts) + if up == (old(rows)[id].status == DOWN)
                                           then [(id, if up then RecoveryAlert else DownAlert)] else []
      ensures id in old(rows) && !(IsProbed(old(rows)[id]) && old(rows)[id].status != PAUSED) ==>
                rows == old(rows) && alerts == old(alerts)
    {
      if id !in rows || rows[id].status == PAUSED || (rows[id].kind != "HTTP" && rows[id].kind != "TCP") {
        return;
      }
      var current := rows[id];
      rows := rows[id := current.(status := if up then UP else DOWN, lastEventAt := Some(now))];
      if !up && current.status != DOWN {
        alerts := alerts + [(id, DownAlert)];
      } else if up && current.status == DOWN {
        alerts := alerts + [(id, RecoveryAlert)];
      }
    }

    /** The transaction of a ping; a check that is no heartbeat answers as if it did not exist. */
    method RecordPing(id: nat, now: int) returns (found: bool, recovered: bool)
      modifies this
      ensures found == (id in old(rows) && old(rows)[id].kind == "HEARTBEAT")
      ensures recovered == (found && old(rows)[id].status == DOWN)
      ensures rows == if found then old(rows)[id := Pinged(old(rows)[id], now).0] else old(rows)
      ensures found ==> rows == old(rows)[id := old(rows)[id].(status := UP, lastEventAt := Some(now))]
      ensures alerts == if recovered then old(alerts) + [(id, RecoveryAlert)] else old(alerts)
    {
      if id !in rows || rows[id].kind != "HEARTBEAT" {
        return false, false;
      }
      var previous := rows[id].status;
      rows := rows[id := rows[id].(status := UP, lastEventAt := Some(now))];
      found, recovered := true, previous == DOWN;
      if recovered {
        alerts := alerts + [(id, RecoveryAlert)];
      }
    }
  }

  function Downs(ids: seq<nat>): seq<(nat, Entry)> { seq(|ids|, i requires 0 <= i < |ids| => (ids[i], DownAlert)) }

  function Tagged(id: nat, log: seq<Entry>): seq<(nat, Entry)> { seq(|log|, i requires 0 <= i < |log| => (id, log[i])) }

  lemma {:induction false} SelectedAreDistinct(ids: seq<nat>, rows: map<nat, Check>, now: int, fire: Aggregate.CronFire)
    requires forall i, j :: 0 <= i < j < |ids| ==> ids[i] != ids[j]
    ensures var s := Selected(ids, rows, now, fire); forall i, j :: 0 <= i < j < |s| ==> s[i] != s[j]
  {
    if ids != [] {
      var front, id := ids[..|ids| - 1], ids[|ids| - 1];
      SelectedAreDistinct(front, rows, now, fire);
      SelectedMeaning(front, rows, now, fire, id);
    }
  }
}
