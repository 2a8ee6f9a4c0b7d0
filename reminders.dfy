/**
 * The reminder engine of the worker's `scheduled` handler: on every cron
 * tick it looks at today's events, and for each threshold that is due it
 * sends each boss one reminder, gated by the `sent_notifications` ledger so
 * that a triple (event, `pre_<th>`, boss) is pushed at most once.
 */
module Reminders {
  import opened Wrappers
  import opened Text
  import opened Validation
  import opened Thresholds
  import opened TimeMath

  // ------------------------------------------------------------- tables

  /** A row of the events table, with the columns the engine reads. */
  datatype Event = Event(id: string, date: string, time: string, eventType: string)

  /** A row of the roles table; a missing `user_id` is `None`. */
  datatype RoleRow = RoleRow(userId: Option<string>, role: string)

  /** A row of `sent_notifications`, without its `sent_at` timestamp. */
  datatype Notification = Notification(eventId: string, kind: string, target: string)

  /**
   * A push to the messaging gateway: the recipient, the text message, and
   * the event whose Flex bubble follows the text.
   */
  datatype Push = Push(to: string, text: string, eventId: string)

  const BossRole: string := "boss"

  /** `SELECT … FROM events WHERE date=?` for today's date, in table order. */
  function EventsOn(events: seq<Event>, today: string): (rows: seq<Event>)
    ensures forall i :: 0 <= i < |rows| ==> rows[i] in events && rows[i].date == today
    ensures forall ev :: ev in events && ev.date == today ==> ev in rows
  {
    if |events| == 0 then []
    else
      var rest := EventsOn(events[..|events| - 1], today);
      var ev := events[|events| - 1];
      assert forall x :: x in events[..|events| - 1] ==> x in events;
      if ev.date == today then rest + [ev] else rest
  }

  /**
   * `SELECT user_id FROM roles WHERE role='boss'` followed by
   * `.map(r => r.user_id).filter(Boolean)`: the non-empty ids of the bosses.
   */
  function BossIds(roles: seq<RoleRow>): (ids: seq<string>)
    ensures forall i :: 0 <= i < |ids| ==> ids[i] != "" && RoleRow(Some(ids[i]), BossRole) in roles
    ensures forall r :: r in roles && r.role == BossRole && Present(r.userId) ==> r.userId.value in ids
  {
    if |roles| == 0 then []
    else
      var rest := BossIds(roles[..|roles| - 1]);
      var r := roles[|roles| - 1];
      assert forall x :: x in roles[..|roles| - 1] ==> x in roles;
      if r.role == BossRole && Present(r.userId) then rest + [r.userId.value] else rest
  }

  // ------------------------------------------------------ what a tick does

  /** The ledger kind of a threshold: `` `pre_${th}` ``. */
  function Kind(th: int): string {
    "pre_" + IntToString(th)
  }

  /** The text message of a reminder: `` `เตือนล่วงหน้า ${th} นาที` ``. */
  function ReminderText(th: int): string {
    "เตือนล่วงหน้า " + IntToString(th) + " นาที"
  }

  /** One due reminder: the ledger row that gates it and the push that delivers it. */
  datatype Due = Due(note: Notification, push: Push)

  /** The reminder of ledger kind `kind` and text `text` for boss `uid`. */
  function Reminder(eventId: string, kind: string, text: string, uid: string): Due {
    Due(Notification(eventId, kind, uid), Push(uid, text, eventId))
  }

  /** The reminder for event `eventId`, threshold `th` and boss `uid`. */
  function DueOf(eventId: string, th: int, uid: string): Due {
    Reminder(eventId, Kind(th), ReminderText(th), uid)
  }

  /** The rounded lead time of an event at `now`; `None` for an invalid date (`NaN`). */
  function DiffOf(ev: Event, now: int): Option<int> {
    var t := ToBkkDateTime(ev.date, ev.time);
    if t.Some? then Some(MinutesDiff(t.value, now)) else None
  }

  /** The thresholds of an event's type under the stored settings. */
  function ThresholdsOf(ev: Event, settings: map<string, string>): seq<int> {
    ThresholdsForType(Override(settings, ev.eventType), ev.eventType)
  }

  /** One reminder per boss, in the order of the boss list. */
  function DueBosses(eventId: string, kind: string, text: string, bosses: seq<string>): (ds: seq<Due>)
    ensures |ds| == |bosses|
    ensures forall i :: 0 <= i < |ds| ==> ds[i] == Reminder(eventId, kind, text, bosses[i])
  {
    if |bosses| == 0 then []
    else DueBosses(eventId, kind, text, bosses[..|bosses| - 1]) + [Reminder(eventId, kind, text, bosses[|bosses| - 1])]
  }

  /** The reminders of one event: for each due threshold in order, one per boss. */
  function DueThresholds(eventId: string, diff: Option<int>, ths: seq<int>, bosses: seq<string>): seq<Due> {
    if |ths| == 0 then []
    else
      var th := ths[|ths| - 1];
      DueThresholds(eventId, diff, ths[..|ths| - 1], bosses)
        + (if diff.Some? && IsDue(diff.value, th) then DueBosses(eventId, Kind(th), ReminderText(th), bosses) else [])
  }

  function DueEvent(ev: Event, now: int, settings: map<string, string>, bosses: seq<string>): seq<Due> {
    DueThresholds(ev.id, DiffOf(ev, now), ThresholdsOf(ev, settings), bosses)
  }

  /** Every reminder due at `now`, in the order the tick's loops visit them. */
  function DueAll(rows: seq<Event>, now: int, settings: map<string, string>, bosses: seq<string>): seq<Due> {
    if |rows| == 0 then []
    else DueAll(rows[..|rows| - 1], now, settings, bosses) + DueEvent(rows[|rows| - 1], now, settings, bosses)
  }

  /** The ledger and the gateway log together. */
  datatype Outcome = Outcome(sent: set<Notification>, pushes: seq<Push>)

  /**
   * One pass of the innermost loop: a triple already in the ledger is
   * skipped; otherwise it is marked (kept only when the write succeeds) and
   * then pushed.
   */
  function Step(o: Outcome, d: Due, writeOk: Notification -> bool): (r: Outcome)
    ensures o.sent <= r.sent <= o.sent + {d.note}
    ensures d.note in r.sent <==> d.note in o.sent || writeOk(d.note)
    ensures r.pushes == o.pushes || r.pushes == o.pushes + [d.push]
    ensures r.pushes == o.pushes + [d.push] <==> d.note !in o.sent
  {
    var n := d.note;
    if n in o.sent then o
    else Outcome(if writeOk(n) then o.sent + {n} else o.sent, o.pushes + [d.push])
  }

  /** The reminders `ds` processed one after the other. */
  function Run(o: Outcome, ds: seq<Due>, writeOk: Notification -> bool): (r: Outcome)
    ensures o.sent <= r.sent
  {
    if |ds| == 0 then o else Step(Run(o, ds[..|ds| - 1], writeOk), ds[|ds| - 1], writeOk)
  }

  lemma RunSnoc(o: Outcome, ds: seq<Due>, d: Due, writeOk: Notification -> bool)
    ensures Run(o, ds + [d], writeOk) == Step(Run(o, ds, writeOk), d, writeOk)
  {
    assert (ds + [d])[..|ds|] == ds;
  }

  /** Each reminder pushes at most once: a run adds at most one push per reminder. */
  lemma {:induction false} RunPushBound(o: Outcome, ds: seq<Due>, writeOk: Notification -> bool)
    ensures |o.pushes| <= |Run(o, ds, writeOk).pushes| <= |o.pushes| + |ds|
  {
    if |ds| > 0 {
      RunPushBound(o, ds[..|ds| - 1], writeOk);
    }
  }

  /** Processing `a` and then `b` is processing `a + b`: ticks compose. */
  lemma {:induction false} RunConcat(o: Outcome, a: seq<Due>, b: seq<Due>, writeOk: Notification -> bool)
    ensures Run(o, a + b, writeOk) == Run(Run(o, a, writeOk), b, writeOk)
    decreases |b|
  {
    if |b| == 0 {
      assert a + b == a;
    } else {
      var b' := b[..|b| - 1];
      assert a + b == (a + b') + [b[|b| - 1]];
      assert b == b' + [b[|b| - 1]];
      RunSnoc(o, a + b', b[|b| - 1], writeOk);
      RunConcat(o, a, b', writeOk);
      RunSnoc(Run(o, a, writeOk), b', b[|b| - 1], writeOk);
    }
  }

  // --------------------------------------------------------- the stores

  /** The `sent_notifications` table. */
  class Ledger {
    var sent: set<Notification>

    constructor ()
      ensures sent == {}
    {
      sent := {};
    }

    /** `shouldSendPreNotif`: true when no row holds the triple. */
    method ShouldSend(eventId: string, kind: string, userId: string) returns (allowed: bool)
      ensures allowed <==> Notification(eventId, kind, userId) !in sent
    {
      allowed := Notification(eventId, kind, userId) !in sent;
    }

    /**
     * `markPreNotif`: `INSERT … ON CONFLICT DO NOTHING`. A failed write
     * (`writeOk` false) is caught and logged and leaves the table as it was.
     */
    method Mark(eventId: string, kind: string, userId: string, writeOk: bool)
      modifies this
      ensures sent == Insert(old(sent), Notification(eventId, kind, userId), writeOk)
    {
      sent := Insert(sent, Notification(eventId, kind, userId), writeOk);
    }
  }

  /**
   * The insert-if-absent of the ledger, by value: no row is removed or
   * altered, inserting a row already present changes nothing, and the row
   * is there afterwards exactly when the write succeeded or it was already.
   */
  function Insert(sent: set<Notification>, n: Notification, writeOk: bool): (r: set<Notification>)
    ensures sent <= r && r - sent <= {n}
    ensures n in sent ==> r == sent
    ensures n in r <==> writeOk || n in sent
  {
    if writeOk then sent + {n} else sent
  }

  /** The messaging gateway, seen as the log of pushes it was asked to deliver. */
  class Gateway {
    var log: seq<Push>

    constructor ()
      ensures log == []
    {
      log := [];
    }

    /** One push call; delivery failures are caught by the caller, so every call is logged. */
    method Send(p: Push)
      modifies this
      ensures log == old(log) + [p]
    {
      log := log + [p];
    }
  }

  // ------------------------------------------------------------ the tick

  /**
   * The reminder part of `scheduled(event, env, ctx)` at instant `now`, with
   * `today` the Bangkok date `toYMD(bkkToday())` and `writeOk` telling which
   * ledger writes succeed. The ledger and the log end as `Run` says.
   */
  method Tick(ledger: Ledger, gateway: Gateway, now: int, today: string,
              events: seq<Event>, roles: seq<RoleRow>, settings: map<string, string>,
              writeOk: Notification -> bool)
    modifies ledger, gateway
    ensures var r := Run(Outcome(old(ledger.sent), old(gateway.log)),
                         DueAll(EventsOn(events, today), now, settings, BossIds(roles)), writeOk);
      ledger.sent == r.sent && gateway.log == r.pushes
  {
    var rows := EventsOn(events, today);
    if |rows| == 0 {
      return;
    }
    var bossIds := BossIds(roles);
    if |bossIds| == 0 {
      NoBossesNothingDue(rows, now, settings);
      return;
    }
    NotifyEvents(ledger, gateway, rows, now, settings, bossIds, writeOk);
  }

  /** The loop over today's events, in the order the query returns them. */
  method NotifyEvents(ledger: Ledger, gateway: Gateway, rows: seq<Event>, now: int,
                      settings: map<string, string>, bossIds: seq<string>, writeOk: Notification -> bool)
    modifies ledger, gateway
    ensures Outcome(ledger.sent, gateway.log) ==
      Run(Outcome(old(ledger.sent), old(gateway.log)), DueAll(rows, now, settings, bossIds), writeOk)
  {
    ghost var o0 := Outcome(ledger.sent, gateway.log);
    var e := 0;
    while e < |rows|
      invariant 0 <= e <= |rows|
      invariant Outcome(ledger.sent, gateway.log) == Run(o0, DueAll(rows[..e], now, settings, bossIds), writeOk)
    {
      NotifyEvent(ledger, gateway, rows[e], now, settings, bossIds, writeOk);
      DueAllStep(o0, rows, e, now, settings, bossIds, writeOk);
      e := e + 1;
    }
    assert rows[..e] == rows;
  }

  /** One more event: its reminders follow those of the events before it. */
  lemma DueAllStep(o: Outcome, rows: seq<Event>, e: nat, now: int, settings: map<string, string>,
                   bosses: seq<string>, writeOk: Notification -> bool)
    requires e < |rows|
    ensures Run(o, DueAll(rows[..e + 1], now, settings, bosses), writeOk) ==
      Run(Run(o, DueAll(rows[..e], now, settings, bosses), writeOk), DueEvent(rows[e], now, settings, bosses), writeOk)
  {
    assert rows[..e + 1][..e] == rows[..e];
    RunConcat(o, DueAll(rows[..e], now, settings, bosses), DueEvent(rows[e], now, settings, bosses), writeOk);
  }

  /** One more threshold: its reminders, if it is due, follow those of the thresholds before it. */
  lemma DueThresholdsStep(o: Outcome, eventId: string, diff: Option<int>, ths: seq<int>, t: nat,
                          bosses: seq<string>, writeOk: Notification -> bool)
    requires t < |ths|
    ensures Run(o, DueThresholds(eventId, diff, ths[..t + 1], bosses), writeOk) ==
      Run(Run(o, DueThresholds(eventId, diff, ths[..t], bosses), writeOk),
          if diff.Some? && IsDue(diff.value, ths[t]) then DueBosses(eventId, Kind(ths[t]), ReminderText(ths[t]), bosses) else [],
          writeOk)
  {
    assert ths[..t + 1][..t] == ths[..t];
    var th := ths[t];
    RunConcat(o, DueThresholds(eventId, diff, ths[..t], bosses),
              if diff.Some? && IsDue(diff.value, th) then DueBosses(eventId, Kind(th), ReminderText(th), bosses) else [], writeOk);
  }

  /** The body of the loop over today's events: every due threshold of `ev`, in order. */
  method NotifyEvent(ledger: Ledger, gateway: Gateway, ev: Event, now: int,
                     settings: map<string, string>, bossIds: seq<string>, writeOk: Notification -> bool)
    modifies ledger, gateway
    ensures Outcome(ledger.sent, gateway.log) ==
      Run(Outcome(old(ledger.sent), old(gateway.log)), DueEvent(ev, now, settings, bossIds), writeOk)
  {
    var evDt := ToBkkDateTime(ev.date, ev.time);
    var diffMin := if evDt.Some? then Some(MinutesDiff(evDt.value, now)) else None;
    var thresholds := ThresholdsForType(Override(settings, ev.eventType), ev.eventType);
    NotifyThresholds(ledger, gateway, ev.id, diffMin, thresholds, bossIds, writeOk);
  }

  /** The loop over the thresholds of one event, lead time `diffMin`. */
  method NotifyThresholds(ledger: Ledger, gateway: Gateway, eventId: string, diffMin: Option<int>,
                          thresholds: seq<int>, bossIds: seq<string>, writeOk: Notification -> bool)
    modifies ledger, gateway
    ensures Outcome(ledger.sent, gateway.log) ==
      Run(Outcome(old(ledger.sent), old(gateway.log)), DueThresholds(eventId, diffMin, thresholds, bossIds), writeOk)
  {
    ghost var base := Outcome(ledger.sent, gateway.log);
    var t := 0;
    while t < |thresholds|
      invariant 0 <= t <= |thresholds|
      invariant Outcome(ledger.sent, gateway.log) == Run(base, DueThresholds(eventId, diffMin, thresholds[..t], bossIds), writeOk)
    {
      var th := thresholds[t];
      DueThresholdsStep(base, eventId, diffMin, thresholds, t, bossIds, writeOk);
      if diffMin.Some? && IsDue(diffMin.value, th) {
        NotifyBosses(ledger, gateway, eventId, th, bossIds, writeOk);
      }
      t := t + 1;
    }
    assert thresholds[..t] == thresholds;
  }

  /**
   * The loop over the bosses for one due threshold: a boss whose triple is in
   * the ledger is skipped; otherwise the triple is marked before the push,
   * so that an overlapping tick sees it.
   */
  method NotifyBosses(ledger: Ledger, gateway: Gateway, eventId: string, th: int,
                      bossIds: seq<string>, writeOk: Notification -> bool)
    modifies ledger, gateway
    ensures Outcome(ledger.sent, gateway.log) ==
      Run(Outcome(old(ledger.sent), old(gateway.log)), DueBosses(eventId, Kind(th), ReminderText(th), bossIds), writeOk)
  {
    ghost var mid := Outcome(ledger.sent, gateway.log);
    var kind := Kind(th);
    var text := ReminderText(th);
    var b := 0;
    while b < |bossIds|
      invariant 0 <= b <= |bossIds|
      invariant Outcome(ledger.sent, gateway.log) == Run(mid, DueBosses(eventId, kind, text, bossIds[..b]), writeOk)
    {
      var uid := bossIds[b];
      var allowed := ledger.ShouldSend(eventId, kind, uid);
      if allowed {
        ledger.Mark(eventId, kind, uid, writeOk(Notification(eventId, kind, uid)));
        gateway.Send(Push(uid, text, eventId));
      }
      assert bossIds[..b + 1][..b] == bossIds[..b];
      RunSnoc(mid, DueBosses(eventId, kind, text, bossIds[..b]), Reminder(eventId, kind, text, uid), writeOk);
      b := b + 1;
    }
    assert bossIds[..b] == bossIds;
  }

  // ------------------------------------------------------------ properties

  /** Without bosses nothing is due. */
  lemma {:induction false} NoBossesNothingDue(rows: seq<Event>, now: int, settings: map<string, string>)
    ensures DueAll(rows, now, settings, []) == []
  {
    if |rows| > 0 {
      NoBossesNothingDue(rows[..|rows| - 1], now, settings);
      var ev := rows[|rows| - 1];
      NoBossesNoThreshold(ev.id, DiffOf(ev, now), ThresholdsOf(ev, settings));
    }
  }

  lemma {:induction false} NoBossesNoThreshold(eventId: string, diff: Option<int>, ths: seq<int>)
    ensures DueThresholds(eventId, diff, ths, []) == []
  {
    if |ths| > 0 {
      NoBossesNoThreshold(eventId, diff, ths[..|ths| - 1]);
    }
  }

  /**
   * A tick with no events today, or with no bosses, changes neither the
   * ledger nor the log.
   */
  lemma QuietTick(o: Outcome, now: int, today: string, events: seq<Event>, roles: seq<RoleRow>,
                  settings: map<string, string>, writeOk: Notification -> bool)
    requires EventsOn(events, today) == [] || BossIds(roles) == []
    ensures Run(o, DueAll(EventsOn(events, today), now, settings, BossIds(roles)), writeOk) == o
  {
    if BossIds(roles) == [] {
      NoBossesNothingDue(EventsOn(events, today), now, settings);
    }
  }

  lemma KindInjective(a: int, b: int)
    requires Kind(a) == Kind(b)
    ensures a == b
  {
    assert IntToString(a) == Kind(a)[4..];
    assert IntToString(b) == Kind(b)[4..];
    IntToStringInjective(a, b);
  }

  lemma TextInjective(a: int, b: int)
    requires ReminderText(a) == ReminderText(b)
    ensures a == b
  {
    var p, s := "เตือนล่วงหน้า ", " นาที";
    var x, y := IntToString(a), IntToString(b);
    assert ReminderText(a) == p + x + s && ReminderText(b) == p + y + s;
    assert |x| == |y|;
    assert x == ReminderText(a)[|p|..|p| + |x|];
    assert y == ReminderText(b)[|p|..|p| + |y|];
    IntToStringInjective(a, b);
  }

  /** A ledger row names the event, threshold and boss it was built from, and so does a push. */
  lemma DueOfIsDetermined(e1: string, t1: int, u1: string, e2: string, t2: int, u2: string)
    ensures DueOf(e1, t1, u1).note == DueOf(e2, t2, u2).note ==> e1 == e2 && t1 == t2 && u1 == u2
    ensures DueOf(e1, t1, u1).push == DueOf(e2, t2, u2).push ==> e1 == e2 && t1 == t2 && u1 == u2
  {
    if DueOf(e1, t1, u1).note == DueOf(e2, t2, u2).note {
      KindInjective(t1, t2);
    }
    if DueOf(e1, t1, u1).push == DueOf(e2, t2, u2).push {
      TextInjective(t1, t2);
    }
  }

  /** A reminder as the tick builds it, for some threshold. */
  ghost predicate Built(d: Due) {
    exists th :: d == DueOf(d.note.eventId, th, d.note.target)
  }

  /** In `ds` a ledger row stands for one reminder, and so does a push. */
  predicate Coherent(ds: seq<Due>) {
    forall x, y :: x in ds && y in ds && (x.note == y.note || x.push == y.push) ==> x == y
  }

  lemma BuiltIsCoherent(ds: seq<Due>)
    requires forall d :: d in ds ==> Built(d)
    ensures Coherent(ds)
  {
    forall x, y | x in ds && y in ds && (x.note == y.note || x.push == y.push)
      ensures x == y
    {
      var tx :| x == DueOf(x.note.eventId, tx, x.note.target);
      var ty :| y == DueOf(y.note.eventId, ty, y.note.target);
      DueOfIsDetermined(x.note.eventId, tx, x.note.target, y.note.eventId, ty, y.note.target);
    }
  }

  lemma {:induction false} DueThresholdsBuilt(eventId: string, diff: Option<int>, ths: seq<int>, bosses: seq<string>)
    ensures forall d :: d in DueThresholds(eventId, diff, ths, bosses) ==> Built(d)
  {
    if |ths| > 0 {
      var th := ths[|ths| - 1];
      DueThresholdsBuilt(eventId, diff, ths[..|ths| - 1], bosses);
      var ds := DueBosses(eventId, Kind(th), ReminderText(th), bosses);
      forall d | d in ds ensures Built(d) {
        var i :| 0 <= i < |ds| && ds[i] == d;
        assert d == DueOf(eventId, th, bosses[i]);
      }
    }
  }

  /** Every reminder of a tick is built from an event, a threshold and a boss. */
  lemma {:induction false} DueAllBuilt(rows: seq<Event>, now: int, settings: map<string, string>, bosses: seq<string>)
    ensures forall d :: d in DueAll(rows, now, settings, bosses) ==> Built(d)
  {
    if |rows| > 0 {
      var ev := rows[|rows| - 1];
      DueAllBuilt(rows[..|rows| - 1], now, settings, bosses);
      DueThresholdsBuilt(ev.id, DiffOf(ev, now), ThresholdsOf(ev, settings), bosses);
    }
  }

  /** The reminders of any ticks, taken together, are coherent. */
  lemma TicksAreCoherent(rows1: seq<Event>, now1: int, settings1: map<string, string>, bosses1: seq<string>,
                         rows2: seq<Event>, now2: int, settings2: map<string, string>, bosses2: seq<string>)
    ensures Coherent(DueAll(rows1, now1, settings1, bosses1) + DueAll(rows2, now2, settings2, bosses2))
  {
    DueAllBuilt(rows1, now1, settings1, bosses1);
    DueAllBuilt(rows2, now2, settings2, bosses2);
    BuiltIsCoherent(DueAll(rows1, now1, settings1, bosses1) + DueAll(rows2, now2, settings2, bosses2));
  }

  /** `r` is `o` with rows added to the ledger and pushes appended to the log. */
  predicate Extends(o: Outcome, r: Outcome) {
    o.sent <= r.sent && |o.pushes| <= |r.pushes| && r.pushes[..|o.pushes|] == o.pushes
  }

  /** The pushes a run adds to the log. */
  function NewPushes(o: Outcome, ds: seq<Due>, writeOk: Notification -> bool): seq<Push>
  {
    var r := Run(o, ds, writeOk);
    if |o.pushes| <= |r.pushes| then r.pushes[|o.pushes|..] else []
  }

  /** Nothing leaves the ledger and the log only grows. */
  lemma {:induction false} RunExtends(o: Outcome, ds: seq<Due>, writeOk: Notification -> bool)
    ensures Extends(o, Run(o, ds, writeOk))
  {
    if |ds| > 0 {
      var r' := Run(o, ds[..|ds| - 1], writeOk);
      RunExtends(o, ds[..|ds| - 1], writeOk);
      var r := Run(o, ds, writeOk);
      assert r.pushes[..|r'.pushes|] == r'.pushes;
      assert r.pushes[..|o.pushes|] == r'.pushes[..|o.pushes|];
    }
  }

  /** One more reminder adds its push exactly when its triple is not yet in the ledger. */
  lemma NewPushesSnoc(o: Outcome, ds: seq<Due>, d: Due, writeOk: Notification -> bool)
    ensures NewPushes(o, ds + [d], writeOk) ==
      NewPushes(o, ds, writeOk) + (if d.note in Run(o, ds, writeOk).sent then [] else [d.push])
  {
    RunSnoc(o, ds, d, writeOk);
    RunExtends(o, ds, writeOk);
    var r' := Run(o, ds, writeOk);
    if d.note !in r'.sent {
      assert (r'.pushes + [d.push])[|o.pushes|..] == r'.pushes[|o.pushes|..] + [d.push];
    }
  }

  /** Every push a run adds is for a due reminder that was not in the ledger when it began. */
  lemma {:induction false} PushesAreDue(o: Outcome, ds: seq<Due>, writeOk: Notification -> bool)
    ensures forall p :: p in NewPushes(o, ds, writeOk) ==>
      exists d :: d in ds && d.note !in o.sent && p == d.push
  {
    if |ds| > 0 {
      var ds', d := ds[..|ds| - 1], ds[|ds| - 1];
      assert ds == ds' + [d];
      PushesAreDue(o, ds', writeOk);
      NewPushesSnoc(o, ds', d, writeOk);
      RunExtends(o, ds', writeOk);
      assert forall x :: x in ds' ==> x in ds;
    }
  }

  /** Every row a run adds to the ledger has had its push during the run. */
  lemma {:induction false} MarksArePushed(o: Outcome, ds: seq<Due>, writeOk: Notification -> bool)
    ensures forall n :: n in Run(o, ds, writeOk).sent && n !in o.sent ==>
      exists d :: d in ds && d.note == n && d.push in NewPushes(o, ds, writeOk)
  {
    if |ds| > 0 {
      var ds', d := ds[..|ds| - 1], ds[|ds| - 1];
      assert ds == ds' + [d];
      MarksArePushed(o, ds', writeOk);
      NewPushesSnoc(o, ds', d, writeOk);
      RunSnoc(o, ds', d, writeOk);
      assert forall x :: x in ds' ==> x in ds;
    }
  }

  /**
   * What a run keeps: nothing leaves the ledger, the log only grows, every
   * new push is for a due reminder that was not in the ledger when the run
   * began, and every new ledger row has had its push.
   */
  lemma RunShape(o: Outcome, ds: seq<Due>, writeOk: Notification -> bool)
    ensures Extends(o, Run(o, ds, writeOk))
    ensures forall p :: p in NewPushes(o, ds, writeOk) ==>
      exists d :: d in ds && d.note !in o.sent && p == d.push
    ensures forall n :: n in Run(o, ds, writeOk).sent && n !in o.sent ==>
      exists d :: d in ds && d.note == n && d.push in NewPushes(o, ds, writeOk)
  {
    RunExtends(o, ds, writeOk);
    PushesAreDue(o, ds, writeOk);
    MarksArePushed(o, ds, writeOk);
  }

  /**
   * No missed reminder: every due reminder whose triple was not in the
   * ledger when the run began is pushed during the run, whether or not the
   * ledger writes succeed.
   */
  lemma NothingMissed(o: Outcome, ds: seq<Due>, writeOk: Notification -> bool)
    requires Coherent(ds)
    ensures forall d :: d in ds ==> d.note in o.sent || d.push in NewPushes(o, ds, writeOk)
  {
    forall d | d in ds
      ensures d.note in o.sent || d.push in NewPushes(o, ds, writeOk)
    {
      var i :| 0 <= i < |ds| && ds[i] == d;
      NotMissedAt(o, ds, writeOk, i);
    }
  }

  lemma {:induction false} NotMissedAt(o: Outcome, ds: seq<Due>, writeOk: Notification -> bool, i: nat)
    requires i < |ds| && Coherent(ds)
    ensures ds[i].note in o.sent || ds[i].push in NewPushes(o, ds, writeOk)
    decreases |ds|
  {
    var d := ds[i];
    var ds', last := ds[..|ds| - 1], ds[|ds| - 1];
    assert ds == ds' + [last];
    NewPushesSnoc(o, ds', last, writeOk);
    assert forall x :: x in ds' ==> x in ds;
    if d.note !in o.sent {
      if i < |ds| - 1 {
        assert ds'[i] == d;
        NotMissedAt(o, ds', writeOk, i);
      } else if d.note in Run(o, ds', writeOk).sent {
        MarksArePushed(o, ds', writeOk);
        var x :| x in ds' && x.note == d.note && x.push in NewPushes(o, ds', writeOk);
      }
    }
  }

  /** Every ledger write succeeds. */
  ghost predicate AllWritesOk(writeOk: Notification -> bool) {
    forall n :: writeOk(n)
  }

  /** With working writes, every due reminder is in the ledger after the run. */
  lemma {:induction false} RunMarksAll(o: Outcome, ds: seq<Due>, writeOk: Notification -> bool)
    requires AllWritesOk(writeOk)
    ensures forall d :: d in ds ==> d.note in Run(o, ds, writeOk).sent
  {
    if |ds| > 0 {
      var ds', last := ds[..|ds| - 1], ds[|ds| - 1];
      RunMarksAll(o, ds', writeOk);
      var r' := Run(o, ds', writeOk);
      assert writeOk(last.note);
      assert Run(o, ds, writeOk) == Step(r', last, writeOk);
      assert r'.sent <= Run(o, ds, writeOk).sent;
      assert forall d :: d in ds ==> d in ds' || d == last;
    }
  }

  /** A run over reminders that are all in the ledger already changes nothing. */
  lemma {:induction false} RunSkipsMarked(o: Outcome, ds: seq<Due>, writeOk: Notification -> bool)
    requires forall d :: d in ds ==> d.note in o.sent
    ensures Run(o, ds, writeOk) == o
  {
    if |ds| > 0 {
      assert forall d :: d in ds[..|ds| - 1] ==> d in ds;
      RunSkipsMarked(o, ds[..|ds| - 1], writeOk);
    }
  }

  /**
   * A second tick that finds only reminders the first one already handled,
   * with the ledger kept between the two, pushes nothing.
   */
  lemma SecondTickSilent(o: Outcome, ds1: seq<Due>, ds2: seq<Due>, writeOk: Notification -> bool)
    requires AllWritesOk(writeOk)
    requires forall d :: d in ds2 ==> d in ds1
    ensures Run(Run(o, ds1, writeOk), ds2, writeOk) == Run(o, ds1, writeOk)
  {
    RunMarksAll(o, ds1, writeOk);
    RunSkipsMarked(Run(o, ds1, writeOk), ds2, writeOk);
  }

  /** No two entries of `ps` are equal. */
  predicate Distinct(ps: seq<Push>) {
    forall i, j :: 0 <= i < j < |ps| ==> ps[i] != ps[j]
  }

  /**
   * At most once: with working writes, the pushes a run adds are pairwise
   * distinct, and each is for a triple the run put in the ledger.
   */
  lemma {:induction false} RunPushesDistinct(o: Outcome, ds: seq<Due>, writeOk: Notification -> bool)
    requires AllWritesOk(writeOk) && Coherent(ds)
    ensures Distinct(NewPushes(o, ds, writeOk))
    ensures forall p :: p in NewPushes(o, ds, writeOk) ==>
      exists d :: d in ds && d.note in Run(o, ds, writeOk).sent && d.note !in o.sent && p == d.push
  {
    if |ds| > 0 {
      var ds', d := ds[..|ds| - 1], ds[|ds| - 1];
      assert ds == ds' + [d];
      RunPushesDistinct(o, ds', writeOk);
      RunExtends(o, ds', writeOk);
      NewPushesSnoc(o, ds', d, writeOk);
      RunSnoc(o, ds', d, writeOk);
      var r' := Run(o, ds', writeOk);
      var np' := NewPushes(o, ds', writeOk);
      assert forall x :: x in ds' ==> x in ds;
      assert r'.sent <= Run(o, ds, writeOk).sent;
      if d.note !in r'.sent {
        assert writeOk(d.note);
        forall p | p in np' ensures p != d.push {
          var x :| x in ds' && x.note in r'.sent && x.note !in o.sent && p == x.push;
        }
        DistinctSnoc(np', d.push);
      }
    }
  }

  lemma DistinctSnoc(ps: seq<Push>, p: Push)
    requires Distinct(ps) && p !in ps
    ensures Distinct(ps + [p])
  {
  }

  /**
   * Two ticks with the ledger kept between them push each triple at most
   * once across both, and never one the ledger already held.
   */
  lemma TwoTicksAtMostOnce(o: Outcome, ds1: seq<Due>, ds2: seq<Due>, writeOk: Notification -> bool)
    requires AllWritesOk(writeOk) && Coherent(ds1 + ds2)
    ensures var r := Run(Run(o, ds1, writeOk), ds2, writeOk);
      && Extends(o, r)
      && Distinct(r.pushes[|o.pushes|..])
      && forall p :: p in r.pushes[|o.pushes|..] ==> exists d :: d in ds1 + ds2 && d.note !in o.sent && p == d.push
  {
    RunConcat(o, ds1, ds2, writeOk);
    RunExtends(o, ds1 + ds2, writeOk);
    RunPushesDistinct(o, ds1 + ds2, writeOk);
  }

  /**
   * An event's lead time at a clock reading on its own day is the
   * difference of the two readings, in minutes.
   */
  lemma LeadTimeSameDay(ev: Event, clock: string)
    requires IsDateString(ev.date) && IsTimeString(ev.time) && IsTimeString(clock)
    ensures ToBkkDateTime(ev.date, clock).Some?
    ensures DiffOf(ev, ToBkkDateTime(ev.date, clock).value) == Some(ClockMinutes(ev.time) - ClockMinutes(clock))
  {
    SameDayOffset(ev.date, clock, ev.time);
    var now := ToBkkDateTime(ev.date, clock).value;
    var n := ClockMinutes(ev.time) - ClockMinutes(clock);
    assert ToBkkDateTime(ev.date, ev.time).value == now + n * MsPerMinute;
    WholeMinutes(now, n);
  }

  /** The clock readings of the two-tick example. */
  lemma ScenarioClocks()
    ensures IsTimeString("14:00") && IsTimeString("13:02") && IsTimeString("13:03")
    ensures ClockMinutes("14:00") - ClockMinutes("13:02") == 58
    ensures ClockMinutes("14:00") - ClockMinutes("13:03") == 57
  {
    assert "14:00"[..2] == "14" && "14:00"[3..] == "00";
    assert "13:02"[..2] == "13" && "13:02"[3..] == "02";
    assert "13:03"[..2] == "13" && "13:03"[3..] == "03";
    assert "14"[..1] == "1" && "13"[..1] == "1" && "1"[..0] == "";
    assert DigitsValue("14") == 14 && DigitsValue("13") == 13;
    assert DigitsValue("00") == 0 && DigitsValue("02") == 2 && DigitsValue("03") == 3;
  }

  /** The reminders due for a one-event, one-boss day at lead time `diff`, with no override. */
  lemma OneEventDue(ev: Event, now: int, boss: string, diff: int)
    requires ev.eventType == InDepartment && DiffOf(ev, now) == Some(diff) && IsDue(diff, 60)
    ensures DueAll([ev], now, map[], [boss]) == [DueOf(ev.id, 60, boss)]
  {
    FallbackTable(InDepartment);
    assert ThresholdsOf(ev, map[]) == [60];
    assert DueBosses(ev.id, Kind(60), ReminderText(60), [boss]) == [DueOf(ev.id, 60, boss)];
    assert DueThresholds(ev.id, Some(diff), [60], [boss]) == [DueOf(ev.id, 60, boss)] by {
      assert [60][..0] == [];
    }
    assert [ev][..0] == [];
  }

  /**
   * The two-tick example: a 14:00 event of type `ในกรม` (threshold 60) and
   * one boss. At 13:02 the lead time is 58, which is due, and the boss gets
   * one reminder; at 13:03 the lead time is 57, still due, but the ledger
   * holds the triple and nothing is pushed.
   */
  lemma TwoTickScenario(o: Outcome, date: string, id: string, boss: string, writeOk: Notification -> bool)
    requires IsDateString(date) && boss != "" && AllWritesOk(writeOk)
    requires Notification(id, "pre_60", boss) !in o.sent
    ensures var ev := Event(id, date, "14:00", InDepartment);
      var t1, t2 := ToBkkDateTime(date, "13:02"), ToBkkDateTime(date, "13:03");
      && t1.Some? && t2.Some?
      && var r1 := Run(o, DueAll(EventsOn([ev], date), t1.value, map[], BossIds([RoleRow(Some(boss), BossRole)])), writeOk);
         && r1.pushes == o.pushes + [Push(boss, "เตือนล่วงหน้า 60 นาที", id)]
         && Run(r1, DueAll(EventsOn([ev], date), t2.value, map[], BossIds([RoleRow(Some(boss), BossRole)])), writeOk) == r1
  {
    var ev := Event(id, date, "14:00", InDepartment);
    var row := RoleRow(Some(boss), BossRole);
    ScenarioClocks();
    LeadTimeSameDay(ev, "13:02");
    LeadTimeSameDay(ev, "13:03");
    ScenarioRows(ev, row);
    var t1, t2 := ToBkkDateTime(date, "13:02").value, ToBkkDateTime(date, "13:03").value;
    OneEventDue(ev, t1, boss, 58);
    OneEventDue(ev, t2, boss, 57);
    var d := DueOf(id, 60, boss);
    SixtyMinuteReminder(id, boss);
    OneDueTwice(o, d, writeOk);
  }

  /** The tables of the two-tick example: one event today and one boss. */
  lemma ScenarioRows(ev: Event, row: RoleRow)
    requires row.role == BossRole && Present(row.userId)
    ensures EventsOn([ev], ev.date) == [ev]
    ensures BossIds([row]) == [row.userId.value]
  {
    assert [ev][..0] == [];
    assert [row][..0] == [];
  }

  /** The 60-minute reminder, spelled out. */
  lemma SixtyMinuteReminder(id: string, boss: string)
    ensures DueOf(id, 60, boss) == Due(Notification(id, "pre_60", boss), Push(boss, "เตือนล่วงหน้า 60 นาที", id))
  {
    assert NatToString(60) == "60";
  }

  /** A fresh reminder seen on two ticks with working writes is pushed once. */
  lemma OneDueTwice(o: Outcome, d: Due, writeOk: Notification -> bool)
    requires AllWritesOk(writeOk) && d.note !in o.sent
    ensures Run(o, [d], writeOk).pushes == o.pushes + [d.push]
    ensures Run(Run(o, [d], writeOk), [d], writeOk) == Run(o, [d], writeOk)
  {
    RunSnoc(o, [], d, writeOk);
    assert [d] == [] + [d];
    SecondTickSilent(o, [d], [d], writeOk);
  }

  /**
   * The cost of a failed ledger write: the same reminder seen twice is
   * pushed twice.
   */
  lemma FailedMarkRepeats(o: Outcome, d: Due, writeOk: Notification -> bool)
    requires d.note !in o.sent && !writeOk(d.note)
    ensures Run(o, [d, d], writeOk).pushes == o.pushes + [d.push, d.push]
  {
    RunSnoc(o, [d], d, writeOk);
    assert [d, d] == [d] + [d];
    RunSnoc(o, [], d, writeOk);
    assert [d] == [] + [d];
  }
}
