/** The ring state machine of app.ts as pure transitions over a snapshot of
    its module-level state. Playback processes and interval timers are opaque
    numbered handles; the ghost parts of the snapshot record which of them are
    still alive (not killed, not cleared) and the external effects performed. */
module RingSpec {
  import opened AlarmMatcher

  datatype Option<T> = None | Some(value: T)

  /** An audio playback process started by the audio library. */
  type Handle = nat
  /** An interval timer installed by `setInterval`. */
  type TimerId = nat

  /** The effects the engine has on the world outside its own state. */
  datatype Effect =
    | RemoteFlagWritten                          // the shared flag document is written `shouldRing: true`
    | NotificationSent                           // a push notification is dispatched
    | Played(h: Handle)                          // a playback process is started
    | Killed(h: Handle)                          // `kill()` is called on a playback process
    | IntervalSet(t: TimerId, seconds: real)     // a loop interval is installed, period = clip duration
    | IntervalCleared(t: TimerId)                // `clearInterval` is called on a loop interval

  /** `state.shouldRing`, `state.alarms`, `currentAudioPlayer` and `loopInterval`,
      the next handles the audio library and the timer service hand out, the
      processes not yet killed, the intervals not yet cleared, and the effects. */
  datatype EngineState = EngineState(
    shouldRing: bool,
    alarms: seq<Alarm>,
    player: Option<Handle>,
    loopInterval: Option<TimerId>,
    nextHandle: Handle,
    nextTimer: TimerId,
    live: set<Handle>,
    activeTimers: set<TimerId>,
    trace: seq<Effect>)

  function Tracked<T>(o: Option<T>): set<T>
  {
    if o.Some? then {o.value} else {}
  }

  /** At most one playback process is alive, and it is the tracked one; the
      only interval not cleared is the tracked one; handed-out handles are
      below the next ones. */
  predicate Inv(s: EngineState)
  {
    && s.live <= Tracked(s.player)
    && s.activeTimers == Tracked(s.loopInterval)
    && (s.player.Some? ==> s.player.value < s.nextHandle)
    && (s.loopInterval.Some? ==> s.loopInterval.value < s.nextTimer)
  }

  /** Exactly one playback process alive, the tracked one, and exactly one
      loop interval active, the tracked one. */
  predicate OnePlayerOneLoop(s: EngineState)
  {
    && s.player.Some? && s.live == {s.player.value}
    && s.loopInterval.Some? && s.activeTimers == {s.loopInterval.value}
  }

  /** Effects of playback and timers only. */
  predicate PlaybackOnly(m: seq<Effect>)
  {
    forall k | 0 <= k < |m| :: !m[k].RemoteFlagWritten? && !m[k].NotificationSent?
  }

  /** The state at process start: no alarms, not ringing, nothing playing. */
  function Initial(): (s: EngineState)
    ensures Inv(s) && !s.shouldRing && s.alarms == [] && s.live == {} && s.activeTimers == {}
  {
    EngineState(false, [], None, None, 0, 0, {}, {}, [])
  }

  /** `kill()` on the tracked player, if there is one; the reference is kept. */
  function KillPlayer(s: EngineState): (r: EngineState)
    ensures Inv(s) ==> Inv(r) && r.live == {}
    ensures r.player == s.player && r.shouldRing == s.shouldRing && r.loopInterval == s.loopInterval
  {
    match s.player
    case None => s
    case Some(h) => s.(live := s.live - {h}, trace := s.trace + [Killed(h)])
  }

  /** `clearInterval` on the tracked loop interval, if there is one; the
      reference is kept. */
  function ClearLoop(s: EngineState): (r: EngineState)
    ensures r.activeTimers == s.activeTimers - Tracked(s.loopInterval)
    ensures r.player == s.player && r.live == s.live && r.shouldRing == s.shouldRing
  {
    match s.loopInterval
    case None => s
    case Some(t) => s.(activeTimers := s.activeTimers - {t}, trace := s.trace + [IntervalCleared(t)])
  }

  /** `playSound`: kill any tracked player before storing a new one, so that
      the new process is the only one alive. */
  function PlaySound(s: EngineState): (r: EngineState)
    ensures Inv(s) ==> Inv(r) && r.live == {s.nextHandle} && s.nextHandle !in s.live
    ensures r.player == Some(s.nextHandle)
    ensures r.shouldRing == s.shouldRing && r.alarms == s.alarms
    ensures r.loopInterval == s.loopInterval && r.activeTimers == s.activeTimers
    ensures r.trace == s.trace + (if s.player.Some? then [Killed(s.player.value)] else []) + [Played(s.nextHandle)]
  {
    var k := KillPlayer(s);
    var h := k.nextHandle;
    k.(player := Some(h), nextHandle := h + 1, live := k.live + {h}, trace := k.trace + [Played(h)])
  }

  /** `playAndLoopSound` once the clip duration is known: play, clear any
      existing loop interval, install a new one, so that exactly one interval
      is active afterwards and it is a new one. */
  function PlayAndLoop(s: EngineState, seconds: real): (r: EngineState)
    ensures Inv(s) ==> Inv(r) && OnePlayerOneLoop(r)
    ensures r.loopInterval == Some(s.nextTimer) && r.player == Some(s.nextHandle)
    ensures r.shouldRing == s.shouldRing && r.alarms == s.alarms
    ensures |r.trace| >= |s.trace| && r.trace[..|s.trace|] == s.trace && PlaybackOnly(r.trace[|s.trace|..])
  {
    var p := PlaySound(s);
    var c := ClearLoop(p);
    var t := c.nextTimer;
    c.(loopInterval := Some(t), nextTimer := t + 1, activeTimers := c.activeTimers + {t},
       trace := c.trace + [IntervalSet(t, seconds)])
  }

  /** The part of `startRing` before its `await`: raise the local flag and
      write the shared flag. */
  function StartRingBegin(s: EngineState): (r: EngineState)
    ensures r.shouldRing && r.trace == s.trace + [RemoteFlagWritten]
    ensures r.(shouldRing := s.shouldRing, trace := s.trace) == s
  {
    s.(shouldRing := true, trace := s.trace + [RemoteFlagWritten])
  }

  /** The part of `startRing` after the shared flag is written: loop the clip
      and dispatch the notification. The local flag is not consulted. */
  function StartRingResume(s: EngineState, seconds: real): (r: EngineState)
    ensures Inv(s) ==> Inv(r) && OnePlayerOneLoop(r)
    ensures r.shouldRing == s.shouldRing && r.alarms == s.alarms
    ensures |r.trace| > 0 && r.trace[|r.trace| - 1] == NotificationSent
  {
    var p := PlayAndLoop(s, seconds);
    p.(trace := p.trace + [NotificationSent])
  }

  /** `startRing` run without interruption. */
  function StartRing(s: EngineState, seconds: real): (r: EngineState)
    ensures Inv(s) ==> Inv(r) && OnePlayerOneLoop(r)
    ensures r.shouldRing && r.alarms == s.alarms
  {
    StartRingResume(StartRingBegin(s), seconds)
  }

  /** Each `startRing` appends to the effects exactly one shared-flag write
      and exactly one notification. */
  lemma StartRingEffects(s: EngineState, seconds: real)
    ensures var r := StartRing(s, seconds);
      && |r.trace| >= |s.trace| && r.trace[..|s.trace|] == s.trace
      && Occurrences(r.trace[|s.trace|..], NotificationSent) == 1
      && Occurrences(r.trace[|s.trace|..], RemoteFlagWritten) == 1
  {
    var r := StartRing(s, seconds);
    var b := StartRingBegin(s);
    var pl := PlayAndLoop(b, seconds);
    var mid := pl.trace[|b.trace|..];
    assert pl.trace == b.trace + mid;
    assert r.trace[|s.trace|..] == [RemoteFlagWritten] + mid + [NotificationSent];
    PlaybackCountsNothing(mid);
    OccurrencesAppend([RemoteFlagWritten] + mid, [NotificationSent], NotificationSent);
    OccurrencesAppend([RemoteFlagWritten] + mid, [NotificationSent], RemoteFlagWritten);
    OccurrencesAppend([RemoteFlagWritten], mid, NotificationSent);
    OccurrencesAppend([RemoteFlagWritten], mid, RemoteFlagWritten);
  }

  /** `stopRing`: lower the flag, kill the tracked player, clear and forget
      the loop interval. Afterwards nothing plays and no interval is active. */
  function StopRing(s: EngineState): (r: EngineState)
    ensures Inv(s) ==> Inv(r) && r.live == {} && r.activeTimers == {}
    ensures !r.shouldRing && r.loopInterval == None
    ensures r.alarms == s.alarms && r.player == s.player
  {
    var c := ClearLoop(KillPlayer(s));
    c.(shouldRing := false, loopInterval := None)
  }

  /** One firing of the installed loop interval: replay only while the local
      flag is raised. */
  function LoopFire(s: EngineState): (r: EngineState)
    ensures Inv(s) ==> Inv(r)
    ensures !s.shouldRing ==> r == s
    ensures s.shouldRing ==> r.player == Some(s.nextHandle)
    ensures Inv(s) && s.shouldRing ==>
              r.live == {s.nextHandle} && r.shouldRing && r.alarms == s.alarms
              && r.loopInterval == s.loopInterval && r.activeTimers == s.activeTimers
    ensures s.shouldRing ==>
              r.trace == s.trace + (if s.player.Some? then [Killed(s.player.value)] else []) + [Played(s.nextHandle)]
  {
    if s.shouldRing then PlaySound(s) else s
  }

  /** The reaction to an update of the shared flag document. */
  function OnRemoteFlag(s: EngineState, flag: bool, seconds: real): (r: EngineState)
    ensures Inv(s) ==> Inv(r)
    ensures r.shouldRing == flag && r.alarms == s.alarms
    ensures flag && s.shouldRing ==> r == s
    ensures Inv(s) && !flag ==> r.live == {} && r.activeTimers == {}
  {
    if flag then
      (if !s.shouldRing then StartRing(s, seconds) else s)
    else
      StopRing(s)
  }

  /** A new snapshot of the alarm collection replaces the whole list. */
  function OnAlarmsSnapshot(s: EngineState, alarms: seq<Alarm>): (r: EngineState)
    ensures r.alarms == alarms && r.(alarms := s.alarms) == s
  {
    s.(alarms := alarms)
  }

  /** The tick's walk over a list of alarms: `startRing` for each alarm that
      fires, in list order, whatever the local flag says. */
  function TickOver(s: EngineState, xs: seq<Alarm>, nowHour: int, nowMinute: int, jsDay: int, seconds: real): (r: EngineState)
    ensures r.alarms == s.alarms
    ensures Inv(s) ==> Inv(r)
    ensures (exists k | 0 <= k < |xs| :: Fires(xs[k], nowHour, nowMinute, jsDay)) ==> r.shouldRing
  {
    if xs == [] then s
    else
      var p := TickOver(s, xs[..|xs| - 1], nowHour, nowMinute, jsDay, seconds);
      if Fires(xs[|xs| - 1], nowHour, nowMinute, jsDay) then StartRing(p, seconds) else p
  }

  /** One tick of the cron interval over the current alarm list. */
  function Tick(s: EngineState, nowHour: int, nowMinute: int, jsDay: int, seconds: real): (r: EngineState)
    ensures r.alarms == s.alarms
    ensures Inv(s) ==> Inv(r)
    ensures (exists k | 0 <= k < |s.alarms| :: Fires(s.alarms[k], nowHour, nowMinute, jsDay)) ==> r.shouldRing
  {
    TickOver(s, s.alarms, nowHour, nowMinute, jsDay, seconds)
  }

  /** `startRing` run n times in a row. */
  function StartRingTimes(s: EngineState, n: nat, seconds: real): EngineState
  {
    if n == 0 then s else StartRing(StartRingTimes(s, n - 1, seconds), seconds)
  }

  /** How often an effect occurs in a trace. */
  function Occurrences(trace: seq<Effect>, e: Effect): (n: nat)
    ensures n <= |trace|
  {
    if trace == [] then 0
    else Occurrences(trace[..|trace| - 1], e) + (if trace[|trace| - 1] == e then 1 else 0)
  }

  lemma {:induction false} OccurrencesAppend(a: seq<Effect>, b: seq<Effect>, e: Effect)
    ensures Occurrences(a + b, e) == Occurrences(a, e) + Occurrences(b, e)
  {
    if b != [] {
      assert (a + b)[..|a + b| - 1] == a + b[..|b| - 1];
      assert (a + b)[|a + b| - 1] == b[|b| - 1];
      OccurrencesAppend(a, b[..|b| - 1], e);
    } else {
      assert a + b == a;
    }
  }

  /** Occurrences added by two successive extensions of a trace add up. */
  lemma ExtensionCounts(t0: seq<Effect>, t1: seq<Effect>, t2: seq<Effect>, e: Effect)
    requires |t0| <= |t1| <= |t2| && t1[..|t0|] == t0 && t2[..|t1|] == t1
    ensures t2[..|t0|] == t0
    ensures Occurrences(t2[|t0|..], e) == Occurrences(t1[|t0|..], e) + Occurrences(t2[|t1|..], e)
  {
    assert t2[|t0|..] == t1[|t0|..] + t2[|t1|..];
    OccurrencesAppend(t1[|t0|..], t2[|t1|..], e);
  }

  /** One tick amounts to one `startRing` per matching alarm, nothing more:
      there is no de-duplication against the local flag. */
  lemma {:induction false} TickOverIsStartPerMatch(s: EngineState, xs: seq<Alarm>, nowHour: int, nowMinute: int, jsDay: int, seconds: real)
    ensures TickOver(s, xs, nowHour, nowMinute, jsDay, seconds)
            == StartRingTimes(s, |Matching(xs, nowHour, nowMinute, jsDay)|, seconds)
  {
    if xs != [] {
      var init := xs[..|xs| - 1];
      var last := xs[|xs| - 1];
      var n := |Matching(init, nowHour, nowMinute, jsDay)|;
      assert TickOver(s, init, nowHour, nowMinute, jsDay, seconds) == StartRingTimes(s, n, seconds) by {
        TickOverIsStartPerMatch(s, init, nowHour, nowMinute, jsDay, seconds);
      }
      assert |Matching(xs, nowHour, nowMinute, jsDay)| == n + (if Fires(last, nowHour, nowMinute, jsDay) then 1 else 0) by {
        assert Matching(xs, nowHour, nowMinute, jsDay)
               == Matching(init, nowHour, nowMinute, jsDay) + (if Fires(last, nowHour, nowMinute, jsDay) then [last] else []);
      }
    }
  }

  /** Playback and timer effects never count as a flag write or a notification. */
  lemma {:induction false} PlaybackCountsNothing(m: seq<Effect>)
    requires PlaybackOnly(m)
    ensures Occurrences(m, NotificationSent) == 0 && Occurrences(m, RemoteFlagWritten) == 0
  {
    if m != [] {
      PlaybackCountsNothing(m[..|m| - 1]);
    }
  }

  /** Starting n times: the alarm list is untouched and the invariant kept;
      zero starts change nothing; one or more leave the engine ringing with
      exactly one live player and one active interval. */
  lemma {:induction false} StartRingTimesState(s: EngineState, n: nat, seconds: real)
    ensures var r := StartRingTimes(s, n, seconds);
      && r.alarms == s.alarms
      && (n == 0 ==> r == s)
      && (n > 0 ==> r.shouldRing)
      && (Inv(s) ==> Inv(r) && (n > 0 ==> OnePlayerOneLoop(r)))
  {
    if n > 0 {
      StartRingTimesState(s, n - 1, seconds);
    }
  }

  /** Starting n times writes the shared flag n times and sends n
      notifications, one of each per start, after the effects already made. */
  lemma {:induction false} StartRingTimesEffects(s: EngineState, n: nat, seconds: real)
    ensures var r := StartRingTimes(s, n, seconds);
      && |r.trace| >= |s.trace| && r.trace[..|s.trace|] == s.trace
      && Occurrences(r.trace[|s.trace|..], NotificationSent) == n
      && Occurrences(r.trace[|s.trace|..], RemoteFlagWritten) == n
  {
    if n > 0 {
      StartRingTimesEffects(s, n - 1, seconds);
      var p := StartRingTimes(s, n - 1, seconds);
      var r := StartRing(p, seconds);
      StartRingEffects(p, seconds);
      ExtensionCounts(s.trace, p.trace, r.trace, NotificationSent);
      ExtensionCounts(s.trace, p.trace, r.trace, RemoteFlagWritten);
    } else {
      assert StartRingTimes(s, n, seconds).trace[|s.trace|..] == [];
    }
  }

  /** One tick, in terms of the alarm matcher: it leaves the alarm list as it
      was, keeps the invariant, changes nothing when no alarm fires, and
      otherwise writes the flag and notifies once per matching alarm (even when
      the engine is already ringing) and leaves it ringing with one player and
      one loop interval. */
  lemma TickEffect(s: EngineState, nowHour: int, nowMinute: int, jsDay: int, seconds: real)
    requires Inv(s)
    ensures var r := Tick(s, nowHour, nowMinute, jsDay, seconds);
      var n := |Matching(s.alarms, nowHour, nowMinute, jsDay)|;
      && Inv(r)
      && r.alarms == s.alarms
      && (n == 0 ==> r == s)
      && (n > 0 ==> r.shouldRing && OnePlayerOneLoop(r))
      && |r.trace| >= |s.trace| && r.trace[..|s.trace|] == s.trace
      && Occurrences(r.trace[|s.trace|..], NotificationSent) == n
      && Occurrences(r.trace[|s.trace|..], RemoteFlagWritten) == n
  {
    TickOverIsStartPerMatch(s, s.alarms, nowHour, nowMinute, jsDay, seconds);
    StartRingTimesState(s, |Matching(s.alarms, nowHour, nowMinute, jsDay)|, seconds);
    StartRingTimesEffects(s, |Matching(s.alarms, nowHour, nowMinute, jsDay)|, seconds);
  }

  /** `stopRing` twice has the effect of once on the state; the second call
      only repeats `kill()` on a process that is already dead. */
  lemma StopRingTwice(s: EngineState)
    requires Inv(s)
    ensures var once := StopRing(s); var twice := StopRing(once);
      && twice.(trace := once.trace) == once
      && twice.trace == once.trace + (if s.player.Some? then [Killed(s.player.value)] else [])
      && (s.player.Some? ==> s.player.value !in once.live)
  {
  }

  /** After `stopRing` no loop interval is left active, so none can fire;
      and a firing that did run in the stopped state would start no
      playback, because the local flag is down. */
  lemma LoopFireAfterStop(s: EngineState)
    requires Inv(s)
    ensures StopRing(s).activeTimers == {}
    ensures LoopFire(StopRing(s)) == StopRing(s)
  {
  }

  /** A shared-flag update to true is idempotent; one to false leaves the
      engine silent whatever its state was. */
  lemma RemoteFlagIdempotent(s: EngineState, seconds: real)
    requires Inv(s)
    ensures OnRemoteFlag(OnRemoteFlag(s, true, seconds), true, seconds) == OnRemoteFlag(s, true, seconds)
    ensures OnRemoteFlag(OnRemoteFlag(s, false, seconds), false, seconds).(trace := []) == OnRemoteFlag(s, false, seconds).(trace := [])
  {
    StopRingTwice(s);
  }

  /** A shared-flag update to true while the local flag is down runs
      `startRing`: the engine ends up ringing with one live player and one
      active interval, after exactly one flag write and one notification. */
  lemma RemoteTrueWhileIdleStarts(s: EngineState, seconds: real)
    requires Inv(s) && !s.shouldRing
    ensures var r := OnRemoteFlag(s, true, seconds);
      && r.shouldRing && OnePlayerOneLoop(r) && r.alarms == s.alarms
      && |r.trace| >= |s.trace| && r.trace[..|s.trace|] == s.trace
      && Occurrences(r.trace[|s.trace|..], NotificationSent) == 1
      && Occurrences(r.trace[|s.trace|..], RemoteFlagWritten) == 1
  {
    StartRingEffects(s, seconds);
  }

  /** The tick matches the minute exactly and runs every 15 seconds, so an
      alarm fires on every tick of its minute. A shared-flag update to false
      within that minute stops the ring, and the next tick of the same minute
      starts it again, with a new player, a new interval and a new
      notification. */
  lemma TickRestartsAfterRemoteStop(s: EngineState, nowHour: int, nowMinute: int, jsDay: int, seconds: real)
    requires Inv(s)
    requires exists k | 0 <= k < |s.alarms| :: Fires(s.alarms[k], nowHour, nowMinute, jsDay)
    ensures var q := OnRemoteFlag(s, false, seconds);
      var r := Tick(q, nowHour, nowMinute, jsDay, seconds);
      && !q.shouldRing && q.live == {} && q.activeTimers == {}
      && r.shouldRing && OnePlayerOneLoop(r)
      && |r.trace| >= |q.trace| && r.trace[..|q.trace|] == q.trace
      && Occurrences(r.trace[|q.trace|..], NotificationSent) >= 1
  {
    var q := OnRemoteFlag(s, false, seconds);
    var k :| 0 <= k < |s.alarms| && Fires(s.alarms[k], nowHour, nowMinute, jsDay);
    assert s.alarms[k] in Matching(q.alarms, nowHour, nowMinute, jsDay);
    TickEffect(q, nowHour, nowMinute, jsDay, seconds);
  }

  /** `stopRing` arriving while `startRing` awaits the flag write: the resumed
      `startRing` still plays the clip once and installs an interval, so a
      process is alive after the stop; the interval's firings then do
      nothing, because the local flag is down. */
  lemma StopDuringStart(s: EngineState, seconds: real)
    requires Inv(s)
    ensures var stopped := StopRing(StartRingBegin(s));
      var r := StartRingResume(stopped, seconds);
      && !r.shouldRing
      && OnePlayerOneLoop(r) && r.player == Some(stopped.nextHandle)
      && Played(stopped.nextHandle) in r.trace[|stopped.trace|..]
      && LoopFire(r) == r
  {
    var stopped := StopRing(StartRingBegin(s));
    var r := StartRingResume(stopped, seconds);
    var pl := PlaySound(stopped);
    var kills := if stopped.player.Some? then [Killed(stopped.player.value)] else [];
    assert r.trace == stopped.trace + kills + [Played(stopped.nextHandle)]
                      + [IntervalSet(stopped.nextTimer, seconds), NotificationSent];
    assert r.trace[|stopped.trace|..][|kills|] == Played(stopped.nextHandle);
  }

  /** Start, stop, start again: the second session clears no leftover
      interval, the first session's interval and player stay dead, and the
      second session writes the flag and notifies like the first. */
  lemma RestartLeavesNoResidue(s: EngineState, seconds: real)
    requires Inv(s)
    ensures var first := StartRing(s, seconds);
      var stopped := StopRing(first);
      var second := StartRing(stopped, seconds);
      && OnePlayerOneLoop(second)
      && first.loopInterval.value !in second.activeTimers
      && first.player.value !in second.live
      && second.trace == stopped.trace + [RemoteFlagWritten, Killed(first.player.value),
                                          Played(stopped.nextHandle),
                                          IntervalSet(stopped.nextTimer, seconds), NotificationSent]
  {
  }
}
