/** The module-level mutable state of app.ts and the functions that update it
    in place. Each method is proved against the transition of the same name in
    RingSpec, which is where the properties of the ring state machine are
    stated and proved. */
module RingEngine {
  import opened AlarmMatcher
  import opened RingSpec

  class Engine {
    // `state.shouldRing` and `state.alarms`
    var shouldRing: bool
    var alarms: seq<Alarm>
    // `currentAudioPlayer` and `loopInterval`
    var player: Option<Handle>
    var loopInterval: Option<TimerId>
    // the next process the audio library starts and the next interval the timer service installs
    var nextHandle: Handle
    var nextTimer: TimerId
    // processes not yet killed, intervals not yet cleared, effects on the outside world
    ghost var live: set<Handle>
    ghost var activeTimers: set<TimerId>
    ghost var trace: seq<Effect>

    ghost function State(): EngineState
      reads this
    {
      EngineState(shouldRing, alarms, player, loopInterval, nextHandle, nextTimer, live, activeTimers, trace)
    }

    ghost predicate Valid()
      reads this
    {
      Inv(State())
    }

    constructor ()
      ensures Valid() && State() == Initial()
    {
      shouldRing, alarms := false, [];
      player, loopInterval := None, None;
      nextHandle, nextTimer := 0, 0;
      live, activeTimers, trace := {}, {}, [];
    }

    /** The alarm-collection snapshot callback: replace the whole list. */
    method OnAlarmsSnapshot(list: seq<Alarm>)
      modifies this
      ensures State() == RingSpec.OnAlarmsSnapshot(old(State()), list)
      ensures old(Valid()) ==> Valid()
    {
      alarms := list;
    }

    /** `playSound` */
    method PlaySound()
      modifies this
      ensures State() == RingSpec.PlaySound(old(State()))
    {
      if player.Some? {
        live := live - {player.value};
        trace := trace + [Killed(player.value)];
      }
      var h := nextHandle;
      nextHandle := nextHandle + 1;
      player := Some(h);
      live := live + {h};
      trace := trace + [Played(h)];
    }

    /** `playAndLoopSound`, with the probed clip duration as a parameter. */
    method PlayAndLoop(seconds: real)
      modifies this
      ensures State() == RingSpec.PlayAndLoop(old(State()), seconds)
    {
      PlaySound();
      if loopInterval.Some? {
        activeTimers := activeTimers - {loopInterval.value};
        trace := trace + [IntervalCleared(loopInterval.value)];
      }
      var t := nextTimer;
      nextTimer := nextTimer + 1;
      loopInterval := Some(t);
      activeTimers := activeTimers + {t};
      trace := trace + [IntervalSet(t, seconds)];
    }

    /** `startRing` up to its `await` on the shared-flag write. */
    method StartRingBegin()
      modifies this
      ensures State() == RingSpec.StartRingBegin(old(State()))
    {
      shouldRing := true;
      trace := trace + [RemoteFlagWritten];
    }

    /** `startRing` after the shared-flag write has completed. */
    method StartRingResume(seconds: real)
      modifies this
      ensures State() == RingSpec.StartRingResume(old(State()), seconds)
    {
      PlayAndLoop(seconds);
      trace := trace + [NotificationSent];
    }

    /** `startRing`, run without interruption: afterwards the engine rings with
      exactly one live player and one active loop interval. */
    method StartRing(seconds: real)
      modifies this
      ensures State() == RingSpec.StartRing(old(State()), seconds)
      ensures old(Valid()) ==> Valid() && OnePlayerOneLoop(State())
    {
      StartRingBegin();
      StartRingResume(seconds);
    }

    /** `stopRing`: afterwards the engine is silent, with no live player and
      no active loop interval. */
    method StopRing()
      modifies this
      ensures State() == RingSpec.StopRing(old(State()))
      ensures old(Valid()) ==> Valid() && live == {} && activeTimers == {} && !shouldRing
    {
      shouldRing := false;
      if player.Some? {
        live := live - {player.value};
        trace := trace + [Killed(player.value)];
      }
      if loopInterval.Some? {
        activeTimers := activeTimers - {loopInterval.value};
        trace := trace + [IntervalCleared(loopInterval.value)];
        loopInterval := None;
      }
    }

    /** The callback of the installed loop interval. It only runs while an
      interval is installed. */
    method LoopFire()
      requires loopInterval.Some?
      modifies this
      ensures State() == RingSpec.LoopFire(old(State()))
      ensures !old(shouldRing) ==> State() == old(State())
    {
      if shouldRing {
        PlaySound();
      }
    }

    /** The shared-flag snapshot callback. */
    method OnRemoteFlag(flag: bool, seconds: real)
      modifies this
      ensures State() == RingSpec.OnRemoteFlag(old(State()), flag, seconds)
      ensures old(Valid()) ==> Valid() && shouldRing == flag
    {
      if flag {
        if !shouldRing {
          StartRing(seconds);
        }
      } else {
        StopRing();
      }
    }

    /** One tick of the cron interval: `startRing` once per alarm that fires
      now, in list order, with no regard to the current flag. */
    method Tick(nowHour: int, nowMinute: int, jsDay: int, seconds: real)
      modifies this
      ensures State() == RingSpec.Tick(old(State()), nowHour, nowMinute, jsDay, seconds)
      ensures State() == StartRingTimes(old(State()), |Matching(old(alarms), nowHour, nowMinute, jsDay)|, seconds)
      ensures alarms == old(alarms)
      ensures old(Valid()) ==> Valid()
    {
      var list := alarms;
      var i := 0;
      while i < |list|
        invariant 0 <= i <= |list|
        invariant State() == TickOver(old(State()), list[..i], nowHour, nowMinute, jsDay, seconds)
      {
        assert list[..i + 1][..i] == list[..i];
        if Fires(list[i], nowHour, nowMinute, jsDay) {
          StartRing(seconds);
        }
        i := i + 1;
      }
      assert list[..i] == list;
      TickOverIsStartPerMatch(old(State()), list, nowHour, nowMinute, jsDay, seconds);
      StartRingTimesState(old(State()), |Matching(list, nowHour, nowMinute, jsDay)|, seconds);
    }
  }
}
