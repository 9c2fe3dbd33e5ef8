# Duck alarm backend: alarm matcher and ring state machine

This project models the decision and state engine of a remotely controlled
alarm clock backend (`app.ts`). The backend keeps a list of alarms from a
remote collection. Every 15 seconds it checks which alarms fire at the current
hour and minute. A firing alarm starts a ring. A ring sets the local
`shouldRing` flag, writes the shared flag document, loops the ringtone and
sends a push notification. A remote update of the shared flag to `false`
stops the ring.

The model has three modules:

- `AlarmMatcher` (`Matcher.dfy`) holds the pure part. It has the alarm record,
  the 12-hour to 24-hour conversion, the weekday expression exactly as written,
  the per-alarm firing test of the tick, and the list of alarms that fire on a
  tick.
- `RingSpec` (`RingSpec.dfy`) gives every state-changing operation as a pure
  transition over a snapshot of the module-level state: `state.shouldRing`,
  `state.alarms`, `currentAudioPlayer` and `loopInterval`. The snapshot also
  has ghost parts: the playback processes not yet killed, the loop intervals
  not yet cleared, and a trace of external effects (flag write, notification,
  play, kill, interval set, interval cleared). The lemmas about the ring state
  machine are proved here.
- `RingEngine` (`RingEngine.dfy`) has the class `Engine`. Its fields are that
  state, and its methods update them in place as the source's functions do.
  Each method is proved to produce the transition of the same name in
  `RingSpec`. `Tick` is the `forEach` loop of the cron callback.

Time is an input. `nowHour`, `nowMinute` and `jsDay` stand for
`getHours()`, `getMinutes()` and `getDay()` (0 = Sunday). The probed clip
duration is a `seconds` parameter. Playback processes and interval timers are
numbered handles. The engine hands out fresh handles from a counter, which
stands for the audio library and the timer service.

`getDayOfWeek` is modelled as written: `getDay() + 6 % 7`. Because `%` binds
tighter than `+`, this is `getDay() + 6`, a value from 6 to 12, and not a
rotation of the week. So a non-empty day list drawn from 0..6 passes only on
Sunday, and only when it contains 6 (`IsTodayAsWritten`). An alarm set for
every day of the week, listed day by day, does not ring on a Monday
(`EveryWeekdayListMissesMonday`).

Some behaviours of the code are worth stating outright:

- A remote flag update to `true` starts a ring when the local flag is down
  (app.ts:88-92), so the remote side can start a ring as well as silence one
  (`RemoteTrueWhileIdleStarts`).
- `startRing` is not idempotent. One tick calls it once per matching alarm,
  duplicates included, whatever the local flag says. Each call writes the
  flag, restarts playback and sends a notification (`TickEffect`).
- The tick runs every 15 seconds and matches the minute exactly
  (app.ts:202, 209), so an alarm fires on every tick of its minute, about four
  times. A remote stop within that minute is undone by the next tick, which
  starts the ring again and sends another notification
  (`TickRestartsAfterRemoteStop`).
- Nothing tells one ring session from the next. A `stopRing` that arrives
  while `startRing` awaits the flag write is followed by one more playback and
  a newly installed interval. That interval's firings do nothing while the
  flag is down (`StopDuringStart`).
- `stopRing` kills the player but keeps the reference
  (`currentAudioPlayer?.kill()` without resetting it). The next `playSound`
  kills that dead process again (`StopRingTwice`, `RestartLeavesNoResidue`).

## Model

| member | source | states |
|---|---|---|
| AlarmMatcher.HourIn24Format | app.ts:216-222 | for an hour in 1..12 the result lies in 0..23, is at least 12 exactly when PM, and equals the hour modulo 12 (12 AM is 0, 12 PM is 12, 9 PM is 21); any other hour is shifted by 12 when PM and otherwise passed through, never wrapped |
| AlarmMatcher.To12Hour | app.ts:216-222 | the reference 12-hour reading of an hour 0..23: hour in 1..12, PM exactly from 12 on, and HourIn24Format maps it back to the same hour |
| AlarmMatcher.HourIn24FormatRoundTrip | app.ts:216-222 | the conversion is one-to-one on proper 12-hour values: its result read back on a 12-hour dial is the original hour and half of the day |
| AlarmMatcher.DayOfWeek | app.ts:212-214 | the result is getDay() plus 6 (no rotation); for getDay() in 0..6 it lies in 6..12 and is a weekday number 0..6 only on Sunday |
| AlarmMatcher.IsTodayAsWritten | app.ts:203 | an empty day list passes on every day; a non-empty list drawn from 0..6 passes exactly when it is Sunday and the list contains 6 |
| AlarmMatcher.EveryWeekdayListMissesMonday | app.ts:212-214 | the list [0..6] does not pass the day test on a Monday |
| AlarmMatcher.IsNow | app.ts:202 | for an alarm hour 1..12 and an hour 0..23, the alarm is "now" exactly when the 12-hour reading of the hour is the alarm's hour and half of the day and the minutes are equal |
| AlarmMatcher.IsToday | app.ts:203 | an empty day list passes on every day; for a day list drawn from 0..6 and a weekday number of 6 or more (every value the tick computes), the test passes exactly when the list is empty, or the number is 6 and the list contains 6 |
| AlarmMatcher.Fires | app.ts:202-205 | a disabled alarm never fires, for any time and day |
| AlarmMatcher.FiresExactly | app.ts:202-205 | for an alarm with hour 1..12 and days in 0..6, at an hour 0..23 and day 0..6: it fires exactly when it is enabled, the 12-hour reading of the hour is the alarm's hour and half, the minute is equal, and the day list is empty or it is Sunday and the list holds 6 |
| AlarmMatcher.Matching | app.ts:199-207 | the matching alarms are exactly the alarms of the list that fire, each as many times as it occurs in the list (duplicates kept), and nothing that does not fire |
| AlarmMatcher.DisabledAlarmsNeverMatch | app.ts:205 | a list of disabled alarms has no match at any time on any day |
| AlarmMatcher.SevenThirtyMatchesOnce | app.ts:199-207 | an enabled every-day 07:30 AM alarm matches exactly once on the 07:30 tick of any day |
| RingSpec.Initial | app.ts:36-48 | the start state keeps the invariant: no alarms, flag down, no live player, no active interval |
| RingSpec.KillPlayer | app.ts:100-102 | kill on the tracked player leaves no live process and keeps the reference, the flag and the interval |
| RingSpec.ClearLoop | app.ts:113-115 | clearInterval on the tracked interval removes exactly it from the active intervals, touching neither player nor flag |
| RingSpec.PlaySound | app.ts:99-105 | the tracked player is killed before a fresh process is stored; afterwards the fresh process is the only live one; flag, alarms and interval are unchanged |
| RingSpec.PlayAndLoop | app.ts:108-124 | plays, clears any existing interval and installs a fresh one, leaving exactly one live player and one active interval; only playback and timer effects are added |
| RingSpec.StartRingBegin | app.ts:126-132 | raises the local flag and records the shared-flag write; nothing else changes |
| RingSpec.StartRingResume | app.ts:133-136 | loops the clip without looking at the flag, leaving one live player and one active interval, and ends with the notification |
| RingSpec.StartRing | app.ts:126-137 | afterwards the flag is up, the alarms are unchanged, and exactly one player is live and one interval active |
| RingSpec.StartRingEffects | app.ts:126-137 | every start adds exactly one shared-flag write and exactly one notification to the effects |
| RingSpec.StopRing | app.ts:139-147 | afterwards the flag is down, no interval is tracked, no player is live and no interval is active; alarms are unchanged |
| RingSpec.LoopFire | app.ts:118-123 | with the flag down a loop firing changes nothing; with the flag up it kills the tracked process and makes a fresh one the only live process, keeping the flag, the alarms and the installed interval, with the kill and play effects given exactly; the invariant is kept |
| RingSpec.OnRemoteFlag | app.ts:88-95 | afterwards the local flag equals the remote flag; remote true while ringing changes nothing; remote false leaves no live player and no active interval |
| RingSpec.OnAlarmsSnapshot | app.ts:69-78 | the alarm list is replaced whole and nothing else changes |
| RingSpec.TickOver | app.ts:199-208 | walking the alarm list keeps the alarm list and the invariant, and leaves the flag up when any alarm of the list fires |
| RingSpec.Tick | app.ts:194-209 | a tick over the current list keeps the alarm list and the invariant, and leaves the flag up when any alarm fires |
| RingSpec.TickOverIsStartPerMatch | app.ts:199-207 | walking the alarm list equals calling startRing once per matching alarm, with no de-duplication |
| RingSpec.StartRingTimesState | app.ts:199-207 | n starts keep the alarm list and the invariant; zero starts change nothing; one or more leave the flag up with one live player and one active interval |
| RingSpec.StartRingTimesEffects | app.ts:199-207 | n starts extend the effects with exactly n flag writes and n notifications |
| RingSpec.TickEffect | app.ts:194-209 | a tick keeps the alarms and the invariant, changes nothing without a match, and otherwise writes the flag and notifies once per match, even when already ringing, and leaves one live player and one active interval |
| RingSpec.StopRingTwice | app.ts:139-147 | stopping twice leaves the same state as stopping once; the second call only repeats kill on a process that is already dead |
| RingSpec.LoopFireAfterStop | app.ts:119-147 | after stopRing no interval is active, and a firing in the stopped state would start no playback |
| RingSpec.RemoteFlagIdempotent | app.ts:88-95 | a second remote true changes nothing; a second remote false leaves the same state |
| RingSpec.TickRestartsAfterRemoteStop | app.ts:194-209 | when some alarm fires at the current time, a remote false stops the ring (flag down, no live player, no active interval) and the next tick at the same time starts it again: flag up, one live player, one active interval, at least one new notification |
| RingSpec.RemoteTrueWhileIdleStarts | app.ts:88-92 | remote true while the local flag is down starts a ring: flag up, one live player, one active interval, exactly one flag write and one notification |
| RingSpec.StopDuringStart | app.ts:126-147 | a stop between the flag write and the rest of startRing leaves the flag down but a fresh process playing and a fresh interval installed, whose firings then do nothing |
| RingSpec.RestartLeavesNoResidue | app.ts:99-147 | start, stop, start: the second session has one live player and one active interval, the first session's player and interval stay dead, and its effects are flag write, kill of the dead player, play, interval set, notification |
| RingEngine.Engine.constructor | app.ts:36-64 | the initial module-level state, which keeps the invariant |
| RingEngine.Engine.OnAlarmsSnapshot | app.ts:77 | the new state is RingSpec.OnAlarmsSnapshot of the old one |
| RingEngine.Engine.PlaySound | app.ts:99-105 | the new state is RingSpec.PlaySound of the old one |
| RingEngine.Engine.PlayAndLoop | app.ts:108-124 | the new state is RingSpec.PlayAndLoop of the old one |
| RingEngine.Engine.StartRingBegin | app.ts:126-132 | the new state is RingSpec.StartRingBegin of the old one |
| RingEngine.Engine.StartRingResume | app.ts:133-136 | the new state is RingSpec.StartRingResume of the old one |
| RingEngine.Engine.StartRing | app.ts:126-137 | the new state is RingSpec.StartRing of the old one: ringing with one live player and one active interval |
| RingEngine.Engine.StopRing | app.ts:139-147 | the new state is RingSpec.StopRing of the old one: silent, no live player, no active interval |
| RingEngine.Engine.LoopFire | app.ts:118-123 | the new state is RingSpec.LoopFire of the old one; with the flag down nothing changes |
| RingEngine.Engine.OnRemoteFlag | app.ts:84-96 | the new state is RingSpec.OnRemoteFlag of the old one; the local flag ends equal to the remote one |
| RingEngine.Engine.Tick | app.ts:194-209 | the loop yields RingSpec.Tick of the old state, which is one startRing per matching alarm; the alarm list is unchanged and the invariant kept |

## Left out

- Firebase: app initialisation, the two `onSnapshot` subscriptions, `setDoc`, `getDoc` and the FCM token lookup are network I/O. The flag write is a `RemoteFlagWritten` effect. Snapshots are method inputs.
- `sendNotification` and its message payload call a foreign service. The model records only `NotificationSent`.
- The audio library (`play-sound`, `getAudioOutput`, `getAudioDurationInSeconds`) is not shown. Processes are numbered handles and the duration is a `seconds` parameter. The re-creation of the audio output in the loop callback has no state the model tracks.
- Real timers and real time: `setInterval` periods (15 s, clip duration × 1000 ms), `clearInterval` timing and `new Date()`. A tick and a loop firing are explicit events, and the time is an input. `getDayOfWeek` reads the clock again for every alarm inside the `forEach`; the model uses one day input for every read in the tick.
- A playback process ending on its own at the end of the clip is not modelled. "Live" means "not killed".
- Asynchronous interleaving is modelled as sequential steps, except for the one split of `startRing` at its flag-write `await`. Within one tick, the source's `startRing` calls all raise the flag and issue the write before any of them plays. The model runs each call to completion in turn. The final state agrees, but the effects come in a different order.
- `sendNotification` is called while `playAndLoopSound` awaits the duration probe, so the notification may go out before playback starts. The model records the notification after the playback effects, in call order.
- Failures are not modelled. A rejected flag write skips playback and notification, and a failed duration probe skips playback. These are library and network failures.
- Logging (`console.log`) and the command-line settings (`process.argv`: device id, ringtone path) are configuration.
- Alarm fields are integers. The source's JavaScript numbers could also be fractional or missing, and the model does not cover that. In particular, an alarm document without `repeatingDays` makes `alarm.repeatingDays.length` throw, which ends that tick's `forEach` before the later alarms are tested; the declared alarm type has the field, and the model takes it as present.
