/**
  What the lifecycle promises: idempotent start and pause, the veto of
  `_onStart`, the merge semantics of `updateSettings`, the tick schedule, the
  trader's start gate, restoration from saved settings, and the invariant
  that a task's timer or observer runs exactly while the task is active.
 */
module LifecycleFacts {
  import opened Wrappers
  import opened JsValues
  import opened Lifecycle
  import TimeFormat
  import Decimal
  import Accumulator

  // ----- start and pause -----

  /** `pause()` on an inactive task changes nothing and does not call the listener. */
  lemma PauseWhenInactiveIsNoop(kind: Kind, st: TaskState)
    requires !st.Active()
    ensures PauseStep(kind, st) == Step(st, [])
  {
  }

  /** `pause()` on an active task: `_onPause` cancels the driver and the listener is told once. */
  lemma PauseWhenActive(kind: Kind, st: TaskState)
    requires st.Active()
    ensures var r := PauseStep(kind, st);
      && !r.st.Active()
      && r.notices == [r.st.settings]
      && r.st.settings == Merge(st.settings, map["isActive" := Bool(false)])
      && (kind.Periodic() ==> !r.st.timer.held && r.st.observer == st.observer)
      && (!kind.Periodic() ==> !r.st.observer.held && r.st.timer == st.timer)
  {
  }

  /** `start()` on an active task, without an override carrying a truthy `isActive`, changes nothing. */
  lemma StartWhenActiveIsNoop(kind: Kind, st: TaskState, over: Option<Settings>)
    requires st.Active() && !Restores(over)
    ensures StartStep(kind, st, over) == Step(st, [])
  {
  }

  /** Pausing twice is pausing once: the second `pause()` finds the task inactive. */
  lemma PauseIsIdempotent(kind: Kind, st: TaskState)
    ensures var once := PauseStep(kind, st);
      PauseStep(kind, once.st) == Step(once.st, [])
  {
    if st.Active() {
      PauseWhenActive(kind, st);
    }
  }

  /** A second `start()` after one that was not vetoed changes nothing. */
  lemma StartIsIdempotent(kind: Kind, st: TaskState)
    requires StartStep(kind, st, None).st.Active()
    ensures var once := StartStep(kind, st, None);
      StartStep(kind, once.st, None) == Step(once.st, [])
  {
  }

  /** The trader's `updateSettings` override only ever adds `isActive: false`, so other keys keep the merged value. */
  lemma UpdateKeepsMergedKeys(kind: Kind, st: TaskState, partial: Settings)
    ensures var r := UpdateStep(kind, st, partial).st;
      forall k :: k != "isActive" ==> Lookup(r.settings, k) == Lookup(Merge(st.settings, partial), k)
  {
  }

  /**
    Past its guard, `start()` ends Active exactly when `_onStart` does not
    veto. Only the trader vetoes, when no race is selected in the settings as
    they are after the override was merged. A veto leaves the task Inactive
    even when the override had just merged `isActive: true`.
   */
  lemma StartActiveUnlessVetoed(kind: Kind, st: TaskState, over: Option<Settings>)
    requires Restores(over) || !st.Active()
    ensures var before := if Restores(over) then Merge(st.settings, over.value) else st.settings;
      StartStep(kind, st, over).st.Active() <==> (kind != Trader || Truthy(Lookup(before, "selectedRace")))
  {
    if Restores(over) {
      var updated := UpdateStep(kind, st, over.value);
      UpdateKeepsMergedKeys(kind, st, over.value);
      assert Lookup(updated.st.settings, "selectedRace") == Lookup(Merge(st.settings, over.value), "selectedRace");
    }
  }

  /** `Autotrader.start()` without a selected race leaves the trader Inactive and starts no timer. */
  lemma TraderNeedsRace(st: TaskState, over: Option<Settings>)
    requires Restores(over) || !st.Active()
    requires !Truthy(Lookup(if Restores(over) then Merge(st.settings, over.value) else st.settings, "selectedRace"))
    ensures var r := StartStep(Trader, st, over).st;
      !r.Active() && r.timer.Live() <= st.timer.Live() && r.observer == st.observer
  {
    StartActiveUnlessVetoed(Trader, st, over);
    if Restores(over) {
      var updated := UpdateStep(Trader, st, over.value);
      UpdateKeepsMergedKeys(Trader, st, over.value);
      assert Lookup(updated.st.settings, "selectedRace") == Lookup(Merge(st.settings, over.value), "selectedRace");
    }
  }

  /**
    Clearing the trader's race through `updateSettings` pauses a trader that
    is active after the merge: its timer stops and the listener hears of the
    merge and of the pause.
   */
  lemma ClearingRacePausesTrader(st: TaskState, partial: Settings)
    requires ClearsRace(Trader, partial)
    ensures var merged := Merge(st.settings, partial);
      var r := UpdateStep(Trader, st, partial);
      && !r.st.Active()
      && Lookup(r.st.settings, "selectedRace") == partial["selectedRace"]
      && (Truthy(Lookup(merged, "isActive")) ==> !r.st.timer.held && r.notices == [merged, r.st.settings])
      && (!Truthy(Lookup(merged, "isActive")) ==> r.st.timer == st.timer && r.notices == [merged])
  {
    UpdateKeepsMergedKeys(Trader, st, partial);
  }

  // ----- updateSettings -----

  /**
    `updateSettings(p)` (apart from the trader clearing its race) is a
    shallow merge that calls the listener exactly once, with the merged
    settings, and changes nothing else.
   */
  lemma UpdateIsShallowMerge(kind: Kind, st: TaskState, partial: Settings)
    requires !ClearsRace(kind, partial)
    ensures var r := UpdateStep(kind, st, partial);
      && r.notices == [r.st.settings]
      && r.st == st.(settings := r.st.settings)
      && (forall k :: k in partial ==> r.st.settings[k] == partial[k])
      && (forall k :: k in st.settings && k !in partial ==> r.st.settings[k] == st.settings[k])
      && r.st.settings.Keys == st.settings.Keys + partial.Keys
  {
  }

  /** Two updates with disjoint keys preserve the values of both. */
  lemma DisjointUpdatesKeepBoth(kind: Kind, st: TaskState, p: Settings, q: Settings)
    requires !ClearsRace(kind, p) && !ClearsRace(kind, q) && p.Keys !! q.Keys
    ensures var r := UpdateStep(kind, UpdateStep(kind, st, p).st, q).st.settings;
      && (forall k :: k in p ==> r[k] == p[k])
      && (forall k :: k in q ==> r[k] == q[k])
      && (forall k :: k in st.settings && k !in p && k !in q ==> r[k] == st.settings[k])
  {
    UpdateIsShallowMerge(kind, st, p);
    UpdateIsShallowMerge(kind, UpdateStep(kind, st, p).st, q);
    DisjointMergesKeepBoth(st.settings, p, q);
  }

  /** `SkyObserver` counts each capture: `captureCount` goes up by one and the listener sees the new count. */
  lemma ObserverCountsCaptures(name: string, st: TaskState, n: int)
    requires Lookup(st.settings, "captureCount") == Num(n)
    ensures var r := ExecuteStep(Observer, name, st);
      && Lookup(r.st.settings, "captureCount") == Num(n + 1)
      && r.notices == [r.st.settings]
      && r.st.effects == st.effects + [ClickObserveButton]
      && r.st.log == st.log + ["Meteor captured!"]
  {
  }

  // ----- the periodic timer -----

  /**
    One tick of a periodic task adds one to the counter. When the counter
    reaches the interval, the task executes exactly once and the counter
    returns to 0. Otherwise nothing is executed. Settings and drivers do not
    change.
   */
  lemma TickOnSchedule(kind: Kind, name: string, st: TaskState)
    requires kind.Periodic()
    ensures var t := Accumulator.Advance(st.counter, Interval(st.settings));
      var r := TickStep(kind, name, st);
      && r.notices == []
      && r.st.settings == st.settings
      && r.st.counter == t.counter
      && r.st.timer == st.timer && r.st.observer == st.observer
      && r.st.effects == st.effects + (if t.fired then [EffectOf(kind, name, st.settings)] else [])
      && r.st.timerText == RemainingText(st.settings, t.counter)
  {
    var elapsed := st.counter + 1;
    if Accumulator.Reached(elapsed, Interval(st.settings)) {
      var mid := st.(counter := elapsed);
      PeriodicExecute(kind, name, mid);
      assert Accumulator.Advance(st.counter, Interval(st.settings)) == Accumulator.Tick(0, true);
      assert TickStep(kind, name, st) == Step(mid.(effects := st.effects + [EffectOf(kind, name, st.settings)],
        log := st.log + [ExecutionMessage(kind, name, st.settings)], counter := 0, timerText := RemainingText(st.settings, 0)), []);
    } else {
      assert Accumulator.Advance(st.counter, Interval(st.settings)) == Accumulator.Tick(elapsed, false);
      assert TickStep(kind, name, st) == Step(st.(counter := elapsed, timerText := RemainingText(st.settings, elapsed)), []);
    }
  }

  /** A periodic task's `execute()` makes its game call and logs its message, and touches nothing else. */
  lemma PeriodicExecute(kind: Kind, name: string, st: TaskState)
    requires kind.Periodic()
    ensures ExecuteStep(kind, name, st)
      == Step(st.(effects := st.effects + [EffectOf(kind, name, st.settings)],
                  log := st.log + [ExecutionMessage(kind, name, st.settings)]), [])
  {
    assert OnExecute(kind, name, st) == Step(st.(effects := st.effects + [EffectOf(kind, name, st.settings)]), []);
  }

  /** `count` copies of the game call `e`. */
  function Repeat(e: Effect, count: nat): (s: seq<Effect>)
    ensures |s| == count
  {
    seq(count, _ => e)
  }

  lemma RepeatOneMore(e: Effect, count: nat)
    ensures Repeat(e, count) + [e] == Repeat(e, count + 1)
  {
    assert forall i :: 0 <= i < count + 1 ==> (Repeat(e, count) + [e])[i] == e;
  }

  /** The state after `n` timer ticks. */
  function Ticks(kind: Kind, name: string, st: TaskState, n: nat): TaskState {
    if n == 0 then st else TickStep(kind, name, Ticks(kind, name, st, n - 1)).st
  }

  /**
    Each variant makes its own game call: a crafter crafts the resource it
    is named after, the trader trades with its selected race, and no two
    variants make the same call.
   */
  lemma EffectOfIsOwn(kind: Kind, name: string, settings: Settings)
    ensures var e := EffectOf(kind, name, settings);
      && (e.CraftAll? <==> kind == Crafter) && (e.CraftAll? ==> e.resource == name)
      && (e.TradeAll? <==> kind == Trader) && (e.TradeAll? ==> e.race == Lookup(settings, "selectedRace"))
      && (e == HuntAll <==> kind == Hunter)
      && (e == Praise <==> kind == Praiser)
      && (e == ClickObserveButton <==> kind == Observer)
  {
  }

  /** The execution message is never empty, and names the crafted resource or the trader's race. */
  lemma ExecutionMessageShape(kind: Kind, name: string, settings: Settings)
    ensures var m := ExecutionMessage(kind, name, settings);
      && m != ""
      && (kind == Crafter ==> |m| == |name| + 9 && m[..|name|] == name && m[|name|..] == " crafted!")
      && (kind == Trader ==> |m| >= 12 && m[..12] == "Traded with " && m[12..] == ToText(Lookup(settings, "selectedRace")))
  {
  }

  /**
    The countdown shown by a periodic task: blank exactly when the interval
    is NaN or used up to the second, and otherwise, while time is left, it
    reads back as the seconds still to go.
   */
  lemma RemainingTextShown(settings: Settings, counter: nat)
    ensures RemainingText(settings, counter) == "" <==> Interval(settings).None? || Interval(settings) == Some(counter)
    ensures Interval(settings).Some? && Interval(settings).value > counter ==>
      TimeFormat.ParseTime(RemainingText(settings, counter)) == Some(Interval(settings).value - counter)
  {
    var interval := Interval(settings);
    if interval.Some? {
      var t := interval.value - counter;
      assert RemainingText(settings, counter) == TimeFormat.RemainingTimeText(t);
      if t > 0 {
        TimeFormat.RemainingTimeRoundTrip(t);
      }
    }
  }

  /** `n` ticks follow the accumulator: the counter after `n` steps, and one game call per execution. */
  lemma {:induction false} TicksFollowAccumulator(kind: Kind, name: string, st: TaskState, n: nat)
    requires kind.Periodic()
    ensures var r := Ticks(kind, name, st, n);
      var run := Accumulator.Run(st.counter, Interval(st.settings), n);
      && r.settings == st.settings
      && r.counter == run.0
      && r.timer == st.timer && r.observer == st.observer
      && r.effects == st.effects + Repeat(EffectOf(kind, name, st.settings), run.1)
  {
    if n > 0 {
      TicksFollowAccumulator(kind, name, st, n - 1);
      var prev := Ticks(kind, name, st, n - 1);
      TickOnSchedule(kind, name, prev);
      var e := EffectOf(kind, name, st.settings);
      var fires := Accumulator.Run(st.counter, Interval(st.settings), n - 1).1;
      RepeatOneMore(e, fires);
      assert st.effects + Repeat(e, fires) + [e] == st.effects + Repeat(e, fires + 1);
    }
  }

  /**
    From counter 0 with a fixed interval I >= 1, `n` ticks execute the task
    exactly `n / I` times and leave the counter at `n % I`, below I.
   */
  lemma {:induction false} TicksFromZero(kind: Kind, name: string, st: TaskState, interval: int, n: nat)
    requires kind.Periodic() && st.counter == 0 && interval >= 1
    requires Interval(st.settings) == Some(interval)
    ensures 0 <= n / interval
    ensures var r := Ticks(kind, name, st, n);
      && r.counter == n % interval < interval
      && r.effects == st.effects + Repeat(EffectOf(kind, name, st.settings), n / interval)
  {
    TicksFollowAccumulator(kind, name, st, n);
    var run := Accumulator.Run(st.counter, Interval(st.settings), n);
    assert run == (n % interval, n / interval) by {
      Accumulator.RunOnSchedule(0, interval, n);
      assert 0 + n == n;
    }
    assert n % interval < interval;
  }

  /** `setInterval(m)` keeps the counter, so an interval lowered to the counter or below fires on the next tick. */
  lemma LoweredIntervalFiresNextTick(kind: Kind, name: string, st: TaskState, minutes: Value)
    requires kind.Periodic() && ToNumber(minutes).Some? && st.counter >= ToNumber(minutes).value * 60
    ensures var lowered := SetIntervalStep(kind, st, minutes).st;
      var r := TickStep(kind, name, lowered).st;
      && lowered.counter == st.counter
      && r.counter == 0
      && r.effects == st.effects + [EffectOf(kind, name, lowered.settings)]
  {
    var lowered := SetIntervalStep(kind, st, minutes).st;
    TickOnSchedule(kind, name, lowered);
  }

  /**
    An unreadable interval (NaN, e.g. after `setInterval("abc")`) is never
    reached: the task stays active, but its ticks only count up, execute
    nothing and show no countdown.
   */
  lemma {:induction false} NaNIntervalNeverFires(kind: Kind, name: string, st: TaskState, n: nat)
    requires kind.Periodic() && Interval(st.settings).None?
    ensures var r := Ticks(kind, name, st, n);
      r.effects == st.effects && r.settings == st.settings && r.counter == st.counter + n
      && (n > 0 ==> r.timerText == "")
  {
    if n > 0 {
      NaNIntervalNeverFires(kind, name, st, n - 1);
      TickOnSchedule(kind, name, Ticks(kind, name, st, n - 1));
    }
  }

  /**
    The opposite case: an interval of `null`, which is what a NaN interval
    becomes once saved as JSON and read back. `counter >= null` compares with
    0 and always holds, so every single tick executes the task.
   */
  lemma NullIntervalFiresEveryTick(kind: Kind, name: string, st: TaskState)
    requires kind.Periodic() && Lookup(st.settings, "interval") == Null
    ensures var r := TickStep(kind, name, st).st;
      r.counter == 0 && r.settings == st.settings && r.effects == st.effects + [EffectOf(kind, name, st.settings)]
  {
    TickOnSchedule(kind, name, st);
  }

  /**
    With an interval of 60 seconds started from 0: after 59 ticks nothing has
    executed; the 60th tick executes once, resets the counter and shows "1:00".
   */
  lemma MinuteScenario(kind: Kind, name: string, st: TaskState)
    requires kind.Periodic() && st.counter == 0 && Lookup(st.settings, "interval") == Num(60)
    ensures Ticks(kind, name, st, 59).effects == st.effects
    ensures var r := Ticks(kind, name, st, 60);
      r.effects == st.effects + [EffectOf(kind, name, st.settings)] && r.counter == 0 && r.timerText == "1:00"
  {
    var e := EffectOf(kind, name, st.settings);
    assert Interval(st.settings) == Some(60);
    TicksFromZero(kind, name, st, 60, 59);
    assert 59 / 60 == 0 && Repeat(e, 0) == [];
    TicksFromZero(kind, name, st, 60, 60);
    RepeatOneMore(e, 0);
    assert 60 / 60 == 1 && 60 % 60 == 0 && Repeat(e, 1) == [e];
    var prev := Ticks(kind, name, st, 59);
    TicksFollowAccumulator(kind, name, st, 59);
    TickOnSchedule(kind, name, prev);
    assert Ticks(kind, name, st, 60).timerText == TimeFormat.RemainingTimeText(60);
    MinuteText();
  }

  /** A full minute left is shown as "1:00". */
  lemma MinuteText()
    ensures TimeFormat.RemainingTimeText(60) == "1:00"
  {
    assert TimeFormat.JsRem(60, 60) == 0;
    assert TimeFormat.PadSeconds(0) == "00";
    assert TimeFormat.FormatTime(60) == "1" + ":" + "00";
  }

  /**
    `_setRemainingTime` blanks only an exact 0. If the interval is lowered
    below the counter while the task is paused, the next `start()` shows a
    negative countdown. With a counter of 100 and an interval of one minute
    the text is "-1:0-40".
   */
  lemma LoweredWhilePausedShowsNegativeCountdown(kind: Kind, st: TaskState)
    requires kind.Periodic() && kind != Trader && !st.Active() && st.counter == 100
    ensures var lowered := SetIntervalStep(kind, st, Num(1)).st;
      StartStep(kind, lowered, None).st.timerText == "-1:0-40"
  {
    var lowered := SetIntervalStep(kind, st, Num(1)).st;
    assert Interval(lowered.settings) == Some(60);
    assert !lowered.Active() && lowered.counter == 100;
    assert StartStep(kind, lowered, None).st.timerText == RemainingText(lowered.settings, 100);
    NegativeCountdownText();
  }

  /** Forty seconds overdue is rendered "-1:0-40". */
  lemma NegativeCountdownText()
    ensures TimeFormat.RemainingTimeText(-40) == "-1:0-40"
  {
    assert Decimal.Digits(40) == "40" by {
      assert Decimal.Digits(4) == "4";
    }
    assert TimeFormat.JsRem(-40, 60) == -40;
    assert TimeFormat.FormatTime(-40) == "-1" + ":" + "0-40";
  }

  // ----- restoring from the store -----

  /**
    Restoring saved settings with a truthy `isActive` activates the task with
    the saved values merged in (for example a saved interval), with no further
    update, unless the trader has no race selected.
   */
  lemma RestoreActive(kind: Kind, name: string, icon: string, labelText: string, saved: Settings)
    requires Truthy(Lookup(saved, "isActive"))
    requires var merged := Merge(InitialSettings(kind, name, icon, labelText), saved);
      kind != Trader || Truthy(Lookup(merged, "selectedRace"))
    ensures var init := InitialState(kind, name, icon, labelText);
      var r := LoadStep(kind, init, Some(saved)).st;
      && r.Active()
      && r.settings == Merge(Merge(init.settings, saved), map["isActive" := Bool(true)])
      && Interval(r.settings) == Interval(Merge(init.settings, saved))
      && (kind.Periodic() ==> r.timer.held) && (!kind.Periodic() ==> r.observer.held)
  {
    var init := InitialState(kind, name, icon, labelText);
    StartActiveUnlessVetoed(kind, init, Some(saved));
    UpdateKeepsMergedKeys(kind, init, saved);
  }

  /** With no saved settings the task is started from its defaults; only the trader, lacking a race, stays Inactive. */
  lemma FirstRunStarts(kind: Kind, name: string, icon: string, labelText: string)
    ensures var init := InitialState(kind, name, icon, labelText);
      var r := LoadStep(kind, init, None).st;
      && (r.Active() <==> kind != Trader)
      && r.settings == Merge(init.settings, map["isActive" := Bool(kind != Trader)])
  {
  }

  // ----- the driver runs exactly while the task is active -----

  /** A task's own driver has no orphans and is held exactly when the task is active; the other driver is unused. */
  predicate Coherent(kind: Kind, st: TaskState) {
    var own := if kind.Periodic() then st.timer else st.observer;
    var other := if kind.Periodic() then st.observer else st.timer;
    own.orphans == 0 && (own.held <==> st.Active()) && other == Idle
  }

  /** Under the invariant, an inactive task has no timer or observer left that could call `execute()`. */
  lemma CoherentInactiveIsSilent(kind: Kind, st: TaskState)
    requires Coherent(kind, st) && !st.Active()
    ensures st.timer.Live() == 0 && st.observer.Live() == 0
  {
  }

  /** Starting a task that runs no driver establishes the invariant, whether or not `_onStart` vetoes. */
  lemma StartHookKeepsCoherent(kind: Kind, st: TaskState)
    requires var own := if kind.Periodic() then st.timer else st.observer;
      var other := if kind.Periodic() then st.observer else st.timer;
      own == Idle && other == Idle
    ensures Coherent(kind, StartHook(kind, st).st)
  {
  }

  /**
    `pause()` settles a task whose own driver has no orphans and whose other
    driver is unused: afterwards it is inactive and no driver is running.
   */
  lemma PauseSettles(kind: Kind, st: TaskState)
    requires var own := if kind.Periodic() then st.timer else st.observer;
      var other := if kind.Periodic() then st.observer else st.timer;
      own.orphans == 0 && other == Idle && (!st.Active() ==> !own.held)
    ensures var r := PauseStep(kind, st).st;
      Coherent(kind, r) && r.timer.Live() == 0 && r.observer.Live() == 0
  {
  }

  /** `pause()` keeps the invariant, and afterwards no driver is running. */
  lemma PauseKeepsCoherent(kind: Kind, st: TaskState)
    requires Coherent(kind, st)
    ensures var r := PauseStep(kind, st).st;
      Coherent(kind, r) && r.timer.Live() == 0 && r.observer.Live() == 0
  {
    PauseSettles(kind, st);
  }

  /** An update that leaves `isActive` as it was keeps the invariant, the trader's reactive pause included. */
  lemma UpdateKeepsCoherent(kind: Kind, st: TaskState, partial: Settings)
    requires Coherent(kind, st)
    requires Truthy(Lookup(Merge(st.settings, partial), "isActive")) == st.Active()
    ensures Coherent(kind, UpdateStep(kind, st, partial).st)
  {
    var merged := MergeStep(st, partial);
    assert Coherent(kind, merged.st);
    if ClearsRace(kind, partial) {
      PauseKeepsCoherent(kind, merged.st);
    }
  }

  /** `start()` keeps the invariant, except for an override on an already active task (see `RestartLeavesOrphanTimer`). */
  lemma StartKeepsCoherent(kind: Kind, st: TaskState, over: Option<Settings>)
    requires Coherent(kind, st) && !(Restores(over) && st.Active())
    ensures Coherent(kind, StartStep(kind, st, over).st)
  {
    if Restores(over) {
      var updated := UpdateStep(kind, st, over.value);
      if ClearsRace(kind, over.value) {
        PauseSettles(kind, MergeStep(st, over.value).st);
      }
      StartHookKeepsCoherent(kind, updated.st);
    } else if !st.Active() {
      StartHookKeepsCoherent(kind, st);
    }
  }

  /** A timer tick keeps the invariant: executing changes neither `isActive` nor the drivers. */
  lemma TickKeepsCoherent(kind: Kind, name: string, st: TaskState)
    requires Coherent(kind, st)
    ensures Coherent(kind, TickStep(kind, name, st).st)
  {
    if kind == Observer {
      assert Lookup(ExecuteStep(kind, name, st.(counter := st.counter + 1)).st.settings, "isActive") == Lookup(st.settings, "isActive");
    }
  }

  /** Restoring a freshly constructed task from any saved settings establishes the invariant. */
  lemma RestoreIsCoherent(kind: Kind, name: string, icon: string, labelText: string, saved: Option<Settings>)
    ensures Coherent(kind, LoadStep(kind, InitialState(kind, name, icon, labelText), saved).st)
  {
    var init := InitialState(kind, name, icon, labelText);
    assert Coherent(kind, init);
    match saved
    case None => StartKeepsCoherent(kind, init, None);
    case Some(s) =>
      if Truthy(Lookup(s, "isActive")) {
        StartKeepsCoherent(kind, init, saved);
      } else {
        UpdateKeepsCoherent(kind, init, s);
      }
  }

  /**
    `start(override)` on an already active periodic task runs `_onStart`
    again: the new interval handle replaces the old one, whose timer keeps
    running. `pause()` then cancels only the new timer, so the inactive task
    is still ticking.
   */
  lemma RestartLeavesOrphanTimer(st: TaskState, over: Settings)
    requires Coherent(Crafter, st) && st.Active() && Truthy(Lookup(over, "isActive"))
    ensures var restarted := StartStep(Crafter, st, Some(over)).st;
      var paused := PauseStep(Crafter, restarted).st;
      && restarted.Active() && restarted.timer == Driver(true, 1)
      && !paused.Active() && paused.timer.Live() == 1
  {
  }
}
