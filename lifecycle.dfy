/**
  The task lifecycle as pure functions on a snapshot of a task's state. Each
  function describes one operation of `AsyncTask`, `PeriodicTask` and their
  variants. Its result is the new state together with the settings objects
  that the change listener received, in order. The class `Tasks.Task` performs
  the same operations in place and is proved against these functions.
 */
module Lifecycle {
  import opened Wrappers
  import opened JsValues
  import TimeFormat
  import Accumulator

  /** The closed set of task variants: four periodic ones and the event-driven sky observer. */
  datatype Kind = Crafter | Hunter | Trader | Praiser | Observer {
    /** The variants that extend `PeriodicTask`. */
    predicate Periodic() {
      !Observer?
    }
  }

  /** What a lifecycle hook returned: `Cancel` is an explicit `return false`. */
  datatype HookResult = Proceed | Cancel

  /**
    A driver of `execute()`: the handle slot (`intervalId` or `observer`) and
    the number of live timers or observers whose handle was overwritten and
    can no longer be cancelled.
   */
  datatype Driver = Driver(held: bool, orphans: nat) {
    /** How many timers (or observers) are running for the task. */
    function Live(): nat {
      orphans + if held then 1 else 0
    }

    /** Creating a driver stores its handle, replacing the one held before. */
    function Attach(): (d: Driver)
      ensures d.held && d.Live() == Live() + 1
    {
      Driver(true, Live())
    }

    /** Cancelling the held driver and clearing the slot. */
    function Detach(): (d: Driver)
      ensures !d.held && d.orphans == orphans && d.Live() <= Live()
    {
      Driver(false, orphans)
    }
  }

  const Idle := Driver(false, 0)

  /** The periodic variants never pass an interval, so `PeriodicTask` uses its default of 4 minutes. */
  const DefaultIntervalMinutes := 4

  /** A call into the game made by `_onExecute`. */
  datatype Effect = CraftAll(resource: string) | HuntAll | TradeAll(race: Value) | Praise | ClickObserveButton

  /**
    The state of one task: its settings, `secondsSinceLastExecution`, the
    timer and observer drivers, the remaining-time text shown in the widget,
    the game calls made so far and the execution messages logged so far.
   */
  datatype TaskState = TaskState(
    settings: Settings,
    counter: nat,
    timer: Driver,
    observer: Driver,
    timerText: string,
    effects: seq<Effect>,
    log: seq<string>)
  {
    /** The `isActive` getter, read as `if (this.isActive)` reads it. */
    predicate Active() {
      Truthy(Lookup(settings, "isActive"))
    }
  }

  /** An operation's outcome: the new state and the settings objects handed to the change listener. */
  datatype Step = Step(st: TaskState, notices: seq<Settings>)

  /**
    The listener sees every change: if it was not called the settings are
    unchanged, and otherwise its last call carried the final settings.
   */
  predicate Tracks(before: TaskState, s: Step) {
    if s.notices == [] then s.st.settings == before.settings
    else s.notices[|s.notices| - 1] == s.st.settings
  }

  /** Running `first` and then `second`, where `second` starts from `first.st`. */
  function Then(first: Step, second: Step): (r: Step)
    ensures forall before :: Tracks(before, first) && Tracks(first.st, second) ==> Tracks(before, r)
  {
    Step(second.st, first.notices + second.notices)
  }

  /** The `interval` getter as a number (`None` for NaN). */
  function Interval(settings: Settings): Option<int> {
    ToNumber(Lookup(settings, "interval"))
  }

  /** `_setRemainingTime(this.interval - this.secondsSinceLastExecution)`; a NaN difference is falsy and shows nothing. */
  function RemainingText(settings: Settings, counter: nat): string {
    match Interval(settings)
    case None => ""
    case Some(i) => TimeFormat.RemainingTimeText(i - counter)
  }

  /** The settings a task is constructed with (`AsyncTask`, `PeriodicTask` and the variant constructors). */
  function InitialSettings(kind: Kind, name: string, icon: string, labelText: string): (s: Settings)
    ensures Lookup(s, "isActive") == Bool(false)
    ensures Lookup(s, "name") == Str(name) && Lookup(s, "label") == Str(labelText)
    ensures kind.Periodic() <==> Interval(s) == Some(DefaultIntervalMinutes * 60)
    ensures kind == Trader ==> Lookup(s, "selectedRace") == Null
    ensures kind == Observer ==> Lookup(s, "captureCount") == Num(0)
  {
    var base := map["isActive" := Bool(false), "name" := Str(name), "icon" := Str(icon), "label" := Str(labelText)];
    match kind
    case Observer => base["captureCount" := Num(0)]
    case Trader => base["interval" := Num(DefaultIntervalMinutes * 60)]["selectedRace" := Null]
    case _ => base["interval" := Num(DefaultIntervalMinutes * 60)]
  }

  function InitialState(kind: Kind, name: string, icon: string, labelText: string): (st: TaskState)
    ensures !st.Active() && st.counter == 0 && st.timer == Idle && st.observer == Idle
  {
    TaskState(InitialSettings(kind, name, icon, labelText), 0, Idle, Idle, "", [], [])
  }

  /** `AsyncTask.updateSettings`: merge, then call the listener once with the merged settings. */
  function MergeStep(st: TaskState, partial: Settings): (r: Step)
    ensures Tracks(st, r) && |r.notices| == 1
  {
    var merged := Merge(st.settings, partial);
    Step(st.(settings := merged), [merged])
  }

  /** `__setIsActive(active)`: an update of `isActive` alone. */
  function SetActive(st: TaskState, active: bool): (r: Step)
    ensures r.st.Active() == active && Tracks(st, r)
  {
    MergeStep(st, map["isActive" := Bool(active)])
  }

  /** The `_onPause` hooks: the periodic variants clear their interval, the observer disconnects. None vetoes. */
  function OnPause(kind: Kind, st: TaskState): (r: (TaskState, HookResult))
    ensures r.1 == Proceed
    ensures r.0.settings == st.settings && r.0.counter == st.counter && r.0.effects == st.effects && r.0.log == st.log
    ensures kind.Periodic() ==> !r.0.timer.held && r.0.timer.orphans == st.timer.orphans && r.0.observer == st.observer
    ensures !kind.Periodic() ==> !r.0.observer.held && r.0.observer.orphans == st.observer.orphans && r.0.timer == st.timer
  {
    if kind.Periodic() then (st.(timer := st.timer.Detach()), Proceed)
    else (st.(observer := st.observer.Detach()), Proceed)
  }

  /** `pause()`: nothing when inactive; otherwise run `_onPause` and, unless it vetoes, become inactive. */
  function PauseStep(kind: Kind, st: TaskState): (r: Step)
    ensures Tracks(st, r) && !r.st.Active()
  {
    if !st.Active() then Step(st, [])
    else
      var (s1, hook) := OnPause(kind, st);
      if hook != Cancel then SetActive(s1, false) else Step(s1, [])
  }

  /** `PeriodicTask._onStart`: show the remaining time, then start the one-second timer. */
  function PeriodicOnStart(st: TaskState): (r: TaskState)
    ensures r.settings == st.settings && r.counter == st.counter && r.observer == st.observer
    ensures r.effects == st.effects && r.log == st.log
    ensures r.timer.held && r.timer.Live() == st.timer.Live() + 1
    ensures r.timerText == RemainingText(st.settings, st.counter)
  {
    st.(timerText := RemainingText(st.settings, st.counter), timer := st.timer.Attach())
  }

  /** The `_onStart` hooks. The trader vetoes unless a race is selected; it then starts the periodic timer too. */
  function OnStart(kind: Kind, st: TaskState): (r: (TaskState, HookResult))
    ensures r.1 == Cancel <==> kind == Trader && !Truthy(Lookup(st.settings, "selectedRace"))
    ensures r.1 == Cancel ==> r.0 == st
    ensures r.0.settings == st.settings && r.0.counter == st.counter && r.0.effects == st.effects && r.0.log == st.log
    ensures r.1 == Proceed && kind.Periodic() ==> r.0.timer.held && r.0.timer.Live() == st.timer.Live() + 1 && r.0.observer == st.observer
    ensures kind == Observer ==> r.0.observer.held && r.0.observer.Live() == st.observer.Live() + 1 && r.0.timer == st.timer
  {
    match kind
    case Trader =>
      if Truthy(Lookup(st.settings, "selectedRace")) then (PeriodicOnStart(st), Proceed) else (st, Cancel)
    case Observer => (st.(observer := st.observer.Attach()), Proceed)
    case _ => (PeriodicOnStart(st), Proceed)
  }

  /** The part of `start()` after its guard: run `_onStart`, then become active unless it vetoed. */
  function StartHook(kind: Kind, st: TaskState): (r: Step)
    ensures Tracks(st, r) && r.st.settings == Merge(st.settings, map["isActive" := Bool(r.st.Active())])
    ensures r.st.Active() <==> OnStart(kind, st).1 != Cancel
  {
    var (s1, hook) := OnStart(kind, st);
    SetActive(s1, hook != Cancel)
  }

  /** Whether the trader's `updateSettings` override pauses after this partial update. */
  predicate ClearsRace(kind: Kind, partial: Settings) {
    kind == Trader && "selectedRace" in partial && !Truthy(partial["selectedRace"])
  }

  /** `updateSettings(partial)` with the trader's override, which pauses when the race is cleared. */
  function UpdateStep(kind: Kind, st: TaskState, partial: Settings): (r: Step)
    ensures Tracks(st, r) && r.notices != [] && r.notices[0] == Merge(st.settings, partial)
  {
    var merged := MergeStep(st, partial);
    if ClearsRace(kind, partial) then Then(merged, PauseStep(kind, merged.st)) else merged
  }

  /** Whether `start(override)` merges the override: only when it carries a truthy `isActive`. */
  predicate Restores(over: Option<Settings>) {
    over.Some? && Truthy(Lookup(over.value, "isActive"))
  }

  /** `start(override?)`. */
  function StartStep(kind: Kind, st: TaskState, over: Option<Settings>): (r: Step)
    ensures Tracks(st, r)
  {
    if Restores(over) then
      var updated := UpdateStep(kind, st, over.value);
      Then(updated, StartHook(kind, updated.st))
    else if st.Active() then Step(st, [])
    else StartHook(kind, st)
  }

  /** The game call a variant's `_onExecute` makes. */
  function EffectOf(kind: Kind, name: string, settings: Settings): Effect {
    match kind
    case Crafter => CraftAll(name)
    case Hunter => HuntAll
    case Trader => TradeAll(Lookup(settings, "selectedRace"))
    case Praiser => Praise
    case Observer => ClickObserveButton
  }

  /** `getExecutionMessage()` of each variant. */
  function ExecutionMessage(kind: Kind, name: string, settings: Settings): string {
    match kind
    case Crafter => name + " crafted!"
    case Hunter => "The kittens have hunted \U{1F52A}"
    case Trader => "Traded with " + ToText(Lookup(settings, "selectedRace"))
    case Praiser => "All hail ceiling cat! \U{1F640}"
    case Observer => "Meteor captured!"
  }

  /** The `_onExecute` hooks; the observer first counts the capture through `updateSettings`. */
  function OnExecute(kind: Kind, name: string, st: TaskState): (r: Step)
    ensures Tracks(st, r)
    ensures r.st.effects == st.effects + [EffectOf(kind, name, st.settings)]
  {
    if kind == Observer then
      var counted := MergeStep(st, map["captureCount" := PlusOne(Lookup(st.settings, "captureCount"))]);
      Step(counted.st.(effects := st.effects + [ClickObserveButton]), counted.notices)
    else
      Step(st.(effects := st.effects + [EffectOf(kind, name, st.settings)]), [])
  }

  /** `execute()`: run `_onExecute`, then log the execution message. */
  function ExecuteStep(kind: Kind, name: string, st: TaskState): (r: Step)
    ensures Tracks(st, r)
    ensures r.st.effects == st.effects + [EffectOf(kind, name, st.settings)]
    ensures |r.st.log| == |st.log| + 1
  {
    var done := OnExecute(kind, name, st);
    Step(done.st.(log := done.st.log + [ExecutionMessage(kind, name, done.st.settings)]), done.notices)
  }

  /** One run of the one-second timer callback installed by `PeriodicTask._onStart`. */
  function TickStep(kind: Kind, name: string, st: TaskState): (r: Step)
    ensures Tracks(st, r)
  {
    var elapsed := st.counter + 1;
    if Accumulator.Reached(elapsed, Interval(st.settings)) then
      var done := ExecuteStep(kind, name, st.(counter := elapsed));
      Step(done.st.(counter := 0, timerText := RemainingText(done.st.settings, 0)), done.notices)
    else
      Step(st.(counter := elapsed, timerText := RemainingText(st.settings, elapsed)), [])
  }

  /** The sky observer's mutation callback: execute when the observe button is on the page. */
  function ObserveStep(kind: Kind, name: string, st: TaskState, buttonPresent: bool): (r: Step)
    ensures Tracks(st, r)
    ensures buttonPresent ==> r.st.effects == st.effects + [EffectOf(kind, name, st.settings)] && |r.st.log| == |st.log| + 1
    ensures !buttonPresent ==> r == Step(st, [])
  {
    if buttonPresent then ExecuteStep(kind, name, st) else Step(st, [])
  }

  /**
    `setInterval(minutes)`: store `minutes * 60` as the interval. The value
    comes from the number input as a string, and `*` coerces it; an
    unreadable entry gives a NaN interval.
   */
  function SetIntervalStep(kind: Kind, st: TaskState, minutes: Value): (r: Step)
    ensures Tracks(st, r)
    ensures r.st.counter == st.counter
    ensures Interval(r.st.settings) == (if ToNumber(minutes).Some? then Some(ToNumber(minutes).value * 60) else None)
  {
    var interval := if ToNumber(minutes).Some? then Num(ToNumber(minutes).value * 60) else NaN;
    UpdateStep(kind, st, map["interval" := interval])
  }

  /** `loadTaskFromMemory(task, saved)`. */
  function LoadStep(kind: Kind, st: TaskState, saved: Option<Settings>): (r: Step)
    ensures Tracks(st, r)
  {
    match saved
    case None => StartStep(kind, st, None)
    case Some(s) => if Truthy(Lookup(s, "isActive")) then StartStep(kind, st, saved) else UpdateStep(kind, st, s)
  }
}
