/**
  The task objects themselves. A `Task` holds one task's mutable state:
  `settings`, `secondsSinceLastExecution`, the timer and observer handles,
  the widget's timer text, and the game calls and execution messages so far.
  It has a single listener slot. The listener used by the program writes each
  settings snapshot into the `Store`. Every method does what the matching
  method of `AsyncTask`, `PeriodicTask` or a variant does, and is proved to
  produce the state and listener calls that `Lifecycle` describes.
 */
module Tasks {
  import opened Wrappers
  import opened JsValues
  import opened Lifecycle
  import Accumulator

  /** The store after the listener has received `notices` from the task called `name`. */
  function Persist(entries: map<string, Settings>, name: string, notices: seq<Settings>): (r: map<string, Settings>)
    ensures notices != [] ==> name in r && r[name] == notices[|notices| - 1]
    ensures forall k :: k != name ==> (k in r <==> k in entries)
    ensures forall k :: k != name && k in r ==> r[k] == entries[k]
    ensures notices == [] ==> r == entries
  {
    if notices == [] then entries else entries[name := notices[|notices| - 1]]
  }

  lemma PersistThen(entries: map<string, Settings>, name: string, first: seq<Settings>, second: seq<Settings>)
    ensures Persist(Persist(entries, name, first), name, second) == Persist(entries, name, first + second)
  {
    if second != [] {
      assert (first + second)[|first + second| - 1] == second[|second| - 1];
    }
  }

  /**
    The saved configuration: `allSettings`, one settings snapshot per task
    name, and the number of times it was written to local storage.
   */
  class Store {
    var entries: map<string, Settings>
    var writes: nat

    /** `JSON.parse(localStorage.getItem(key)) || {}`: an absent configuration starts empty. */
    constructor (saved: Option<map<string, Settings>>)
      ensures entries == (if saved.Some? then saved.value else map[]) && writes == 0
    {
      entries := if saved.Some? then saved.value else map[];
      writes := 0;
    }

    /** The listener registered for a task: record its settings under its name, then write the store out. */
    method Save(name: string, settings: Settings)
      modifies this
      ensures entries == old(entries)[name := settings] && writes == old(writes) + 1
    {
      entries := entries[name := settings];
      writes := writes + 1;
    }
  }

  class Task {
    const kind: Kind
    const name: string
    var settings: Settings
    var counter: nat
    var timer: Driver
    var observer: Driver
    var timerText: string
    var effects: seq<Effect>
    var log: seq<string>
    /** The change listener; `null` is the default listener, which does nothing. */
    var listener: Store?

    function State(): TaskState
      reads this
    {
      TaskState(settings, counter, timer, observer, timerText, effects, log)
    }

    /** The store holds this task's current settings. */
    predicate Synced()
      reads this, listener
    {
      listener != null ==> name in listener.entries && listener.entries[name] == settings
    }

    /**
      The task went through `s`: its state is `s.st`, the listener slot is
      unchanged, and the store received exactly the notices of `s`.
     */
    twostate predicate Went(s: Step)
      reads this, listener
    {
      && State() == s.st
      && listener == old(listener)
      && (listener != null ==>
            && listener.entries == Persist(old(listener.entries), name, s.notices)
            && listener.writes == old(listener.writes) + |s.notices|)
    }

    constructor (kind: Kind, name: string, icon: string, labelText: string)
      ensures this.kind == kind && this.name == name
      ensures State() == InitialState(kind, name, icon, labelText) && listener == null
    {
      this.kind := kind;
      this.name := name;
      settings := InitialSettings(kind, name, icon, labelText);
      counter := 0;
      timer := Idle;
      observer := Idle;
      timerText := "";
      effects := [];
      log := [];
      listener := null;
    }

    /** The `isActive` getter. */
    function IsActive(): (b: bool)
      reads this
      ensures b == State().Active()
    {
      Truthy(Lookup(settings, "isActive"))
    }

    /** `onChange(callback)`: the last registration wins. */
    method OnChange(store: Store?)
      modifies this
      ensures listener == store && State() == old(State())
    {
      listener := store;
    }

    /** `AsyncTask.updateSettings`: `Object.assign`, then one call of the listener. */
    method MergeSettings(partial: Settings)
      modifies this, listener
      ensures Went(MergeStep(old(State()), partial))
      ensures Synced()
    {
      settings := Merge(settings, partial);
      if listener != null {
        listener.Save(name, settings);
      }
    }

    /**
      `__setIsActive(active)`. It calls `this.updateSettings({ isActive })`.
      The trader's override of `updateSettings` does nothing extra for a
      partial without `selectedRace`, so this is the plain merge. The toggle
      text and the status line are not modelled.
     */
    method SetIsActive(active: bool)
      modifies this, listener
      ensures Went(SetActive(old(State()), active))
      ensures Synced()
    {
      MergeSettings(map["isActive" := Bool(active)]);
    }

    /** `updateSettings(partial)`, including `Autotrader`'s override. */
    method UpdateSettings(partial: Settings)
      modifies this, listener
      ensures Went(UpdateStep(kind, old(State()), partial))
      ensures Synced()
    {
      ghost var st0 := State();
      ghost var entries0 := if listener != null then listener.entries else map[];
      MergeSettings(partial);
      if kind == Trader && "selectedRace" in partial {
        // the race selector's value and disabled flag are not modelled
        if !Truthy(partial["selectedRace"]) {
          Pause();
          if listener != null {
            PersistThen(entries0, name, MergeStep(st0, partial).notices, PauseStep(kind, MergeStep(st0, partial).st).notices);
          }
        }
      }
    }

    /** The `_onPause` hooks. */
    method OnPause() returns (hook: HookResult)
      modifies this
      ensures (State(), hook) == Lifecycle.OnPause(kind, old(State())) && listener == old(listener)
    {
      if kind.Periodic() {
        timer := timer.Detach();
      } else {
        observer := observer.Detach();
      }
      hook := Proceed;
    }

    /** `pause()`. */
    method Pause()
      modifies this, listener
      ensures Went(PauseStep(kind, old(State())))
      ensures old(Synced()) ==> Synced()
    {
      if !IsActive() {
        return;
      }
      var hook := OnPause();
      if hook != Cancel {
        SetIsActive(false);
      }
    }

    /** `PeriodicTask._onStart`: show the remaining time, then register the one-second timer. */
    method PeriodicOnStart()
      modifies this
      ensures State() == Lifecycle.PeriodicOnStart(old(State())) && listener == old(listener)
    {
      timerText := RemainingText(settings, counter);
      timer := timer.Attach();
    }

    /** The `_onStart` hooks; the trader's veto is its `return false`. */
    method OnStart() returns (hook: HookResult)
      modifies this
      ensures (State(), hook) == Lifecycle.OnStart(kind, old(State())) && listener == old(listener)
    {
      match kind
      case Trader =>
        if Truthy(Lookup(settings, "selectedRace")) {
          PeriodicOnStart();
          hook := Proceed;
        } else {
          hook := Cancel;
        }
      case Observer =>
        observer := observer.Attach();
        hook := Proceed;
      case _ =>
        PeriodicOnStart();
        hook := Proceed;
    }

    /** `start(override?)`. */
    method Start(over: Option<Settings>)
      modifies this, listener
      ensures Went(StartStep(kind, old(State()), over))
      ensures old(Synced()) ==> Synced()
    {
      ghost var st0 := State();
      ghost var entries0 := if listener != null then listener.entries else map[];
      if over.Some? && Truthy(Lookup(over.value, "isActive")) {
        UpdateSettings(over.value);
      } else if IsActive() {
        return;
      }
      ghost var st1 := State();
      ghost var entries1 := if listener != null then listener.entries else map[];
      var hook := OnStart();
      if hook != Cancel {
        SetIsActive(true);
      } else {
        SetIsActive(false);
      }
      if listener != null {
        var first := if Restores(over) then UpdateStep(kind, st0, over.value).notices else [];
        assert entries1 == Persist(entries0, name, first);
        PersistThen(entries0, name, first, StartHook(kind, st1).notices);
      }
    }

    /** The `_onExecute` hooks: one game call, and for the observer the capture count first. */
    method OnExecute()
      modifies this, listener
      ensures Went(Lifecycle.OnExecute(kind, name, old(State())))
      ensures old(Synced()) ==> Synced()
    {
      match kind
      case Crafter => effects := effects + [CraftAll(name)];
      case Hunter => effects := effects + [HuntAll];
      case Trader => effects := effects + [TradeAll(Lookup(settings, "selectedRace"))];
      case Praiser => effects := effects + [Praise];
      case Observer =>
        UpdateSettings(map["captureCount" := PlusOne(Lookup(settings, "captureCount"))]);
        effects := effects + [ClickObserveButton];
    }

    /** `execute()`: `_onExecute`, then the execution message is logged. */
    method Execute()
      modifies this, listener
      ensures Went(ExecuteStep(kind, name, old(State())))
      ensures old(Synced()) ==> Synced()
    {
      OnExecute();
      log := log + [ExecutionMessage(kind, name, settings)];
    }

    /** One call of the timer callback; it can only run while a timer registered for this task is live. */
    method Tick()
      requires timer.Live() > 0
      modifies this, listener
      ensures Went(TickStep(kind, name, old(State())))
      ensures old(Synced()) ==> Synced()
    {
      ghost var st0 := State();
      ghost var done := Step(st0, []);
      counter := counter + 1;
      if Accumulator.Reached(counter, Interval(settings)) {
        done := ExecuteStep(kind, name, State());
        Execute();
        counter := 0;
      }
      timerText := RemainingText(settings, counter);
      if Accumulator.Reached(st0.counter + 1, Interval(st0.settings)) {
        assert TickStep(kind, name, st0) == Step(done.st.(counter := 0, timerText := RemainingText(done.st.settings, 0)), done.notices);
      } else {
        assert TickStep(kind, name, st0) == Step(st0.(counter := st0.counter + 1, timerText := RemainingText(st0.settings, st0.counter + 1)), []);
      }
    }

    /** One call of the sky observer's mutation callback; `buttonPresent` is whether `#observeBtn` exists. */
    method ObserveMutation(buttonPresent: bool)
      requires observer.Live() > 0
      modifies this, listener
      ensures Went(ObserveStep(kind, name, old(State()), buttonPresent))
      ensures old(Synced()) ==> Synced()
    {
      if buttonPresent {
        Execute();
      }
    }

    /** `setInterval(minutes)`, with the input's value; the log line is not modelled. */
    method SetInterval(minutes: Value)
      modifies this, listener
      ensures Went(SetIntervalStep(kind, old(State()), minutes))
      ensures Synced()
    {
      var interval := if ToNumber(minutes).Some? then Num(ToNumber(minutes).value * 60) else NaN;
      UpdateSettings(map["interval" := interval]);
    }
  }
}
