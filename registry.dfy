/**
  The program's bootstrap. This module covers the fixed list of fourteen tasks
  and their restoration from the saved configuration (`loadTaskFromMemory`).
  After restoration, one persistence listener per task writes into the shared
  store. It also covers the "Start all" and "Pawse all" buttons.
 */
module Registry {
  import opened Wrappers
  import opened JsValues
  import opened Lifecycle
  import opened Tasks
  import LifecycleFacts

  /** One task to create: its variant, name, icon and label. */
  datatype Entry = Entry(kind: Kind, name: string, icon: string, labelText: string)

  /** `new Autocrafter(icon, name, label)`: the label is `label || name`. */
  function CrafterEntry(name: string, icon: string, labelText: Option<string>): (e: Entry)
    ensures e.kind == Crafter && e.name == name && e.icon == icon
    ensures labelText.Some? && labelText.value != "" ==> e.labelText == labelText.value
    ensures labelText.None? || labelText.value == "" ==> e.labelText == name
  {
    Entry(Crafter, name, icon, if labelText.Some? && labelText.value != "" then labelText.value else name)
  }

  /** Whether the task names in `es` are pairwise different; the store is keyed by them. */
  predicate DistinctNames(es: seq<Entry>) {
    forall j, k :: 0 <= j < k < |es| ==> es[j].name != es[k].name
  }

  /** The task names in creation order; each one keys the task's saved settings. */
  const TaskNames: seq<string> := ["wood", "beam", "slab", "plate", "steel", "kerosene", "parchment",
    "manuscript", "compedium", "blueprint", "hunt", "sky", "trade", "praise"]

  /**
    The crafters, in order: `[...].map(a => new Autocrafter(a.icon, a.name, a.label))`.
    Only "compedium" has a label of its own.
   */
  function Crafters(): (es: seq<Entry>)
    ensures |es| == 10
    ensures forall k :: 0 <= k < 10 ==> es[k].kind == Crafter && es[k].name == TaskNames[k]
    ensures es[8].labelText == "compendium"
    ensures forall k :: 0 <= k < 10 && k != 8 ==> es[k].labelText == es[k].name
  {
    [ CrafterEntry(TaskNames[0], "\U{1F333}", None),
      CrafterEntry(TaskNames[1], "\U{1F3D7}", None),
      CrafterEntry(TaskNames[2], "\U{26F0}", None),
      CrafterEntry(TaskNames[3], "\U{1F517}", None),
      CrafterEntry(TaskNames[4], "\U{2694}\U{FE0F}", None),
      CrafterEntry(TaskNames[5], "\U{1F6E2}", None),
      CrafterEntry(TaskNames[6], "\U{1F4DD}", None),
      CrafterEntry(TaskNames[7], "\U{1F5DE}", None),
      CrafterEntry(TaskNames[8], "\U{1F4D6}", Some("compendium")),
      CrafterEntry(TaskNames[9], "\U{1F4D8}", None) ]
  }

  /** The four tasks pushed after the crafters, each labelled with its name. */
  function Others(): (es: seq<Entry>)
    ensures |es| == 4
    ensures es[0].kind == Hunter && es[1].kind == Observer && es[2].kind == Trader && es[3].kind == Praiser
    ensures forall k :: 0 <= k < 4 ==> es[k].name == TaskNames[10 + k] && es[k].labelText == es[k].name
  {
    [ Entry(Hunter, TaskNames[10], "\U{1F42F}", TaskNames[10]),
      Entry(Observer, TaskNames[11], "\U{2604}\U{FE0F}", TaskNames[11]),
      Entry(Trader, TaskNames[12], "\U{1F91D}", TaskNames[12]),
      Entry(Praiser, TaskNames[13], "\U{1F64F}", TaskNames[13]) ]
  }

  /**
    The tasks in creation order: the ten crafters, then the hunter, the sky
    observer, the trader and the praiser.
   */
  function Configured(): (es: seq<Entry>)
    ensures |es| == |TaskNames| == 14
    ensures forall k :: 0 <= k < |es| ==> es[k].name == TaskNames[k]
    ensures forall k :: 0 <= k < 10 ==> es[k].kind == Crafter
    ensures es[8].labelText == "compendium"
    ensures es[10].kind == Hunter && es[11].kind == Observer && es[12].kind == Trader && es[13].kind == Praiser
    ensures forall k :: 0 <= k < 14 && k != 8 ==> es[k].labelText == es[k].name
  {
    var crafters, others := Crafters(), Others();
    assert forall k :: 10 <= k < 14 ==> (crafters + others)[k] == others[k - 10];
    crafters + others
  }

  /**
    A key read off a name's length and first letter: the index of the name
    in `TaskNames`, or -1 for any other shape. It exists only so that
    `TaskNamesDistinct` compares each name with one key rather than every
    pair of names with each other.
   */
  function NameKey(s: string): int {
    if |s| == 0 then -1 else
    match (|s|, s[0])
    case (4, 'w') => 0
    case (4, 'b') => 1
    case (4, 's') => 2
    case (5, 'p') => 3
    case (5, 's') => 4
    case (8, 'k') => 5
    case (9, 'p') => 6
    case (10, 'm') => 7
    case (9, 'c') => 8
    case (9, 'b') => 9
    case (4, 'h') => 10
    case (3, 's') => 11
    case (5, 't') => 12
    case (6, 'p') => 13
    case _ => -1
  }

  /** No name occurs twice in `TaskNames`. */
  lemma TaskNamesDistinct()
    ensures forall j, k :: 0 <= j < k < |TaskNames| ==> TaskNames[j] != TaskNames[k]
  {
    assert forall k :: 0 <= k < |TaskNames| ==> NameKey(TaskNames[k]) == k;
  }

  /** No two configured tasks share a name. */
  lemma ConfiguredNamesDistinct()
    ensures DistinctNames(Configured())
  {
    TaskNamesDistinct();
  }

  /** `t` is the freshly constructed task for `e`, with no listener yet. */
  predicate Built(t: Task, e: Entry)
    reads t
  {
    t.kind == e.kind && t.name == e.name
    && t.State() == InitialState(e.kind, e.name, e.icon, e.labelText) && t.listener == null
  }

  /** The tasks have pairwise different names, so they are also pairwise different objects. */
  predicate Distinct(tasks: seq<Task>) {
    forall j, k :: 0 <= j < k < |tasks| ==> tasks[j].name != tasks[k].name
  }

  /** Every task reports to `store`. */
  predicate Listening(tasks: seq<Task>, store: Store?)
    reads tasks
  {
    forall k :: 0 <= k < |tasks| ==> tasks[k].listener == store
  }

  /** `allSettings[task.name]`: the snapshot saved for `name`, if there is one. */
  function Saved(entries: map<string, Settings>, name: string): (r: Option<Settings>)
    ensures r.Some? <==> name in entries
    ensures r.Some? ==> r.value == entries[name]
  {
    if name in entries then Some(entries[name]) else None
  }

  /** The `tasks` array: one new task per entry, in order (`map`, then `push`). */
  method CreateTasks(es: seq<Entry>) returns (tasks: seq<Task>)
    requires DistinctNames(es)
    ensures |tasks| == |es| && Distinct(tasks)
    ensures forall k :: 0 <= k < |tasks| ==> fresh(tasks[k]) && Built(tasks[k], es[k])
  {
    tasks := [];
    var i := 0;
    while i < |es|
      invariant 0 <= i <= |es| && |tasks| == i
      invariant forall k :: 0 <= k < i ==> fresh(tasks[k]) && Built(tasks[k], es[k])
    {
      var t := new Task(es[i].kind, es[i].name, es[i].icon, es[i].labelText);
      tasks := tasks + [t];
      i := i + 1;
    }
  }

  /**
    `loadTaskFromMemory(task, settings)`. With no snapshot the task starts.
    A snapshot whose `isActive` is truthy is passed to `start` as an override.
    Any other snapshot is merged with `updateSettings`.
   */
  method LoadTaskFromMemory(task: Task, saved: Option<Settings>)
    modifies task, task.listener
    ensures task.Went(LoadStep(task.kind, old(task.State()), saved))
  {
    match saved
    case None =>
      task.Start(None);
    case Some(s) =>
      if Truthy(Lookup(s, "isActive")) {
        task.Start(saved);
      } else {
        task.UpdateSettings(s);
      }
  }

  /**
    The bootstrap loop. Each task is restored from `allSettings` first and only
    then given the listener that persists it, so the restoration writes nothing
    to the store.
   */
  method Bootstrap(tasks: seq<Task>, store: Store)
    requires Distinct(tasks)
    requires forall k :: 0 <= k < |tasks| ==> tasks[k].listener == null
    modifies tasks
    ensures Listening(tasks, store) && unchanged(store)
    ensures forall k :: 0 <= k < |tasks| ==>
      tasks[k].State() == LoadStep(tasks[k].kind, old(tasks[k].State()), Saved(store.entries, tasks[k].name)).st
  {
    var i := 0;
    while i < |tasks|
      invariant 0 <= i <= |tasks|
      invariant forall k :: 0 <= k < i ==> tasks[k].listener == store
      invariant forall k :: i <= k < |tasks| ==> tasks[k].listener == null && tasks[k].State() == old(tasks[k].State())
      invariant forall k :: 0 <= k < i ==>
        tasks[k].State() == LoadStep(tasks[k].kind, old(tasks[k].State()), Saved(store.entries, tasks[k].name)).st
    {
      LoadTaskFromMemory(tasks[i], Saved(store.entries, tasks[i].name));
      tasks[i].OnChange(store);
      i := i + 1;
    }
  }

  /**
    The whole start-up for the task list `es` (the program's is `Configured()`,
    whose names `ConfiguredNamesDistinct` shows to be distinct). It creates
    the tasks, reads the configuration (`None` when nothing is saved),
    restores every task and attaches the listeners. Every task then runs its
    timer or observer exactly when it is active.
   */
  method Boot(es: seq<Entry>, saved: Option<map<string, Settings>>) returns (tasks: seq<Task>, store: Store)
    requires DistinctNames(es)
    ensures fresh(store) && Distinct(tasks) && Listening(tasks, store)
    ensures store.entries == (if saved.Some? then saved.value else map[]) && store.writes == 0
    ensures |tasks| == |es|
    ensures forall k :: 0 <= k < |tasks| ==>
      && tasks[k].kind == es[k].kind && tasks[k].name == es[k].name
      && tasks[k].State() == LoadStep(es[k].kind, InitialState(es[k].kind, es[k].name, es[k].icon, es[k].labelText), Saved(store.entries, es[k].name)).st
      && LifecycleFacts.Coherent(es[k].kind, tasks[k].State())
  {
    tasks := CreateTasks(es);
    store := new Store(saved);
    Bootstrap(tasks, store);
    forall k | 0 <= k < |tasks|
      ensures LifecycleFacts.Coherent(es[k].kind, LoadStep(es[k].kind, InitialState(es[k].kind, es[k].name, es[k].icon, es[k].labelText), Saved(store.entries, es[k].name)).st)
    {
      LifecycleFacts.RestoreIsCoherent(es[k].kind, es[k].name, es[k].icon, es[k].labelText, Saved(store.entries, es[k].name));
    }
  }

  /** The tasks' names, in order. */
  function NamesOf(tasks: seq<Task>): (r: seq<string>)
    ensures |r| == |tasks| && forall k :: 0 <= k < |tasks| ==> r[k] == tasks[k].name
  {
    seq(|tasks|, k requires 0 <= k < |tasks| => tasks[k].name)
  }

  /** The tasks' states, in order. */
  function StatesOf(tasks: seq<Task>): (r: seq<TaskState>)
    reads tasks
    ensures |r| == |tasks| && forall k :: 0 <= k < |tasks| ==> r[k] == tasks[k].State()
  {
    seq(|tasks|, k requires 0 <= k < |tasks| reads tasks => tasks[k].State())
  }

  /** No name occurs twice in `names`. */
  predicate Unique(names: seq<string>) {
    forall j, k :: 0 <= j < k < |names| ==> names[j] != names[k]
  }

  /**
    The store after the first `n` tasks have sent their notices, one task
    after the other: `steps[k].notices` come from the task called `names[k]`.
   */
  function PersistAll(entries: map<string, Settings>, names: seq<string>, steps: seq<Step>, n: nat): map<string, Settings>
    requires n <= |names| == |steps|
  {
    if n == 0 then entries
    else Persist(PersistAll(entries, names, steps, n - 1), names[n - 1], steps[n - 1].notices)
  }

  /** The number of listener calls, hence of store writes, made by the first `n` steps. */
  function Written(steps: seq<Step>, n: nat): nat
    requires n <= |steps|
  {
    if n == 0 then 0 else Written(steps, n - 1) + |steps[n - 1].notices|
  }

  /** A name that is not among the first `n` tasks' names keeps its saved entry, or its absence. */
  lemma {:induction false} PersistAllElsewhere(entries: map<string, Settings>, names: seq<string>, steps: seq<Step>, n: nat, name: string)
    requires n <= |names| == |steps| && forall k :: 0 <= k < n ==> names[k] != name
    ensures var r := PersistAll(entries, names, steps, n);
      (name in r <==> name in entries) && (name in r ==> r[name] == entries[name])
  {
    if n > 0 {
      PersistAllElsewhere(entries, names, steps, n - 1, name);
    }
  }

  /**
    With pairwise different names, each task's entry ends as if that task
    alone had notified the store: the others write elsewhere.
   */
  lemma {:induction false} PersistAllOwn(entries: map<string, Settings>, names: seq<string>, steps: seq<Step>, n: nat, k: int)
    requires n <= |names| == |steps| && Unique(names) && 0 <= k < n
    ensures var r, p := PersistAll(entries, names, steps, n), Persist(entries, names[k], steps[k].notices);
      (names[k] in r <==> names[k] in p) && (names[k] in r ==> r[names[k]] == p[names[k]])
  {
    if k == n - 1 {
      PersistAllElsewhere(entries, names, steps, n - 1, names[k]);
    } else {
      assert names[n - 1] != names[k];
      PersistAllOwn(entries, names, steps, n - 1, k);
    }
  }

  /**
    A task whose entry held its settings, and whose step `Tracks` them, still
    has its entry hold its settings after every task has notified the store.
   */
  lemma StaysSynced(entries: map<string, Settings>, names: seq<string>, states: seq<TaskState>, steps: seq<Step>)
    requires |names| == |states| == |steps| && Unique(names)
    requires forall k :: 0 <= k < |steps| ==> Tracks(states[k], steps[k])
    ensures forall k :: 0 <= k < |names| && names[k] in entries && entries[names[k]] == states[k].settings ==>
      names[k] in PersistAll(entries, names, steps, |names|) && PersistAll(entries, names, steps, |names|)[names[k]] == steps[k].st.settings
  {
    forall k | 0 <= k < |names| && names[k] in entries && entries[names[k]] == states[k].settings
      ensures names[k] in PersistAll(entries, names, steps, |names|) && PersistAll(entries, names, steps, |names|)[names[k]] == steps[k].st.settings
    {
      PersistAllOwn(entries, names, steps, |names|, k);
    }
  }

  /** `start()` without an override: an active task is left alone, an inactive one goes through `_onStart`. */
  function Started(kind: Kind, st: TaskState): (r: Step)
    ensures Tracks(st, r)
  {
    if st.Active() then Step(st, []) else StartHook(kind, st)
  }

  lemma StartedIsStart(kind: Kind, st: TaskState)
    ensures Started(kind, st) == StartStep(kind, st, None)
  {
  }

  /** What `start()` does to each task of "Start all", from the states before the loop. */
  function StartSteps(tasks: seq<Task>, states: seq<TaskState>): (r: seq<Step>)
    requires |states| == |tasks|
    ensures |r| == |tasks|
  {
    seq(|tasks|, k requires 0 <= k < |tasks| => Started(tasks[k].kind, states[k]))
  }

  /** What `pause()` does to each task of "Pawse all", from the states before the loop. */
  function PauseSteps(tasks: seq<Task>, states: seq<TaskState>): (r: seq<Step>)
    requires |states| == |tasks|
    ensures |r| == |tasks|
  {
    seq(|tasks|, k requires 0 <= k < |tasks| => PauseStep(tasks[k].kind, states[k]))
  }

  /** Tasks with pairwise different names have a list of names without repetition. */
  lemma NamesUnique(tasks: seq<Task>)
    requires Distinct(tasks)
    ensures Unique(NamesOf(tasks))
  {
  }

  /**
    Part way through "Start all" or "Pawse all": the first `i` tasks have
    gone through their steps `goal`, the others still have their `states`,
    and the store holds the notices of the first `i` tasks.
   */
  ghost predicate Progress(tasks: seq<Task>, store: Store, i: nat, before: map<string, Settings>, writes: nat,
                           names: seq<string>, states: seq<TaskState>, goal: seq<Step>)
    reads tasks, store
  {
    i <= |tasks| == |names| == |states| == |goal| && Listening(tasks, store)
    && (forall k :: 0 <= k < i ==> tasks[k].State() == goal[k].st)
    && (forall k :: i <= k < |tasks| ==> tasks[k].State() == states[k])
    && store.entries == PersistAll(before, names, goal, i) && store.writes == writes + Written(goal, i)
  }

  /** The `i`-th call of "Start all": `tasks[i].start()` takes the task through `goal[i]`. */
  method StartNth(tasks: seq<Task>, store: Store, i: nat, ghost before: map<string, Settings>, ghost writes: nat,
                  ghost names: seq<string>, ghost states: seq<TaskState>, ghost goal: seq<Step>)
    requires Distinct(tasks) && Progress(tasks, store, i, before, writes, names, states, goal) && i < |tasks|
    requires names[i] == tasks[i].name && goal[i] == Started(tasks[i].kind, states[i])
    modifies tasks[i], store
    ensures Progress(tasks, store, i + 1, before, writes, names, states, goal)
  {
    assert forall k :: 0 <= k < |tasks| && k != i ==> tasks[k] != tasks[i];
    StartedIsStart(tasks[i].kind, tasks[i].State());
    tasks[i].Start(None);
  }

  /** The loop of "Start all": `start()` on every task in order, from the states `StatesOf(tasks)` had on entry. */
  method StartEach(tasks: seq<Task>, store: Store, ghost names: seq<string>, ghost states: seq<TaskState>, ghost goal: seq<Step>)
    requires Distinct(tasks) && Listening(tasks, store)
    requires names == NamesOf(tasks) && states == StatesOf(tasks) && goal == StartSteps(tasks, states)
    modifies tasks, store
    ensures Listening(tasks, store)
    ensures forall k :: 0 <= k < |tasks| ==> tasks[k].State() == goal[k].st
    ensures store.entries == PersistAll(old(store.entries), names, goal, |tasks|)
    ensures store.writes == old(store.writes) + Written(goal, |tasks|)
  {
    ghost var before, writes0 := store.entries, store.writes;
    var i := 0;
    while i < |tasks|
      invariant Progress(tasks, store, i, before, writes0, names, states, goal)
    {
      StartNth(tasks, store, i, before, writes0, names, states, goal);
      i := i + 1;
    }
  }

  /**
    The "Start all" button: `start()` on every task in order. A task already
    active is left alone. The store ends with every task's notices persisted,
    one write per notice, so a task in step with the store stays so.
   */
  method StartAll(tasks: seq<Task>, store: Store)
    requires Distinct(tasks) && Listening(tasks, store)
    modifies tasks, store
    ensures Listening(tasks, store)
    ensures forall k :: 0 <= k < |tasks| ==> tasks[k].State() == StartStep(tasks[k].kind, old(tasks[k].State()), None).st
    ensures store.entries == PersistAll(old(store.entries), NamesOf(tasks), StartSteps(tasks, old(StatesOf(tasks))), |tasks|)
    ensures store.writes == old(store.writes) + Written(StartSteps(tasks, old(StatesOf(tasks))), |tasks|)
    ensures forall k :: 0 <= k < |tasks| && old(tasks[k].Synced()) ==> tasks[k].Synced()
  {
    ghost var before := store.entries;
    ghost var names := NamesOf(tasks);
    ghost var states := StatesOf(tasks);
    ghost var goal := StartSteps(tasks, states);
    StartEach(tasks, store, names, states, goal);
    NamesUnique(tasks);
    assert forall k :: 0 <= k < |tasks| ==> Tracks(states[k], goal[k]);
    StaysSynced(before, names, states, goal);
    forall k | 0 <= k < |tasks|
      ensures tasks[k].State() == StartStep(tasks[k].kind, states[k], None).st
    {
      StartedIsStart(tasks[k].kind, states[k]);
    }
  }

  /** The `i`-th call of "Pawse all": `tasks[i].pause()` takes the task through `goal[i]`. */
  method PauseNth(tasks: seq<Task>, store: Store, i: nat, ghost before: map<string, Settings>, ghost writes: nat,
                  ghost names: seq<string>, ghost states: seq<TaskState>, ghost goal: seq<Step>)
    requires Distinct(tasks) && Progress(tasks, store, i, before, writes, names, states, goal) && i < |tasks|
    requires names[i] == tasks[i].name && goal[i] == PauseStep(tasks[i].kind, states[i])
    modifies tasks[i], store
    ensures Progress(tasks, store, i + 1, before, writes, names, states, goal)
  {
    assert forall k :: 0 <= k < |tasks| && k != i ==> tasks[k] != tasks[i];
    tasks[i].Pause();
  }

  /** The loop of "Pawse all": `pause()` on every task in order, from the states `StatesOf(tasks)` had on entry. */
  method PauseEach(tasks: seq<Task>, store: Store, ghost names: seq<string>, ghost states: seq<TaskState>, ghost goal: seq<Step>)
    requires Distinct(tasks) && Listening(tasks, store)
    requires names == NamesOf(tasks) && states == StatesOf(tasks) && goal == PauseSteps(tasks, states)
    modifies tasks, store
    ensures Listening(tasks, store)
    ensures forall k :: 0 <= k < |tasks| ==> tasks[k].State() == goal[k].st
    ensures store.entries == PersistAll(old(store.entries), names, goal, |tasks|)
    ensures store.writes == old(store.writes) + Written(goal, |tasks|)
  {
    ghost var before, writes0 := store.entries, store.writes;
    var i := 0;
    while i < |tasks|
      invariant Progress(tasks, store, i, before, writes0, names, states, goal)
    {
      PauseNth(tasks, store, i, before, writes0, names, states, goal);
      i := i + 1;
    }
  }

  /**
    The "Pawse all" button: `pause()` on every task in order. A task already
    inactive is left alone. The store ends with every task's notices persisted,
    one write per notice, so a task in step with the store stays so.
   */
  method PauseAll(tasks: seq<Task>, store: Store)
    requires Distinct(tasks) && Listening(tasks, store)
    modifies tasks, store
    ensures Listening(tasks, store)
    ensures forall k :: 0 <= k < |tasks| ==> tasks[k].State() == PauseStep(tasks[k].kind, old(tasks[k].State())).st
    ensures store.entries == PersistAll(old(store.entries), NamesOf(tasks), PauseSteps(tasks, old(StatesOf(tasks))), |tasks|)
    ensures store.writes == old(store.writes) + Written(PauseSteps(tasks, old(StatesOf(tasks))), |tasks|)
    ensures forall k :: 0 <= k < |tasks| && old(tasks[k].Synced()) ==> tasks[k].Synced()
  {
    ghost var before := store.entries;
    ghost var names := NamesOf(tasks);
    ghost var states := StatesOf(tasks);
    ghost var goal := PauseSteps(tasks, states);
    PauseEach(tasks, store, names, states, goal);
    NamesUnique(tasks);
    assert forall k :: 0 <= k < |tasks| ==> Tracks(states[k], goal[k]);
    StaysSynced(before, names, states, goal);
  }
}
