/**
  The service over a cache with a byte budget: every run of it is a run of the state machine, in
  which the evictions are those that the budget asks for.
 */
module BoundedService {
  import opened Records
  import opened VersionService
  import opened Runs
  import opened Recency
  import opened RecencyTheorems

  /** The service and the recency list of its cache. */
  datatype Bounded = Bounded(machine: State, items: seq<Item>)

  /** A step of the service other than an eviction, or the Gets of a scheduler's sweep. */
  datatype BoundedStep = Serve(step: Step) | Sweep(keys: seq<string>)

  predicate BoundedEnabled(env: Env, b: Bounded, step: BoundedStep) {
    step.Serve? ==> !step.step.Evict? && Enabled(env, b.machine, step.step)
  }

  /** What a step does to the cache. */
  function ItemsAfter(env: Env, b: Bounded, step: BoundedStep, budget: nat): seq<Item>
    requires BoundedEnabled(env, b, step)
  {
    var s := b.machine;
    match step
    case Sweep(keys) => TouchAll(b.items, keys)
    case Serve(OfCaller(id, CacheLookup)) => Touch(b.items, s.callers[id].key)
    case Serve(OfCall(id, LookupRecord)) => Touch(b.items, s.calls[id].key)
    case Serve(OfCall(id, Store)) => Put(b.items, s.calls[id].key, s.calls[id].phase.record, budget)
    case Serve(OfRefresher(id, LoadRecord)) => Touch(b.items, s.refreshers[id].key)
    case Serve(OfRefresher(id, Save)) =>
      Put(b.items, s.refreshers[id].key, s.refreshers[id].phase.outcome.record, budget)
    case _ => b.items
  }

  /** What a step makes of the recency order: a lookup, and every Get of a sweep in turn, moves the item of a
      cached key to the front; a write puts its record there and drops no more from the end than it has to. */
  lemma {:induction false} StepsTouchAndTrim(env: Env, b: Bounded, step: Step, budget: nat)
    requires BoundedEnabled(env, b, Serve(step)) && Distinct(b.items)
    ensures var after := ItemsAfter(env, b, Serve(step), budget);
            && (Looks(b.machine, step).Some? ==>
                  var key := Looks(b.machine, step).value;
                  match Find(b.items, key)
                  case Some(record) => after == [Item(key, record)] + Without(b.items, key)
                  case None => after == b.items)
            && (Writes(b.machine, step).Some? && Writes(b.machine, step).value.0 != "" ==>
                  var (key, record) := Writes(b.machine, step).value;
                  var order := [Item(key, record)] + Without(b.items, key);
                  && after <= order && Total(after) <= budget
                  && forall n :: |after| < n <= |order| ==> Total(order[..n]) > budget)
  {
    hide Find, Without, Trim;
    if Writes(b.machine, step).Some? && Writes(b.machine, step).value.0 != "" {
      var (key, record) := Writes(b.machine, step).value;
      PutIsLongestFit(b.items, key, record, budget);
    }
  }

  /** The key that a step looks up in the cache. */
  function Looks(s: State, step: Step): Option<string> {
    match step
    case OfCaller(id, CacheLookup) => if id in s.callers then Some(s.callers[id].key) else None
    case OfCall(id, LookupRecord) => if id in s.calls then Some(s.calls[id].key) else None
    case OfRefresher(id, LoadRecord) => if id in s.refreshers then Some(s.refreshers[id].key) else None
    case _ => None
  }

  /** The key and the record that a step writes to the cache. */
  function Writes(s: State, step: Step): Option<(string, Record)> {
    match step
    case OfCall(id, Store) =>
      if id in s.calls && s.calls[id].phase.Storing? then Some((s.calls[id].key, s.calls[id].phase.record)) else None
    case OfRefresher(id, Save) =>
      if id in s.refreshers && s.refreshers[id].phase.Saving? && !s.refreshers[id].phase.outcome.Failed?
      then Some((s.refreshers[id].key, s.refreshers[id].phase.outcome.record)) else None
    case _ => None
  }

  /** A step and the evictions that it causes. */
  function BoundedNext(env: Env, b: Bounded, step: BoundedStep, budget: nat): Bounded
    requires BoundedEnabled(env, b, step)
  {
    var items := ItemsAfter(env, b, step, budget);
    var served := if step.Serve? then Next(env, b.machine, step.step) else b.machine;
    Bounded(Next(env, served, Evict(served.store.Keys - View(items).Keys)), items)
  }

  function BoundedExecute(env: Env, init: State, run: seq<BoundedStep>, budget: nat): Option<Bounded> {
    if run == [] then
      Some(Bounded(init, []))
    else
      match BoundedExecute(env, init, run[..|run| - 1], budget)
      case Some(before) =>
        if BoundedEnabled(env, before, run[|run| - 1]) then Some(BoundedNext(env, before, run[|run| - 1], budget))
        else None
      case None => None
  }

  // ---------------------------------------------------------------- what a step does to the store

  /** The list is a cache within its budget, and the store is its key-value view. */
  ghost predicate Agrees(items: seq<Item>, store: map<string, Record>, budget: nat) {
    Distinct(items) && Total(items) <= budget && NoEmptyKey(items) && store == View(items)
  }

  predicate NoEmptyKey(items: seq<Item>) {
    forall item <- items :: item.key != ""
  }

  lemma {:induction false} FrontNotEmpty(items: seq<Item>, key: string, record: Record, budget: nat)
    requires Distinct(items) && NoEmptyKey(items)
    ensures Find(items, "") == None
    ensures NoEmptyKey(Touch(items, key)) && NoEmptyKey(Put(items, key, record, budget))
  {
    hide Distinct;
    FindMember(items, key);
    FindMember(items, "");
    WithoutMembers(items, key);
    TrimIsLongestFit([Item(key, record)] + Without(items, key), budget);
  }

  lemma {:induction false} WriteAgrees(
    items: seq<Item>, store: map<string, Record>, key: string, record: Record, budget: nat)
    requires Agrees(items, store, budget)
    ensures var items' := Put(items, key, record, budget);
            var written := store[key := record];
            Agrees(items', written - (written.Keys - View(items').Keys), budget)
  {
    hide View, NoEmptyKey, Find, Without;
    FrontNotEmpty(items, key, record, budget);
    if key == "" {
      ViewAt(items, "");
      assert store[key := record] - {key} == store;
    } else {
      PutIsLongestFit(items, key, record, budget);
      CacheRefinesStore(items, key, record, budget);
    }
  }

  lemma {:induction false} TouchAgrees(items: seq<Item>, store: map<string, Record>, key: string, budget: nat)
    requires Agrees(items, store, budget)
    ensures Agrees(Touch(items, key), store, budget)
  {
    hide View, NoEmptyKey, Find, Without;
    var any := Record([], "", "", 0, 0, 0, 0, 0);
    FrontNotEmpty(items, key, any, budget);
    TouchDistinct(items, key);
    TouchTotal(items, key);
    TouchKeepsView(items, key);
  }

  lemma {:induction false} TouchKeepsView(items: seq<Item>, key: string)
    requires Distinct(items)
    ensures View(Touch(items, key)) == View(items)
  {
    FindMember(items, key);
    match Find(items, key)
    case Some(record) =>
      ViewOfFront(items, key, record);
      ViewAt(items, key);
    case None =>
  }

  lemma {:induction false} SweepAgrees(items: seq<Item>, store: map<string, Record>, keys: seq<string>, budget: nat)
    requires Agrees(items, store, budget)
    ensures Agrees(TouchAll(items, keys), store, budget)
  {
    hide Agrees, Touch;
    if keys != [] {
      SweepAgrees(items, store, keys[..|keys| - 1], budget);
      TouchAgrees(TouchAll(items, keys[..|keys| - 1]), store, keys[|keys| - 1], budget);
    }
  }

  /** Evicting what the list does not hold. */
  function Fitted(store: map<string, Record>, items: seq<Item>): map<string, Record> {
    store - (store.Keys - View(items).Keys)
  }

  lemma NothingToEvict(items: seq<Item>, store: map<string, Record>, budget: nat)
    requires Agrees(items, store, budget)
    ensures Fitted(store, items) == store
  {
  }

  lemma {:induction false} ServeAgrees(env: Env, b: Bounded, step: Step, budget: nat)
    requires BoundedEnabled(env, b, Serve(step)) && Agrees(b.items, b.machine.store, budget)
    ensures var items := ItemsAfter(env, b, Serve(step), budget);
            Agrees(items, Fitted(Next(env, b.machine, step).store, items), budget)
  {
    hide Agrees, View, Put, Touch, TouchAll, CallNext, CallCount, CallActivity, RefreshNext, RefreshCount,
         CallerNext, Target, ArriveNext;
    var s, items := b.machine, b.items;
    match step {
      case OfCall(id, op) =>
        if op.Store? {
          WriteAgrees(items, s.store, s.calls[id].key, s.calls[id].phase.record, budget);
        } else {
          TouchAgrees(items, s.store, s.calls[id].key, budget);
          NothingToEvict(ItemsAfter(env, b, Serve(step), budget), s.store, budget);
        }
      case OfRefresher(id, op) =>
        if op.Save? {
          WriteAgrees(items, s.store, s.refreshers[id].key, s.refreshers[id].phase.outcome.record, budget);
        } else {
          TouchAgrees(items, s.store, s.refreshers[id].key, budget);
          NothingToEvict(ItemsAfter(env, b, Serve(step), budget), s.store, budget);
        }
      case OfCaller(id, op) =>
        TouchAgrees(items, s.store, s.callers[id].key, budget);
        NothingToEvict(ItemsAfter(env, b, Serve(step), budget), s.store, budget);
      case _ => NothingToEvict(items, s.store, budget);
    }
  }

  lemma {:induction false} StepAgrees(env: Env, b: Bounded, step: BoundedStep, budget: nat)
    requires BoundedEnabled(env, b, step) && Agrees(b.items, b.machine.store, budget)
    ensures var next := BoundedNext(env, b, step, budget); Agrees(next.items, next.machine.store, budget)
  {
    hide Agrees, View, CallEffect, CallerEffect, RefreshEffect, StartEffect, CallEnabled, CallerEnabled, RefreshEnabled;
    var items := ItemsAfter(env, b, step, budget);
    match step {
      case Serve(step') => ServeAgrees(env, b, step', budget);
      case Sweep(keys) =>
        SweepAgrees(b.items, b.machine.store, keys, budget);
        NothingToEvict(items, b.machine.store, budget);
    }
  }

  /** Every run of the service over a bounded cache is a run of the state machine, so all theorems
      about its runs hold for every budget; its store is always the view of a recency list within the
      budget, and a Get of the cache answers what a lookup in the store does. */
  lemma {:induction false} BoundedRunsAreRuns(env: Env, init: State, run: seq<BoundedStep>, budget: nat, b: Bounded)
    returns (machineRun: seq<Step>)
    requires Initial(init) && BoundedExecute(env, init, run, budget) == Some(b)
    ensures Reaches(env, init, machineRun, b.machine)
    ensures Distinct(b.items) && Total(b.items) <= budget && b.machine.store == View(b.items)
    ensures forall key :: Lookup(b.machine, key) == Find(b.items, key)
  {
    machineRun := BoundedRun(env, init, run, budget, b);
    forall key ensures Lookup(b.machine, key) == Find(b.items, key) {
      ViewAt(b.items, key);
    }
  }

  lemma {:induction false} BoundedRun(env: Env, init: State, run: seq<BoundedStep>, budget: nat, b: Bounded)
    returns (machineRun: seq<Step>)
    requires Initial(init) && BoundedExecute(env, init, run, budget) == Some(b)
    ensures Execute(env, init, machineRun) == Some(b.machine) && Agrees(b.items, b.machine.store, budget)
  {
    hide Agrees, Execute, ItemsAfter, Next, View;
    if run == [] {
      machineRun := [];
      EmptyAgrees(env, init, budget);
    } else {
      var before, step := BoundedExecute(env, init, run[..|run| - 1], budget).value, run[|run| - 1];
      machineRun := BoundedRun(env, init, run[..|run| - 1], budget, before);
      StepAgrees(env, before, step, budget);
      var served := before.machine;
      if step.Serve? {
        Append(env, init, machineRun, served, step.step);
        machineRun, served := machineRun + [step.step], Next(env, served, step.step);
      }
      var evict := Evict(served.store.Keys - View(b.items).Keys);
      Append(env, init, machineRun, served, evict);
      machineRun := machineRun + [evict];
    }
  }

  lemma EmptyAgrees(env: Env, init: State, budget: nat)
    requires Initial(init)
    ensures Execute(env, init, []) == Some(init) && Agrees([], init.store, budget)
  {
  }
}
