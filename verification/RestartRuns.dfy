/** Runs of hooks and actions: no restart that a changed file calls for is ever lost. */
module RestartRuns {
  import opened DeferredRestarts

  datatype Step =
    /** A successful hook, with restarts permitted or not at that time. */
    | Hook(now: int, rm: RestartMap, before: Files, after: Files, permitted: bool)
    /** A restart action that ends well. */
    | Action(services: set<string>)
    /** The same, for all services with a deferred restart. */
    | DeferredAction
    /** A restart action that ends in an error after it has restarted these services. */
    | FailedAction(services: set<string>)
    /** A restart the charm asks for directly. */
    | Deferrable(now: int, service: string, reason: string, permitted: bool)
    /** An event file written on behalf of a package, whatever it says. */
    | Package(event: Event)

  /**
   * The event files; which of them the charm has recorded; the services with a watched file that has changed since
   * their last restart; and the services for which something was put off since the last restart that clears events.
   */
  datatype System = System(dir: Dir, recorded: set<nat>, pending: set<string>, deferred: set<string>)

  function NewIds(dir: Dir, dir': Dir): set<nat>
  {
    set id | id in dir'.files && dir.nextId <= id
  }

  /** The services that changed files name. */
  function Touched(rm: RestartMap, before: Files, after: Files): set<string>
  {
    set i, s | 0 <= i < |rm| && Differs(before, after, rm[i].0) && s in rm[i].1 :: s
  }

  lemma TouchedIsAffected(rm: RestartMap, before: Files, after: Files)
    ensures Touched(rm, before, after) == AsSet(Affected(rm, before, after))
  {
    forall s
      ensures s in Touched(rm, before, after) <==> s in Affected(rm, before, after)
    {
      AffectedMeaning(rm, before, after, s);
    }
  }

  ghost function AfterStep(app: string, sys: System, step: Step): System
  {
    match step
    case Hook(now, rm, before, after, permitted) =>
      var services := Affected(rm, before, after);
      var dir := AfterServices(app, now, permitted, sys.dir, services, rm, before, after);
      var touched := Touched(rm, before, after);
      if permitted then
        System(dir, sys.recorded, sys.pending + touched - AsSet(services), sys.deferred - AsSet(services))
      else System(dir, sys.recorded + NewIds(sys.dir, dir), sys.pending + touched, sys.deferred + touched)
    case Action(services) =>
      System(Cleared(sys.dir, services), sys.recorded, sys.pending - services, sys.deferred - services)
    case DeferredAction =>
      var services := DeferredServices(app, sys.dir.files);
      System(Cleared(sys.dir, services), sys.recorded, sys.pending - services, sys.deferred - services)
    case FailedAction(services) => sys.(pending := sys.pending - services)
    case Deferrable(now, service, reason, permitted) =>
      if permitted then sys.(pending := sys.pending - {service})
      else
        var dir := Saved(app, sys.dir, Event(now, service, RESTART, reason, app, CHARM));
        System(dir, sys.recorded + NewIds(sys.dir, dir), sys.pending, sys.deferred + {service})
    case Package(e) =>
      System(Dir(sys.dir.files[sys.dir.nextId := e], sys.dir.nextId + 1), sys.recorded, sys.pending,
        sys.deferred + {e.service})
  }

  ghost function AfterRun(app: string, steps: seq<Step>): System
  {
    if steps == [] then System(Dir(map[], 0), {}, {}, {})
    else AfterStep(app, AfterRun(app, steps[..|steps| - 1]), steps[|steps| - 1])
  }

  // ----- The invariant -----

  /** An outstanding restart event of this application for the service. */
  predicate Outstanding(app: string, dir: Dir, service: string)
  {
    exists id :: id in dir.files && dir.files[id].requestorName == app &&
      dir.files[id].action == "restart" && dir.files[id].service == service
  }

  predicate HasEvent(dir: Dir, service: string)
  {
    exists id :: id in dir.files && dir.files[id].service == service
  }

  ghost predicate NoTwins(app: string, dir: Dir, recorded: set<nat>)
  {
    && (forall i :: i in recorded && i in dir.files ==> dir.files[i].requestorName == app)
    && (forall i, j :: i in recorded && j in recorded && i in dir.files && j in dir.files && i != j ==>
         !Matching(dir.files[i], dir.files[j]))
  }

  ghost predicate IdsOk(dir: Dir, recorded: set<nat>)
  {
    && (forall id :: id in dir.files ==> id < dir.nextId)
    && (forall id :: id in recorded ==> id < dir.nextId)
  }

  ghost predicate Inv(app: string, sys: System)
  {
    && (forall s :: s in sys.pending ==> Outstanding(app, sys.dir, s))
    && (forall s :: s in sys.deferred <==> HasEvent(sys.dir, s))
    && NoTwins(app, sys.dir, sys.recorded)
    && IdsOk(sys.dir, sys.recorded)
  }

  // ----- Recording -----

  /** What is kept and gained when the charm records one event. */
  lemma SavedFacts(app: string, dir: Dir, recorded: set<nat>, e: Event, s: string)
    requires NoTwins(app, dir, recorded) && IdsOk(dir, recorded) && e.action == RESTART
    ensures var dir' := Saved(app, dir, e);
      && dir.nextId <= dir'.nextId
      && NoTwins(app, dir', recorded + NewIds(dir, dir')) && IdsOk(dir', recorded + NewIds(dir, dir'))
      && (Outstanding(app, dir', s) <==> Outstanding(app, dir, s) || s == e.service)
      && (HasEvent(dir', s) <==> HasEvent(dir, s) || s == e.service)
  {
    var dir' := Saved(app, dir, e);
    if HasDuplicate(app, dir.files, e) {
      assert NewIds(dir, dir') == {};
      assert recorded + NewIds(dir, dir') == recorded;
    } else {
      var added := dir'.files[dir.nextId];
      assert dir.nextId in dir'.files && added.requestorName == app;
      assert forall id :: id in dir.files ==> id in dir'.files && dir'.files[id] == dir.files[id];
      forall i | i in recorded && i in dir.files
        ensures !Matching(dir.files[i], added) && !Matching(added, dir.files[i])
      {
        assert dir.files[i].requestorName == app;
      }
    }
  }

  lemma {:induction false} DeferringRecords(app: string, now: int, dir: Dir, recorded: set<nat>, services: seq<string>,
                                            rm: RestartMap, before: Files, after: Files, s: string)
    requires NoTwins(app, dir, recorded) && IdsOk(dir, recorded)
    ensures var dir' := AfterServices(app, now, false, dir, services, rm, before, after);
      && dir.nextId <= dir'.nextId
      && NoTwins(app, dir', recorded + NewIds(dir, dir')) && IdsOk(dir', recorded + NewIds(dir, dir'))
      && (Outstanding(app, dir', s) <==> Outstanding(app, dir, s) || s in services)
      && (HasEvent(dir', s) <==> HasEvent(dir, s) || s in services)
  {
    hide Outstanding, HasEvent, NoTwins, Saved, Request;
    if services == [] {
      assert recorded + NewIds(dir, dir) == recorded;
    } else {
      var init, last := services[..|services| - 1], services[|services| - 1];
      assert services == init + [last];
      DeferringRecords(app, now, dir, recorded, init, rm, before, after, s);
      var mid := AfterServices(app, now, false, dir, init, rm, before, after);
      var e := Request(app, now, last, ChangedFor(rm, before, after, last));
      RequestIsRestart(app, now, last, ChangedFor(rm, before, after, last));
      SavedFacts(app, mid, recorded + NewIds(dir, mid), e, s);
      var dir' := Saved(app, mid, e);
      SavedKeepsFiles(app, mid, e);
      assert recorded + NewIds(dir, mid) + NewIds(mid, dir') == recorded + NewIds(dir, dir');
    }
  }

  lemma RequestIsRestart(app: string, now: int, service: string, paths: set<string>)
    ensures Request(app, now, service, paths).action == RESTART && Request(app, now, service, paths).service == service
  {
  }

  lemma SavedKeepsFiles(app: string, dir: Dir, e: Event)
    ensures var dir' := Saved(app, dir, e);
      forall id :: id in dir'.files <==> id in dir.files || (id in dir'.files && id == dir.nextId)
  {
  }

  lemma {:induction false} PermittedClears(app: string, now: int, dir: Dir, services: seq<string>,
                                           rm: RestartMap, before: Files, after: Files)
    ensures AfterServices(app, now, true, dir, services, rm, before, after) == Cleared(dir, AsSet(services))
  {
    if services != [] {
      var init, last := services[..|services| - 1], services[|services| - 1];
      PermittedClears(app, now, dir, init, rm, before, after);
      assert services == init + [last];
      assert AsSet(services) == AsSet(init) + {last};
    }
  }

  // ----- Clearing -----

  /** Clearing takes the events of the given services and no others. */
  lemma ClearedFacts(app: string, dir: Dir, services: set<string>, s: string)
    ensures Outstanding(app, Cleared(dir, services), s) <==> Outstanding(app, dir, s) && s !in services
    ensures HasEvent(Cleared(dir, services), s) <==> HasEvent(dir, s) && s !in services
  {
    var dir' := Cleared(dir, services);
    if Outstanding(app, dir, s) && s !in services {
      var id :| id in dir.files && dir.files[id].requestorName == app &&
        dir.files[id].action == RESTART && dir.files[id].service == s;
      assert id in dir'.files;
    }
    if HasEvent(dir, s) && s !in services {
      var id :| id in dir.files && dir.files[id].service == s;
      assert id in dir'.files;
    }
  }

  lemma ClearingKeepsInv(app: string, sys: System, services: set<string>)
    requires Inv(app, sys)
    ensures Inv(app, System(Cleared(sys.dir, services), sys.recorded, sys.pending - services, sys.deferred - services))
  {
    forall s
      ensures Outstanding(app, Cleared(sys.dir, services), s) <==> Outstanding(app, sys.dir, s) && s !in services
      ensures HasEvent(Cleared(sys.dir, services), s) <==> HasEvent(sys.dir, s) && s !in services
    {
      ClearedFacts(app, sys.dir, services, s);
    }
  }

  lemma DeferringKeepsInv(app: string, sys: System, step: Step)
    requires Inv(app, sys) && step.Hook? && !step.permitted
    ensures Inv(app, AfterStep(app, sys, step))
  {
    hide Outstanding, HasEvent, NoTwins, AfterServices, Affected;
    var services := Affected(step.rm, step.before, step.after);
    var sys' := AfterStep(app, sys, step);
    TouchedIsAffected(step.rm, step.before, step.after);
    DeferringRecords(app, step.now, sys.dir, sys.recorded, services, step.rm, step.before, step.after, "");
    forall s
      ensures s in sys'.pending ==> Outstanding(app, sys'.dir, s)
      ensures s in sys'.deferred <==> HasEvent(sys'.dir, s)
    {
      DeferringRecords(app, step.now, sys.dir, sys.recorded, services, step.rm, step.before, step.after, s);
    }
  }

  lemma PackageKeepsInv(app: string, sys: System, e: Event)
    requires Inv(app, sys)
    ensures Inv(app, AfterStep(app, sys, Package(e)))
  {
    var sys' := AfterStep(app, sys, Package(e));
    assert sys'.dir.files[sys.dir.nextId] == e;
    assert forall id :: id in sys.dir.files ==> id in sys'.dir.files && sys'.dir.files[id] == sys.dir.files[id];
    forall s | s in sys.pending
      ensures Outstanding(app, sys'.dir, s)
    {
      var id :| id in sys.dir.files && sys.dir.files[id].requestorName == app &&
        sys.dir.files[id].action == RESTART && sys.dir.files[id].service == s;
      assert id in sys'.dir.files;
    }
    forall s
      ensures s in sys'.deferred <==> HasEvent(sys'.dir, s)
    {
      assert HasEvent(sys'.dir, s) <==> HasEvent(sys.dir, s) || s == e.service;
    }
  }

  lemma DeferrableKeepsInv(app: string, sys: System, step: Step)
    requires Inv(app, sys) && step.Deferrable?
    ensures Inv(app, AfterStep(app, sys, step))
  {
    hide Outstanding, HasEvent, NoTwins, Saved;
    if !step.permitted {
      var e := Event(step.now, step.service, RESTART, step.reason, app, CHARM);
      var sys' := AfterStep(app, sys, step);
      SavedFacts(app, sys.dir, sys.recorded, e, "");
      forall s
        ensures s in sys'.pending ==> Outstanding(app, sys'.dir, s)
        ensures s in sys'.deferred <==> HasEvent(sys'.dir, s)
      {
        SavedFacts(app, sys.dir, sys.recorded, e, s);
      }
    }
  }

  lemma FailingKeepsInv(app: string, sys: System, services: set<string>)
    requires Inv(app, sys)
    ensures Inv(app, sys.(pending := sys.pending - services))
  {
  }

  lemma StepKeepsInv(app: string, sys: System, step: Step)
    requires Inv(app, sys)
    ensures Inv(app, AfterStep(app, sys, step))
  {
    hide Inv;
    match step
    case Hook(now, rm, before, after, permitted) =>
      if permitted {
        var services := Affected(rm, before, after);
        PermittedClears(app, now, sys.dir, services, rm, before, after);
        ClearingKeepsInv(app, sys, AsSet(services));
        TouchedIsAffected(rm, before, after);
        assert sys.pending + Touched(rm, before, after) - AsSet(services) == sys.pending - AsSet(services);
      } else {
        DeferringKeepsInv(app, sys, step);
      }
    case Action(services) =>
      ClearingKeepsInv(app, sys, services);
    case DeferredAction =>
      ClearingKeepsInv(app, sys, DeferredServices(app, sys.dir.files));
    case FailedAction(services) =>
      FailingKeepsInv(app, sys, services);
    case Deferrable(_, _, _, _) =>
      DeferrableKeepsInv(app, sys, step);
    case Package(e) =>
      PackageKeepsInv(app, sys, e);
  }

  lemma {:induction false} RunKeepsInv(app: string, steps: seq<Step>)
    ensures Inv(app, AfterRun(app, steps))
  {
    hide AfterStep;
    if steps != [] {
      RunKeepsInv(app, steps[..|steps| - 1]);
      StepKeepsInv(app, AfterRun(app, steps[..|steps| - 1]), steps[|steps| - 1]);
    }
  }

  // ----- Main results -----

  /**
   * At every point of every run, a service with a watched file that has changed since its last restart has an
   * outstanding restart event, and exactly the services with something put off have event files.
   */
  lemma NoLostRestart(app: string, steps: seq<Step>, service: string)
    ensures var sys := AfterRun(app, steps);
      && (service in sys.pending ==> Outstanding(app, sys.dir, service))
      && (service in sys.deferred <==> HasEvent(sys.dir, service))
  {
    RunKeepsInv(app, steps);
  }

  /** No two events that the charm has recorded ask for the same thing. */
  lemma NoDuplicateRequests(app: string, steps: seq<Step>, i: nat, j: nat)
    requires var sys := AfterRun(app, steps);
      i in sys.recorded && j in sys.recorded && i in sys.dir.files && j in sys.dir.files && i != j
    ensures var files := AfterRun(app, steps).dir.files;
      files[i].service != files[j].service || files[i].action != files[j].action || files[i].reason != files[j].reason
  {
    RunKeepsInv(app, steps);
  }

  /** The services that a step restarts. */
  ghost function RestartedBy(app: string, sys: System, step: Step): set<string>
  {
    match step
    case Hook(_, rm, before, after, permitted) => if permitted then AsSet(Affected(rm, before, after)) else {}
    case Action(services) => services
    case DeferredAction => DeferredServices(app, sys.dir.files)
    case FailedAction(services) => services
    case Deferrable(_, service, _, permitted) => if permitted then {service} else {}
    case Package(_) => {}
  }

  /** Hooks and successful actions clear the events of what they restart. */
  predicate Clears(step: Step)
  {
    (step.Hook? && step.permitted) || step.Action? || step.DeferredAction?
  }

  /** A restart by a hook or an action leaves its services without any event, and all other events in place. */
  lemma RestartClears(app: string, sys: System, step: Step, id: nat)
    requires Clears(step)
    ensures var sys' := AfterStep(app, sys, step);
      (id in sys'.dir.files <==> id in sys.dir.files && sys.dir.files[id].service !in RestartedBy(app, sys, step)) &&
      (id in sys'.dir.files ==> sys'.dir.files[id] == sys.dir.files[id])
  {
    if step.Hook? {
      PermittedClears(app, step.now, sys.dir, Affected(step.rm, step.before, step.after), step.rm, step.before,
        step.after);
    }
  }

  /**
   * After any run, a step that restarts a service leaves it without an event if and only if the step is a hook or a
   * successful action, or nothing had been put off for the service. A direct restart and a failed action do not.
   */
  lemma RestartLeavesNoEvent(app: string, steps: seq<Step>, step: Step, service: string)
    requires service in RestartedBy(app, AfterRun(app, steps), step)
    ensures var sys, sys' := AfterRun(app, steps), AfterRun(app, steps + [step]);
      && service !in sys'.pending
      && (!HasEvent(sys'.dir, service) <==> Clears(step) || service !in sys.deferred)
  {
    var sys := AfterRun(app, steps);
    assert (steps + [step])[..|steps|] == steps;
    var sys' := AfterRun(app, steps + [step]);
    assert sys' == AfterStep(app, sys, step);
    RunKeepsInv(app, steps);
    RunKeepsInv(app, steps + [step]);
    assert service in sys'.deferred <==> HasEvent(sys'.dir, service);
    assert service in sys.deferred <==> HasEvent(sys.dir, service);
  }

  /** A hook restarts every service that a changed file names, or leaves a restart event for it if it must not. */
  lemma HookMissesNothing(app: string, steps: seq<Step>, step: Step, service: string)
    requires step.Hook? && Touches(step.rm, step.before, step.after, service)
    ensures var sys, sys' := AfterRun(app, steps), AfterRun(app, steps + [step]);
      if step.permitted then service in RestartedBy(app, sys, step) && !HasEvent(sys'.dir, service)
      else Outstanding(app, sys'.dir, service)
  {
    var sys := AfterRun(app, steps);
    assert (steps + [step])[..|steps|] == steps;
    AffectedMeaning(step.rm, step.before, step.after, service);
    if step.permitted {
      RestartLeavesNoEvent(app, steps, step, service);
    } else {
      NoLostRestart(app, steps + [step], service);
    }
  }

  /** It restarts nothing else, and neither clears nor records an event of another service. */
  lemma HookTouchesNothingElse(app: string, steps: seq<Step>, step: Step, service: string)
    requires step.Hook? && !Touches(step.rm, step.before, step.after, service)
    ensures var sys, sys' := AfterRun(app, steps), AfterRun(app, steps + [step]);
      service !in RestartedBy(app, sys, step) && (HasEvent(sys'.dir, service) <==> HasEvent(sys.dir, service))
  {
    assert (steps + [step])[..|steps|] == steps;
    var sys, services := AfterRun(app, steps), Affected(step.rm, step.before, step.after);
    AffectedMeaning(step.rm, step.before, step.after, service);
    RunKeepsInv(app, steps);
    hide HasEvent, NoTwins, IdsOk;
    if step.permitted {
      PermittedClears(app, step.now, sys.dir, services, step.rm, step.before, step.after);
      ClearedFacts(app, sys.dir, AsSet(services), service);
    } else {
      DeferringRecords(app, step.now, sys.dir, sys.recorded, services, step.rm, step.before, step.after, service);
    }
  }

  /**
   * After the restart action for deferred services nothing is pending: every service whose file has changed has been
   * restarted.
   */
  lemma DeferredActionSettlesAll(app: string, steps: seq<Step>)
    ensures AfterRun(app, steps + [DeferredAction]).pending == {}
  {
    var sys := AfterRun(app, steps);
    assert (steps + [DeferredAction])[..|steps|] == steps;
    RunKeepsInv(app, steps);
    forall s | s in sys.pending
      ensures s in DeferredServices(app, sys.dir.files)
    {
      assert Outstanding(app, sys.dir, s);
    }
  }
}
