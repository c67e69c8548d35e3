/**
 * Service restarts that a changed file calls for are carried out, or, while automatic restarts are switched off,
 * recorded as event files until an action or a later hook restarts the service.
 */
module DeferredRestarts {
  import opened Lists
  import opened Wrappers
  import opened Names

  datatype Event = Event(timestamp: int, service: string, action: string, reason: string,
                         requestorName: string, requestorType: string)

  /** The directory of event files; each new file gets a name never used before. */
  datatype Dir = Dir(files: map<nat, Event>, nextId: nat)

  /** Content tags of the watched files; a missing file has none. */
  type Files = map<string, int>

  /** {file: [service, ...]} in the order of the dictionary. */
  type RestartMap = seq<(string, seq<string>)>

  const RESTART := "restart"
  const CHARM := "charm"

  function PathHash(files: Files, path: string): Option<int>
  {
    if path in files then Some(files[path]) else None
  }

  predicate Matching(a: Event, b: Event)
  {
    a.service == b.service && a.action == b.action && a.reason == b.reason
  }

  // ----- The directory -----

  predicate HasDuplicate(app: string, files: map<nat, Event>, e: Event)
  {
    exists id :: id in files && files[id].requestorName == app && Matching(e, files[id])
  }

  function Saved(app: string, dir: Dir, e: Event): Dir
  {
    if HasDuplicate(app, dir.files, e) then dir
    else Dir(dir.files[dir.nextId := e.(requestorName := app, requestorType := CHARM)], dir.nextId + 1)
  }

  /** The file asks for this again: the same application, service, action and reason, whenever it was written. */
  predicate AsksAgain(app: string, known: Event, e: Event)
  {
    known.requestorName == app && known.service == e.service && known.action == e.action && known.reason == e.reason
  }

  /**
   * Unless some file asks for the same already, there is one file more: the event as it is, in the name of the
   * application and of type "charm". All other files stay.
   */
  lemma SavedMeaning(app: string, dir: Dir, e: Event, id: nat)
    requires dir.nextId !in dir.files
    ensures var known := exists id0 :: id0 in dir.files && AsksAgain(app, dir.files[id0], e);
      var files := Saved(app, dir, e).files;
      && (id in files <==> id in dir.files || (!known && id == dir.nextId))
      && (id in dir.files ==> files[id] == dir.files[id])
      && (!known ==> files[dir.nextId] == Event(e.timestamp, e.service, e.action, e.reason, app, "charm"))
  {
    assert HasDuplicate(app, dir.files, e) <==> exists id0 :: id0 in dir.files && AsksAgain(app, dir.files[id0], e) by {
      if id0 :| id0 in dir.files && AsksAgain(app, dir.files[id0], e) {
        assert dir.files[id0].requestorName == app && Matching(e, dir.files[id0]);
      }
      if id0 :| id0 in dir.files && dir.files[id0].requestorName == app && Matching(e, dir.files[id0]) {
        assert AsksAgain(app, dir.files[id0], e);
      }
    }
  }

  /** clear_deferred_events looks at the service alone, not at action or requestor. */
  function Cleared(dir: Dir, services: set<string>): Dir
  {
    Dir(map id | id in dir.files && dir.files[id].service !in services :: dir.files[id], dir.nextId)
  }

  function DeferredServices(app: string, files: map<nat, Event>): set<string>
  {
    set id | id in files && files[id].requestorName == app && files[id].action == RESTART :: files[id].service
  }

  // ----- What a hook does -----

  function AddAll(list: seq<string>, xs: seq<string>): seq<string>
  {
    if xs == [] then list else AddOnce(AddAll(list, xs[..|xs| - 1]), xs[|xs| - 1])
  }

  function AsSet(list: seq<string>): set<string>
  {
    set s | s in list
  }

  /** The members of a list for which `p` gives this answer, in order. */
  function Those(list: seq<string>, p: string -> bool, answer: bool): seq<string>
  {
    if list == [] then []
    else
      var last := list[|list| - 1];
      Those(list[..|list| - 1], p, answer) + if p(last) == answer then [last] else []
  }

  lemma {:induction false} AddAllMeaning(list: seq<string>, xs: seq<string>, x: string)
    ensures x in AddAll(list, xs) <==> x in list || x in xs
  {
    if xs != [] {
      AddAllMeaning(list, xs[..|xs| - 1], x);
      assert xs == xs[..|xs| - 1] + [xs[|xs| - 1]];
    }
  }

  lemma SameNames(list: seq<string>)
    ensures AsSet(AddAll([], list)) == AsSet(list)
  {
    forall x
      ensures x in AsSet(AddAll([], list)) <==> x in AsSet(list)
    {
      AddAllMeaning([], list, x);
    }
  }

  predicate AllClean(list: seq<string>, p: string -> bool)
  {
    forall s :: s in list ==> p(s)
  }

  lemma {:induction false} ThoseMeaning(list: seq<string>, p: string -> bool)
    ensures Those(list, p, false) == [] <==> AllClean(list, p)
    ensures AllClean(list, p) ==> Those(list, p, true) == list
  {
    if list != [] {
      var n := |list| - 1;
      ThoseMeaning(list[..n], p);
      assert list == list[..n] + [list[n]];
    }
  }

  predicate Changed(before: Files, after: Files, path: string)
  {
    PathHash(after, path) != PathHash(before, path)
  }

  /** The services of all changed files, each once, in the order of their first mention. */
  function Affected(rm: RestartMap, before: Files, after: Files): seq<string>
  {
    if rm == [] then []
    else
      var list := Affected(rm[..|rm| - 1], before, after);
      if Changed(before, after, rm[|rm| - 1].0) then AddAll(list, rm[|rm| - 1].1) else list
  }

  function ChangedFor(rm: RestartMap, before: Files, after: Files, service: string): set<string>
  {
    set entry | entry in rm && Changed(before, after, entry.0) && service in entry.1 :: entry.0
  }

  /** A dictionary with the empty list as its default. */
  function FilesOf(changedFiles: map<string, seq<string>>, service: string): seq<string>
  {
    if service in changedFiles then changedFiles[service] else []
  }

  lemma OneFileMore(changedFiles: map<string, seq<string>>, service: string, path: string,
                    s: string, p: string)
    ensures p in FilesOf(changedFiles[service := FilesOf(changedFiles, service) + [path]], s) <==>
      p in FilesOf(changedFiles, s) || (s == service && p == path)
  {
  }

  lemma ChangedForSnoc(rm: RestartMap, before: Files, after: Files, service: string, p: string)
    requires rm != []
    ensures var last := rm[|rm| - 1];
      p in ChangedFor(rm, before, after, service) <==>
        p in ChangedFor(rm[..|rm| - 1], before, after, service) ||
        (Changed(before, after, last.0) && service in last.1 && p == last.0)
  {
    assert rm == rm[..|rm| - 1] + [rm[|rm| - 1]];
  }

  /** What counts as a change, on the two sets of files alone: a file came, went or has other contents. */
  predicate Differs(before: Files, after: Files, path: string)
  {
    || (path in before && path !in after) || (path !in before && path in after)
    || (path in before && path in after && before[path] != after[path])
  }

  /** A changed file of the map names the service. */
  predicate Touches(rm: RestartMap, before: Files, after: Files, service: string)
  {
    exists i :: 0 <= i < |rm| && Differs(before, after, rm[i].0) && service in rm[i].1
  }

  /** A service is affected exactly when a changed file names it, and for it exactly the changed files are noted. */
  lemma {:induction false} AffectedMeaning(rm: RestartMap, before: Files, after: Files, service: string)
    ensures service in Affected(rm, before, after) <==> Touches(rm, before, after, service)
    ensures forall p :: p in ChangedFor(rm, before, after, service) <==>
      Differs(before, after, p) && exists i :: 0 <= i < |rm| && rm[i].0 == p && service in rm[i].1
  {
    if rm != [] {
      var n := |rm| - 1;
      var init, last := rm[..n], rm[n];
      AffectedMeaning(init, before, after, service);
      AddAllMeaning(Affected(init, before, after), last.1, service);
      assert Changed(before, after, last.0) <==> Differs(before, after, last.0);
      assert Touches(rm, before, after, service) <==>
        Touches(init, before, after, service) || (Differs(before, after, last.0) && service in last.1) by {
        if i :| 0 <= i < n && Differs(before, after, init[i].0) && service in init[i].1 {
          assert Differs(before, after, rm[i].0) && service in rm[i].1;
        }
        if i :| 0 <= i < |rm| && Differs(before, after, rm[i].0) && service in rm[i].1 {
          assert i < n ==> Differs(before, after, init[i].0) && service in init[i].1;
        }
      }
    }
    forall p
      ensures p in ChangedFor(rm, before, after, service) <==>
        Differs(before, after, p) && exists i :: 0 <= i < |rm| && rm[i].0 == p && service in rm[i].1
    {
      ChangedForMeaning(rm, before, after, service, p);
    }
  }

  lemma ChangedForMeaning(rm: RestartMap, before: Files, after: Files, service: string, p: string)
    ensures p in ChangedFor(rm, before, after, service) <==>
      Differs(before, after, p) && exists i :: 0 <= i < |rm| && rm[i].0 == p && service in rm[i].1
  {
    assert Changed(before, after, p) <==> Differs(before, after, p);
    if i :| 0 <= i < |rm| && rm[i].0 == p && service in rm[i].1 {
      assert rm[i] in rm;
    }
  }

  /** Services are restarted once each, in the order in which changed files mention them first. */
  lemma {:induction false} OrderOfMention(rm: RestartMap, before: Files, after: Files, n: nat)
    requires n <= |rm|
    ensures Distinct(Affected(rm, before, after)) && Affected(rm[..n], before, after) <= Affected(rm, before, after)
  {
    var last := |rm| - 1;
    if rm != [] {
      OrderOfMention(rm[..last], before, after, if n <= last then n else last);
      AddAllKeepsOrder(Affected(rm[..last], before, after), rm[last].1);
      assert n <= last ==> rm[..last][..n] == rm[..n];
    }
    if n == |rm| {
      assert rm[..n] == rm;
    }
  }

  lemma {:induction false} AddAllKeepsOrder(list: seq<string>, xs: seq<string>)
    requires Distinct(list)
    ensures Distinct(AddAll(list, xs)) && list <= AddAll(list, xs)
  {
    if xs != [] {
      AddAllKeepsOrder(list, xs[..|xs| - 1]);
      AddOnceDistinct(AddAll(list, xs[..|xs| - 1]), xs[|xs| - 1]);
    }
  }

  function Join(names: seq<string>): string
  {
    if names == [] then ""
    else if |names| == 1 then names[0]
    else Join(names[..|names| - 1]) + ", " + names[|names| - 1]
  }

  ghost function Reason(paths: set<string>): string
  {
    "File(s) changed: " + Join(SortedSet(paths))
  }

  /** Join from the front: the names in order, with a comma and a space between them. */
  lemma {:induction false} JoinFromTheFront(names: seq<string>)
    ensures names == [] ==> Join(names) == ""
    ensures |names| == 1 ==> Join(names) == names[0]
    ensures |names| > 1 ==> Join(names) == names[0] + ", " + Join(names[1..])
  {
    if |names| > 1 {
      var n := |names| - 1;
      JoinFromTheFront(names[..n]);
      if n > 1 {
        assert names[..n][1..] == names[1..][..n - 1];
        assert Join(names[1..]) == Join(names[1..][..n - 1]) + ", " + names[n];
      } else {
        assert names[..n] == [names[0]] && names[1..] == [names[1]];
      }
    }
  }

  lemma {:induction false} JoinNamesAll(names: seq<string>, name: string) returns (before: string, behind: string)
    requires name in names
    ensures Join(names) == before + name + behind
  {
    var n := |names| - 1;
    assert names == names[..n] + [names[n]];
    before, behind := "", "";
    if n > 0 {
      if name == names[n] {
        before := Join(names[..n]) + ", ";
      } else {
        before, behind := JoinNamesAll(names[..n], name);
        behind := behind + ", " + names[n];
      }
    }
  }

  /** The reason names every changed file. */
  lemma ReasonNamesFiles(paths: set<string>, path: string) returns (before: string, behind: string)
    requires path in paths
    ensures Reason(paths) == "File(s) changed: " + before + path + behind
  {
    before, behind := JoinNamesAll(SortedSet(paths), path);
  }

  ghost function Request(app: string, now: int, service: string, paths: set<string>): Event
  {
    Event(now, service, RESTART, Reason(paths), app, CHARM)
  }

  /** The directory after the listed services have been handled, restarts being permitted or not. */
  ghost function AfterServices(app: string, now: int, permitted: bool, dir: Dir, services: seq<string>,
                               rm: RestartMap, before: Files, after: Files): Dir
  {
    if services == [] then dir
    else
      var last := services[|services| - 1];
      var d := AfterServices(app, now, permitted, dir, services[..|services| - 1], rm, before, after);
      if permitted then Cleared(d, {last})
      else Saved(app, d, Request(app, now, last, ChangedFor(rm, before, after, last)))
  }

  // ----- The code -----

  /** How the restart-services action ends. */
  datatype ActionEnd = ActionDone | ValueError | ServiceActionError | TypeError

  class EventStore {
    const app: string
    var files: map<nat, Event>
    var nextId: nat
    /** enable-auto-restarts; not set means yes. */
    var autoRestarts: Option<bool>
    /** Every restart carried out so far. */
    ghost var restarts: seq<string>

    ghost function Contents(): Dir
      reads this
    {
      Dir(files, nextId)
    }

    constructor (app: string)
      ensures this.app == app && Contents() == Dir(map[], 0) && autoRestarts == None && restarts == []
    {
      this.app := app;
      files, nextId, autoRestarts, restarts := map[], 0, None, [];
    }

    function RestartPermitted(): (permitted: bool)
      reads this
      ensures !permitted <==> autoRestarts == Some(false)
    {
      autoRestarts.None? || autoRestarts.value
    }

    method DuplicateEventFiles(e: Event) returns (duplicates: seq<nat>)
      ensures forall id :: id in duplicates <==> id in files && files[id].requestorName == app && Matching(e, files[id])
    {
      duplicates := [];
      var todo := files.Keys;
      while todo != {}
        invariant todo <= files.Keys
        invariant forall id :: id in duplicates <==>
          id in files && id !in todo && files[id].requestorName == app && Matching(e, files[id])
        decreases |todo|
      {
        var id :| id in todo;
        todo := todo - {id};
        if files[id].requestorName == app && Matching(e, files[id]) {
          duplicates := duplicates + [id];
        }
      }
    }

    method SaveEvent(e: Event)
      modifies `files, `nextId
      ensures Contents() == Saved(app, old(Contents()), e)
    {
      var duplicates := DuplicateEventFiles(e);
      if duplicates != [] {
        assert duplicates[0] in duplicates;
        return;
      }
      files := files[nextId := e.(requestorName := app, requestorType := CHARM)];
      nextId := nextId + 1;
    }

    method ClearDeferredEvents(services: seq<string>)
      modifies `files
      ensures Contents() == Cleared(old(Contents()), set s | s in services)
    {
      var todo := files.Keys;
      while todo != {}
        invariant todo <= files.Keys
        invariant forall id :: id in files <==> id in old(files) && (id in todo || old(files)[id].service !in services)
        invariant forall id :: id in files ==> files[id] == old(files)[id]
        decreases |todo|
      {
        var id :| id in todo;
        todo := todo - {id};
        if files[id].service in services {
          files := files - {id};
        }
      }
    }

    method ReasonText(changedFiles: seq<string>) returns (reason: string)
      ensures reason == Reason(set p | p in changedFiles)
    {
      var paths := SortKeys(set p | p in changedFiles);
      reason := "File(s) changed: " + Join(paths);
    }

    method CheckAndRecordRestartRequest(now: int, service: string, changedFiles: seq<string>) returns (permitted: bool)
      modifies `files, `nextId
      ensures permitted == RestartPermitted()
      ensures Contents() ==
        if permitted then old(Contents())
        else Saved(app, old(Contents()), Request(app, now, service, set p | p in changedFiles))
    {
      permitted := autoRestarts.None? || autoRestarts.value;
      if !permitted {
        var reason := ReasonText(changedFiles);
        SaveEvent(Event(now, service, RESTART, reason, app, CHARM));
      }
    }

    /** Services of changed files without repetition, and the changed files of each. */
    method CollectChanges(rm: RestartMap, before: Files, after: Files)
        returns (services: seq<string>, changedFiles: map<string, seq<string>>)
      ensures services == Affected(rm, before, after)
      ensures forall s :: s in changedFiles <==> s in services
      ensures forall s :: s in changedFiles ==> (set p | p in changedFiles[s]) == ChangedFor(rm, before, after, s)
    {
      services, changedFiles := [], map[];
      var i := 0;
      while i < |rm|
        invariant i <= |rm|
        invariant services == Affected(rm[..i], before, after)
        invariant forall s :: s in changedFiles <==> s in services
        invariant forall s, p :: p in FilesOf(changedFiles, s) <==> p in ChangedFor(rm[..i], before, after, s)
      {
        var path, list := rm[i].0, rm[i].1;
        assert rm[..i + 1] == rm[..i] + [rm[i]] && rm[..i + 1][..i] == rm[..i];
        forall s, p
          ensures p in ChangedFor(rm[..i + 1], before, after, s) <==>
            p in ChangedFor(rm[..i], before, after, s) || (Changed(before, after, path) && s in list && p == path)
        {
          ChangedForSnoc(rm[..i + 1], before, after, s, p);
        }
        hide ChangedFor;
        if PathHash(after, path) != PathHash(before, path) {
          services, changedFiles := NoteChange(services, changedFiles, path, list);
        }
        i := i + 1;
      }
      assert rm[..i] == rm;
      forall s | s in changedFiles
        ensures (set p | p in changedFiles[s]) == ChangedFor(rm, before, after, s)
      {
        assert forall p :: p in FilesOf(changedFiles, s) <==> p in ChangedFor(rm, before, after, s);
      }
    }

    method NoteChange(services0: seq<string>, changedFiles0: map<string, seq<string>>, path: string, list: seq<string>)
        returns (services: seq<string>, changedFiles: map<string, seq<string>>)
      requires forall s :: s in changedFiles0 <==> s in services0
      ensures services == AddAll(services0, list)
      ensures forall s :: s in changedFiles <==> s in services
      ensures forall s, p :: p in FilesOf(changedFiles, s) <==>
        p in FilesOf(changedFiles0, s) || (s in list && p == path)
    {
      services, changedFiles := services0, changedFiles0;
      var j := 0;
      hide FilesOf;
      while j < |list|
        invariant j <= |list|
        invariant services == AddAll(services0, list[..j])
        invariant forall s :: s in changedFiles <==> s in services
        invariant forall s, p :: p in FilesOf(changedFiles, s) <==>
          p in FilesOf(changedFiles0, s) || (s in list[..j] && p == path)
      {
        var s := list[j];
        assert list[..j + 1] == list[..j] + [s] && list[..j + 1][..j] == list[..j];
        ghost var earlier := changedFiles;
        changedFiles := changedFiles[s := FilesOf(changedFiles, s) + [path]];
        forall t, p
          ensures p in FilesOf(changedFiles, t) <==> p in FilesOf(changedFiles0, t) || (t in list[..j + 1] && p == path)
        {
          OneFileMore(earlier, s, path, t, p);
        }
        if s !in services {
          services := services + [s];
        }
        j := j + 1;
      }
      assert list[..j] == list;
    }

    /** restart_on_change around a hook that took the watched files from `before` to `after`. */
    method RestartOnChange(now: int, rm: RestartMap, before: Files, after: Files)
      modifies `files, `nextId, `restarts
      ensures Contents() ==
        AfterServices(app, now, RestartPermitted(), old(Contents()), Affected(rm, before, after), rm, before, after)
      ensures restarts == old(restarts) + if RestartPermitted() then Affected(rm, before, after) else []
    {
      var services, changedFiles := CollectChanges(rm, before, after);
      hide Cleared, Saved, Request, ChangedFor, Affected;
      var i := 0;
      while i < |services|
        invariant i <= |services|
        invariant Contents() ==
          AfterServices(app, now, RestartPermitted(), old(Contents()), services[..i], rm, before, after)
        invariant restarts == old(restarts) + if RestartPermitted() then services[..i] else []
      {
        assert services[..i + 1][..i] == services[..i];
        assert services[i] in services;
        var permitted := CheckAndRecordRestartRequest(now, services[i], changedFiles[services[i]]);
        if permitted {
          restarts := restarts + [services[i]];
          ClearDeferredEvents([services[i]]);
          assert (set s | s in [services[i]]) == {services[i]};
        }
        i := i + 1;
      }
      assert services[..i] == services;
    }

    /** deferrable_svc_restart does not clear earlier events when it may restart. */
    method DeferrableSvcRestart(now: int, service: string, reason: string)
      modifies `files, `nextId, `restarts
      ensures RestartPermitted() ==> Contents() == old(Contents()) && restarts == old(restarts) + [service]
      ensures !RestartPermitted() ==>
        Contents() == Saved(app, old(Contents()), Event(now, service, RESTART, reason, app, CHARM)) &&
          restarts == old(restarts)
    {
      if autoRestarts.None? || autoRestarts.value {
        restarts := restarts + [service];
      } else {
        SaveEvent(Event(now, service, RESTART, reason, app, CHARM));
      }
    }

    method GetDeferredServices() returns (services: seq<string>)
      ensures (set s | s in services) == DeferredServices(app, files)
    {
      services := [];
      var todo := files.Keys;
      while todo != {}
        invariant todo <= files.Keys
        invariant forall s :: s in services <==>
          exists id :: id in files && id !in todo && files[id].requestorName == app && files[id].action == RESTART &&
                       files[id].service == s
        decreases |todo|
      {
        var id :| id in todo;
        todo := todo - {id};
        if files[id].requestorName == app && files[id].action == RESTART && files[id].service !in services {
          services := services + [files[id].service];
        }
      }
    }

    /** _extract_services_list_helper on a list of names: an ordered dictionary keeps each name once. */
    method ExtractServices(services: seq<string>) returns (names: seq<string>)
      ensures names == AddAll([], services)
    {
      names := [];
      for i := 0 to |services|
        invariant names == AddAll([], services[..i])
      {
        assert services[..i + 1][..i] == services[..i];
        names := AddOnce(names, services[i]);
      }
      assert services[..|services|] == services;
    }

    /**
     * manage_payload_services, for stopping or starting: every service is tried, once and in order. `handled` are
     * those that did it cleanly; each other one is named in a message.
     */
    method ManagePayloadServices(services: seq<string>, clean: string -> bool)
        returns (messages: seq<string>, ghost handled: seq<string>)
      ensures messages == Those(AddAll([], services), clean, false)
      ensures handled == Those(AddAll([], services), clean, true)
    {
      messages, handled := [], [];
      var names := ExtractServices(services);
      for i := 0 to |names|
        invariant messages == Those(names[..i], clean, false) && handled == Those(names[..i], clean, true)
      {
        assert names[..i + 1][..i] == names[..i];
        var ok := clean(names[i]);
        if ok {
          handled := handled + [names[i]];
        } else {
          messages := messages + [names[i]];
        }
      }
      assert names[..|names|] == names;
    }

    /**
     * restart_services_action. `stops(s)` and `starts(s)` tell whether the service stops and starts cleanly and
     * `stoppedOk` whether the callback in between reports no problem. `stopped` and `started` are the services that
     * have been stopped and started, whether the action ends well or not.
     */
    method RestartServicesAction(given: Option<seq<string>>, deferredOnly: bool,
                                 stops: string -> bool, starts: string -> bool, stoppedOk: bool)
        returns (end: ActionEnd, ghost services: seq<string>, ghost stopped: seq<string>, ghost started: seq<string>)
      modifies `files, `restarts
      ensures AsSet(services) ==
        if given.Some? && (given.value != [] || !deferredOnly) then AsSet(given.value)
        else if deferredOnly then DeferredServices(app, old(files)) else {}
      ensures stopped == if end == ValueError then [] else Those(services, stops, true)
      ensures started == if end != ValueError && stoppedOk && Those(services, stops, false) == []
                         then Those(services, starts, true) else []
      ensures restarts == old(restarts) + started
      ensures end == ActionDone ==>
        Contents() == Cleared(old(Contents()), AsSet(services)) && stopped == started == services
      ensures end != ActionDone ==> Contents() == old(Contents())
      ensures end == ValueError <==> given.Some? && given.value != [] && deferredOnly
      ensures end == ServiceActionError <==>
        end != ValueError && !(stoppedOk && AllClean(services, stops) && AllClean(services, starts))
      ensures end == TypeError <==> given.None? && !deferredOnly && stoppedOk && old(files) != map[]
    {
      stopped, started := [], [];
      var list := if given.Some? then given.value else [];
      if given.Some? && given.value != [] && deferredOnly {
        SameNames(list);
        return ValueError, AddAll([], list), [], [];
      }
      if deferredOnly {
        list := GetDeferredServices();
      }
      services := AddAll([], list);
      SameNames(list);
      ThoseMeaning(services, stops);
      ThoseMeaning(services, starts);
      hide AddAll, Those, AllClean, Cleared, DeferredServices;
      var messages;
      messages, stopped := ManagePayloadServices(list, stops);
      if messages != [] || !stoppedOk {
        return ServiceActionError, services, stopped, [];
      }
      messages, started := ManagePayloadServices(list, starts);
      restarts := restarts + started;
      if messages != [] {
        return ServiceActionError, services, stopped, started;
      }
      if given.None? && !deferredOnly && files != map[] {
        return TypeError, services, stopped, started;
      }
      ClearDeferredEvents(list);
      end := ActionDone;
    }
  }
}
