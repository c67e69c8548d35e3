/** The revision log of the unit's store tells every committed state of the past. */
module UnitHistory {
  import opened Wrappers
  import opened UnitData

  /** The value of a key at a revision, by its newest row at or below that revision. */
  function ValueAt(log: Log, key: string, revision: nat): Option<Json>
  {
    if (key, revision) in log then
      if log[(key, revision)] == DELETED then None else Some(log[(key, revision)])
    else if revision == 0 then None
    else ValueAt(log, key, revision - 1)
  }

  function Lookup(kv: map<string, Json>, key: string): Option<Json>
  {
    if key in kv then Some(kv[key]) else None
  }

  /** Lookup, blind to stored values that look like the deletion marker. */
  function Visible(kv: map<string, Json>, key: string): Option<Json>
  {
    if key in kv && kv[key] != DELETED then Some(kv[key]) else None
  }

  ghost predicate LogTells(log: Log, revision: nat, kv: map<string, Json>)
  {
    forall k :: ValueAt(log, k, revision) == Visible(kv, k)
  }

  /** Every row belongs to a recorded hook, and the last hook has the largest version. */
  ghost predicate RowsHaveHooks(db: Db)
  {
    && (forall k, r :: (k, r) in db.log ==> r in db.hooks)
    && (forall r :: r in db.hooks ==> 0 < r <= db.lastId)
  }

  ghost predicate DbOk(db: Db)
  {
    RowsHaveHooks(db) && LogTells(db.log, db.lastId, db.kv)
  }

  /** The rows up to revision `n` are the same. */
  ghost predicate SameBelow(log: Log, log': Log, n: nat)
  {
    forall k, r :: r <= n ==>
      ((k, r) in log <==> (k, r) in log') && ((k, r) in log ==> log[(k, r)] == log'[(k, r)])
  }

  lemma {:induction false} ValueAtFrame(log: Log, log': Log, key: string, r: nat)
    requires forall i :: i <= r ==>
      ((key, i) in log <==> (key, i) in log') && ((key, i) in log ==> log[(key, i)] == log'[(key, i)])
    ensures ValueAt(log, key, r) == ValueAt(log', key, r)
  {
    if r > 0 {
      ValueAtFrame(log, log', key, r - 1);
    }
  }

  // ----- One operation within revision `lastId` -----

  lemma SetKeepsOk(db: Db, key: string, value: Json)
    requires DbOk(db) && db.lastId in db.hooks
    ensures var db' := AfterSet(db, Some(db.lastId), key, value);
      DbOk(db') && db'.hooks == db.hooks && db'.lastId == db.lastId && SameBelow(db.log, db'.log, db.lastId - 1)
  {
    var db' := AfterSet(db, Some(db.lastId), key, value);
    assert 0 < db.lastId;
    forall k
      ensures ValueAt(db'.log, k, db.lastId) == Visible(db'.kv, k)
    {
      assert ValueAt(db.log, k, db.lastId) == Visible(db.kv, k);
      if k != key {
        ValueAtFrame(db.log, db'.log, k, db.lastId);
      }
    }
  }

  lemma UnsetKeepsOk(db: Db, keys: seq<string>)
    requires DbOk(db) && db.lastId in db.hooks && !DeletionClashes(db, Some(db.lastId), keys)
    ensures var db' := AfterUnset(db, Some(db.lastId), keys);
      DbOk(db') && db'.hooks == db.hooks && db'.lastId == db.lastId && SameBelow(db.log, db'.log, db.lastId - 1)
  {
    var db' := AfterUnset(db, Some(db.lastId), keys);
    assert 0 < db.lastId;
    DeletionRowsMeaning(db.lastId, keys);
    forall k
      ensures ValueAt(db'.log, k, db.lastId) == Visible(db'.kv, k)
    {
      assert ValueAt(db.log, k, db.lastId) == Visible(db.kv, k);
      if k !in keys || db'.log == db.log {
        ValueAtFrame(db.log, db'.log, k, db.lastId);
      }
    }
  }

  lemma EnterKeepsOk(db: Db, name: string)
    requires DbOk(db)
    ensures DbOk(Enter(db, name))
  {
    var db' := Enter(db, name);
    forall k
      ensures ValueAt(db'.log, k, db'.lastId) == Visible(db'.kv, k)
    {
      assert (k, db'.lastId) !in db.log;
      assert ValueAt(db.log, k, db.lastId) == Visible(db.kv, k);
    }
  }

  // ----- A whole scope -----

  /** What a body that began at `db` keeps: both states tell their own present and the past of `db`. */
  ghost predicate BodyOk(db: Db, p: Progress)
  {
    && DbOk(p.committed) && SameBelow(db.log, p.committed.log, db.lastId)
    && p.committed.lastId in {db.lastId, db.lastId + 1}
    && (!p.raised ==>
         && DbOk(p.db) && SameBelow(db.log, p.db.log, db.lastId)
         && p.db.lastId == db.lastId + 1 && p.db.lastId in p.db.hooks)
    && (forall r :: r in db.hooks ==> r in p.committed.hooks && (!p.raised ==> r in p.db.hooks))
  }

  lemma OpKeepsOk(db: Db, p: Progress, op: Op)
    requires BodyOk(db, p) && !p.raised
    ensures BodyOk(db, AfterOp(p, Some(db.lastId + 1), op))
  {
    match op
    case Set(key, value) =>
      SetKeepsOk(p.db, key, value);
    case Unset(keys) =>
      if !DeletionClashes(p.db, Some(p.db.lastId), keys) {
        UnsetKeepsOk(p.db, keys);
      }
    case _ =>
  }

  lemma {:induction false} BodyKeepsOk(db: Db, name: string, ops: seq<Op>)
    requires DbOk(db)
    ensures BodyOk(db, ScopeEnd(db, db, true, name, ops))
  {
    if ops == [] {
      EnterKeepsOk(db, name);
    } else {
      var init := ops[..|ops| - 1];
      BodyKeepsOk(db, name, init);
      var p := ScopeEnd(db, db, true, name, init);
      hide BodyOk, AfterOp;
      if !p.raised {
        OpKeepsOk(db, p, ops[|ops| - 1]);
      }
    }
  }

  lemma ScopeKeepsOk(db: Db, name: string, ops: seq<Op>)
    requires DbOk(db)
    ensures var db' := AfterScope(db, true, name, ops);
      && DbOk(db') && SameBelow(db.log, db'.log, db.lastId) && db.lastId <= db'.lastId
      && (forall r :: r in db.hooks ==> r in db'.hooks)
  {
    BodyKeepsOk(db, name, ops);
  }

  lemma {:induction false} HooksKeepOk(hooks: seq<Hook>)
    ensures DbOk(AfterHooks(hooks))
  {
    if hooks == [] {
      assert forall k :: ValueAt(EmptyDb.log, k, 0) == None;
    } else {
      HooksKeepOk(hooks[..|hooks| - 1]);
      ScopeKeepsOk(AfterHooks(hooks[..|hooks| - 1]), hooks[|hooks| - 1].name, hooks[|hooks| - 1].ops);
    }
  }

  /** Later hooks leave the rows of earlier revisions alone. */
  lemma {:induction false} PastIsKept(hooks: seq<Hook>, n: nat)
    requires n <= |hooks|
    ensures var past, present := AfterHooks(hooks[..n]), AfterHooks(hooks);
      && SameBelow(past.log, present.log, past.lastId) && past.lastId <= present.lastId
      && (forall r :: r in past.hooks ==> r in present.hooks)
  {
    if n == |hooks| {
      assert hooks[..n] == hooks;
    } else {
      var init := hooks[..|hooks| - 1];
      PastIsKept(init, n);
      assert init[..n] == hooks[..n];
      HooksKeepOk(init);
      ScopeKeepsOk(AfterHooks(init), hooks[|hooks| - 1].name, hooks[|hooks| - 1].ops);
    }
  }

  /**
   * The main result: after any run of hooks, failing or not, the log rebuilds the committed store at the end of
   * every earlier hook from that hook's revision, except for values that equal the deletion marker.
   */
  lemma LogRebuildsThePast(hooks: seq<Hook>, n: nat, key: string)
    requires n <= |hooks|
    ensures var past := AfterHooks(hooks[..n]);
      ValueAt(AfterHooks(hooks).log, key, past.lastId) == Visible(past.kv, key)
  {
    hide AfterHooks;
    var past := AfterHooks(hooks[..n]);
    HooksKeepOk(hooks[..n]);
    PastIsKept(hooks, n);
    ValueAtFrame(past.log, AfterHooks(hooks).log, key, past.lastId);
    assert ValueAt(past.log, key, past.lastId) == Visible(past.kv, key);
  }

  /** The rebuilt store is exactly the store if and only if no stored value equals the marker. */
  lemma RebuildIsExact(hooks: seq<Hook>, n: nat)
    requires n <= |hooks|
    ensures var past := AfterHooks(hooks[..n]);
      (forall k :: ValueAt(AfterHooks(hooks).log, k, past.lastId) == Lookup(past.kv, k)) <==>
      (forall k :: k in past.kv ==> past.kv[k] != DELETED)
  {
    hide AfterHooks;
    var past := AfterHooks(hooks[..n]);
    forall k
      ensures ValueAt(AfterHooks(hooks).log, k, past.lastId) == Visible(past.kv, k)
    {
      LogRebuildsThePast(hooks, n, k);
    }
    if k :| k in past.kv && past.kv[k] == DELETED {
      assert ValueAt(AfterHooks(hooks).log, k, past.lastId) != Lookup(past.kv, k);
    }
  }

  // ----- Rollback and revision numbers -----

  predicate Flushes(ops: seq<Op>)
  {
    Flush in ops
  }

  lemma {:induction false} CommittedIsAFlush(p: Progress, revision: Option<nat>, ops: seq<Op>)
    requires !p.raised
    ensures var end := AfterBody(p, revision, ops);
      end.committed == p.committed ||
      exists j :: 0 <= j < |ops| && ops[j] == Flush && end.committed == AfterBody(p, revision, ops[..j]).db
  {
    if ops != [] {
      var init := ops[..|ops| - 1];
      CommittedIsAFlush(p, revision, init);
      var before := AfterBody(p, revision, init);
      if !before.raised && ops[|ops| - 1] == Flush {
        assert ops[|ops| - 1] == Flush && ops[..|ops| - 1] == init;
      } else if before.committed != p.committed {
        var j :| 0 <= j < |init| && init[j] == Flush && before.committed == AfterBody(p, revision, init[..j]).db;
        assert init[..j] == ops[..j] && ops[j] == Flush;
      }
    }
  }

  /** A scope that raises leaves store, log and hook table as last committed: before it, or by its own flush. */
  lemma RaisingScopeRollsBack(db: Db, keep: bool, name: string, ops: seq<Op>)
    requires ScopeEnd(db, db, keep, name, ops).raised
    ensures !Flushes(ops) ==> AfterScope(db, keep, name, ops) == db
    ensures AfterScope(db, keep, name, ops) == db ||
      exists j :: 0 <= j < |ops| && ops[j] == Flush &&
        AfterScope(db, keep, name, ops) == ScopeEnd(db, db, keep, name, ops[..j]).db
  {
    var start := Progress(Enter(db, name), db, false);
    CommittedIsAFlush(start, if keep then Some(db.lastId + 1) else None, ops);
  }

  /**
   * A scope that ends well records its hook under a revision above all earlier ones; no scope ever loses a revision
   * or changes the hook of one.
   */
  lemma RevisionsIncrease(hooks: seq<Hook>, hook: Hook)
    ensures var before, after := AfterHooks(hooks), AfterHooks(hooks + [hook]);
      && (forall r :: r in before.hooks ==> r in after.hooks && after.hooks[r] == before.hooks[r])
      && (!ScopeEnd(before, before, true, hook.name, hook.ops).raised ==>
           after.lastId in after.hooks && after.hooks[after.lastId] == hook.name &&
           forall r :: r in before.hooks ==> r < after.lastId)
  {
    var before := AfterHooks(hooks);
    assert (hooks + [hook])[..|hooks|] == hooks;
    HooksKeepOk(hooks);
    var start := Progress(Enter(before, hook.name), before, false);
    BodyKeepsHooks(start, Some(before.lastId + 1), hook.ops);
  }

  /** gethistory joins the log with the hook table; the join loses no row. */
  lemma HistoryIsComplete(hooks: seq<Hook>, key: string, revision: nat)
    ensures var db := AfterHooks(hooks);
      (key, revision) in db.log ==> revision in db.hooks
  {
    HooksKeepOk(hooks);
  }

  // ----- Deleting what the same revision has changed -----

  /** A key that was given a new value cannot be unset in the same revision: the hook fails. */
  lemma SetThenUnsetFails(p: Progress, revision: nat, key: string, value: Json)
    requires !p.raised
    ensures AfterBody(p, Some(revision), [Set(key, value), Unset([key])]).raised <==>
      Lookup(p.db.kv, key) != Some(value) || (key, revision) in p.db.log
  {
    var first := [Set(key, value)];
    var ops := [Set(key, value), Unset([key])];
    assert ops[..|ops| - 1] == first && first[..|first| - 1] == [];
    assert AfterBody(p, Some(revision), []) == p;
    var mid := AfterOp(p, Some(revision), Set(key, value));
    assert AfterBody(p, Some(revision), first) == mid;
    assert AfterBody(p, Some(revision), ops) == AfterOp(mid, Some(revision), Unset([key]));
    UnsetOneFails(mid.db, revision, key);
  }

  lemma UnsetOneFails(db: Db, revision: nat, key: string)
    ensures DeletionClashes(db, Some(revision), [key]) <==> key in db.kv && (key, revision) in db.log
  {
    assert key in [key];
    assert forall k :: k in [key] <==> k == key;
  }

  /** The log is right only because that failure reaches the scope: the deletion itself has already happened. */
  lemma FailedUnsetLeavesLogBehind(db: Db, key: string)
    requires DbOk(db) && DeletionClashes(db, Some(db.lastId), [key]) && db.kv[key] != DELETED
    ensures var db' := AfterUnset(db, Some(db.lastId), [key]);
      Lookup(db'.kv, key) == None && ValueAt(db'.log, key, db'.lastId) == Some(db.kv[key])
  {
    assert key in [key];
    assert ValueAt(db.log, key, db.lastId) == Visible(db.kv, key);
  }
}
