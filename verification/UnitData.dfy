/**
 * The unit's key/value store: a working state inside a transaction, the committed state, and a log with one
 * row per key and revision, where a revision is one hook execution.
 */
module UnitData {
  import opened Wrappers

  /** A value by its JSON text; equal values have equal texts. */
  datatype Json = Null | Text(text: string) | Other(id: int)

  const DELETED := Text("DELETED")

  type Log = map<(string, nat), Json>

  /** The three tables; `lastId` is the largest hook version ever committed or inserted since. */
  datatype Db = Db(kv: map<string, Json>, log: Log, hooks: map<nat, string>, lastId: nat)

  const EmptyDb := Db(map[], map[], map[], 0)

  /** An IntegrityError comes from the primary key (key, revision) of the log. */
  datatype Outcome = Done | IntegrityError

  // ----- Single operations, as functions of the working state -----

  /** `set`: writing the same value again does nothing; a second change in one revision rewrites its row. */
  function AfterSet(db: Db, revision: Option<nat>, key: string, value: Json): Db
  {
    if key in db.kv && db.kv[key] == value then db
    else
      db.(kv := db.kv[key := value],
          log := if revision.Some? then db.log[(key, revision.value) := value] else db.log)
  }

  function Without(kv: map<string, Json>, keys: seq<string>): map<string, Json>
  {
    map k | k in kv && k !in keys :: kv[k]
  }

  predicate Logged(log: Log, revision: nat, keys: seq<string>)
  {
    exists k :: k in keys && (k, revision) in log
  }

  predicate Repeats(keys: seq<string>)
  {
    exists i, j :: 0 <= i < j < |keys| && keys[i] == keys[j]
  }

  /** Whether the insertion of deletion rows for these keys violates the primary key. */
  predicate DeletionClashes(db: Db, revision: Option<nat>, keys: seq<string>)
  {
    && revision.Some?
    && (exists k :: k in keys && k in db.kv)
    && (Logged(db.log, revision.value, keys) || Repeats(keys))
  }

  /** `unset` and `unsetrange(keys)`: rows are written for all named keys when at least one was stored. */
  function AfterUnset(db: Db, revision: Option<nat>, keys: seq<string>): Db
  {
    var kv := Without(db.kv, keys);
    if revision.Some? && (exists k :: k in keys && k in db.kv) && !DeletionClashes(db, revision, keys) then
      db.(kv := kv, log := db.log + DeletionRows(revision.value, keys))
    else
      db.(kv := kv)
  }

  function DeletionRows(revision: nat, keys: seq<string>): Log
  {
    if keys == [] then map[] else DeletionRows(revision, keys[..|keys| - 1])[(keys[|keys| - 1], revision) := DELETED]
  }

  /** `update`: the items of a mapping in its own order, each set under the prefix. */
  function AfterUpdate(db: Db, revision: Option<nat>, items: seq<(string, Json)>, prefix: string): Db
  {
    if items == [] then db
    else
      var last := items[|items| - 1];
      AfterSet(AfterUpdate(db, revision, items[..|items| - 1], prefix), revision, prefix + last.0, last.1)
  }

  // ----- Hook scopes -----

  /** What a hook body may do; Raise stands for any exception that is not the store's own. */
  datatype Op =
    | Set(key: string, value: Json)
    | Unset(keys: seq<string>)
    | Flush
    | Raise

  /** Working state, last committed state, and whether an exception has ended the body. */
  datatype Progress = Progress(db: Db, committed: Db, raised: bool)

  function AfterOp(p: Progress, revision: Option<nat>, op: Op): Progress
  {
    match op
    case Set(key, value) => p.(db := AfterSet(p.db, revision, key, value))
    case Unset(keys) =>
      Progress(AfterUnset(p.db, revision, keys), p.committed, DeletionClashes(p.db, revision, keys))
    case Flush => p.(committed := p.db)
    case Raise => p.(raised := true)
  }

  /** The body runs up to its first exception. */
  function AfterBody(p: Progress, revision: Option<nat>, ops: seq<Op>): Progress
  {
    if ops == [] then p
    else
      var before := AfterBody(p, revision, ops[..|ops| - 1]);
      if before.raised then before else AfterOp(before, revision, ops[|ops| - 1])
  }

  function Enter(db: Db, name: string): Db
  {
    db.(hooks := db.hooks[db.lastId + 1 := name], lastId := db.lastId + 1)
  }

  /** A hook_scope up to the end of its body, from a working and a committed state. */
  function ScopeEnd(working: Db, committed: Db, keepRevisions: bool, name: string, ops: seq<Op>): Progress
  {
    AfterBody(Progress(Enter(working, name), committed, false),
              if keepRevisions then Some(working.lastId + 1) else None, ops)
  }

  /** It ends by a rollback or a commit; either way this is then both the working and the committed state. */
  function Settled(end: Progress): Db
  {
    if end.raised then end.committed else end.db
  }

  /** A hook_scope that starts outside any transaction. */
  function AfterScope(db: Db, keepRevisions: bool, name: string, ops: seq<Op>): Db
  {
    Settled(ScopeEnd(db, db, keepRevisions, name, ops))
  }

  datatype Hook = Hook(name: string, ops: seq<Op>)

  function AfterHooks(hooks: seq<Hook>): Db
  {
    if hooks == [] then EmptyDb
    else AfterScope(AfterHooks(hooks[..|hooks| - 1]), true, hooks[|hooks| - 1].name, hooks[|hooks| - 1].ops)
  }

  // ----- The code -----

  class Storage {
    const keepRevisions: bool
    var kv: map<string, Json>
    var log: Log
    var hooks: map<nat, string>
    var lastId: nat
    var committed: Db
    var revision: Option<nat>

    ghost function Working(): Db
      reads this
    {
      Db(kv, log, hooks, lastId)
    }

    /** The revision under which changes are logged, if they are. */
    function LogRevision(): Option<nat>
      reads this
    {
      if keepRevisions then revision else None
    }

    constructor (keepRevisions: bool)
      ensures this.keepRevisions == keepRevisions && revision == None
      ensures Working() == EmptyDb && committed == EmptyDb
    {
      this.keepRevisions := keepRevisions;
      kv, log, hooks, lastId := map[], map[], map[], 0;
      committed := EmptyDb;
      revision := None;
    }

    method SetValue(key: string, value: Json)
      modifies `kv, `log
      ensures Working() == AfterSet(old(Working()), LogRevision(), key, value)
    {
      if key in kv && kv[key] == value {
        return;
      }
      kv := kv[key := value];
      if !keepRevisions || revision.None? {
        return;
      }
      log := log[(key, revision.value) := value];
    }

    /** The statement that deletes and the one that inserts fail separately: the deletion stays. */
    method UnsetRange(keys: seq<string>) returns (outcome: Outcome)
      modifies `kv, `log
      ensures Working() == AfterUnset(old(Working()), LogRevision(), keys)
      ensures outcome == IntegrityError <==> DeletionClashes(old(Working()), LogRevision(), keys)
    {
      var rowcount := 0;
      ghost var before := kv;
      var i := 0;
      while i < |keys|
        invariant i <= |keys|
        invariant kv == Without(before, keys[..i])
        invariant log == old(log)
        invariant rowcount > 0 <==> exists k :: k in keys[..i] && k in before
      {
        assert keys[..i + 1] == keys[..i] + [keys[i]];
        if keys[i] in kv {
          rowcount := rowcount + 1;
          kv := map k | k in kv && k != keys[i] :: kv[k];
        }
        i := i + 1;
      }
      assert keys[..i] == keys;
      if keepRevisions && revision.Some? && rowcount > 0 {
        outcome := InsertDeletions(keys, revision.value);
      } else {
        outcome := Done;
      }
    }

    /** One INSERT of several rows: all of them or none. */
    method InsertDeletions(keys: seq<string>, revision: nat) returns (outcome: Outcome)
      modifies `log
      ensures outcome == IntegrityError <==> Logged(old(log), revision, keys) || Repeats(keys)
      ensures log == if outcome == Done then old(log) + DeletionRows(revision, keys) else old(log)
    {
      var rows: Log := map[];
      var i := 0;
      while i < |keys|
        invariant i <= |keys|
        invariant log == old(log) && rows == DeletionRows(revision, keys[..i])
        invariant !Logged(log, revision, keys[..i]) && !Repeats(keys[..i])
      {
        assert keys[..i + 1] == keys[..i] + [keys[i]];
        assert keys[..i + 1][..i] == keys[..i];
        DeletionRowsMeaning(revision, keys[..i]);
        if (keys[i], revision) in log || (keys[i], revision) in rows {
          return IntegrityError;
        }
        rows := rows[(keys[i], revision) := DELETED];
        i := i + 1;
      }
      assert keys[..i] == keys;
      log := log + rows;
      return Done;
    }

    method Update(items: seq<(string, Json)>, prefix: string)
      modifies `kv, `log
      ensures Working() == AfterUpdate(old(Working()), LogRevision(), items, prefix)
    {
      var i := 0;
      while i < |items|
        invariant i <= |items|
        invariant Working() == AfterUpdate(old(Working()), LogRevision(), items[..i], prefix)
      {
        assert items[..i + 1][..i] == items[..i];
        SetValue(prefix + items[i].0, items[i].1);
        i := i + 1;
      }
      assert items[..i] == items;
    }

    method FlushAll(save: bool)
      modifies this
      ensures revision == old(revision)
      ensures save ==> Working() == committed == old(Working())
      ensures !save ==> Working() == committed == old(committed)
    {
      if save {
        committed := Db(kv, log, hooks, lastId);
      } else {
        kv, log, hooks, lastId := committed.kv, committed.log, committed.hooks, committed.lastId;
      }
    }

    /** hook_scope around a body; an exception of the body ends it and is passed on. */
    method HookScope(name: string, ops: seq<Op>) returns (raised: bool)
      requires revision == None
      modifies this
      ensures revision == None
      ensures var end := ScopeEnd(old(Working()), old(committed), keepRevisions, name, ops);
        Working() == committed == Settled(end) && raised == end.raised
    {
      ghost var start := Progress(Enter(Working(), name), committed, false);
      hooks := hooks[lastId + 1 := name];
      lastId := lastId + 1;
      revision := Some(lastId);
      raised := false;
      var i := 0;
      while i < |ops| && !raised
        invariant i <= |ops|
        invariant revision == Some(old(lastId) + 1)
        invariant Progress(Working(), committed, raised) == AfterBody(start, LogRevision(), ops[..i])
      {
        assert ops[..i + 1][..i] == ops[..i];
        match ops[i] {
          case Set(key, value) => SetValue(key, value);
          case Unset(keys) =>
            var outcome := UnsetRange(keys);
            raised := outcome == IntegrityError;
          case Flush => FlushAll(true);
          case Raise => raised := true;
        }
        i := i + 1;
      }
      StopsAtException(start, LogRevision(), ops, i);
      FlushAll(!raised);
      revision := None;
    }

    /** `unset` is the case of a single key. */
    method UnsetKey(key: string) returns (outcome: Outcome)
      modifies `kv, `log
      ensures Working() == AfterUnset(old(Working()), LogRevision(), [key])
      ensures outcome == IntegrityError <==> DeletionClashes(old(Working()), LogRevision(), [key])
    {
      outcome := UnsetRange([key]);
    }
  }

  lemma {:induction false} StopsAtException(p: Progress, revision: Option<nat>, ops: seq<Op>, i: nat)
    requires i <= |ops|
    requires i == |ops| || AfterBody(p, revision, ops[..i]).raised
    ensures AfterBody(p, revision, ops) == AfterBody(p, revision, ops[..i])
  {
    if i == |ops| {
      assert ops[..i] == ops;
    } else {
      var init := ops[..|ops| - 1];
      assert init[..i] == ops[..i];
      StopsAtException(p, revision, init, i);
    }
  }

  lemma {:induction false} DeletionRowsMeaning(revision: nat, keys: seq<string>)
    ensures forall k, r :: (k, r) in DeletionRows(revision, keys) <==> r == revision && k in keys
    ensures forall x :: x in DeletionRows(revision, keys) ==> DeletionRows(revision, keys)[x] == DELETED
  {
    if keys != [] {
      DeletionRowsMeaning(revision, keys[..|keys| - 1]);
      assert keys == keys[..|keys| - 1] + [keys[|keys| - 1]];
    }
  }

  /** Whatever the revision, and even if the log refuses its rows: the named keys are gone and all others are kept. */
  lemma UnsetMeaning(db: Db, revision: Option<nat>, keys: seq<string>)
    ensures var kv := AfterUnset(db, revision, keys).kv;
      && (forall k :: k in keys ==> k !in kv)
      && (forall k :: k !in keys ==> (k in kv <==> k in db.kv) && (k in kv ==> kv[k] == db.kv[k]))
  {
  }

  /** Setting another value changes this key alone, and logs it under the revision if there is one. */
  lemma SetMeaning(db: Db, revision: Option<nat>, key: string, value: Json, k: string, r: nat)
    ensures var after := AfterSet(db, revision, key, value);
      && key in after.kv && after.kv[key] == value
      && (k != key ==> (k in after.kv <==> k in db.kv) && (k in db.kv ==> after.kv[k] == db.kv[k]))
      && (var written := k == key && revision == Some(r) && !(key in db.kv && db.kv[key] == value);
          && ((k, r) in after.log <==> (k, r) in db.log || written)
          && (written ==> after.log[(k, r)] == value)
          && (!written && (k, r) in db.log ==> after.log[(k, r)] == db.log[(k, r)]))
  {
  }

  /** This operation ends the body with an exception. */
  predicate Fails(db: Db, revision: Option<nat>, op: Op)
  {
    op == Raise || (op.Unset? && DeletionClashes(db, revision, op.keys))
  }

  /** Operation `i` fails on what those before it have left. */
  predicate FailsAt(p: Progress, revision: Option<nat>, ops: seq<Op>, i: nat)
  {
    i < |ops| && Fails(AfterBody(p, revision, ops[..i]).db, revision, ops[i])
  }

  lemma FailsAlike(p: Progress, revision: Option<nat>, ops: seq<Op>, n: nat, i: nat)
    requires i < n <= |ops|
    ensures FailsAt(p, revision, ops[..n], i) <==> FailsAt(p, revision, ops, i)
  {
    assert ops[..n][..i] == ops[..i];
  }

  /** A body raises exactly when one of its operations fails. */
  lemma {:induction false} BodyRaises(p: Progress, revision: Option<nat>, ops: seq<Op>)
    requires !p.raised
    ensures AfterBody(p, revision, ops).raised <==> exists i: nat :: FailsAt(p, revision, ops, i)
  {
    if ops != [] {
      var n := |ops| - 1;
      BodyRaises(p, revision, ops[..n]);
      forall i: nat | i < n
        ensures FailsAt(p, revision, ops[..n], i) <==> FailsAt(p, revision, ops, i)
      {
        FailsAlike(p, revision, ops, n, i);
      }
      LastFails(p, revision, ops);
      assert forall i: nat :: FailsAt(p, revision, ops, i) ==> i <= n;
      assert forall i: nat :: FailsAt(p, revision, ops[..n], i) ==> i < n;
      hide AfterBody, FailsAt;
    }
  }

  lemma LastFails(p: Progress, revision: Option<nat>, ops: seq<Op>)
    requires ops != []
    ensures var before := AfterBody(p, revision, ops[..|ops| - 1]);
      AfterBody(p, revision, ops).raised <==> before.raised || FailsAt(p, revision, ops, |ops| - 1)
  {
    hide DeletionClashes;
  }

  /** The body leaves the hook table alone. */
  lemma {:induction false} BodyKeepsHooks(p: Progress, revision: Option<nat>, ops: seq<Op>)
    ensures var end := AfterBody(p, revision, ops);
      && end.db.hooks == p.db.hooks && end.db.lastId == p.db.lastId
      && end.committed.hooks in {p.committed.hooks, p.db.hooks}
  {
    if ops != [] {
      BodyKeepsHooks(p, revision, ops[..|ops| - 1]);
    }
  }

  /** The log gains a deletion row for every named key exactly when there is a revision and no row clashes. */
  lemma UnsetIsLogged(db: Db, revision: Option<nat>, keys: seq<string>, k: string, r: nat)
    ensures var log := AfterUnset(db, revision, keys).log;
      var written := revision == Some(r) && k in keys && (exists x :: x in keys && x in db.kv) &&
        !DeletionClashes(db, revision, keys);
      && ((k, r) in log <==> (k, r) in db.log || written)
      && (written ==> log[(k, r)] == Text("DELETED"))
      && (!written && (k, r) in db.log ==> log[(k, r)] == db.log[(k, r)])
  {
    if revision.Some? {
      DeletionRowsMeaning(revision.value, keys);
    }
  }
}
