/** Schema migration (migrate in SQLSchema.swift) over transactions (transaction and perform in
    SQLContext.swift), with every statement allowed to fail and the program allowed to restart. */
module Migration {
  import opened Wrappers

  /** What a database file holds: its contents, and PRAGMA user_version. */
  datatype State<D> = State(data: D, version: int)

  /** A connection: what is committed, and what an open transaction has made of it. */
  datatype Db<D> = Db(committed: State<D>, open: Option<State<D>>)

  /** What a migration does to the contents when it completes. */
  type Change<!D> = D -> D

  /** How the body of a migration ends. SQLite takes some errors as a reason to roll back by itself. */
  datatype Run<D> = Completes | Throws(leaving: D) | Aborts

  datatype CommitResult = Commits | StaysOpen | RollsBack

  /** How the statements of one migration fare. */
  datatype Fate<D> = Fate(begins: bool, run: Run<D>, writesVersion: bool, commit: CommitResult, rollsBack: bool)

  type Fates<!D> = nat -> Fate<D>

  datatype Outcome = Finished | Failed | Trapped

  // ---------- one run ----------

  function Current<D>(db: Db<D>): State<D> {
    if db.open.Some? then db.open.value else db.committed
  }

  /** ROLLBACK, which may fail and then leaves the transaction open. */
  function Undone<D>(db: Db<D>, rollsBack: bool): Db<D> {
    if rollsBack then db.(open := None) else db
  }

  /** The v-th migration and its version number in a transaction: the connection after it, and
      whether it succeeded. The setter of userVersion ignores errors. */
  function Step<D>(change: Change<D>, v: nat, db: Db<D>, fate: Fate<D>): (Db<D>, bool) {
    if !fate.begins || db.open.Some? then (db, false)
    else
      match fate.run
      case Throws(leaving) => (Undone(Db(db.committed, Some(db.committed.(data := leaving))), fate.rollsBack), false)
      case Aborts => (db, false)
      case Completes =>
        var s := State(change(db.committed.data), if fate.writesVersion then v + 1 else db.committed.version);
        match fate.commit
        case Commits => (Db(s, None), true)
        case StaysOpen => (Undone(Db(db.committed, Some(s)), fate.rollsBack), false)
        case RollsBack => (db, false)
  }

  /** The migrations from the v-th on, up to the first that fails. */
  function Steps<D>(changes: seq<Change<D>>, v: nat, db: Db<D>, fates: Fates<D>): (Db<D>, bool)
    requires v <= |changes|
    decreases |changes| - v
  {
    if v == |changes| then (db, true)
    else
      var r := Step(changes[v], v, db, fates(v));
      if r.1 then Steps(changes, v + 1, r.0, fates) else r
  }

  /** The version that a run starts from; a version that cannot be read counts as 0. */
  function StartVersion<D>(db: Db<D>, readable: bool): int {
    if readable then Current(db).version else 0
  }

  /** A range that would end before it starts stops the program, and so does a negative index. */
  function Traps<D>(changes: seq<Change<D>>, db: Db<D>, readable: bool, fates: Fates<D>): bool {
    var v := StartVersion(db, readable);
    v > |changes| || (v < 0 && fates(0).begins && db.open.None?)
  }

  /** A run of migrate: the connection after it, and how it ends. */
  function Migrated<D>(changes: seq<Change<D>>, db: Db<D>, readable: bool, fates: Fates<D>): (Db<D>, Outcome) {
    var v := StartVersion(db, readable);
    if Traps(changes, db, readable, fates) then (db, Trapped)
    else if v < 0 then (db, Failed)
    else
      var r := Steps(changes, v, db, fates);
      (r.0, if r.1 then Finished else Failed)
  }

  // ---------- the code ----------

  class SQLContext<D> {
    var committed: State<D>
    var open: Option<State<D>>

    constructor (initial: State<D>)
      ensures View() == Db(initial, None)
    {
      committed := initial;
      open := None;
    }

    function View(): Db<D>
      reads this
    {
      Db(committed, open)
    }

    /** BEGIN TRANSACTION; there is no transaction inside a transaction. */
    method Begin(works: bool) returns (ok: bool)
      modifies this`open
      ensures ok == (works && old(open).None?)
      ensures open == if ok then Some(committed) else old(open)
    {
      if !works || open.Some? {
        return false;
      }
      open := Some(committed);
      return true;
    }

    /** COMMIT TRANSACTION. */
    method Commit(result: CommitResult) returns (ok: bool)
      requires open.Some?
      modifies this
      ensures ok == result.Commits?
      ensures committed == if ok then old(open).value else old(committed)
      ensures open == if result.StaysOpen? then old(open) else None
    {
      match result
      case Commits =>
        committed := open.value;
        open := None;
        return true;
      case StaysOpen =>
        return false;
      case RollsBack =>
        open := None;
        return false;
    }

    /** ROLLBACK TRANSACTION; it fails where there is nothing to roll back. */
    method Rollback(works: bool) returns (ok: bool)
      modifies this`open
      ensures ok == (works && old(open).Some?)
      ensures open == if ok then None else old(open)
    {
      if !works || open.None? {
        return false;
      }
      open := None;
      return true;
    }

    /** The getter of userVersion. */
    method GetUserVersion(works: bool) returns (version: int)
      ensures version == StartVersion(View(), works)
    {
      if !works {
        return 0;
      }
      return if open.Some? then open.value.version else committed.version;
    }

    /** The setter of userVersion; whether it worked goes unnoticed. */
    method SetUserVersion(version: int, works: bool)
      modifies this
      ensures View() == if !works then old(View())
                        else if old(open).Some? then Db(old(committed), Some(old(open).value.(version := version)))
                        else Db(old(committed).(version := version), None)
    {
      if works {
        if open.Some? {
          open := Some(open.value.(version := version));
        } else {
          committed := committed.(version := version);
        }
      }
    }

    /** One migration inside perform: BEGIN, the migration and the version number, then COMMIT; if
        anything throws, ROLLBACK and throw again. */
    method PerformMigration(change: Change<D>, version: nat, fate: Fate<D>) returns (ok: bool)
      modifies this
      ensures (View(), ok) == Step(change, version, old(View()), fate)
    {
      var begun := Begin(fate.begins);
      if !begun {
        return false;
      }
      ok := false;
      match fate.run {
        case Completes =>
          open := Some(open.value.(data := change(open.value.data)));
          SetUserVersion(version + 1, fate.writesVersion);
          ok := Commit(fate.commit);
        case Throws(leaving) =>
          open := Some(open.value.(data := leaving));
        case Aborts =>
          open := None;
      }
      if !ok {
        var undone := Rollback(fate.rollsBack);
      }
    }

    method Migrate(migrations: seq<Change<D>>, readable: bool, fates: Fates<D>) returns (outcome: Outcome)
      modifies this
      ensures (View(), outcome) == Migrated(migrations, old(View()), readable, fates)
    {
      var currentVersion := GetUserVersion(readable);
      if currentVersion > |migrations| {
        return Trapped;
      }
      if currentVersion < 0 {
        return if fates(0).begins && open.None? then Trapped else Failed;
      }
      for version := currentVersion to |migrations|
        invariant Steps(migrations, version, View(), fates) == Steps(migrations, currentVersion, old(View()), fates)
      {
        var ok := PerformMigration(migrations[version], version, fates(version));
        if !ok {
          return Failed;
        }
      }
      return Finished;
    }
  }

  // ---------- what a run achieves ----------

  /** The contents after the migrations from one index up to another. */
  function Applied<D>(changes: seq<Change<D>>, data: D, lo: nat, hi: nat): D
    requires lo <= hi <= |changes|
    decreases hi
  {
    if lo == hi then data else changes[hi - 1](Applied(changes, data, lo, hi - 1))
  }

  lemma {:induction false} AppliedInTwo<D>(changes: seq<Change<D>>, data: D, lo: nat, mid: nat, hi: nat)
    requires lo <= mid <= hi <= |changes|
    ensures Applied(changes, Applied(changes, data, lo, mid), mid, hi) == Applied(changes, data, lo, hi)
    decreases hi
  {
    if mid < hi {
      AppliedInTwo(changes, data, lo, mid, hi - 1);
    }
  }

  /** The file holds what the migrations that its version counts make of the initial contents. */
  predicate Consistent<D(==)>(changes: seq<Change<D>>, initial: D, s: State<D>) {
    0 <= s.version <= |changes| && s.data == Applied(changes, initial, 0, s.version)
  }

  predicate Succeeds<D>(fate: Fate<D>) {
    fate.begins && fate.run.Completes? && fate.commit.Commits?
  }

  /** The first migration from the v-th on that does not succeed, or their number. */
  function FirstFailure<D>(fates: Fates<D>, v: nat, n: nat): (w: nat)
    requires v <= n
    ensures v <= w <= n
    decreases n - v
  {
    if v == n || !Succeeds(fates(v)) then v else FirstFailure(fates, v + 1, n)
  }

  /** The version after the migrations from v up to w, when the setter may fail unnoticed. */
  function LastWritten<D>(fates: Fates<D>, version: int, v: nat, w: nat): int
    requires v <= w
    decreases w
  {
    if v == w then version
    else if fates(w - 1).writesVersion then w
    else LastWritten(fates, version, v, w - 1)
  }

  lemma {:induction false} LastWrittenInTwo<D>(fates: Fates<D>, version: int, v: nat, w: nat)
    requires v < w
    ensures LastWritten(fates, version, v, w)
         == LastWritten(fates, if fates(v).writesVersion then v + 1 else version, v + 1, w)
    decreases w
  {
    if v + 1 < w {
      LastWrittenInTwo(fates, version, v, w - 1);
    }
  }

  /** Exactly what a run commits, whatever fails: the migrations before the first that fails, each
      of them once and whole, and the last version number that was written. */
  lemma {:induction false} StepsCommit<D>(changes: seq<Change<D>>, v: nat, db: Db<D>, fates: Fates<D>)
    requires v <= |changes| && db.open.None?
    ensures var r, w := Steps(changes, v, db, fates), FirstFailure(fates, v, |changes|);
            && r.0.committed == State(Applied(changes, db.committed.data, v, w), LastWritten(fates, db.committed.version, v, w))
            && (r.1 <==> w == |changes|)
            && (r.1 ==> r.0.open.None?)
    decreases |changes| - v
  {
    if v < |changes| && Succeeds(fates(v)) {
      var r := Step(changes[v], v, db, fates(v));
      StepsCommit(changes, v + 1, r.0, fates);
      var w := FirstFailure(fates, v, |changes|);
      assert Applied(changes, db.committed.data, v, v + 1) == r.0.committed.data;
      AppliedInTwo(changes, db.committed.data, v, v + 1, w);
      LastWrittenInTwo(fates, db.committed.version, v, w);
    }
  }

  ghost predicate VersionsWritten<D(!new)>(fates: Fates<D>) {
    forall v :: fates(v).writesVersion
  }

  /** Where the version numbers are written, a run that starts from a consistent file leaves one, at
      the first migration that fails; it finishes exactly if none does. */
  lemma RunKeepsConsistent<D(!new)>(changes: seq<Change<D>>, db: Db<D>, fates: Fates<D>, initial: D)
    requires db.open.None? && Consistent(changes, initial, db.committed) && VersionsWritten(fates)
    ensures var r, w := Migrated(changes, db, true, fates), FirstFailure(fates, db.committed.version, |changes|);
            && Consistent(changes, initial, r.0.committed) && r.0.committed.version == w
            && r.1 == (if w == |changes| then Finished else Failed)
            && (r.1 == Finished ==> r.0.open.None?)
  {
    var v := db.committed.version;
    var w := FirstFailure(fates, v, |changes|);
    StepsCommit(changes, v, db, fates);
    AppliedInTwo(changes, initial, 0, v, w);
    assert w > v ==> fates(w - 1).writesVersion;
  }

  /** A run after one that finished finds nothing to do. */
  lemma FinishedRunIsIdempotent<D(!new)>(changes: seq<Change<D>>, db: Db<D>, fates: Fates<D>, later: Fates<D>, initial: D)
    requires db.open.None? && Consistent(changes, initial, db.committed) && VersionsWritten(fates)
    requires Migrated(changes, db, true, fates).1 == Finished
    ensures var after := Migrated(changes, db, true, fates).0;
            after.committed.version == |changes| && Migrated(changes, after, true, later) == (after, Finished)
  {
    RunKeepsConsistent(changes, db, fates, initial);
  }

  // ---------- what a failure leaves behind ----------

  /** The migration fails with its transaction open, and ROLLBACK fails too. */
  predicate LeavesOpen<D>(fate: Fate<D>) {
    fate.begins && (fate.run.Throws? || (fate.run.Completes? && fate.commit.StaysOpen?)) && !fate.rollsBack
  }

  /** A run ends inside a transaction if and only if it ends at a migration whose transaction could
      neither be committed nor rolled back. */
  lemma {:induction false} FailureIsUndone<D>(changes: seq<Change<D>>, v: nat, db: Db<D>, fates: Fates<D>)
    requires v <= |changes| && db.open.None?
    ensures var r, w := Steps(changes, v, db, fates), FirstFailure(fates, v, |changes|);
            r.0.open.Some? <==> w < |changes| && LeavesOpen(fates(w))
    decreases |changes| - v
  {
    if v < |changes| && Succeeds(fates(v)) {
      FailureIsUndone(changes, v + 1, Step(changes[v], v, db, fates(v)).0, fates);
    }
  }

  ghost predicate AlwaysSucceeds<D(!new)>(fates: Fates<D>) {
    forall v :: Succeeds(fates(v))
  }

  /** After a run that failed anywhere, a second run on the same connection in which everything works
      completes the migrations, if and only if the first left no transaction open. */
  lemma RetryFinishes<D(!new)>(changes: seq<Change<D>>, db: Db<D>, fates: Fates<D>, later: Fates<D>, initial: D)
    requires db.open.None? && Consistent(changes, initial, db.committed) && VersionsWritten(fates)
    requires VersionsWritten(later) && AlwaysSucceeds(later)
    ensures var first, w := Migrated(changes, db, true, fates), FirstFailure(fates, db.committed.version, |changes|);
            var second, done := Migrated(changes, first.0, true, later), State(Applied(changes, initial, 0, |changes|), |changes|);
            && (second.0.committed == done <==> w == |changes| || !LeavesOpen(fates(w)))
            && (w == |changes| || !LeavesOpen(fates(w)) ==> second == (Db(done, None), Finished))
  {
    hide Steps, Applied;
    RunKeepsConsistent(changes, db, fates, initial);
    FailureIsUndone(changes, db.committed.version, db, fates);
    var first := Migrated(changes, db, true, fates).0;
    if first.open.None? {
      RunKeepsConsistent(changes, first, later, initial);
      AllSucceed(later, first.committed.version, |changes|);
    } else {
      OpenTransactionBlocks(changes, first, later);
    }
  }

  lemma {:induction false} AllSucceed<D(!new)>(fates: Fates<D>, v: nat, n: nat)
    requires v <= n && AlwaysSucceeds(fates)
    ensures FirstFailure(fates, v, n) == n
    decreases n - v
  {
    if v < n {
      AllSucceed(fates, v + 1, n);
    }
  }

  /** A migration that throws half-way, with a ROLLBACK that works: nothing of it is left. */
  lemma ThrownIsUndone()
    ensures var fates: Fates<seq<nat>> := v => Fate(true, Throws([9]), true, Commits, true);
            var db := Db(State([], 0), None);
            Migrated(Logging(1), db, true, fates) == (db, Failed)
  {
  }

  /** A file newer than the program stops it and is left alone; no other file does, unless its version
      is negative. */
  lemma NewerFileIsLeftAlone<D>(changes: seq<Change<D>>, db: Db<D>, fates: Fates<D>)
    requires Current(db).version >= 0
    ensures var r := Migrated(changes, db, true, fates);
            (r.1 == Trapped <==> Current(db).version > |changes|) && (r.1 == Trapped ==> r.0 == db)
  {
  }

  // ---------- what goes wrong, and exactly when ----------

  /** The setter of userVersion swallows its errors. The version counts the migrations that were
      committed exactly if there were none or the last of them wrote its number. */
  lemma LastWriteDecides<D>(changes: seq<Change<D>>, db: Db<D>, fates: Fates<D>, initial: D)
    requires db.open.None? && Consistent(changes, initial, db.committed)
    ensures var s, w := Migrated(changes, db, true, fates).0.committed, FirstFailure(fates, db.committed.version, |changes|);
            && s.data == Applied(changes, initial, 0, w)
            && (s.version == w <==> w == db.committed.version || fates(w - 1).writesVersion)
  {
    var v := db.committed.version;
    var w := FirstFailure(fates, v, |changes|);
    StepsCommit(changes, v, db, fates);
    AppliedInTwo(changes, initial, 0, v, w);
    if v < w && !fates(w - 1).writesVersion {
      LastWrittenIsBelow(fates, v, v, w - 1);
    }
  }

  lemma {:induction false} LastWrittenIsBelow<D>(fates: Fates<D>, version: int, v: nat, w: nat)
    requires version <= v <= w
    ensures LastWritten(fates, version, v, w) <= w
    decreases w
  {
    if v < w && !fates(w - 1).writesVersion {
      LastWrittenIsBelow(fates, version, v, w - 1);
    }
  }

  /** The getter of userVersion turns an error into version 0: the migrations are applied to contents
      that already have some. */
  lemma UnreadVersionRepeats<D>(changes: seq<Change<D>>, db: Db<D>, fates: Fates<D>)
    requires db.open.None?
    ensures var w := FirstFailure(fates, 0, |changes|);
            Migrated(changes, db, false, fates).0.committed
            == State(Applied(changes, db.committed.data, 0, w), LastWritten(fates, db.committed.version, 0, w))
  {
    StepsCommit(changes, 0, db, fates);
  }

  /** A transaction that a failed ROLLBACK has left open blocks every later run on the connection;
      the run reports success exactly if the open transaction already has the last version. */
  lemma OpenTransactionBlocks<D>(changes: seq<Change<D>>, db: Db<D>, fates: Fates<D>)
    requires db.open.Some?
    ensures var r := Migrated(changes, db, true, fates);
            r.0 == db && (r.1 == Finished <==> db.open.value.version == |changes|)
  {
  }

  // ---------- the same, counted ----------

  /** Migrations that leave a trace: the i-th appends i to the contents. */
  function Logging(n: nat): (changes: seq<Change<seq<nat>>>)
    ensures |changes| == n
  {
    seq(n, i requires 0 <= i < n => (log: seq<nat>) => log + [i])
  }

  function Indices(lo: nat, hi: nat): (r: seq<nat>)
    requires lo <= hi
    ensures |r| == hi - lo
  {
    seq(hi - lo, i requires 0 <= i < hi - lo => lo + i)
  }

  lemma {:induction false} AppliedLog(n: nat, log: seq<nat>, lo: nat, hi: nat)
    requires lo <= hi <= n
    ensures Applied(Logging(n), log, lo, hi) == log + Indices(lo, hi)
    decreases hi
  {
    if lo < hi {
      AppliedLog(n, log, lo, hi - 1);
      assert Logging(n)[hi - 1](log + Indices(lo, hi - 1)) == log + Indices(lo, hi - 1) + [hi - 1];
      assert Indices(lo, hi) == Indices(lo, hi - 1) + [hi - 1];
    }
  }

  lemma {:induction false} LastWrittenIsIn<D>(fates: Fates<D>, version: int, v: nat, w: nat)
    requires v <= w
    ensures LastWritten(fates, version, v, w) == version || v < LastWritten(fates, version, v, w) <= w
    decreases w
  {
    if v < w && !fates(w - 1).writesVersion {
      LastWrittenIsIn(fates, version, v, w - 1);
    }
  }

  /** A run that cannot read the version of a consistent file leaves a consistent one if and only if it
      commits no migration, or the file had none and the last one committed wrote its number.
      Otherwise migrations are in the file twice, and the version may have gone back. */
  lemma UnreadVersionBreaks(n: nat, db: Db<seq<nat>>, fates: Fates<seq<nat>>)
    requires db.open.None? && Consistent(Logging(n), [], db.committed)
    ensures var s, w := Migrated(Logging(n), db, false, fates).0.committed, FirstFailure(fates, 0, n);
            && s.data == Indices(0, db.committed.version) + Indices(0, w)
            && (w > 0 && fates(w - 1).writesVersion ==> s.version == w)
            && (Consistent(Logging(n), [], s) <==> w == 0 || (db.committed.version == 0 && fates(w - 1).writesVersion))
  {
    hide Migrated, Logging, Applied;
    var v, w := db.committed.version, FirstFailure(fates, 0, n);
    var s := Migrated(Logging(n), db, false, fates).0.committed;
    UnreadVersionRepeats(Logging(n), db, fates);
    AppliedLog(n, [], 0, v);
    AppliedLog(n, db.committed.data, 0, w);
    LastWrittenIsIn(fates, v, 0, w);
    if w > 0 && !fates(w - 1).writesVersion {
      LastWrittenIsIn(fates, v, 0, w - 1);
    }
    assert [] + Indices(0, v) == Indices(0, v);
    assert Indices(0, v) + Indices(0, 0) == Indices(0, v) && Indices(0, 0) + Indices(0, w) == Indices(0, w);
    if 0 <= s.version <= n {
      AppliedLog(n, [], 0, s.version);
      assert [] + Indices(0, s.version) == Indices(0, s.version);
      assert Consistent(Logging(n), [], s) ==> s.version == v + w;
    }
  }

  /** A migration whose number was not written runs again, and with it all since the number that was:
      after the next run the file has them twice and is not consistent. */
  lemma LostWriteRepeats(n: nat, db: Db<seq<nat>>, fates: Fates<seq<nat>>, later: Fates<seq<nat>>)
    requires db.open.None? && Consistent(Logging(n), [], db.committed)
    requires var w := FirstFailure(fates, db.committed.version, n); w > db.committed.version && !fates(w - 1).writesVersion
    ensures var s, w := Migrated(Logging(n), db, true, fates).0.committed, FirstFailure(fates, db.committed.version, n);
            && s.data == Indices(0, w) && 0 <= s.version < w
            && var t, u := Migrated(Logging(n), Db(s, None), true, later).0.committed, FirstFailure(later, s.version, n);
            && t.data == Indices(0, w) + Indices(s.version, u)
            && !Consistent(Logging(n), [], t)
  {
    hide Migrated, Logging, Applied;
    var v := db.committed.version;
    var w := FirstFailure(fates, v, n);
    MigratedCommits(Logging(n), db, fates);
    AppliedLog(n, [], 0, v);
    AppliedLog(n, db.committed.data, v, w);
    LastWrittenIsIn(fates, v, v, w - 1);
    var s := Migrated(Logging(n), db, true, fates).0.committed;
    assert [] + Indices(0, v) == Indices(0, v) && Indices(0, v) + Indices(v, w) == Indices(0, w);
    var u := FirstFailure(later, s.version, n);
    MigratedCommits(Logging(n), Db(s, None), later);
    AppliedLog(n, s.data, s.version, u);
    LastWrittenIsIn(later, s.version, s.version, u);
    var t := Migrated(Logging(n), Db(s, None), true, later).0.committed;
    AppliedLog(n, [], 0, t.version);
    assert |[] + Indices(0, t.version)| == t.version < |t.data|;
  }

  lemma MigratedCommits<D>(changes: seq<Change<D>>, db: Db<D>, fates: Fates<D>)
    requires db.open.None? && 0 <= db.committed.version <= |changes|
    ensures var v := db.committed.version;
            var w := FirstFailure(fates, v, |changes|);
            Migrated(changes, db, true, fates).0.committed
            == State(Applied(changes, db.committed.data, v, w), LastWritten(fates, v, v, w))
  {
    StepsCommit(changes, db.committed.version, db, fates);
  }

  /** One migration, already in the file: read as version 0 the file gets it twice. */
  lemma AppliedTwice()
    ensures var works: Fates<seq<nat>> := v => Fate(true, Completes, true, Commits, true);
            Migrated(Logging(1), Db(State([0], 1), None), false, works).0.committed == State([0, 0], 1)
  {
    var works: Fates<seq<nat>> := v => Fate(true, Completes, true, Commits, true);
    UnreadVersionRepeats(Logging(1), Db(State([0], 1), None), works);
    AppliedLog(1, [0], 0, 1);
    assert FirstFailure(works, 0, 1) == 1 && Indices(0, 1) == [0] && [0] + [0] == [0, 0];
  }

  /** One migration whose number is not written: the next run, in which everything works, repeats it. */
  lemma NumberNotWritten()
    ensures var fates: Fates<seq<nat>> := v => Fate(true, Completes, false, Commits, true);
            var works: Fates<seq<nat>> := v => Fate(true, Completes, true, Commits, true);
            var s := Migrated(Logging(1), Db(State([], 0), None), true, fates).0.committed;
            s == State([0], 0) && Migrated(Logging(1), Db(s, None), true, works).0.committed == State([0, 0], 1)
  {
    var fates: Fates<seq<nat>> := v => Fate(true, Completes, false, Commits, true);
    var works: Fates<seq<nat>> := v => Fate(true, Completes, true, Commits, true);
    MigratedCommits(Logging(1), Db(State([], 0), None), fates);
    MigratedCommits(Logging(1), Db(State([0], 0), None), works);
    AppliedLog(1, [], 0, 1);
    AppliedLog(1, [0], 0, 1);
    assert FirstFailure(fates, 0, 1) == 1 == FirstFailure(works, 0, 1) && Indices(0, 1) == [0];
    assert [] + [0] == [0] && [0] + [0] == [0, 0];
    assert LastWritten(fates, 0, 0, 0) == 0;
  }

  // ---------- whole histories ----------

  /** The program starts, and runs migrate on a list of migrations; or it ends, closed or not. */
  datatype Event<!D> = Launch(changes: seq<Change<D>>, fates: Fates<D>) | Restart

  function Happen<D>(e: Event<D>, db: Db<D>): Db<D> {
    match e
    case Launch(changes, fates) => Migrated(changes, db, true, fates).0
    case Restart => db.(open := None)
  }

  function Replay<D>(events: seq<Event<D>>, db: Db<D>): Db<D>
    decreases |events|
  {
    if events == [] then db else Replay(events[1..], Happen(events[0], db))
  }

  /** The list of migrations only ever grows at its end. */
  ghost predicate Grows<D(!new)>(events: seq<Event<D>>, base: seq<Change<D>>)
    decreases |events|
  {
    if events == [] then true
    else if events[0].Restart? then Grows(events[1..], base)
    else base <= events[0].changes && VersionsWritten(events[0].fates) && Grows(events[1..], events[0].changes)
  }

  ghost function LatestList<D>(events: seq<Event<D>>, base: seq<Change<D>>): seq<Change<D>>
    decreases |events|
  {
    if events == [] then base
    else LatestList(events[1..], if events[0].Restart? then base else events[0].changes)
  }

  lemma {:induction false} AppliedOfPrefix<D>(base: seq<Change<D>>, changes: seq<Change<D>>, data: D, n: nat)
    requires base <= changes && n <= |base|
    ensures Applied(changes, data, 0, n) == Applied(base, data, 0, n)
  {
    if n > 0 {
      AppliedOfPrefix(base, changes, data, n - 1);
    }
  }

  /** Through any sequence of runs and restarts, with failures anywhere, the file holds at every
      moment exactly the migrations that its version counts, and the version never goes back. */
  lemma {:induction false} HistoryKeepsConsistent<D(!new)>(events: seq<Event<D>>, db: Db<D>, base: seq<Change<D>>, initial: D)
    requires Consistent(base, initial, db.committed) && Grows(events, base)
    ensures var s := Replay(events, db).committed;
            Consistent(LatestList(events, base), initial, s) && s.version >= db.committed.version
    decreases |events|
  {
    if events != [] {
      var e := events[0];
      var next := Happen(e, db);
      if e.Restart? {
        HistoryKeepsConsistent(events[1..], next, base, initial);
      } else {
        AppliedOfPrefix(base, e.changes, initial, db.committed.version);
        if db.open.None? {
          RunKeepsConsistent(e.changes, db, e.fates, initial);
        } else {
          OpenTransactionBlocks(e.changes, db, e.fates);
        }
        HistoryKeepsConsistent(events[1..], next, e.changes, initial);
      }
    }
  }
}
