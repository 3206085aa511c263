/**
 Bringing the schema of the operations database up to date.  Every statement takes effect on its own,
 and the process may be killed between any two of them; the next start begins again.
 */
module Migrations {
  import opened Base

  /** What the base schema consists of: both kinds are written `IF NOT EXISTS`. */
  datatype Create =
    | Table(name: string, columns: set<string>)
    | Index(name: string, table: string, columns: set<string>)

  datatype Stmt = Make(create: Create) | AddColumn(table: string, column: string)

  datatype Db = Db(tables: map<string, set<string>>, indexes: map<string, Create>, version: Option<int>)

  datatype Outcome = Done(db: Db) | DuplicateColumn | Error

  const META := "schema_meta"

  /** The base schema, and the statements of each migration by the version it leads to. */
  datatype Plan = Plan(base: seq<Create>, migrations: map<int, seq<Stmt>>)

  function NoDb(): Db {
    Db(map[], map[], None)
  }

  // ---- Statements ----

  function ExecCreate(db: Db, c: Create): Outcome {
    match c
    case Table(name, columns) =>
      if name in db.tables then Done(db) else Done(db.(tables := db.tables[name := columns]))
    case Index(name, table, columns) =>
      if table !in db.tables then Error
      else if name in db.indexes then Done(db)
      else if columns <= db.tables[table] then Done(db.(indexes := db.indexes[name := c]))
      else Error
  }

  function Exec(db: Db, s: Stmt): Outcome {
    match s
    case Make(c) => ExecCreate(db, c)
    case AddColumn(table, column) =>
      if table !in db.tables then Error
      else if column in db.tables[table] then DuplicateColumn
      else Done(db.(tables := db.tables[table := db.tables[table] + {column}]))
  }

  /** What a start does one after the other: statements, and writing down the version. */
  datatype Action = Execute(stmt: Stmt) | Record(version: int)

  /** The database after one action, or nothing if it raises; a duplicate column does not. */
  function Perform(db: Db, a: Action): Option<Db> {
    match a
    case Execute(s) =>
      (match Exec(db, s)
       case Done(after) => Some(after)
       case DuplicateColumn => Some(db)
       case Error => None)
    case Record(v) =>
      if META in db.tables then Some(db.(version := Some(v))) else None
  }

  datatype Ran = Ran(db: Db, ok: bool)

  /** Actions up to the first that raises. */
  function PerformAll(db: Db, actions: seq<Action>): Ran {
    if |actions| == 0 then Ran(db, true)
    else
      var r := PerformAll(db, actions[..|actions| - 1]);
      if !r.ok then r
      else
        var after := Perform(r.db, actions[|actions| - 1]);
        if after == None then Ran(r.db, false) else Ran(after.value, true)
  }

  // ---- A start ----

  function Executes(stmts: seq<Stmt>): seq<Action> {
    Map(s => Execute(s), stmts)
  }

  function BaseActions(p: Plan): seq<Action> {
    Map(c => Execute(Make(c)), p.base)
  }

  function MigrationActions(p: Plan, v: int): seq<Action> {
    Executes(if v in p.migrations then p.migrations[v] else []) + [Record(v)]
  }

  /** The migrations after version `current`, up to `target`. */
  function Pending(p: Plan, current: int, target: int): seq<Action>
    decreases target - current
  {
    if target <= current then [] else Pending(p, current, target - 1) + MigrationActions(p, target)
  }

  /** The recorded version, or 1 if there is none or it cannot be read. */
  function VersionRead(db: Db, readFails: bool): int {
    if readFails || db.version == None then 1 else db.version.value
  }

  function StartActions(p: Plan, db: Db, target: int, readFails: bool): seq<Action> {
    BaseActions(p) + Pending(p, VersionRead(db, readFails), target)
  }

  /** One start of the program whose current version is `target`, killed after `cut` actions at the latest. */
  datatype Start = Start(target: int, readFails: bool, cut: nat)

  function Begin(p: Plan, db: Db, s: Start): Db {
    var actions := StartActions(p, db, s.target, s.readFails);
    PerformAll(db, if s.cut <= |actions| then actions[..s.cut] else actions).db
  }

  function BeginAll(p: Plan, db: Db, starts: seq<Start>): Db {
    if |starts| == 0 then db else Begin(p, BeginAll(p, db, starts[..|starts| - 1]), starts[|starts| - 1])
  }

  class OpsDatabase {
    var db: Db

    constructor ()
      ensures db == NoDb()
    {
      db := NoDb();
    }

    method EnsureSchema(p: Plan) returns (ok: bool)
      modifies this
      ensures Ran(db, ok) == PerformAll(old(db), BaseActions(p))
    {
      var actions := BaseActions(p);
      for i := 0 to |p.base|
        invariant PerformAll(old(db), actions[..i]) == Ran(db, true)
      {
        assert actions[..i + 1][..i] == actions[..i];
        match ExecCreate(db, p.base[i]) {
          case Done(after) => db := after;
          case DuplicateColumn => assert false;
          case Error =>
            FailsForGood(old(db), actions, i + 1);
            return false;
        }
      }
      assert actions[..|p.base|] == actions;
      ok := true;
    }

    method RunMigrations(p: Plan, target: int, readFails: bool) returns (ok: bool)
      modifies this
      ensures Ran(db, ok) == PerformAll(old(db), Pending(p, VersionRead(old(db), readFails), target))
    {
      hide Perform, MigrationActions, PerformAll;
      PerformNone(db);
      var current := VersionRead(db, readFails);
      if current >= target { return true; }
      for v := current + 1 to target + 1
        invariant PerformAll(old(db), Pending(p, current, v - 1)) == Ran(db, true)
      {
        ok := Migrate(p, v);
        PerformConcat(old(db), Pending(p, current, v - 1), MigrationActions(p, v));
        if !ok {
          PendingSplits(p, current, v, target);
          PerformConcat(old(db), Pending(p, current, v), Pending(p, v, target));
          return;
        }
      }
      ok := true;
    }

    /** One migration, and then its version is recorded. */
    method Migrate(p: Plan, v: int) returns (ok: bool)
      modifies this
      ensures Ran(db, ok) == PerformAll(old(db), MigrationActions(p, v))
    {
      var stmts := if v in p.migrations then p.migrations[v] else [];
      var actions := MigrationActions(p, v);
      for i := 0 to |stmts|
        invariant PerformAll(old(db), actions[..i]) == Ran(db, true)
      {
        assert actions[..i + 1][..i] == actions[..i];
        match Exec(db, stmts[i]) {
          case Done(after) => db := after;
          case DuplicateColumn =>
          case Error =>
            FailsForGood(old(db), actions, i + 1);
            return false;
        }
      }
      assert actions[..|stmts|] == actions[..|actions| - 1];
      if META !in db.tables { return false; }
      db := db.(version := Some(v));
      ok := true;
    }

    /** A start that is not killed. */
    method Startup(p: Plan, target: int, readFails: bool) returns (ok: bool)
      modifies this
      ensures Ran(db, ok) == PerformAll(old(db), StartActions(p, old(db), target, readFails))
    {
      ok := EnsureSchema(p);
      BaseKeepsVersion(old(db), BaseActions(p));
      PerformConcat(old(db), BaseActions(p), Pending(p, VersionRead(old(db), readFails), target));
      if !ok { return; }
      ok := RunMigrations(p, target, readFails);
    }
  }

  // ---- Sequences of actions ----

  lemma PerformNone(db: Db)
    ensures PerformAll(db, []) == Ran(db, true)
  {
  }

  lemma {:induction false} PerformConcat(db: Db, a: seq<Action>, b: seq<Action>)
    ensures PerformAll(db, a + b) == (var r := PerformAll(db, a); if r.ok then PerformAll(r.db, b) else r)
    decreases |b|
  {
    if |b| == 0 {
      assert a + b == a;
    } else {
      assert (a + b)[..|a + b| - 1] == a + b[..|b| - 1];
      PerformConcat(db, a, b[..|b| - 1]);
    }
  }

  lemma FailsForGood(db: Db, actions: seq<Action>, i: nat)
    requires i <= |actions| && !PerformAll(db, actions[..i]).ok
    ensures PerformAll(db, actions) == PerformAll(db, actions[..i])
  {
    PerformConcat(db, actions[..i], actions[i..]);
    assert actions[..i] + actions[i..] == actions;
  }

  lemma {:induction false} PendingSplits(p: Plan, a: int, b: int, c: int)
    requires a <= b <= c
    ensures Pending(p, a, c) == Pending(p, a, b) + Pending(p, b, c)
    decreases c - b
  {
    if b < c {
      PendingSplits(p, a, b, c - 1);
      assert Pending(p, a, b) + (Pending(p, b, c - 1) + MigrationActions(p, c)) == (Pending(p, a, b) + Pending(p, b, c - 1)) + MigrationActions(p, c);
    }
  }

  lemma {:induction false} BaseKeepsVersion(db: Db, actions: seq<Action>)
    requires forall a <- actions :: a.Execute?
    ensures PerformAll(db, actions).db.version == db.version
  {
    if |actions| > 0 {
      BaseKeepsVersion(db, actions[..|actions| - 1]);
    }
  }
}
