/** What any history of starts, killed wherever, leaves behind. */
module MigrationSafety {
  import opened Base
  import opened Migrations

  /** Everything a first start of version `v` does, in order. */
  function Script(p: Plan, v: int): seq<Action> {
    BaseActions(p) + Pending(p, 1, v)
  }

  /** The database after the first `k` actions, from nothing and without interruption. */
  function After(p: Plan, v: int, k: nat): Ran
    requires k <= |Script(p, v)|
  {
    PerformAll(NoDb(), Script(p, v)[..k])
  }

  ghost predicate SameSchema(a: Db, b: Db) {
    a.tables == b.tables && a.indexes == b.indexes
  }

  // ---- Settled actions ----

  /** The action has had its effect: doing it again changes nothing but the recorded version. */
  ghost predicate Settled(db: Db, a: Action) {
    match a
    case Execute(s) => Exec(db, s) == Done(db) || Exec(db, s) == DuplicateColumn
    case Record(_) => META in db.tables
  }

  lemma PerformedIsSettled(db: Db, a: Action)
    requires Perform(db, a) != None
    ensures Settled(Perform(db, a).value, a)
  {
  }

  lemma SettledStays(db: Db, a: Action, b: Action)
    requires Settled(db, a) && Perform(db, b) != None
    ensures Settled(Perform(db, b).value, a)
  {
  }

  lemma SettledRepeats(db: Db, a: Action)
    requires Settled(db, a)
    ensures Perform(db, a) == Some(if a.Record? then db.(version := Some(a.version)) else db)
  {
  }

  /** Schemas do not depend on the recorded version. */
  lemma SchemaOnly(x: Db, y: Db, a: Action)
    requires SameSchema(x, y)
    ensures (Perform(x, a) == None) == (Perform(y, a) == None)
    ensures Perform(x, a) != None ==> SameSchema(Perform(x, a).value, Perform(y, a).value)
    ensures Settled(x, a) == Settled(y, a)
  {
  }

  lemma {:induction false} AllSettled(db: Db, actions: seq<Action>, i: nat)
    requires i < |actions| && PerformAll(db, actions).ok
    ensures Settled(PerformAll(db, actions).db, actions[i])
    decreases |actions|
  {
    hide Settled, Perform;
    var front, last := actions[..|actions| - 1], actions[|actions| - 1];
    var before := PerformAll(db, front).db;
    if i < |front| {
      AllSettled(db, front, i);
      SettledStays(before, actions[i], last);
    } else {
      PerformedIsSettled(before, last);
    }
  }

  // ---- Where a database can be ----

  /** `k` actions of the script have had their effect, and the recorded version is among them. */
  ghost predicate At(p: Plan, v: int, db: Db, k: nat) {
    && k <= |Script(p, v)| && After(p, v, k).ok
    && SameSchema(db, After(p, v, k).db)
    && (db.version != None ==> 2 <= db.version.value <= v && |Script(p, db.version.value)| <= k)
  }

  lemma ScriptSplits(p: Plan, u: int, v: int)
    requires 1 <= u <= v
    ensures Script(p, v) == Script(p, u) + Pending(p, u, v)
  {
    PendingSplits(p, 1, u, v);
    hide BaseActions, Pending;
    Regrouped(BaseActions(p), Pending(p, 1, u), Pending(p, u, v));
  }

  lemma Regrouped(a: seq<Action>, b: seq<Action>, c: seq<Action>)
    ensures a + (b + c) == (a + b) + c
  {
  }

  lemma ScriptEnds(p: Plan, v: int)
    requires 2 <= v
    ensures Script(p, v) == Script(p, v - 1) + MigrationActions(p, v)
    ensures Script(p, v)[|Script(p, v)| - 1] == Record(v)
  {
    ScriptSplits(p, v - 1, v);
    assert Pending(p, v - 1, v - 1) == [];
    assert Pending(p, v - 1, v) == MigrationActions(p, v);
  }

  /** The action at position `j` of a script, when it records a version, is the end of that version's script. */
  lemma {:induction false} RecordsEnd(p: Plan, v: int, j: nat)
    requires j < |Script(p, v)| && Script(p, v)[j].Record?
    ensures var w := Script(p, v)[j].version; 2 <= w <= v && |Script(p, w)| == j + 1
    decreases v
  {
    if v >= 2 {
      ScriptEnds(p, v);
      if j < |Script(p, v - 1)| {
        RecordsEnd(p, v - 1, j);
      } else {
        assert Script(p, v)[j] == MigrationActions(p, v)[j - |Script(p, v - 1)|];
      }
    }
  }

  /** The next action of the script, from anywhere not behind what was done already. */
  lemma AtNext(p: Plan, v: int, db: Db, k: nat, j: nat) returns (k': nat)
    requires At(p, v, db, k) && j <= k && j < |Script(p, v)|
    ensures Perform(db, Script(p, v)[j]) == None ==> j == k && !After(p, v, k + 1).ok
    ensures Perform(db, Script(p, v)[j]) != None ==> k <= k' && j + 1 <= k' && At(p, v, Perform(db, Script(p, v)[j]).value, k')
  {
    hide Perform, Settled, Script;
    k' := k;
    var a := Script(p, v)[j];
    if a.Record? { RecordsEnd(p, v, j); }
    if j < k {
      AllSettled(NoDb(), Script(p, v)[..k], j);
      SchemaOnly(db, After(p, v, k).db, a);
      SettledRepeats(db, a);
    } else {
      SchemaOnly(db, After(p, v, k).db, a);
      assert Script(p, v)[..k + 1][..k] == Script(p, v)[..k];
      if Perform(db, a) != None {
        VersionAfter(db, a);
        k' := k + 1;
      }
    }
  }

  lemma VersionAfter(db: Db, a: Action)
    requires Perform(db, a) != None
    ensures Perform(db, a).value.version == if a.Record? then Some(a.version) else db.version
  {
  }

  lemma {:induction false} OkBefore(db: Db, actions: seq<Action>, i: nat)
    requires i <= |actions| && PerformAll(db, actions).ok
    ensures PerformAll(db, actions[..i]).ok
  {
    PerformConcat(db, actions[..i], actions[i..]);
    assert actions[..i] + actions[i..] == actions;
  }

  /** A stretch of the script, from anywhere not behind what was done already. */
  lemma {:induction false} AtRun(p: Plan, v: int, db: Db, k: nat, j: nat, m: nat) returns (k': nat)
    requires At(p, v, db, k) && j <= k && j + m <= |Script(p, v)|
    ensures var r := PerformAll(db, Script(p, v)[j..j + m]); k <= k' && At(p, v, r.db, k') && (r.ok ==> j + m <= k')
    decreases m
  {
    hide At, Perform, Script;
    if m == 0 {
      k' := k;
    } else {
      k' := AtRun(p, v, db, k, j, m - 1);
      assert Script(p, v)[j..j + m][..m - 1] == Script(p, v)[j..j + m - 1];
      var r := PerformAll(db, Script(p, v)[j..j + m - 1]);
      if r.ok {
        var next := AtNext(p, v, r.db, k', j + m - 1);
        if Perform(r.db, Script(p, v)[j + m - 1]) != None { k' := next; }
      }
    }
  }

  /** Where the migrations of a start begin in the script. */
  lemma PendingInScript(p: Plan, c: int, t: int, v: int, x: nat)
    requires 1 <= c && t <= v && 1 <= v && x <= |Pending(p, c, t)|
    ensures c < t ==> |Script(p, c)| + x <= |Script(p, v)| && Pending(p, c, t)[..x] == Script(p, v)[|Script(p, c)|..|Script(p, c)| + x]
    ensures t <= c ==> Pending(p, c, t) == []
  {
    if c < t {
      ScriptSplits(p, c, v);
      PendingSplits(p, c, t, v);
    }
  }

  lemma StartKeeps(p: Plan, v: int, db: Db, k: nat, s: Start) returns (k': nat)
    requires At(p, v, db, k) && s.target <= v && 1 <= v
    ensures k <= k' && At(p, v, Begin(p, db, s), k')
  {
    hide Perform, At, PerformAll;
    var ready, later := BaseActions(p), Pending(p, VersionRead(db, s.readFails), s.target);
    var actions := ready + later;
    var n := if s.cut <= |actions| then s.cut else |actions|;
    assert (if s.cut <= |actions| then actions[..s.cut] else actions) == actions[..n];
    if n <= |ready| {
      assert actions[..n] == Script(p, v)[0..0 + n];
      k' := AtRun(p, v, db, k, 0, n);
    } else {
      var x := n - |ready|;
      assert actions[..n] == ready + later[..x];
      k' := StartKeepsOn(p, v, db, k, s, x);
    }
  }

  lemma Within(p: Plan, v: int, db: Db, k: nat, readFails: bool)
    requires At(p, v, db, k)
    ensures |BaseActions(p)| <= |Script(p, v)| && BaseActions(p) == Script(p, v)[0..0 + |BaseActions(p)|] && 1 <= VersionRead(db, readFails)
    ensures forall a <- BaseActions(p) :: a.Execute?
  {
  }

  lemma SameVersionRead(a: Db, b: Db, readFails: bool)
    requires a.version == b.version
    ensures VersionRead(a, readFails) == VersionRead(b, readFails)
  {
  }

  lemma StartKeepsOn(p: Plan, v: int, db: Db, k: nat, s: Start, x: nat) returns (k': nat)
    requires At(p, v, db, k) && s.target <= v && 1 <= v && x <= |Pending(p, VersionRead(db, s.readFails), s.target)|
    ensures k <= k' && At(p, v, PerformAll(db, BaseActions(p) + Pending(p, VersionRead(db, s.readFails), s.target)[..x]).db, k')
  {
    hide *;
    var ready, c := BaseActions(p), VersionRead(db, s.readFails);
    Within(p, v, db, k, s.readFails);
    PerformConcat(db, ready, Pending(p, c, s.target)[..x]);
    k' := AtRun(p, v, db, k, 0, |ready|);
    var r := PerformAll(db, ready);
    if r.ok {
      PendingInScript(p, c, s.target, v, x);
      BaseKeepsVersion(db, ready);
      FromVersion(p, v, r.db, k', s.readFails);
      SameVersionRead(db, r.db, s.readFails);
      if c < s.target {
        k' := AtRun(p, v, r.db, k', |Script(p, c)|, x);
      } else {
        PerformNone(r.db);
      }
    }
  }

  /** The version that is read never points past what was done. */
  lemma FromVersion(p: Plan, v: int, db: Db, k: nat, readFails: bool)
    requires At(p, v, db, k) && |BaseActions(p)| <= k
    ensures |Script(p, VersionRead(db, readFails))| <= k
  {
  }

  ghost predicate UpTo(starts: seq<Start>, v: int) {
    forall s <- starts :: s.target <= v
  }

  lemma AtStart(p: Plan, v: int)
    ensures At(p, v, NoDb(), 0)
  {
  }

  lemma {:induction false} HistoryKeeps(p: Plan, v: int, starts: seq<Start>) returns (k: nat)
    requires 1 <= v && UpTo(starts, v)
    ensures At(p, v, BeginAll(p, NoDb(), starts), k)
  {
    hide At, Begin;
    if |starts| == 0 {
      AtStart(p, v);
      k := 0;
    } else {
      k := HistoryKeeps(p, v, starts[..|starts| - 1]);
      k := StartKeeps(p, v, BeginAll(p, NoDb(), starts[..|starts| - 1]), k, starts[|starts| - 1]);
    }
  }

  /** What a statement is for is there. */
  ghost predicate Present(db: Db, s: Stmt) {
    match s
    case Make(Table(name, _)) => name in db.tables
    case Make(Index(name, table, _)) => name in db.indexes && table in db.tables
    case AddColumn(table, column) => table in db.tables && column in db.tables[table]
  }

  /** The base schema and the migrations from 2 to `w` are there. */
  ghost predicate AllPresent(p: Plan, db: Db, w: int) {
    && (forall c <- p.base :: Present(db, Make(c)))
    && forall u, s :: 2 <= u <= w && u in p.migrations && s in p.migrations[u] ==> Present(db, s)
  }

  lemma SettledIsPresent(db: Db, s: Stmt)
    requires Settled(db, Execute(s))
    ensures Present(db, s)
  {
  }

  lemma ScriptHolds(p: Plan, u: int, w: int, s: Stmt)
    requires 2 <= u <= w && u in p.migrations && s in p.migrations[u]
    ensures Execute(s) in Script(p, w)
  {
    ScriptEnds(p, u);
    ScriptSplits(p, u, w);
    var i :| 0 <= i < |p.migrations[u]| && p.migrations[u][i] == s;
    assert MigrationActions(p, u)[i] == Execute(s);
    assert Execute(s) in MigrationActions(p, u);
  }

  lemma ScriptHoldsBase(p: Plan, w: int, c: Create)
    requires c in p.base
    ensures Execute(Make(c)) in Script(p, w)
  {
    var i :| 0 <= i < |p.base| && p.base[i] == c;
    assert BaseActions(p)[i] == Execute(Make(c));
    assert Execute(Make(c)) in BaseActions(p);
  }

  lemma AllSettledIsPresent(p: Plan, db: Db, w: int)
    requires forall a <- Script(p, w) :: Settled(db, a)
    ensures AllPresent(p, db, w)
  {
    hide Script, Settled, Present;
    forall c | c in p.base ensures Present(db, Make(c)) {
      ScriptHoldsBase(p, w, c);
      SettledIsPresent(db, Make(c));
    }
    forall u, s | 2 <= u <= w && u in p.migrations && s in p.migrations[u] ensures Present(db, s) {
      ScriptHolds(p, u, w, s);
      SettledIsPresent(db, s);
    }
  }

  /** After any history, a recorded version means that the base schema and all migrations up to that version are there. */
  lemma RecordedMeansApplied(p: Plan, v: int, starts: seq<Start>)
    requires 1 <= v && UpTo(starts, v)
    ensures var db := BeginAll(p, NoDb(), starts);
            db.version != None ==> 2 <= db.version.value <= v && AllPresent(p, db, db.version.value)
  {
    var k := HistoryKeeps(p, v, starts);
    var db := BeginAll(p, NoDb(), starts);
    if db.version != None {
      AppliedAt(p, v, db, k);
      AllSettledIsPresent(p, db, db.version.value);
    }
  }

  /** A table or index of this name is created by the base schema or a migration. */
  ghost predicate Planned(p: Plan, v: int, name: string) {
    || (exists c <- p.base :: c.name == name)
    || exists u, s :: 2 <= u <= v && u in p.migrations && s in p.migrations[u] && s.Make? && s.create.name == name
  }

  lemma {:induction false} OnlyWhatRuns(db: Db, actions: seq<Action>, name: string)
    requires name !in db.tables && name !in db.indexes
    requires forall a <- actions :: a.Execute? && a.stmt.Make? ==> a.stmt.create.name != name
    ensures var r := PerformAll(db, actions).db; name !in r.tables && name !in r.indexes
  {
    if |actions| > 0 {
      assert actions[|actions| - 1] in actions;
      OnlyWhatRuns(db, actions[..|actions| - 1], name);
    }
  }

  lemma {:induction false} PendingIsPlanned(p: Plan, c: int, v: int, a: Action)
    requires 1 <= c && a in Pending(p, c, v)
    ensures if a.Record? then c < a.version <= v
            else exists u :: c < u <= v && u in p.migrations && a.stmt in p.migrations[u]
    decreases v - c
  {
    if c < v && a !in Pending(p, c, v - 1) {
      assert a in MigrationActions(p, v);
      if a.Execute? {
        assert v in p.migrations && a.stmt in p.migrations[v];
      }
    } else if c < v {
      PendingIsPlanned(p, c, v - 1, a);
    }
  }

  /**
   A complete start that succeeds, whatever came before, leaves the base schema and all migrations up to
   its version, no table or index besides, and that version recorded.
   */
  lemma CompleteMeansApplied(p: Plan, v: int, starts: seq<Start>, readFails: bool)
    requires 1 <= v && UpTo(starts, v)
    ensures var before := BeginAll(p, NoDb(), starts);
            var r := PerformAll(before, StartActions(p, before, v, readFails));
            r.ok ==>
              && AllPresent(p, r.db, v)
              && r.db.version == (if v >= 2 then Some(v) else None)
              && forall name :: name in r.db.tables || name in r.db.indexes ==> Planned(p, v, name)
  {
    hide Script, Settled, Perform, BeginAll, AllPresent, Planned;
    Converges(p, v, starts, readFails);
    var r := PerformAll(NoDb(), Script(p, v));
    StartIsScript(p, v);
    if r.ok {
      forall a | a in Script(p, v) ensures Settled(r.db, a) {
        var i :| 0 <= i < |Script(p, v)| && Script(p, v)[i] == a;
        AllSettled(NoDb(), Script(p, v), i);
      }
      AllSettledIsPresent(p, r.db, v);
      if v >= 2 {
        ScriptEnds(p, v);
        EndsRecorded(NoDb(), Script(p, v));
      } else {
        BaseKeepsVersion(NoDb(), BaseActions(p));
      }
      forall name | name in r.db.tables || name in r.db.indexes ensures Planned(p, v, name) {
        NothingElse(p, v, name);
      }
    }
  }

  lemma StartIsScript(p: Plan, v: int)
    ensures StartActions(p, NoDb(), v, false) == Script(p, v)
    ensures v < 2 ==> Script(p, v) == BaseActions(p)
  {
  }

  lemma NothingElse(p: Plan, v: int, name: string)
    requires var db := PerformAll(NoDb(), Script(p, v)).db; name in db.tables || name in db.indexes
    ensures Planned(p, v, name)
  {
    if !Planned(p, v, name) {
      forall a | a in Script(p, v) && a.Execute? && a.stmt.Make? ensures a.stmt.create.name != name {
        PlannedOrNot(p, v, a, name);
      }
      OnlyWhatRuns(NoDb(), Script(p, v), name);
    }
  }

  lemma PlannedOrNot(p: Plan, v: int, a: Action, name: string)
    requires a in Script(p, v) && a.Execute? && a.stmt.Make? && !Planned(p, v, name)
    ensures a.stmt.create.name != name
  {
    if a in BaseActions(p) {
      var i :| 0 <= i < |p.base| && BaseActions(p)[i] == a;
      assert p.base[i] in p.base;
    } else {
      PendingIsPlanned(p, 1, v, a);
    }
  }

  lemma AppliedAt(p: Plan, v: int, db: Db, k: nat)
    requires At(p, v, db, k) && db.version != None
    ensures forall a <- Script(p, db.version.value) :: Settled(db, a)
  {
    hide Settled, Perform;
    var w := db.version.value;
    ScriptSplits(p, w, v);
    forall a | a in Script(p, w) ensures Settled(db, a) {
      var i :| 0 <= i < |Script(p, w)| && Script(p, w)[i] == a;
      AllSettled(NoDb(), Script(p, v)[..k], i);
      SchemaOnly(db, After(p, v, k).db, a);
    }
  }

  // ---- Catching up ----

  /** Ready to go on with the action at `j`: the version is that of a first start, or will be written again. */
  ghost predicate Repeating(p: Plan, v: int, db: Db, j: nat, k: nat) {
    && At(p, v, db, k) && j <= k
    && (db.version == After(p, v, j).db.version || exists i :: j <= i < k && Script(p, v)[i].Record?)
  }

  lemma RepeatingNext(p: Plan, v: int, db: Db, j: nat, k: nat)
    requires Repeating(p, v, db, j, k) && j < k
    ensures Perform(db, Script(p, v)[j]) != None && Repeating(p, v, Perform(db, Script(p, v)[j]).value, j + 1, k)
  {
    hide Perform, Settled, Script;
    var a := Script(p, v)[j];
    if a.Record? { RecordsEnd(p, v, j); }
    AllSettled(NoDb(), Script(p, v)[..k], j);
    SchemaOnly(db, After(p, v, k).db, a);
    SettledRepeats(db, a);
    OkBefore(NoDb(), Script(p, v)[..k], j + 1);
    assert Script(p, v)[..k][..j + 1] == Script(p, v)[..j + 1];
    assert Script(p, v)[..j + 1][..j] == Script(p, v)[..j];
    VersionAfter(After(p, v, j).db, a);
    VersionAfter(db, a);
  }

  lemma {:induction false} CatchesUp(p: Plan, v: int, db: Db, j: nat, k: nat)
    requires Repeating(p, v, db, j, k)
    ensures PerformAll(db, Script(p, v)[j..]) == PerformAll(NoDb(), Script(p, v))
    decreases k - j
  {
    hide Perform, Script;
    var script := Script(p, v);
    if j < k {
      hide At;
      RepeatingNext(p, v, db, j, k);
      CatchesUp(p, v, Perform(db, script[j]).value, j + 1, k);
      PerformConcat(db, [script[j]], script[j + 1..]);
      assert [script[j]] + script[j + 1..] == script[j..];
      assert [script[j]][..0] == [];
      assert PerformAll(db, [script[j]]) == Ran(Perform(db, script[j]).value, true);
    } else {
      assert db == After(p, v, k).db;
      PerformConcat(NoDb(), script[..k], script[k..]);
      assert script[..k] + script[k..] == script;
    }
  }

  lemma {:induction false} AllAgain(db: Db, actions: seq<Action>)
    requires forall a <- actions :: Settled(db, a)
    ensures var r := PerformAll(db, actions);
            && r.ok && SameSchema(r.db, db)
            && ((forall a <- actions :: a.Execute?) ==> r.db == db)
            && (|actions| > 0 && actions[|actions| - 1].Record? ==> r.db.version == Some(actions[|actions| - 1].version))
  {
    if |actions| > 0 {
      hide Settled, Perform;
      var front, last := actions[..|actions| - 1], actions[|actions| - 1];
      assert forall a <- front :: a in actions;
      AllAgain(db, front);
      SchemaOnly(db, PerformAll(db, front).db, last);
      SettledRepeats(PerformAll(db, front).db, last);
    }
  }

  lemma EndsRecorded(db: Db, actions: seq<Action>)
    requires |actions| > 0 && actions[|actions| - 1].Record? && PerformAll(db, actions).ok
    ensures PerformAll(db, actions).db.version == Some(actions[|actions| - 1].version)
  {
  }

  lemma BaseAgain(p: Plan, v: int, db: Db, k: nat)
    requires At(p, v, db, k) && |BaseActions(p)| <= k
    ensures PerformAll(db, BaseActions(p)) == Ran(db, true)
  {
    hide Settled, Perform;
    forall i | 0 <= i < |BaseActions(p)| ensures Settled(db, BaseActions(p)[i]) {
      AllSettled(NoDb(), Script(p, v)[..k], i);
      SchemaOnly(db, After(p, v, k).db, BaseActions(p)[i]);
    }
    AllAgain(db, BaseActions(p));
  }

  /** Going on after the base schema with the version that was read, even if it could not be read. */
  lemma RepeatsFromRead(p: Plan, v: int, db: Db, k: nat, readFails: bool)
    requires At(p, v, db, k) && |BaseActions(p)| <= k && 1 <= v
    ensures Repeating(p, v, db, |Script(p, VersionRead(db, readFails))|, k)
  {
    hide Perform;
    FromVersion(p, v, db, k, readFails);
    if db.version == None {
      assert Script(p, v)[..|BaseActions(p)|] == BaseActions(p);
      BaseKeepsVersion(NoDb(), BaseActions(p));
    } else {
      var w := db.version.value;
      ScriptSplits(p, w, v);
      ScriptEnds(p, w);
      assert Script(p, v)[|Script(p, w)| - 1] == Record(w);
      if !readFails {
        assert Script(p, v)[..|Script(p, w)|] == Script(p, w);
        OkBefore(NoDb(), Script(p, v)[..k], |Script(p, w)|);
        assert Script(p, v)[..k][..|Script(p, w)|] == Script(p, w);
        EndsRecorded(NoDb(), Script(p, w));
      }
    }
  }

  /**
   Whatever was interrupted before: one complete start leaves the database exactly as a first start
   that was never interrupted, with the same error if there is one.
   */
  lemma Converges(p: Plan, v: int, starts: seq<Start>, readFails: bool)
    requires 1 <= v && UpTo(starts, v)
    ensures var db := BeginAll(p, NoDb(), starts);
            PerformAll(db, StartActions(p, db, v, readFails)) == PerformAll(NoDb(), StartActions(p, NoDb(), v, false))
  {
    var k := HistoryKeeps(p, v, starts);
    CompleteFrom(p, v, BeginAll(p, NoDb(), starts), k, readFails);
  }

  lemma CompleteFrom(p: Plan, v: int, db: Db, k: nat, readFails: bool)
    requires 1 <= v && At(p, v, db, k)
    ensures PerformAll(db, StartActions(p, db, v, readFails)) == PerformAll(NoDb(), Script(p, v))
  {
    var ready, c := BaseActions(p), VersionRead(db, readFails);
    if k < |ready| {
      assert StartActions(p, db, v, readFails) == Script(p, v)[0..];
      CatchesUp(p, v, db, 0, k);
    } else {
      BaseAgain(p, v, db, k);
      PerformConcat(db, ready, Pending(p, c, v));
      ScriptSplits(p, c, v);
      assert Script(p, v)[|Script(p, c)|..] == Pending(p, c, v);
      RepeatsFromRead(p, v, db, k, readFails);
      CatchesUp(p, v, db, |Script(p, c)|, k);
    }
  }

  // ---- The recorded version ----

  ghost predicate Lower(a: Db, b: Db) {
    b.version != None && (a.version == None || a.version.value < b.version.value)
  }

  lemma {:induction false} VersionFrom(db: Db, actions: seq<Action>)
    ensures var after := PerformAll(db, actions).db.version;
            after == db.version || exists a <- actions :: a.Record? && after == Some(a.version)
  {
    if |actions| > 0 {
      hide Perform;
      var front, last := actions[..|actions| - 1], actions[|actions| - 1];
      VersionFrom(db, front);
      assert forall a <- front :: a in actions;
      assert last in actions;
      var r := PerformAll(db, front);
      if r.ok && Perform(r.db, last) != None {
        VersionAfter(r.db, last);
      }
    }
  }

  lemma {:induction false} PendingRecords(p: Plan, c: int, t: int)
    ensures forall a <- Pending(p, c, t) :: a.Record? ==> c < a.version <= t
    decreases t - c
  {
    if c < t {
      PendingRecords(p, c, t - 1);
    }
  }

  /**
   A start can lower the recorded version, when it is killed at the wrong moment, exactly if it could not
   read the version: it then migrates again from version 2 on, and a later version was recorded.
   */
  lemma VersionFalls(p: Plan, v: int, db: Db, k: nat, target: int, readFails: bool)
    requires 1 <= v && At(p, v, db, k) && target <= v
    ensures (exists cut: nat :: Lower(Begin(p, db, Start(target, readFails, cut)), db))
        <==> readFails && target >= 2 && db.version != None && db.version.value > 2
  {
    if readFails && target >= 2 && db.version != None && db.version.value > 2 {
      var cut := |Script(p, 2)|;
      BackToTwo(p, v, db, k, target);
      assert Lower(Begin(p, db, Start(target, readFails, cut)), db);
    } else {
      forall cut: nat ensures !Lower(Begin(p, db, Start(target, readFails, cut)), db) {
        hide Perform;
        var c := VersionRead(db, readFails);
        var actions := StartActions(p, db, target, readFails);
        var some := if cut <= |actions| then actions[..cut] else actions;
        PendingRecords(p, c, target);
        VersionFrom(db, some);
        assert forall a <- some :: a in BaseActions(p) || a in Pending(p, c, target);
      }
    }
  }

  lemma BackToTwo(p: Plan, v: int, db: Db, k: nat, target: int)
    requires At(p, v, db, k) && 2 <= target <= v && db.version != None && db.version.value > 2
    ensures Begin(p, db, Start(target, true, |Script(p, 2)|)).version == Some(2)
  {
    hide Perform, Settled, PerformAll;
    var actions, w := StartActions(p, db, target, true), db.version.value;
    ScriptSplits(p, 2, target);
    ScriptSplits(p, 2, w);
    ScriptEnds(p, 2);
    assert actions == Script(p, target);
    assert actions[..|Script(p, 2)|] == Script(p, 2);
    AppliedAt(p, v, db, k);
    assert forall a <- Script(p, 2) :: a in Script(p, w);
    AllAgain(db, Script(p, 2));
  }

  /** The smallest plan: a place for the version, and migrations without statements. */
  const SMALL := Plan([Table(META, {})], map[])

  lemma SmallStart()
    ensures StartActions(SMALL, NoDb(), 3, false) == [Execute(Make(Table(META, {}))), Record(2), Record(3)]
  {
    assert Pending(SMALL, 1, 1) == [];
    assert Pending(SMALL, 1, 2) == [Record(2)];
    assert Pending(SMALL, 1, 3) == [Record(2), Record(3)];
    assert BaseActions(SMALL) == [Execute(Make(Table(META, {})))];
  }

  /** A first start that is not interrupted, and then one that cannot read the version and is killed: 2 is recorded again. */
  lemma VersionHasFallen()
    ensures exists cut: nat :: BeginAll(SMALL, NoDb(), [Start(3, false, 3), Start(3, true, cut)]).version == Some(2)
    ensures BeginAll(SMALL, NoDb(), [Start(3, false, 3)]).version == Some(3)
  {
    var first := [Start(3, false, 3)];
    assert first[..0] == [];
    SmallStart();
    var actions := [Execute(Make(Table(META, {}))), Record(2), Record(3)];
    assert actions[..3] == actions && actions[..2][..1] == actions[..1] && actions[..1][..0] == [];
    var tables: map<string, set<string>> := map[META := {}];
    assert Perform(NoDb(), actions[0]) == Some(Db(tables, map[], None));
    assert PerformAll(NoDb(), actions[..1]) == Ran(Db(tables, map[], None), true);
    assert PerformAll(NoDb(), actions[..2]) == Ran(Db(tables, map[], Some(2)), true);
    assert PerformAll(NoDb(), actions) == Ran(Db(tables, map[], Some(3)), true);
    var db := BeginAll(SMALL, NoDb(), first);
    assert BeginAll(SMALL, NoDb(), first[..0]) == NoDb();
    assert db == Begin(SMALL, NoDb(), first[0]);
    var k := HistoryKeeps(SMALL, 3, first);
    BackToTwo(SMALL, 3, db, k, 3);
    var cut := |Script(SMALL, 2)|;
    assert [Start(3, false, 3), Start(3, true, cut)][..1] == first;
    assert BeginAll(SMALL, NoDb(), [Start(3, false, 3), Start(3, true, cut)]).version == Some(2);
  }
}
