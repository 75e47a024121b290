/** The migration history engine of packages/db/src/client.ts: inspect, apply, crash, resume, reconcile.
    The journal table has the columns id, hash and created_at. */
module Migrations {
  import opened Basics

  /** A migration file name, by its rank under `localeCompare`. */
  type Name = nat

  /** SHA-256 of a file's content; different contents have different hashes. */
  type Hash = nat

  datatype SchemaObject =
    | Table(name: string)
    | Column(table: string, column: string)
    | Index(name: string)
    | Constraint(name: string)

  datatype Statement =
    | CreateTable(table: string)
    | AddColumn(table: string, column: string)
    | CreateIndex(index: string)
    | AddConstraint(table: string, constraint: string)
    | Unrecognised(text: string)

  datatype Migration = Migration(hash: Hash, statements: seq<Statement>)

  datatype JournalEntry = JournalEntry(fileName: Name, folderMillis: int, order: int)

  /** The migrations folder: the files in listing order, what they hold, and meta/_journal.json. */
  datatype Folder = Folder(available: seq<Name>, content: map<Name, Migration>, entries: seq<JournalEntry>)

  datatype Row = Row(hash: Hash, createdAt: int)

  /** What survives a crash: the statements committed so far and the journal rows, by id. */
  datatype State = State(log: seq<Statement>, journal: seq<Row>)

  /** Every listed file is readable, contents differ, and each file has a journal entry with a usable time. */
  ghost predicate FolderOk(folder: Folder) {
    && Distinct(folder.available)
    && (forall f :: f in folder.available ==> f in folder.content)
    && (forall f, g :: f in folder.available && g in folder.available && f != g ==>
      folder.content[f].hash != folder.content[g].hash)
    && (forall f :: f in folder.available ==>
      EntryFor(folder.entries, f).Some? && EntryFor(folder.entries, f).value.folderMillis >= 0)
  }

  /* ---- journal index ---- */

  /** `new Map(entries.map(...))`: the last entry of a file counts. */
  function EntryFor(entries: seq<JournalEntry>, f: Name): Option<JournalEntry> {
    if entries == [] then None
    else if entries[|entries| - 1].fileName == f then Some(entries[|entries| - 1])
    else EntryFor(entries[..|entries| - 1], f)
  }

  /** The comparator of `orderMigrationsByJournal`: files outside the journal go last, by name. */
  predicate NoLater(entries: seq<JournalEntry>, left: Name, right: Name) {
    match (EntryFor(entries, left), EntryFor(entries, right))
    case (None, None) => left <= right
    case (None, Some(_)) => false
    case (Some(_), None) => true
    case (Some(l), Some(r)) => if l.order == r.order then left <= right else l.order < r.order
  }

  function ByJournal(entries: seq<JournalEntry>): (Name, Name) -> bool {
    (left: Name, right: Name) => NoLater(entries, left, right)
  }

  function Ordered(folder: Folder, files: seq<Name>): seq<Name> {
    Sort(files, ByJournal(folder.entries))
  }

  lemma JournalOrderTotal(entries: seq<JournalEntry>, files: seq<Name>)
    ensures TotalPreorder(ByJournal(entries)) && NoTies(files, ByJournal(entries))
  {
  }

  /* ---- inspection ---- */

  /** The file a journal hash resolves to. */
  function FileOf(folder: Folder, files: seq<Name>, hash: Hash): Option<Name> {
    if files == [] then None
    else
      var last := files[|files| - 1];
      if last in folder.content && folder.content[last].hash == hash then Some(last)
      else FileOf(folder, files[..|files| - 1], hash)
  }

  /** The journal is empty or some hash in it is that of a listed file. On other journals the source falls
      back to times and row ids. */
  ghost predicate Resolves(folder: Folder, journal: seq<Row>) {
    journal == [] || exists k :: 0 <= k < |journal| && FileOf(folder, folder.available, journal[k].hash).Some?
  }

  /** `loadAppliedMigrations` */
  function Applied(folder: Folder, journal: seq<Row>): set<Name>
    requires Resolves(folder, journal)
  {
    set k | 0 <= k < |journal| && FileOf(folder, folder.available, journal[k].hash).Some? ::
      FileOf(folder, folder.available, journal[k].hash).value
  }

  function Without(files: seq<Name>, done: set<Name>): seq<Name> {
    if files == [] then []
    else if files[0] in done then Without(files[1..], done)
    else [files[0]] + Without(files[1..], done)
  }

  function Pending(folder: Folder, journal: seq<Row>): seq<Name>
    requires Resolves(folder, journal)
  {
    Without(folder.available, Applied(folder, journal))
  }

  /* ---- one run as a function of the state ---- */

  function Latest(journal: seq<Row>): int
    requires journal != []
  {
    if |journal| == 1 then journal[0].createdAt
    else
      var before := Latest(journal[..|journal| - 1]);
      if journal[|journal| - 1].createdAt > before then journal[|journal| - 1].createdAt else before
  }

  /** The `created_at` a newly recorded migration gets. */
  function CreatedAt(journal: seq<Row>, millis: int): int {
    if journal == [] then millis
    else if Latest(journal) + 1 > millis then Latest(journal) + 1 else millis
  }

  predicate Recorded(journal: seq<Row>, hash: Hash) {
    exists k :: 0 <= k < |journal| && journal[k].hash == hash
  }

  function Millis(folder: Folder, f: Name): int {
    match EntryFor(folder.entries, f)
    case Some(e) => e.folderMillis
    case None => 0
  }

  /** A whole migration: all its statements, then its journal row. */
  function Migrated(st: State, m: Migration, millis: int): State {
    State(st.log + m.statements, st.journal + [Row(m.hash, CreatedAt(st.journal, millis))])
  }

  function ApplyFiles(folder: Folder, st: State, files: seq<Name>): State
    requires forall f :: f in files ==> f in folder.content
    decreases |files|
  {
    if files == [] then st
    else
      var m := folder.content[files[0]];
      var next := if Recorded(st.journal, m.hash) then st else Migrated(st, m, Millis(folder, files[0]));
      ApplyFiles(folder, next, files[1..])
  }

  /* ---- the database connection ---- */

  /** A connection on which `fuel` more commands will succeed; the next one after that fails for good.
      A transaction's work is visible to it at once and is undone when it does not commit. When the
      failing command is COMMIT itself, `lands` says whether the server had already committed. */
  class Connection {
    var log: seq<Statement>
    var journal: seq<Row>
    var fuel: nat
    var lands: bool
    var saved: State

    function Now(): State
      reads this
    {
      State(log, journal)
    }

    constructor (start: State, fuel: nat, lands: bool)
      ensures Now() == start && this.fuel == fuel
    {
      log, journal := start.log, start.journal;
      this.fuel, this.lands := fuel, lands;
      saved := start;
    }

    /** Any command that changes nothing. */
    method Query() returns (ok: bool)
      modifies `fuel
      ensures ok <==> old(fuel) > 0
      ensures ok ==> fuel == old(fuel) - 1
      ensures !ok ==> fuel == 0
    {
      ok := fuel > 0;
      if ok { fuel := fuel - 1; }
    }

    method Execute(s: Statement) returns (ok: bool)
      modifies `fuel, `log
      ensures ok <==> old(fuel) > 0
      ensures ok ==> log == old(log) + [s] && fuel == old(fuel) - 1
      ensures !ok ==> log == old(log) && fuel == 0
    {
      ok := Query();
      if ok { log := log + [s]; }
    }

    method InsertRow(row: Row) returns (ok: bool)
      modifies `fuel, `journal
      ensures ok <==> old(fuel) > 0
      ensures ok ==> journal == old(journal) + [row] && fuel == old(fuel) - 1
      ensures !ok ==> journal == old(journal) && fuel == 0
    {
      ok := Query();
      if ok { journal := journal + [row]; }
    }

    /** ROLLBACK, or the end of the session if even that fails. */
    method Abandon()
      modifies this
      ensures Now() == old(saved) && fuel == old(fuel) && lands == old(lands)
    {
      log, journal := saved.log, saved.journal;
    }

    /** `runInTransaction` around the statements and the journal row of one migration. */
    method RunMigration(m: Migration, millis: int) returns (ok: bool)
      modifies this
      ensures ok ==> Now() == Migrated(old(Now()), m, millis)
      ensures !ok ==> Now() == old(Now()) || Now() == Migrated(old(Now()), m, millis)
      ensures fuel <= old(fuel)
      ensures old(fuel) >= |m.statements| + 4 ==> ok && fuel == old(fuel) - (|m.statements| + 4)
    {
      ok := Query();
      if !ok { return; }
      saved := Now();
      for k := 0 to |m.statements|
        invariant ok && saved == old(Now()) && journal == old(journal) && log == old(log) + m.statements[..k]
        invariant fuel <= old(fuel)
        invariant old(fuel) > |m.statements| ==> fuel == old(fuel) - 1 - k
      {
        ok := Execute(m.statements[k]);
        PrefixStep(m.statements, k);
        if !ok { Abandon(); return; }
      }
      assert m.statements[..|m.statements|] == m.statements;
      ok := Query();
      if !ok { Abandon(); return; }
      ok := InsertRow(Row(m.hash, CreatedAt(journal, millis)));
      if !ok { Abandon(); return; }
      ok := Query();
      if !ok && !lands { Abandon(); }
    }
  }

  /** Commands a full run over `files` may need. */
  function Need(folder: Folder, files: seq<Name>): nat
    requires forall f :: f in files ==> f in folder.content
  {
    if files == [] then 0 else |folder.content[files[0]].statements| + 5 + Need(folder, files[1..])
  }

  /** `applyPendingMigrationsManually`. However it is cut off, the database holds whole migrations only:
      the first `done` files of the journal order. */
  method ApplyPendingManually(folder: Folder, db: Connection, pending: seq<Name>) returns (ok: bool, ghost done: nat)
    requires forall f :: f in pending ==> f in folder.content
    modifies db
    ensures done <= |Ordered(folder, pending)| && (forall f :: f in Ordered(folder, pending) ==> f in folder.content)
    ensures db.Now() == ApplyFiles(folder, old(db.Now()), Ordered(folder, pending)[..done])
    ensures ok ==> done == |Ordered(folder, pending)|
    ensures old(db.fuel) >= Need(folder, Ordered(folder, pending)) ==> ok
  {
    var order := Ordered(folder, pending);
    SortPermutes(pending, ByJournal(folder.entries));
    done := 0;
    assert order[..0] == [] && order[0..] == order;
    for k := 0 to |order|
      invariant done == k && db.Now() == ApplyFiles(folder, old(db.Now()), order[..k])
      invariant old(db.fuel) >= Need(folder, order) ==> db.fuel >= Need(folder, order[k..])
    {
      assert order[k] in order && order[k..][1..] == order[k + 1..];
      var m := folder.content[order[k]];
      ApplyFilesSnoc(folder, old(db.Now()), order, k);
      ok := db.Query();
      if !ok { return; }
      if Recorded(db.journal, m.hash) {
        done := k + 1;
        continue;
      }
      ghost var before := db.Now();
      ok := db.RunMigration(m, Millis(folder, order[k]));
      if !ok {
        if db.Now() != before { done := k + 1; }
        return;
      }
      done := k + 1;
    }
    ok := true;
    assert order[..|order|] == order;
  }

  lemma {:induction false} ApplyFilesConcat(folder: Folder, st: State, a: seq<Name>, b: seq<Name>)
    requires forall f :: f in a + b ==> f in folder.content
    ensures (forall f :: f in a ==> f in folder.content) && (forall f :: f in b ==> f in folder.content)
    ensures ApplyFiles(folder, st, a + b) == ApplyFiles(folder, ApplyFiles(folder, st, a), b)
    decreases |a|
  {
    assert forall f :: f in a || f in b ==> f in a + b;
    if a == [] {
      assert a + b == b;
    } else {
      var m := folder.content[a[0]];
      assert (a + b)[1..] == a[1..] + b;
      var next := if Recorded(st.journal, m.hash) then st else Migrated(st, m, Millis(folder, a[0]));
      ApplyFilesConcat(folder, next, a[1..], b);
    }
  }

  lemma ApplyFilesSnoc(folder: Folder, st: State, files: seq<Name>, k: nat)
    requires k < |files| && forall f :: f in files ==> f in folder.content
    ensures (forall f :: f in files[..k] ==> f in folder.content)
      && (forall f :: f in files[..k + 1] ==> f in folder.content)
    ensures var before := ApplyFiles(folder, st, files[..k]);
      var m := folder.content[files[k]];
      ApplyFiles(folder, st, files[..k + 1])
      == if Recorded(before.journal, m.hash) then before else Migrated(before, m, Millis(folder, files[k]))
  {
    assert files[..k + 1] == files[..k] + [files[k]];
    assert forall f :: f in files[..k] + [files[k]] ==> f in files;
    ApplyFilesConcat(folder, st, files[..k], [files[k]]);
    var before := ApplyFiles(folder, st, files[..k]);
    assert ApplyFiles(folder, before, [files[k]])
        == if Recorded(before.journal, folder.content[files[k]].hash) then before
           else Migrated(before, folder.content[files[k]], Millis(folder, files[k]));
  }

  /* ---- what inspection says after part of the work is done ---- */

  lemma {:induction false} FileOfMeaning(folder: Folder, files: seq<Name>, hash: Hash)
    ensures FileOf(folder, files, hash).Some? ==>
      var f := FileOf(folder, files, hash).value; f in files && f in folder.content && folder.content[f].hash == hash
    ensures FileOf(folder, files, hash).None? ==>
      forall f :: f in files && f in folder.content ==> folder.content[f].hash != hash
  {
    if files != [] {
      assert files == files[..|files| - 1] + [files[|files| - 1]];
      FileOfMeaning(folder, files[..|files| - 1], hash);
    }
  }

  ghost predicate OfListedFile(folder: Folder, row: Row) {
    exists f :: f in folder.available && f in folder.content && folder.content[f].hash == row.hash
  }

  /** Rows of listed files keep a journal resolvable. */
  lemma RowsResolve(folder: Folder, journal: seq<Row>, rows: seq<Row>)
    requires FolderOk(folder) && Resolves(folder, journal)
    requires forall k :: 0 <= k < |rows| ==> OfListedFile(folder, rows[k])
    ensures Resolves(folder, journal + rows)
  {
    var after := journal + rows;
    if journal != [] {
      var k :| 0 <= k < |journal| && FileOf(folder, folder.available, journal[k].hash).Some?;
      assert after[k] == journal[k];
    } else if rows != [] {
      FileOfMeaning(folder, folder.available, rows[0].hash);
      assert after[0] == rows[0];
    }
  }

  /** So running migrations does. */
  lemma {:induction false} RunsResolve(folder: Folder, st: State, files: seq<Name>)
    requires FolderOk(folder) && Resolves(folder, st.journal) && forall f :: f in files ==> f in folder.available
    ensures Resolves(folder, ApplyFiles(folder, st, files).journal)
    decreases |files|
  {
    if files != [] {
      var m := folder.content[files[0]];
      var next := Migrated(st, m, Millis(folder, files[0]));
      assert files[0] in folder.available && m.hash == next.journal[|st.journal|].hash;
      RowsResolve(folder, st.journal, [next.journal[|st.journal|]]);
      RunsResolve(folder, if Recorded(st.journal, m.hash) then st else next, files[1..]);
    }
  }

  /** A listed file counts as applied exactly when its hash is in the journal. */
  lemma AppliedIffRecorded(folder: Folder, journal: seq<Row>, f: Name)
    requires FolderOk(folder) && Resolves(folder, journal) && f in folder.available
    ensures f in Applied(folder, journal) <==> Recorded(journal, folder.content[f].hash)
  {
    forall k | 0 <= k < |journal|
      ensures FileOf(folder, folder.available, journal[k].hash) == Some(f)
        <==> journal[k].hash == folder.content[f].hash
    {
      FileOfMeaning(folder, folder.available, journal[k].hash);
    }
  }

  lemma {:induction false} WithoutMembers(files: seq<Name>, done: set<Name>)
    ensures forall f :: f in Without(files, done) <==> f in files && f !in done
    ensures Distinct(files) ==> Distinct(Without(files, done))
  {
    if files != [] {
      assert files == [files[0]] + files[1..];
      WithoutMembers(files[1..], done);
    }
  }

  /** The pending files are the listed ones whose hash is not in the journal, each once. */
  lemma PendingMembers(folder: Folder, journal: seq<Row>)
    requires FolderOk(folder) && Resolves(folder, journal)
    ensures Distinct(Pending(folder, journal))
    ensures forall f ::
      f in Pending(folder, journal) <==> f in folder.available && !Recorded(journal, folder.content[f].hash)
  {
    WithoutMembers(folder.available, Applied(folder, journal));
    forall f | f in folder.available
      ensures f in Applied(folder, journal) <==> Recorded(journal, folder.content[f].hash)
    {
      AppliedIffRecorded(folder, journal, f);
    }
  }

  /** The work ahead: the pending files in journal order. */
  function Todo(folder: Folder, journal: seq<Row>): seq<Name>
    requires Resolves(folder, journal)
  {
    Ordered(folder, Pending(folder, journal))
  }

  lemma TodoMembers(folder: Folder, journal: seq<Row>)
    requires FolderOk(folder) && Resolves(folder, journal)
    ensures Distinct(Todo(folder, journal)) && Sorted(Todo(folder, journal), ByJournal(folder.entries))
    ensures forall f ::
      f in Todo(folder, journal) <==> f in folder.available && !Recorded(journal, folder.content[f].hash)
  {
    var pending := Pending(folder, journal);
    PendingMembers(folder, journal);
    JournalOrderTotal(folder.entries, pending);
    SortPermutes(pending, ByJournal(folder.entries));
    SortSorts(pending, ByJournal(folder.entries));
    DistinctPermuted(pending, Todo(folder, journal));
  }

  lemma DistinctPermuted(a: seq<Name>, b: seq<Name>)
    requires Distinct(a) && multiset(a) == multiset(b)
    ensures Distinct(b)
  {
    forall i, j | 0 <= i < j < |b| ensures b[i] != b[j] {
      if b[i] == b[j] {
        DistinctCount(a, b[i]);
        TwiceCounted(b, i, j);
      }
    }
  }

  /** Rows recorded by running `files`: each of them, in that order, exactly once. */
  ghost predicate RanExactly(folder: Folder, st: State, after: State, files: seq<Name>)
    requires forall f :: f in files ==> f in folder.content
  {
    && after.log == st.log + Statements(folder, files)
    && |after.journal| == |st.journal| + |files|
    && after.journal[..|st.journal|] == st.journal
    && forall k :: 0 <= k < |files| ==> after.journal[|st.journal| + k].hash == folder.content[files[k]].hash
  }

  function Statements(folder: Folder, files: seq<Name>): seq<Statement>
    requires forall f :: f in files ==> f in folder.content
  {
    if files == [] then [] else
      assert files[0] in files;
      folder.content[files[0]].statements + Statements(folder, files[1..])
  }

  /** Files none of which is recorded yet run one after the other, each exactly once. */
  lemma {:induction false} EachRunsOnce(folder: Folder, st: State, files: seq<Name>)
    requires FolderOk(folder) && Distinct(files)
    requires forall f :: f in files ==> f in folder.available && !Recorded(st.journal, folder.content[f].hash)
    ensures RanExactly(folder, st, ApplyFiles(folder, st, files), files)
    decreases |files|
  {
    if files != [] {
      var m := folder.content[files[0]];
      var st1 := Migrated(st, m, Millis(folder, files[0]));
      forall f | f in files[1..] ensures !Recorded(st1.journal, folder.content[f].hash) {
        assert f in files && f != files[0];
      }
      EachRunsOnce(folder, st1, files[1..]);
      var after := ApplyFiles(folder, st1, files[1..]);
      assert after.log == st.log + Statements(folder, files);
      assert after.journal[..|st.journal|] == after.journal[..|st1.journal|][..|st.journal|];
      forall k | 0 <= k < |files| ensures after.journal[|st.journal| + k].hash == folder.content[files[k]].hash {
        if k == 0 {
          assert after.journal[|st.journal|] == after.journal[..|st1.journal|][|st.journal|];
        } else {
          assert after.journal[|st1.journal| + (k - 1)].hash == folder.content[files[1..][k - 1]].hash;
        }
      }
    }
  }

  /** After the first `k` files of the work ahead, exactly the others are ahead, in the same order. */
  lemma TodoAfterPrefix(folder: Folder, st: State, k: nat)
    requires FolderOk(folder) && Resolves(folder, st.journal) && k <= |Todo(folder, st.journal)|
    ensures forall f :: f in Todo(folder, st.journal) ==> f in folder.content
    ensures forall f :: f in Todo(folder, st.journal)[..k] ==> f in folder.content
    ensures Resolves(folder, ApplyFiles(folder, st, Todo(folder, st.journal)[..k]).journal)
    ensures Todo(folder, ApplyFiles(folder, st, Todo(folder, st.journal)[..k]).journal) == Todo(folder, st.journal)[k..]
  {
    var todo := Todo(folder, st.journal);
    TodoMembers(folder, st.journal);
    var first := todo[..k];
    assert forall f :: f in first ==> f in todo;
    assert Distinct(first);
    EachRunsOnce(folder, st, first);
    RunsResolve(folder, st, first);
    var after := ApplyFiles(folder, st, first);
    var rest := todo[k..];
    TodoMembers(folder, after.journal);
    PrefixApart(todo, k);
    forall f ensures f in rest <==> f in Todo(folder, after.journal) {
      InPrefixOrRest(todo, k, f);
      if f in folder.available { RecordedAfter(folder, st, after, first, f); }
    }
    RestSorted(folder, rest, Todo(folder, after.journal));
  }

  lemma RestSorted(folder: Folder, rest: seq<Name>, todo: seq<Name>)
    requires Distinct(rest) && Distinct(todo) && forall f :: f in rest <==> f in todo
    requires Sorted(rest, ByJournal(folder.entries)) && Sorted(todo, ByJournal(folder.entries))
    ensures rest == todo
  {
    DistinctSameSet(rest, todo);
    JournalOrderTotal(folder.entries, rest);
    SortedUnique(rest, todo, ByJournal(folder.entries));
  }

  lemma InPrefixOrRest(todo: seq<Name>, k: nat, f: Name)
    requires k <= |todo|
    ensures f in todo <==> f in todo[..k] || f in todo[k..]
  {
    assert todo == todo[..k] + todo[k..];
  }

  lemma TakeMembers(todo: seq<Name>, k: nat)
    requires k <= |todo|
    ensures forall f :: f in todo[..k] ==> f in todo
  {
  }

  lemma TakeTwice(todo: seq<Name>, n: nat, m: nat)
    requires n + m <= |todo|
    ensures todo[..n + m] == todo[..n] + todo[n..][..m]
  {
  }

  lemma PrefixApart(todo: seq<Name>, k: nat)
    requires Distinct(todo) && k <= |todo|
    ensures forall f :: f in todo[..k] ==> f !in todo[k..]
  {
    forall i, j | 0 <= i < k && 0 <= j < |todo| - k ensures todo[..k][i] != todo[k..][j] {
      assert todo[i] != todo[k + j];
    }
  }

  lemma RecordedAfter(folder: Folder, st: State, after: State, first: seq<Name>, f: Name)
    requires FolderOk(folder) && f in folder.available && forall g :: g in first ==> g in folder.available
    requires RanExactly(folder, st, after, first)
    ensures Recorded(after.journal, folder.content[f].hash)
      <==> Recorded(st.journal, folder.content[f].hash) || f in first
  {
    var hash, n := folder.content[f].hash, |st.journal|;
    if Recorded(st.journal, hash) {
      var k :| 0 <= k < n && st.journal[k].hash == hash;
      assert after.journal[..n][k] == after.journal[k];
    }
    if f in first {
      var k :| 0 <= k < |first| && first[k] == f;
      assert after.journal[n + k].hash == hash;
    }
    if Recorded(after.journal, hash) {
      var k :| 0 <= k < |after.journal| && after.journal[k].hash == hash;
      if k < n {
        assert after.journal[..n][k] == after.journal[k];
      } else {
        var g := first[k - n];
        assert g in first && after.journal[n + (k - n)].hash == folder.content[g].hash;
        assert f == g;
      }
    }
  }

  /* ---- crash and resume ---- */

  function AtMost(n: nat, limit: nat): nat {
    if n <= limit then n else limit
  }

  /** One run: it inspects, orders what is pending and is cut off after `k` migrations. */
  ghost function CutRun(folder: Folder, st: State, k: nat): (after: State)
    requires FolderOk(folder) && Resolves(folder, st.journal)
    ensures Resolves(folder, after.journal)
  {
    var todo := Todo(folder, st.journal);
    var n := AtMost(k, |todo|);
    TodoMembers(folder, st.journal);
    TakeMembers(todo, n);
    RunsResolve(folder, st, todo[..n]);
    ApplyFiles(folder, st, todo[..n])
  }

  /** Some runs one after the other, run i cut off after `cuts[i]` migrations. */
  ghost function AfterRuns(folder: Folder, st: State, cuts: seq<nat>): (after: State)
    requires FolderOk(folder) && Resolves(folder, st.journal)
    ensures Resolves(folder, after.journal)
    decreases |cuts|
  {
    if cuts == [] then st else AfterRuns(folder, CutRun(folder, st, cuts[0]), cuts[1..])
  }

  /** The state an uninterrupted run ends in. */
  ghost function Completed(folder: Folder, st: State): (after: State)
    requires FolderOk(folder) && Resolves(folder, st.journal)
    ensures Resolves(folder, after.journal)
  {
    TodoMembers(folder, st.journal);
    RunsResolve(folder, st, Todo(folder, st.journal));
    ApplyFiles(folder, st, Todo(folder, st.journal))
  }

  /** Interruptions never change where the history ends up: finishing after any interrupted runs gives
      the statements and the journal rows of one uninterrupted run. */
  lemma {:induction false} CrashResume(folder: Folder, st: State, cuts: seq<nat>)
    requires FolderOk(folder) && Resolves(folder, st.journal)
    ensures Completed(folder, AfterRuns(folder, st, cuts)) == Completed(folder, st)
    decreases |cuts|
  {
    if cuts != [] {
      CutThenComplete(folder, st, cuts[0]);
      CrashResume(folder, CutRun(folder, st, cuts[0]), cuts[1..]);
    }
  }

  lemma CutThenComplete(folder: Folder, st: State, k: nat)
    requires FolderOk(folder) && Resolves(folder, st.journal)
    ensures Completed(folder, CutRun(folder, st, k)) == Completed(folder, st)
  {
    var todo := Todo(folder, st.journal);
    var n := AtMost(k, |todo|);
    TodoAfterPrefix(folder, st, n);
    assert todo == todo[..n] + todo[n..];
    ApplyFilesConcat(folder, st, todo[..n], todo[n..]);
  }

  lemma OneRun(folder: Folder, st: State, k: nat)
    requires FolderOk(folder) && Resolves(folder, st.journal)
    ensures var n := AtMost(k, |Todo(folder, st.journal)|);
      && (forall f :: f in Todo(folder, st.journal)[..n] ==> f in folder.content)
      && CutRun(folder, st, k) == ApplyFiles(folder, st, Todo(folder, st.journal)[..n])
  {
    TodoMembers(folder, st.journal);
    TakeMembers(Todo(folder, st.journal), AtMost(k, |Todo(folder, st.journal)|));
  }

  lemma FurtherRun(folder: Folder, st: State, n: nat, m: nat)
    requires FolderOk(folder) && Resolves(folder, st.journal) && n + m <= |Todo(folder, st.journal)|
    ensures forall f :: f in Todo(folder, st.journal)[..n] ==> f in folder.content
    ensures forall f :: f in Todo(folder, st.journal)[n..][..m] ==> f in folder.content
    ensures forall f :: f in Todo(folder, st.journal)[..n + m] ==> f in folder.content
    ensures var todo := Todo(folder, st.journal);
      ApplyFiles(folder, ApplyFiles(folder, st, todo[..n]), todo[n..][..m]) == ApplyFiles(folder, st, todo[..n + m])
  {
    TodoMembers(folder, st.journal);
    FurtherPrefix(folder, st, Todo(folder, st.journal), n, m);
  }

  /** A run on what is left after `n` files runs some of the files after them. */
  lemma RunOnRest(folder: Folder, todo: seq<Name>, mid: State, n: nat, k: nat)
    requires FolderOk(folder) && Resolves(folder, mid.journal)
    requires n <= |todo| && Todo(folder, mid.journal) == todo[n..]
    ensures forall f :: f in todo[n..][..AtMost(k, |todo| - n)] ==> f in folder.content
    ensures CutRun(folder, mid, k) == ApplyFiles(folder, mid, todo[n..][..AtMost(k, |todo| - n)])
  {
    OneRun(folder, mid, k);
  }

  /** What one cut run leaves ahead. */
  lemma AheadAfter(folder: Folder, st: State, j: nat)
    requires FolderOk(folder) && Resolves(folder, st.journal)
    ensures Todo(folder, CutRun(folder, st, j).journal)
         == Todo(folder, st.journal)[AtMost(j, |Todo(folder, st.journal)|)..]
  {
    OneRun(folder, st, j);
    TodoAfterPrefix(folder, st, AtMost(j, |Todo(folder, st.journal)|));
  }

  /** Two cut runs are one cut run. */
  lemma RunsAdd(folder: Folder, st: State, j: nat, k: nat)
    requires FolderOk(folder) && Resolves(folder, st.journal)
    ensures CutRun(folder, CutRun(folder, st, j), k) == CutRun(folder, st, j + k)
  {
    var ahead, mid := |Todo(folder, st.journal)|, CutRun(folder, st, j);
    var n := AtMost(j, ahead);
    AheadAfter(folder, st, j);
    assert CutRun(folder, mid, k) == CutRun(folder, st, n + AtMost(k, ahead - n)) by {
      SecondRun(folder, st, j, k);
    }
    assert AtMost(n + AtMost(k, ahead - n), ahead) == AtMost(j + k, ahead);
    SameCut(folder, st, n + AtMost(k, ahead - n), j + k);
  }

  lemma SameCut(folder: Folder, st: State, j: nat, k: nat)
    requires FolderOk(folder) && Resolves(folder, st.journal)
    requires AtMost(j, |Todo(folder, st.journal)|) == AtMost(k, |Todo(folder, st.journal)|)
    ensures CutRun(folder, st, j) == CutRun(folder, st, k)
  {
    OneRun(folder, st, j);
    OneRun(folder, st, k);
  }

  lemma SecondRun(folder: Folder, st: State, j: nat, k: nat)
    requires FolderOk(folder) && Resolves(folder, st.journal)
    ensures var ahead := |Todo(folder, st.journal)|;
      var n := AtMost(j, ahead);
      CutRun(folder, CutRun(folder, st, j), k) == CutRun(folder, st, n + AtMost(k, ahead - n))
  {
    var ahead, mid := |Todo(folder, st.journal)|, CutRun(folder, st, j);
    var n := AtMost(j, ahead);
    var m := AtMost(k, ahead - n);
    FurtherRun(folder, st, n, m);
    assert CutRun(folder, mid, k) == ApplyFiles(folder, mid, Todo(folder, st.journal)[n..][..m]) by {
      AheadAfter(folder, st, j);
      RunOnRest(folder, Todo(folder, st.journal), mid, n, k);
    }
    OneRun(folder, st, j);
    OneRun(folder, st, n + m);
  }

  /** And so are any number of them. */
  lemma {:induction false} RunsAreOne(folder: Folder, st: State, cuts: seq<nat>) returns (k: nat)
    requires FolderOk(folder) && Resolves(folder, st.journal)
    ensures AfterRuns(folder, st, cuts) == CutRun(folder, st, k)
    decreases |cuts|
  {
    if cuts == [] {
      k := 0;
      OneRun(folder, st, 0);
      assert Todo(folder, st.journal)[..0] == [];
    } else {
      var rest := RunsAreOne(folder, CutRun(folder, st, cuts[0]), cuts[1..]);
      RunsAdd(folder, st, cuts[0], rest);
      k := cuts[0] + rest;
    }
  }

  /** Every interruption leaves whole migrations only: a prefix of the uninterrupted run. */
  lemma InterruptedIsPrefix(folder: Folder, st: State, cuts: seq<nat>) returns (k: nat)
    requires FolderOk(folder) && Resolves(folder, st.journal)
    ensures k <= |Todo(folder, st.journal)| && forall f :: f in Todo(folder, st.journal)[..k] ==> f in folder.content
    ensures AfterRuns(folder, st, cuts) == ApplyFiles(folder, st, Todo(folder, st.journal)[..k])
  {
    var cut := RunsAreOne(folder, st, cuts);
    OneRun(folder, st, cut);
    k := AtMost(cut, |Todo(folder, st.journal)|);
  }

  lemma FurtherPrefix(folder: Folder, st: State, todo: seq<Name>, n: nat, m: nat)
    requires n + m <= |todo| && forall f :: f in todo ==> f in folder.content
    ensures forall f :: f in todo[..n] + todo[n..][..m] ==> f in folder.content
    ensures ApplyFiles(folder, st, todo[..n + m])
      == ApplyFiles(folder, ApplyFiles(folder, st, todo[..n]), todo[n..][..m])
  {
    TakeTwice(todo, n, m);
    ApplyFilesConcat(folder, st, todo[..n], todo[n..][..m]);
  }

  /** A completed history has run every migration that was pending, once, in journal order, and none is left. */
  lemma CompletedHistory(folder: Folder, st: State)
    requires FolderOk(folder) && Resolves(folder, st.journal)
    ensures forall f :: f in Todo(folder, st.journal) ==> f in folder.content
    ensures RanExactly(folder, st, Completed(folder, st), Todo(folder, st.journal))
    ensures Pending(folder, Completed(folder, st).journal) == []
  {
    var todo := Todo(folder, st.journal);
    TodoMembers(folder, st.journal);
    EachRunsOnce(folder, st, todo);
    assert todo[..|todo|] == todo && todo[|todo|..] == [];
    TodoAfterPrefix(folder, st, |todo|);
    SortPermutes(Pending(folder, Completed(folder, st).journal), ByJournal(folder.entries));
  }

  /** Recorded times rise: each new row is later than every row before it. */
  lemma {:induction false} TimesRise(folder: Folder, st: State, files: seq<Name>)
    requires forall f :: f in files ==> f in folder.content
    ensures var after := ApplyFiles(folder, st, files).journal;
      && |st.journal| <= |after| && after[..|st.journal|] == st.journal
      && forall i, k :: 0 <= i < k < |after| && |st.journal| <= k ==> after[i].createdAt < after[k].createdAt
    decreases |files|
  {
    if files != [] {
      var m := folder.content[files[0]];
      if Recorded(st.journal, m.hash) {
        TimesRise(folder, st, files[1..]);
      } else {
        var st1 := Migrated(st, m, Millis(folder, files[0]));
        TimesRise(folder, st1, files[1..]);
        var after := ApplyFiles(folder, st, files).journal;
        assert after[..|st.journal|] == after[..|st1.journal|][..|st.journal|] == st.journal;
        forall i | 0 <= i < |st.journal| ensures after[i].createdAt < after[|st.journal|].createdAt {
          LatestIsMax(st.journal, i);
          assert after[..|st1.journal|][i] == st.journal[i]
            && after[..|st1.journal|][|st.journal|] == st1.journal[|st.journal|];
        }
      }
    }
  }

  lemma {:induction false} LatestIsMax(journal: seq<Row>, i: nat)
    requires i < |journal|
    ensures journal[i].createdAt <= Latest(journal)
  {
    if i < |journal| - 1 {
      assert journal[..|journal| - 1][i] == journal[i];
      LatestIsMax(journal[..|journal| - 1], i);
    }
  }

  /** Attempts against one database, each cut off somewhere, and then one with enough life to finish. */
  method MigrateThroughCrashes(folder: Folder, start: State, attempts: seq<(nat, bool)>) returns (final: State)
    requires FolderOk(folder) && Resolves(folder, start.journal)
    ensures final == Completed(folder, start)
  {
    var st := start;
    for i := 0 to |attempts|
      invariant Resolves(folder, st.journal) && Completed(folder, st) == Completed(folder, start)
    {
      st := MigrateOnce(folder, st, attempts[i].0, attempts[i].1);
    }
    TodoMembers(folder, st.journal);
    final := MigrateOnce(folder, st, Need(folder, Todo(folder, st.journal)), true);
  }

  method MigrateOnce(folder: Folder, st: State, fuel: nat, lands: bool) returns (after: State)
    requires FolderOk(folder) && Resolves(folder, st.journal)
    ensures Resolves(folder, after.journal) && Completed(folder, after) == Completed(folder, st)
    ensures (forall f :: f in Todo(folder, st.journal) ==> f in folder.content)
    ensures fuel >= Need(folder, Todo(folder, st.journal)) ==> after == Completed(folder, st)
  {
    var db := new Connection(st, fuel, lands);
    var pending := Pending(folder, db.journal);
    PendingMembers(folder, db.journal);
    TodoMembers(folder, st.journal);
    var ok, done := ApplyPendingManually(folder, db, pending);
    after := db.Now();
    var todo := Todo(folder, st.journal);
    CutThenComplete(folder, st, done);
    assert ok ==> todo[..done] == todo;
  }

  /* ---- reconciliation of a drifted journal ---- */

  function ObjectOf(s: Statement): Option<SchemaObject> {
    match s
    case CreateTable(t) => Some(Table(t))
    case AddColumn(t, c) => Some(Column(t, c))
    case CreateIndex(i) => Some(Index(i))
    case AddConstraint(_, c) => Some(Constraint(c))
    case Unrecognised(_) => None
  }

  /** Kind by kind: what the statements create is all there, and none of them is of another kind. */
  ghost predicate AllThere(statements: seq<Statement>, present: set<SchemaObject>) {
    && (forall t :: CreateTable(t) in statements ==> Table(t) in present)
    && (forall t, c :: AddColumn(t, c) in statements ==> Column(t, c) in present)
    && (forall i :: CreateIndex(i) in statements ==> Index(i) in present)
    && (forall t, c :: AddConstraint(t, c) in statements ==> Constraint(c) in present)
    && (forall x :: Unrecognised(x) !in statements)
  }

  ghost predicate InPlace(m: Migration, present: set<SchemaObject>) {
    m.statements != [] && AllThere(m.statements, present)
  }

  predicate Found(s: Statement, present: set<SchemaObject>) {
    ObjectOf(s).Some? && ObjectOf(s).value in present
  }

  lemma ThereStep(statements: seq<Statement>, k: nat, present: set<SchemaObject>)
    requires k < |statements| && AllThere(statements[..k], present)
    ensures Found(statements[k], present) ==> AllThere(statements[..k + 1], present)
    ensures !Found(statements[k], present) ==> !AllThere(statements, present)
  {
    PrefixStep(statements, k);
    assert forall s :: s in statements[..k + 1] ==> s in statements[..k] || s == statements[k];
    assert statements[k] in statements;
  }

  /** `migrationContentAlreadyApplied` */
  method AlreadyApplied(m: Migration, present: set<SchemaObject>) returns (yes: bool)
    ensures yes <==> InPlace(m, present)
  {
    if |m.statements| == 0 { return false; }
    for k := 0 to |m.statements|
      invariant AllThere(m.statements[..k], present)
    {
      ThereStep(m.statements, k, present);
      if !Found(m.statements[k], present) { return false; }
    }
    assert m.statements[..|m.statements|] == m.statements;
    return true;
  }

  /** Length of the longest prefix of `files` that is in place. */
  ghost function InPlacePrefix(folder: Folder, files: seq<Name>, present: set<SchemaObject>): (n: nat)
    requires forall f :: f in files ==> f in folder.content
    ensures n <= |files|
    ensures forall k :: 0 <= k < n ==> InPlace(folder.content[files[k]], present)
    ensures n < |files| ==> !InPlace(folder.content[files[n]], present)
  {
    if files == [] || !InPlace(folder.content[files[0]], present) then 0
    else 1 + InPlacePrefix(folder, files[1..], present)
  }

  /** Raise the recorded time of rows with this hash that are older than the folder's time. */
  function Touched(journal: seq<Row>, hash: Hash, millis: int): (t: seq<Row>)
    ensures |t| == |journal| && forall k :: 0 <= k < |journal| ==> t[k].hash == journal[k].hash
  {
    seq(|journal|, k requires 0 <= k < |journal| =>
      if journal[k].hash == hash && journal[k].createdAt < millis then Row(hash, millis) else journal[k])
  }

  /** The rows reconciliation writes for files in place. */
  function RepairRows(folder: Folder, files: seq<Name>): (rows: seq<Row>)
    requires forall f :: f in files ==> f in folder.content
    ensures |rows| == |files|
    ensures forall k :: 0 <= k < |files| ==> rows[k] == Row(folder.content[files[k]].hash, Millis(folder, files[k]))
  {
    seq(|files|, k requires 0 <= k < |files| => Row(folder.content[files[k]].hash, Millis(folder, files[k])))
  }

  function RepairOne(journal: seq<Row>, hash: Hash, millis: int): seq<Row> {
    if Recorded(journal, hash) then Touched(journal, hash, millis) else journal + [Row(hash, millis)]
  }

  function RepairAll(folder: Folder, journal: seq<Row>, files: seq<Name>): seq<Row>
    requires forall f :: f in files ==> f in folder.content
    decreases |files|
  {
    if files == [] then journal
    else RepairAll(folder, RepairOne(journal, folder.content[files[0]].hash, Millis(folder, files[0])), files[1..])
  }

  /** The loop of `reconcilePendingMigrationHistory` over whatever list inspection produced. */
  method RepairFiles(folder: Folder, db: Connection, pending: seq<Name>, present: set<SchemaObject>)
    returns (repaired: seq<Name>)
    requires forall f :: f in pending ==> f in folder.content
    modifies db`journal
    ensures repaired == pending[..InPlacePrefix(folder, pending, present)]
    ensures db.journal == RepairAll(folder, old(db.journal), repaired)
  {
    ghost var n := InPlacePrefix(folder, pending, present);
    var k := 0;
    assert pending[0..] == pending;
    while k < |pending|
      invariant 0 <= k <= n <= |pending|
      invariant n == k + InPlacePrefix(folder, pending[k..], present)
      invariant RepairAll(folder, old(db.journal), pending[..n]) == RepairAll(folder, db.journal, pending[k..n])
    {
      var f := pending[k];
      assert f in pending && pending[k..][0] == f && pending[k..][1..] == pending[k + 1..];
      var m := folder.content[f];
      var inPlace := AlreadyApplied(m, present);
      if !inPlace { break; }
      assert pending[k..n][0] == f && pending[k..n][1..] == pending[k + 1..n];
      if Recorded(db.journal, m.hash) {
        db.journal := Touched(db.journal, m.hash, Millis(folder, f));
      } else {
        db.journal := db.journal + [Row(m.hash, Millis(folder, f))];
      }
      k := k + 1;
    }
    assert pending[k..n] == [];
    repaired := pending[..k];
  }

  /** `reconcilePendingMigrationHistory`: it runs no migration, and records exactly the longest prefix of
      the pending list (in listing order) whose objects are all in place. */
  method Reconcile(folder: Folder, db: Connection, present: set<SchemaObject>)
    returns (repaired: seq<Name>, remaining: seq<Name>)
    requires FolderOk(folder) && Resolves(folder, db.journal)
    modifies db`journal
    ensures Resolves(folder, db.journal)
    ensures forall f :: f in Pending(folder, old(db.journal)) ==> f in folder.content
    ensures var pending := Pending(folder, old(db.journal));
      var n := InPlacePrefix(folder, pending, present);
      && repaired == pending[..n] && remaining == pending[n..]
      && db.log == old(db.log)
      && db.journal == old(db.journal) + RepairRows(folder, repaired)
      && remaining == Pending(folder, db.journal)
  {
    var pending := Pending(folder, db.journal);
    PendingMembers(folder, db.journal);
    ghost var start := db.journal;
    repaired := RepairFiles(folder, db, pending, present);
    ghost var n := InPlacePrefix(folder, pending, present);
    FreshRepair(folder, start, pending, n);
    PendingAfterReconcile(folder, start, n);
    remaining := Pending(folder, db.journal);
  }

  /** None of the pending files is recorded, so each gets a new row. */
  lemma FreshRepair(folder: Folder, journal: seq<Row>, pending: seq<Name>, n: nat)
    requires FolderOk(folder) && Resolves(folder, journal) && pending == Pending(folder, journal) && n <= |pending|
    ensures forall f :: f in pending[..n] ==> f in folder.content
    ensures RepairAll(folder, journal, pending[..n]) == journal + RepairRows(folder, pending[..n])
  {
    PendingMembers(folder, journal);
    assert forall f :: f in pending[..n] ==> f in pending;
    RepairFresh(folder, journal, pending[..n]);
  }

  lemma {:induction false} RepairFresh(folder: Folder, journal: seq<Row>, files: seq<Name>)
    requires FolderOk(folder) && Distinct(files)
    requires forall f :: f in files ==> f in folder.available && !Recorded(journal, folder.content[f].hash)
    ensures RepairAll(folder, journal, files) == journal + RepairRows(folder, files)
    decreases |files|
  {
    if files == [] {
      assert journal + RepairRows(folder, files) == journal;
    } else {
      var row := Row(folder.content[files[0]].hash, Millis(folder, files[0]));
      forall f | f in files[1..] ensures !Recorded(journal + [row], folder.content[f].hash) {
        assert f in files && f != files[0];
      }
      RepairFresh(folder, journal + [row], files[1..]);
      RepairRowsHead(folder, files);
      AppendShift(journal, row, RepairRows(folder, files[1..]));
    }
  }

  lemma RepairRowsHead(folder: Folder, files: seq<Name>)
    requires files != [] && forall f :: f in files ==> f in folder.content
    ensures forall f :: f in files[1..] ==> f in folder.content
    ensures RepairRows(folder, files)
         == [Row(folder.content[files[0]].hash, Millis(folder, files[0]))] + RepairRows(folder, files[1..])
  {
  }

  /** Afterwards the pending list is the old one without the recorded prefix, in the same order. */
  lemma PendingAfterReconcile(folder: Folder, journal: seq<Row>, n: nat)
    requires FolderOk(folder) && Resolves(folder, journal) && n <= |Pending(folder, journal)|
    ensures forall f :: f in Pending(folder, journal)[..n] ==> f in folder.content
    ensures Resolves(folder, journal + RepairRows(folder, Pending(folder, journal)[..n]))
    ensures Pending(folder, journal + RepairRows(folder, Pending(folder, journal)[..n]))
      == Pending(folder, journal)[n..]
  {
    var pending := Pending(folder, journal);
    PendingMembers(folder, journal);
    var first := pending[..n];
    assert forall f :: f in first ==> f in pending;
    var after := journal + RepairRows(folder, first);
    forall k | 0 <= k < |first|
      ensures OfListedFile(folder, RepairRows(folder, first)[k])
    {
      assert first[k] in first && folder.content[first[k]].hash == RepairRows(folder, first)[k].hash;
    }
    RowsResolve(folder, journal, RepairRows(folder, first));
    forall f | f in folder.available
      ensures f in Applied(folder, after) <==> f in Applied(folder, journal) || f in first
    {
      AppliedIffRecorded(folder, journal, f);
      AppliedIffRecorded(folder, after, f);
      RepairRecords(folder, journal, first, f);
    }
    WithoutMore(folder.available, Applied(folder, journal), Applied(folder, after), first);
    DropFirst(pending, n);
  }

  lemma RepairRecords(folder: Folder, journal: seq<Row>, first: seq<Name>, f: Name)
    requires FolderOk(folder) && f in folder.available && forall g :: g in first ==> g in folder.available
    ensures Recorded(journal + RepairRows(folder, first), folder.content[f].hash)
      <==> Recorded(journal, folder.content[f].hash) || f in first
  {
    var after, hash, n := journal + RepairRows(folder, first), folder.content[f].hash, |journal|;
    if Recorded(journal, hash) {
      var k :| 0 <= k < n && journal[k].hash == hash;
      assert after[k] == journal[k];
    }
    if f in first {
      var k :| 0 <= k < |first| && first[k] == f;
      assert after[n + k].hash == hash;
    }
    if Recorded(after, hash) {
      var k :| 0 <= k < |after| && after[k].hash == hash;
      if k < n {
        assert journal[k] == after[k];
      } else {
        assert first[k - n] in first && after[k].hash == folder.content[first[k - n]].hash;
        assert f == first[k - n];
      }
    }
  }

  /** Filtering out more files is filtering twice. */
  lemma {:induction false} WithoutMore(files: seq<Name>, done: set<Name>, more: set<Name>, first: seq<Name>)
    requires forall f :: f in files ==> (f in more <==> f in done || f in first)
    ensures Without(files, more) == Without(Without(files, done), set f | f in first)
  {
    if files != [] {
      assert files[0] in files;
      forall f | f in files[1..] ensures f in files { }
      WithoutMore(files[1..], done, more, first);
      if files[0] !in done {
        assert Without(files, done)[1..] == Without(files[1..], done);
      }
    }
  }

  lemma DropFirst(files: seq<Name>, n: nat)
    requires Distinct(files) && n <= |files|
    ensures Without(files, set f | f in files[..n]) == files[n..]
  {
    PrefixApart(files, n);
    SkipPrefix(files, n, set f | f in files[..n]);
  }

  lemma {:induction false} SkipPrefix(files: seq<Name>, n: nat, done: set<Name>)
    requires n <= |files| && (forall f :: f in files[..n] ==> f in done) && (forall f :: f in files[n..] ==> f !in done)
    ensures Without(files, done) == files[n..]
  {
    if n == 0 {
      if files != [] {
        assert files[0..] == files && files[0] in files[0..];
        assert forall f :: f in files[1..] ==> f in files[0..];
        assert files[1..][0..] == files[1..];
        SkipPrefix(files[1..], 0, done);
      }
    } else {
      assert files[0] == files[..n][0] && files[0] in files[..n];
      assert files[1..][..n - 1] == files[..n][1..] && files[1..][n - 1..] == files[n..];
      SkipPrefix(files[1..], n - 1, done);
    }
  }

  /* ---- the entry point, interrupted ---- */

  /** Where a run of the entry point is cut off: after some rows of its reconciliation, or after some migrations. */
  datatype Cut = InRepair(rows: nat) | InApply(files: nat)

  /** The pending files that reconciliation finds in place, the first `rows` of them recorded. */
  ghost function RepairedUpTo(folder: Folder, st: State, present: set<SchemaObject>, rows: nat): (after: State)
    requires FolderOk(folder) && Resolves(folder, st.journal)
    ensures Resolves(folder, after.journal) && after.log == st.log
  {
    PendingMembers(folder, st.journal);
    var pending := Pending(folder, st.journal);
    var n := AtMost(rows, InPlacePrefix(folder, pending, present));
    PendingAfterReconcile(folder, st.journal, n);
    State(st.log, st.journal + RepairRows(folder, pending[..n]))
  }

  ghost function Reconciled(folder: Folder, st: State, present: set<SchemaObject>): (after: State)
    requires FolderOk(folder) && Resolves(folder, st.journal)
    ensures Resolves(folder, after.journal) && after.log == st.log
  {
    RepairedUpTo(folder, st, present, |Pending(folder, st.journal)|)
  }

  /** `present` says which objects exist once the statements of a log have run. */
  ghost function AfterEntry(folder: Folder, st: State, present: seq<Statement> -> set<SchemaObject>,
        cut: Cut): (after: State)
    requires FolderOk(folder) && Resolves(folder, st.journal)
    ensures Resolves(folder, after.journal)
  {
    match cut
    case InRepair(rows) => RepairedUpTo(folder, st, present(st.log), rows)
    case InApply(files) => CutRun(folder, Reconciled(folder, st, present(st.log)), files)
  }

  ghost function AfterEntries(folder: Folder, st: State, present: seq<Statement> -> set<SchemaObject>,
        cuts: seq<Cut>): (after: State)
    requires FolderOk(folder) && Resolves(folder, st.journal)
    ensures Resolves(folder, after.journal)
    decreases |cuts|
  {
    if cuts == [] then st else AfterEntries(folder, AfterEntry(folder, st, present, cuts[0]), present, cuts[1..])
  }

  /** The state an uninterrupted run of the entry point ends in. */
  ghost function EntryCompleted(folder: Folder, st: State, present: seq<Statement> -> set<SchemaObject>): (after: State)
    requires FolderOk(folder) && Resolves(folder, st.journal)
    ensures Resolves(folder, after.journal)
  {
    Completed(folder, Reconciled(folder, st, present(st.log)))
  }

  /** Reconciliation would record nothing here: the first pending file is not in place. */
  ghost predicate Still(folder: Folder, st: State, present: seq<Statement> -> set<SchemaObject>)
    requires FolderOk(folder) && Resolves(folder, st.journal)
  {
    PendingMembers(folder, st.journal);
    InPlacePrefix(folder, Pending(folder, st.journal), present(st.log)) == 0
  }

  /** Nor would it after any number of the migrations ahead. */
  ghost predicate Quiet(folder: Folder, st: State, present: seq<Statement> -> set<SchemaObject>)
    requires FolderOk(folder) && Resolves(folder, st.journal)
  {
    forall k: nat :: Still(folder, CutRun(folder, st, k), present)
  }

  lemma QuietLater(folder: Folder, st: State, present: seq<Statement> -> set<SchemaObject>, j: nat)
    requires FolderOk(folder) && Resolves(folder, st.journal) && Quiet(folder, st, present)
    ensures Quiet(folder, CutRun(folder, st, j), present)
  {
    forall k: nat ensures Still(folder, CutRun(folder, CutRun(folder, st, j), k), present) {
      RunsAdd(folder, st, j, k);
      assert Still(folder, CutRun(folder, st, j + k), present);
    }
  }

  lemma StillReconciled(folder: Folder, st: State, present: seq<Statement> -> set<SchemaObject>)
    requires FolderOk(folder) && Resolves(folder, st.journal) && Still(folder, st, present)
    ensures forall rows :: RepairedUpTo(folder, st, present(st.log), rows) == st
  {
    PendingMembers(folder, st.journal);
    assert Pending(folder, st.journal)[..0] == [];
    assert st.journal + RepairRows(folder, []) == st.journal;
  }

  lemma {:induction false} PrefixOfRest(folder: Folder, files: seq<Name>, present: set<SchemaObject>, m: nat)
    requires (forall f :: f in files ==> f in folder.content) && m <= InPlacePrefix(folder, files, present)
    ensures forall f :: f in files[m..] ==> f in folder.content
    ensures InPlacePrefix(folder, files[m..], present) == InPlacePrefix(folder, files, present) - m
  {
    if m == 0 {
      assert files[0..] == files;
    } else {
      assert files[1..][m - 1..] == files[m..];
      PrefixOfRest(folder, files[1..], present, m - 1);
    }
  }

  lemma RepairRowsAdd(folder: Folder, files: seq<Name>, m: nat, n: nat)
    requires m <= n <= |files| && forall f :: f in files ==> f in folder.content
    ensures (forall f :: f in files[..n] ==> f in folder.content)
      && (forall f :: f in files[..m] ==> f in folder.content)
    ensures forall f :: f in files[m..][..n - m] ==> f in folder.content
    ensures RepairRows(folder, files[..n]) == RepairRows(folder, files[..m]) + RepairRows(folder, files[m..][..n - m])
  {
    forall f | f in files[m..][..n - m] ensures f in files {
      assert f in files[m..];
    }
  }

  /** What a reconciliation comes to when its pending list and that list's prefix in place are known. */
  lemma ReconciledIs(folder: Folder, st: State, present: set<SchemaObject>, pending: seq<Name>, n: nat)
    requires FolderOk(folder) && Resolves(folder, st.journal) && pending == Pending(folder, st.journal)
    requires (forall f :: f in pending ==> f in folder.content) && n == InPlacePrefix(folder, pending, present)
    ensures forall f :: f in pending[..n] ==> f in folder.content
    ensures Reconciled(folder, st, present) == State(st.log, st.journal + RepairRows(folder, pending[..n]))
    ensures Pending(folder, Reconciled(folder, st, present).journal) == pending[n..]
  {
    PendingAfterReconcile(folder, st.journal, n);
  }

  lemma RepairedIs(folder: Folder, st: State, present: set<SchemaObject>, rows: nat, pending: seq<Name>, m: nat)
    requires FolderOk(folder) && Resolves(folder, st.journal) && pending == Pending(folder, st.journal)
    requires (forall f :: f in pending ==> f in folder.content)
      && m == AtMost(rows, InPlacePrefix(folder, pending, present))
    ensures forall f :: f in pending[..m] ==> f in folder.content
    ensures RepairedUpTo(folder, st, present, rows) == State(st.log, st.journal + RepairRows(folder, pending[..m]))
    ensures Pending(folder, RepairedUpTo(folder, st, present, rows).journal) == pending[m..]
  {
    PendingAfterReconcile(folder, st.journal, m);
  }

  /** A reconciliation cut short is finished by the next one. */
  lemma RepairResumes(folder: Folder, st: State, present: set<SchemaObject>, rows: nat)
    requires FolderOk(folder) && Resolves(folder, st.journal)
    ensures Reconciled(folder, RepairedUpTo(folder, st, present, rows), present) == Reconciled(folder, st, present)
  {
    var pending := Pending(folder, st.journal);
    PendingMembers(folder, st.journal);
    var n := InPlacePrefix(folder, pending, present);
    var m := AtMost(rows, n);
    RepairedIs(folder, st, present, rows, pending, m);
    ReconciledIs(folder, st, present, pending, n);
    PrefixOfRest(folder, pending, present, m);
    ReconciledIs(folder, RepairedUpTo(folder, st, present, rows), present, pending[m..], n - m);
    RepairRowsAdd(folder, pending, m, n);
    ConcatTwice(st.journal, RepairRows(folder, pending[..m]), RepairRows(folder, pending[m..][..n - m]));
  }

  lemma ConcatTwice(a: seq<Row>, b: seq<Row>, c: seq<Row>)
    ensures a + (b + c) == a + b + c
  {
  }

  /* ---- what a premature record costs ---- */

  lemma {:induction false} StatementsOfParts(folder: Folder, a: seq<Name>, b: seq<Name>)
    requires forall f :: f in a + b ==> f in folder.content
    ensures (forall f :: f in a ==> f in folder.content) && (forall f :: f in b ==> f in folder.content)
    ensures |Statements(folder, a + b)| == |Statements(folder, a)| + |Statements(folder, b)|
    decreases |a|
  {
    assert forall f :: f in a || f in b ==> f in a + b;
    if a == [] {
      assert a + b == b;
    } else {
      assert (a + b)[1..] == a[1..] + b;
      StatementsOfParts(folder, a[1..], b);
    }
  }

  lemma {:induction false} StatementsPermuted(folder: Folder, a: seq<Name>, b: seq<Name>)
    requires (forall f :: f in a ==> f in folder.content) && multiset(a) == multiset(b)
    ensures forall f :: f in b ==> f in folder.content
    ensures |Statements(folder, a)| == |Statements(folder, b)|
    decreases |a|
  {
    SameElements(a, b);
    if a != [] {
      assert a[0] in b;
      var i :| 0 <= i < |b| && b[i] == a[0];
      TailMultiset(a);
      StatementsWithout(folder, b, i);
      StatementsPermuted(folder, a[1..], b[..i] + b[i + 1..]);
    }
  }

  lemma StatementsWithout(folder: Folder, files: seq<Name>, i: nat)
    requires i < |files| && forall f :: f in files ==> f in folder.content
    ensures multiset(files[..i] + files[i + 1..]) == multiset(files) - multiset{files[i]}
    ensures forall f :: f in files[..i] + files[i + 1..] ==> f in folder.content
    ensures |Statements(folder, files)|
         == |folder.content[files[i]].statements| + |Statements(folder, files[..i] + files[i + 1..])|
  {
    var rest := [files[i]] + files[i + 1..];
    assert files == files[..i] + rest && rest[1..] == files[i + 1..];
    StatementsOfParts(folder, files[..i], rest);
    StatementsOfParts(folder, files[..i], files[i + 1..]);
  }

  /** How many statements a completed run adds is decided by the pending files. */
  lemma CompletedLength(folder: Folder, st: State)
    requires FolderOk(folder) && Resolves(folder, st.journal)
    ensures forall f :: f in Pending(folder, st.journal) ==> f in folder.content
    ensures |Completed(folder, st).log| == |st.log| + |Statements(folder, Pending(folder, st.journal))|
  {
    PendingMembers(folder, st.journal);
    CompletedHistory(folder, st);
    SortPermutes(Pending(folder, st.journal), ByJournal(folder.entries));
    StatementsPermuted(folder, Pending(folder, st.journal), Todo(folder, st.journal));
  }

  lemma InPlaceCosts(folder: Folder, files: seq<Name>, present: set<SchemaObject>, n: nat)
    requires (forall f :: f in files ==> f in folder.content) && 0 < n == InPlacePrefix(folder, files, present)
    ensures forall f :: f in files[n..] ==> f in folder.content
    ensures |Statements(folder, files[n..])| < |Statements(folder, files)|
  {
    assert files == files[..n] + files[n..];
    StatementsOfParts(folder, files[..n], files[n..]);
    assert files[..n][0] == files[0] && InPlace(folder.content[files[0]], present);
  }

  /** Recording a file instead of running it leaves statements out for good. */
  lemma RecordingLosesStatements(folder: Folder, st: State, present: seq<Statement> -> set<SchemaObject>)
    requires FolderOk(folder) && Resolves(folder, st.journal) && !Still(folder, st, present)
    ensures |EntryCompleted(folder, st, present).log| < |Completed(folder, st).log|
  {
    var pending := Pending(folder, st.journal);
    PendingMembers(folder, st.journal);
    var n := InPlacePrefix(folder, pending, present(st.log));
    ReconciledIs(folder, st, present(st.log), pending, n);
    CompletedLength(folder, st);
    CompletedLength(folder, Reconciled(folder, st, present(st.log)));
    InPlaceCosts(folder, pending, present(st.log), n);
  }

  /** One run of the entry point cut off during its migrations agrees with an uninterrupted one exactly when
      the next reconciliation has nothing to record. */
  lemma CutAgreesIff(folder: Folder, st: State, present: seq<Statement> -> set<SchemaObject>, files: nat)
    requires FolderOk(folder) && Resolves(folder, st.journal)
    ensures var cut := AfterEntry(folder, st, present, InApply(files));
      EntryCompleted(folder, cut, present) == EntryCompleted(folder, st, present) <==> Still(folder, cut, present)
  {
    var cut := AfterEntry(folder, st, present, InApply(files));
    CutThenComplete(folder, Reconciled(folder, st, present(st.log)), files);
    if Still(folder, cut, present) {
      StillReconciled(folder, cut, present);
    } else {
      RecordingLosesStatements(folder, cut, present);
    }
  }

  /** Finishing after the cut runs ends where one uninterrupted run does. */
  ghost predicate Agrees(folder: Folder, st: State, present: seq<Statement> -> set<SchemaObject>, cuts: seq<Cut>)
    requires FolderOk(folder) && Resolves(folder, st.journal)
  {
    EntryCompleted(folder, AfterEntries(folder, st, present, cuts), present) == EntryCompleted(folder, st, present)
  }

  lemma {:induction false} QuietRunsAgree(folder: Folder, st: State, present: seq<Statement> -> set<SchemaObject>,
        cuts: seq<Cut>)
    requires FolderOk(folder) && Resolves(folder, st.journal)
    requires Quiet(folder, Reconciled(folder, st, present(st.log)), present)
    ensures Agrees(folder, st, present, cuts)
    decreases |cuts|
  {
    if cuts != [] {
      var base, next := Reconciled(folder, st, present(st.log)), AfterEntry(folder, st, present, cuts[0]);
      if cuts[0].InRepair? {
        RepairResumes(folder, st, present(st.log), cuts[0].rows);
      } else {
        var files := cuts[0].files;
        assert Still(folder, CutRun(folder, base, files), present);
        CutAgreesIff(folder, st, present, files);
        StillReconciled(folder, next, present);
        QuietLater(folder, base, present, files);
      }
      QuietRunsAgree(folder, next, present, cuts[1..]);
    }
  }

  /** Runs of the entry point, however often they are cut off, end where one uninterrupted run does exactly
      when no reconciliation on the way would take a pending migration for applied. */
  lemma EntryResumesIff(folder: Folder, st: State, present: seq<Statement> -> set<SchemaObject>)
    requires FolderOk(folder) && Resolves(folder, st.journal)
    ensures (forall cuts :: Agrees(folder, st, present, cuts))
      <==> Quiet(folder, Reconciled(folder, st, present(st.log)), present)
  {
    if Quiet(folder, Reconciled(folder, st, present(st.log)), present) {
      forall cuts ensures Agrees(folder, st, present, cuts) {
        QuietRunsAgree(folder, st, present, cuts);
      }
    } else {
      var k: nat :| !Still(folder, CutRun(folder, Reconciled(folder, st, present(st.log)), k), present);
      OneCutDisagrees(folder, st, present, k);
    }
  }

  lemma OneCutDisagrees(folder: Folder, st: State, present: seq<Statement> -> set<SchemaObject>, k: nat)
    requires FolderOk(folder) && Resolves(folder, st.journal)
    requires !Still(folder, CutRun(folder, Reconciled(folder, st, present(st.log)), k), present)
    ensures !Agrees(folder, st, present, [InApply(k)])
  {
    CutAgreesIff(folder, st, present, k);
    assert [InApply(k)][1..] == [];
    assert AfterEntries(folder, st, present, [InApply(k)]) == AfterEntry(folder, st, present, InApply(k));
  }

  /** Two files that each create the same table. */
  function TableTwice(table: string): Folder {
    Folder([0, 1], map[0 := Migration(0, [CreateTable(table)]), 1 := Migration(1, [CreateTable(table)])],
      [JournalEntry(0, 0, 0), JournalEntry(1, 1, 1)])
  }

  /** The tables a log creates. */
  function Created(log: seq<Statement>): set<SchemaObject> {
    set k | 0 <= k < |log| && log[k].CreateTable? :: Table(log[k].table)
  }

  lemma TwiceOk(table: string)
    ensures FolderOk(TableTwice(table)) && Resolves(TableTwice(table), [])
    ensures EntryFor(TableTwice(table).entries, 0) == Some(JournalEntry(0, 0, 0))
    ensures EntryFor(TableTwice(table).entries, 1) == Some(JournalEntry(1, 1, 1))
  {
    var entries := TableTwice(table).entries;
    assert entries[..1] == [JournalEntry(0, 0, 0)];
    assert EntryFor([JournalEntry(0, 0, 0)], 0) == Some(JournalEntry(0, 0, 0));
  }

  /** At first both files are to run, in this order. */
  lemma TwiceTodo(table: string)
    ensures Resolves(TableTwice(table), []) && Pending(TableTwice(table), []) == [0, 1] == Todo(TableTwice(table), [])
  {
    var folder := TableTwice(table);
    TwiceOk(table);
    assert Applied(folder, []) == {};
    assert [0, 1][1..] == [1] && [1][1..] == [];
    assert Without([1], {}) == [1] + Without([], {}) && Without([0, 1], {}) == [0] + Without([1], {});
    var le, last: seq<Name> := ByJournal(folder.entries), [1];
    assert last[1..] == [] && Sort(last, le) == Insert<Name>(1, [], le) == last;
    assert le(0, 1) && folder.available[1..] == last;
    assert Sort(folder.available, le) == Insert<Name>(0, last, le) == [0] + last;
  }

  /** The cut leaves the first file. */
  lemma TwiceFirst(table: string)
    ensures FolderOk(TableTwice(table)) && Resolves(TableTwice(table), [])
    ensures var folder, start := TableTwice(table), State([], []);
      && Reconciled(folder, start, Created([])) == start
      && CutRun(folder, start, 1) == State([CreateTable(table)], [Row(0, 0)])
  {
    var folder, start := TableTwice(table), State([], []);
    TwiceOk(table);
    TwiceTodo(table);
    assert Created([]) == {} && !InPlace(folder.content[0], {}) by {
      assert CreateTable(table) in folder.content[0].statements;
    }
    ReconciledIs(folder, start, Created([]), [0, 1], 0);
    assert [0, 1][..1] == [0] && [0][1..] == [] && [1][1..] == [];
    assert ApplyFiles(folder, start, [0]) == Migrated(start, folder.content[0], Millis(folder, 0));
  }

  /** Then the second file counts as in place. */
  lemma TwiceSecond(table: string)
    ensures FolderOk(TableTwice(table)) && Resolves(TableTwice(table), [Row(0, 0)])
    ensures !Still(TableTwice(table), State([CreateTable(table)], [Row(0, 0)]), Created)
  {
    var folder, first := TableTwice(table), State([CreateTable(table)], [Row(0, 0)]);
    TwiceOk(table);
    assert folder.available[..1] == [0];
    assert FileOf(folder, [0, 1], 0) == FileOf(folder, [0], 0) == Some(0);
    assert FileOf(folder, folder.available, first.journal[0].hash).Some?;
    PendingMembers(folder, first.journal);
    var pending := Pending(folder, first.journal);
    assert Recorded(first.journal, 0) by { assert first.journal[0].hash == 0; }
    assert 1 in pending && pending[0] in pending;
    assert first.log[0] == CreateTable(table);
    assert InPlace(folder.content[1], Created(first.log));
  }

  /** For instance: cut off after the first of the two files, the next run takes the second for applied, and
      its statement never runs. */
  lemma CutLosesStatement(table: string)
    ensures FolderOk(TableTwice(table)) && Resolves(TableTwice(table), [])
    ensures var folder, start := TableTwice(table), State([], []);
      var cut := AfterEntries(folder, start, Created, [InApply(1)]);
      |EntryCompleted(folder, cut, Created).log| < |EntryCompleted(folder, start, Created).log|
  {
    var folder, start := TableTwice(table), State([], []);
    TwiceOk(table);
    var first := State([CreateTable(table)], [Row(0, 0)]);
    TwiceFirst(table);
    TwiceSecond(table);
    RecordingLosesStatements(folder, first, Created);
    CutThenComplete(folder, start, 1);
    assert [InApply(1)][1..] == [];
  }

  /** What an uninterrupted run of the entry point comes to: nothing stays pending, the files found in place
      are recorded without running, and each of the others runs once, in journal order. */
  lemma EntryOutcome(folder: Folder, start: State, present: seq<Statement> -> set<SchemaObject>)
    requires FolderOk(folder) && Resolves(folder, start.journal)
    ensures forall f :: f in Pending(folder, start.journal) ==> f in folder.content
    ensures var pending := Pending(folder, start.journal);
      var n := InPlacePrefix(folder, pending, present(start.log));
      var left := Ordered(folder, pending[n..]);
      && (forall f :: f in left ==> f in folder.content) && (forall f :: f in pending[..n] ==> f in folder.content)
      && RanExactly(folder, State(start.log, start.journal + RepairRows(folder, pending[..n])),
                    EntryCompleted(folder, start, present), left)
    ensures Pending(folder, EntryCompleted(folder, start, present).journal) == []
  {
    var pending := Pending(folder, start.journal);
    PendingMembers(folder, start.journal);
    ReconciledIs(folder, start, present(start.log), pending, InPlacePrefix(folder, pending, present(start.log)));
    CompletedHistory(folder, Reconciled(folder, start, present(start.log)));
  }

  /** Reconcile, then apply what is left: nothing stays pending, the files found in place are recorded
      without running, and each of the others runs once, in journal order. */
  method ApplyPendingMigrations(folder: Folder, start: State, present: seq<Statement> -> set<SchemaObject>)
    returns (final: State)
    requires FolderOk(folder) && Resolves(folder, start.journal)
    ensures final == EntryCompleted(folder, start, present) && Pending(folder, final.journal) == []
    ensures forall f :: f in Pending(folder, start.journal) ==> f in folder.content
    ensures var pending := Pending(folder, start.journal);
      var n := InPlacePrefix(folder, pending, present(start.log));
      var left := Ordered(folder, pending[n..]);
      && (forall f :: f in left ==> f in folder.content) && (forall f :: f in pending[..n] ==> f in folder.content)
      && RanExactly(folder, State(start.log, start.journal + RepairRows(folder, pending[..n])), final, left)
  {
    EntryOutcome(folder, start, present);
    var st := ReconcileOnce(folder, start, present(start.log));
    TodoMembers(folder, st.journal);
    final := MigrateOnce(folder, st, Need(folder, Todo(folder, st.journal)), true);
  }

  method ReconcileOnce(folder: Folder, start: State, present: set<SchemaObject>) returns (st: State)
    requires FolderOk(folder) && Resolves(folder, start.journal)
    ensures st == Reconciled(folder, start, present)
  {
    var db := new Connection(start, 0, true);
    var repaired, remaining := Reconcile(folder, db, present);
    ReconciledIs(folder, start, present, Pending(folder, start.journal), |repaired|);
    st := db.Now();
  }
}
