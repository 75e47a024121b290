/** In which order migrations are found and run, and under which times they are recorded. */
module MigrationOrder {
  import opened Basics
  import opened Migrations

  ghost predicate LastNaming(entries: seq<JournalEntry>, e: int, f: Name) {
    && 0 <= e < |entries| && entries[e].fileName == f
    && forall j :: e < j < |entries| ==> entries[j].fileName != f
  }

  /** The entry of the journal file that counts for a migration: the last one naming it. */
  ghost predicate EntryOf(folder: Folder, e: int, f: Name) {
    LastNaming(folder.entries, e, f)
  }

  lemma {:induction false} EntryForIs(entries: seq<JournalEntry>, f: Name)
    ensures EntryFor(entries, f).Some? ==>
      exists e :: LastNaming(entries, e, f) && EntryFor(entries, f) == Some(entries[e])
    ensures EntryFor(entries, f).None? ==> forall j :: 0 <= j < |entries| ==> entries[j].fileName != f
  {
    if entries != [] {
      var front, last := entries[..|entries| - 1], |entries| - 1;
      EntryForIs(front, f);
      if entries[last].fileName == f {
        assert LastNaming(entries, last, f);
      } else if EntryFor(front, f).Some? {
        var e :| LastNaming(front, e, f) && EntryFor(front, f) == Some(front[e]);
        assert LastNaming(entries, e, f) && entries[e] == front[e];
      }
    }
  }

  lemma EntryCounts(folder: Folder, e: int, f: Name)
    requires EntryOf(folder, e, f)
    ensures EntryFor(folder.entries, f) == Some(folder.entries[e])
  {
    EntryForIs(folder.entries, f);
  }

  lemma EntryExists(folder: Folder, f: Name) returns (e: int)
    requires EntryFor(folder.entries, f).Some?
    ensures EntryOf(folder, e, f)
  {
    EntryForIs(folder.entries, f);
    e :| LastNaming(folder.entries, e, f);
  }

  /* ---- the order of a run ---- */

  /** The work ahead is in the order of the journal file, files of one order by name. */
  lemma TodoInJournalOrder(folder: Folder, journal: seq<Row>, i: nat, j: nat, d: int, e: int)
    requires FolderOk(folder) && Resolves(folder, journal) && i < j < |Todo(folder, journal)|
    requires EntryOf(folder, d, Todo(folder, journal)[i]) && EntryOf(folder, e, Todo(folder, journal)[j])
    ensures || folder.entries[d].order < folder.entries[e].order
            || (&& folder.entries[d].order == folder.entries[e].order
                && Todo(folder, journal)[i] < Todo(folder, journal)[j])
  {
    var todo := Todo(folder, journal);
    TodoMembers(folder, journal);
    EntryCounts(folder, d, todo[i]);
    EntryCounts(folder, e, todo[j]);
    assert ByJournal(folder.entries)(todo[i], todo[j]) && todo[i] != todo[j];
  }

  /** Every file of the work ahead has such an entry. */
  lemma TodoHasEntries(folder: Folder, journal: seq<Row>, i: nat) returns (e: int)
    requires FolderOk(folder) && Resolves(folder, journal) && i < |Todo(folder, journal)|
    ensures EntryOf(folder, e, Todo(folder, journal)[i]) && folder.entries[e].folderMillis >= 0
  {
    TodoMembers(folder, journal);
    assert Todo(folder, journal)[i] in Todo(folder, journal);
    e := EntryExists(folder, Todo(folder, journal)[i]);
    EntryCounts(folder, e, Todo(folder, journal)[i]);
  }

  /** Where in `all` the elements of `part` are, one after the other. */
  ghost predicate Within(part: seq<Name>, all: seq<Name>, at: seq<nat>) {
    && |at| == |part| && (forall i :: 0 <= i < |at| ==> at[i] < |all| && all[at[i]] == part[i])
    && forall i, j :: 0 <= i < j < |at| ==> at[i] < at[j]
  }

  lemma {:induction false} WithoutWithin(files: seq<Name>, done: set<Name>) returns (at: seq<nat>)
    ensures Within(Without(files, done), files, at)
  {
    if files == [] {
      at := [];
    } else {
      var rest := WithoutWithin(files[1..], done);
      var later := Later(files, Without(files[1..], done), rest);
      if files[0] in done {
        at := later;
      } else {
        at := HeadToo(files, Without(files[1..], done), later);
      }
    }
  }

  lemma HeadToo(all: seq<Name>, part: seq<Name>, later: seq<nat>) returns (at: seq<nat>)
    requires all != [] && Within(part, all, later) && forall i :: 0 <= i < |later| ==> later[i] > 0
    ensures Within([all[0]] + part, all, at)
  {
    at := [0] + later;
    forall i | 0 <= i < |at| ensures at[i] < |all| && all[at[i]] == ([all[0]] + part)[i] {
      if i > 0 { assert at[i] == later[i - 1]; }
    }
  }

  lemma Later(all: seq<Name>, part: seq<Name>, at: seq<nat>) returns (later: seq<nat>)
    requires all != [] && Within(part, all[1..], at)
    ensures Within(part, all, later) && forall i :: 0 <= i < |later| ==> later[i] > 0
  {
    later := seq(|at|, i requires 0 <= i < |at| => at[i] + 1);
    forall i | 0 <= i < |later| ensures later[i] < |all| && all[later[i]] == part[i] {
      assert all[1..][at[i]] == all[at[i] + 1];
    }
  }

  /** Inspection lists the pending files in the order of the folder's listing. */
  lemma PendingInListingOrder(folder: Folder, journal: seq<Row>) returns (at: seq<nat>)
    requires Resolves(folder, journal)
    ensures Within(Pending(folder, journal), folder.available, at)
  {
    at := WithoutWithin(folder.available, Applied(folder, journal));
  }

  /* ---- recorded times ---- */

  /** The k-th row's time is the given one, or one past the latest time before it if that is later. */
  ghost predicate TimedAt(journal: seq<Row>, k: int, millis: int)
    requires 0 <= k < |journal|
  {
    && journal[k].createdAt >= millis
    && (forall i :: 0 <= i < k ==> journal[i].createdAt < journal[k].createdAt)
    && (journal[k].createdAt == millis || exists i :: 0 <= i < k && journal[k].createdAt == journal[i].createdAt + 1)
  }

  lemma {:induction false} LatestIsThere(journal: seq<Row>) returns (i: nat)
    requires journal != []
    ensures i < |journal| && journal[i].createdAt == Latest(journal)
  {
    i := |journal| - 1;
    if journal[i].createdAt != Latest(journal) {
      i := LatestIsThere(journal[..|journal| - 1]);
    }
  }

  lemma NewRowTimed(journal: seq<Row>, row: Row, millis: int)
    requires row.createdAt == CreatedAt(journal, millis)
    ensures TimedAt(journal + [row], |journal|, millis)
  {
    var all := journal + [row];
    assert all[|journal|] == row;
    forall i | 0 <= i < |journal| ensures all[i].createdAt < row.createdAt {
      LatestIsMax(journal, i);
      assert all[i] == journal[i];
    }
    if journal != [] {
      var i := LatestIsThere(journal);
      assert all[i] == journal[i];
    }
  }

  lemma TimedInLonger(journal: seq<Row>, longer: seq<Row>, k: nat, millis: int)
    requires k < |journal| <= |longer| && longer[..|journal|] == journal && TimedAt(journal, k, millis)
    ensures TimedAt(longer, k, millis)
  {
    assert forall i :: 0 <= i < |journal| ==> longer[..|journal|][i] == longer[i];
  }

  lemma {:induction false} RunTimes(folder: Folder, st: State, files: seq<Name>, k: nat, e: int)
    requires FolderOk(folder) && Distinct(files) && k < |files| && EntryOf(folder, e, files[k])
    requires forall f :: f in files ==> f in folder.available && !Recorded(st.journal, folder.content[f].hash)
    ensures var journal := ApplyFiles(folder, st, files).journal;
      |st.journal| + k < |journal| && TimedAt(journal, |st.journal| + k, folder.entries[e].folderMillis)
    decreases |files|
  {
    var m := folder.content[files[0]];
    var st1 := Migrated(st, m, Millis(folder, files[0]));
    EachRunsOnce(folder, st, files);
    forall f | f in files[1..] ensures !Recorded(st1.journal, folder.content[f].hash) {
      assert f in files && f != files[0];
    }
    if k == 0 {
      EntryCounts(folder, e, files[0]);
      NewRowTimed(st.journal, st1.journal[|st.journal|], folder.entries[e].folderMillis);
      EachRunsOnce(folder, st1, files[1..]);
      var after := ApplyFiles(folder, st1, files[1..]).journal;
      TimedInLonger(st1.journal, after, |st.journal|, folder.entries[e].folderMillis);
    } else {
      RunTimes(folder, st1, files[1..], k - 1, e);
    }
  }

  /** A finished run records the k-th file of the work at its journal entry's time, moved past the times
      recorded before it where that is needed. */
  lemma CompletedTimes(folder: Folder, st: State, k: nat, e: int)
    requires FolderOk(folder) && Resolves(folder, st.journal) && k < |Todo(folder, st.journal)|
    requires EntryOf(folder, e, Todo(folder, st.journal)[k])
    ensures var journal := Completed(folder, st).journal;
      |st.journal| + k < |journal| && TimedAt(journal, |st.journal| + k, folder.entries[e].folderMillis)
  {
    TodoMembers(folder, st.journal);
    RunTimes(folder, st, Todo(folder, st.journal), k, e);
  }

  /** Reconciliation records the k-th pending file at its journal entry's time as it stands. */
  lemma RepairTimes(folder: Folder, files: seq<Name>, k: nat, e: int)
    requires (forall f :: f in files ==> f in folder.content) && k < |files| && EntryOf(folder, e, files[k])
    ensures RepairRows(folder, files)[k] == Row(folder.content[files[k]].hash, folder.entries[e].folderMillis)
  {
    EntryCounts(folder, e, files[k]);
  }

  /** A file found in place whose hash is recorded already only has earlier times raised to its entry's. */
  lemma TouchedRaises(journal: seq<Row>, hash: Hash, millis: int, k: nat)
    requires k < |journal|
    ensures var row := Touched(journal, hash, millis)[k];
      && row.hash == journal[k].hash && row.createdAt >= journal[k].createdAt
      && (journal[k].hash == hash ==> row.createdAt >= millis)
      && (row != journal[k] ==> journal[k].hash == hash && row.createdAt == millis)
  {
  }
}
