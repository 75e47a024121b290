/** Repair of worktree configuration files (server/src/worktree-config.ts): every worktree gets paths
    inside its own instance root and ports no visible sibling claims. */
module WorktreePorts {
  import opened Basics

  type Name = string

  /** A resolved path, as its segments. */
  type Path = seq<string>

  /** Ports are JSON numbers: anything may stand in the file. */
  datatype Database = Embedded(dataDir: Path, port: real, backupDir: Path) | External(url: string)

  datatype BaseUrl = Loopback(port: real, rest: string) | Elsewhere(text: string)

  datatype Auth = Auth(explicit: bool, publicBaseUrl: Option<BaseUrl>)

  datatype Config = Config(
    database: Database, serverPort: real, logDir: Path, storageDir: Path, keyFile: Path, auth: Auth)

  /** A worktree's instance root and the worktrees whose config files it can read. */
  datatype Context = Context(instanceRoot: Path, siblings: set<Name>)

  /** The readable config files; a missing or malformed one is absent. */
  type Files = map<Name, Config>

  /* ---- the least unclaimed port ---- */

  predicate Claimable(port: real) {
    port > 0.0 && port.Floor as real == port
  }

  function Truncated(x: real): int {
    if x >= 0.0 then x.Floor else -((-x).Floor)
  }

  function FirstCandidate(preferred: real): int {
    if Truncated(preferred) < 1 then 1 else Truncated(preferred)
  }

  /** A port the search may return: positive, and not a whole unit below the preference. */
  ghost predicate Eligible(port: int, preferred: real) {
    port >= 1 && port as real > preferred - 1.0
  }

  lemma FirstCandidateIs(preferred: real)
    ensures Eligible(FirstCandidate(preferred), preferred)
    ensures forall q :: Eligible(q, preferred) ==> q >= FirstCandidate(preferred)
  {
    forall q | Eligible(q, preferred) ensures q >= FirstCandidate(preferred) {
      if preferred >= 1.0 { assert preferred.Floor as real <= preferred < q as real + 1.0; }
    }
  }

  ghost predicate LeastUnclaimed(from: int, claimed: set<int>, port: int) {
    && from <= port && port !in claimed
    && forall p :: from <= p < port ==> p in claimed
  }

  function NextUnclaimed(from: int, claimed: set<int>): (port: int)
    ensures LeastUnclaimed(from, claimed, port)
    decreases set p | p in claimed && p >= from
  {
    if from in claimed then
      assert from in (set p | p in claimed && p >= from) - (set p | p in claimed && p >= from + 1);
      NextUnclaimed(from + 1, claimed)
    else from
  }

  /** The search ends because the claimed ports at or above the cursor run out. */
  method FindNextUnclaimedPort(preferred: real, claimed: set<int>) returns (port: int)
    ensures port == NextUnclaimed(FirstCandidate(preferred), claimed)
    ensures port >= 1 && LeastUnclaimed(FirstCandidate(preferred), claimed, port)
    ensures Eligible(port, preferred) && forall q :: Eligible(q, preferred) && q < port ==> q in claimed
  {
    FirstCandidateIs(preferred);
    port := FirstCandidate(preferred);
    while port in claimed
      invariant port >= FirstCandidate(preferred)
      invariant NextUnclaimed(port, claimed) == NextUnclaimed(FirstCandidate(preferred), claimed)
      decreases set p | p in claimed && p >= port
    {
      assert port in (set p | p in claimed && p >= port) - (set p | p in claimed && p >= port + 1);
      port := port + 1;
    }
  }

  /* ---- the ports of the siblings ---- */

  function ServerClaim(c: Config): set<int> {
    if Claimable(c.serverPort) then {c.serverPort.Floor} else {}
  }

  function DatabaseClaim(c: Config): set<int> {
    if c.database.Embedded? && Claimable(c.database.port) then {c.database.port.Floor} else {}
  }

  function Claims(files: Files, siblings: set<Name>, claim: Config -> set<int>): set<int> {
    set n, p | n in siblings && n in files && p in claim(files[n]) :: p
  }

  method CollectSiblingPorts(files: Files, siblings: set<Name>) returns (serverPorts: set<int>, databasePorts: set<int>)
    ensures serverPorts == Claims(files, siblings, ServerClaim)
    ensures databasePorts == Claims(files, siblings, DatabaseClaim)
  {
    serverPorts, databasePorts := {}, {};
    var todo := siblings;
    while todo != {}
      invariant todo <= siblings
      invariant serverPorts == Claims(files, siblings - todo, ServerClaim)
      invariant databasePorts == Claims(files, siblings - todo, DatabaseClaim)
    {
      var n :| n in todo;
      ClaimsStep(files, siblings - todo, n, ServerClaim);
      ClaimsStep(files, siblings - todo, n, DatabaseClaim);
      todo := todo - {n};
      assert siblings - todo == (siblings - (todo + {n})) + {n};
      if n in files {
        var c := files[n];
        if Claimable(c.serverPort) { serverPorts := serverPorts + {c.serverPort.Floor}; }
        if c.database.Embedded? && Claimable(c.database.port) {
          databasePorts := databasePorts + {c.database.port.Floor};
        }
      }
    }
    assert siblings - todo == siblings;
  }

  lemma ClaimsStep(files: Files, siblings: set<Name>, n: Name, claim: Config -> set<int>)
    ensures Claims(files, siblings + {n}, claim)
      == Claims(files, siblings, claim) + (if n in files then claim(files[n]) else {})
  {
    var all := Claims(files, siblings + {n}, claim);
    forall p ensures p in all <==> p in Claims(files, siblings, claim) || (n in files && p in claim(files[n])) {
      if n in files && p in claim(files[n]) { assert n in siblings + {n}; }
    }
  }

  /* ---- one worktree's repair ---- */

  predicate Inside(path: Path, root: Path) { root <= path }

  predicate NeedsRepair(c: Config, root: Path) {
    || (c.database.Embedded? && !(Inside(c.database.dataDir, root) && Inside(c.database.backupDir, root)))
    || !Inside(c.logDir, root) || !Inside(c.storageDir, root) || !Inside(c.keyFile, root)
  }

  function RewritePort(url: BaseUrl, port: real): BaseUrl {
    if url.Loopback? then url.(port := port) else url
  }

  function Isolated(c: Config, root: Path, serverPort: int, databasePort: int): Config {
    Config(
      if c.database.Embedded? then Embedded(root + ["db"], databasePort as real, root + ["data", "backups"])
        else c.database,
      serverPort as real,
      root + ["logs"],
      root + ["data", "storage"],
      root + ["secrets", "master.key"],
      if c.auth.explicit && c.auth.publicBaseUrl.Some?
      then c.auth.(publicBaseUrl := Some(RewritePort(c.auth.publicBaseUrl.value, serverPort as real)))
      else c.auth)
  }

  predicate Collides(c: Config, serverPorts: set<int>, databasePorts: set<int>) {
    ServerClaim(c) * serverPorts != {} || DatabaseClaim(c) * databasePorts != {}
  }

  function Preferred(port: real, reserved: real): real {
    if port == reserved then reserved + 1.0 else port
  }

  function ChosenServerPort(c: Config, serverPorts: set<int>): int {
    NextUnclaimed(FirstCandidate(Preferred(c.serverPort, 3100.0)), serverPorts)
  }

  function ChosenDatabasePort(c: Config, databasePorts: set<int>, serverPort: int): int
    requires c.database.Embedded?
  {
    NextUnclaimed(FirstCandidate(Preferred(c.database.port, 54329.0)), databasePorts + {serverPort})
  }

  function RepairedConfig(c: Config, root: Path, serverPorts: set<int>, databasePorts: set<int>): Config {
    if NeedsRepair(c, root) || Collides(c, serverPorts, databasePorts) then
      var port := ChosenServerPort(c, serverPorts);
      Isolated(c, root, port, if c.database.Embedded? then ChosenDatabasePort(c, databasePorts, port) else 0)
    else c
  }

  function Repaired(files: Files, name: Name, context: Context): Files {
    if name !in files then files
    else
      var siblings := context.siblings - {name};
      files[name := RepairedConfig(files[name], context.instanceRoot,
                                   Claims(files, siblings, ServerClaim), Claims(files, siblings, DatabaseClaim))]
  }

  /** Where a repaired worktree keeps its things. */
  ghost predicate AtHome(c: Config, root: Path) {
    && c.logDir == root + ["logs"] && c.storageDir == root + ["data", "storage"]
    && c.keyFile == root + ["secrets", "master.key"]
    && (c.database.Embedded? ==>
          c.database.dataDir == root + ["db"] && c.database.backupDir == root + ["data", "backups"])
  }

  /** Every path starts with the instance root. */
  ghost predicate AllInside(c: Config, root: Path) {
    && root <= c.logDir && root <= c.storageDir && root <= c.keyFile
    && (c.database.Embedded? ==> root <= c.database.dataDir && root <= c.database.backupDir)
  }

  /** No positive integer port of the worktree is among those claimed. */
  ghost predicate PortsFree(c: Config, serverPorts: set<int>, databasePorts: set<int>) {
    && (forall p: int :: c.serverPort == p as real && p > 0 ==> p !in serverPorts)
    && (c.database.Embedded? ==> forall p: int :: c.database.port == p as real && p > 0 ==> p !in databasePorts)
  }

  lemma FreeIff(c: Config, serverPorts: set<int>, databasePorts: set<int>)
    ensures Collides(c, serverPorts, databasePorts) <==> !PortsFree(c, serverPorts, databasePorts)
  {
    if Claimable(c.serverPort) {
      var p := c.serverPort.Floor;
      assert c.serverPort == p as real && (p in serverPorts ==> p in ServerClaim(c) * serverPorts);
    }
    if c.database.Embedded? && Claimable(c.database.port) {
      var p := c.database.port.Floor;
      assert c.database.port == p as real && (p in databasePorts ==> p in DatabaseClaim(c) * databasePorts);
    }
  }

  /** A repair leaves a worktree alone when all its paths are inside its root and its ports are free, and
      otherwise moves everything home, under ports that are free. */
  lemma RepairMoves(c: Config, root: Path, serverPorts: set<int>, databasePorts: set<int>)
    ensures var r := RepairedConfig(c, root, serverPorts, databasePorts);
      if AllInside(c, root) && PortsFree(c, serverPorts, databasePorts) then r == c
      else AtHome(r, root) && PortsFree(r, serverPorts, databasePorts)
  {
    FreeIff(c, serverPorts, databasePorts);
    FreeIff(RepairedConfig(c, root, serverPorts, databasePorts), serverPorts, databasePorts);
    RepairKeeps(c, root, serverPorts, databasePorts);
  }

  /** The least port the search may return that is not claimed. */
  ghost predicate Nearest(port: int, preferred: real, claimed: set<int>) {
    && Eligible(port, preferred) && port !in claimed
    && forall q :: Eligible(q, preferred) && q < port ==> q in claimed
  }

  lemma NextIsNearest(preferred: real, claimed: set<int>)
    ensures Nearest(NextUnclaimed(FirstCandidate(preferred), claimed), preferred, claimed)
  {
    FirstCandidateIs(preferred);
  }

  /** The ports a repair picks: each the nearest free one to the port in the file, or to the next one up from the
      primary instance's, and the database's free of the new server port as well. */
  lemma RepairPicks(c: Config, root: Path, serverPorts: set<int>, databasePorts: set<int>)
    requires !(AllInside(c, root) && PortsFree(c, serverPorts, databasePorts))
    ensures var r := RepairedConfig(c, root, serverPorts, databasePorts);
      var port := r.serverPort.Floor;
      && r.serverPort == port as real
      && Nearest(port, if c.serverPort == 3100.0 then 3101.0 else c.serverPort, serverPorts)
      && (c.database.Embedded? ==>
            && r.database.Embedded? && r.database.port == r.database.port.Floor as real
            && Nearest(r.database.port.Floor, if c.database.port == 54329.0 then 54330.0 else c.database.port,
                       databasePorts + {port}))
  {
    FreeIff(c, serverPorts, databasePorts);
    NextIsNearest(Preferred(c.serverPort, 3100.0), serverPorts);
    if c.database.Embedded? {
      var port := ChosenServerPort(c, serverPorts);
      NextIsNearest(Preferred(c.database.port, 54329.0), databasePorts + {port});
    }
  }

  /** What a repair leaves alone, what it moves, and what it makes agree. */
  lemma RepairKeeps(c: Config, root: Path, serverPorts: set<int>, databasePorts: set<int>)
    ensures var r := RepairedConfig(c, root, serverPorts, databasePorts);
      && !NeedsRepair(r, root) && !Collides(r, serverPorts, databasePorts)
      && r.database.Embedded? == c.database.Embedded? && (c.database.External? ==> r.database == c.database)
      && r.auth.explicit == c.auth.explicit && r.auth.publicBaseUrl.Some? == c.auth.publicBaseUrl.Some?
      && (!c.auth.explicit || c.auth.publicBaseUrl.None? || c.auth.publicBaseUrl.value.Elsewhere? ==> r.auth == c.auth)
      && (Claimable(c.serverPort) ==> Claimable(r.serverPort))
      && (c.database.Embedded? && Claimable(c.database.port) ==> Claimable(r.database.port))
      && (r != c && r.database.Embedded? ==> r.database.port != r.serverPort)
      && (r != c && r.auth.explicit && r.auth.publicBaseUrl.Some? && r.auth.publicBaseUrl.value.Loopback?
          ==> r.auth.publicBaseUrl.value.port == r.serverPort)
  {
    var r := RepairedConfig(c, root, serverPorts, databasePorts);
    if NeedsRepair(c, root) || Collides(c, serverPorts, databasePorts) {
      var port := ChosenServerPort(c, serverPorts);
      assert Claimable(port as real) && ServerClaim(r) == {port};
      if c.database.Embedded? {
        var databasePort := ChosenDatabasePort(c, databasePorts, port);
        assert Claimable(databasePort as real) && DatabaseClaim(r) == {databasePort};
      }
    }
  }

  /* ---- a fleet ---- */

  /** Two worktrees share no port that either would see as claimed. */
  predicate Apart(c: Config, d: Config) {
    ServerClaim(c) * ServerClaim(d) == {} && DatabaseClaim(c) * DatabaseClaim(d) == {}
  }

  ghost predicate MutuallyVisible(contexts: map<Name, Context>) {
    forall a, b :: a in contexts && b in contexts && b in contexts[a].siblings ==> a in contexts[b].siblings
  }

  /** A worktree that a further repair would not touch. */
  ghost predicate Settled(files: Files, name: Name, context: Context)
    requires name in files
  {
    && !NeedsRepair(files[name], context.instanceRoot)
    && forall n :: n in context.siblings && n in files && n != name ==> Apart(files[name], files[n])
  }

  lemma ApartFromClaims(files: Files, siblings: set<Name>, c: Config, n: Name)
    requires !Collides(c, Claims(files, siblings, ServerClaim), Claims(files, siblings, DatabaseClaim))
    requires n in siblings && n in files
    ensures Apart(c, files[n])
  {
    assert ServerClaim(files[n]) <= Claims(files, siblings, ServerClaim);
    assert DatabaseClaim(files[n]) <= Claims(files, siblings, DatabaseClaim);
  }

  lemma RepairSettles(files: Files, name: Name, context: Context)
    requires name in files
    ensures var after := Repaired(files, name, context);
      && after.Keys == files.Keys && (forall n :: n in files && n != name ==> after[n] == files[n])
      && Settled(after, name, context)
  {
    var siblings := context.siblings - {name};
    var serverPorts, databasePorts := Claims(files, siblings, ServerClaim), Claims(files, siblings, DatabaseClaim);
    RepairKeeps(files[name], context.instanceRoot, serverPorts, databasePorts);
    var after := Repaired(files, name, context);
    forall n | n in context.siblings && n in files && n != name ensures Apart(after[name], after[n]) {
      ApartFromClaims(files, siblings, after[name], n);
    }
  }

  /** Repairing a settled worktree writes nothing, and only those are left alone. */
  lemma SettledIffUntouched(files: Files, name: Name, context: Context)
    requires name in files
    ensures Settled(files, name, context) <==> Repaired(files, name, context) == files
  {
    var siblings := context.siblings - {name};
    var serverPorts, databasePorts := Claims(files, siblings, ServerClaim), Claims(files, siblings, DatabaseClaim);
    if Settled(files, name, context) {
      forall n | n in siblings && n in files ensures Apart(files[name], files[n]) {}
      assert !Collides(files[name], serverPorts, databasePorts);
      assert Repaired(files, name, context) == files;
    }
    if Repaired(files, name, context) == files {
      RepairSettles(files, name, context);
    }
  }

  /** The config files on disk, and the contexts of the worktrees that own them. */
  class Disk {
    const contexts: map<Name, Context>
    var files: Files

    constructor (contexts: map<Name, Context>, files: Files)
      ensures this.contexts == contexts && this.files == files
    {
      this.contexts, this.files := contexts, files;
    }

    method Repair(name: Name) returns (repaired: bool)
      requires name in contexts
      modifies this
      ensures files == Repaired(old(files), name, contexts[name])
      ensures !repaired ==> files == old(files)
    {
      repaired := false;
      if name in files {
        var context, c := contexts[name], files[name];
        var serverPorts, databasePorts := CollectSiblingPorts(files, context.siblings - {name});
        if NeedsRepair(c, context.instanceRoot) || Collides(c, serverPorts, databasePorts) {
          var serverPort := FindNextUnclaimedPort(if c.serverPort == 3100.0 then 3101.0 else c.serverPort, serverPorts);
          var databasePort := 0;
          if c.database.Embedded? {
            databasePort := FindNextUnclaimedPort(
              if c.database.port == 54329.0 then 54330.0 else c.database.port, databasePorts + {serverPort});
          }
          files := files[name := Isolated(c, context.instanceRoot, serverPort, databasePort)];
          repaired := true;
        }
      }
    }

    /** Repairing worktrees in any order, any number of times. Each repaired one ends up inside its own
        root and apart from every worktree that sees it; a fleet of honest ports repaired as a whole has
        all its ports different, and then repairs do nothing. */
    method RepairAll(order: seq<Name>)
      requires MutuallyVisible(contexts) && files.Keys <= contexts.Keys
      requires forall n :: n in order ==> n in contexts
      modifies this
      ensures files == RepairedInOrder(contexts, old(files), order) && files.Keys == old(files).Keys
      ensures forall n :: n in files && n !in order ==> files[n] == old(files)[n]
      ensures forall n :: n in files && n in order ==> Settled(files, n, contexts[n])
      ensures (forall n :: n in files ==> n in order) ==>
        forall n :: n in contexts ==> Repaired(files, n, contexts[n]) == files
      ensures HonestFleet(contexts, old(files)) && (forall n :: n in files ==> n in order) ==>
        Separated(contexts, files)
    {
      for i := 0 to |order|
        invariant files == RepairedInOrder(contexts, old(files), order[..i])
      {
        assert order[..i + 1][..i] == order[..i];
        var _ := Repair(order[i]);
      }
      assert order[..|order|] == order;
      RepairsSettle(contexts, old(files), order);
      forall n | n in contexts && (forall m :: m in files ==> m in order)
        ensures Repaired(files, n, contexts[n]) == files
      {
        if n in files { SettledIffUntouched(files, n, contexts[n]); }
      }
      if HonestFleet(contexts, old(files)) && (forall n :: n in files ==> n in order) {
        FleetSeparated(contexts, old(files), order);
      }
    }
  }

  function RepairedInOrder(contexts: map<Name, Context>, files: Files, order: seq<Name>): Files
    requires forall n :: n in order ==> n in contexts
  {
    if order == [] then files
    else
      var last := order[|order| - 1];
      Repaired(RepairedInOrder(contexts, files, order[..|order| - 1]), last, contexts[last])
  }

  lemma {:induction false} RepairsSettle(contexts: map<Name, Context>, files: Files, order: seq<Name>)
    requires MutuallyVisible(contexts) && files.Keys <= contexts.Keys && forall n :: n in order ==> n in contexts
    ensures var after := RepairedInOrder(contexts, files, order);
      && after.Keys == files.Keys && (forall n :: n in files && n !in order ==> after[n] == files[n])
      && forall n :: n in files && n in order ==> Settled(after, n, contexts[n])
  {
    if order != [] {
      var front, last := order[..|order| - 1], order[|order| - 1];
      RepairsSettle(contexts, files, front);
      StaySettled(contexts, RepairedInOrder(contexts, files, front), last);
      assert order == front + [last];
    }
  }

  /* ---- the whole fleet ---- */

  /** An embedded database and positive integer ports. */
  predicate Honest(c: Config) {
    Claimable(c.serverPort) && c.database.Embedded? && Claimable(c.database.port)
  }

  /** Worktrees with embedded databases and positive integer ports that all see each other. */
  ghost predicate HonestFleet(contexts: map<Name, Context>, files: Files) {
    && MutuallyVisible(contexts) && files.Keys <= contexts.Keys
    && (forall n :: n in files ==> Honest(files[n]))
    && forall a, b :: a in files && b in files && a != b ==> b in contexts[a].siblings
  }

  /** Server ports are pairwise different, database ports are, and every path is inside its instance root. */
  ghost predicate Separated(contexts: map<Name, Context>, files: Files)
    requires files.Keys <= contexts.Keys
  {
    && (forall n :: n in files ==> !NeedsRepair(files[n], contexts[n].instanceRoot))
    && (forall a, b :: a in files && b in files && a != b ==> files[a].serverPort != files[b].serverPort)
    && forall a, b :: a in files && b in files && a != b && files[a].database.Embedded? && files[b].database.Embedded?
         ==> files[a].database.port != files[b].database.port
  }

  lemma {:induction false} StaysHonest(contexts: map<Name, Context>, files: Files, order: seq<Name>)
    requires (forall n :: n in order ==> n in contexts) && forall n :: n in files ==> Honest(files[n])
    ensures var after := RepairedInOrder(contexts, files, order);
      after.Keys == files.Keys && forall n :: n in after ==> Honest(after[n])
  {
    if order != [] {
      var front, last := order[..|order| - 1], order[|order| - 1];
      StaysHonest(contexts, files, front);
      var before := RepairedInOrder(contexts, files, front);
      if last in before {
        var context, siblings := contexts[last], contexts[last].siblings - {last};
        RepairKeeps(before[last], context.instanceRoot,
          Claims(before, siblings, ServerClaim), Claims(before, siblings, DatabaseClaim));
      }
    }
  }

  /** Repairing every worktree of an honest fleet, in any order, separates them all. */
  lemma FleetSeparated(contexts: map<Name, Context>, files: Files, order: seq<Name>)
    requires HonestFleet(contexts, files)
    requires (forall n :: n in order ==> n in contexts) && forall n :: n in files ==> n in order
    ensures RepairedInOrder(contexts, files, order).Keys == files.Keys
    ensures Separated(contexts, RepairedInOrder(contexts, files, order))
  {
    RepairsSettle(contexts, files, order);
    StaysHonest(contexts, files, order);
    var after := RepairedInOrder(contexts, files, order);
    forall a, b | a in after && b in after && a != b
      ensures after[a].serverPort != after[b].serverPort && after[a].database.port != after[b].database.port
    {
      SettledPortsDiffer(after, a, b, contexts[a]);
    }
  }

  /** A repair unsettles nobody who sees the repaired worktree. */
  lemma StaySettled(contexts: map<Name, Context>, files: Files, name: Name)
    requires MutuallyVisible(contexts) && files.Keys <= contexts.Keys && name in contexts
    ensures var after := Repaired(files, name, contexts[name]);
      && after.Keys == files.Keys && (forall n :: n in files && n != name ==> after[n] == files[n])
      && (name in files ==> Settled(after, name, contexts[name]))
      && forall n :: n in files && Settled(files, n, contexts[n]) ==> Settled(after, n, contexts[n])
  {
    if name in files {
      RepairSettles(files, name, contexts[name]);
      var after := Repaired(files, name, contexts[name]);
      forall n | n in files && n != name && Settled(files, n, contexts[n]) ensures Settled(after, n, contexts[n]) {
        forall m | m in contexts[n].siblings && m in files && m != n ensures Apart(after[n], after[m]) {
          if m == name { assert Apart(after[name], after[n]); }
        }
      }
    }
  }

  predicate SameDatabasePort(c: Config, d: Config) {
    c.database.Embedded? && d.database.Embedded? && c.database.port == d.database.port
  }

  /** Positive integer ports of two settled worktrees that see each other are different. */
  lemma SettledPortsDiffer(files: Files, a: Name, b: Name, context: Context)
    requires a in files && b in files && a != b && b in context.siblings && Settled(files, a, context)
    ensures files[a].serverPort == files[b].serverPort ==> !Claimable(files[a].serverPort)
    ensures SameDatabasePort(files[a], files[b]) ==> !Claimable(files[a].database.port)
  {
    assert Apart(files[a], files[b]);
    SharedClaim(files[a], files[b]);
  }

  lemma SharedClaim(c: Config, d: Config)
    ensures c.serverPort == d.serverPort && Claimable(c.serverPort) ==> !Apart(c, d)
    ensures SameDatabasePort(c, d) && Claimable(c.database.port) ==> !Apart(c, d)
  {
    if c.serverPort == d.serverPort && Claimable(c.serverPort) {
      assert c.serverPort.Floor in ServerClaim(c) * ServerClaim(d);
    }
    if SameDatabasePort(c, d) && Claimable(c.database.port) {
      assert c.database.port.Floor in DatabaseClaim(c) * DatabaseClaim(d);
    }
  }

  /** Exactly when a repair leaves a port shared with a visible sibling: when it was shared before, is not a
      positive integer, and nothing else made the repair act. */
  lemma SharedAfterIff(files: Files, a: Name, b: Name, context: Context)
    requires a in files && b in files && a != b && b in context.siblings
    ensures var after := Repaired(files, a, context);
      && (after[a].serverPort == after[b].serverPort <==>
            files[a].serverPort == files[b].serverPort && !Claimable(files[a].serverPort) && Settled(files, a, context))
      && (SameDatabasePort(after[a], after[b]) <==>
            SameDatabasePort(files[a], files[b]) && !Claimable(files[a].database.port) && Settled(files, a, context))
  {
    var after := Repaired(files, a, context);
    RepairSettles(files, a, context);
    SettledIffUntouched(files, a, context);
    SettledPortsDiffer(after, a, b, context);
    if !Settled(files, a, context) { RewrittenPorts(files, a, context); }
  }

  lemma UnsettledActs(files: Files, name: Name, context: Context)
    requires name in files
    ensures var siblings := context.siblings - {name};
      || Settled(files, name, context) || NeedsRepair(files[name], context.instanceRoot)
      || Collides(files[name], Claims(files, siblings, ServerClaim), Claims(files, siblings, DatabaseClaim))
  {
    SettledIffUntouched(files, name, context);
    assert files[name := files[name]] == files;
  }

  /** A repair that acts writes positive integer ports. */
  lemma RewrittenPorts(files: Files, name: Name, context: Context)
    requires name in files && !Settled(files, name, context)
    ensures var c := Repaired(files, name, context)[name];
      Claimable(c.serverPort) && (c.database.Embedded? ==> Claimable(c.database.port))
  {
    UnsettledActs(files, name, context);
    var siblings, c := context.siblings - {name}, files[name];
    var serverPorts, databasePorts := Claims(files, siblings, ServerClaim), Claims(files, siblings, DatabaseClaim);
    var port := ChosenServerPort(c, serverPorts);
    assert Claimable(port as real);
    if c.database.Embedded? { assert Claimable(ChosenDatabasePort(c, databasePorts, port) as real); }
  }

  lemma LeastUnclaimedUnique(from: int, claimed: set<int>, p: int, q: int)
    requires LeastUnclaimed(from, claimed, p) && LeastUnclaimed(from, claimed, q)
    ensures p == q
  {
    assert q < p ==> q in claimed;
    assert p < q ==> p in claimed;
  }

  /** A server port is chosen without looking at the siblings' database ports: it lands on one exactly when
      the least port free of server claims is one. */
  lemma ServerTakesDatabasePortIff(files: Files, name: Name, context: Context)
    requires name in files && !Settled(files, name, context)
    ensures var siblings, from := context.siblings - {name}, FirstCandidate(Preferred(files[name].serverPort, 3100.0));
      var serverPorts, databasePorts := Claims(files, siblings, ServerClaim), Claims(files, siblings, DatabaseClaim);
      Repaired(files, name, context)[name].serverPort.Floor in databasePorts
      <==> exists q :: q in databasePorts && LeastUnclaimed(from, serverPorts, q)
  {
    UnsettledActs(files, name, context);
    var siblings, c := context.siblings - {name}, files[name];
    var serverPorts, databasePorts := Claims(files, siblings, ServerClaim), Claims(files, siblings, DatabaseClaim);
    var from, port := FirstCandidate(Preferred(c.serverPort, 3100.0)), ChosenServerPort(c, serverPorts);
    assert Repaired(files, name, context)[name].serverPort == port as real && LeastUnclaimed(from, serverPorts, port);
    forall q | LeastUnclaimed(from, serverPorts, q) ensures q == port {
      LeastUnclaimedUnique(from, serverPorts, q, port);
    }
  }

  /** For instance, 3101. */
  lemma ServerMayTakeDatabasePort(c: Config, d: Config, root: Path)
    requires c.serverPort == 3100.0 && d.serverPort == 3100.0 && d.database.Embedded? && d.database.port == 3101.0
    ensures Repaired(map["c" := c, "d" := d], "c", Context(root, {"d"}))["c"].serverPort == d.database.port
  {
    var files := map["c" := c, "d" := d];
    var serverPorts := Claims(files, {"d"}, ServerClaim);
    assert files["d"] == d && ServerClaim(d) == {3100};
    assert serverPorts == {3100};
    assert {"d"} - {"c"} == {"d"};
    assert ServerClaim(c) * serverPorts == {3100};
  }

  /** The two ports a repair picks, one after the other. */
  ghost predicate Picks(c: Config, serverPorts: set<int>, databasePorts: set<int>, serverPort: int, databasePort: int)
    requires c.database.Embedded?
  {
    && LeastUnclaimed(FirstCandidate(Preferred(c.serverPort, 3100.0)), serverPorts, serverPort)
    && LeastUnclaimed(FirstCandidate(Preferred(c.database.port, 54329.0)), databasePorts + {serverPort}, databasePort)
  }

  lemma PicksUnique(c: Config, serverPorts: set<int>, databasePorts: set<int>, p: int, q: int, r: int, s: int)
    requires c.database.Embedded?
    requires Picks(c, serverPorts, databasePorts, p, q) && Picks(c, serverPorts, databasePorts, r, s)
    ensures p == r && q == s
  {
    LeastUnclaimedUnique(FirstCandidate(Preferred(c.serverPort, 3100.0)), serverPorts, p, r);
    LeastUnclaimedUnique(FirstCandidate(Preferred(c.database.port, 54329.0)), databasePorts + {p}, q, s);
  }

  /** Nor does the choice of a database port look at the siblings' server ports: it lands on one exactly when
      the least port free of database claims and of the worktree's own new server port is one. */
  lemma DatabaseTakesServerPortIff(files: Files, name: Name, context: Context)
    requires name in files && files[name].database.Embedded? && !Settled(files, name, context)
    ensures Repaired(files, name, context)[name].database.Embedded?
    ensures var siblings := context.siblings - {name};
      var serverPorts, databasePorts := Claims(files, siblings, ServerClaim), Claims(files, siblings, DatabaseClaim);
      Repaired(files, name, context)[name].database.port.Floor in serverPorts
      <==> exists p, q :: q in serverPorts && Picks(files[name], serverPorts, databasePorts, p, q)
  {
    UnsettledActs(files, name, context);
    var siblings, c := context.siblings - {name}, files[name];
    var serverPorts, databasePorts := Claims(files, siblings, ServerClaim), Claims(files, siblings, DatabaseClaim);
    var port := ChosenServerPort(c, serverPorts);
    var databasePort := ChosenDatabasePort(c, databasePorts, port);
    assert Repaired(files, name, context)[name].database.port == databasePort as real;
    assert Picks(c, serverPorts, databasePorts, port, databasePort);
    forall p, q | Picks(c, serverPorts, databasePorts, p, q) ensures q == databasePort {
      PicksUnique(c, serverPorts, databasePorts, p, q, port, databasePort);
    }
  }

  /** For instance, 54330. */
  lemma DatabaseMayTakeServerPort(c: Config, d: Config, root: Path)
    requires c.database.Embedded? && c.database.port == 54329.0 && NeedsRepair(c, root)
    requires c.serverPort == 3100.0 && d.serverPort == 54330.0 && d.database.External?
    ensures var after := Repaired(map["c" := c, "d" := d], "c", Context(root, {"d"}))["c"];
      after.database.Embedded? && after.database.port == d.serverPort
  {
    var files := map["c" := c, "d" := d];
    assert {"d"} - {"c"} == {"d"};
    assert files["d"] == d && ServerClaim(d) == {54330} && DatabaseClaim(d) == {};
    assert Claims(files, {"d"}, ServerClaim) == {54330};
    assert Claims(files, {"d"}, DatabaseClaim) == {};
  }
}
