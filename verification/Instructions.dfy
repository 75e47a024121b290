/** Loading instructions with their references inlined (packages/adapter-utils/src/instructions.ts):
    a bounded depth-first walk over a graph of files that may be cyclic. */
module Instructions {
  import opened Basics
  import opened Text

  /** A resolved path. */
  type Path = string

  /** A regular file has its text, front matter removed, and the resolved paths that text refers to. */
  datatype File = Directory | Regular(size: nat, content: string, references: seq<Path>)

  /** A path that is absent cannot be read. */
  type Disk = map<Path, File>

  datatype Limits = Limits(maxDepth: int, maxFiles: int, maxBytes: int, inlineMax: int)

  datatype Warning = LimitReached(path: Path) | LeftAsPath(path: Path) | Skipped(path: Path)

  /** The walk's shared variables, and logs of the reads it attempted and of the files whose references it followed. */
  datatype Walk = Walk(
    seen: set<Path>, included: seq<Path>, deferred: seq<Path>, warnings: seq<Warning>,
    attempts: seq<Path>, followed: seq<Path>)

  /** A loaded file with the parts inlined into it. */
  datatype Doc = Doc(path: Path, own: string, parts: seq<Doc>)

  datatype Outcome = Loaded(doc: Doc) | Nothing | Failed

  predicate Readable(disk: Disk, limits: Limits, path: Path) {
    path in disk && disk[path].Regular? && disk[path].size <= limits.maxBytes
  }

  predicate TooBig(disk: Disk, limits: Limits, path: Path) {
    path in disk && disk[path].Regular? && disk[path].size > limits.inlineMax
  }

  /* ---- the text produced ---- */

  function Render(doc: Doc): string
    decreases doc
  {
    doc.own + RenderParts(doc.parts)
  }

  function RenderParts(parts: seq<Doc>): string
    decreases parts
  {
    if parts == [] then ""
    else RenderParts(parts[..|parts| - 1]) + ("\n\n" + Section(parts[|parts| - 1].path, Render(parts[|parts| - 1])))
  }

  function Section(path: Path, text: string): string {
    "---\n\n## Inlined Referenced Instructions: " + path + "\n\n" + text
  }

  /** `[content, ...sections].join("\n\n")` */
  function Joined(content: string, sections: seq<string>): string {
    if sections == [] then content
    else Joined(content, sections[..|sections| - 1]) + ("\n\n" + sections[|sections| - 1])
  }

  /** The files in a document, in reading order. */
  function Preorder(doc: Doc): seq<Path>
    decreases doc
  {
    [doc.path] + PreorderParts(doc.parts)
  }

  function PreorderParts(parts: seq<Doc>): seq<Path>
    decreases parts
  {
    if parts == [] then [] else PreorderParts(parts[..|parts| - 1]) + Preorder(parts[|parts| - 1])
  }

  /* ---- the walk ---- */

  function Room(limits: Limits, depth: int): nat {
    if limits.maxDepth > depth then limits.maxDepth - depth else 0
  }

  function Warned(w: Walk, warning: Warning): Walk {
    w.(warnings := w.warnings + [warning])
  }

  function Tried(w: Walk, path: Path): Walk {
    w.(seen := w.seen + {path}, attempts := w.attempts + [path])
  }

  function Opened(w: Walk, path: Path, isEntry: bool): Walk {
    if isEntry then w else w.(included := w.included + [path])
  }

  function Following(w: Walk, path: Path): Walk {
    w.(followed := w.followed + [path])
  }

  function Load(disk: Disk, limits: Limits, path: Path, depth: int, isEntry: bool, w: Walk): (Walk, Outcome)
    decreases Room(limits, depth), 1, 0
  {
    if path in w.seen then (w, Nothing)
    else if !isEntry && |w.included| >= limits.maxFiles then (Warned(w, LimitReached(path)), Nothing)
    else if !Readable(disk, limits, path) then (Tried(w, path), Failed)
    else
      var started := Opened(Tried(w, path), path, isEntry);
      if depth >= limits.maxDepth then (started, Loaded(Doc(path, disk[path].content, [])))
      else
        var followed := Follow(disk, limits, path, disk[path].references, depth, Following(started, path));
        (followed.0, Loaded(Doc(path, disk[path].content, followed.1)))
  }

  /** The references of a file at `depth`, in turn. */
  function Follow(disk: Disk, limits: Limits, from: Path, references: seq<Path>, depth: int, w: Walk): (Walk, seq<Doc>)
    requires depth < limits.maxDepth
    decreases Room(limits, depth), 0, |references|
  {
    if references == [] then (w, [])
    else
      var before := Follow(disk, limits, from, references[..|references| - 1], depth, w);
      var last := FollowOne(disk, limits, from, references[|references| - 1], depth, before.0);
      (last.0, before.1 + last.1)
  }

  function FollowOne(disk: Disk, limits: Limits, from: Path, candidate: Path, depth: int, w: Walk): (Walk, seq<Doc>)
    requires depth < limits.maxDepth
    decreases Room(limits, depth), 0, 0
  {
    if candidate == from || candidate in w.seen then (w, [])
    else if TooBig(disk, limits, candidate) then
      (Warned(w.(deferred := w.deferred + [candidate]), LeftAsPath(candidate)), [])
    else
      var loaded := Load(disk, limits, candidate, depth + 1, false, w);
      match loaded.1
      case Failed => (Warned(loaded.0, Skipped(candidate)), [])
      case Nothing => (loaded.0, [])
      case Loaded(doc) => (loaded.0, if Blank(Render(doc)) then [] else [doc])
  }

  const START := Walk({}, [], [], [], [], [])

  /* ---- what the walk keeps ---- */

  /** Each link of the chain is a reference in a regular file; the chain starts at the entry. */
  ghost predicate Chain(disk: Disk, entry: Path, path: Path, length: nat)
    decreases length
  {
    if length == 0 then path == entry
    else exists parent :: Refers(disk, parent, path) && Chain(disk, entry, parent, length - 1)
  }

  predicate Refers(disk: Disk, parent: Path, path: Path) {
    parent in disk && disk[parent].Regular? && path in disk[parent].references
  }

  ghost predicate Within(disk: Disk, entry: Path, path: Path, depth: int) {
    exists length: nat :: length <= depth && Chain(disk, entry, path, length)
  }

  ghost predicate Sound(disk: Disk, limits: Limits, entry: Path, w: Walk) {
    && Distinct(w.attempts) && w.seen == (set p | p in w.attempts)
    && Distinct(w.included)
    && (forall p :: p in w.included ==> p in w.seen && p != entry)
    && (forall p :: p in w.included ==> Readable(disk, limits, p) && !TooBig(disk, limits, p))
    && (forall p :: p in w.included ==> Within(disk, entry, p, limits.maxDepth))
    && (w.included == [] || |w.included| <= limits.maxFiles)
    && (forall p :: p in w.deferred ==> TooBig(disk, limits, p) && p != entry)
    && Distinct(w.followed)
    && (forall p :: p in w.followed ==> p in w.seen && Readable(disk, limits, p) && (p == entry || p in w.included))
    && (forall p :: p in w.followed ==> Within(disk, entry, p, limits.maxDepth - 1))
    && (forall p :: p in w.seen && TooBig(disk, limits, p) ==> p == entry)
  }

  lemma TriedSound(disk: Disk, limits: Limits, entry: Path, path: Path, w: Walk)
    requires Sound(disk, limits, entry, w) && path !in w.seen && (TooBig(disk, limits, path) ==> path == entry)
    ensures Sound(disk, limits, entry, Tried(w, path))
  {
    assert path !in w.attempts;
    AppendShift(w.attempts, path, []);
  }

  lemma OpenedSound(disk: Disk, limits: Limits, entry: Path, path: Path, w: Walk)
    requires Sound(disk, limits, entry, w) && path in w.seen && path !in w.included && path != entry
    requires Readable(disk, limits, path) && !TooBig(disk, limits, path) && |w.included| < limits.maxFiles
    requires Within(disk, entry, path, limits.maxDepth)
    ensures Sound(disk, limits, entry, Opened(w, path, false))
  {
    AppendShift(w.included, path, []);
  }

  lemma FollowingSound(disk: Disk, limits: Limits, entry: Path, path: Path, w: Walk)
    requires Sound(disk, limits, entry, w) && path in w.seen && path !in w.followed && Readable(disk, limits, path)
    requires (path == entry || path in w.included) && Within(disk, entry, path, limits.maxDepth - 1)
    ensures Sound(disk, limits, entry, Following(w, path))
  {
    AppendShift(w.followed, path, []);
  }

  lemma {:induction false} LoadSound(disk: Disk, limits: Limits, entry: Path, path: Path, depth: nat, w: Walk)
    requires Sound(disk, limits, entry, w) && entry in w.seen && depth <= limits.maxDepth
    requires Chain(disk, entry, path, depth) && !TooBig(disk, limits, path)
    ensures var after := Load(disk, limits, path, depth, false, w).0;
      Sound(disk, limits, entry, after) && w.seen <= after.seen
    decreases Room(limits, depth), 1, 0
  {
    if path !in w.seen && |w.included| < limits.maxFiles {
      TriedSound(disk, limits, entry, path, w);
      if Readable(disk, limits, path) {
        assert Within(disk, entry, path, limits.maxDepth);
        OpenedSound(disk, limits, entry, path, Tried(w, path));
        if depth < limits.maxDepth {
          var started := Opened(Tried(w, path), path, false);
          assert Within(disk, entry, path, limits.maxDepth - 1);
          FollowingSound(disk, limits, entry, path, started);
          FollowSound(disk, limits, entry, path, disk[path].references, depth, Following(started, path));
        }
      }
    }
  }

  lemma {:induction false} FollowSound(
      disk: Disk, limits: Limits, entry: Path, from: Path, references: seq<Path>, depth: nat, w: Walk)
    requires Sound(disk, limits, entry, w) && entry in w.seen && depth < limits.maxDepth
    requires Chain(disk, entry, from, depth) && forall r :: r in references ==> Refers(disk, from, r)
    ensures var after := Follow(disk, limits, from, references, depth, w).0;
      Sound(disk, limits, entry, after) && w.seen <= after.seen
    decreases Room(limits, depth), 0, |references|
  {
    if references != [] {
      var n := |references| - 1;
      FollowSound(disk, limits, entry, from, references[..n], depth, w);
      var before := Follow(disk, limits, from, references[..n], depth, w).0;
      FollowOneSound(disk, limits, entry, from, references[n], depth, before);
    }
  }

  lemma {:induction false} FollowOneSound(
      disk: Disk, limits: Limits, entry: Path, from: Path, candidate: Path, depth: nat, w: Walk)
    requires Sound(disk, limits, entry, w) && entry in w.seen && depth < limits.maxDepth
    requires Chain(disk, entry, from, depth) && Refers(disk, from, candidate)
    ensures var after := FollowOne(disk, limits, from, candidate, depth, w).0;
      Sound(disk, limits, entry, after) && w.seen <= after.seen
    decreases Room(limits, depth), 0, 0
  {
    if candidate != from && candidate !in w.seen && !TooBig(disk, limits, candidate) {
      assert Chain(disk, entry, candidate, depth + 1);
      LoadSound(disk, limits, entry, candidate, depth + 1, w);
    }
  }

  /** Whatever the reference graph, the walk from the entry ends sound. */
  lemma WalkSound(disk: Disk, limits: Limits, entry: Path)
    ensures Sound(disk, limits, entry, Load(disk, limits, entry, 0, true, START).0)
    ensures Load(disk, limits, entry, 0, true, START).1.Failed? <==> !Readable(disk, limits, entry)
  {
    assert Sound(disk, limits, entry, START);
    TriedSound(disk, limits, entry, entry, START);
    if Readable(disk, limits, entry) && limits.maxDepth > 0 {
      assert Chain(disk, entry, entry, 0);
      FollowingSound(disk, limits, entry, entry, Tried(START, entry));
      FollowSound(disk, limits, entry, entry, disk[entry].references, 0, Following(Tried(START, entry), entry));
    }
  }

  /** No path is both inlined and left for reading on demand. */
  lemma IncludedNotDeferred(disk: Disk, limits: Limits, entry: Path)
    ensures var w := Load(disk, limits, entry, 0, true, START).0;
      (set p | p in w.included) !! (set p | p in w.deferred)
  {
    WalkSound(disk, limits, entry);
  }

  /* ---- how often a path is deferred ---- */

  /** How often the followed files refer to a path. */
  function ReferenceCount(disk: Disk, followed: seq<Path>, p: Path): nat {
    if followed == [] then 0
    else
      var last := followed[|followed| - 1];
      ReferenceCount(disk, followed[..|followed| - 1], p)
      + if last in disk && disk[last].Regular? then multiset(disk[last].references)[p] else 0
  }

  /** References in followed files that have not led to a deferral yet, counted negatively. */
  function Balance(disk: Disk, w: Walk, p: Path): int {
    multiset(w.deferred)[p] - ReferenceCount(disk, w.followed, p)
  }

  ghost predicate NeverLoaded(disk: Disk, limits: Limits, w: Walk, p: Path) {
    TooBig(disk, limits, p) && p !in w.seen
  }

  lemma FollowingBalance(disk: Disk, w: Walk, path: Path, p: Path)
    requires path in disk && disk[path].Regular?
    ensures Balance(disk, Following(w, path), p) == Balance(disk, w, p) - multiset(disk[path].references)[p]
  {
    AppendShift(w.followed, path, []);
  }

  lemma {:induction false} LoadDefers(
      disk: Disk, limits: Limits, path: Path, depth: int, isEntry: bool, w: Walk, p: Path)
    requires NeverLoaded(disk, limits, w, p) && path != p
    ensures var after := Load(disk, limits, path, depth, isEntry, w).0;
      NeverLoaded(disk, limits, after, p) && Balance(disk, after, p) == Balance(disk, w, p)
    decreases Room(limits, depth), 1, 0
  {
    if Readable(disk, limits, path) && depth < limits.maxDepth {
      var started := Opened(Tried(w, path), path, isEntry);
      FollowingBalance(disk, started, path, p);
      FollowDefers(disk, limits, path, disk[path].references, depth, Following(started, path), p);
    }
  }

  lemma {:induction false} FollowDefers(
      disk: Disk, limits: Limits, from: Path, references: seq<Path>, depth: int, w: Walk, p: Path)
    requires NeverLoaded(disk, limits, w, p) && from != p && depth < limits.maxDepth
    ensures var after := Follow(disk, limits, from, references, depth, w).0;
      NeverLoaded(disk, limits, after, p) && Balance(disk, after, p) == Balance(disk, w, p) + multiset(references)[p]
    decreases Room(limits, depth), 0, |references|
  {
    if references != [] {
      var n := |references| - 1;
      FollowDefers(disk, limits, from, references[..n], depth, w, p);
      var before := Follow(disk, limits, from, references[..n], depth, w).0;
      FollowOneDefers(disk, limits, from, references[n], depth, before, p);
      assert references == references[..n] + [references[n]];
    }
  }

  lemma {:induction false} FollowOneDefers(
      disk: Disk, limits: Limits, from: Path, candidate: Path, depth: int, w: Walk, p: Path)
    requires NeverLoaded(disk, limits, w, p) && from != p && depth < limits.maxDepth
    ensures var after := FollowOne(disk, limits, from, candidate, depth, w).0;
      && NeverLoaded(disk, limits, after, p)
      && Balance(disk, after, p) == Balance(disk, w, p) + if candidate == p then 1 else 0
    decreases Room(limits, depth), 0, 0
  {
    if candidate != p { LoadDefers(disk, limits, candidate, depth + 1, false, w, p); }
  }

  /** A path is deferred once for every reference to it in a followed file, if it is too big and not the entry. */
  lemma DeferredCount(disk: Disk, limits: Limits, entry: Path, p: Path)
    ensures var w := Load(disk, limits, entry, 0, true, START).0;
      multiset(w.deferred)[p]
      == if TooBig(disk, limits, p) && p != entry then ReferenceCount(disk, w.followed, p) else 0
  {
    WalkSound(disk, limits, entry);
    var w := Load(disk, limits, entry, 0, true, START).0;
    if TooBig(disk, limits, p) && p != entry {
      LoadDefers(disk, limits, entry, 0, true, START, p);
    } else {
      assert p !in w.deferred;
    }
  }

  /** The deferred paths are distinct exactly when no such path is referred to twice, by one followed file or by two. */
  lemma DeferredOnceIff(disk: Disk, limits: Limits, entry: Path)
    ensures var w := Load(disk, limits, entry, 0, true, START).0;
      Distinct(w.deferred) <==>
        forall p :: TooBig(disk, limits, p) && p != entry ==> ReferenceCount(disk, w.followed, p) <= 1
  {
    var w := Load(disk, limits, entry, 0, true, START).0;
    forall p | TooBig(disk, limits, p) && p != entry
      ensures multiset(w.deferred)[p] == ReferenceCount(disk, w.followed, p)
    {
      DeferredCount(disk, limits, entry, p);
    }
    if Distinct(w.deferred) {
      forall p | TooBig(disk, limits, p) && p != entry ensures ReferenceCount(disk, w.followed, p) <= 1 {
        DistinctCount(w.deferred, p);
      }
    } else {
      var i, j :| 0 <= i < j < |w.deferred| && w.deferred[i] == w.deferred[j];
      TwiceCounted(w.deferred, i, j);
      DeferredCount(disk, limits, entry, w.deferred[i]);
      assert ReferenceCount(disk, w.followed, w.deferred[i]) >= 2;
    }
  }

  /** A file the walk may get to follow, judged by the disk alone. */
  ghost predicate MayFollow(disk: Disk, limits: Limits, entry: Path, path: Path) {
    Readable(disk, limits, path) && Within(disk, entry, path, limits.maxDepth - 1)
  }

  ghost predicate RefersAt(disk: Disk, limits: Limits, entry: Path, parent: Path, i: int, p: Path) {
    MayFollow(disk, limits, entry, parent) && 0 <= i < |disk[parent].references| && disk[parent].references[i] == p
  }

  ghost predicate ReferredOnce(disk: Disk, limits: Limits, entry: Path, p: Path) {
    forall a, i, b, j ::
      RefersAt(disk, limits, entry, a, i, p) && RefersAt(disk, limits, entry, b, j, p) ==> a == b && i == j
  }

  lemma {:induction false} FollowedOnce(disk: Disk, limits: Limits, entry: Path, followed: seq<Path>, p: Path)
    requires Distinct(followed) && (forall q :: q in followed ==> MayFollow(disk, limits, entry, q))
    requires ReferredOnce(disk, limits, entry, p)
    ensures ReferenceCount(disk, followed, p) <= 1
    ensures ReferenceCount(disk, followed, p) == 1 ==>
      exists a, i :: a in followed && RefersAt(disk, limits, entry, a, i, p)
  {
    if followed != [] {
      var front, last := followed[..|followed| - 1], followed[|followed| - 1];
      assert followed == front + [last] && last !in front;
      FollowedOnce(disk, limits, entry, front, p);
      assert MayFollow(disk, limits, entry, last);
      var references := disk[last].references;
      if multiset(references)[p] >= 2 {
        var i, j := CountedTwice(references, p);
        assert RefersAt(disk, limits, entry, last, i, p) && RefersAt(disk, limits, entry, last, j, p);
      } else if multiset(references)[p] == 1 {
        assert p in references;
        var i :| 0 <= i < |references| && references[i] == p;
        assert RefersAt(disk, limits, entry, last, i, p);
      }
    }
  }

  lemma {:induction false} CountedTwice(s: seq<Path>, p: Path) returns (i: nat, j: nat)
    requires multiset(s)[p] >= 2
    ensures i < j < |s| && s[i] == s[j] == p
  {
    var front, last := s[..|s| - 1], s[|s| - 1];
    assert s == front + [last];
    if last != p {
      i, j := CountedTwice(front, p);
    } else {
      assert p in front;
      i :| i < |front| && front[i] == p;
      j := |s| - 1;
    }
  }

  /** Enough to see beforehand: the deferred paths are distinct when no large file other than the entry is
      referred to twice by the readable files within reach. */
  lemma DeferredOnce(disk: Disk, limits: Limits, entry: Path)
    requires forall p :: TooBig(disk, limits, p) && p != entry ==> ReferredOnce(disk, limits, entry, p)
    ensures Distinct(Load(disk, limits, entry, 0, true, START).0.deferred)
  {
    var w := Load(disk, limits, entry, 0, true, START).0;
    WalkSound(disk, limits, entry);
    forall p | TooBig(disk, limits, p) && p != entry ensures ReferenceCount(disk, w.followed, p) <= 1 {
      FollowedOnce(disk, limits, entry, w.followed, p);
    }
    DeferredOnceIff(disk, limits, entry);
  }

  /** For instance, a large file the entry refers to by two spellings. */
  lemma DeferredMayRepeat(disk: Disk, limits: Limits, entry: Path, large: Path)
    requires Readable(disk, limits, entry) && disk[entry].references == [large, large] && limits.maxDepth > 0
    requires large != entry && TooBig(disk, limits, large)
    ensures Load(disk, limits, entry, 0, true, START).0.deferred == [large, large]
  {
    var w := Following(Tried(START, entry), entry);
    FollowLast(disk, limits, entry, [], large, 0, w);
    FollowLast(disk, limits, entry, [large], large, 0, w);
    assert [] + [large] == [large] && [large] + [large] == [large, large];
    assert Load(disk, limits, entry, 0, true, START).0 == Follow(disk, limits, entry, [large, large], 0, w).0;
  }

  lemma FollowLast(disk: Disk, limits: Limits, from: Path, references: seq<Path>, last: Path, depth: int, w: Walk)
    requires depth < limits.maxDepth
    ensures var before := Follow(disk, limits, from, references, depth, w);
      var one := FollowOne(disk, limits, from, last, depth, before.0);
      Follow(disk, limits, from, references + [last], depth, w) == (one.0, before.1 + one.1)
  {
    AppendShift(references, last, []);
  }

  /* ---- the document holds what was included ---- */

  predicate BlankFile(disk: Disk, path: Path) {
    path in disk && disk[path].Regular? && Blank(disk[path].content)
  }

  /** `kept` is `all` without some of its blank files. */
  ghost predicate Thinned(disk: Disk, all: seq<Path>, kept: seq<Path>)
    decreases |all|
  {
    if all == [] then kept == []
    else
      || (kept != [] && kept[0] == all[0] && Thinned(disk, all[1..], kept[1..]))
      || (BlankFile(disk, all[0]) && Thinned(disk, all[1..], kept))
  }

  lemma {:induction false} ThinnedConcat(disk: Disk, a: seq<Path>, b: seq<Path>, x: seq<Path>, y: seq<Path>)
    requires Thinned(disk, a, x) && Thinned(disk, b, y)
    ensures Thinned(disk, a + b, x + y)
    decreases |a|
  {
    if a == [] {
      assert a + b == b && x + y == y;
    } else {
      assert (a + b)[1..] == a[1..] + b;
      if x != [] && x[0] == a[0] && Thinned(disk, a[1..], x[1..]) {
        assert (x + y)[1..] == x[1..] + y;
        ThinnedConcat(disk, a[1..], b, x[1..], y);
      } else {
        ThinnedConcat(disk, a[1..], b, x, y);
      }
    }
  }

  lemma {:induction false} ThinnedDrop(disk: Disk, all: seq<Path>, path: Path)
    requires Thinned(disk, all, [path]) && BlankFile(disk, path)
    ensures Thinned(disk, all, [])
    decreases |all|
  {
    if [path][0] == all[0] && Thinned(disk, all[1..], [path][1..]) {
      assert [path][1..] == [];
    } else {
      ThinnedDrop(disk, all[1..], path);
    }
  }

  /** The included list grew by the files in `kept`, in order, and some blank ones. */
  ghost predicate Grew(disk: Disk, before: seq<Path>, after: seq<Path>, kept: seq<Path>) {
    before <= after && Thinned(disk, after[|before|..], kept)
  }

  lemma GrewNot(disk: Disk, included: seq<Path>)
    ensures Grew(disk, included, included, [])
  {
  }

  lemma GrewOne(disk: Disk, included: seq<Path>, path: Path)
    ensures Grew(disk, included, included + [path], [path])
  {
    var added := (included + [path])[|included|..];
    assert added == [path] && added[1..] == [] && [path][1..] == [];
  }

  lemma GrewTwice(disk: Disk, a: seq<Path>, b: seq<Path>, c: seq<Path>, x: seq<Path>, y: seq<Path>)
    requires Grew(disk, a, b, x) && Grew(disk, b, c, y)
    ensures Grew(disk, a, c, x + y)
  {
    ThinnedConcat(disk, b[|a|..], c[|b|..], x, y);
    assert c[|a|..] == b[|a|..] + c[|b|..];
  }

  /** Every text in the document is the content of the file it is labelled with. */
  predicate Faithful(disk: Disk, doc: Doc)
    decreases doc
  {
    doc.path in disk && disk[doc.path].Regular? && doc.own == disk[doc.path].content && FaithfulParts(disk, doc.parts)
  }

  predicate FaithfulParts(disk: Disk, parts: seq<Doc>)
    decreases parts
  {
    parts != [] ==> FaithfulParts(disk, parts[..|parts| - 1]) && Faithful(disk, parts[|parts| - 1])
  }

  lemma RenderBlank(doc: Doc)
    ensures Blank(Render(doc)) <==> Blank(doc.own) && doc.parts == []
  {
    if doc.parts != [] {
      var last := doc.parts[|doc.parts| - 1];
      var before, section := doc.own + RenderParts(doc.parts[..|doc.parts| - 1]), Section(last.path, Render(last));
      assert Render(doc) == before + ("\n\n" + section);
      assert "---\n\n## Inlined Referenced Instructions: "[0] == '-';
      assert Render(doc)[|before| + 2] == section[0] == '-';
      assert !IsSpace(Render(doc)[|before| + 2]);
    } else {
      assert Render(doc) == doc.own;
    }
  }

  lemma PartsStep(disk: Disk, parts: seq<Doc>, doc: Doc)
    ensures PreorderParts(parts + [doc]) == PreorderParts(parts) + Preorder(doc)
    ensures FaithfulParts(disk, parts + [doc]) <==> FaithfulParts(disk, parts) && Faithful(disk, doc)
    ensures RenderParts(parts + [doc]) == RenderParts(parts) + ("\n\n" + Section(doc.path, Render(doc)))
  {
    AppendShift(parts, doc, []);
  }

  lemma {:induction false} LoadHolds(disk: Disk, limits: Limits, path: Path, depth: int, isEntry: bool, w: Walk)
    ensures var (after, outcome) := Load(disk, limits, path, depth, isEntry, w);
      && (!outcome.Loaded? ==> after.included == w.included)
      && (outcome.Loaded? ==> outcome.doc.path == path && Faithful(disk, outcome.doc))
      && (outcome.Loaded? ==>
        Grew(disk, w.included, after.included,
             if isEntry then PreorderParts(outcome.doc.parts) else Preorder(outcome.doc)))
    decreases Room(limits, depth), 1, 0
  {
    var started := Opened(Tried(w, path), path, isEntry);
    if isEntry { GrewNot(disk, w.included); } else { GrewOne(disk, w.included, path); }
    if Readable(disk, limits, path) && depth < limits.maxDepth {
      FollowHolds(disk, limits, path, disk[path].references, depth, Following(started, path));
      var followed := Follow(disk, limits, path, disk[path].references, depth, Following(started, path));
      GrewTwice(disk, w.included, started.included, followed.0.included,
        if isEntry then [] else [path], PreorderParts(followed.1));
      assert [] + PreorderParts(followed.1) == PreorderParts(followed.1);
    }
  }

  lemma {:induction false} FollowHolds(
      disk: Disk, limits: Limits, from: Path, references: seq<Path>, depth: int, w: Walk)
    requires depth < limits.maxDepth
    ensures var (after, docs) := Follow(disk, limits, from, references, depth, w);
      FaithfulParts(disk, docs) && Grew(disk, w.included, after.included, PreorderParts(docs))
    decreases Room(limits, depth), 0, |references|
  {
    if references == [] {
      GrewNot(disk, w.included);
    } else {
      var n := |references| - 1;
      FollowHolds(disk, limits, from, references[..n], depth, w);
      var before := Follow(disk, limits, from, references[..n], depth, w);
      FollowOneHolds(disk, limits, from, references[n], depth, before.0);
      var last := FollowOne(disk, limits, from, references[n], depth, before.0);
      GrewTwice(disk, w.included, before.0.included, last.0.included, PreorderParts(before.1), PreorderParts(last.1));
      if last.1 == [] {
        assert before.1 + last.1 == before.1;
        assert PreorderParts(before.1) + [] == PreorderParts(before.1);
      } else {
        assert last.1 == [last.1[0]];
        PartsStep(disk, before.1, last.1[0]);
        OnePart(disk, last.1[0]);
      }
    }
  }

  lemma OnePart(disk: Disk, doc: Doc)
    ensures PreorderParts([doc]) == Preorder(doc) && FaithfulParts(disk, [doc]) == Faithful(disk, doc)
  {
    PartsStep(disk, [], doc);
    assert [] + [doc] == [doc] && [] + Preorder(doc) == Preorder(doc);
  }

  lemma {:induction false} FollowOneHolds(disk: Disk, limits: Limits, from: Path, candidate: Path, depth: int, w: Walk)
    requires depth < limits.maxDepth
    ensures var (after, docs) := FollowOne(disk, limits, from, candidate, depth, w);
      && |docs| <= 1 && FaithfulParts(disk, docs) && Grew(disk, w.included, after.included, PreorderParts(docs))
    decreases Room(limits, depth), 0, 0
  {
    LoadHolds(disk, limits, candidate, depth + 1, false, w);
    var (after, outcome) := Load(disk, limits, candidate, depth + 1, false, w);
    GrewNot(disk, w.included);
    if outcome.Loaded? {
      OnePart(disk, outcome.doc);
      RenderBlank(outcome.doc);
      if Blank(Render(outcome.doc)) {
        assert Preorder(outcome.doc) == [candidate];
        ThinnedDrop(disk, after.included[|w.included|..], candidate);
      }
    }
  }

  /** The document's texts are the files' own, nested under the entry, and its parts in reading order are the
      included files in order, short of blank ones. */
  lemma DocumentHoldsIncluded(disk: Disk, limits: Limits, entry: Path)
    ensures var (w, outcome) := Load(disk, limits, entry, 0, true, START);
      outcome.Loaded? ==>
        outcome.doc.path == entry && Faithful(disk, outcome.doc)
          && Thinned(disk, w.included, PreorderParts(outcome.doc.parts))
  {
    LoadHolds(disk, limits, entry, 0, true, START);
    var w := Load(disk, limits, entry, 0, true, START).0;
    assert w.included[0..] == w.included;
  }

  /* ---- the text, file by file ---- */

  function ContentOf(disk: Disk, path: Path): string {
    if path in disk && disk[path].Regular? then disk[path].content else ""
  }

  /** What inlining a file adds to the text: a rule, a heading with its path, and its content. */
  function PartText(disk: Disk, path: Path): string {
    "\n\n" + "---\n\n## Inlined Referenced Instructions: " + path + "\n\n" + ContentOf(disk, path)
  }

  function Inlined(disk: Disk, files: seq<Path>): string {
    if files == [] then "" else Inlined(disk, files[..|files| - 1]) + PartText(disk, files[|files| - 1])
  }

  lemma Regroup(a: string, b: string, c: string)
    ensures a + (b + c) == a + b + c
  {
  }

  lemma {:induction false} InlinedConcat(disk: Disk, a: seq<Path>, b: seq<Path>)
    ensures Inlined(disk, a + b) == Inlined(disk, a) + Inlined(disk, b)
  {
    if b == [] {
      assert a + b == a && Inlined(disk, a) + "" == Inlined(disk, a);
    } else {
      var front, last := b[..|b| - 1], b[|b| - 1];
      assert (a + b)[..|a + b| - 1] == a + front && (a + b)[|a + b| - 1] == last;
      InlinedConcat(disk, a, front);
      Regroup(Inlined(disk, a), Inlined(disk, front), PartText(disk, last));
    }
  }

  lemma InlinedHead(disk: Disk, path: Path, rest: seq<Path>)
    ensures Inlined(disk, [path] + rest) == PartText(disk, path) + Inlined(disk, rest)
  {
    InlinedConcat(disk, [path], rest);
    assert [path][..0] == [] && "" + PartText(disk, path) == PartText(disk, path);
  }

  lemma HeadingRegroups(n: string, h: string, path: string, content: string, rest: string)
    ensures n + (h + path + n + (content + rest)) == (n + h + path + n + content) + rest
  {
  }

  lemma SectionFlat(disk: Disk, path: Path, rest: string)
    ensures "\n\n" + Section(path, ContentOf(disk, path) + rest) == PartText(disk, path) + rest
  {
    HeadingRegroups("\n\n", "---\n\n## Inlined Referenced Instructions: ", path, ContentOf(disk, path), rest);
  }

  lemma {:induction false} RenderFlat(disk: Disk, doc: Doc)
    requires Faithful(disk, doc)
    ensures Render(doc) == ContentOf(disk, doc.path) + Inlined(disk, PreorderParts(doc.parts))
    decreases doc
  {
    PartsFlat(disk, doc.parts);
  }

  lemma {:induction false} PartsFlat(disk: Disk, parts: seq<Doc>)
    requires FaithfulParts(disk, parts)
    ensures RenderParts(parts) == Inlined(disk, PreorderParts(parts))
    decreases parts
  {
    if parts != [] {
      var front, last := parts[..|parts| - 1], parts[|parts| - 1];
      PartsFlat(disk, front);
      RenderFlat(disk, last);
      SectionFlat(disk, last.path, Inlined(disk, PreorderParts(last.parts)));
      InlinedHead(disk, last.path, PreorderParts(last.parts));
      InlinedConcat(disk, PreorderParts(front), Preorder(last));
    }
  }

  /** The text says what the files say: it is the entry's own content followed by a heading and the content of
      every included file in reading order, short of blank ones. */
  ghost predicate Says(disk: Disk, entry: Path, included: seq<Path>, text: string) {
    exists kept :: Thinned(disk, included, kept) && text == ContentOf(disk, entry) + Inlined(disk, kept)
  }

  lemma TextSays(disk: Disk, limits: Limits, entry: Path)
    ensures var (w, outcome) := Load(disk, limits, entry, 0, true, START);
      && (outcome.Loaded? <==> Readable(disk, limits, entry))
      && (outcome.Loaded? ==> Says(disk, entry, w.included, Render(outcome.doc)))
  {
    var outcome := Load(disk, limits, entry, 0, true, START).1;
    DocumentHoldsIncluded(disk, limits, entry);
    if outcome.Loaded? { RenderFlat(disk, outcome.doc); }
  }

  /** Nonblank files are all kept, in order. */
  lemma {:induction false} NonblankKept(disk: Disk, all: seq<Path>, kept: seq<Path>, i: nat) returns (k: nat)
    requires Thinned(disk, all, kept) && i < |all| && !BlankFile(disk, all[i])
    ensures k < |kept| && kept[k] == all[i]
    ensures Thinned(disk, all[..i], kept[..k]) && Thinned(disk, all[i + 1..], kept[k + 1..])
    decreases |all|
  {
    if i == 0 {
      k := 0;
    } else {
      assert all[1..][..i - 1] == all[..i][1..] && all[1..][i..] == all[i + 1..];
      if kept != [] && kept[0] == all[0] && Thinned(disk, all[1..], kept[1..]) {
        var rest := NonblankKept(disk, all[1..], kept[1..], i - 1);
        k := rest + 1;
        assert kept[1..][..rest] == kept[..k][1..] && kept[1..][rest + 1..] == kept[k + 1..];
      } else {
        k := NonblankKept(disk, all[1..], kept, i - 1);
      }
    }
  }

  /** So a nonblank included file stands in the text under its heading, after what came before it and before
      what comes after. */
  lemma IncludedStandsInText(disk: Disk, entry: Path, included: seq<Path>, text: string, i: nat)
    returns (before: seq<Path>, after: seq<Path>)
    requires Says(disk, entry, included, text) && i < |included| && !BlankFile(disk, included[i])
    ensures Thinned(disk, included[..i], before) && Thinned(disk, included[i + 1..], after)
    ensures text == ContentOf(disk, entry)
      + (Inlined(disk, before) + (PartText(disk, included[i]) + Inlined(disk, after)))
  {
    var kept :| Thinned(disk, included, kept) && text == ContentOf(disk, entry) + Inlined(disk, kept);
    var k := NonblankKept(disk, included, kept, i);
    before, after := kept[..k], kept[k + 1..];
    assert kept == before + ([included[i]] + after);
    InlinedConcat(disk, before, [included[i]] + after);
    InlinedHead(disk, included[i], after);
  }

  /* ---- the loader itself ---- */

  function TextOf(outcome: Outcome): Option<string> {
    match outcome
    case Loaded(doc) => Some(Render(doc))
    case Nothing => Some("")
    case Failed => None
  }

  function SectionsOf(docs: seq<Doc>): seq<string> {
    seq(|docs|, i requires 0 <= i < |docs| => Section(docs[i].path, Render(docs[i])))
  }

  /** Joining the sections to the content renders the document. */
  lemma {:induction false} JoinedRenders(path: Path, content: string, docs: seq<Doc>)
    ensures Joined(content, SectionsOf(docs)) == Render(Doc(path, content, docs))
  {
    if docs == [] {
      assert content + RenderParts([]) == content;
    } else {
      var front := docs[..|docs| - 1];
      JoinedRenders(path, content, front);
      assert SectionsOf(docs)[..|docs| - 1] == SectionsOf(front);
    }
  }

  class Loader {
    const disk: Disk
    const limits: Limits
    var seen: set<Path>
    var includedPaths: seq<Path>
    var deferredPaths: seq<Path>
    var warnings: seq<Warning>
    ghost var attempts: seq<Path>
    ghost var followed: seq<Path>

    ghost function State(): Walk
      reads this
    {
      Walk(seen, includedPaths, deferredPaths, warnings, attempts, followed)
    }

    constructor (disk: Disk, limits: Limits)
      ensures this.disk == disk && this.limits == limits && State() == START
    {
      this.disk, this.limits := disk, limits;
      seen, includedPaths, deferredPaths, warnings, attempts, followed := {}, [], [], [], [], [];
    }

    /** The text of a file with its references inlined; None is a rejected promise. */
    method LoadFile(path: Path, depth: int, isEntry: bool) returns (text: Option<string>)
      modifies this
      ensures (State(), text) == (Load(disk, limits, path, depth, isEntry, old(State())).0,
                                  TextOf(Load(disk, limits, path, depth, isEntry, old(State())).1))
      decreases Room(limits, depth), 1, 0
    {
      if path in seen { return Some(""); }
      if !isEntry && |includedPaths| >= limits.maxFiles {
        warnings := warnings + [LimitReached(path)];
        return Some("");
      }
      seen := seen + {path};
      attempts := attempts + [path];
      if !Readable(disk, limits, path) { return None; }
      var content := disk[path].content;
      if !isEntry { includedPaths := includedPaths + [path]; }
      assert State() == Opened(Tried(old(State()), path), path, isEntry);
      if depth >= limits.maxDepth {
        assert content + RenderParts([]) == content;
        return Some(content);
      }
      followed := followed + [path];
      ghost var docs;
      text, docs := InlineAll(path, content, disk[path].references, depth);
    }

    method InlineAll(from: Path, content: string, references: seq<Path>, depth: int)
      returns (text: Option<string>, ghost docs: seq<Doc>)
      requires depth < limits.maxDepth
      modifies this
      ensures (State(), docs) == Follow(disk, limits, from, references, depth, old(State()))
      ensures text == Some(Render(Doc(from, content, docs)))
      decreases Room(limits, depth), 0, |references| + 1
    {
      var inlinedSections := [];
      docs := [];
      for i := 0 to |references|
        invariant (State(), docs) == Follow(disk, limits, from, references[..i], depth, old(State()))
        invariant inlinedSections == SectionsOf(docs)
      {
        PrefixStep(references, i);
        FollowLast(disk, limits, from, references[..i], references[i], depth, old(State()));
        var section;
        ghost var added;
        section, added := Inline(from, references[i], depth);
        SectionsAppend(docs, added);
        if section.Some? { inlinedSections := inlinedSections + [section.value]; }
        docs := docs + added;
      }
      assert references[..|references|] == references;
      JoinedRenders(from, content, docs);
      text := Some(Joined(content, inlinedSections));
    }

    method Inline(from: Path, candidate: Path, depth: int) returns (section: Option<string>, ghost docs: seq<Doc>)
      requires depth < limits.maxDepth
      modifies this
      ensures (State(), docs) == FollowOne(disk, limits, from, candidate, depth, old(State()))
      ensures SectionsOf(docs) == if section.Some? then [section.value] else []
      decreases Room(limits, depth), 0, 0
    {
      section, docs := None, [];
      if candidate == from || candidate in seen { return; }
      if TooBig(disk, limits, candidate) {
        deferredPaths := deferredPaths + [candidate];
        warnings := warnings + [LeftAsPath(candidate)];
        return;
      }
      ghost var outcome := Load(disk, limits, candidate, depth + 1, false, State()).1;
      var nested := LoadFile(candidate, depth + 1, false);
      if nested.None? {
        warnings := warnings + [Skipped(candidate)];
      } else if !Blank(nested.value) {
        section, docs := Some(Section(candidate, nested.value)), [outcome.doc];
      }
    }
  }

  lemma SectionsAppend(docs: seq<Doc>, added: seq<Doc>)
    ensures SectionsOf(docs + added) == SectionsOf(docs) + SectionsOf(added)
  {
  }

  /** The whole call, with what holds of its result for every disk and every limit. */
  method LoadInstructions(disk: Disk, limits: Limits, entry: Path) returns (text: Option<string>, loader: Loader)
    ensures fresh(loader) && text.None? == !Readable(disk, limits, entry)
    ensures Sound(disk, limits, entry, loader.State())
    ensures text.Some? ==> Says(disk, entry, loader.includedPaths, text.value)
    ensures text == TextOf(Load(disk, limits, entry, 0, true, START).1)
    ensures loader.State() == Load(disk, limits, entry, 0, true, START).0
  {
    loader := new Loader(disk, limits);
    text := loader.LoadFile(entry, 0, true);
    WalkSound(disk, limits, entry);
    TextSays(disk, limits, entry);
  }
}
