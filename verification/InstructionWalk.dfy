/** How far the loader's walk gets: what it follows it follows to the end, and what it leaves out it leaves out
    for a reason. */
module InstructionWalk {
  import opened Instructions

  /** A regular file within the byte limit. */
  ghost predicate Within(disk: Disk, path: Path, bytes: int) {
    path in disk && disk[path].Regular? && disk[path].size <= bytes
  }

  ghost predicate Beyond(disk: Disk, path: Path, bytes: int) {
    path in disk && disk[path].Regular? && disk[path].size > bytes
  }

  /** A reference was tried, or left as a path because its file is large, or came after the last file allowed. */
  ghost predicate Handled(disk: Disk, limits: Limits, w: Walk, r: Path) {
    || r in w.seen
    || (Beyond(disk, r, limits.inlineMax) && r in w.deferred && LeftAsPath(r) in w.warnings)
    || (|w.included| >= limits.maxFiles && LimitReached(r) in w.warnings)
  }

  ghost predicate ReferencesHandled(disk: Disk, limits: Limits, w: Walk, p: Path) {
    p in disk && disk[p].Regular? && forall r :: r in disk[p].references ==> Handled(disk, limits, w, r)
  }

  /** A file tried on account of a reference was inlined, or could not be read. */
  ghost predicate Accounted(disk: Disk, limits: Limits, w: Walk, p: Path) {
    p in w.included || (!Within(disk, p, limits.maxBytes) && Skipped(p) in w.warnings)
  }

  /** A file's references were followed, or it is as deep as the walk goes. */
  ghost predicate Deepened(disk: Disk, limits: Limits, entry: Path, w: Walk, p: Path) {
    p in w.followed || (limits.maxDepth >= 0 && Chain(disk, entry, p, limits.maxDepth))
  }

  ghost predicate Complete(disk: Disk, limits: Limits, entry: Path, w: Walk) {
    && entry in w.seen
    && (Within(disk, entry, limits.maxBytes) && limits.maxDepth > 0 ==> entry in w.followed)
    && (forall p :: p in w.seen && p != entry ==> Accounted(disk, limits, w, p))
    && (forall p :: p in w.included ==> Deepened(disk, limits, entry, w, p))
    && (forall p :: p in w.followed ==> ReferencesHandled(disk, limits, w, p))
  }

  /* ---- one step of the walk ---- */

  ghost predicate Grown(w: Walk, after: Walk) {
    && w.seen <= after.seen && w.included <= after.included && w.deferred <= after.deferred
    && w.warnings <= after.warnings && w.followed <= after.followed
  }

  /** What the walk has taken on since `w` is settled, but for the files in `open`. */
  ghost predicate Settled(disk: Disk, limits: Limits, entry: Path, w: Walk, after: Walk, open: set<Path>) {
    && Grown(w, after)
    && (forall p :: p in after.seen && p !in w.seen && p !in open ==> Accounted(disk, limits, after, p))
    && (forall p :: p in after.included && p !in w.included ==> Deepened(disk, limits, entry, after, p))
    && (forall p :: p in after.followed && p !in w.followed ==> ReferencesHandled(disk, limits, after, p))
  }

  lemma HandledStays(disk: Disk, limits: Limits, w: Walk, after: Walk, r: Path)
    requires Grown(w, after) && Handled(disk, limits, w, r)
    ensures Handled(disk, limits, after, r)
  {
  }

  lemma ReferencesStay(disk: Disk, limits: Limits, w: Walk, after: Walk, p: Path)
    requires Grown(w, after) && ReferencesHandled(disk, limits, w, p)
    ensures ReferencesHandled(disk, limits, after, p)
  {
    forall r | r in disk[p].references ensures Handled(disk, limits, after, r) {
      HandledStays(disk, limits, w, after, r);
    }
  }

  lemma SettledTwice(disk: Disk, limits: Limits, entry: Path, w: Walk, middle: Walk, after: Walk)
    requires Settled(disk, limits, entry, w, middle, {}) && Settled(disk, limits, entry, middle, after, {})
    ensures Settled(disk, limits, entry, w, after, {})
  {
    forall p | p in after.followed && p !in w.followed ensures ReferencesHandled(disk, limits, after, p) {
      if p in middle.followed { ReferencesStay(disk, limits, middle, after, p); }
    }
    assert forall p :: p in middle.seen && p !in w.seen ==> Accounted(disk, limits, middle, p);
    assert forall p :: p in middle.included && p !in w.included ==> Deepened(disk, limits, entry, middle, p);
  }

  lemma {:induction false} LoadSettles(disk: Disk, limits: Limits, entry: Path, path: Path, depth: nat, w: Walk)
    requires depth <= limits.maxDepth && Chain(disk, entry, path, depth)
    ensures var (after, outcome) := Load(disk, limits, path, depth, false, w);
      && Settled(disk, limits, entry, w, after, if outcome.Failed? then {path} else {})
      && (outcome.Failed? ==> !Within(disk, path, limits.maxBytes))
      && Handled(disk, limits, after, path)
    decreases Room(limits, depth), 1, 0
  {
    if path !in w.seen && |w.included| < limits.maxFiles && Readable(disk, limits, path) {
      var started := Opened(Tried(w, path), path, false);
      if depth < limits.maxDepth {
        var following := Following(started, path);
        FollowSettles(disk, limits, entry, path, disk[path].references, depth, following);
        OpenedSettles(disk, limits, entry, path, w,
          Follow(disk, limits, path, disk[path].references, depth, following).0);
      }
    }
  }

  /** The file itself settles once its references have been gone through. */
  lemma OpenedSettles(disk: Disk, limits: Limits, entry: Path, path: Path, w: Walk, after: Walk)
    requires Settled(disk, limits, entry, Following(Opened(Tried(w, path), path, false), path), after, {})
    requires ReferencesHandled(disk, limits, after, path)
    ensures Settled(disk, limits, entry, w, after, {}) && path in after.seen
  {
    var following := Following(Opened(Tried(w, path), path, false), path);
    assert following.included == w.included + [path] && following.followed == w.followed + [path];
    assert path in following.included && path in following.followed;
    assert path in after.included && path in after.followed;
  }

  lemma {:induction false} FollowSettles(disk: Disk, limits: Limits, entry: Path, from: Path, references: seq<Path>,
                                         depth: nat, w: Walk)
    requires depth < limits.maxDepth && Chain(disk, entry, from, depth) && from in w.seen
    requires forall r :: r in references ==> Refers(disk, from, r)
    ensures var after := Follow(disk, limits, from, references, depth, w).0;
      && Settled(disk, limits, entry, w, after, {})
      && forall r :: r in references ==> Handled(disk, limits, after, r)
    decreases Room(limits, depth), 0, |references|
  {
    if references != [] {
      var n := |references| - 1;
      FollowSettles(disk, limits, entry, from, references[..n], depth, w);
      var before := Follow(disk, limits, from, references[..n], depth, w).0;
      FollowOneSettles(disk, limits, entry, from, references[n], depth, before);
      var after := FollowOne(disk, limits, from, references[n], depth, before).0;
      SettledTwice(disk, limits, entry, w, before, after);
      forall r | r in references ensures Handled(disk, limits, after, r) {
        if r in references[..n] { HandledStays(disk, limits, before, after, r); }
      }
    }
  }

  lemma {:induction false} FollowOneSettles(disk: Disk, limits: Limits, entry: Path, from: Path, candidate: Path,
                                            depth: nat, w: Walk)
    requires depth < limits.maxDepth && Chain(disk, entry, from, depth) && from in w.seen
    requires Refers(disk, from, candidate)
    ensures var after := FollowOne(disk, limits, from, candidate, depth, w).0;
      Settled(disk, limits, entry, w, after, {}) && Handled(disk, limits, after, candidate)
    decreases Room(limits, depth), 0, 0
  {
    if candidate != from && candidate !in w.seen && !TooBig(disk, limits, candidate) {
      assert Chain(disk, entry, candidate, depth + 1);
      LoadSettles(disk, limits, entry, candidate, depth + 1, w);
      var (after, outcome) := Load(disk, limits, candidate, depth + 1, false, w);
      if outcome.Failed? { SkippedSettles(disk, limits, entry, candidate, w, after); }
    }
  }

  lemma SkippedSettles(disk: Disk, limits: Limits, entry: Path, path: Path, w: Walk, after: Walk)
    requires Settled(disk, limits, entry, w, after, {path}) && !Within(disk, path, limits.maxBytes)
    ensures Settled(disk, limits, entry, w, Warned(after, Skipped(path)), {})
  {
    var warned := Warned(after, Skipped(path));
    assert Grown(after, warned) && warned.warnings[|after.warnings|] == Skipped(path);
    forall p | p in warned.followed && p !in w.followed ensures ReferencesHandled(disk, limits, warned, p) {
      ReferencesStay(disk, limits, after, warned, p);
    }
  }

  /** Whatever the reference graph, the walk from the entry leaves nothing out without a reason: every reference
      of a followed file is tried, unless its file is large or the file limit is reached; every file tried is
      inlined, unless it cannot be read; and every inlined file is followed, unless it is at the depth limit. */
  lemma WalkCompletes(disk: Disk, limits: Limits, entry: Path)
    ensures Complete(disk, limits, entry, Load(disk, limits, entry, 0, true, START).0)
  {
    if Readable(disk, limits, entry) && limits.maxDepth > 0 {
      var following := Following(Tried(START, entry), entry);
      assert Chain(disk, entry, entry, 0);
      FollowSettles(disk, limits, entry, entry, disk[entry].references, 0, following);
      assert Follow(disk, limits, entry, disk[entry].references, 0, following).0.followed[0] == entry;
    }
  }

  /** The limits, file by file: what is inlined fits both, and what is left as a path does not fit the second. */
  lemma LimitsHold(disk: Disk, limits: Limits, entry: Path)
    ensures var (w, outcome) := Load(disk, limits, entry, 0, true, START);
      && (outcome.Failed? <==> !Within(disk, entry, limits.maxBytes))
      && (forall p :: p in w.included ==> Within(disk, p, limits.maxBytes) && Within(disk, p, limits.inlineMax))
      && (forall p :: p in w.deferred ==> Beyond(disk, p, limits.inlineMax))
  {
    WalkSound(disk, limits, entry);
  }
}
