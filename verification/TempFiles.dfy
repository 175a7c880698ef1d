/** `removeOldTempFiles`: old files are unlinked and directories that have become empty are
    removed, recursively and in place. */
module TempFiles {

  type Path = seq<string>

  datatype Node = File(mtimeMs: int) | Directory | Other

  type Tree = map<Path, Node>

  const THIRTY_DAYS: int := 30 * 24 * 60 * 60 * 1000

  predicate IsOld(node: Node, now: int) {
    node.File? && node.mtimeMs < now - THIRTY_DAYS
  }

  /** Everything lies in a directory; paths of one name are at the top. */
  ghost predicate WellFormed(t: Tree) {
    forall p :: p in t ==> p != [] && (|p| > 1 ==> p[..|p| - 1] in t && t[p[..|p| - 1]].Directory?)
  }

  /** What is never removed: the root of the temporary files, young files, and whatever is
      neither a file nor a directory. */
  predicate Stays(t: Tree, root: Path, now: int, p: Path)
    requires p in t
  {
    if t[p].Directory? then p == root else !IsOld(t[p], now)
  }

  /** An entry is kept if it, or something in it at any depth, stays. */
  ghost predicate Keeps(t: Tree, root: Path, now: int, p: Path) {
    exists r :: r in t && p <= r && Stays(t, root, now, r)
  }

  /** The tree after a run on `path`. */
  ghost function Pruned(t: Tree, root: Path, now: int, path: Path): Tree {
    map p | p in t && (path <= p ==> Keeps(t, root, now, p)) :: t[p]
  }

  lemma {:induction false} PrefixExists(t: Tree, p: Path, n: nat)
    requires WellFormed(t) && p in t && 1 <= n <= |p|
    ensures p[..n] in t && (n < |p| ==> t[p[..n]].Directory?)
    decreases |p| - n
  {
    if n == |p| {
      assert p[..n] == p;
    } else {
      PrefixExists(t, p, n + 1);
      assert p[..n + 1][..n] == p[..n];
    }
  }

  lemma NothingBelowALeaf(t: Tree, p: Path, q: Path)
    requires WellFormed(t) && p in t && q in t && p <= q && !t[p].Directory?
    ensures p == q
  {
    assert q[..|p|] == p;
    if |p| < |q| {
      PrefixExists(t, q, |p|);
    }
  }

  /** Of the files exactly those changed within the last thirty days remain; a directory remains
      exactly if something in it does, or if it is the root. */
  lemma PrunedMeaning(t: Tree, root: Path, now: int, path: Path, p: Path)
    requires WellFormed(t) && p in t && path <= p
    ensures t[p].File? ==> (p in Pruned(t, root, now, path) <==> t[p].mtimeMs + 2592000000 >= now)
    ensures t[p].Other? ==> p in Pruned(t, root, now, path)
    ensures t[p].Directory? ==>
      (p in Pruned(t, root, now, path) <==>
       p == root || exists q :: q in Pruned(t, root, now, path) && p <= q && p != q)
  {
    var after := Pruned(t, root, now, path);
    if t[p].Directory? {
      if Keeps(t, root, now, p) {
        var r :| r in t && p <= r && Stays(t, root, now, r);
        assert Keeps(t, root, now, r) && r in after;
      }
      if q :| q in after && p <= q && p != q {
        assert Keeps(t, root, now, q);
        var r :| r in t && q <= r && Stays(t, root, now, r);
        assert Keeps(t, root, now, p);
      }
      if p == root {
        assert Stays(t, root, now, p) && p <= p;
      }
    } else {
      if Keeps(t, root, now, p) {
        var r :| r in t && p <= r && Stays(t, root, now, r);
        NothingBelowALeaf(t, p, r);
      }
      if Stays(t, root, now, p) {
        assert p <= p;
      }
    }
  }

  /** What is outside of `path` is not touched, and nothing that remains is changed. */
  lemma OutsideUntouched(t: Tree, root: Path, now: int, path: Path, p: Path)
    ensures p in Pruned(t, root, now, path) ==> p in t && Pruned(t, root, now, path)[p] == t[p]
    ensures !(path <= p) ==> (p in t <==> p in Pruned(t, root, now, path))
  {
  }

  lemma PrunedIsWellFormed(t: Tree, root: Path, now: int, path: Path)
    requires WellFormed(t)
    ensures WellFormed(Pruned(t, root, now, path))
  {
    var after := Pruned(t, root, now, path);
    forall p | p in after && |p| > 1 ensures p[..|p| - 1] in after {
      var parent := p[..|p| - 1];
      if path <= parent {
        assert path <= p && Keeps(t, root, now, p);
        var r :| r in t && p <= r && Stays(t, root, now, r);
        assert parent <= r;
      }
    }
  }

  /** A second run removes nothing more. */
  lemma PruneIsIdempotent(t: Tree, root: Path, now: int, path: Path)
    ensures Pruned(Pruned(t, root, now, path), root, now, path) == Pruned(t, root, now, path)
  {
    var after := Pruned(t, root, now, path);
    forall p | p in after && path <= p ensures Keeps(after, root, now, p) {
      var r :| r in t && p <= r && Stays(t, root, now, r);
      assert Keeps(t, root, now, r) && r in after;
    }
  }

  /** The children of `path` that have been dealt with. */
  ghost predicate BelowOneOf(done: set<Path>, p: Path) {
    exists c :: c in done && c <= p
  }

  /** The tree when the children in `done` have been pruned. */
  ghost function PartlyPruned(t: Tree, root: Path, now: int, done: set<Path>): Tree {
    map p | p in t && (BelowOneOf(done, p) ==> Keeps(t, root, now, p)) :: t[p]
  }

  lemma SamePrefix(a: Path, b: Path, p: Path)
    requires a <= p && b <= p && |a| == |b|
    ensures a == b
  {
    assert a == p[..|a|] && b == p[..|b|];
  }

  /** Pruning one more child: the other children's subtrees do not matter to it. */
  lemma PruneOneMore(t: Tree, root: Path, now: int, done: set<Path>, c: Path)
    requires c !in done && forall d :: d in done ==> |d| == |c|
    ensures c in t ==> c in PartlyPruned(t, root, now, done)
    ensures Pruned(PartlyPruned(t, root, now, done), root, now, c) == PartlyPruned(t, root, now, done + {c})
  {
    var part := PartlyPruned(t, root, now, done);
    forall p | p in t && c <= p ensures !BelowOneOf(done, p) && p in part {
      forall d | d in done ensures !(d <= p) {
        if d <= p {
          SamePrefix(c, d, p);
        }
      }
    }
    forall p | p in t && c <= p ensures Keeps(part, root, now, p) <==> Keeps(t, root, now, p) {
      if Keeps(t, root, now, p) {
        var r :| r in t && p <= r && Stays(t, root, now, r);
        assert c <= r && r in part;
      }
    }
    forall p | p in t ensures BelowOneOf(done + {c}, p) <==> BelowOneOf(done, p) || c <= p {
    }
  }

  ghost predicate IsChild(path: Path, p: Path) {
    |p| == |path| + 1 && path <= p
  }

  ghost function Children(t: Tree, path: Path): set<Path> {
    set p | p in t && IsChild(path, p)
  }

  lemma ChildOnTheWay(t: Tree, path: Path, p: Path) returns (c: Path)
    requires WellFormed(t) && p in t && path <= p && p != path
    ensures c in Children(t, path) && c <= p
  {
    c := p[..|path| + 1];
    PrefixExists(t, p, |path| + 1);
  }

  lemma BelowChildren(t: Tree, path: Path, p: Path)
    requires WellFormed(t) && p in t
    ensures BelowOneOf(Children(t, path), p) <==> path <= p && p != path
  {
    if path <= p && p != path {
      var c := ChildOnTheWay(t, path, p);
    }
  }

  /** A directory is kept exactly if one of its children is. */
  lemma KeptByAChild(t: Tree, root: Path, now: int, path: Path)
    requires WellFormed(t) && path in t && t[path].Directory? && path != root
    ensures Keeps(t, root, now, path) <==> exists c :: c in Children(t, path) && Keeps(t, root, now, c)
  {
    if Keeps(t, root, now, path) {
      var r :| r in t && path <= r && Stays(t, root, now, r);
      var c := ChildOnTheWay(t, path, r);
      assert Keeps(t, root, now, c);
    }
    if c :| c in Children(t, path) && Keeps(t, root, now, c) {
      var r :| r in t && c <= r && Stays(t, root, now, r);
      assert path <= r;
    }
  }

  lemma ChildrenLeft(t: Tree, root: Path, now: int, path: Path, c: Path)
    requires WellFormed(t)
    ensures c in Children(PartlyPruned(t, root, now, Children(t, path)), path) <==>
      c in Children(t, path) && Keeps(t, root, now, c)
  {
    if c in Children(t, path) {
      BelowChildren(t, path, c);
    }
  }

  lemma DirectoryStays(t: Tree, root: Path, now: int, path: Path)
    requires WellFormed(t) && path in t && t[path].Directory?
    ensures Keeps(t, root, now, path) <==>
      path == root || Children(PartlyPruned(t, root, now, Children(t, path)), path) != {}
  {
    var left := Children(PartlyPruned(t, root, now, Children(t, path)), path);
    if path == root {
      assert Stays(t, root, now, path) && path <= path;
    } else {
      KeptByAChild(t, root, now, path);
      if c :| c in Children(t, path) && Keeps(t, root, now, c) {
        ChildrenLeft(t, root, now, path, c);
      }
      if c :| c in left {
        ChildrenLeft(t, root, now, path, c);
      }
    }
  }

  /** From the pruned children to the pruned directory: its own entry goes exactly if no
      child is left and it is not the root. */
  lemma FinishDirectory(t: Tree, root: Path, now: int, path: Path)
    requires WellFormed(t) && path in t && t[path].Directory?
    ensures var part := PartlyPruned(t, root, now, Children(t, path));
      Pruned(t, root, now, path) == if path != root && Children(part, path) == {} then part - {path} else part
  {
    var part, after := PartlyPruned(t, root, now, Children(t, path)), Pruned(t, root, now, path);
    DirectoryStays(t, root, now, path);
    forall p | p in t ensures p in part <==> p == path || p in after {
      EntryAfterChildren(t, root, now, path, p);
    }
    PathAfter(t, root, now, path);
    var result := if path != root && Children(part, path) == {} then part - {path} else part;
    assert result.Keys == after.Keys;
  }

  lemma EntryAfterChildren(t: Tree, root: Path, now: int, path: Path, p: Path)
    requires WellFormed(t) && p in t
    ensures p in PartlyPruned(t, root, now, Children(t, path)) <==> p == path || p in Pruned(t, root, now, path)
  {
    BelowChildren(t, path, p);
  }

  lemma PathAfter(t: Tree, root: Path, now: int, path: Path)
    requires path in t
    ensures path in Pruned(t, root, now, path) <==> Keeps(t, root, now, path)
  {
  }

  lemma PruneLeaf(t: Tree, root: Path, now: int, path: Path)
    requires WellFormed(t) && path in t && !t[path].Directory?
    ensures Pruned(t, root, now, path) == if IsOld(t[path], now) then t - {path} else t
  {
    forall p | p in t && path <= p ensures p == path {
      NothingBelowALeaf(t, path, p);
    }
    PrunedMeaning(t, root, now, path, path);
  }

  /** ---- the calls side by side ---- */

  /** The calls for the entries of a directory run under one `Promise.all`.  This is where one of
      them stands; the call for a directory waits for those of the entries it has read. */
  datatype Pc =
    | Statting
    | Unlinking
    | Reading
    | Waiting(entries: set<Path>)
    | Listing
    | Removing
    | Ended

  datatype Run = Run(tree: Tree, calls: map<Path, Pc>) {
    predicate AllEnded(paths: set<Path>) {
      forall p :: p in paths ==> p in calls && calls[p].Ended?
    }
  }

  ghost predicate Enabled(r: Run, p: Path) {
    p in r.calls && (r.calls[p].Waiting? ==> r.AllEnded(r.calls[p].entries))
  }

  /** The call for `p` goes on to its next `await`; a missing entry ends it. */
  ghost function Step(r: Run, root: Path, now: int, p: Path): Run
    requires Enabled(r, p)
  {
    match r.calls[p]
    case Statting =>
      r.(calls := r.calls[p :=
        if p !in r.tree then Ended
        else if r.tree[p].Directory? then Reading
        else if IsOld(r.tree[p], now) then Unlinking
        else Ended])
    case Unlinking => Run(r.tree - {p}, r.calls[p := Ended])
    case Reading =>
      var entries := Children(r.tree, p);
      r.(calls := (r.calls + map c | c in entries :: Statting)[p := Waiting(entries)])
    case Waiting(_) => r.(calls := r.calls[p := if p == root then Ended else Listing])
    case Listing => r.(calls := r.calls[p := if Children(r.tree, p) == {} then Removing else Ended])
    case Removing => Run(map q | q in r.tree && !(p <= q) :: r.tree[q], r.calls[p := Ended])
    case Ended => r
  }

  ghost predicate Runs(r: Run, root: Path, now: int, order: seq<Path>, f: Run)
    decreases |order|
  {
    if order == [] then f == r else Enabled(r, order[0]) && Runs(Step(r, root, now, order[0]), root, now, order[1..], f)
  }

  /** An entry of the first tree is there until its call has ended, and then if it is kept. */
  ghost predicate IsThere(t: Tree, root: Path, now: int, r: Run, p: Path)
    requires p in t
  {
    p in r.tree <==> !(p in r.calls && r.calls[p].Ended? && !Keeps(t, root, now, p))
  }

  ghost predicate CallOk(t: Tree, root: Path, now: int, r: Run, p: Path)
    requires p in t && p in r.calls
  {
    match r.calls[p]
    case Statting => NoCallsBelow(r, p)
    case Unlinking => t[p].File? && IsOld(t[p], now)
    case Reading => t[p].Directory? && NoCallsBelow(r, p)
    case Waiting(entries) => t[p].Directory? && entries == Children(t, p) && entries <= r.calls.Keys
    case Listing => t[p].Directory? && p != root && r.AllEnded(Children(t, p))
    case Removing => t[p].Directory? && p != root && r.AllEnded(Children(t, p)) && !Keeps(t, root, now, p)
    case Ended => t[p].Directory? ==> r.AllEnded(Children(t, p))
  }

  ghost predicate NoCallsBelow(r: Run, p: Path) {
    forall q :: q in r.calls ==> !IsChild(p, q)
  }

  ghost predicate RunInv(t: Tree, root: Path, now: int, path: Path, r: Run) {
    && WellFormed(t) && WellFormed(r.tree) && path in r.calls
    && (forall p :: p in r.tree ==> p in t && r.tree[p] == t[p])
    && (forall p :: p in t ==> IsThere(t, root, now, r, p))
    && (forall p :: p in r.calls ==> p in t && path <= p && CallOk(t, root, now, r, p))
    && (forall p :: p in r.calls && p != path ==> p[..|p| - 1] in r.calls)
  }

  /** A leaf is kept if it stays. */
  lemma KeptLeaf(t: Tree, root: Path, now: int, p: Path)
    requires WellFormed(t) && p in t && !t[p].Directory?
    ensures Keeps(t, root, now, p) <==> Stays(t, root, now, p)
    ensures Children(t, p) == {}
  {
    if Keeps(t, root, now, p) {
      var r :| r in t && p <= r && Stays(t, root, now, r);
      NothingBelowALeaf(t, p, r);
    }
    forall c ensures c !in Children(t, p) {
      if c in Children(t, p) {
        NothingBelowALeaf(t, p, c);
      }
    }
    assert p <= p;
  }

  /** With all calls below ended, the entries left in a directory are those that are kept. */
  lemma EntriesLeft(t: Tree, root: Path, now: int, path: Path, r: Run, p: Path)
    requires RunInv(t, root, now, path, r) && p in t && t[p].Directory? && p != root && r.AllEnded(Children(t, p))
    ensures Children(r.tree, p) != {} <==> Keeps(t, root, now, p)
  {
    KeptByAChild(t, root, now, p);
    forall c ensures c in Children(r.tree, p) <==> c in Children(t, p) && Keeps(t, root, now, c) {
      if c in Children(t, p) {
        assert IsThere(t, root, now, r, c);
      }
    }
  }

  lemma NothingLeftBelow(t: Tree, p: Path, q: Path)
    requires WellFormed(t) && p in t && q in t && p <= q && Children(t, p) == {}
    ensures q == p
  {
    if q != p {
      var c := ChildOnTheWay(t, p, q);
      assert false;
    }
  }

  lemma RemovalKeepsWellFormed(t: Tree, p: Path)
    requires WellFormed(t) && Children(t, p) == {}
    ensures WellFormed(t - {p})
  {
    assert forall q :: q in t && |q| > 1 && q[..|q| - 1] == p ==> IsChild(p, q);
    assert forall q :: q in t ==> !IsChild(p, q) by {
      assert forall q :: q in t && IsChild(p, q) ==> q in Children(t, p);
    }
  }

  lemma UnlinkingTree(t: Tree, root: Path, now: int, path: Path, r: Run, p: Path)
    requires RunInv(t, root, now, path, r) && p in r.calls && r.calls[p].Unlinking?
    ensures WellFormed(r.tree - {p})
  {
    assert CallOk(t, root, now, r, p);
    KeptLeaf(t, root, now, p);
    assert Children(r.tree, p) <= Children(t, p);
    RemovalKeepsWellFormed(r.tree, p);
  }

  lemma RemovingTree(t: Tree, root: Path, now: int, path: Path, r: Run, p: Path)
    requires RunInv(t, root, now, path, r) && p in r.calls && r.calls[p].Removing?
    ensures WellFormed(r.tree - {p}) && forall q :: q in r.tree && p <= q ==> q == p
  {
    hide WellFormed, Keeps, Children;
    assert CallOk(t, root, now, r, p);
    EntriesLeft(t, root, now, path, r, p);
    assert IsThere(t, root, now, r, p);
    RemovalKeepsWellFormed(r.tree, p);
    forall q | q in r.tree && p <= q ensures q == p {
      NothingLeftBelow(r.tree, p, q);
    }
  }

  /** The tree changes by the entry of the call at most. */
  lemma StepTree(t: Tree, root: Path, now: int, path: Path, r: Run, p: Path)
    requires RunInv(t, root, now, path, r) && Enabled(r, p)
    ensures var f := Step(r, root, now, p);
      && WellFormed(f.tree)
      && f.tree == if r.calls[p].Unlinking? || r.calls[p].Removing? then r.tree - {p} else r.tree
  {
    hide WellFormed, IsThere, CallOk, Keeps, Children, IsOld;
    if r.calls[p].Unlinking? {
      UnlinkingTree(t, root, now, path, r, p);
    } else if r.calls[p].Removing? {
      RemovingTree(t, root, now, path, r, p);
      assert Step(r, root, now, p).tree == r.tree - {p};
    }
  }

  /** The calls change by the one that moves, and by those it begins. */
  lemma StepCalls(t: Tree, root: Path, now: int, path: Path, r: Run, p: Path)
    requires RunInv(t, root, now, path, r) && Enabled(r, p)
    ensures var f := Step(r, root, now, p);
      && f.calls.Keys == r.calls.Keys + (if r.calls[p].Reading? then Children(t, p) else {})
      && (forall q :: q in f.calls && q != path ==> q[..|q| - 1] in f.calls)
      && (forall q :: q in f.calls ==> q in t && path <= q)
  {
    hide WellFormed, IsThere, CallOk, Keeps, IsOld;
    if r.calls[p].Reading? {
      ReadingBegins(t, root, now, path, r, p);
    }
  }

  lemma StepIsThere(t: Tree, root: Path, now: int, path: Path, r: Run, p: Path, q: Path)
    requires RunInv(t, root, now, path, r) && Enabled(r, p) && q in t
    ensures IsThere(t, root, now, Step(r, root, now, p), q)
  {
    StepTree(t, root, now, path, r, p);
    assert IsThere(t, root, now, r, q) && IsThere(t, root, now, r, p) && CallOk(t, root, now, r, p);
    if q == p {
      if !t[p].Directory? {
        KeptLeaf(t, root, now, p);
      } else if r.calls[p].Listing? {
        EntriesLeft(t, root, now, path, r, p);
      } else if r.calls[p].Waiting? && p == root {
        assert Stays(t, root, now, p) && p <= p;
      }
    } else if r.calls[p].Reading? && q in Children(r.tree, p) {
      assert q !in r.calls;
    }
  }

  lemma ChildsParent(c: Path, q: Path)
    ensures IsChild(c, q) ==> q[..|q| - 1] == c
  {
  }

  lemma ReadingBegins(t: Tree, root: Path, now: int, path: Path, r: Run, p: Path)
    requires RunInv(t, root, now, path, r) && p in r.calls && r.calls[p].Reading?
    ensures Children(r.tree, p) == Children(t, p)
    ensures forall c :: c in Children(t, p) ==> c !in r.calls && NoCallsBelow(r, c) && path <= c && c[..|c| - 1] == p
  {
    assert CallOk(t, root, now, r, p);
    forall c | c in Children(t, p) ensures c in r.tree && c !in r.calls && NoCallsBelow(r, c) && path <= c && c[..|c| - 1] == p {
      assert IsThere(t, root, now, r, c);
      forall q | q in r.calls ensures !IsChild(c, q) {
        ChildsParent(c, q);
      }
    }
  }

  lemma StepCallOk(t: Tree, root: Path, now: int, path: Path, r: Run, p: Path, q: Path)
    requires RunInv(t, root, now, path, r) && Enabled(r, p) && q in t && q in Step(r, root, now, p).calls
    ensures CallOk(t, root, now, Step(r, root, now, p), q)
  {
    if r.calls[p].Reading? {
      ReadingBegins(t, root, now, path, r, p);
      StepReading(t, root, now, path, r, p, q);
    } else if q == p {
      StepOwnCall(t, root, now, path, r, p);
    } else {
      StepOtherCall(t, root, now, path, r, p, q);
    }
  }

  lemma StepOwnCall(t: Tree, root: Path, now: int, path: Path, r: Run, p: Path)
    requires RunInv(t, root, now, path, r) && Enabled(r, p) && !r.calls[p].Reading?
    ensures CallOk(t, root, now, Step(r, root, now, p), p)
  {
    hide WellFormed;
    assert CallOk(t, root, now, r, p);
    assert IsThere(t, root, now, r, p);
    assert Step(r, root, now, p).calls.Keys == r.calls.Keys;
    if !t[p].Directory? {
      KeptLeaf(t, root, now, p);
    } else if r.calls[p].Listing? {
      EntriesLeft(t, root, now, path, r, p);
    }
  }

  lemma StepOtherCall(t: Tree, root: Path, now: int, path: Path, r: Run, p: Path, q: Path)
    requires RunInv(t, root, now, path, r) && Enabled(r, p) && !r.calls[p].Reading? && q != p && q in r.calls
    ensures q in t && CallOk(t, root, now, Step(r, root, now, p), q)
  {
    hide WellFormed, Step, CallOk;
    StepLeavesOthers(r, root, now, p);
    OtherCallOk(t, root, now, r, Step(r, root, now, p), q);
  }

  lemma StepLeavesOthers(r: Run, root: Path, now: int, p: Path)
    requires Enabled(r, p) && !r.calls[p].Reading?
    ensures var f := Step(r, root, now, p);
      && f.calls.Keys == r.calls.Keys
      && (forall q :: q in r.calls && q != p ==> f.calls[q] == r.calls[q])
      && (forall q :: q in r.calls && r.calls[q].Ended? ==> f.calls[q].Ended?)
  {
    hide Children, IsOld;
  }

  lemma OtherCallOk(t: Tree, root: Path, now: int, r: Run, f: Run, q: Path)
    requires q in t && q in r.calls && CallOk(t, root, now, r, q)
    requires f.calls.Keys == r.calls.Keys && f.calls[q] == r.calls[q]
    requires forall x :: x in r.calls && r.calls[x].Ended? ==> f.calls[x].Ended?
    ensures CallOk(t, root, now, f, q)
  {
    hide Children, IsOld, Keeps, IsChild;
  }

  lemma StepReading(t: Tree, root: Path, now: int, path: Path, r: Run, p: Path, q: Path)
    requires RunInv(t, root, now, path, r) && p in r.calls && r.calls[p].Reading? && q in t && q in Step(r, root, now, p).calls
    requires Children(r.tree, p) == Children(t, p)
    requires forall c :: c in Children(t, p) ==> c !in r.calls && NoCallsBelow(r, c)
    ensures CallOk(t, root, now, Step(r, root, now, p), q)
  {
    var f := Step(r, root, now, p);
    assert CallOk(t, root, now, r, p);
    assert f.calls.Keys == r.calls.Keys + Children(t, p);
    if q in Children(t, p) {
      assert f.calls[q] == Statting;
      forall x | x in f.calls ensures !IsChild(q, x) {
        assert x in Children(t, p) ==> |x| == |q|;
      }
    } else if q != p {
      assert CallOk(t, root, now, r, q) && f.calls[q] == r.calls[q];
      forall x | x in Children(t, p) ensures !IsChild(q, x) {
        if IsChild(q, x) {
          SamePrefix(p, q, x);
        }
      }
    }
  }

  lemma StepKeepsRun(t: Tree, root: Path, now: int, path: Path, r: Run, p: Path)
    requires RunInv(t, root, now, path, r) && Enabled(r, p)
    ensures RunInv(t, root, now, path, Step(r, root, now, p))
  {
    hide IsThere, CallOk, WellFormed, Step, Keeps, IsOld;
    var f := Step(r, root, now, p);
    StepTree(t, root, now, path, r, p);
    StepCalls(t, root, now, path, r, p);
    forall q | q in t ensures IsThere(t, root, now, f, q) {
      StepIsThere(t, root, now, path, r, p, q);
    }
    forall q | q in f.calls ensures CallOk(t, root, now, f, q) {
      StepCallOk(t, root, now, path, r, p, q);
    }
  }

  lemma {:induction false} RunKeepsInv(t: Tree, root: Path, now: int, path: Path, r: Run, order: seq<Path>, f: Run)
    requires RunInv(t, root, now, path, r) && Runs(r, root, now, order, f)
    ensures RunInv(t, root, now, path, f)
    decreases |order|
  {
    if order != [] {
      StepKeepsRun(t, root, now, path, r, order[0]);
      RunKeepsInv(t, root, now, path, Step(r, root, now, order[0]), order[1..], f);
    }
  }

  /** When all calls have ended, every entry below the path had one. */
  lemma {:induction false} EveryEntryHadACall(t: Tree, root: Path, now: int, path: Path, f: Run, p: Path)
    requires RunInv(t, root, now, path, f) && f.AllEnded(f.calls.Keys) && p in t && path <= p
    ensures p in f.calls
    decreases |p|
  {
    if p != path {
      var parent := p[..|p| - 1];
      PrefixExists(t, p, |p| - 1);
      EveryEntryHadACall(t, root, now, path, f, parent);
      assert CallOk(t, root, now, f, parent) && p in Children(t, parent);
    }
  }

  lemma StartRun(t: Tree, root: Path, now: int, path: Path)
    requires WellFormed(t) && path in t
    ensures RunInv(t, root, now, path, Run(t, map[path := Statting]))
  {
  }

  /** In every interleaving of the recursive calls, once all have ended the tree is pruned. */
  lemma EveryInterleavingPrunes(t: Tree, root: Path, now: int, path: Path, order: seq<Path>, f: Run)
    requires WellFormed(t) && path in t && Runs(Run(t, map[path := Statting]), root, now, order, f)
    requires f.AllEnded(f.calls.Keys)
    ensures f.tree == Pruned(t, root, now, path)
  {
    hide Keeps, WellFormed, CallOk;
    StartRun(t, root, now, path);
    RunKeepsInv(t, root, now, path, Run(t, map[path := Statting]), order, f);
    var after := Pruned(t, root, now, path);
    forall p ensures p in f.tree <==> p in after {
      if p in t {
        assert IsThere(t, root, now, f, p);
        if path <= p {
          EveryEntryHadACall(t, root, now, path, f, p);
        }
      }
    }
    assert f.tree.Keys == after.Keys;
  }

  /** A call that cannot go on waits for an entry it has read. */
  lemma WaitsForAnEntry(t: Tree, root: Path, now: int, path: Path, r: Run, p: Path) returns (c: Path)
    requires RunInv(t, root, now, path, r) && p in r.calls && !Enabled(r, p)
    ensures IsChild(p, c) && c in t && c in r.calls && !r.calls[c].Ended?
  {
    hide Keeps, WellFormed, IsThere;
    assert CallOk(t, root, now, r, p);
    c :| c in r.calls[p].entries && !(c in r.calls && r.calls[c].Ended?);
  }

  ghost function Longer(t: Tree, n: nat): set<Path> {
    set q | q in t && |q| > n
  }

  /** The calls never wait for one another for good: as long as one has not ended, that one or
      one further down can go on. */
  lemma SomeCallCanGoOn(t: Tree, root: Path, now: int, path: Path, r: Run, p: Path) returns (q: Path)
    requires RunInv(t, root, now, path, r) && p in r.calls && !r.calls[p].Ended?
    ensures p <= q && q in r.calls && !r.calls[q].Ended? && Enabled(r, q)
    decreases Longer(t, |p|)
  {
    hide RunInv, Enabled;
    q := p;
    if !Enabled(r, p) {
      var c := WaitsForAnEntry(t, root, now, path, r, p);
      assert c in Longer(t, |p|) && c !in Longer(t, |c|) && Longer(t, |c|) <= Longer(t, |p|);
      q := SomeCallCanGoOn(t, root, now, path, r, c);
    }
  }

  class FileSystem {
    const tempRoot: Path
    var tree: Tree

    constructor (tempRoot: Path, tree: Tree)
      ensures this.tempRoot == tempRoot && this.tree == tree
    {
      this.tempRoot, this.tree := tempRoot, tree;
    }

    /** `clock` is the time of day; a missing or zero `currentTimeMs` stands for it. */
    method RemoveOldTempFiles(path: Path, currentTimeMs: int, clock: int)
      requires WellFormed(tree)
      requires currentTimeMs != 0 || clock != 0
      modifies this
      ensures WellFormed(tree)
      ensures tree == if path == [] || path !in old(tree) then old(tree)
                      else Pruned(old(tree), tempRoot, if currentTimeMs != 0 then currentTimeMs else clock, path)
      decreases (set p | p in tree && path <= p), 2
    {
      var now := if currentTimeMs != 0 then currentTimeMs else clock;
      if path == [] || path !in tree {
        return;
      }
      PrunedIsWellFormed(tree, tempRoot, now, path);
      if tree[path].Directory? {
        RemoveFromDirectory(path, now);
      } else {
        PruneLeaf(tree, tempRoot, now, path);
        if tree[path].File? && tree[path].mtimeMs < now - THIRTY_DAYS {
          tree := tree - {path};
        }
      }
    }

    /** The entries of a directory, and then the directory itself if nothing is left. */
    method RemoveFromDirectory(path: Path, now: int)
      requires WellFormed(tree) && path in tree && tree[path].Directory? && path != [] && now != 0
      modifies this
      ensures tree == Pruned(old(tree), tempRoot, now, path)
      decreases (set p | p in tree && path <= p), 1
    {
      FinishDirectory(tree, tempRoot, now, path);
      PruneChildren(path, now);
      if path != tempRoot {
        var remaining := set p | p in tree && |p| == |path| + 1 && path <= p;
        assert remaining == Children(tree, path);
        if remaining == {} {
          tree := tree - {path};
        }
      }
    }

    /** The recursive calls for the entries of a directory, in any order. */
    method PruneChildren(path: Path, now: int)
      requires WellFormed(tree) && path in tree && tree[path].Directory? && path != [] && now != 0
      modifies this
      ensures tree == PartlyPruned(old(tree), tempRoot, now, Children(old(tree), path))
      decreases (set p | p in tree && path <= p), 0
    {
      ghost var t, done := tree, {};
      var todo := set p | p in tree && |p| == |path| + 1 && path <= p;
      assert todo == Children(t, path);
      assert PartlyPruned(t, tempRoot, now, {}) == t;
      while todo != {}
        invariant WellFormed(tree) && tree == PartlyPruned(t, tempRoot, now, done)
        invariant todo + done == Children(t, path) && todo !! done
        decreases todo
      {
        var c :| c in todo;
        assert c in Children(t, path) && forall d :: d in done ==> d in Children(t, path);
        PruneOneMore(t, tempRoot, now, done, c);
        SmallerSubtree(t, tree, path, c);
        RemoveOldTempFiles(c, now, now);
        todo, done := todo - {c}, done + {c};
      }
    }
  }

  lemma SmallerSubtree(t: Tree, part: Tree, path: Path, c: Path)
    requires part.Keys <= t.Keys && path in t && IsChild(path, c)
    ensures (set p | p in part && c <= p) < (set p | p in t && path <= p)
  {
    var below, all := set p | p in part && c <= p, set p | p in t && path <= p;
    forall p | p in below ensures p in all {
      assert p in t && path == c[..|path|] == p[..|c|][..|path|];
    }
    assert path in all && path !in below;
  }
}
