/** Boot-time removal of temporary files a crash left behind. */
module Cleanup {
  import opened Common
  import opened FileTree
  import opened Workspace
  import opened Disk

  /** Everything strictly below a location. */
  ghost function Below(t: Tree, at: Path): set<Path> {
    set q | q in t && at <= q && at != q
  }

  /** What a directory lists. */
  function Names(t: Tree, at: Path): set<Name> {
    set q | q in t && q != [] && Parent(q) == at :: q[|q| - 1]
  }

  lemma Listed(t: Tree, at: Path, name: Name)
    requires WellFormed(t)
    ensures name in Names(t, at) ==> at + [name] in t && Plain(name)
    ensures at + [name] in t ==> name in Names(t, at)
  {
    var q := at + [name];
    assert Parent(q) == at && q[|q| - 1] == name;
    if name in Names(t, at) {
      var r :| r in t && r != [] && Parent(r) == at && r[|r| - 1] == name;
      assert r == q;
    }
  }

  /** A listed entry that is a directory, through a link or not: fewer links are left, or it lies deeper. */
  lemma Descend(t: Tree, dir: Path, name: Name)
    requires WellFormed(t) && IsDir(t, dir) && name in Names(t, Locate(t, dir).at)
    ensures Locate(t, dir).at + [name] in t && Below(t, Locate(t, dir).at + [name]) < Below(t, Locate(t, dir).at)
    ensures Locate(t, dir + [name]).Reached? && t[Locate(t, dir).at + [name]].Link? ==>
              Locate(t, dir + [name]).links < Locate(t, dir).links
    ensures !t[Locate(t, dir).at + [name]].Link? ==>
              Locate(t, dir + [name]) == Reached(Locate(t, dir).at + [name], Locate(t, dir).links)
  {
    var w := Locate(t, dir);
    Listed(t, w.at, name);
    ResolveSplit(t, [], dir, [name], MAX_LINKS);
    var next := w.at + [name];
    assert next in Below(t, w.at) && next !in Below(t, next);
    assert forall q :: q in Below(t, next) ==> q in Below(t, w.at);
    if t[next].Link? && w.links > 0 {
      var to := t[next].to;
      assert to + [name][1..] == to;
      ResolveEnds(t, if t[next].absolute then [] else w.at, to, w.links - 1);
    }
  }

  // ---- The walk --------------------------------------------------------------------------------

  /** A directory the walk from `dir` enters, through links or not: what it lists are plain names. */
  ghost predicate Entered(t: Tree, dir: Path, d: Path) {
    dir <= d && PlainPath(d[|dir|..]) && IsDir(t, d)
  }

  /** A path the walk lists: an entry of a directory it enters that does not lead to a directory. */
  ghost predicate OnWalk(t: Tree, dir: Path, p: Path) {
    && dir <= p && dir != p && Entered(t, dir, Parent(p)) && Plain(p[|p| - 1])
    && EntryOf(t, p).Some? && EntryOf(t, p).value in t && !IsDir(t, p)
  }

  /** Every directory on the way can be listed. */
  ghost predicate Listable(t: Tree, dir: Path, unreadable: set<Path>) {
    forall d :: Entered(t, dir, d) ==> Locate(t, d).at !in unreadable
  }

  /** The directories on the way to one that is entered are entered. */
  lemma EnteredPrefix(t: Tree, dir: Path, d: Path, n: nat)
    requires Entered(t, dir, d) && |dir| <= n <= |d|
    ensures Entered(t, dir, d[..n])
  {
    var rest := d[n..];
    assert d == d[..n] + rest;
    ResolveSplit(t, [], d[..n], rest, MAX_LINKS);
    assert dir <= d[..n] && d[..n][|dir|..] == d[|dir|..][..n - |dir|];
    if rest != [] {
      assert rest[0] == d[|dir|..][n - |dir|];
    }
  }

  lemma RootIsEntered(t: Tree, dir: Path, d: Path)
    requires Entered(t, dir, d)
    ensures IsDir(t, dir)
  {
    EnteredPrefix(t, dir, d, |dir|);
    assert d[..|dir|] == dir;
  }

  /** The first name on the way from `dir` to one of its walk's directories is one that `dir` lists. */
  lemma FirstName(t: Tree, dir: Path, d: Path)
    requires WellFormed(t) && Entered(t, dir, d) && dir != d
    ensures IsDir(t, dir) && d[|dir|] in Names(t, Locate(t, dir).at) && Entered(t, dir, dir + [d[|dir|]])
  {
    var name := d[|dir|];
    EnteredPrefix(t, dir, d, |dir|);
    EnteredPrefix(t, dir, d, |dir| + 1);
    assert d[..|dir|] == dir && d[..|dir| + 1] == dir + [name];
    assert Plain(name) by { assert name == d[|dir|..][0]; }
    ResolveSplit(t, [], dir, [name], MAX_LINKS);
    Listed(t, Locate(t, dir).at, name);
  }

  lemma FirstListed(t: Tree, dir: Path, p: Path)
    requires WellFormed(t) && OnWalk(t, dir, p)
    ensures IsDir(t, dir) && p[|dir|] in Names(t, Locate(t, dir).at)
  {
    if Parent(p) == dir {
      assert EntryOf(t, p).value == Locate(t, dir).at + [p[|dir|]];
      Listed(t, Locate(t, dir).at, p[|dir|]);
    } else {
      FirstName(t, dir, Parent(p));
    }
  }

  /** The walk below one entry that leads to a directory is that part of the whole walk. */
  lemma EnteredVia(t: Tree, dir: Path, name: Name, d: Path)
    requires WellFormed(t) && IsDir(t, dir) && Plain(name)
    ensures Entered(t, dir + [name], d) <==> Entered(t, dir, d) && d != dir && d[|dir|] == name
  {
    if dir <= d && d != dir && d[|dir|] == name {
      assert dir + [name] <= d;
      assert d[|dir|..] == [name] + d[|dir + [name]|..];
    }
  }

  lemma WalkVia(t: Tree, dir: Path, name: Name, p: Path)
    requires WellFormed(t) && IsDir(t, dir) && Plain(name) && IsDir(t, dir + [name])
    ensures OnWalk(t, dir + [name], p) <==> OnWalk(t, dir, p) && p[|dir|] == name
  {
    if dir < p && p[|dir|] == name && p != dir + [name] {
      assert dir + [name] <= p;
      EnteredVia(t, dir, name, Parent(p));
    }
  }

  /** An entry that leads to no directory is all the walk finds there. */
  lemma WalkEnds(t: Tree, dir: Path, name: Name)
    requires WellFormed(t) && IsDir(t, dir) && name in Names(t, Locate(t, dir).at) && !IsDir(t, dir + [name])
    ensures forall p :: p == dir + [name] <==> OnWalk(t, dir, p) && p[|dir|] == name
    ensures forall d :: Entered(t, dir, d) && d != dir ==> d[|dir|] != name
  {
    Listed(t, Locate(t, dir).at, name);
    assert Parent(dir + [name]) == dir && dir[|dir|..] == [];
    forall d | Entered(t, dir, d) && d != dir ensures d[|dir|] != name {
      FirstName(t, dir, d);
    }
    forall p | OnWalk(t, dir, p) && p[|dir|] == name ensures p == dir + [name] {
      if Parent(p) != dir {
        FirstName(t, dir, Parent(p));
      }
    }
    assert OnWalk(t, dir, dir + [name]);
  }

  /** What has been listed when the names in `todo` are still to be visited. */
  ghost predicate Lists(t: Tree, dir: Path, todo: set<Name>, found: seq<Path>) {
    forall p :: p in found <==> OnWalk(t, dir, p) && p[|dir|] !in todo
  }

  ghost predicate Listables(t: Tree, dir: Path, todo: set<Name>, unreadable: set<Path>) {
    forall d :: Entered(t, dir, d) && (d == dir || d[|dir|] !in todo) ==> Locate(t, d).at !in unreadable
  }

  lemma ListsMore(t: Tree, dir: Path, todo: set<Name>, name: Name, found: seq<Path>, more: seq<Path>)
    requires WellFormed(t) && IsDir(t, dir) && name in todo && name in Names(t, Locate(t, dir).at)
    requires Lists(t, dir, todo, found)
    requires if IsDir(t, dir + [name]) then forall p :: p in more <==> OnWalk(t, dir + [name], p)
             else more == [dir + [name]]
    ensures Lists(t, dir, todo - {name}, found + more)
  {
    Listed(t, Locate(t, dir).at, name);
    forall p ensures p in more <==> OnWalk(t, dir, p) && p[|dir|] == name {
      if IsDir(t, dir + [name]) {
        WalkVia(t, dir, name, p);
      } else {
        WalkEnds(t, dir, name);
      }
    }
  }

  lemma ListablesMore(t: Tree, dir: Path, todo: set<Name>, name: Name, unreadable: set<Path>)
    requires WellFormed(t) && IsDir(t, dir) && name in Names(t, Locate(t, dir).at)
    requires Listables(t, dir, todo, unreadable)
    requires IsDir(t, dir + [name]) ==> Listable(t, dir + [name], unreadable)
    ensures Listables(t, dir, todo - {name}, unreadable)
  {
    Listed(t, Locate(t, dir).at, name);
    forall d | Entered(t, dir, d) && d != dir && d[|dir|] == name ensures Locate(t, d).at !in unreadable {
      if IsDir(t, dir + [name]) {
        EnteredVia(t, dir, name, d);
      } else {
        WalkEnds(t, dir, name);
      }
    }
  }

  lemma AllToDo(t: Tree, dir: Path, unreadable: set<Path>)
    requires WellFormed(t) && IsDir(t, dir) && Locate(t, dir).at !in unreadable
    ensures Lists(t, dir, Names(t, Locate(t, dir).at), [])
    ensures Listables(t, dir, Names(t, Locate(t, dir).at), unreadable)
  {
    forall p | OnWalk(t, dir, p) ensures p[|dir|] in Names(t, Locate(t, dir).at) {
      FirstListed(t, dir, p);
    }
    forall d | Entered(t, dir, d) && d != dir ensures d[|dir|] in Names(t, Locate(t, dir).at) {
      FirstName(t, dir, d);
    }
  }

  lemma NotListable(t: Tree, dir: Path, name: Name, unreadable: set<Path>)
    requires WellFormed(t) && IsDir(t, dir) && Plain(name) && !Listable(t, dir + [name], unreadable)
    ensures !Listable(t, dir, unreadable)
  {
    var d :| Entered(t, dir + [name], d) && Locate(t, d).at in unreadable;
    EnteredVia(t, dir, name, d);
  }

  /** Where there is no directory there is nothing to walk. */
  lemma NothingToWalk(t: Tree, dir: Path, unreadable: set<Path>)
    requires WellFormed(t) && !IsDir(t, dir)
    ensures Lists(t, dir, {}, []) && Listable(t, dir, unreadable)
  {
    forall d ensures !Entered(t, dir, d) {
      if Entered(t, dir, d) {
        RootIsEntered(t, dir, d);
      }
    }
  }

  /**
   * `walkdir`: follows links to directories, so it stops where the resolution of links does. It lists
   * exactly the entries on its walk, unless some directory it enters is among the `unreadable` ones: then
   * it fails as a whole.
   */
  method Walkdir(t: Tree, dir: Path, unreadable: set<Path>) returns (results: Option<seq<Path>>)
    requires WellFormed(t)
    ensures results.Some? <==> Listable(t, dir, unreadable)
    ensures results.Some? ==> forall p :: p in results.value <==> OnWalk(t, dir, p)
    decreases if Exists(t, dir) then Locate(t, dir).links else 0,
              if Exists(t, dir) then Below(t, Locate(t, dir).at) else {}
  {
    if !IsDir(t, dir) {
      NothingToWalk(t, dir, unreadable);
      return Some([]);
    }
    var at := Locate(t, dir).at;
    if at in unreadable {
      assert dir[|dir|..] == [] && Entered(t, dir, dir);
      return None;
    }
    var found: seq<Path>, todo := [], Names(t, at);
    AllToDo(t, dir, unreadable);
    while todo != {}
      invariant todo <= Names(t, at)
      invariant Lists(t, dir, todo, found) && Listables(t, dir, todo, unreadable)
      decreases todo
    {
      var name :| name in todo;
      Descend(t, dir, name);
      Listed(t, at, name);
      var more := [dir + [name]];
      if IsDir(t, dir + [name]) {
        var sub := Walkdir(t, dir + [name], unreadable);
        if sub.None? {
          NotListable(t, dir, name, unreadable);
          return None;
        }
        more := sub.value;
      }
      ListsMore(t, dir, todo, name, found, more);
      ListablesMore(t, dir, todo, name, unreadable);
      found, todo := found + more, todo - {name};
    }
    results := Some(found);
  }

  // ---- Removal ---------------------------------------------------------------------------------

  const INFIX: string := ".ama."
  const SUFFIX: string := ".tmp"

  predicate OccursAt(s: string, part: string, i: nat) {
    i + |part| <= |s| && s[i..i + |part|] == part
  }

  predicate Orphan(name: Name) {
    && (exists i :: 0 <= i <= |name| - |INFIX| && OccursAt(name, INFIX, i))
    && |name| >= |SUFFIX| && name[|name| - |SUFFIX|..] == SUFFIX
  }

  /** The pattern: `.ama.` somewhere in the name, and `.tmp` at its end. */
  lemma OrphanMeans(name: Name)
    ensures Orphan(name) <==> (exists a, b :: name == a + ".ama." + b) && (exists a :: name == a + ".tmp")
  {
    if Orphan(name) {
      var i :| 0 <= i <= |name| - |INFIX| && OccursAt(name, INFIX, i);
      assert name == name[..i] + ".ama." + name[i + 5..];
      assert name == name[..|name| - 4] + ".tmp";
    }
    if a, b, d :| name == a + ".ama." + b && name == d + ".tmp" {
      assert OccursAt(name, INFIX, |a|);
      assert name[|name| - 4..] == ".tmp";
    }
  }

  /** Only non-directories of orphan name are missing from `s`. */
  ghost predicate OnlyOrphansGone(t: Tree, s: Tree) {
    && (forall q :: q in s ==> q in t && s[q] == t[q])
    && (forall q :: q in t && q !in s ==> q != [] && t[q] != Dir && Orphan(q[|q| - 1]))
  }

  /** What still resolves after removals resolved to the same place before. */
  lemma {:induction false} ResolveBefore(t: Tree, s: Tree, cur: Path, rest: Path, links: nat)
    requires forall q :: q in s ==> q in t && s[q] == t[q]
    requires Resolve(s, cur, rest, links).Reached?
    ensures Resolve(t, cur, rest, links) == Resolve(s, cur, rest, links)
    decreases links, |rest|
  {
    if rest != [] && s[cur] == Dir {
      if rest[0] == "" || rest[0] == "." {
        ResolveBefore(t, s, cur, rest[1..], links);
      } else if rest[0] == ".." {
        ResolveBefore(t, s, Parent(cur), rest[1..], links);
      } else if cur + [rest[0]] in s {
        match s[cur + [rest[0]]] {
          case Link(absolute, to) =>
            if links > 0 {
              ResolveBefore(t, s, if absolute then [] else cur, to + rest[1..], links - 1);
            }
          case _ => ResolveBefore(t, s, cur + [rest[0]], rest[1..], links);
        }
      }
    }
  }

  /** Removing what the listed path `p` names would take `q` away. `stuck` are the locations whose removal
      the kernel refuses. */
  ghost predicate Takes(t: Tree, p: Path, q: Path, stuck: set<Path>) {
    && p != [] && Orphan(p[|p| - 1]) && EntryOf(t, p) == Some(q)
    && q in t && t[q] != Dir && q !in stuck
  }

  /** From `t` to `s` only what one of the paths in `done` takes has gone ... */
  ghost predicate OnlyTaken(t: Tree, s: Tree, done: seq<Path>, stuck: set<Path>) {
    && (forall q :: q in s ==> q in t && s[q] == t[q])
    && (forall q :: q in t && q !in s ==> TakenBy(t, done, q, stuck))
  }

  ghost predicate TakenBy(t: Tree, done: seq<Path>, q: Path, stuck: set<Path>) {
    exists p :: p in done && Takes(t, p, q, stuck)
  }

  /** ... and everything has that such a path takes, if the path still leads there. */
  ghost predicate AllTaken(t: Tree, s: Tree, done: seq<Path>, stuck: set<Path>) {
    forall p, q :: p in done && Takes(t, p, q, stuck) && IsDir(s, Parent(p)) ==> q !in s
  }

  lemma TakenIsOrphan(t: Tree, s: Tree, done: seq<Path>, stuck: set<Path>)
    requires OnlyTaken(t, s, done, stuck)
    ensures OnlyOrphansGone(t, s)
  {
    forall q | q in t && q !in s ensures q != [] && t[q] != Dir && Orphan(q[|q| - 1]) {
      assert TakenBy(t, done, q, stuck);
      var p :| p in done && Takes(t, p, q, stuck);
      EntryParent(t, p);
    }
  }

  /** The tree after the attempt on one path. */
  function Attempted(s: Tree, path: Path, stuck: set<Path>): Tree
    requires path != []
  {
    if Orphan(path[|path| - 1]) && Unlink(s, path).Some? && EntryOf(s, path).value !in stuck then Unlink(s, path).value
    else s
  }

  lemma EntryBefore(t: Tree, s: Tree, path: Path)
    requires (forall q :: q in s ==> q in t && s[q] == t[q]) && IsDir(s, Parent(path))
    ensures IsDir(t, Parent(path)) && EntryOf(t, path) == EntryOf(s, path)
  {
    ResolveBefore(t, s, [], Parent(path), MAX_LINKS);
  }

  lemma OneMoreTaken(t: Tree, s: Tree, done: seq<Path>, path: Path, stuck: set<Path>)
    requires path != [] && OnlyTaken(t, s, done, stuck)
    ensures OnlyTaken(t, Attempted(s, path, stuck), done + [path], stuck)
  {
    var s' := Attempted(s, path, stuck);
    forall q | q in t && q !in s' ensures TakenBy(t, done + [path], q, stuck) {
      if q !in s {
        assert TakenBy(t, done, q, stuck);
        var p :| p in done && Takes(t, p, q, stuck);
        assert p in done + [path];
      } else {
        EntryBefore(t, s, path);
        assert Takes(t, path, q, stuck) && path in done + [path];
      }
    }
  }

  lemma AllMoreTaken(t: Tree, s: Tree, done: seq<Path>, path: Path, stuck: set<Path>)
    requires path != [] && OnlyTaken(t, s, done, stuck) && AllTaken(t, s, done, stuck)
    ensures AllTaken(t, Attempted(s, path, stuck), done + [path], stuck)
  {
    var s' := Attempted(s, path, stuck);
    forall p, q | p in done + [path] && Takes(t, p, q, stuck) && IsDir(s', Parent(p)) ensures q !in s' {
      EntryBefore(s, s', p);
      if p == path {
        EntryBefore(t, s, path);
      } else {
        assert p in done;
      }
    }
  }

  lemma AttemptCounts(s: Tree, path: Path, stuck: set<Path>)
    requires path != []
    ensures Attempted(s, path, stuck) != s ==> |Attempted(s, path, stuck)| == |s| - 1
  {
    var s' := Attempted(s, path, stuck);
    if s' != s {
      var e := EntryOf(s, path).value;
      assert s'.Keys == s.Keys - {e};
      assert |s'.Keys| == |s.Keys| - 1;
    }
  }

  /** The attempt itself. */
  method Attempt(disk: Volume, path: Path, stuck: set<Path>) returns (ok: bool)
    requires disk.Valid() && path != []
    modifies disk
    ensures disk.Valid() && disk.tree == Attempted(old(disk.tree), path, stuck)
    ensures |disk.tree| == |old(disk.tree)| - if ok then 1 else 0
  {
    AttemptCounts(disk.tree, path, stuck);
    var entry := EntryOf(disk.tree, path);
    ok := false;
    if Orphan(path[|path| - 1]) && !(entry.Some? && entry.value in stuck) {
      ok := disk.Remove(path);
    }
  }

  /** The tree after the attempts on all listed paths, in their order. */
  ghost function AfterSweep(t: Tree, entries: seq<Path>, stuck: set<Path>): Tree
    requires forall k :: 0 <= k < |entries| ==> entries[k] != []
  {
    if entries == [] then t
    else
      var n := |entries| - 1;
      Attempted(AfterSweep(t, entries[..n], stuck), entries[n], stuck)
  }

  lemma SweepMore(t: Tree, done: seq<Path>, path: Path, stuck: set<Path>)
    requires path != [] && forall k :: 0 <= k < |done| ==> done[k] != []
    ensures AfterSweep(t, done + [path], stuck) == Attempted(AfterSweep(t, done, stuck), path, stuck)
  {
    assert (done + [path])[..|done|] == done;
  }

  lemma {:induction false} SweepTakes(t: Tree, entries: seq<Path>, stuck: set<Path>)
    requires forall k :: 0 <= k < |entries| ==> entries[k] != []
    ensures OnlyTaken(t, AfterSweep(t, entries, stuck), entries, stuck)
    ensures AllTaken(t, AfterSweep(t, entries, stuck), entries, stuck)
  {
    if entries != [] {
      var done, path := entries[..|entries| - 1], entries[|entries| - 1];
      assert entries == done + [path];
      SweepTakes(t, done, stuck);
      OneMoreTaken(t, AfterSweep(t, done, stuck), done, path, stuck);
      AllMoreTaken(t, AfterSweep(t, done, stuck), done, path, stuck);
    }
  }

  /** The loop over the listed paths. */
  method Sweep(disk: Volume, entries: seq<Path>, stuck: set<Path>) returns (cleaned: nat)
    requires disk.Valid() && forall k :: 0 <= k < |entries| ==> entries[k] != []
    modifies disk
    ensures disk.Valid() && cleaned + |disk.tree| == |old(disk.tree)|
    ensures disk.tree == AfterSweep(old(disk.tree), entries, stuck)
  {
    ghost var t := disk.tree;
    cleaned := 0;
    for i := 0 to |entries|
      invariant disk.Valid() && cleaned + |disk.tree| == |t|
      invariant disk.tree == AfterSweep(t, entries[..i], stuck)
    {
      var path := entries[i];
      assert entries[..i + 1] == entries[..i] + [path];
      SweepMore(t, entries[..i], path, stuck);
      var ok := Attempt(disk, path, stuck);
      cleaned := cleaned + if ok then 1 else 0;
    }
    assert entries[..|entries|] == entries;
  }

  // ---- What is gone below the root -------------------------------------------------------------

  /** The path by which a location below `at` is reached from `dir`. */
  function Via(dir: Path, at: Path, q: Path): Path
    requires at <= q
  {
    dir + q[|at|..]
  }

  lemma ReachedBelow(s: Tree, root: Path, at: Path, p: Path)
    requires WellFormed(s) && Exists(s, root) && Locate(s, root).at == at && at <= p && p in s && s[p] == Dir
    ensures at + p[|at|..] == p && Locate(s, root + p[|at|..]) == Reached(p, Locate(s, root).links)
  {
    var rest := p[|at|..];
    assert at + rest == p;
    ResolvePhysical(s, at, rest, Locate(s, root).links);
    ResolveSplit(s, [], root, rest, MAX_LINKS);
  }

  lemma ViaParent(root: Path, at: Path, q: Path)
    requires at <= q && at != q
    ensures at <= Parent(q) && Parent(q) + [q[|q| - 1]] == q
    ensures Via(root, at, q) == Via(root, at, Parent(q)) + [q[|q| - 1]]
    ensures Parent(Via(root, at, q)) == Via(root, at, Parent(q))
  {
    assert at == q[..|at|] == Parent(q)[..|at|];
    assert q[|at|..] == Parent(q)[|at|..] + [q[|q| - 1]];
  }

  /** A physical location below the directory `root` leads to is reached from `root`. */
  lemma ReachedVia(t: Tree, root: Path, q: Path)
    requires WellFormed(t) && IsDir(t, root) && q in Below(t, Locate(t, root).at)
    ensures var p := Via(root, Locate(t, root).at, q);
            && root <= p && root != p && PlainPath(p[|root|..]) && p[|p| - 1] == q[|q| - 1]
            && EntryOf(t, p) == Some(q) && IsDir(t, Parent(p)) && Locate(t, Parent(p)).at == Parent(q)
            && Locate(t, p) == Resolve(t, Parent(q), [q[|q| - 1]], Locate(t, root).links)
  {
    var at := Locate(t, root).at;
    var p := Via(root, at, q);
    ViaParent(root, at, q);
    assert Parent(q) in t && t[Parent(q)] == Dir;
    ReachedBelow(t, root, at, Parent(q));
    ResolveSplit(t, [], Parent(p), [p[|p| - 1]], MAX_LINKS);
    PhysicalIsPlain(t, q);
    assert p[|root|..] == q[|at|..];
  }

  /** A regular file below the root is listed. */
  lemma FileIsListed(t: Tree, root: Path, q: Path)
    requires WellFormed(t) && IsDir(t, root) && q in Below(t, Locate(t, root).at) && t[q].File?
    ensures OnWalk(t, root, Via(root, Locate(t, root).at, q))
  {
    var p := Via(root, Locate(t, root).at, q);
    ReachedVia(t, root, q);
    ViaParent(root, Locate(t, root).at, q);
    assert Parent(p)[|root|..] == p[|root|..][..|p| - |root| - 1];
    assert Plain(p[|p| - 1]) by { assert p[|p| - 1] == p[|root|..][|p| - |root| - 1]; }
    assert Resolve(t, Parent(q), [q[|q| - 1]], Locate(t, root).links) == Reached(q, Locate(t, root).links) by {
      assert Parent(q) + [q[|q| - 1]] == q;
      ResolvePhysical(t, Parent(q), [q[|q| - 1]], Locate(t, root).links);
    }
  }

  /** Every regular file below the root with an orphan name has gone, if it could be removed. */
  ghost predicate AllSwept(t: Tree, s: Tree, root: Path, stuck: set<Path>)
    requires IsDir(t, root)
  {
    forall q :: q in Below(t, Locate(t, root).at) && t[q].File? && Orphan(q[|q| - 1]) && q !in stuck ==> q !in s
  }

  /** The path by which a file was listed still leads to its directory, as long as the root does. */
  lemma StillThere(t: Tree, s: Tree, root: Path, q: Path)
    requires WellFormed(t) && WellFormed(s) && OnlyOrphansGone(t, s) && IsDir(t, root) && IsDir(s, root)
    requires q in Below(t, Locate(t, root).at)
    ensures IsDir(s, Parent(Via(root, Locate(t, root).at, q)))
  {
    var at := Locate(t, root).at;
    ResolveBefore(t, s, [], root, MAX_LINKS);
    assert Parent(q) in t && t[Parent(q)] == Dir;
    ViaParent(root, at, q);
    ReachedBelow(s, root, at, Parent(q));
  }

  lemma SweptBelow(t: Tree, s: Tree, root: Path, entries: seq<Path>, stuck: set<Path>)
    requires WellFormed(t) && WellFormed(s) && IsDir(t, root) && IsDir(s, root)
    requires OnlyTaken(t, s, entries, stuck) && AllTaken(t, s, entries, stuck)
    requires forall p :: p in entries <==> OnWalk(t, root, p)
    ensures AllSwept(t, s, root, stuck)
  {
    TakenIsOrphan(t, s, entries, stuck);
    forall q | q in Below(t, Locate(t, root).at) && t[q].File? && Orphan(q[|q| - 1]) && q !in stuck ensures q !in s {
      var p := Via(root, Locate(t, root).at, q);
      FileIsListed(t, root, q);
      ReachedVia(t, root, q);
      StillThere(t, s, root, q);
      assert p in entries && Takes(t, p, q, stuck);
    }
  }

  /** A root that is its own physical location is still a directory after any removal of orphans. */
  lemma PhysicalRootStays(t: Tree, s: Tree, root: Path)
    requires WellFormed(t) && WellFormed(s) && OnlyOrphansGone(t, s) && root in t && t[root] == Dir
    ensures IsDir(t, root) && IsDir(s, root)
  {
    LocatePhysical(t, root);
    LocatePhysical(s, root);
  }

  // ---- Where the walk leads --------------------------------------------------------------------

  /** Every link below `at` that leads to a directory leads to one at or below `at`. */
  ghost predicate LinksStayInside(t: Tree, at: Path) {
    forall l :: l in Below(t, at) && t[l].Link? && IsDir(t, l) ==> at <= Locate(t, l).at
  }

  /** More links to follow lead to the same place. */
  lemma {:induction false} ResolveMore(t: Tree, cur: Path, rest: Path, links: nat, more: nat)
    requires Resolve(t, cur, rest, links).Reached? && links <= more
    ensures Resolve(t, cur, rest, more).Reached? && Resolve(t, cur, rest, more).at == Resolve(t, cur, rest, links).at
    decreases links, |rest|
  {
    if rest != [] && t[cur] == Dir {
      if rest[0] == "" || rest[0] == "." {
        ResolveMore(t, cur, rest[1..], links, more);
      } else if rest[0] == ".." {
        ResolveMore(t, Parent(cur), rest[1..], links, more);
      } else {
        match t[cur + [rest[0]]] {
          case Link(absolute, to) =>
            ResolveMore(t, if absolute then [] else cur, to + rest[1..], links - 1, more - 1);
          case _ => ResolveMore(t, cur + [rest[0]], rest[1..], links, more);
        }
      }
    }
  }

  /** Entering one more directory from `x`: it lies below `x`, or behind a link there. */
  lemma OneDirFurther(t: Tree, at: Path, d: Path)
    requires WellFormed(t) && LinksStayInside(t, at) && d != [] && Plain(d[|d| - 1])
    requires IsDir(t, d) && IsDir(t, Parent(d)) && at <= Locate(t, Parent(d)).at
    ensures at <= Locate(t, d).at
  {
    var x, name := Locate(t, Parent(d)), d[|d| - 1];
    assert d == Parent(d) + [name];
    ResolveEnds(t, [], Parent(d), MAX_LINKS);
    ResolveSplit(t, [], Parent(d), [name], MAX_LINKS);
    var l := x.at + [name];
    assert l in t && [name][1..] == [];
    if t[l].Link? {
      LinkAgrees(t, x.at, name, x.links);
    }
  }

  lemma LinkAgrees(t: Tree, x: Path, name: Name, links: nat)
    requires WellFormed(t) && x in t && t[x] == Dir && Plain(name) && x + [name] in t && links <= MAX_LINKS
    requires Resolve(t, x, [name], links).Reached?
    ensures Exists(t, x + [name]) && Locate(t, x + [name]).at == Resolve(t, x, [name], links).at
  {
    LocatePhysical(t, x);
    ResolveSplit(t, [], x, [name], MAX_LINKS);
    ResolveMore(t, x, [name], links, MAX_LINKS);
  }

  lemma {:induction false} EnteredInside(t: Tree, root: Path, d: Path)
    requires WellFormed(t) && IsDir(t, root) && LinksStayInside(t, Locate(t, root).at) && Entered(t, root, d)
    ensures Locate(t, root).at <= Locate(t, d).at
    decreases |d|
  {
    if d != root {
      EnteredPrefix(t, root, d, |d| - 1);
      EnteredInside(t, root, Parent(d));
      assert Plain(d[|d| - 1]) by { assert d[|d| - 1] == d[|root|..][|d| - |root| - 1]; }
      OneDirFurther(t, Locate(t, root).at, d);
    }
  }

  /** From a root that is its own physical location the walk stays at or below it if and only if no link
      below it leads to a directory elsewhere. */
  lemma WalkStaysInside(t: Tree, root: Path)
    requires WellFormed(t) && root in t && t[root] == Dir
    ensures (forall d :: Entered(t, root, d) ==> root <= Locate(t, d).at) <==> LinksStayInside(t, root)
  {
    LocatePhysical(t, root);
    if LinksStayInside(t, root) {
      forall d | Entered(t, root, d) ensures root <= Locate(t, d).at {
        EnteredInside(t, root, d);
      }
    } else {
      var l :| l in Below(t, root) && t[l].Link? && IsDir(t, l) && !(root <= Locate(t, l).at);
      ReachedVia(t, root, l);
      assert Via(root, root, l) == l;
      assert Entered(t, root, l);
    }
  }

  /** Then what is removed lies strictly below the root. */
  lemma TakenInside(t: Tree, root: Path, entries: seq<Path>, q: Path, stuck: set<Path>)
    requires WellFormed(t) && root in t && t[root] == Dir && LinksStayInside(t, root)
    requires (forall p :: p in entries <==> OnWalk(t, root, p)) && TakenBy(t, entries, q, stuck)
    ensures root <= q && root != q
  {
    var p :| p in entries && Takes(t, p, q, stuck);
    LocatePhysical(t, root);
    EnteredInside(t, root, Parent(p));
  }

  /** Some path on the walk takes `q`. */
  ghost predicate TakenOnWalk(t: Tree, root: Path, q: Path, stuck: set<Path>) {
    exists p :: OnWalk(t, root, p) && Takes(t, p, q, stuck)
  }

  /** Everything has gone that a path on the walk takes, if it still leads there. */
  ghost predicate AllTakenOnWalk(t: Tree, s: Tree, root: Path, stuck: set<Path>) {
    forall p, q :: OnWalk(t, root, p) && Takes(t, p, q, stuck) && IsDir(s, Parent(p)) ==> q !in s
  }

  lemma TakenOnWalkBy(t: Tree, root: Path, entries: seq<Path>, q: Path, stuck: set<Path>)
    requires (forall p :: p in entries <==> OnWalk(t, root, p)) && TakenBy(t, entries, q, stuck)
    ensures TakenOnWalk(t, root, q, stuck)
  {
    var p :| p in entries && Takes(t, p, q, stuck);
  }

  /**
   * `cleanup_orphan_temps`. If some directory of the walk cannot be listed, nothing is removed. Otherwise
   * exactly what the listed paths of orphan name take is removed and counted, as far as they still lead
   * there: a non-directory of that name each. If the root still names a directory afterwards, as it surely
   * does when it is its own physical location, no regular file of such a name that can be removed is left
   * below it. If no link below it leads to a directory elsewhere, nothing elsewhere is touched.
   */
  method CleanupOrphanTemps(disk: Volume, root: Path, unreadable: set<Path>, stuck: set<Path>) returns (cleaned: nat)
    requires disk.Valid()
    modifies disk
    ensures disk.Valid() && OnlyOrphansGone(old(disk.tree), disk.tree)
    ensures cleaned + |disk.tree| == |old(disk.tree)|
    ensures !Listable(old(disk.tree), root, unreadable) ==> disk.tree == old(disk.tree)
    ensures forall q :: q in old(disk.tree) && q !in disk.tree ==> TakenOnWalk(old(disk.tree), root, q, stuck)
    ensures Listable(old(disk.tree), root, unreadable) ==> AllTakenOnWalk(old(disk.tree), disk.tree, root, stuck)
    ensures Listable(old(disk.tree), root, unreadable) && IsDir(old(disk.tree), root) && IsDir(disk.tree, root) ==>
              AllSwept(old(disk.tree), disk.tree, root, stuck)
    ensures Listable(old(disk.tree), root, unreadable) && root in old(disk.tree) && old(disk.tree)[root] == Dir ==>
              IsDir(old(disk.tree), root) && AllSwept(old(disk.tree), disk.tree, root, stuck)
    ensures root in old(disk.tree) && old(disk.tree)[root] == Dir && LinksStayInside(old(disk.tree), root) ==>
              forall q :: q in old(disk.tree) && q !in disk.tree ==> root <= q && root != q
  {
    ghost var t := disk.tree;
    var listing := Walkdir(disk.tree, root, unreadable);
    if listing.None? {
      return 0;
    }
    var entries := listing.value;
    forall k | 0 <= k < |entries| ensures entries[k] != [] {
      assert entries[k] in entries;
    }
    cleaned := Sweep(disk, entries, stuck);
    SweepTakes(t, entries, stuck);
    TakenIsOrphan(t, disk.tree, entries, stuck);
    forall q | q in t && q !in disk.tree ensures TakenOnWalk(t, root, q, stuck) {
      TakenOnWalkBy(t, root, entries, q, stuck);
    }
    if root in t && t[root] == Dir {
      PhysicalRootStays(t, disk.tree, root);
      if LinksStayInside(t, root) {
        forall q | q in t && q !in disk.tree ensures root <= q && root != q {
          TakenInside(t, root, entries, q, stuck);
        }
      }
    }
    if IsDir(t, root) && IsDir(disk.tree, root) {
      SweptBelow(t, disk.tree, root, entries, stuck);
    }
  }

  /**
   * The condition on links is needed: below a workspace with a link to a directory anywhere else, a file of
   * the pattern in that directory is removed.
   */
  method CleanupLeadsOut(
      disk: Volume, root: Path, l: Path, o: Path, name: Name, unreadable: set<Path>, stuck: set<Path>)
    returns (cleaned: nat)
    requires disk.Valid() && root in disk.tree && disk.tree[root] == Dir && Listable(disk.tree, root, unreadable)
    requires l in Below(disk.tree, root) && disk.tree[l] == Link(true, o) && !Orphan(l[|l| - 1])
    requires o in disk.tree && disk.tree[o] == Dir && o + [name] in disk.tree && disk.tree[o + [name]].File?
    requires Orphan(name) && o + [name] !in stuck
    modifies disk
    ensures disk.Valid() && o + [name] !in disk.tree
  {
    ghost var t := disk.tree;
    cleaned := CleanupOrphanTemps(disk, root, unreadable, stuck);
    GoneBehindLink(t, disk.tree, root, l, o, name, stuck);
  }

  lemma LinkStays(t: Tree, s: Tree, l: Path, o: Path)
    requires OnlyOrphansGone(t, s) && l in t && l != [] && !Orphan(l[|l| - 1]) && o in t && t[o] == Dir
    ensures l in s && s[l] == t[l] && o in s && s[o] == Dir
  {
  }

  lemma GoneBehindLink(t: Tree, s: Tree, root: Path, l: Path, o: Path, name: Name, stuck: set<Path>)
    requires WellFormed(t) && WellFormed(s) && OnlyOrphansGone(t, s) && AllTakenOnWalk(t, s, root, stuck)
    requires root in t && t[root] == Dir && l in Below(t, root) && t[l] == Link(true, o) && !Orphan(l[|l| - 1])
    requires o in t && t[o] == Dir && o + [name] in t && t[o + [name]].File?
    requires Orphan(name) && o + [name] !in stuck
    ensures o + [name] !in s
  {
    var p, q := l + [name], o + [name];
    LinkStays(t, s, l, o);
    LinkLeads(s, l, o);
    FileBehindLink(t, root, l, o, name);
    TakesIt(t, p, q, name, stuck);
    assert Parent(p) == l;
  }

  lemma TakesIt(t: Tree, p: Path, q: Path, name: Name, stuck: set<Path>)
    requires p != [] && p[|p| - 1] == name && Orphan(name) && EntryOf(t, p) == Some(q)
    requires q in t && t[q].File? && q !in stuck
    ensures Takes(t, p, q, stuck)
  {
  }

  lemma LinkLeads(t: Tree, l: Path, o: Path)
    requires WellFormed(t) && l != [] && l in t && t[l] == Link(true, o) && o in t && t[o] == Dir
    ensures Locate(t, l) == Reached(o, MAX_LINKS - 1) && IsDir(t, l)
  {
    var name := l[|l| - 1];
    assert l == Parent(l) + [name] && Parent(l) in t;
    LocatePhysical(t, Parent(l));
    ResolveSplit(t, [], Parent(l), [name], MAX_LINKS);
    assert o + [name][1..] == o && [] + o == o;
    ResolvePhysical(t, [], o, MAX_LINKS - 1);
  }

  lemma FileBehindLink(t: Tree, root: Path, l: Path, o: Path, name: Name)
    requires WellFormed(t) && root in t && t[root] == Dir && l in Below(t, root) && t[l] == Link(true, o)
    requires o in t && t[o] == Dir && o + [name] in t && t[o + [name]].File?
    ensures EntryOf(t, l + [name]) == Some(o + [name]) && OnWalk(t, root, l + [name])
  {
    LinkLeads(t, l, o);
    PhysicalIsPlain(t, l);
    assert l[|root|..] == l[|root|..|l|];
    Listed(t, o, name);
    var f := o + [name];
    assert Parent(f) == o && f[|f| - 1] == name;
    ResolveSplit(t, [], l, [name], MAX_LINKS);
    ResolvePhysical(t, o, [name], MAX_LINKS - 1);
    assert Parent(l + [name]) == l;
  }
}
