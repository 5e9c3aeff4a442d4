/**
 * A file tree with directories, regular files and symbolic links, and the path resolution and file
 * operations of a Unix kernel on it. The keys of the tree are physical locations.
 */
module FileTree {
  import opened Common

  type Name = string

  /** Components below `/`. */
  type Path = seq<Name>

  type byte = b: int | 0 <= b < 256

  datatype Node = Dir | File(bytes: seq<byte>) | Link(absolute: bool, to: Path)

  type Tree = map<Path, Node>

  /** A component that names an entry, as opposed to a trailing or doubled separator, `.` or `..`. */
  predicate Plain(name: Name) {
    name != "" && name != "." && name != ".."
  }

  function Parent(p: Path): Path {
    if p == [] then [] else p[..|p| - 1]
  }

  /** The root is a directory, and every other node lies in a directory under a plain name. */
  ghost predicate WellFormed(t: Tree) {
    && [] in t && t[[]] == Dir
    && forall p {:trigger Parent(p)} :: p in t && p != [] ==> Parent(p) in t && t[Parent(p)] == Dir && Plain(p[|p| - 1])
  }

  /** How many links one resolution follows before it gives up. */
  const MAX_LINKS: nat := 40

  /** `Absent` is `ENOENT`; `Blocked` is `ENOTDIR` or `ELOOP`. */
  datatype Walk = Absent | Blocked | Reached(at: Path, links: nat)

  /**
   * Resolution of the components `rest` from the directory `cur`, following every link, with `links`
   * of them left to follow.
   */
  function Resolve(t: Tree, cur: Path, rest: Path, links: nat): (w: Walk)
    ensures w.Reached? ==> w.at in t
    decreases links, |rest|
  {
    if cur !in t then Absent
    else if rest == [] then Reached(cur, links)
    else if t[cur] != Dir then Blocked
    else if rest[0] == "" || rest[0] == "." then Resolve(t, cur, rest[1..], links)
    else if rest[0] == ".." then Resolve(t, Parent(cur), rest[1..], links)
    else
      var next := cur + [rest[0]];
      if next !in t then Absent
      else match t[next]
           case Link(absolute, to) =>
             if links == 0 then Blocked
             else Resolve(t, if absolute then [] else cur, to + rest[1..], links - 1)
           case _ => Resolve(t, next, rest[1..], links)
  }

  function Locate(t: Tree, p: Path): Walk {
    Resolve(t, [], p, MAX_LINKS)
  }

  /** `Path::exists`, `Path::is_dir` and `fs::canonicalize`. */
  predicate Exists(t: Tree, p: Path) {
    Locate(t, p).Reached?
  }

  predicate IsDir(t: Tree, p: Path) {
    Exists(t, p) && t[Locate(t, p).at] == Dir
  }

  lemma {:induction false} ResolveEnds(t: Tree, cur: Path, rest: Path, links: nat)
    requires WellFormed(t) && (cur in t ==> !t[cur].Link?)
    ensures var w := Resolve(t, cur, rest, links);
            w.Reached? ==> w.at in t && !t[w.at].Link? && w.links <= links
    decreases links, |rest|
  {
    if cur in t && rest != [] && t[cur] == Dir {
      if rest[0] == "" || rest[0] == "." {
        ResolveEnds(t, cur, rest[1..], links);
      } else if rest[0] == ".." {
        ResolveEnds(t, Parent(cur), rest[1..], links);
      } else if cur + [rest[0]] in t {
        match t[cur + [rest[0]]] {
          case Link(absolute, to) =>
            if links > 0 {
              ResolveEnds(t, if absolute then [] else cur, to + rest[1..], links - 1);
            }
          case _ => ResolveEnds(t, cur + [rest[0]], rest[1..], links);
        }
      }
    }
  }

  /** Resolving `a` and then `b` is resolving their concatenation. */
  lemma {:induction false} ResolveSplit(t: Tree, cur: Path, a: Path, b: Path, links: nat)
    ensures Resolve(t, cur, a + b, links) ==
            match Resolve(t, cur, a, links) {
              case Reached(at, left) => Resolve(t, at, b, left)
              case failure => failure
            }
    decreases links, |a|
  {
    if a == [] {
      assert a + b == b;
    } else if cur in t && t[cur] == Dir {
      assert (a + b)[1..] == a[1..] + b;
      if a[0] == "" || a[0] == "." {
        ResolveSplit(t, cur, a[1..], b, links);
      } else if a[0] == ".." {
        ResolveSplit(t, Parent(cur), a[1..], b, links);
      } else if cur + [a[0]] in t {
        match t[cur + [a[0]]] {
          case Link(absolute, to) =>
            if links > 0 {
              assert to + (a + b)[1..] == (to + a[1..]) + b;
              ResolveSplit(t, if absolute then [] else cur, to + a[1..], b, links - 1);
            }
          case _ => ResolveSplit(t, cur + [a[0]], a[1..], b, links);
        }
      }
    }
  }

  /** Every proper prefix of a physical location is a directory. */
  lemma {:induction false} PrefixIsDir(t: Tree, p: Path, n: nat)
    requires WellFormed(t) && p in t && n < |p|
    ensures p[..n] in t && t[p[..n]] == Dir && Plain(p[n])
  {
    assert Parent(p) in t;
    if n < |p| - 1 {
      PrefixIsDir(t, Parent(p), n);
      assert Parent(p)[..n] == p[..n];
    }
  }

  /** Walking from a directory through one plain entry. */
  lemma EnterPhysical(t: Tree, cur: Path, rest: Path)
    requires WellFormed(t) && rest != [] && cur + rest in t
    ensures cur in t && t[cur] == Dir && Plain(rest[0]) && cur + [rest[0]] in t
    ensures |rest| > 1 ==> t[cur + [rest[0]]] == Dir
    ensures cur + [rest[0]] + rest[1..] == cur + rest
  {
    var p := cur + rest;
    PrefixIsDir(t, p, |cur|);
    assert p[..|cur|] == cur;
    assert p[..|cur| + 1] == cur + [rest[0]];
    if |rest| > 1 {
      PrefixIsDir(t, p, |cur| + 1);
    } else {
      assert cur + [rest[0]] == p;
    }
  }

  /** A physical location that is not a link resolves to itself, without following any link. */
  lemma {:induction false} ResolvePhysical(t: Tree, cur: Path, rest: Path, links: nat)
    requires WellFormed(t) && cur + rest in t && !t[cur + rest].Link?
    ensures Resolve(t, cur, rest, links) == Reached(cur + rest, links)
    decreases |rest|
  {
    if rest == [] {
      assert cur + rest == cur;
    } else {
      EnterPhysical(t, cur, rest);
      ResolvePhysical(t, cur + [rest[0]], rest[1..], links);
    }
  }

  lemma LocatePhysical(t: Tree, p: Path)
    requires WellFormed(t) && p in t && !t[p].Link?
    ensures Locate(t, p) == Reached(p, MAX_LINKS)
  {
    assert [] + p == p;
    ResolvePhysical(t, [], p, MAX_LINKS);
  }

  /** If a path resolves, so does every shorter one. */
  lemma ExistsPrefix(t: Tree, p: Path, n: nat)
    requires n <= |p| && Exists(t, p)
    ensures Exists(t, p[..n])
  {
    ResolveSplit(t, [], p[..n], p[n..], MAX_LINKS);
    assert p[..n] + p[n..] == p;
  }

  // ---- Operations ------------------------------------------------------------------------------

  /**
   * The location `open` with `O_CREAT` works on: like `Resolve`, but the last component may be missing.
   * A link in last position is followed, even to a missing target.
   */
  function OpenTarget(t: Tree, cur: Path, rest: Path, links: nat): Option<Path>
    decreases links, |rest|
  {
    if cur !in t || rest == [] || t[cur] != Dir then None
    else if rest[0] == "" || rest[0] == "." then OpenTarget(t, cur, rest[1..], links)
    else if rest[0] == ".." then OpenTarget(t, Parent(cur), rest[1..], links)
    else
      var next := cur + [rest[0]];
      if next !in t then (if |rest| == 1 then Some(next) else None)
      else match t[next]
           case Link(absolute, to) =>
             if links == 0 then None else OpenTarget(t, if absolute then [] else cur, to + rest[1..], links - 1)
           case _ => if |rest| == 1 then Some(next) else OpenTarget(t, next, rest[1..], links)
  }

  /** The location of the entry `p` itself: its parent resolved, its last component taken as it is. */
  function EntryOf(t: Tree, p: Path): Option<Path> {
    if p == [] then None
    else if IsDir(t, Parent(p)) then Some(Locate(t, Parent(p)).at + [p[|p| - 1]]) else None
  }

  /** `lstat(p)` finds a link. */
  predicate IsLink(t: Tree, p: Path) {
    EntryOf(t, p).Some? && EntryOf(t, p).value in t && t[EntryOf(t, p).value].Link?
  }

  /** `lstat(p)` finds a regular file. */
  predicate IsRegular(t: Tree, p: Path) {
    EntryOf(t, p).Some? && EntryOf(t, p).value in t && t[EntryOf(t, p).value].File?
  }

  datatype Making = Made(tree: Tree) | ParentMissing | Refused

  function Mkdir(t: Tree, p: Path): Making {
    if p != [] && Locate(t, Parent(p)).Absent? then ParentMissing
    else
      var e := EntryOf(t, p);
      if e.Some? && e.value !in t then Made(t[e.value := Dir]) else Refused
  }

  /** Create or truncate; the location opened is returned. */
  function OpenTruncate(t: Tree, p: Path): Option<(Path, Tree)> {
    var e := OpenTarget(t, [], p, MAX_LINKS);
    if e.Some? && (e.value !in t || t[e.value].File?) then Some((e.value, t[e.value := File([])])) else None
  }

  function Unlink(t: Tree, p: Path): Option<Tree> {
    var e := EntryOf(t, p);
    if e.Some? && e.value in t && t[e.value] != Dir then Some(t - {e.value}) else None
  }

  /** `rename` of a file or link onto `to`; a directory at `to` is not replaced. */
  function Rename(t: Tree, from: Path, to: Path): Option<Tree> {
    var e, e' := EntryOf(t, from), EntryOf(t, to);
    if e.Some? && e'.Some? && e.value in t && t[e.value] != Dir && (e'.value in t ==> t[e'.value] != Dir) then
      if e.value == e'.value then Some(t) else Some((t - {e.value})[e'.value := t[e.value]])
    else None
  }

  /** For a physical directory, an entry's location is its path. */
  lemma EntryPhysical(t: Tree, p: Path)
    requires WellFormed(t) && p != [] && Parent(p) in t && t[Parent(p)] == Dir
    ensures EntryOf(t, p) == Some(p)
  {
    LocatePhysical(t, Parent(p));
    assert Parent(p) + [p[|p| - 1]] == p;
  }

  /** Under a physical directory, opening a plain name that is not a link works on that very entry. */
  lemma {:induction false} OpenPhysical(t: Tree, cur: Path, dir: Path, name: Name, links: nat)
    requires WellFormed(t) && cur + dir in t && t[cur + dir] == Dir
    requires Plain(name) && (cur + dir + [name] in t ==> !t[cur + dir + [name]].Link?)
    ensures OpenTarget(t, cur, dir + [name], links) == Some(cur + dir + [name])
    decreases |dir|
  {
    if dir == [] {
      assert cur + dir == cur && dir + [name] == [name];
    } else {
      EnterPhysical(t, cur, dir);
      assert (dir + [name])[1..] == dir[1..] + [name];
      assert cur + [dir[0]] + dir[1..] + [name] == cur + dir + [name];
      OpenPhysical(t, cur + [dir[0]], dir[1..], name, links);
    }
  }

  lemma AddKeepsWellFormed(t: Tree, p: Path, node: Node)
    requires WellFormed(t) && p != [] && Parent(p) in t && t[Parent(p)] == Dir && Plain(p[|p| - 1])
    requires p in t ==> t[p] != Dir
    ensures WellFormed(t[p := node])
  {
    var t' := t[p := node];
    forall q | q in t' && q != []
      ensures Parent(q) in t' && t'[Parent(q)] == Dir && Plain(q[|q| - 1])
    {
      if q != p {
        assert Parent(q) in t && t[Parent(q)] == Dir;
      }
    }
  }

  lemma RemoveKeepsWellFormed(t: Tree, p: Path)
    requires WellFormed(t) && p in t && t[p] != Dir
    ensures WellFormed(t - {p})
  {
    forall q | q in t - {p} && q != []
      ensures Parent(q) in t - {p} && (t - {p})[Parent(q)] == Dir && Plain(q[|q| - 1])
    {
      assert Parent(q) in t && t[Parent(q)] == Dir;
    }
  }
}
