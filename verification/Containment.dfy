/** The two path checks together: a write never leaves its agent's directory. */
module Containment {
  import opened Common
  import opened Errors
  import opened FileTree
  import opened Workspace
  import opened Disk
  import opened FileActuator
  import opened Encoding

  /** Every location a write of `p` may create or replace. */
  ghost function Footprint(t: Tree, p: Path, id: string): set<Path>
    requires p != []
  {
    {p, TempPath(p, id)} + set n | 0 <= n < |p| && p[..n] !in t :: p[..n]
  }

  ghost predicate Differs(t: Tree, s: Tree, q: Path) {
    (q in t) != (q in s) || (q in t && t[q] != s[q])
  }

  lemma ChangesInFootprint(t: Tree, s: Tree, p: Path, id: string, content: seq<byte>, q: Path)
    requires p != [] && Between(t, s, p, TempPath(p, id), content) && TempPath(p, id) !in t && Differs(t, s, q)
    ensures q in Footprint(t, p, id)
  {
    if q != p && q != TempPath(p, id) {
      assert q <= Parent(p);
      assert q == p[..|q|];
    }
  }

  /**
   * For an accepted path that passes the second check, the whole footprint lies under the resolved
   * agent root, unless the path is that root itself: then the temporary file would be its sibling.
   */
  lemma FootprintInside(t: Tree, relative: string, root: Path, agent: Option<string>, id: string)
    requires WellFormed(t) && PlainPath(EffectiveRoot(root, agent)) && IsDir(t, root)
    requires NewWorkspacePath(t, relative, root, agent).Ok? && NewWorkspacePath(t, relative, root, agent).value != []
    requires Settled(t, NewWorkspacePath(t, relative, root, agent).value)
    ensures var p := NewWorkspacePath(t, relative, root, agent).value;
            (forall q :: q in Footprint(t, p, id) ==> RootOf(t, EffectiveRoot(root, agent)) <= q)
            <==> p != RootOf(t, EffectiveRoot(root, agent))
  {
    var effective := EffectiveRoot(root, agent);
    var r := RootOf(t, effective);
    var p := NewWorkspacePath(t, relative, root, agent).value;
    AcceptedPath(t, relative, root, agent);
    TempIsNew(p, id);
    if p == r {
      assert TempPath(p, id) in Footprint(t, p, id);
      assert !(r <= TempPath(p, id));
    } else {
      assert r <= Parent(p) <= TempPath(p, id);
      forall n | 0 <= n < |p| && p[..n] !in t ensures r <= p[..n] {
        NewDirInside(t, root, agent, p, n);
      }
    }
  }

  lemma PrefixPresent(t: Tree, present: Path, p: Path, n: nat)
    requires WellFormed(t) && present in t && present <= p && n <= |present|
    ensures p[..n] in t
  {
    assert present[..n] == p[..n];
    if n < |present| {
      PrefixIsDir(t, present, n);
    } else {
      assert present[..n] == present;
    }
  }

  lemma PrefixNotLink(t: Tree, present: Path, p: Path, n: nat)
    requires WellFormed(t) && present in t && t[present] == Dir && present <= p && n <= |present|
    ensures p[..n] in t && t[p[..n]] == Dir
  {
    PrefixPresent(t, present, p, n);
    assert present[..n] == p[..n];
    if n < |present| {
      PrefixIsDir(t, present, n);
    } else {
      assert present[..n] == present;
    }
  }

  /** A missing ancestor of a settled path under the root is not above the root. */
  lemma NewDirInside(t: Tree, root: Path, agent: Option<string>, p: Path, n: nat)
    requires WellFormed(t) && IsDir(t, root) && Settled(t, p) && n < |p| && p[..n] !in t
    requires RootOf(t, EffectiveRoot(root, agent)) <= p
    ensures RootOf(t, EffectiveRoot(root, agent)) <= p[..n]
  {
    var effective := EffectiveRoot(root, agent);
    var r := RootOf(t, effective);
    assert r == p[..|r|];
    var present := if Exists(t, effective) then r else root;
    if !Exists(t, effective) {
      assert effective <= p;
      assert root == p[..|root|];
    }
    assert present in t && present == p[..|present|];
    if n <= |present| {
      PrefixPresent(t, present, p, n);
    }
    assert |r| <= n;
    assert p[..n][..|r|] == r;
  }

  ghost predicate UnusedId(t: Tree, id: string) {
    forall q, name :: q in t && q != [] ==> q[|q| - 1] != TempName(name, id)
  }

  lemma TempUnused(t: Tree, p: Path, id: string)
    requires UnusedId(t, id) && p != []
    ensures TempPath(p, id) !in t
  {
    var temp := TempPath(p, id);
    assert temp[|temp| - 1] == TempName(p[|p| - 1], id);
  }

  /** Whatever differs lies strictly under `base`. */
  ghost predicate Confined(t: Tree, s: Tree, base: Path) {
    forall q :: Differs(t, s, q) ==> base <= q && q != base
  }

  /** Containment: an accepted path that the write does not refuse confines every state of the write. */
  lemma WriteIsConfined(
      t: Tree, s: Tree, relative: string, root: Path, agent: Option<string>, p: Path, id: string, content: seq<byte>)
    requires WellFormed(t) && PlainPath(EffectiveRoot(root, agent)) && IsDir(t, root)
    requires IsDir(t, EffectiveRoot(root, agent))
    requires NewWorkspacePath(t, relative, root, agent) == Ok(p) && p != [] && UnusedId(t, id)
    requires Settled(t, p) && !(p in t && t[p] == Dir)
    requires Between(t, s, p, TempPath(p, id), content)
    ensures Confined(t, s, RootOf(t, EffectiveRoot(root, agent)))
  {
    var base := RootOf(t, EffectiveRoot(root, agent));
    FootprintInside(t, relative, root, agent, id);
    TempUnused(t, p, id);
    forall q | Differs(t, s, q) ensures base <= q && q != base {
      ChangesInFootprint(t, s, p, id, content, q);
    }
  }

  /**
   * Validation and write as the pipeline chains them, with the agent's directory in place. Every state
   * on the way is confined to that directory.
   */
  method WriteAction(
      disk: Volume, relative: string, root: Path, agent: Option<string>, content: seq<byte>, id: string,
      fault: Fault)
    returns (r: Result<nat, AmaError>)
    requires disk.Valid() && PlainPath(EffectiveRoot(root, agent)) && IsDir(disk.tree, root)
    requires IsDir(disk.tree, EffectiveRoot(root, agent))
    requires UnusedId(disk.tree, id)
    modifies disk
    ensures disk.Valid()
    ensures |old(disk.trail)| <= |disk.trail| && disk.trail[..|old(disk.trail)|] == old(disk.trail)
    ensures forall k :: |old(disk.trail)| <= k < |disk.trail| ==>
              Confined(old(disk.tree), disk.trail[k], RootOf(old(disk.tree), EffectiveRoot(root, agent)))
    ensures r.Ok? ==> var p := NewWorkspacePath(old(disk.tree), relative, root, agent);
                      && p.Ok? && p.value in disk.tree && disk.tree[p.value] == File(content)
    ensures r.Err? ==> r.error.Validation? || r.error.ServiceUnavailable?
  {
    ghost var t, trail := disk.tree, disk.trail;
    var path := NewWorkspacePath(disk.tree, relative, root, agent);
    if path.Err? {
      return Err(path.error);
    }
    var p := path.value;
    AcceptedPath(t, relative, root, agent);
    if p != [] {
      TempUnused(t, p, id);
    }
    r := FileWrite(disk, p, content, id, fault);
    if r != Err(InvalidTarget()) {
      forall k | |trail| <= k < |disk.trail|
        ensures Confined(t, disk.trail[k], RootOf(t, EffectiveRoot(root, agent)))
      {
        WriteIsConfined(t, disk.trail[k], relative, root, agent, p, id, content);
      }
    }
  }

  lemma SameBranch(base: Path, a: Name, b: Name, q: Path)
    requires base + [a] <= q && base + [b] <= q
    ensures a == b
  {
    assert (base + [a])[|base|] == q[|base|] == (base + [b])[|base|];
  }

  /**
   * Isolation: two agents with different valid ids, whose roots are real directories of the workspace,
   * never touch a common location, whatever each of them writes.
   */
  lemma AgentsNeverCollide(
      t: Tree, root: Path, unicode: char -> bool, q: Path,
      a: string, relative: string, p: Path, id: string, content: seq<byte>, s: Tree,
      b: string, relative': string, p': Path, id': string, content': seq<byte>, s': Tree)
    requires WellFormed(t) && PlainPath(root) && IsDir(t, root)
    requires AgentIdOk(a, unicode) && AgentIdOk(b, unicode) && a != b
    requires Locate(t, root).at + [a] in t && t[Locate(t, root).at + [a]] == Dir
    requires Locate(t, root).at + [b] in t && t[Locate(t, root).at + [b]] == Dir
    requires NewWorkspacePath(t, relative, root, Some(a)) == Ok(p) && p != [] && Settled(t, p)
    requires !(p in t && t[p] == Dir)
    requires NewWorkspacePath(t, relative', root, Some(b)) == Ok(p') && p' != [] && Settled(t, p')
    requires !(p' in t && t[p'] == Dir)
    requires UnusedId(t, id) && Between(t, s, p, TempPath(p, id), content)
    requires UnusedId(t, id') && Between(t, s', p', TempPath(p', id'), content')
    ensures p != p' && !(Differs(t, s, q) && Differs(t, s', q))
  {
    var base := Locate(t, root).at;
    AgentIdIsPlain(a, unicode);
    AgentIdIsPlain(b, unicode);
    RealRoot(t, root, a);
    RealRoot(t, root, b);
    AgentsAreDisjoint(t, root, a, b, relative, relative');
    WriteIsConfined(t, s, relative, root, Some(a), p, id, content);
    WriteIsConfined(t, s', relative', root, Some(b), p', id', content');
    if Differs(t, s, q) && Differs(t, s', q) {
      SameBranch(base, a, b, q);
    }
  }

  // ---- What the checks accept, and why both and the agent's directory are needed ---------------

  lemma {:induction false} NormalOfPlain(p: Path)
    requires PlainPath(p)
    ensures Normal(p) == p
  {
    if p != [] {
      assert Plain(p[0]);
      NormalOfPlain(p[1..]);
    }
  }

  lemma SettledIsCanonical(t: Tree, p: Path)
    requires WellFormed(t) && PlainPath(p) && p != [] && Settled(t, p)
    ensures Canonical(t, p) == Some(p)
  {
    NormalOfPlain(p);
    SettledParent(t, p);
    assert p[..|p|] == p && Parent(p) + [p[|p| - 1]] == p && p[|p| - 1] in p;
    if Exists(t, p) {
      LocatePhysical(t, p);
    } else if Exists(t, Parent(p)) {
      LocatePhysical(t, Parent(p));
    }
  }

  /** The checks refuse nothing ordinary: a path of plain components below the agent's directory that no
      existing link lies on is accepted as it is. */
  lemma LinkFreePathAccepted(t: Tree, relative: string, root: Path, agent: Option<string>)
    requires WellFormed(t) && EffectiveRoot(root, agent) in t && t[EffectiveRoot(root, agent)] == Dir
    requires Acceptable(relative) && PlainPath(Split(relative, SLASH))
    requires Settled(t, EffectiveRoot(root, agent) + Split(relative, SLASH))
    ensures NewWorkspacePath(t, relative, root, agent) == Ok(EffectiveRoot(root, agent) + Split(relative, SLASH))
  {
    var effective := EffectiveRoot(root, agent);
    PhysicalIsPlain(t, effective);
    LocatePhysical(t, effective);
    SettledIsCanonical(t, effective + Split(relative, SLASH));
  }

  /** A link inside the agent's directory to a file beside it is resolved: the request is for that file, and
      the second check lets it through. */
  lemma LinkInsideIsResolved(t: Tree, root: Path, agent: Option<string>, l: Name, r: Name)
    requires WellFormed(t) && EffectiveRoot(root, agent) in t && t[EffectiveRoot(root, agent)] == Dir
    requires Plain(l) && TextOk(l) && '/' !in l && EffectiveRoot(root, agent) + [l] in t
    requires t[EffectiveRoot(root, agent) + [l]] == Link(false, [r])
    requires EffectiveRoot(root, agent) + [r] in t && t[EffectiveRoot(root, agent) + [r]].File?
    ensures NewWorkspacePath(t, l, root, agent) == Ok(EffectiveRoot(root, agent) + [r])
    ensures Settled(t, EffectiveRoot(root, agent) + [r])
  {
    var base := EffectiveRoot(root, agent);
    var file := base + [r];
    assert root + [] == root && Parent(file) == base && file[|file| - 1] == r;
    LocatePhysical(t, base);
    ResolveSplit(t, [], base, [l], MAX_LINKS);
    assert [l][1..] == [] && [r] + [] == [r];
    ResolvePhysical(t, base, [r], MAX_LINKS - 1);
    assert Join([l]) == l;
    PathOfExisting(t, l, root, agent, base, base, [l]);
    forall n | 0 <= n <= |file| ensures file[..n] in t && !t[file[..n]].Link? {
      if n < |file| {
        PrefixIsDir(t, file, n);
      } else {
        assert file[..n] == file;
      }
    }
  }

  lemma BrokenParent(t: Tree, grand: Path, name: Name, last: Name, at: Path)
    requires WellFormed(t) && Plain(name) && Exists(t, grand) && Locate(t, grand).at == at && t[at] == Dir
    requires at + [name] !in t
    ensures !Exists(t, grand + [name]) && !Exists(t, grand + [name, last])
    ensures Mkdir(t, grand + [name]) == Made(t[at + [name] := Dir])
  {
    var parent := grand + [name];
    assert Parent(parent) == grand && parent + [last] == grand + [name, last];
    ResolveSplit(t, [], grand, [name], MAX_LINKS);
    ResolveSplit(t, [], parent, [last], MAX_LINKS);
  }

  lemma AcceptedAsWritten(t: Tree, relative: string, root: Path, agent: Option<string>, p: Path)
    requires WellFormed(t) && PlainPath(p) && Acceptable(relative)
    requires p == EffectiveRoot(root, agent) + Split(relative, SLASH) && !Exists(t, p) && !Exists(t, Parent(p))
    requires EffectiveRoot(root, agent) in t && t[EffectiveRoot(root, agent)] == Dir
    ensures NewWorkspacePath(t, relative, root, agent) == Ok(p)
  {
    NormalOfPlain(p);
    LocatePhysical(t, EffectiveRoot(root, agent));
  }

  /** Acceptance alone: when a link takes the grandparent of a new path out of the agent's directory, the
      path is accepted as written, and `create_dir_all` would make its parent outside. Only the second
      check refuses it. */
  lemma AcceptanceAloneEscapes(
      t: Tree, relative: string, root: Path, agent: Option<string>, grand: Path, name: Name, last: Name, at: Path)
    requires WellFormed(t) && Acceptable(relative) && PlainPath(grand) && Plain(name) && Plain(last)
    requires EffectiveRoot(root, agent) in t && t[EffectiveRoot(root, agent)] == Dir
    requires EffectiveRoot(root, agent) <= grand
    requires EffectiveRoot(root, agent) + Split(relative, SLASH) == grand + [name, last]
    requires Exists(t, grand) && Locate(t, grand).at == at && t[at] == Dir
    requires at + [name] !in t && !(EffectiveRoot(root, agent) <= at)
    ensures NewWorkspacePath(t, relative, root, agent) == Ok(grand + [name, last])
    ensures Mkdir(t, grand + [name]) == Made(t[at + [name] := Dir])
    ensures !Settled(t, grand + [name, last])
  {
    var p := grand + [name, last];
    BrokenParent(t, grand, name, last, at);
    assert Parent(p) == grand + [name];
    AcceptedAsWritten(t, relative, root, agent, p);
    assert p[..|grand|] == grand;
    if Settled(t, p) {
      LocatePhysical(t, grand);
      assert false;
    }
  }

  lemma DotPiece(seps: set<char>)
    requires '.' !in seps
    ensures Split(".", seps) == ["."]
  {
    var rest := Split("."[1..], seps);
    assert "."[1..] == [] && rest == [[]] && rest[1..] == [];
    assert ['.'] + rest[0] == ".";
  }

  /** The path `.` when the agent's directory is missing. */
  lemma DotIsRoot(t: Tree, root: Path, agent: string)
    requires WellFormed(t) && root in t && t[root] == Dir && Plain(agent) && root + [agent] !in t
    ensures !Exists(t, root + [agent]) && NewWorkspacePath(t, ".", root, Some(agent)) == Ok(root + [agent])
  {
    var p := root + [agent];
    assert Parent(p) == root;
    PhysicalIsPlain(t, root);
    LocatePhysical(t, root);
    ResolveSplit(t, [], root, [agent], MAX_LINKS);
    ResolveSplit(t, [], p, ["."], MAX_LINKS);
    DotPiece(SLASH);
    DotPiece(SLASHES);
    NormalOfPlain(p);
    NormalDot(p);
  }

  /** Without the agent's directory, the path `.` stands for that directory: a write would put a regular
      file there, through a temporary file beside it. */
  lemma MissingRootLeaks(t: Tree, root: Path, agent: string, id: string)
    requires WellFormed(t) && root in t && t[root] == Dir && Plain(agent) && root + [agent] !in t
    ensures NewWorkspacePath(t, ".", root, Some(agent)) == Ok(root + [agent])
    ensures Writable(t, root + [agent])
    ensures !(RootOf(t, root + [agent]) <= TempPath(root + [agent], id))
  {
    var p := root + [agent];
    assert Parent(p) == root;
    DotIsRoot(t, root, agent);
    assert p[..|p|] == p;
    AllDirs(t, root);
    forall n | 0 <= n <= |p| && Exists(t, p[..n]) ensures p[..n] in t && !t[p[..n]].Link? {
      PrefixNotLink(t, root, p, n);
    }
    TempIsNew(p, id);
  }

  lemma {:induction false} NormalDot(p: Path)
    ensures Normal(p + ["."]) == Normal(p)
  {
    if p != [] {
      assert (p + ["."])[1..] == p[1..] + ["."];
      NormalDot(p[1..]);
    } else {
      assert p + ["."] == ["."] && ["."][1..] == [];
    }
  }
}
