/** The file actuator's write: the second path check, parent directories, temporary file, rename. */
module FileActuator {
  import opened Common
  import opened Errors
  import opened FileTree
  import opened Workspace
  import opened Disk

  // ---- The path check --------------------------------------------------------------------------

  /** What `verify_no_symlinks` tests: no prefix that exists is a link. */
  ghost predicate NoLiveLink(t: Tree, p: Path) {
    forall n {:trigger p[..n]} :: 0 <= n <= |p| ==> !(Exists(t, p[..n]) && IsLink(t, p[..n]))
  }

  /** What that means: every prefix that exists is its own physical location. */
  ghost predicate Settled(t: Tree, p: Path) {
    forall n {:trigger p[..n]} :: 0 <= n <= |p| && Exists(t, p[..n]) ==> p[..n] in t && !t[p[..n]].Link?
  }

  /** Below a physical directory, an existing plain name is an entry of it. */
  lemma ExistsBelow(t: Tree, p: Path)
    requires WellFormed(t) && p != [] && Plain(p[|p| - 1]) && Exists(t, p)
    requires Parent(p) in t && !t[Parent(p)].Link?
    ensures p in t && EntryOf(t, p) == Some(p)
  {
    ResolveSplit(t, [], Parent(p), [p[|p| - 1]], MAX_LINKS);
    assert Parent(p) + [p[|p| - 1]] == p;
    LocatePhysical(t, Parent(p));
    EntryPhysical(t, p);
  }

  lemma {:induction false} NoLiveLinkSettles(t: Tree, p: Path)
    requires WellFormed(t) && PlainPath(p) && NoLiveLink(t, p)
    ensures Exists(t, p) ==> p in t && !t[p].Link?
  {
    assert p[..|p|] == p;
    if p != [] && Exists(t, p) {
      var q := Parent(p);
      assert forall n :: 0 <= n <= |q| ==> q[..n] == p[..n];
      ExistsPrefix(t, p, |p| - 1);
      NoLiveLinkSettles(t, q);
      ExistsBelow(t, p);
    }
  }

  lemma SettledIffNoLiveLink(t: Tree, p: Path)
    requires WellFormed(t) && PlainPath(p)
    ensures Settled(t, p) <==> NoLiveLink(t, p)
  {
    if NoLiveLink(t, p) {
      forall n | 0 <= n <= |p| && Exists(t, p[..n]) ensures p[..n] in t && !t[p[..n]].Link? {
        assert forall m :: 0 <= m <= n ==> p[..n][..m] == p[..m];
        NoLiveLinkSettles(t, p[..n]);
      }
    }
    if Settled(t, p) {
      forall n | 0 <= n <= |p| && Exists(t, p[..n]) ensures !IsLink(t, p[..n]) {
        if n > 0 {
          assert Parent(p[..n]) in t;
          EntryPhysical(t, p[..n]);
        }
      }
    }
  }

  /** Checks every ancestor, from the root down. */
  method VerifyNoSymlinks(t: Tree, p: Path) returns (clean: bool)
    requires WellFormed(t) && PlainPath(p)
    ensures clean <==> Settled(t, p)
  {
    SettledIffNoLiveLink(t, p);
    var check: Path := [];
    var i := 0;
    while true
      invariant 0 <= i <= |p| && check == p[..i]
      invariant forall n {:trigger p[..n]} :: 0 <= n < i ==> !(Exists(t, p[..n]) && IsLink(t, p[..n]))
      decreases |p| - i
    {
      if Exists(t, check) && IsLink(t, check) {
        return false;
      }
      if i == |p| {
        return true;
      }
      check := check + [p[i]];
      i := i + 1;
    }
  }

  // ---- Parent directories ----------------------------------------------------------------------

  /** Nothing but directories on the way. */
  ghost predicate Clear(t: Tree, p: Path) {
    forall q :: q in t && q <= p ==> t[q] == Dir
  }

  /** `t` with every prefix of `p` a directory. */
  ghost function WithDirs(t: Tree, p: Path): Tree {
    map q | q in t.Keys + (set n | 0 <= n <= |p| :: p[..n]) :: if q in t then t[q] else Dir
  }

  lemma WithDirsAt(t: Tree, p: Path, q: Path)
    ensures q in WithDirs(t, p) <==> q in t || q <= p
    ensures q in WithDirs(t, p) ==> WithDirs(t, p)[q] == if q in t then t[q] else Dir
  {
    if q <= p {
      assert q == p[..|q|];
    }
  }

  /** `s` is `t` with some prefixes of `p` made directories. */
  ghost predicate DirsAdded(t: Tree, s: Tree, p: Path) {
    && (forall q :: q in t ==> q in s && s[q] == t[q])
    && (forall q :: q in s && q !in t ==> q <= p && s[q] == Dir)
  }

  lemma AllDirs(t: Tree, p: Path)
    requires WellFormed(t) && p in t
    ensures Clear(t, p) <==> t[p] == Dir
    ensures WithDirs(t, p) == t
  {
    forall q | q <= p && q != p ensures q in t && t[q] == Dir {
      PrefixIsDir(t, p, |q|);
      assert q == p[..|q|];
    }
    assert p <= p;
    forall q ensures q in WithDirs(t, p) <==> q in t {
      WithDirsAt(t, p, q);
    }
  }

  lemma PrefixOrWhole(p: Path, q: Path)
    requires p != []
    ensures q <= p <==> q <= Parent(p) || q == p
  {
    if q <= p && q != p {
      assert q == p[..|q|] == Parent(p)[..|q|];
    }
  }

  lemma OneDirMore(t: Tree, p: Path)
    requires p != [] && p !in t
    ensures WithDirs(t, p) == WithDirs(t, Parent(p))[p := Dir]
    ensures Clear(t, p) <==> Clear(t, Parent(p))
  {
    forall q ensures q in WithDirs(t, p) <==> q in WithDirs(t, Parent(p)) || q == p {
      PrefixOrWhole(p, q);
      WithDirsAt(t, p, q);
      WithDirsAt(t, Parent(p), q);
    }
    forall q | q in t ensures q <= p <==> q <= Parent(p) {
      PrefixOrWhole(p, q);
    }
  }

  lemma {:induction false} ClearNotBlocked(t: Tree, cur: Path, rest: Path, links: nat)
    requires cur in t && t[cur] == Dir && PlainPath(rest) && Clear(t, cur + rest)
    ensures !Resolve(t, cur, rest, links).Blocked?
    decreases |rest|
  {
    if rest != [] {
      assert Plain(rest[0]);
    }
    if rest != [] && cur + [rest[0]] in t {
      assert cur + [rest[0]] + rest[1..] == cur + rest;
      assert cur + [rest[0]] <= cur + rest;
      ClearNotBlocked(t, cur + [rest[0]], rest[1..], links);
    }
  }

  lemma SettledParent(t: Tree, p: Path)
    requires Settled(t, p) && p != []
    ensures Settled(t, Parent(p)) && (Exists(t, Parent(p)) ==> Parent(p) in t && !t[Parent(p)].Link?)
  {
    assert forall n :: 0 <= n <= |Parent(p)| ==> Parent(p)[..n] == p[..n];
    assert p[..|p| - 1] == Parent(p);
  }

  lemma UnderPhysicalDir(t: Tree, p: Path)
    requires WellFormed(t) && Settled(t, p) && p != [] && Parent(p) in t && t[Parent(p)] == Dir
    ensures Mkdir(t, p) == if p in t then Refused else Made(t[p := Dir])
    ensures p in t ==> (IsDir(t, p) <==> Clear(t, p))
  {
    LocatePhysical(t, Parent(p));
    EntryPhysical(t, p);
    if p in t {
      AllDirs(t, p);
      assert p[..|p|] == p;
      if !t[p].Link? {
        LocatePhysical(t, p);
      }
    }
  }

  lemma NotUnderDir(t: Tree, p: Path)
    requires WellFormed(t) && Settled(t, p) && PlainPath(p) && p != [] && !(Parent(p) in t && t[Parent(p)] == Dir)
    ensures p !in t && !Mkdir(t, p).Made? && !IsDir(t, p)
    ensures Mkdir(t, p).Refused? ==> !Clear(t, p)
    ensures Mkdir(t, p).ParentMissing? ==> !Exists(t, Parent(p))
  {
    var q := Parent(p);
    SettledParent(t, p);
    assert q <= p && q + [p[|p| - 1]] == p;
    ResolveSplit(t, [], q, [p[|p| - 1]], MAX_LINKS);
    if q in t && !t[q].Link? {
      LocatePhysical(t, q);
    } else if q !in t && Clear(t, p) {
      OneDirMore(t, p);
      assert [] + q == q;
      ClearNotBlocked(t, [], q, MAX_LINKS);
    }
  }

  /** The cases of `mkdir` on a settled path, and what they leave to `create_dir_all`. */
  lemma MkdirSettled(t: Tree, p: Path)
    requires WellFormed(t) && PlainPath(p) && Settled(t, p)
    ensures Mkdir(t, p).Made? ==> Clear(t, p) && Mkdir(t, p).tree == WithDirs(t, p) && DirsAdded(t, WithDirs(t, p), p)
    ensures Mkdir(t, p).Refused? ==> (IsDir(t, p) <==> Clear(t, p)) && (Clear(t, p) ==> WithDirs(t, p) == t)
    ensures Mkdir(t, p).ParentMissing? ==> p != [] && p !in t && !Exists(t, Parent(p))
  {
    if p == [] || p in t {
      AllDirs(t, p);
    }
    if p != [] {
      if Parent(p) in t && t[Parent(p)] == Dir {
        UnderPhysicalDir(t, p);
        if p !in t {
          AllDirs(t, Parent(p));
          OneDirMore(t, p);
        }
      } else {
        NotUnderDir(t, p);
      }
    }
  }

  /** Once the parents are there, the last directory is made. */
  lemma MkdirLast(t: Tree, p: Path)
    requires p != [] && p !in t && Clear(t, Parent(p)) && WellFormed(WithDirs(t, Parent(p)))
    ensures Mkdir(WithDirs(t, Parent(p)), p) == Made(WithDirs(t, p))
    ensures DirsAdded(t, WithDirs(t, p), p)
  {
    var t' := WithDirs(t, Parent(p));
    WithDirsAt(t, Parent(p), Parent(p));
    WithDirsAt(t, Parent(p), p);
    OneDirMore(t, p);
    LocatePhysical(t', Parent(p));
    EntryPhysical(t', p);
  }

  /** `after` goes on from `before` through states of `DirsAdded`. */
  ghost predicate GrowsDirs(before: seq<Tree>, after: seq<Tree>, t: Tree, p: Path) {
    && |before| <= |after| && after[..|before|] == before
    && forall k :: |before| <= k < |after| ==> DirsAdded(t, after[k], p)
  }

  lemma GrowsMore(before: seq<Tree>, after: seq<Tree>, t: Tree, q: Path, p: Path, s: Tree)
    requires GrowsDirs(before, after, t, q) && q <= p && DirsAdded(t, s, p)
    ensures GrowsDirs(before, after, t, p) && GrowsDirs(before, after + [s], t, p)
  {
    forall k | |before| <= k < |after| ensures DirsAdded(t, after[k], p) {
      assert DirsAdded(t, after[k], q);
    }
  }

  /** `after` goes on from `before` by making prefixes of `p`. */
  ghost predicate MakesDirs(before: seq<Call>, after: seq<Call>, p: Path) {
    && |before| <= |after| && after[..|before|] == before
    && forall k {:trigger after[k]} :: |before| <= k < |after| ==> after[k].MkdirCall? && after[k].p <= p
  }

  lemma MakesMore(before: seq<Call>, after: seq<Call>, q: Path, p: Path)
    requires MakesDirs(before, after, q) && q <= p
    ensures MakesDirs(before, after, p) && MakesDirs(before, after + [MkdirCall(p)], p)
  {
    var more := after + [MkdirCall(p)];
    assert more[..|before|] == after[..|before|];
    forall k {:trigger more[k]} | |before| <= k < |more| ensures more[k].MkdirCall? && more[k].p <= p {
      assert k < |after| ==> more[k] == after[k];
    }
  }

  /** `create_dir_all`, after the path check: all prefixes become directories, or nothing changes. */
  method CreateDirAll(disk: Volume, p: Path) returns (ok: bool)
    requires disk.Valid() && PlainPath(p) && Settled(disk.tree, p)
    modifies disk
    ensures disk.Valid()
    ensures ok <==> Clear(old(disk.tree), p)
    ensures disk.tree == if ok then WithDirs(old(disk.tree), p) else old(disk.tree)
    ensures GrowsDirs(old(disk.trail), disk.trail, old(disk.tree), p)
    ensures MakesDirs(old(disk.calls), disk.calls, p)
    decreases |p|
  {
    ghost var t := disk.tree;
    MkdirSettled(t, p);
    var made := disk.MakeDir(p);
    if made.ParentMissing? {
      SettledParent(t, p);
      OneDirMore(t, p);
      ok := CreateDirAll(disk, Parent(p));
      GrowsMore(old(disk.trail), disk.trail, t, Parent(p), p, t);
      MakesMore(old(disk.calls), disk.calls, Parent(p), p);
      if ok {
        MkdirLast(t, p);
        GrowsMore(old(disk.trail), disk.trail, t, Parent(p), p, WithDirs(t, p));
        made := disk.MakeDir(p);
      }
    } else {
      if made.Made? {
        GrowsMore(old(disk.trail), old(disk.trail), t, p, p, disk.tree);
        MakesMore(old(disk.calls), old(disk.calls), p, p);
      }
      ok := made.Made? || IsDir(disk.tree, p);
    }
  }

  // ---- The write -------------------------------------------------------------------------------

  /** Where the kernel refuses a write (opening the temporary file, one of its octets, the rename), and whether
      it then refuses the removal of the temporary file too. */
  datatype Fault = NoFault | OpenFails | WriteFails(after: nat, stays: bool) | RenameFails(stays: bool)

  predicate Stays(fault: Fault) {
    (fault.WriteFails? || fault.RenameFails?) && fault.stays
  }

  predicate Strikes(fault: Fault, content: seq<byte>) {
    fault.OpenFails? || fault.RenameFails? || (fault.WriteFails? && fault.after < |content|)
  }

  function TempName(name: Name, id: string): Name {
    name + ".ama." + id + ".tmp"
  }

  function TempPath(target: Path, id: string): Path
    requires target != []
  {
    Parent(target) + [TempName(target[|target| - 1], id)]
  }

  /** `s` is `t` with a temporary file that holds a beginning of `content`. */
  ghost predicate HoldsTemp(t: Tree, s: Tree, temp: Path, content: seq<byte>) {
    temp in s && s[temp].File? && s[temp].bytes <= content && s - {temp} == t
  }

  ghost predicate GrowsTemp(before: seq<Tree>, after: seq<Tree>, t: Tree, temp: Path, content: seq<byte>) {
    && |before| <= |after| && after[..|before|] == before
    && forall k :: |before| <= k < |after| ==> HoldsTemp(t, after[k], temp, content)
  }

  /** How far the calls of one write have come. */
  datatype Progress = Parents | Filling(at: Path, done: nat) | Over | Astray

  /** A write makes parents, opens its temporary file, writes the content in order, and ends by renaming the
      whole or removing what there is. */
  function Advance(target: Path, temp: Path, content: seq<byte>, progress: Progress, call: Call): Progress {
    match (progress, call)
    case (Parents, MkdirCall(p)) => if p <= target && p != target then Parents else Astray
    case (Parents, CreateCall(p, at)) => if p == temp then Filling(at, 0) else Astray
    case (Filling(at, done), WriteCall(p, b)) =>
      if p == at && done < |content| && b == content[done] then Filling(at, done + 1) else Astray
    case (Filling(_, _), UnlinkCall(p)) => if p == temp then Over else Astray
    case (Filling(_, done), RenameCall(p, to)) =>
      if p == temp && to == target && done == |content| then Over else Astray
    case _ => Astray
  }

  /** The progress of the calls from position `from` on. */
  function ProgressOf(target: Path, temp: Path, content: seq<byte>, calls: seq<Call>, from: nat): Progress {
    if |calls| <= from then Parents
    else
      Advance(target, temp, content, ProgressOf(target, temp, content, calls[..|calls| - 1], from), calls[|calls| - 1])
  }

  lemma ProgressMore(target: Path, temp: Path, content: seq<byte>, calls: seq<Call>, from: nat, call: Call)
    requires from <= |calls|
    ensures ProgressOf(target, temp, content, calls + [call], from) ==
            Advance(target, temp, content, ProgressOf(target, temp, content, calls, from), call)
  {
    assert (calls + [call])[..|calls|] == calls;
  }

  lemma {:induction false} ProgressOfDirs(
      target: Path, temp: Path, content: seq<byte>, before: seq<Call>, after: seq<Call>)
    requires target != [] && MakesDirs(before, after, Parent(target))
    ensures ProgressOf(target, temp, content, after, |before|) == Parents
  {
    if |before| < |after| {
      var less := after[..|after| - 1];
      assert MakesDirs(before, less, Parent(target)) by {
        assert less[..|before|] == before;
        assert forall k :: |before| <= k < |less| ==> less[k] == after[k];
      }
      ProgressOfDirs(target, temp, content, before, less);
      assert after[|after| - 1].p <= Parent(target) <= target;
    }
  }

  /** The state of a write with its temporary file open. */
  ghost predicate Open(t: Tree, tree: Tree, temp: Path, content: seq<byte>, progress: Progress) {
    && progress.Filling? && progress.at == temp && progress.done <= |content|
    && tree == t[temp := File(content[..progress.done])]
  }

  lemma OpenHolds(t: Tree, tree: Tree, temp: Path, content: seq<byte>, progress: Progress)
    requires Open(t, tree, temp, content, progress) && temp !in t
    ensures HoldsTemp(t, tree, temp, content) && tree != t
  {
    assert tree - {temp} == t;
  }

  lemma OpenMore(t: Tree, tree: Tree, temp: Path, content: seq<byte>, progress: Progress)
    requires Open(t, tree, temp, content, progress) && progress.done < |content|
    ensures temp in tree && tree[temp].File?
    ensures Open(t, Written(tree, temp, content[progress.done]), temp, content, Filling(temp, progress.done + 1))
  {
    var done := progress.done;
    assert content[..done] + [content[done]] == content[..done + 1];
  }

  lemma TempGrows(before: seq<Tree>, after: seq<Tree>, t: Tree, tree: Tree, temp: Path, content: seq<byte>)
    requires GrowsTemp(before, after, t, temp, content) && HoldsTemp(t, tree, temp, content)
    ensures GrowsTemp(before, after + [tree], t, temp, content)
  {
  }

  /** Writes the content to the open temporary file, until a write fails. */
  method Fill(
      disk: Volume, temp: Path, content: seq<byte>, fault: Fault,
      ghost t: Tree, ghost trail: seq<Tree>, ghost target: Path, ghost from: nat)
    returns (ok: bool)
    requires disk.Valid() && temp !in t && from <= |disk.calls| && GrowsTemp(trail, disk.trail, t, temp, content)
    requires Open(t, disk.tree, temp, content, ProgressOf(target, temp, content, disk.calls, from))
    requires ProgressOf(target, temp, content, disk.calls, from) == Filling(temp, 0)
    modifies disk
    ensures disk.Valid() && GrowsTemp(trail, disk.trail, t, temp, content) && old(disk.calls) <= disk.calls
    ensures Open(t, disk.tree, temp, content, ProgressOf(target, temp, content, disk.calls, from))
    ensures ok <==> !(fault.WriteFails? && fault.after < |content|)
    ensures ProgressOf(target, temp, content, disk.calls, from) ==
            Filling(temp, if ok then |content| else fault.after)
  {
    for i := 0 to |content|
      invariant disk.Valid() && GrowsTemp(trail, disk.trail, t, temp, content)
      invariant old(disk.calls) <= disk.calls
      invariant ProgressOf(target, temp, content, disk.calls, from) == Filling(temp, i)
      invariant Open(t, disk.tree, temp, content, Filling(temp, i))
      invariant fault.WriteFails? ==> i <= fault.after
    {
      if fault.WriteFails? && fault.after == i {
        return false;
      }
      ProgressMore(target, temp, content, disk.calls, from, WriteCall(temp, content[i]));
      OpenMore(t, disk.tree, temp, content, Filling(temp, i));
      OpenHolds(t, Written(disk.tree, temp, content[i]), temp, content, Filling(temp, i + 1));
      TempGrows(trail, disk.trail, t, Written(disk.tree, temp, content[i]), temp, content);
      disk.Append(temp, content[i]);
    }
    ok := true;
  }

  /** Opens the temporary file. */
  method OpenFresh(disk: Volume, temp: Path, ghost content: seq<byte>, ghost target: Path, ghost from: nat)
    returns (location: Option<Path>)
    requires disk.Valid() && PlainPath(temp) && temp != [] && temp !in disk.tree
    requires Parent(temp) in disk.tree && !disk.tree[Parent(temp)].Link?
    requires from <= |disk.calls| && ProgressOf(target, temp, content, disk.calls, from) == Parents
    modifies disk
    ensures disk.Valid() && old(disk.calls) <= disk.calls
    ensures location == if old(disk.tree[Parent(temp)]) == Dir then Some(temp) else None
    ensures location.None? ==>
              disk.tree == old(disk.tree) && disk.trail == old(disk.trail) && disk.calls == old(disk.calls)
    ensures location.Some? ==> ProgressOf(target, temp, content, disk.calls, from) == Filling(temp, 0)
    ensures location.Some? ==> Open(old(disk.tree), disk.tree, temp, content, Filling(temp, 0))
    ensures location.Some? ==> GrowsTemp(old(disk.trail), disk.trail, old(disk.tree), temp, content)
  {
    ghost var t, trail := disk.tree, disk.trail;
    OpenNew(t, temp);
    ProgressMore(target, temp, content, disk.calls, from, CreateCall(temp, temp));
    location := disk.Create(temp);
    if location.Some? {
      assert content[..0] == [];
      OpenHolds(t, disk.tree, temp, content, Filling(temp, 0));
      TempGrows(trail, trail, t, disk.tree, temp, content);
    }
  }

  /** `fs::write` of a path with no entry, under a parent that exists. `target` and `from` say which write
      this belongs to. */
  method WriteNew(disk: Volume, temp: Path, content: seq<byte>, fault: Fault, ghost target: Path, ghost from: nat)
    returns (ok: bool)
    requires disk.Valid() && PlainPath(temp) && temp != [] && temp !in disk.tree
    requires Parent(temp) in disk.tree && !disk.tree[Parent(temp)].Link?
    requires from <= |disk.calls| && ProgressOf(target, temp, content, disk.calls, from) == Parents
    modifies disk
    ensures disk.Valid() && old(disk.calls) <= disk.calls
    ensures ok <==> old(disk.tree[Parent(temp)]) == Dir && (Strikes(fault, content) ==> fault.RenameFails?)
    ensures disk.tree == old(disk.tree) || HoldsTemp(old(disk.tree), disk.tree, temp, content)
    ensures ok ==> disk.tree == old(disk.tree)[temp := File(content)]
    ensures GrowsTemp(old(disk.trail), disk.trail, old(disk.tree), temp, content)
    ensures if disk.tree == old(disk.tree) then ProgressOf(target, temp, content, disk.calls, from) == Parents
            else Open(old(disk.tree), disk.tree, temp, content, ProgressOf(target, temp, content, disk.calls, from))
    ensures ok ==> ProgressOf(target, temp, content, disk.calls, from) == Filling(temp, |content|)
    ensures old(disk.tree[Parent(temp)]) == Dir && fault.WriteFails? && fault.after < |content| ==>
              disk.tree == old(disk.tree)[temp := File(content[..fault.after])]
    ensures old(disk.tree[Parent(temp)]) != Dir || (!ok && !fault.WriteFails?) ==> disk.tree == old(disk.tree)
  {
    ghost var t, trail := disk.tree, disk.trail;
    if fault.OpenFails? {
      return false;
    }
    var location := OpenFresh(disk, temp, content, target, from);
    if location.None? {
      return false;
    }
    ok := Fill(disk, location.value, content, fault, t, trail, target, from);
    OpenHolds(t, disk.tree, temp, content, ProgressOf(target, temp, content, disk.calls, from));
    assert content[..|content|] == content;
  }

  lemma OpenNew(t: Tree, temp: Path)
    requires WellFormed(t) && PlainPath(temp) && temp != [] && temp !in t && Parent(temp) in t && !t[Parent(temp)].Link?
    ensures OpenTruncate(t, temp) == if t[Parent(temp)] == Dir then Some((temp, t[temp := File([])])) else None
  {
    var dir, name := Parent(temp), temp[|temp| - 1];
    assert dir + [name] == temp && [] + dir == dir && Plain(name);
    if t[dir] == Dir {
      OpenPhysical(t, [], dir, name, MAX_LINKS);
    } else {
      OpenBlocked(t, [], dir, name, MAX_LINKS);
    }
  }

  /** Nothing can be created under a regular file. */
  lemma {:induction false} OpenBlocked(t: Tree, cur: Path, dir: Path, name: Name, links: nat)
    requires WellFormed(t) && cur + dir in t && t[cur + dir].File?
    ensures OpenTarget(t, cur, dir + [name], links).None?
    decreases |dir|
  {
    if dir == [] {
      assert cur + dir == cur;
    } else {
      EnterPhysical(t, cur, dir);
      assert (dir + [name])[1..] == dir[1..] + [name];
      if |dir| == 1 {
        assert cur + [dir[0]] == cur + dir;
      }
      OpenBlocked(t, cur + [dir[0]], dir[1..], name, links);
    }
  }

  /** When a write can succeed. */
  ghost predicate Writable(t: Tree, target: Path) {
    && target != [] && Settled(t, target) && Clear(t, Parent(target))
    && (target in t ==> t[target] != Dir)
  }

  /** A state a write passes through: outside the temporary file and the target only new parent
      directories, the target as before or with the whole content. */
  ghost predicate Between(t: Tree, s: Tree, target: Path, temp: Path, content: seq<byte>) {
    && (forall q :: q in t && q != target ==> q in s && s[q] == t[q])
    && (forall q :: q in s && q !in t && q != target && q != temp ==> q <= Parent(target) && s[q] == Dir)
    && (temp in s ==> s[temp].File? && s[temp].bytes <= content)
    && (if target in s then s[target] == File(content) || (target in t && s[target] == t[target]) else target !in t)
  }

  ghost predicate Grows(before: seq<Tree>, after: seq<Tree>, t: Tree, target: Path, temp: Path, content: seq<byte>) {
    && |before| <= |after| && after[..|before|] == before
    && forall k :: |before| <= k < |after| ==> Between(t, after[k], target, temp, content)
  }

  lemma TempIsNew(target: Path, id: string)
    requires target != []
    ensures TempPath(target, id) != target && Parent(TempPath(target, id)) == Parent(target)
    ensures !(TempPath(target, id) <= Parent(target)) && !(target <= Parent(target))
  {
    assert TempPath(target, id)[|target| - 1] != target[|target| - 1];
  }

  lemma DirsAreBetween(before: seq<Tree>, after: seq<Tree>, t: Tree, target: Path, id: string, content: seq<byte>)
    requires target != [] && TempPath(target, id) !in t
    requires GrowsDirs(before, after, t, Parent(target))
    ensures Grows(before, after, t, target, TempPath(target, id), content)
  {
    TempIsNew(target, id);
    forall k | |before| <= k < |after| ensures Between(t, after[k], target, TempPath(target, id), content) {
      assert DirsAdded(t, after[k], Parent(target));
    }
  }

  lemma TempIsBetween(t: Tree, s: Tree, s': Tree, target: Path, id: string, content: seq<byte>)
    requires target != [] && TempPath(target, id) !in t && DirsAdded(t, s, Parent(target))
    requires HoldsTemp(s, s', TempPath(target, id), content)
    ensures Between(t, s', target, TempPath(target, id), content)
  {
    TempIsNew(target, id);
    forall q ensures q != TempPath(target, id) ==> (q in s' <==> q in s) && (q in s ==> s'[q] == s[q]) {
      assert q in s' - {TempPath(target, id)} <==> q in s;
    }
  }

  lemma TempsAreBetween(
      before: seq<Tree>, middle: seq<Tree>, after: seq<Tree>, t: Tree, s: Tree, target: Path, id: string,
      content: seq<byte>)
    requires target != [] && TempPath(target, id) !in t && DirsAdded(t, s, Parent(target))
    requires Grows(before, middle, t, target, TempPath(target, id), content)
    requires GrowsTemp(middle, after, s, TempPath(target, id), content)
    ensures Grows(before, after, t, target, TempPath(target, id), content)
  {
    forall k | |before| <= k < |after| ensures Between(t, after[k], target, TempPath(target, id), content) {
      if k < |middle| {
        assert after[k] == middle[k];
      } else {
        TempIsBetween(t, s, after[k], target, id, content);
      }
    }
  }

  /** The test for a regular file, once the path is settled. */
  lemma RegularWhenSettled(t: Tree, p: Path)
    requires WellFormed(t) && PlainPath(p) && Settled(t, p)
    ensures Exists(t, p) && !IsRegular(t, p) <==> p in t && t[p] == Dir
  {
    assert p[..|p|] == p;
    if p in t && t[p] == Dir {
      LocatePhysical(t, p);
    }
    if Exists(t, p) && p != [] {
      assert Parent(p) in t;
      EntryPhysical(t, p);
    }
  }

  /** After `create_dir_all`, or without it when the parent exists. */
  lemma ParentsReady(t: Tree, p: Path)
    requires WellFormed(t) && PlainPath(p) && Settled(t, p) && Exists(t, p)
    ensures p in t && !t[p].Link? && (Clear(t, p) <==> t[p] == Dir) && WithDirs(t, p) == t
  {
    assert p[..|p|] == p;
    AllDirs(t, p);
  }

  lemma ReadyDirs(t: Tree, target: Path)
    requires WellFormed(t) && Settled(t, target) && target != []
    requires Clear(t, Parent(target))
    ensures var s := WithDirs(t, Parent(target));
            && Parent(target) in s && s[Parent(target)] == Dir && DirsAdded(t, s, Parent(target))
            && (target in s <==> target in t) && (target in t ==> s[target] == t[target])
  {
    var p := Parent(target);
    WithDirsAt(t, p, p);
    WithDirsAt(t, p, target);
    forall q ensures q in WithDirs(t, p) <==> q in t || q <= p {
      WithDirsAt(t, p, q);
    }
    assert !(target <= p);
  }

  lemma RemoveTemp(s: Tree, s': Tree, target: Path, id: string, content: seq<byte>)
    requires WellFormed(s) && WellFormed(s') && target != [] && Parent(target) in s && TempPath(target, id) !in s
    requires s[Parent(target)].File? ==> s' == s
    requires s[Parent(target)].File? || s[Parent(target)] == Dir
    requires s' == s || HoldsTemp(s, s', TempPath(target, id), content)
    ensures var u := Unlink(s', TempPath(target, id));
            u.Some? ==> u.value == s
    ensures Unlink(s', TempPath(target, id)).None? <==> s' == s
  {
    var temp := TempPath(target, id);
    TempIsNew(target, id);
    if s' != s {
      assert Parent(target) in s' - {temp};
      EntryPhysical(s', temp);
    } else if s[Parent(target)] == Dir {
      EntryPhysical(s, temp);
    } else {
      LocatePhysical(s, Parent(target));
    }
  }

  lemma RenameTemp(s: Tree, target: Path, id: string, content: seq<byte>)
    requires WellFormed(s) && target != [] && Parent(target) in s && s[Parent(target)] == Dir
    requires TempPath(target, id) !in s && (target in s ==> s[target] != Dir)
    requires WellFormed(s[TempPath(target, id) := File(content)])
    ensures Rename(s[TempPath(target, id) := File(content)], TempPath(target, id), target) ==
              Some(s[target := File(content)])
  {
    var temp := TempPath(target, id);
    var s' := s[temp := File(content)];
    TempIsNew(target, id);
    EntryPhysical(s', temp);
    EntryPhysical(s', target);
    assert (s' - {temp})[target := File(content)] == s[target := File(content)];
  }

  lemma FinalIsBetween(t: Tree, target: Path, id: string, content: seq<byte>)
    requires WellFormed(t) && Settled(t, target) && target != [] && Clear(t, Parent(target))
    requires TempPath(target, id) !in t
    ensures Between(t, WithDirs(t, Parent(target))[target := File(content)], target, TempPath(target, id), content)
    ensures Between(t, WithDirs(t, Parent(target)), target, TempPath(target, id), content)
  {
    TempIsNew(target, id);
    ReadyDirs(t, target);
  }

  /** The tree as it is when no parent had to be made, or none could be. */
  lemma UnchangedIsBetween(t: Tree, target: Path, id: string, content: seq<byte>)
    requires target != [] && TempPath(target, id) !in t
    ensures Between(t, t, target, TempPath(target, id), content)
  {
  }

  lemma GrowsBy(before: seq<Tree>, after: seq<Tree>, t: Tree, target: Path, temp: Path, content: seq<byte>, s: Tree)
    requires Grows(before, after, t, target, temp, content) && Between(t, s, target, temp, content)
    ensures Grows(before, after + [s], t, target, temp, content)
  {
  }

  /** `create_dir_all` of the target's parent, as part of a write. */
  method MakeParents(disk: Volume, target: Path, content: seq<byte>, id: string) returns (ok: bool)
    requires disk.Valid() && target != [] && PlainPath(Parent(target)) && Settled(disk.tree, Parent(target))
    requires TempPath(target, id) !in disk.tree
    modifies disk
    ensures disk.Valid() && old(disk.calls) <= disk.calls && (ok <==> Clear(old(disk.tree), Parent(target)))
    ensures disk.tree == if ok then WithDirs(old(disk.tree), Parent(target)) else old(disk.tree)
    ensures Grows(old(disk.trail), disk.trail, old(disk.tree), target, TempPath(target, id), content)
    ensures ProgressOf(target, TempPath(target, id), content, disk.calls, |old(disk.calls)|) == Parents
  {
    ghost var t, trail, calls := disk.tree, disk.trail, disk.calls;
    ok := CreateDirAll(disk, Parent(target));
    DirsAreBetween(trail, disk.trail, t, target, id, content);
    ProgressOfDirs(target, TempPath(target, id), content, calls, disk.calls);
  }

  /** What a failed write leaves in `s`, the tree with its parents in place: the source ignores whether the
      removal of the temporary file succeeds. */
  function Debris(s: Tree, temp: Path, content: seq<byte>, fault: Fault): Tree {
    match fault
    case WriteFails(after, true) => if after < |content| then s[temp := File(content[..after])] else s
    case RenameFails(true) => s[temp := File(content)]
    case _ => s
  }

  /**
   * `file_write`. The action's id is a fresh UUID, so the temporary name is not in use. It succeeds
   * exactly when the path is settled, its parents are or can be directories, no directory stands in
   * its place, and nothing fails underneath; then the file holds the content and nothing but missing
   * parents was added. A refused path changes nothing. Any other failure leaves at most the parents and,
   * if its removal fails as well, the temporary file with what had been written.
   */
  method FileWrite(
      disk: Volume, target: Path, content: seq<byte>, id: string, fault: Fault) returns (r: Result<nat, AmaError>)
    requires disk.Valid() && PlainPath(target)
    requires target != [] ==> TempPath(target, id) !in disk.tree
    modifies disk
    ensures disk.Valid()
    ensures r.Ok? <==> Writable(old(disk.tree), target) && !Strikes(fault, content)
    ensures r.Ok? ==>
              r.value == |content| && disk.tree == WithDirs(old(disk.tree), Parent(target))[target := File(content)]
    ensures r == Err(InvalidTarget()) <==>
              !Settled(old(disk.tree), target) || (target in old(disk.tree) && old(disk.tree)[target] == Dir)
    ensures r == Err(InvalidTarget()) ==> disk.tree == old(disk.tree) && disk.trail == old(disk.trail)
    ensures r.Err? && r != Err(InvalidTarget()) ==>
              && r.error.ServiceUnavailable? && target != []
              && disk.tree == if Clear(old(disk.tree), Parent(target)) then
                                Debris(WithDirs(old(disk.tree), Parent(target)), TempPath(target, id), content, fault)
                              else old(disk.tree)
    ensures target != [] ==> Grows(old(disk.trail), disk.trail, old(disk.tree), target, TempPath(target, id), content)
    ensures old(disk.calls) <= disk.calls
    ensures target != [] ==>
              ProgressOf(target, TempPath(target, id), content, disk.calls, |old(disk.calls)|) != Astray
  {
    ghost var t, trail, calls := disk.tree, disk.trail, disk.calls;
    var clean := VerifyNoSymlinks(disk.tree, target);
    if !clean {
      return Err(InvalidTarget());
    }
    RegularWhenSettled(disk.tree, target);
    if Exists(disk.tree, target) && !IsRegular(disk.tree, target) {
      return Err(InvalidTarget());
    }
    var parent := Parent(target);
    SettledParent(t, target);
    if !Exists(disk.tree, parent) {
      var ok := MakeParents(disk, target, content, id);
      if !ok {
        return Err(ServiceUnavailable(Text([])));
      }
    } else {
      ParentsReady(t, parent);
    }
    r := Replace(disk, t, trail, |calls|, target, content, id, fault);
  }

  /** The rest of the write, from the temporary file on. The write began at `t`, `trail` and call `from`. */
  method Replace(
      disk: Volume, ghost t: Tree, ghost trail: seq<Tree>, ghost from: nat, target: Path, content: seq<byte>,
      id: string, fault: Fault)
    returns (r: Result<nat, AmaError>)
    requires disk.Valid() && PlainPath(target) && target != [] && WellFormed(t) && Settled(t, target)
    requires target in t ==> t[target] != Dir
    requires TempPath(target, id) !in t
    requires disk.tree == if Clear(t, Parent(target)) then WithDirs(t, Parent(target)) else t
    requires !Clear(t, Parent(target)) ==> Parent(target) in t && t[Parent(target)].File?
    requires Grows(trail, disk.trail, t, target, TempPath(target, id), content)
    requires from <= |disk.calls| && ProgressOf(target, TempPath(target, id), content, disk.calls, from) == Parents
    modifies disk
    ensures disk.Valid()
    ensures r.Ok? <==> Clear(t, Parent(target)) && !Strikes(fault, content)
    ensures r.Ok? ==> r.value == |content| && disk.tree == old(disk.tree)[target := File(content)]
    ensures r.Err? ==> r.error.ServiceUnavailable?
    ensures r.Err? ==> disk.tree == if Clear(t, Parent(target)) then
                                      Debris(old(disk.tree), TempPath(target, id), content, fault)
                                    else old(disk.tree)
    ensures Grows(trail, disk.trail, t, target, TempPath(target, id), content)
    ensures old(disk.calls) <= disk.calls
    ensures ProgressOf(target, TempPath(target, id), content, disk.calls, from) != Astray
  {
    ghost var s := disk.tree;
    if Clear(t, Parent(target)) {
      ReadyDirs(t, target);
      FinalIsBetween(t, target, id, content);
    }
    TempIsNew(target, id);
    var ok := WriteBeside(disk, t, trail, from, target, content, id, fault);
    if ok && !fault.RenameFails? {
      ok := Land(disk, t, s, trail, from, target, content, id);
      return Ok(|content|);
    }
    UnchangedIsBetween(t, target, id, content);
    CleanUp(disk, t, s, trail, from, target, content, id, fault);
    r := Err(ServiceUnavailable(Text([])));
  }

  /** What a failed write leaves in `s`, where the target's parent is a directory or stands in the way. */
  function LeftBehind(s: Tree, target: Path, content: seq<byte>, id: string, fault: Fault): Tree
    requires target != [] && Parent(target) in s
  {
    if s[Parent(target)] == Dir then Debris(s, TempPath(target, id), content, fault) else s
  }

  /** The content into the temporary file beside the target. */
  method WriteBeside(
      disk: Volume, ghost t: Tree, ghost trail: seq<Tree>, ghost from: nat, target: Path, content: seq<byte>,
      id: string, fault: Fault)
    returns (ok: bool)
    requires disk.Valid() && PlainPath(target) && target != [] && TempPath(target, id) !in t
    requires TempPath(target, id) !in disk.tree && DirsAdded(t, disk.tree, Parent(target))
    requires Parent(target) in disk.tree && !disk.tree[Parent(target)].Link?
    requires Grows(trail, disk.trail, t, target, TempPath(target, id), content)
    requires from <= |disk.calls| && ProgressOf(target, TempPath(target, id), content, disk.calls, from) == Parents
    modifies disk
    ensures disk.Valid() && old(disk.calls) <= disk.calls
    ensures Grows(trail, disk.trail, t, target, TempPath(target, id), content)
    ensures ok <==> old(disk.tree[Parent(target)]) == Dir && (Strikes(fault, content) ==> fault.RenameFails?)
    ensures if disk.tree == old(disk.tree) then
              ProgressOf(target, TempPath(target, id), content, disk.calls, from) == Parents
            else Open(old(disk.tree), disk.tree, TempPath(target, id), content,
                      ProgressOf(target, TempPath(target, id), content, disk.calls, from))
    ensures ok ==> disk.tree == old(disk.tree)[TempPath(target, id) := File(content)]
    ensures ok ==> ProgressOf(target, TempPath(target, id), content, disk.calls, from) ==
                   Filling(TempPath(target, id), |content|)
    ensures (!ok || fault.RenameFails?) && Stays(fault) ==>
              disk.tree == LeftBehind(old(disk.tree), target, content, id, fault)
    ensures old(disk.tree[Parent(target)]) != Dir ==> disk.tree == old(disk.tree)
  {
    ghost var s, middle := disk.tree, disk.trail;
    TempIsNew(target, id);
    ok := WriteNew(disk, TempPath(target, id), content, fault, target, from);
    TempsAreBetween(trail, middle, disk.trail, t, s, target, id, content);
  }

  /** Renames the whole temporary file onto the target. */
  method Land(
      disk: Volume, ghost t: Tree, ghost s: Tree, ghost trail: seq<Tree>, ghost from: nat,
      target: Path, content: seq<byte>, id: string)
    returns (ok: bool)
    requires disk.Valid() && target != [] && Plain(target[|target| - 1]) && TempPath(target, id) !in s
    requires WellFormed(s) && Parent(target) in s && s[Parent(target)] == Dir && (target in s ==> s[target] != Dir)
    requires disk.tree == s[TempPath(target, id) := File(content)] && from <= |disk.calls|
    requires ProgressOf(target, TempPath(target, id), content, disk.calls, from) ==
              Filling(TempPath(target, id), |content|)
    requires Grows(trail, disk.trail, t, target, TempPath(target, id), content)
    requires Between(t, s[target := File(content)], target, TempPath(target, id), content)
    modifies disk
    ensures ok && disk.Valid() && disk.tree == s[target := File(content)] && old(disk.calls) <= disk.calls
    ensures Grows(trail, disk.trail, t, target, TempPath(target, id), content)
    ensures ProgressOf(target, TempPath(target, id), content, disk.calls, from) == Over
  {
    var temp := TempPath(target, id);
    RenameTemp(s, target, id, content);
    ProgressMore(target, temp, content, disk.calls, from, RenameCall(temp, target));
    GrowsBy(trail, disk.trail, t, target, temp, content, s[target := File(content)]);
    ok := disk.Move(temp, target);
  }

  /** After a failure: removes the temporary file, unless that fails too. */
  method CleanUp(
      disk: Volume, ghost t: Tree, ghost s: Tree, ghost trail: seq<Tree>, ghost from: nat,
      target: Path, content: seq<byte>, id: string, fault: Fault)
    requires disk.Valid() && target != [] && WellFormed(s) && Parent(target) in s && TempPath(target, id) !in s
    requires s[Parent(target)] == Dir || (s[Parent(target)].File? && disk.tree == s)
    requires from <= |disk.calls|
    requires if disk.tree == s then ProgressOf(target, TempPath(target, id), content, disk.calls, from) == Parents
             else Open(s, disk.tree, TempPath(target, id), content,
                       ProgressOf(target, TempPath(target, id), content, disk.calls, from))
    requires Grows(trail, disk.trail, t, target, TempPath(target, id), content)
    requires Between(t, s, target, TempPath(target, id), content)
    requires Stays(fault) ==> disk.tree == LeftBehind(s, target, content, id, fault)
    modifies disk
    ensures disk.Valid() && disk.tree == LeftBehind(s, target, content, id, fault) && old(disk.calls) <= disk.calls
    ensures Grows(trail, disk.trail, t, target, TempPath(target, id), content)
    ensures ProgressOf(target, TempPath(target, id), content, disk.calls, from) != Astray
  {
    if !Stays(fault) {
      Discard(disk, t, s, trail, from, target, content, id);
    }
  }

  /** Removes the temporary file, if there is one, and so returns to the tree `s` before it was opened. */
  method Discard(
      disk: Volume, ghost t: Tree, ghost s: Tree, ghost trail: seq<Tree>, ghost from: nat,
      target: Path, content: seq<byte>, id: string)
    requires disk.Valid() && target != [] && WellFormed(s) && Parent(target) in s && TempPath(target, id) !in s
    requires s[Parent(target)] == Dir || (s[Parent(target)].File? && disk.tree == s)
    requires from <= |disk.calls|
    requires if disk.tree == s then ProgressOf(target, TempPath(target, id), content, disk.calls, from) == Parents
             else Open(s, disk.tree, TempPath(target, id), content,
                       ProgressOf(target, TempPath(target, id), content, disk.calls, from))
    requires Grows(trail, disk.trail, t, target, TempPath(target, id), content)
    requires Between(t, s, target, TempPath(target, id), content)
    modifies disk
    ensures disk.Valid() && disk.tree == s && old(disk.calls) <= disk.calls
    ensures Grows(trail, disk.trail, t, target, TempPath(target, id), content)
    ensures ProgressOf(target, TempPath(target, id), content, disk.calls, from) != Astray
  {
    var temp := TempPath(target, id);
    if disk.tree != s {
      OpenHolds(s, disk.tree, temp, content, ProgressOf(target, temp, content, disk.calls, from));
    }
    RemoveTemp(s, disk.tree, target, id, content);
    GrowsBy(trail, disk.trail, t, target, temp, content, s);
    ProgressMore(target, temp, content, disk.calls, from, UnlinkCall(temp));
    var ok := disk.Remove(temp);
  }
}
