/** The file system the daemon works on, changed one kernel call at a time. */
module Disk {
  import opened Common
  import opened FileTree

  /** The last component `open` creates is a plain name in an existing directory. */
  lemma {:induction false} OpenTargetParent(t: Tree, cur: Path, rest: Path, links: nat)
    requires WellFormed(t)
    ensures var e := OpenTarget(t, cur, rest, links);
            e.Some? ==>
              e.value != [] && Parent(e.value) in t && t[Parent(e.value)] == Dir && Plain(e.value[|e.value| - 1])
    decreases links, |rest|
  {
    if cur in t && rest != [] && t[cur] == Dir {
      if rest[0] == "" || rest[0] == "." {
        OpenTargetParent(t, cur, rest[1..], links);
      } else if rest[0] == ".." {
        OpenTargetParent(t, Parent(cur), rest[1..], links);
      } else {
        var next := cur + [rest[0]];
        assert Parent(next) == cur;
        if next in t {
          match t[next] {
            case Link(absolute, to) =>
              if links > 0 {
                OpenTargetParent(t, if absolute then [] else cur, to + rest[1..], links - 1);
              }
            case _ => OpenTargetParent(t, next, rest[1..], links);
          }
        }
      }
    }
  }

  lemma EntryParent(t: Tree, p: Path)
    requires EntryOf(t, p).Some?
    ensures var e := EntryOf(t, p).value;
            e != [] && Parent(e) in t && t[Parent(e)] == Dir && e[|e| - 1] == p[|p| - 1]
  {
    assert Parent(EntryOf(t, p).value) == Locate(t, Parent(p)).at;
  }

  lemma MkdirKeeps(t: Tree, p: Path)
    requires WellFormed(t) && Mkdir(t, p).Made? && Plain(p[|p| - 1])
    ensures WellFormed(Mkdir(t, p).tree)
  {
    EntryParent(t, p);
    AddKeepsWellFormed(t, EntryOf(t, p).value, Dir);
  }

  lemma OpenKeeps(t: Tree, p: Path)
    requires WellFormed(t) && OpenTruncate(t, p).Some?
    ensures WellFormed(OpenTruncate(t, p).value.1)
  {
    OpenTargetParent(t, [], p, MAX_LINKS);
    AddKeepsWellFormed(t, OpenTruncate(t, p).value.0, File([]));
  }

  lemma UnlinkKeeps(t: Tree, p: Path)
    requires WellFormed(t) && Unlink(t, p).Some?
    ensures WellFormed(Unlink(t, p).value)
  {
    RemoveKeepsWellFormed(t, EntryOf(t, p).value);
  }

  lemma RenameKeeps(t: Tree, from: Path, to: Path)
    requires WellFormed(t) && Rename(t, from, to).Some? && Plain(to[|to| - 1])
    ensures WellFormed(Rename(t, from, to).value)
  {
    var e, e' := EntryOf(t, from).value, EntryOf(t, to).value;
    EntryParent(t, to);
    RemoveKeepsWellFormed(t, e);
    AddKeepsWellFormed(t - {e}, e', t[e]);
  }

  function Written(t: Tree, at: Path, b: byte): Tree
    requires at in t && t[at].File?
  {
    t[at := File(t[at].bytes + [b])]
  }

  lemma WrittenKeeps(t: Tree, at: Path, b: byte)
    requires WellFormed(t) && at in t && t[at].File?
    ensures WellFormed(Written(t, at, b))
  {
    assert Parent(at) in t;
    AddKeepsWellFormed(t, at, File(t[at].bytes + [b]));
  }

  /** The kernel calls that change the tree, with the location an `open` or a `write` works on. */
  datatype Call =
    | MkdirCall(p: Path)
    | CreateCall(p: Path, at: Path)
    | WriteCall(at: Path, b: byte)
    | UnlinkCall(p: Path)
    | RenameCall(p: Path, to: Path)

  function Execute(t: Tree, call: Call): Option<Tree> {
    match call
    case MkdirCall(p) => if Mkdir(t, p).Made? then Some(Mkdir(t, p).tree) else None
    case CreateCall(p, at) =>
      if OpenTruncate(t, p).Some? && OpenTruncate(t, p).value.0 == at then Some(OpenTruncate(t, p).value.1) else None
    case WriteCall(at, b) => if at in t && t[at].File? then Some(Written(t, at, b)) else None
    case UnlinkCall(p) => Unlink(t, p)
    case RenameCall(p, to) => Rename(t, p, to)
  }

  /** The states `trail` are those between the calls `calls`. */
  ghost predicate IsRecord(trail: seq<Tree>, calls: seq<Call>) {
    && |trail| == |calls| + 1
    && forall k {:trigger calls[k]} :: 0 <= k < |calls| ==> Execute(trail[k], calls[k]) == Some(trail[k + 1])
  }

  lemma RecordMore(trail: seq<Tree>, calls: seq<Call>, call: Call, t: Tree)
    requires IsRecord(trail, calls) && Execute(trail[|calls|], call) == Some(t)
    ensures IsRecord(trail + [t], calls + [call])
  {
    var more := calls + [call];
    forall k {:trigger more[k]} | 0 <= k < |more|
      ensures Execute((trail + [t])[k], more[k]) == Some((trail + [t])[k + 1])
    {
      if k < |calls| {
        assert more[k] == calls[k];
      }
    }
  }

  /** `trail` holds every state the disk has been in, what a crash may leave behind, and `calls` how it came
      from each to the next. */
  class Volume {
    var tree: Tree
    ghost var trail: seq<Tree>
    ghost var calls: seq<Call>

    ghost predicate Valid()
      reads this
    {
      WellFormed(tree) && IsRecord(trail, calls) && trail[|trail| - 1] == tree
    }

    constructor (tree: Tree)
      requires WellFormed(tree)
      ensures Valid() && this.tree == tree && trail == [tree] && calls == []
    {
      this.tree, trail, calls := tree, [tree], [];
    }

    method MakeDir(p: Path) returns (made: Making)
      requires Valid() && (p != [] ==> Plain(p[|p| - 1]))
      modifies this
      ensures Valid() && made == Mkdir(old(tree), p)
      ensures tree == if made.Made? then made.tree else old(tree)
      ensures made.Made? ==> trail == old(trail) + [tree] && calls == old(calls) + [MkdirCall(p)]
      ensures !made.Made? ==> trail == old(trail) && calls == old(calls)
    {
      made := Mkdir(tree, p);
      if made.Made? {
        MkdirKeeps(tree, p);
        RecordMore(trail, calls, MkdirCall(p), made.tree);
        tree := made.tree;
        trail, calls := trail + [tree], calls + [MkdirCall(p)];
      }
    }

    method Create(p: Path) returns (location: Option<Path>)
      requires Valid()
      modifies this
      ensures Valid() && (location.None? <==> OpenTruncate(old(tree), p).None?)
      ensures location.Some? ==> OpenTruncate(old(tree), p) == Some((location.value, tree))
      ensures location.Some? ==> trail == old(trail) + [tree] && calls == old(calls) + [CreateCall(p, location.value)]
      ensures location.None? ==> tree == old(tree) && trail == old(trail) && calls == old(calls)
    {
      match OpenTruncate(tree, p) {
        case None => location := None;
        case Some(result) =>
          OpenKeeps(tree, p);
          RecordMore(trail, calls, CreateCall(p, result.0), result.1);
          location := Some(result.0);
          tree := result.1;
          trail, calls := trail + [tree], calls + [CreateCall(p, result.0)];
      }
    }

    method Append(at: Path, b: byte)
      requires Valid() && at in tree && tree[at].File?
      modifies this
      ensures Valid() && tree == Written(old(tree), at, b) && trail == old(trail) + [tree]
      ensures calls == old(calls) + [WriteCall(at, b)]
    {
      WrittenKeeps(tree, at, b);
      RecordMore(trail, calls, WriteCall(at, b), Written(tree, at, b));
      tree := Written(tree, at, b);
      trail, calls := trail + [tree], calls + [WriteCall(at, b)];
    }

    method Remove(p: Path) returns (ok: bool)
      requires Valid()
      modifies this
      ensures Valid() && (ok <==> Unlink(old(tree), p).Some?)
      ensures tree == if ok then Unlink(old(tree), p).value else old(tree)
      ensures ok ==> trail == old(trail) + [tree] && calls == old(calls) + [UnlinkCall(p)]
      ensures !ok ==> trail == old(trail) && calls == old(calls)
    {
      ok := Unlink(tree, p).Some?;
      if ok {
        UnlinkKeeps(tree, p);
        RecordMore(trail, calls, UnlinkCall(p), Unlink(tree, p).value);
        tree := Unlink(tree, p).value;
        trail, calls := trail + [tree], calls + [UnlinkCall(p)];
      }
    }

    method Move(from: Path, to: Path) returns (ok: bool)
      requires Valid() && (to != [] ==> Plain(to[|to| - 1]))
      modifies this
      ensures Valid() && (ok <==> Rename(old(tree), from, to).Some?)
      ensures tree == if ok then Rename(old(tree), from, to).value else old(tree)
      ensures ok ==> trail == old(trail) + [tree] && calls == old(calls) + [RenameCall(from, to)]
      ensures !ok ==> trail == old(trail) && calls == old(calls)
    {
      ok := Rename(tree, from, to).Some?;
      if ok {
        RenameKeeps(tree, from, to);
        RecordMore(trail, calls, RenameCall(from, to), Rename(tree, from, to).value);
        tree := Rename(tree, from, to).value;
        trail, calls := trail + [tree], calls + [RenameCall(from, to)];
      }
    }
  }
}
