/**
 * Any number of writers on one file system, interleaved one kernel call at a time, with a crash at any
 * point: no location ever holds a mix of contents, and boot-time cleanup removes what is unfinished.
 */
module CrashSafety {
  import opened Common
  import opened Errors
  import opened FileTree
  import opened Workspace
  import opened Disk
  import opened FileActuator
  import opened Cleanup

  type Id = string

  /** The arguments of one write, and the temporary path it computes from them. */
  datatype Plan = Plan(target: Path, content: seq<byte>, temp: Path)

  /** Where a writer is; `at` is the location of its temporary file, `done` how much of it is written. */
  datatype Stage =
    | Checking
    | Preparing
    | Writing(at: Path, done: nat)
    | Dropping(at: Path, done: nat)
    | Abandoned(at: Path, done: nat)
    | Finished(landed: Option<Path>)

  datatype State = State(tree: Tree, stages: map<Id, Stage>)

  datatype Label =
    | Check(id: Id, passes: bool)
    | MakeParent(id: Id, length: nat)
    | GiveUp(id: Id)
    | OpenTemp(id: Id)
    | Append(id: Id)
    | WriteError(id: Id)
    | Land(id: Id)
    | RenameError(id: Id)
    | Drop(id: Id)

  const ID_LENGTH: nat := 36

  /** The name of a writer's temporary file. */
  function TempOf(plans: map<Id, Plan>, id: Id): Name {
    if id in plans && plans[id].temp != [] then plans[id].temp[|plans[id].temp| - 1] else []
  }

  ghost predicate PlanOk(plans: map<Id, Plan>, id: Id) {
    && id in plans && |id| == ID_LENGTH && plans[id].target != [] && PlainPath(plans[id].target)
    && plans[id].temp == TempPath(plans[id].target, id)
  }

  /** Not the location of a temporary file. */
  ghost predicate NameFree(plans: map<Id, Plan>, q: Path) {
    q != [] ==> forall id :: id in plans ==> q[|q| - 1] != TempOf(plans, id)
  }

  /** Targets are plain paths; ids are UUIDs, so their temporary names occur nowhere yet. */
  ghost predicate Planned(t: Tree, plans: map<Id, Plan>) {
    && WellFormed(t)
    && (forall id {:trigger PlanOk(plans, id)} :: id in plans ==> PlanOk(plans, id))
    && (forall q {:trigger NameFree(plans, q)} :: q in t ==> NameFree(plans, q))
    && (forall id, n {:trigger plans[id].target[..n]} :: id in plans && 0 <= n <= |plans[id].target| ==>
         NameFree(plans, plans[id].target[..n]))
  }

  function Init(t: Tree, plans: map<Id, Plan>): State {
    State(t, map id | id in plans :: Checking)
  }

  function Go(s: State, id: Id, stage: Stage): State {
    s.(stages := s.stages[id := stage])
  }

  // ---- Steps -----------------------------------------------------------------------------------

  function OpenStep(s: State, id: Id, plan: Plan): Option<State>
    requires plan.target != []
  {
    match OpenTruncate(s.tree, plan.temp)
    case Some((at, tree)) => Some(State(tree, s.stages[id := Writing(at, 0)]))
    case None => None
  }

  function AppendStep(s: State, id: Id, plan: Plan, at: Path, done: nat): Option<State> {
    if done < |plan.content| && at in s.tree && s.tree[at].File? then
      Some(State(Written(s.tree, at, plan.content[done]), s.stages[id := Writing(at, done + 1)]))
    else None
  }

  function LandStep(s: State, id: Id, plan: Plan): Option<State>
    requires plan.target != []
  {
    match Rename(s.tree, plan.temp, plan.target)
    case Some(tree) => Some(State(tree, s.stages[id := Finished(EntryOf(s.tree, plan.target))]))
    case None => None
  }

  function DropStep(s: State, id: Id, plan: Plan, at: Path, done: nat): State
    requires plan.target != []
  {
    match Unlink(s.tree, plan.temp)
    case Some(tree) => State(tree, s.stages[id := Finished(None)])
    case None => Go(s, id, Abandoned(at, done))
  }

  /** One step, or `None` when it is not possible. Every failure the kernel may report is a step. The path
      check reads one component after the other while others write, so its outcome is left open. */
  ghost function Apply(plans: map<Id, Plan>, s: State, l: Label): Option<State> {
    if l.id !in plans || l.id !in s.stages || plans[l.id].target == [] then None
    else
      var plan := plans[l.id];
      match (l, s.stages[l.id])
      case (Check(id, passes), Checking) => Some(Go(s, id, if passes then Preparing else Finished(None)))
      case (MakeParent(id, length), Preparing) =>
        if length < |plan.target| && Mkdir(s.tree, plan.target[..length]).Made? then
          Some(s.(tree := Mkdir(s.tree, plan.target[..length]).tree))
        else None
      case (GiveUp(id), Preparing) => Some(Go(s, id, Finished(None)))
      case (OpenTemp(id), Preparing) => OpenStep(s, id, plan)
      case (Append(id), Writing(at, done)) => AppendStep(s, id, plan, at, done)
      case (WriteError(id), Writing(at, done)) => Some(Go(s, id, Dropping(at, done)))
      case (Land(id), Writing(at, done)) => if done == |plan.content| then LandStep(s, id, plan) else None
      case (RenameError(id), Writing(at, done)) => Some(Go(s, id, Dropping(at, done)))
      case (Drop(id), Dropping(at, done)) => Some(DropStep(s, id, plan, at, done))
      case _ => None
  }

  /** The state after the steps `ls`; a crash may strike after any of them. */
  ghost function Exec(t: Tree, plans: map<Id, Plan>, ls: seq<Label>): Option<State> {
    if ls == [] then Some(Init(t, plans))
    else match Exec(t, plans, ls[..|ls| - 1])
         case Some(s) => Apply(plans, s, ls[|ls| - 1])
         case None => None
  }

  // ---- The invariant ---------------------------------------------------------------------------

  predicate HasTemp(stage: Stage) {
    stage.Writing? || stage.Dropping? || stage.Abandoned?
  }

  /** The writer's temporary file, if it has one, bears its name and holds what it has written so far. */
  ghost predicate OwnerOk(plans: map<Id, Plan>, s: State, id: Id) {
    && id in plans && id in s.stages
    && (HasTemp(s.stages[id]) ==>
          var at, done := s.stages[id].at, s.stages[id].done;
          && at in s.tree && at != [] && at[|at| - 1] == TempOf(plans, id)
          && done <= |plans[id].content| && s.tree[at] == File(plans[id].content[..done]))
  }

  ghost predicate Owns(s: State, id: Id, q: Path) {
    id in s.stages && HasTemp(s.stages[id]) && s.stages[id].at == q
  }

  /** A finished writer put its whole content here, under its target's name. */
  ghost predicate LandedBy(plans: map<Id, Plan>, s: State, id: Id, q: Path) {
    && q in s.tree && id in plans && id in s.stages
    && s.stages[id] == Finished(Some(q)) && s.tree[q] == File(plans[id].content)
    && q != [] && plans[id].target != [] && q[|q| - 1] == plans[id].target[|plans[id].target| - 1]
  }

  /** What a location may hold: an unfinished temporary file, what it held before, a new directory, or one
      writer's whole content. */
  ghost predicate PlaceOk(t: Tree, plans: map<Id, Plan>, s: State, q: Path) {
    && q in s.tree
    && if NameFree(plans, q) then
         (q in t && s.tree[q] == t[q]) || (q !in t && s.tree[q] == Dir) || exists id :: LandedBy(plans, s, id, q)
       else exists id :: id in plans && Owns(s, id, q)
  }

  ghost predicate Kept(t: Tree, s: State, q: Path) {
    q in t && q in s.tree && (t[q] == Dir ==> s.tree[q] == Dir)
  }

  ghost predicate Inv(t: Tree, plans: map<Id, Plan>, s: State) {
    && Planned(t, plans) && s.stages.Keys == plans.Keys && WellFormed(s.tree)
    && (forall id {:trigger OwnerOk(plans, s, id)} :: id in plans ==> OwnerOk(plans, s, id))
    && (forall q {:trigger PlaceOk(t, plans, s, q)} :: q in s.tree ==> PlaceOk(t, plans, s, q))
    && (forall q {:trigger Kept(t, s, q)} :: q in t ==> Kept(t, s, q))
  }

  /** Different ids give different temporary names, whatever the targets. */
  lemma TempNamesDiffer(name: Name, name': Name, id: Id, id': Id)
    requires |id| == |id'| && TempName(name, id) == TempName(name', id')
    ensures id == id'
  {
    var a, b := TempName(name, id), TempName(name', id');
    assert a[|a| - 4 - |id|..|a| - 4] == id;
    assert b[|b| - 4 - |id'|..|b| - 4] == id';
  }

  lemma TempsDiffer(plans: map<Id, Plan>, id: Id, other: Id)
    requires PlanOk(plans, id) && PlanOk(plans, other) && TempOf(plans, id) == TempOf(plans, other)
    ensures id == other
  {
    var a, b := plans[id].target, plans[other].target;
    TempNamesDiffer(a[|a| - 1], b[|b| - 1], id, other);
  }

  /** An entry that bears a writer's temporary name is that writer's. */
  lemma OwnerOf(t: Tree, plans: map<Id, Plan>, s: State, id: Id, q: Path)
    requires Inv(t, plans, s) && id in plans && q in s.tree && q != [] && q[|q| - 1] == TempOf(plans, id)
    ensures Owns(s, id, q)
  {
    assert PlaceOk(t, plans, s, q) && !NameFree(plans, q);
    var other :| other in plans && Owns(s, other, q);
    assert OwnerOk(plans, s, other) && PlanOk(plans, id) && PlanOk(plans, other);
    TempsDiffer(plans, id, other);
  }

  // ---- What a step of one writer leaves alone --------------------------------------------------

  /** `s'` is `s` after a step of `id`, which was not finished, that changes the tree at most at `e`. */
  ghost predicate StepOf(s: State, s': State, id: Id, e: Path) {
    && id in s.stages && id in s'.stages && !s.stages[id].Finished? && s'.stages == s.stages[id := s'.stages[id]]
    && forall q :: q != e ==> (q in s'.tree <==> q in s.tree) && (q in s.tree ==> s'.tree[q] == s.tree[q])
  }

  lemma OtherOwner(plans: map<Id, Plan>, s: State, s': State, id: Id, e: Path, other: Id)
    requires StepOf(s, s', id, e) && other != id && OwnerOk(plans, s, other)
    requires HasTemp(s.stages[other]) ==> s.stages[other].at != e
    ensures OwnerOk(plans, s', other)
  {
  }

  lemma OtherPlace(t: Tree, plans: map<Id, Plan>, s: State, s': State, id: Id, e: Path, q: Path)
    requires StepOf(s, s', id, e) && q != e && PlaceOk(t, plans, s, q)
    requires Owns(s, id, q) ==> Owns(s', id, q)
    ensures PlaceOk(t, plans, s', q)
  {
    if !NameFree(plans, q) {
      var owner :| owner in plans && Owns(s, owner, q);
      assert Owns(s', owner, q);
    } else if !(q in t && s.tree[q] == t[q]) && !(q !in t && s.tree[q] == Dir) {
      var owner :| LandedBy(plans, s, owner, q);
      assert LandedBy(plans, s', owner, q);
    }
  }

  lemma OwnersKept(plans: map<Id, Plan>, s: State, s': State, id: Id, e: Path)
    requires forall other {:trigger OwnerOk(plans, s, other)} :: other in plans ==> OwnerOk(plans, s, other)
    requires forall other {:trigger PlanOk(plans, other)} :: other in plans ==> PlanOk(plans, other)
    requires id in plans && StepOf(s, s', id, e) && OwnerOk(plans, s', id)
    requires NameFree(plans, e) || (e != [] && e[|e| - 1] == TempOf(plans, id))
    ensures forall other {:trigger OwnerOk(plans, s', other)} :: other in plans ==> OwnerOk(plans, s', other)
  {
    forall other | other in plans ensures OwnerOk(plans, s', other) {
      if other != id {
        assert OwnerOk(plans, s, other) && PlanOk(plans, other) && PlanOk(plans, id);
        if HasTemp(s.stages[other]) && s.stages[other].at == e && TempOf(plans, other) == TempOf(plans, id) {
          TempsDiffer(plans, id, other);
        }
        OtherOwner(plans, s, s', id, e, other);
      }
    }
  }

  lemma PlacesKept(t: Tree, plans: map<Id, Plan>, s: State, s': State, id: Id, e: Path)
    requires forall q {:trigger PlaceOk(t, plans, s, q)} :: q in s.tree ==> PlaceOk(t, plans, s, q)
    requires StepOf(s, s', id, e)
    requires e in s'.tree ==> PlaceOk(t, plans, s', e)
    requires HasTemp(s.stages[id]) ==> Owns(s', id, s.stages[id].at) || s.stages[id].at == e
    ensures forall q {:trigger PlaceOk(t, plans, s', q)} :: q in s'.tree ==> PlaceOk(t, plans, s', q)
  {
    forall q | q in s'.tree ensures PlaceOk(t, plans, s', q) {
      if q != e {
        assert PlaceOk(t, plans, s, q);
        OtherPlace(t, plans, s, s', id, e, q);
      }
    }
  }

  lemma NothingLost(t: Tree, s: State, s': State, id: Id, e: Path)
    requires forall q {:trigger Kept(t, s, q)} :: q in t ==> Kept(t, s, q)
    requires StepOf(s, s', id, e) && (e in t ==> Kept(t, s', e))
    ensures forall q {:trigger Kept(t, s', q)} :: q in t ==> Kept(t, s', q)
  {
    forall q | q in t ensures Kept(t, s', q) {
      assert Kept(t, s, q);
    }
  }

  /** A step of `id` at a location of its own temporary name, or of no writer's. */
  lemma StepKept(t: Tree, plans: map<Id, Plan>, s: State, s': State, id: Id, e: Path)
    requires Inv(t, plans, s) && id in plans && StepOf(s, s', id, e) && WellFormed(s'.tree)
    requires NameFree(plans, e) || (e != [] && e[|e| - 1] == TempOf(plans, id))
    requires OwnerOk(plans, s', id)
    requires e in s'.tree ==> PlaceOk(t, plans, s', e)
    requires e in t ==> Kept(t, s', e)
    requires HasTemp(s.stages[id]) ==> Owns(s', id, s.stages[id].at) || s.stages[id].at == e
    ensures Inv(t, plans, s')
  {
    OwnersKept(plans, s, s', id, e);
    PlacesKept(t, plans, s, s', id, e);
    NothingLost(t, s, s', id, e);
  }

  // ---- The steps -------------------------------------------------------------------------------

  /** A change of stage that keeps the temporary file, if any, and claims no landing. */
  lemma StageKept(t: Tree, plans: map<Id, Plan>, s: State, id: Id, stage: Stage)
    requires Inv(t, plans, s) && id in plans && !s.stages[id].Finished?
    requires if HasTemp(s.stages[id]) then
               HasTemp(stage) && stage.at == s.stages[id].at && stage.done == s.stages[id].done
             else !HasTemp(stage)
    ensures Inv(t, plans, Go(s, id, stage))
  {
    var s' := Go(s, id, stage);
    assert OwnerOk(plans, s, id);
    if HasTemp(s.stages[id]) {
      var at := s.stages[id].at;
      assert !NameFree(plans, at) && PlaceOk(t, plans, s, at) && Owns(s', id, at);
      StepKept(t, plans, s, s', id, at);
    } else {
      assert [] in t && PlaceOk(t, plans, s, []) && Kept(t, s, []);
      StepKept(t, plans, s, s', id, []);
    }
  }

  lemma MakeParentKept(t: Tree, plans: map<Id, Plan>, s: State, id: Id, n: nat)
    requires Inv(t, plans, s) && id in plans && n < |plans[id].target| && s.stages[id].Preparing?
    requires Mkdir(s.tree, plans[id].target[..n]).Made?
    ensures Inv(t, plans, s.(tree := Mkdir(s.tree, plans[id].target[..n]).tree))
  {
    var p := plans[id].target[..n];
    var e := EntryOf(s.tree, p).value;
    EntryParent(s.tree, p);
    assert NameFree(plans, p) && NameFree(plans, e);
    assert PlanOk(plans, id) && p[n - 1] in plans[id].target;
    MkdirKeeps(s.tree, p);
    var s' := s.(tree := s.tree[e := Dir]);
    assert OwnerOk(plans, s, id);
    assert e in t ==> Kept(t, s, e);
    StepKept(t, plans, s, s', id, e);
  }

  /** Opening `dir/name` is opening `name` where `dir` resolves to. */
  lemma {:induction false} OpenSplit(t: Tree, cur: Path, dir: Path, name: Name, links: nat)
    ensures OpenTarget(t, cur, dir + [name], links) ==
            match Resolve(t, cur, dir, links) {
              case Reached(at, left) => OpenTarget(t, at, [name], left)
              case _ => None
            }
    decreases links, |dir|
  {
    if dir == [] {
      assert dir + [name] == [name];
    } else if cur in t && t[cur] == Dir {
      assert (dir + [name])[1..] == dir[1..] + [name];
      if dir[0] == "" || dir[0] == "." {
        OpenSplit(t, cur, dir[1..], name, links);
      } else if dir[0] == ".." {
        OpenSplit(t, Parent(cur), dir[1..], name, links);
      } else if cur + [dir[0]] in t {
        match t[cur + [dir[0]]] {
          case Link(absolute, to) =>
            if links > 0 {
              assert to + (dir + [name])[1..] == (to + dir[1..]) + [name];
              OpenSplit(t, if absolute then [] else cur, to + dir[1..], name, links - 1);
            }
          case _ => OpenSplit(t, cur + [dir[0]], dir[1..], name, links);
        }
      }
    }
  }

  /** The location opened for a writer's temporary file bears its temporary name and is new. */
  lemma OpenedTemp(t: Tree, plans: map<Id, Plan>, s: State, id: Id)
    requires Inv(t, plans, s) && id in plans && plans[id].target != [] && !HasTemp(s.stages[id])
    requires OpenTruncate(s.tree, plans[id].temp).Some?
    ensures var e := OpenTruncate(s.tree, plans[id].temp).value.0;
            e !in s.tree && e != [] && e[|e| - 1] == TempOf(plans, id)
  {
    var target, name := plans[id].target, TempOf(plans, id);
    assert PlanOk(plans, id) && plans[id].temp == Parent(target) + [name];
    OpenSplit(s.tree, [], Parent(target), name, MAX_LINKS);
    var e := Locate(s.tree, Parent(target)).at + [name];
    assert e[|e| - 1] == name;
    if e in s.tree {
      OwnerOf(t, plans, s, id, e);
    }
  }

  lemma OpenKept(t: Tree, plans: map<Id, Plan>, s: State, id: Id)
    requires Inv(t, plans, s) && id in plans && plans[id].target != [] && s.stages[id].Preparing?
    requires OpenStep(s, id, plans[id]).Some?
    ensures Inv(t, plans, OpenStep(s, id, plans[id]).value)
  {
    OpenedTemp(t, plans, s, id);
    OpenKeeps(s.tree, plans[id].temp);
    var e := OpenTruncate(s.tree, plans[id].temp).value.0;
    var s' := State(s.tree[e := File([])], s.stages[id := Writing(e, 0)]);
    assert plans[id].content[..0] == [];
    assert Owns(s', id, e) && !NameFree(plans, e);
    StepKept(t, plans, s, s', id, e);
  }

  lemma AppendIs(plans: map<Id, Plan>, s: State, s': State, id: Id, at: Path, done: nat)
    requires WellFormed(s.tree) && OwnerOk(plans, s, id) && s.stages[id] == Writing(at, done)
    requires AppendStep(s, id, plans[id], at, done) == Some(s')
    ensures done < |plans[id].content|
    ensures s' == State(s.tree[at := File(plans[id].content[..done + 1])], s.stages[id := Writing(at, done + 1)])
    ensures WellFormed(s'.tree)
  {
    var content := plans[id].content;
    assert content[..done] + [content[done]] == content[..done + 1];
    WrittenKeeps(s.tree, at, content[done]);
  }

  lemma MoreWritten(t: Tree, plans: map<Id, Plan>, s: State, s': State, id: Id, at: Path, done: nat)
    requires Inv(t, plans, s) && id in plans && s.stages[id] == Writing(at, done) && done < |plans[id].content|
    requires WellFormed(s'.tree)
    requires s' == State(s.tree[at := File(plans[id].content[..done + 1])], s.stages[id := Writing(at, done + 1)])
    ensures Inv(t, plans, s')
  {
    assert OwnerOk(plans, s, id);
    assert Owns(s', id, at) && !NameFree(plans, at);
    assert at in t ==> NameFree(plans, at);
    StepKept(t, plans, s, s', id, at);
  }

  lemma AppendKept(t: Tree, plans: map<Id, Plan>, s: State, s': State, id: Id)
    requires Inv(t, plans, s) && id in plans && s.stages[id].Writing?
    requires AppendStep(s, id, plans[id], s.stages[id].at, s.stages[id].done) == Some(s')
    ensures Inv(t, plans, s')
  {
    assert OwnerOk(plans, s, id);
    AppendIs(plans, s, s', id, s.stages[id].at, s.stages[id].done);
    MoreWritten(t, plans, s, s', id, s.stages[id].at, s.stages[id].done);
  }

  /** The entry the kernel finds under a writer's temporary path is the writer's own file. */
  lemma OwnTemp(t: Tree, plans: map<Id, Plan>, s: State, id: Id)
    requires Inv(t, plans, s) && id in plans && plans[id].target != []
    requires EntryOf(s.tree, plans[id].temp).Some?
    requires EntryOf(s.tree, plans[id].temp).value in s.tree
    ensures Owns(s, id, EntryOf(s.tree, plans[id].temp).value)
    ensures !NameFree(plans, s.stages[id].at)
  {
    var e := EntryOf(s.tree, plans[id].temp).value;
    EntryParent(s.tree, plans[id].temp);
    OwnerOf(t, plans, s, id, e);
  }

  lemma DropKept(t: Tree, plans: map<Id, Plan>, s: State, id: Id)
    requires Inv(t, plans, s) && id in plans && plans[id].target != [] && s.stages[id].Dropping?
    ensures Inv(t, plans, DropStep(s, id, plans[id], s.stages[id].at, s.stages[id].done))
  {
    var at, done := s.stages[id].at, s.stages[id].done;
    var temp := plans[id].temp;
    if Unlink(s.tree, temp).None? {
      StageKept(t, plans, s, id, Abandoned(at, done));
    } else {
      OwnTemp(t, plans, s, id);
      UnlinkKeeps(s.tree, temp);
      assert OwnerOk(plans, s, id);
      StepKept(t, plans, s, State(s.tree - {at}, s.stages[id := Finished(None)]), id, at);
    }
  }

  /** The entries the rename works on. */
  lemma LandEntries(t: Tree, plans: map<Id, Plan>, s: State, id: Id)
    requires Inv(t, plans, s) && id in plans && PlanOk(plans, id)
    requires s.stages[id].Writing? && LandStep(s, id, plans[id]).Some?
    ensures EntryOf(s.tree, plans[id].target).Some?
    ensures EntryOf(s.tree, plans[id].temp) == Some(s.stages[id].at)
    ensures var e := EntryOf(s.tree, plans[id].target).value;
            e != [] && e[|e| - 1] == plans[id].target[|plans[id].target| - 1]
    ensures NameFree(plans, EntryOf(s.tree, plans[id].target).value) && !NameFree(plans, s.stages[id].at)
  {
    var target := plans[id].target;
    assert target[..|target|] == target;
    assert NameFree(plans, target);
    OwnTemp(t, plans, s, id);
    EntryParent(s.tree, target);
  }

  /** Halfway through the rename. */
  function Gone(s: State, id: Id, at: Path): State {
    State(s.tree - {at}, s.stages[id := Preparing])
  }

  lemma LandIs(plans: map<Id, Plan>, s: State, s': State, id: Id, at: Path, e: Path)
    requires WellFormed(s.tree) && OwnerOk(plans, s, id) && PlanOk(plans, id)
    requires s.stages[id] == Writing(at, |plans[id].content|) && LandStep(s, id, plans[id]) == Some(s')
    requires EntryOf(s.tree, plans[id].temp) == Some(at) && EntryOf(s.tree, plans[id].target) == Some(e) && at != e
    ensures e in Gone(s, id, at).tree ==> Gone(s, id, at).tree[e] != Dir
    ensures s' == State(Gone(s, id, at).tree[e := File(plans[id].content)],
                        Gone(s, id, at).stages[id := Finished(Some(e))])
    ensures WellFormed(s'.tree)
  {
    var target, content := plans[id].target, plans[id].content;
    assert content[..|content|] == content;
    assert target[|target| - 1] in target;
    RenameKeeps(s.tree, plans[id].temp, target);
  }

  /** The rename, as the removal of the temporary file ... */
  lemma DepartureStep(plans: map<Id, Plan>, s: State, gone: State, id: Id, at: Path)
    requires WellFormed(s.tree) && OwnerOk(plans, s, id) && s.stages[id].Writing? && s.stages[id].at == at
    requires gone == Gone(s, id, at)
    ensures StepOf(s, gone, id, at) && OwnerOk(plans, gone, id) && WellFormed(gone.tree)
    ensures at !in gone.tree && at != [] && at[|at| - 1] == TempOf(plans, id)
  {
    RemoveKeepsWellFormed(s.tree, at);
  }

  lemma Departure(t: Tree, plans: map<Id, Plan>, s: State, gone: State, id: Id, at: Path)
    requires Inv(t, plans, s) && id in plans && s.stages[id].Writing? && s.stages[id].at == at && !NameFree(plans, at)
    requires gone == Gone(s, id, at)
    ensures Inv(t, plans, gone)
  {
    assert OwnerOk(plans, s, id);
    DepartureStep(plans, s, gone, id, at);
    assert at in t ==> NameFree(plans, at);
    StepKept(t, plans, s, gone, id, at);
  }

  /** ... and the arrival of the content. */
  lemma ArrivalStep(plans: map<Id, Plan>, gone: State, s': State, id: Id, e: Path)
    requires id in plans && id in gone.stages && gone.stages[id].Preparing?
    requires e != [] && plans[id].target != [] && e[|e| - 1] == plans[id].target[|plans[id].target| - 1]
    requires s' == State(gone.tree[e := File(plans[id].content)], gone.stages[id := Finished(Some(e))])
    ensures StepOf(gone, s', id, e) && OwnerOk(plans, s', id) && LandedBy(plans, s', id, e)
  {
  }

  lemma Arrival(t: Tree, plans: map<Id, Plan>, gone: State, s': State, id: Id, e: Path)
    requires Inv(t, plans, gone) && id in plans && gone.stages[id].Preparing?
    requires NameFree(plans, e) && (e in gone.tree ==> gone.tree[e] != Dir)
    requires e != [] && plans[id].target != [] && e[|e| - 1] == plans[id].target[|plans[id].target| - 1]
    requires s' == State(gone.tree[e := File(plans[id].content)], gone.stages[id := Finished(Some(e))])
    requires WellFormed(s'.tree)
    ensures Inv(t, plans, s')
  {
    ArrivalStep(plans, gone, s', id, e);
    assert e in t ==> Kept(t, gone, e);
    StepKept(t, plans, gone, s', id, e);
  }

  lemma LandKept(t: Tree, plans: map<Id, Plan>, s: State, s': State, id: Id)
    requires Inv(t, plans, s) && id in plans && PlanOk(plans, id)
    requires s.stages[id].Writing? && s.stages[id].done == |plans[id].content| && LandStep(s, id, plans[id]) == Some(s')
    ensures Inv(t, plans, s')
  {
    LandEntries(t, plans, s, id);
    assert OwnerOk(plans, s, id);
    var at, e := s.stages[id].at, EntryOf(s.tree, plans[id].target).value;
    LandIs(plans, s, s', id, at, e);
    Departure(t, plans, s, Gone(s, id, at), id, at);
    Arrival(t, plans, Gone(s, id, at), s', id, e);
  }

  // ---- All runs --------------------------------------------------------------------------------

  lemma ApplyKept(t: Tree, plans: map<Id, Plan>, s: State, l: Label)
    requires Inv(t, plans, s) && Apply(plans, s, l).Some?
    ensures Inv(t, plans, Apply(plans, s, l).value)
  {
    var id := l.id;
    assert PlanOk(plans, id);
    match l {
      case Check(_, passes) => StageKept(t, plans, s, id, if passes then Preparing else Finished(None));
      case MakeParent(_, n) => MakeParentKept(t, plans, s, id, n);
      case GiveUp(_) => StageKept(t, plans, s, id, Finished(None));
      case OpenTemp(_) => OpenKept(t, plans, s, id);
      case Append(_) => AppendKept(t, plans, s, Apply(plans, s, l).value, id);
      case Land(_) => LandKept(t, plans, s, Apply(plans, s, l).value, id);
      case Drop(_) => DropKept(t, plans, s, id);
      case _ => StageKept(t, plans, s, id, Dropping(s.stages[id].at, s.stages[id].done));
    }
  }

  lemma {:induction false} RunKept(t: Tree, plans: map<Id, Plan>, ls: seq<Label>)
    requires Planned(t, plans) && Exec(t, plans, ls).Some?
    ensures Inv(t, plans, Exec(t, plans, ls).value)
  {
    if ls == [] {
      var s := Init(t, plans);
      forall q | q in t ensures PlaceOk(t, plans, s, q) && Kept(t, s, q) {
        assert NameFree(plans, q);
      }
    } else {
      RunKept(t, plans, ls[..|ls| - 1]);
      ApplyKept(t, plans, Exec(t, plans, ls[..|ls| - 1]).value, ls[|ls| - 1]);
    }
  }

  // ---- Where a content lands -------------------------------------------------------------------

  /** Step `k` of the run is the rename of writer `id`, and `q` the entry its target then resolves to. */
  ghost predicate LandsAt(t: Tree, plans: map<Id, Plan>, ls: seq<Label>, k: nat, id: Id, q: Path) {
    && k < |ls| && ls[k] == Land(id) && id in plans && Exec(t, plans, ls[..k]).Some?
    && EntryOf(Exec(t, plans, ls[..k]).value.tree, plans[id].target) == Some(q)
  }

  lemma LandingStep(plans: map<Id, Plan>, s: State, l: Label, s': State, id: Id, q: Path)
    requires Apply(plans, s, l) == Some(s') && id in s'.stages && s'.stages[id] == Finished(Some(q))
    requires id in s.stages && s.stages[id] != Finished(Some(q))
    ensures l == Land(id) && id in plans && EntryOf(s.tree, plans[id].target) == Some(q)
  {
  }

  lemma {:induction false} LandedWhen(t: Tree, plans: map<Id, Plan>, ls: seq<Label>, id: Id, q: Path) returns (k: nat)
    requires Planned(t, plans) && Exec(t, plans, ls).Some? && id in Exec(t, plans, ls).value.stages
    requires Exec(t, plans, ls).value.stages[id] == Finished(Some(q))
    ensures LandsAt(t, plans, ls, k, id, q)
  {
    var past := ls[..|ls| - 1];
    var s := Exec(t, plans, past).value;
    RunKept(t, plans, ls);
    RunKept(t, plans, past);
    if s.stages[id] == Finished(Some(q)) {
      k := LandedWhen(t, plans, past, id, q);
      assert past[..k] == ls[..k];
    } else {
      k := |ls| - 1;
      LandingStep(plans, s, ls[k], Exec(t, plans, ls).value, id, q);
    }
  }

  /** No link lies on the way to `p`. */
  ghost predicate NoLinkTowards(t: Tree, p: Path) {
    forall n {:trigger p[..n]} :: 0 <= n < |p| && p[..n] in t ==> !t[p[..n]].Link?
  }

  lemma OwnedIsFile(plans: map<Id, Plan>, s: State, id: Id, q: Path)
    requires OwnerOk(plans, s, id) && Owns(s, id, q)
    ensures q in s.tree && s.tree[q].File?
  {
  }

  /** Writers make no links. */
  lemma LinksAreOld(t: Tree, plans: map<Id, Plan>, s: State, q: Path)
    requires Inv(t, plans, s) && q in s.tree && s.tree[q].Link?
    ensures q in t && t[q] == s.tree[q]
  {
    assert PlaceOk(t, plans, s, q);
    if !NameFree(plans, q) {
      var id :| id in plans && Owns(s, id, q);
      OwnedIsFile(plans, s, id, q);
    }
  }

  lemma {:induction false} ResolveWithoutLinks(t: Tree, cur: Path, rest: Path, links: nat)
    requires PlainPath(rest) && Resolve(t, cur, rest, links).Reached?
    requires forall n {:trigger rest[..n]} :: 0 < n <= |rest| && cur + rest[..n] in t ==> !t[cur + rest[..n]].Link?
    ensures Resolve(t, cur, rest, links).at == cur + rest
    decreases |rest|
  {
    if rest == [] {
      assert cur + rest == cur;
    } else {
      assert Plain(rest[0]) && rest[..1] == [rest[0]];
      var next := cur + [rest[0]];
      forall n {:trigger rest[1..][..n]} | 0 < n <= |rest[1..]| && next + rest[1..][..n] in t
        ensures !t[next + rest[1..][..n]].Link?
      {
        assert next + rest[1..][..n] == cur + rest[..n + 1];
      }
      ResolveWithoutLinks(t, next, rest[1..], links);
      assert next + rest[1..] == cur + rest;
    }
  }

  lemma EntryWithoutLinks(t: Tree, p: Path, q: Path)
    requires PlainPath(p) && NoLinkTowards(t, p) && EntryOf(t, p) == Some(q)
    ensures q == p
  {
    var dir := Parent(p);
    forall n {:trigger dir[..n]} | 0 < n <= |dir| && [] + dir[..n] in t ensures !t[[] + dir[..n]].Link? {
      assert [] + dir[..n] == p[..n];
    }
    ResolveWithoutLinks(t, [], dir, MAX_LINKS);
    assert [] + dir == dir && dir + [p[|p| - 1]] == p;
  }

  /** Without links on the way, a content lands at its writer's target and nowhere else. */
  lemma LandsAtTarget(t: Tree, plans: map<Id, Plan>, ls: seq<Label>, k: nat, id: Id, q: Path)
    requires Planned(t, plans) && LandsAt(t, plans, ls, k, id, q) && NoLinkTowards(t, plans[id].target)
    ensures q == plans[id].target
  {
    var target, s := plans[id].target, Exec(t, plans, ls[..k]).value;
    RunKept(t, plans, ls[..k]);
    assert PlanOk(plans, id);
    forall n {:trigger target[..n]} | 0 <= n < |target| && target[..n] in s.tree ensures !s.tree[target[..n]].Link? {
      if s.tree[target[..n]].Link? {
        LinksAreOld(t, plans, s, target[..n]);
      }
    }
    EntryWithoutLinks(s.tree, target, q);
  }

  // ---- Theorems --------------------------------------------------------------------------------

  /** A finished writer's content is here, where its target resolved to when it was renamed; that is the
      target itself unless a link lay on the way. */
  ghost predicate Arrived(t: Tree, plans: map<Id, Plan>, ls: seq<Label>, tree: Tree, q: Path, id: Id, k: nat) {
    && LandsAt(t, plans, ls, k, id, q) && q in tree && tree[q] == File(plans[id].content)
    && (NoLinkTowards(t, plans[id].target) ==> q == plans[id].target)
  }

  /** A location holds what it held before, a new directory, or one writer's whole content. */
  ghost predicate Whole(t: Tree, plans: map<Id, Plan>, ls: seq<Label>, tree: Tree, q: Path) {
    && q in tree
    && (|| (q in t && tree[q] == t[q])
        || (q !in t && tree[q] == Dir)
        || exists id, k :: Arrived(t, plans, ls, tree, q, id, k))
  }

  /** A writer's temporary file holds a beginning of its content. */
  ghost predicate Partial(plans: map<Id, Plan>, tree: Tree, q: Path) {
    exists id :: id in plans && IsPartial(plans, tree, q, id)
  }

  ghost predicate IsPartial(plans: map<Id, Plan>, tree: Tree, q: Path, id: Id)
    requires id in plans
  {
    q in tree && tree[q].File? && tree[q].bytes <= plans[id].content && q != [] && q[|q| - 1] == TempOf(plans, id)
  }

  lemma TempIsPartial(plans: map<Id, Plan>, s: State, q: Path, id: Id)
    requires id in plans && OwnerOk(plans, s, id) && Owns(s, id, q)
    ensures IsPartial(plans, s.tree, q, id)
  {
  }

  lemma LandedIsWhole(t: Tree, plans: map<Id, Plan>, ls: seq<Label>, q: Path, id: Id)
    requires Planned(t, plans) && Exec(t, plans, ls).Some? && LandedBy(plans, Exec(t, plans, ls).value, id, q)
    ensures Whole(t, plans, ls, Exec(t, plans, ls).value.tree, q)
  {
    var k := LandedWhen(t, plans, ls, id, q);
    if NoLinkTowards(t, plans[id].target) {
      LandsAtTarget(t, plans, ls, k, id, q);
    }
    assert Arrived(t, plans, ls, Exec(t, plans, ls).value.tree, q, id, k);
  }

  /** Crash atomicity: whenever and wherever the writers are stopped, nothing is lost, and every location
      is whole or is a temporary file. */
  lemma CrashAtomicity(t: Tree, plans: map<Id, Plan>, ls: seq<Label>, q: Path)
    requires Planned(t, plans) && Exec(t, plans, ls).Some?
    ensures q in t ==> q in Exec(t, plans, ls).value.tree && (t[q] == Dir ==> Exec(t, plans, ls).value.tree[q] == Dir)
    ensures q in Exec(t, plans, ls).value.tree ==>
              if NameFree(plans, q) then Whole(t, plans, ls, Exec(t, plans, ls).value.tree, q)
              else Partial(plans, Exec(t, plans, ls).value.tree, q)
  {
    RunKept(t, plans, ls);
    var s := Exec(t, plans, ls).value;
    assert q in t ==> Kept(t, s, q);
    if q in s.tree {
      assert PlaceOk(t, plans, s, q);
      if !NameFree(plans, q) {
        var id :| id in plans && Owns(s, id, q);
        assert OwnerOk(plans, s, id);
        TempIsPartial(plans, s, q, id);
      } else if !(q in t && s.tree[q] == t[q]) && !(q !in t && s.tree[q] == Dir) {
        var id :| LandedBy(plans, s, id, q);
        LandedIsWhole(t, plans, ls, q, id);
      }
    }
  }

  // ---- The write as a run ----------------------------------------------------------------------

  /** Some run of the writers, stopped somewhere, leaves `tree`. */
  ghost predicate Reachable(t: Tree, plans: map<Id, Plan>, tree: Tree) {
    exists ls :: Exec(t, plans, ls).Some? && Exec(t, plans, ls).value.tree == tree
  }

  /** The writer `id` stands where its calls have brought it. */
  ghost predicate StandsAt(s: State, id: Id, progress: Progress) {
    && id in s.stages
    && match progress
       case Parents => s.stages[id] == Preparing
       case Filling(at, done) => s.stages[id] == Writing(at, done)
       case Over => true
       case Astray => false
  }

  lemma OneMoreStep(t: Tree, plans: map<Id, Plan>, ls: seq<Label>, l: Label, s': State)
    requires Exec(t, plans, ls).Some? && Apply(plans, Exec(t, plans, ls).value, l) == Some(s')
    ensures Exec(t, plans, ls + [l]) == Some(s')
  {
    assert (ls + [l])[..|ls|] == ls;
  }

  /** The steps `ls`, one or two, lead to the tree after a call and to the writer's new progress. */
  ghost predicate Follows(plans: map<Id, Plan>, s: State, id: Id, ls: seq<Label>, tree: Tree, progress: Progress) {
    && 1 <= |ls| <= 2
    && var s1 := Apply(plans, s, ls[0]);
       && s1.Some?
       && var s' := if |ls| == 1 then s1 else Apply(plans, s1.value, ls[1]);
          s'.Some? && s'.value.tree == tree && StandsAt(s'.value, id, progress)
  }

  ghost function After(plan: Plan, progress: Progress, call: Call): Progress {
    Advance(plan.target, plan.temp, plan.content, progress, call)
  }

  lemma MkdirIsStep(plans: map<Id, Plan>, s: State, id: Id, progress: Progress, call: Call, tree: Tree)
    requires PlanOk(plans, id) && StandsAt(s, id, progress) && Execute(s.tree, call) == Some(tree)
    requires After(plans[id], progress, call) != Astray && call.MkdirCall?
    ensures Follows(plans, s, id, [MakeParent(id, |call.p|)], tree, After(plans[id], progress, call))
  {
    assert call.p == plans[id].target[..|call.p|];
  }

  lemma CreateIsStep(plans: map<Id, Plan>, s: State, id: Id, progress: Progress, call: Call, tree: Tree)
    requires PlanOk(plans, id) && StandsAt(s, id, progress) && Execute(s.tree, call) == Some(tree)
    requires After(plans[id], progress, call) != Astray && call.CreateCall?
    ensures Follows(plans, s, id, [OpenTemp(id)], tree, After(plans[id], progress, call))
  {
  }

  lemma WriteIsStep(plans: map<Id, Plan>, s: State, id: Id, progress: Progress, call: Call, tree: Tree)
    requires PlanOk(plans, id) && StandsAt(s, id, progress) && Execute(s.tree, call) == Some(tree)
    requires After(plans[id], progress, call) != Astray && call.WriteCall?
    ensures Follows(plans, s, id, [Append(id)], tree, After(plans[id], progress, call))
  {
  }

  lemma RenameIsStep(plans: map<Id, Plan>, s: State, id: Id, progress: Progress, call: Call, tree: Tree)
    requires PlanOk(plans, id) && StandsAt(s, id, progress) && Execute(s.tree, call) == Some(tree)
    requires After(plans[id], progress, call) != Astray && call.RenameCall?
    ensures Follows(plans, s, id, [Land(id)], tree, After(plans[id], progress, call))
  {
  }

  lemma UnlinkIsSteps(plans: map<Id, Plan>, s: State, id: Id, progress: Progress, call: Call, tree: Tree)
    requires PlanOk(plans, id) && StandsAt(s, id, progress) && Execute(s.tree, call) == Some(tree)
    requires After(plans[id], progress, call) != Astray && call.UnlinkCall?
    ensures Follows(plans, s, id, [WriteError(id), Drop(id)], tree, After(plans[id], progress, call))
  {
  }

  /** Every call of a write is a step of its writer, a removal two. */
  lemma CallIsStep(
      plans: map<Id, Plan>, s: State, id: Id, progress: Progress, call: Call, tree: Tree) returns (ls: seq<Label>)
    requires PlanOk(plans, id) && StandsAt(s, id, progress) && Execute(s.tree, call) == Some(tree)
    requires After(plans[id], progress, call) != Astray
    ensures Follows(plans, s, id, ls, tree, After(plans[id], progress, call))
  {
    match call {
      case MkdirCall(p) =>
        ls := [MakeParent(id, |p|)];
        MkdirIsStep(plans, s, id, progress, call, tree);
      case CreateCall(_, _) =>
        ls := [OpenTemp(id)];
        CreateIsStep(plans, s, id, progress, call, tree);
      case WriteCall(_, _) =>
        ls := [Append(id)];
        WriteIsStep(plans, s, id, progress, call, tree);
      case UnlinkCall(_) =>
        ls := [WriteError(id), Drop(id)];
        UnlinkIsSteps(plans, s, id, progress, call, tree);
      case RenameCall(_, _) =>
        ls := [Land(id)];
        RenameIsStep(plans, s, id, progress, call, tree);
    }
  }

  /** The run `ls` leaves `tree`, with writer `id` where its calls have brought it. */
  ghost predicate RunsTo(t: Tree, plans: map<Id, Plan>, ls: seq<Label>, id: Id, tree: Tree, progress: Progress) {
    && Exec(t, plans, ls).Some? && Exec(t, plans, ls).value.tree == tree
    && StandsAt(Exec(t, plans, ls).value, id, progress)
  }

  lemma StartsOff(t: Tree, plans: map<Id, Plan>, id: Id)
    requires PlanOk(plans, id)
    ensures RunsTo(t, plans, [Check(id, true)], id, t, Parents)
  {
    OneMoreStep(t, plans, [], Check(id, true), Go(Init(t, plans), id, Preparing));
    assert [] + [Check(id, true)] == [Check(id, true)];
  }

  /** Where the calls from position `from` to `n` bring the writer. */
  ghost function ProgressAt(plan: Plan, calls: seq<Call>, from: nat, n: nat): Progress
    requires n <= |calls|
  {
    ProgressOf(plan.target, plan.temp, plan.content, calls[..n], from)
  }

  lemma ProgressStep(plan: Plan, calls: seq<Call>, from: nat, n: nat)
    requires from < n <= |calls|
    ensures ProgressAt(plan, calls, from, n) == After(plan, ProgressAt(plan, calls, from, n - 1), calls[n - 1])
    ensures ProgressAt(plan, calls, from, n) != Astray ==> ProgressAt(plan, calls, from, n - 1) != Astray
  {
    assert calls[..n][..n - 1] == calls[..n - 1];
  }

  lemma ProgressStart(plan: Plan, calls: seq<Call>, from: nat)
    requires from <= |calls|
    ensures ProgressAt(plan, calls, from, from) == Parents
  {
  }

  /** The calls from position `from` to `n`, as a run that stands where they have come. */
  lemma {:induction false} CallsAreRun(
      t: Tree, plans: map<Id, Plan>, id: Id, trail: seq<Tree>, calls: seq<Call>, from: nat, n: nat)
    returns (ls: seq<Label>)
    requires PlanOk(plans, id) && IsRecord(trail, calls) && from <= n <= |calls| && trail[from] == t
    requires ProgressAt(plans[id], calls, from, n) != Astray
    ensures RunsTo(t, plans, ls, id, trail[n], ProgressAt(plans[id], calls, from, n))
    decreases n
  {
    if n == from {
      ls := [Check(id, true)];
      ProgressStart(plans[id], calls, from);
      StartsOff(t, plans, id);
    } else {
      ProgressStep(plans[id], calls, from, n);
      var less := CallsAreRun(t, plans, id, trail, calls, from, n - 1);
      RecordedCall(trail, calls, n - 1);
      ls := OneMoreCall(t, plans, less, id, ProgressAt(plans[id], calls, from, n - 1), trail[n - 1], calls[n - 1],
                        trail[n]);
    }
  }

  lemma RecordedCall(trail: seq<Tree>, calls: seq<Call>, k: nat)
    requires IsRecord(trail, calls) && k < |calls|
    ensures Execute(trail[k], calls[k]) == Some(trail[k + 1])
  {
  }

  lemma OneMoreCall(
      t: Tree, plans: map<Id, Plan>, ls: seq<Label>, id: Id, progress: Progress, tree: Tree, call: Call, tree': Tree)
    returns (more: seq<Label>)
    requires PlanOk(plans, id) && RunsTo(t, plans, ls, id, tree, progress) && Execute(tree, call) == Some(tree')
    requires After(plans[id], progress, call) != Astray
    ensures RunsTo(t, plans, more, id, tree', After(plans[id], progress, call))
  {
    var s := Exec(t, plans, ls).value;
    var steps := CallIsStep(plans, s, id, progress, call, tree');
    more := TakenSteps(t, plans, ls, id, steps, tree', After(plans[id], progress, call));
  }

  lemma TakenSteps(
      t: Tree, plans: map<Id, Plan>, ls: seq<Label>, id: Id, steps: seq<Label>, tree: Tree, progress: Progress)
    returns (more: seq<Label>)
    requires Exec(t, plans, ls).Some? && Follows(plans, Exec(t, plans, ls).value, id, steps, tree, progress)
    ensures RunsTo(t, plans, more, id, tree, progress)
  {
    var s1 := Apply(plans, Exec(t, plans, ls).value, steps[0]).value;
    OneMoreStep(t, plans, ls, steps[0], s1);
    more := ls + [steps[0]];
    if |steps| == 2 {
      OneMoreStep(t, plans, more, steps[1], Apply(plans, s1, steps[1]).value);
      more := more + [steps[1]];
    }
  }

  lemma {:induction false} ProgressBefore(
      target: Path, temp: Path, content: seq<byte>, calls: seq<Call>, from: nat, n: nat)
    requires from <= n <= |calls| && ProgressOf(target, temp, content, calls, from) != Astray
    ensures ProgressOf(target, temp, content, calls[..n], from) != Astray
  {
    if n < |calls| {
      ProgressBefore(target, temp, content, calls[..|calls| - 1], from, n);
      assert calls[..|calls| - 1][..n] == calls[..n];
    } else {
      assert calls[..n] == calls;
    }
  }

  /**
   * Refinement: every state `file_write` passes through is one in which some run of the writers, of which
   * it is one, may be stopped. What is proved of all runs holds of a write and of a crash at any of its
   * calls.
   */
  method WriteAsRun(disk: Volume, id: Id, plan: Plan, fault: Fault, ghost plans: map<Id, Plan>)
    returns (r: Result<nat, AmaError>)
    requires disk.Valid() && Planned(disk.tree, plans) && id in plans && plans[id] == plan
    modifies disk
    ensures disk.Valid() && |old(disk.calls)| <= |disk.calls|
    ensures r.Ok? <==> Writable(old(disk.tree), plan.target) && !Strikes(fault, plan.content)
    ensures forall k :: |old(disk.calls)| <= k <= |disk.calls| ==> Reachable(old(disk.tree), plans, disk.trail[k])
  {
    ghost var t, from := disk.tree, |disk.calls|;
    ghost var trail := disk.trail;
    assert PlanOk(plans, id);
    TempIsFree(t, plans, id);
    r := FileWrite(disk, plan.target, plan.content, id, fault);
    assert disk.trail[from] == t;
    forall k | from <= k <= |disk.calls| ensures Reachable(t, plans, disk.trail[k]) {
      ProgressBefore(plan.target, plan.temp, plan.content, disk.calls, from, k);
      var ls := CallsAreRun(t, plans, id, disk.trail, disk.calls, from, k);
    }
  }

  lemma TempIsFree(t: Tree, plans: map<Id, Plan>, id: Id)
    requires Planned(t, plans) && PlanOk(plans, id)
    ensures TempPath(plans[id].target, id) !in t
  {
    var temp := plans[id].temp;
    assert temp[|temp| - 1] == TempOf(plans, id);
    assert temp in t ==> NameFree(plans, temp);
  }

  lemma TempIsOrphan(name: Name, id: Id)
    ensures Orphan(TempName(name, id))
  {
    var n := TempName(name, id);
    assert n == (name + INFIX) + (id + SUFFIX);
    assert OccursAt(n, INFIX, |name|);
    assert n[|n| - |SUFFIX|..] == SUFFIX;
  }

  /** A location that is whole stays so as long as it stays. */
  lemma WholeStays(t: Tree, plans: map<Id, Plan>, ls: seq<Label>, tree: Tree, tree': Tree, q: Path)
    requires Whole(t, plans, ls, tree, q) && q in tree' && tree'[q] == tree[q]
    ensures Whole(t, plans, ls, tree', q)
  {
    if !(q in t && tree[q] == t[q]) && !(q !in t && tree[q] == Dir) {
      var id, k :| Arrived(t, plans, ls, tree, q, id, k);
      assert Arrived(t, plans, ls, tree', q, id, k);
    }
  }

  /**
   * Recovery: the cleanup at the next start removes every unfinished temporary file below a workspace root
   * that is its own physical location, if all directories can be listed and the file can be removed; and no
   * directory and nothing whose name lacks the pattern, old or newly landed. Below the root everything is
   * then whole. Nothing elsewhere is touched unless a link below the root leads out of it.
   */
  method Recover(
      disk: Volume, root: Path, unreadable: set<Path>, stuck: set<Path>,
      ghost t: Tree, ghost plans: map<Id, Plan>, ghost ls: seq<Label>)
    returns (cleaned: nat)
    requires Planned(t, plans) && Exec(t, plans, ls).Some?
    requires disk.Valid() && disk.tree == Exec(t, plans, ls).value.tree
    modifies disk
    ensures disk.Valid() && cleaned + |disk.tree| == |old(disk.tree)|
    ensures OnlyOrphansGone(old(disk.tree), disk.tree)
    ensures forall q :: q in disk.tree && NameFree(plans, q) ==> Whole(t, plans, ls, disk.tree, q)
    ensures forall q :: q in t && (q == [] || t[q] == Dir || !Orphan(q[|q| - 1])) ==> q in disk.tree
    ensures Listable(old(disk.tree), root, unreadable) && IsDir(old(disk.tree), root) && IsDir(disk.tree, root) ==>
              forall q :: q in disk.tree && q in Below(old(disk.tree), Locate(old(disk.tree), root).at) - stuck ==>
                            Whole(t, plans, ls, disk.tree, q)
    ensures Listable(old(disk.tree), root, unreadable) && root in t && t[root] == Dir ==>
              forall q :: q in disk.tree && q !in stuck && root <= q ==> Whole(t, plans, ls, disk.tree, q)
    ensures root in t && t[root] == Dir && LinksStayInside(old(disk.tree), root) ==>
              forall q :: q in old(disk.tree) && q !in disk.tree ==> root <= q && root != q
  {
    ghost var s := disk.tree;
    cleaned := CleanupOrphanTemps(disk, root, unreadable, stuck);
    if root in t && t[root] == Dir {
      CrashAtomicity(t, plans, ls, root);
    }
    if Listable(s, root, unreadable) && IsDir(s, root) && IsDir(disk.tree, root) {
      forall q | q in disk.tree && q in Below(s, Locate(s, root).at) - stuck ensures NameFree(plans, q) {
        TempsAreSwept(t, plans, ls, s, disk.tree, root, stuck, q);
      }
    }
    forall q | q in disk.tree && NameFree(plans, q) ensures Whole(t, plans, ls, disk.tree, q) {
      CrashAtomicity(t, plans, ls, q);
      WholeStays(t, plans, ls, s, disk.tree, q);
    }
    forall q | q in t && (q == [] || t[q] == Dir || !Orphan(q[|q| - 1])) ensures q in disk.tree {
      CrashAtomicity(t, plans, ls, q);
    }
    if Listable(s, root, unreadable) && root in t && t[root] == Dir {
      forall q | q in disk.tree && q !in stuck && root <= q ensures NameFree(plans, q) {
        if q == root {
          assert NameFree(plans, root);
        } else {
          LocatePhysical(s, root);
          TempsAreSwept(t, plans, ls, s, disk.tree, root, stuck, q);
        }
      }
    }
  }

  lemma TempHasPattern(t: Tree, plans: map<Id, Plan>, ls: seq<Label>, q: Path)
    requires Planned(t, plans) && Exec(t, plans, ls).Some? && q in Exec(t, plans, ls).value.tree && !NameFree(plans, q)
    ensures q != [] && Exec(t, plans, ls).value.tree[q].File? && Orphan(q[|q| - 1])
  {
    CrashAtomicity(t, plans, ls, q);
    var id :| id in plans && IsPartial(plans, Exec(t, plans, ls).value.tree, q, id);
    assert PlanOk(plans, id);
    TempIsOrphan(plans[id].target[|plans[id].target| - 1], id);
  }

  lemma TempsAreSwept(
      t: Tree, plans: map<Id, Plan>, ls: seq<Label>, s: Tree, s': Tree, root: Path, stuck: set<Path>, q: Path)
    requires Planned(t, plans) && Exec(t, plans, ls).Some? && s == Exec(t, plans, ls).value.tree
    requires IsDir(s, root) && AllSwept(s, s', root, stuck) && OnlyOrphansGone(s, s') && q !in stuck
    requires q in s' && q in Below(s, Locate(s, root).at)
    ensures NameFree(plans, q)
  {
    if !NameFree(plans, q) {
      TempHasPattern(t, plans, ls, q);
    }
  }
}
