/** Workspace paths: from a relative string to a canonical path under an agent's root. */
module Workspace {
  import opened Common
  import opened Errors
  import opened FileTree

  /** The pieces of `s` between separators; at least one, possibly empty. */
  function Split(s: string, seps: set<char>): (pieces: seq<string>)
    ensures |pieces| >= 1
  {
    if s == [] then [[]]
    else
      var rest := Split(s[1..], seps);
      if s[0] in seps then [[]] + rest else [[s[0]] + rest[0]] + rest[1..]
  }

  const SLASH: set<char> := {'/'}
  const SLASHES: set<char> := {'/', '\\'}

  predicate DoubleSlash(s: string) {
    exists i :: 0 <= i < |s| - 1 && s[i] == '/' && s[i + 1] == '/'
  }

  /** The textual checks on a request's path. */
  predicate Acceptable(relative: string) {
    && relative != [] && relative[0] != '/' && relative[0] != '\\' && ':' !in relative
    && ".." !in Split(relative, SLASHES)
    && !([] in Split(relative, SLASHES) && DoubleSlash(relative))
  }

  // ---- What splitting and the textual checks mean ----------------------------------------------

  /** `s[i..j]` is a piece: separators or an end on both sides, none inside. */
  ghost predicate IsPiece(s: string, seps: set<char>, i: nat, j: nat) {
    && i <= j <= |s| && (i == 0 || s[i - 1] in seps) && (j == |s| || s[j] in seps)
    && forall k :: i <= k < j ==> s[k] !in seps
  }

  /** The pieces joined again, with a slash between them. */
  function Join(pieces: seq<string>): string
    requires |pieces| >= 1
  {
    if |pieces| == 1 then pieces[0] else pieces[0] + "/" + Join(pieces[1..])
  }

  /** `pieces` are the components of `s` between slashes. */
  ghost predicate SlashPieces(s: string, pieces: seq<string>) {
    |pieces| >= 1 && Join(pieces) == s && forall k :: 0 <= k < |pieces| ==> '/' !in pieces[k]
  }

  lemma {:induction false} JoinUnique(s: string, pieces: seq<string>)
    requires SlashPieces(s, pieces)
    ensures Split(s, SLASH) == pieces
    decreases |s|, |pieces|
  {
    var first := pieces[0];
    if first == [] {
      if |pieces| > 1 {
        assert s == "/" + Join(pieces[1..]);
        assert s[1..] == Join(pieces[1..]);
        JoinUnique(s[1..], pieces[1..]);
        assert pieces == [[]] + pieces[1..];
      } else {
        assert pieces == [[]];
      }
    } else {
      var less := [first[1..]] + pieces[1..];
      assert first[0] in first;
      assert Join(less) == s[1..] by {
        if |pieces| > 1 {
          assert less[1..] == pieces[1..];
          assert first + "/" + Join(pieces[1..]) == [first[0]] + (first[1..] + "/" + Join(pieces[1..]));
        }
      }
      forall k | 0 <= k < |less| ensures '/' !in less[k] {
        if k == 0 {
          assert forall c :: c in first[1..] ==> c in first;
        } else {
          assert less[k] == pieces[k];
        }
      }
      JoinUnique(s[1..], less);
      assert [first[0]] + first[1..] == first && pieces == [first] + pieces[1..];
    }
  }

  lemma {:induction false} SplitJoins(s: string)
    ensures SlashPieces(s, Split(s, SLASH))
  {
    if s != [] {
      SplitJoins(s[1..]);
      var rest := Split(s[1..], SLASH);
      var pieces := Split(s, SLASH);
      if s[0] == '/' {
        assert pieces[1..] == rest;
        assert Join(pieces) == "/" + Join(rest) == [s[0]] + s[1..];
      } else {
        assert pieces[1..] == rest[1..];
        if |rest| > 1 {
          assert ([s[0]] + rest[0]) + "/" + Join(rest[1..]) == [s[0]] + (rest[0] + "/" + Join(rest[1..]));
        }
        assert Join(pieces) == [s[0]] + s[1..];
      }
    }
  }

  /** The first piece, and a later one. */
  ghost predicate FirstPiece(s: string, seps: set<char>, piece: string) {
    exists j: nat :: IsPiece(s, seps, 0, j) && s[..j] == piece
  }

  ghost predicate LaterPiece(s: string, seps: set<char>, piece: string) {
    exists i: nat, j: nat :: 1 <= i && IsPiece(s, seps, i, j) && s[i..j] == piece
  }

  lemma PieceShift(s: string, seps: set<char>, i: nat, j: nat)
    requires s != [] && 1 <= i <= j <= |s|
    ensures IsPiece(s, seps, i, j) <==> IsPiece(s[1..], seps, i - 1, j - 1) && (i == 1 ==> s[0] in seps)
    ensures s[i..j] == s[1..][i - 1..j - 1]
  {
    var u := s[1..];
    assert forall k :: 1 <= k < |s| ==> s[k] == u[k - 1];
    if IsPiece(u, seps, i - 1, j - 1) {
      forall k | i <= k < j ensures s[k] !in seps {
        assert u[k - 1] !in seps;
      }
    }
    if IsPiece(s, seps, i, j) {
      forall k | i - 1 <= k < j - 1 ensures u[k] !in seps {
        assert s[k + 1] !in seps;
      }
    }
  }

  lemma FirstShift(s: string, seps: set<char>, j: nat)
    requires s != [] && s[0] !in seps && 1 <= j <= |s|
    ensures IsPiece(s, seps, 0, j) <==> IsPiece(s[1..], seps, 0, j - 1)
    ensures s[..j] == [s[0]] + s[1..][..j - 1]
  {
    var u := s[1..];
    assert forall k :: 1 <= k < |s| ==> s[k] == u[k - 1];
    if IsPiece(s, seps, 0, j) {
      forall k | 0 <= k < j - 1 ensures u[k] !in seps {
        assert s[k + 1] !in seps;
      }
    }
  }

  lemma LaterDown(s: string, seps: set<char>, i: nat, j: nat)
    requires s != [] && 1 <= i && IsPiece(s, seps, i, j)
    ensures if i == 1 then s[0] in seps && FirstPiece(s[1..], seps, s[i..j]) else LaterPiece(s[1..], seps, s[i..j])
  {
    PieceShift(s, seps, i, j);
    assert IsPiece(s[1..], seps, i - 1, j - 1) && s[1..][i - 1..j - 1] == s[i..j];
    if i == 1 {
      assert s[1..][..j - 1] == s[i..j];
    }
  }

  lemma LaterUp(s: string, seps: set<char>, i: nat, j: nat)
    requires s != [] && IsPiece(s[1..], seps, i, j) && (i == 0 ==> s[0] in seps)
    ensures LaterPiece(s, seps, s[1..][i..j])
  {
    PieceShift(s, seps, i + 1, j + 1);
    assert IsPiece(s, seps, i + 1, j + 1) && s[i + 1..j + 1] == s[1..][i..j];
  }

  lemma LaterPieces(s: string, seps: set<char>, piece: string)
    requires s != []
    ensures LaterPiece(s, seps, piece) <==>
            LaterPiece(s[1..], seps, piece) || (s[0] in seps && FirstPiece(s[1..], seps, piece))
  {
    var u := s[1..];
    if LaterPiece(s, seps, piece) {
      var i: nat, j: nat :| 1 <= i && IsPiece(s, seps, i, j) && s[i..j] == piece;
      LaterDown(s, seps, i, j);
    }
    if LaterPiece(u, seps, piece) {
      var i: nat, j: nat :| 1 <= i && IsPiece(u, seps, i, j) && u[i..j] == piece;
      LaterUp(s, seps, i, j);
    }
    if s[0] in seps && FirstPiece(u, seps, piece) {
      var j: nat :| IsPiece(u, seps, 0, j) && u[..j] == piece;
      assert u[0..j] == piece;
      LaterUp(s, seps, 0, j);
    }
  }

  lemma FirstAtSeparator(s: string, seps: set<char>, piece: string)
    requires s != [] && s[0] in seps
    ensures FirstPiece(s, seps, piece) <==> piece == []
  {
    assert IsPiece(s, seps, 0, 0) && s[..0] == [];
  }

  lemma FirstAtCharacter(s: string, seps: set<char>, piece: string)
    requires s != [] && s[0] !in seps
    ensures FirstPiece(s, seps, piece) <==> piece != [] && piece[0] == s[0] && FirstPiece(s[1..], seps, piece[1..])
  {
    var u := s[1..];
    if FirstPiece(s, seps, piece) {
      var j: nat :| IsPiece(s, seps, 0, j) && s[..j] == piece;
      FirstShift(s, seps, j);
      assert IsPiece(u, seps, 0, j - 1) && u[..j - 1] == piece[1..];
    }
    if piece != [] && piece[0] == s[0] && FirstPiece(u, seps, piece[1..]) {
      var j: nat :| IsPiece(u, seps, 0, j) && u[..j] == piece[1..];
      FirstShift(s, seps, j + 1);
      assert IsPiece(s, seps, 0, j + 1) && s[..j + 1] == [s[0]] + piece[1..] == piece;
    }
  }

  lemma {:induction false} PieceMeans(s: string, seps: set<char>, piece: string)
    ensures Split(s, seps)[0] == piece <==> FirstPiece(s, seps, piece)
    ensures piece in Split(s, seps)[1..] <==> LaterPiece(s, seps, piece)
    decreases |s|
  {
    if s == [] {
      assert IsPiece(s, seps, 0, 0) && s[..0] == [];
    } else {
      var rest := Split(s[1..], seps);
      assert rest == [rest[0]] + rest[1..];
      PieceMeans(s[1..], seps, piece);
      LaterPieces(s, seps, piece);
      if s[0] in seps {
        FirstAtSeparator(s, seps, piece);
        assert Split(s, seps)[1..] == rest;
      } else {
        FirstAtCharacter(s, seps, piece);
        assert Split(s, seps)[1..] == rest[1..];
        if piece != [] {
          PieceMeans(s[1..], seps, piece[1..]);
          assert Split(s, seps)[0] == piece <==> piece[0] == s[0] && rest[0] == piece[1..];
        }
      }
    }
  }

  /** A piece anywhere. */
  lemma PieceIn(s: string, seps: set<char>, piece: string)
    ensures piece in Split(s, seps) <==> exists i: nat, j: nat :: IsPiece(s, seps, i, j) && s[i..j] == piece
  {
    PieceMeans(s, seps, piece);
    var pieces := Split(s, seps);
    assert pieces == [pieces[0]] + pieces[1..];
    if j: nat :| IsPiece(s, seps, 0, j) && s[..j] == piece {
      assert IsPiece(s, seps, 0, j) && s[0..j] == piece;
    }
    if i: nat, j: nat :| IsPiece(s, seps, i, j) && s[i..j] == piece {
      if i == 0 {
        assert s[..j] == piece;
      }
    }
  }

  /** The textual checks in terms of the text: not empty, not absolute, no colon, no `..` between separators of
      either kind, no two slashes in a row. */
  ghost predicate TextOk(s: string) {
    && |s| >= 1 && s[0] != '/' && s[0] != '\\' && (forall k :: 0 <= k < |s| ==> s[k] != ':')
    && (forall i: nat, j: nat :: IsPiece(s, {'/', '\\'}, i, j) ==> s[i..j] != "..")
    && (forall k :: 0 <= k < |s| - 1 ==> !(s[k] == '/' && s[k + 1] == '/'))
  }

  lemma AcceptableMeans(s: string)
    ensures Acceptable(s) <==> TextOk(s)
  {
    PieceIn(s, SLASHES, "..");
    if i :| 0 <= i < |s| - 1 && s[i] == '/' && s[i + 1] == '/' {
      assert IsPiece(s, SLASHES, i + 1, i + 1) && s[i + 1..i + 1] == [];
      PieceIn(s, SLASHES, []);
    }
  }

  /** A piece without backslash survives the finer splitting, so the `..` test covers the components the
      kernel will see. */
  lemma {:induction false} CoarsePieces(s: string, piece: string)
    requires '\\' !in piece
    ensures Split(s, SLASH)[0] == piece ==> Split(s, SLASHES)[0] == piece
    ensures piece in Split(s, SLASH)[1..] ==> piece in Split(s, SLASHES)[1..]
  {
    if s != [] {
      var coarse, fine := Split(s[1..], SLASH), Split(s[1..], SLASHES);
      CoarsePieces(s[1..], piece);
      if s[0] == '/' {
        CoarsePieces(s[1..], piece);
        assert Split(s, SLASH)[1..] == coarse && Split(s, SLASHES)[1..] == fine;
      } else if s[0] == '\\' {
        assert Split(s, SLASH)[0][0] == '\\';
        assert Split(s, SLASH)[1..] == coarse[1..] && Split(s, SLASHES)[1..] == fine;
      } else {
        if Split(s, SLASH)[0] == piece {
          assert piece == [s[0]] + coarse[0];
          assert piece[1..] == coarse[0];
          CoarsePieces(s[1..], piece[1..]);
        }
        assert Split(s, SLASH)[1..] == coarse[1..] && Split(s, SLASHES)[1..] == fine[1..];
      }
    }
  }

  lemma NoParentPieces(relative: string)
    requires Acceptable(relative)
    ensures ".." !in Split(relative, SLASH)
  {
    CoarsePieces(relative, "..");
    var pieces := Split(relative, SLASH);
    assert pieces == [pieces[0]] + pieces[1..];
  }

  /** `Path::components`: separators and `.` dropped. */
  function Normal(raw: Path): Path {
    if raw == [] then []
    else (if raw[0] == "" || raw[0] == "." then [] else [raw[0]]) + Normal(raw[1..])
  }

  lemma {:induction false} NormalPlain(raw: Path)
    requires ".." !in raw
    ensures forall n :: n in Normal(raw) ==> Plain(n)
  {
    if raw != [] {
      NormalPlain(raw[1..]);
    }
  }

  function InvalidTarget(): AmaError {
    Validation(INVALID_TARGET, Text([]))
  }

  function EffectiveRoot(root: Path, agent: Option<string>): Path {
    match agent
    case Some(id) => root + [id]
    case None => root
  }

  /**
   * The canonical path a request's path stands for. An existing file is resolved; otherwise an existing
   * parent is resolved and the name appended; otherwise the path is taken as written.
   */
  function Canonical(t: Tree, joined: Path): Option<Path> {
    var plain := Normal(joined);
    if Exists(t, joined) then Some(Locate(t, joined).at)
    else if plain == [] then Some(plain)
    else if Exists(t, Parent(plain)) then
      if plain[|plain| - 1] == ".." then None else Some(Locate(t, Parent(plain)).at + [plain[|plain| - 1]])
    else Some(plain)
  }

  function RootOf(t: Tree, effective: Path): Path {
    if Exists(t, effective) then Locate(t, effective).at else effective
  }

  /** `WorkspacePath::new_with_agent`. */
  function NewWorkspacePath(t: Tree, relative: string, root: Path, agent: Option<string>): Result<Path, AmaError> {
    if !Acceptable(relative) then Err(InvalidTarget())
    else
      var effective := EffectiveRoot(root, agent);
      match Canonical(t, effective + Split(relative, SLASH))
      case None => Err(InvalidTarget())
      case Some(canonical) =>
        if RootOf(t, effective) <= canonical then Ok(canonical) else Err(InvalidTarget())
  }

  // ---- What an accepted path stands for --------------------------------------------------------

  /** `plain` is `raw` without empty components and `.`, read from the end. */
  ghost predicate Cleaned(raw: Path, plain: Path) {
    if raw == [] then plain == []
    else if raw[|raw| - 1] == "" || raw[|raw| - 1] == "." then Cleaned(Parent(raw), plain)
    else plain != [] && plain[|plain| - 1] == raw[|raw| - 1] && Cleaned(Parent(raw), Parent(plain))
  }

  lemma {:induction false} NormalOfSum(a: Path, b: Path)
    ensures Normal(a + b) == Normal(a) + Normal(b)
  {
    if a == [] {
      assert a + b == b;
    } else {
      assert (a + b)[1..] == a[1..] + b;
      NormalOfSum(a[1..], b);
    }
  }

  lemma {:induction false} CleanedIsNormal(raw: Path, plain: Path)
    requires Cleaned(raw, plain)
    ensures plain == Normal(raw)
    decreases |raw|
  {
    if raw != [] {
      var last := raw[|raw| - 1];
      assert raw == Parent(raw) + [last];
      NormalOfSum(Parent(raw), [last]);
      assert [last][1..] == [];
      if last == "" || last == "." {
        CleanedIsNormal(Parent(raw), plain);
      } else {
        CleanedIsNormal(Parent(raw), Parent(plain));
        assert plain == Parent(plain) + [last];
      }
    }
  }

  /** Nothing but empty components and `.` is the root. */
  lemma {:induction false} OnlyDots(t: Tree, raw: Path)
    requires WellFormed(t) && Cleaned(raw, [])
    ensures Locate(t, raw) == Reached([], MAX_LINKS)
    decreases |raw|
  {
    if raw != [] {
      var last := raw[|raw| - 1];
      assert raw == Parent(raw) + [last];
      OnlyDots(t, Parent(raw));
      ResolveSplit(t, [], Parent(raw), [last], MAX_LINKS);
      assert [last][1..] == [];
    }
  }

  /** The agent's root, resolved if it exists. */
  ghost predicate IsRoot(t: Tree, root: Path, agent: Option<string>, effective: Path, resolved: Path) {
    && effective == root + (if agent.Some? then [agent.value] else [])
    && resolved == if Locate(t, effective).Reached? then Locate(t, effective).at else effective
  }

  /** An existing path, links on it or in its last place included, is accepted exactly when its text is in
      order and the location it resolves to lies under the resolved root; it stands for that location. */
  lemma PathOfExisting(
      t: Tree, relative: string, root: Path, agent: Option<string>, effective: Path, resolved: Path,
      pieces: seq<string>)
    requires IsRoot(t, root, agent, effective, resolved) && SlashPieces(relative, pieces)
    requires Locate(t, effective + pieces).Reached?
    ensures var at := Locate(t, effective + pieces).at;
            NewWorkspacePath(t, relative, root, agent) ==
            if TextOk(relative) && resolved <= at then Ok(at) else Err(InvalidTarget())
  {
    JoinUnique(relative, pieces);
    AcceptableMeans(relative);
    assert root + [] == root;
  }

  /** A new name in an existing directory: the directory's location with that name. */
  lemma PathOfNew(
      t: Tree, relative: string, root: Path, agent: Option<string>, effective: Path, resolved: Path,
      pieces: seq<string>, dir: Path, name: Name)
    requires WellFormed(t) && IsRoot(t, root, agent, effective, resolved) && SlashPieces(relative, pieces)
    requires PlainPath(effective) && Cleaned(effective + pieces, dir + [name])
    requires !Locate(t, effective + pieces).Reached? && Locate(t, dir).Reached?
    ensures var at := Locate(t, dir).at + [name];
            NewWorkspacePath(t, relative, root, agent) ==
            if TextOk(relative) && resolved <= at then Ok(at) else Err(InvalidTarget())
  {
    JoinUnique(relative, pieces);
    AcceptableMeans(relative);
    CleanedIsNormal(effective + pieces, dir + [name]);
    assert root + [] == root && Parent(dir + [name]) == dir;
    if Acceptable(relative) {
      NoParentPieces(relative);
      NormalPlain(effective + pieces);
      assert name in dir + [name];
    }
  }

  /** Where neither exists the path stands for itself. */
  lemma PathAsWritten(
      t: Tree, relative: string, root: Path, agent: Option<string>, effective: Path, resolved: Path,
      pieces: seq<string>, plain: Path)
    requires WellFormed(t) && IsRoot(t, root, agent, effective, resolved) && SlashPieces(relative, pieces)
    requires Cleaned(effective + pieces, plain)
    requires !Locate(t, effective + pieces).Reached? && !Locate(t, Parent(plain)).Reached?
    ensures NewWorkspacePath(t, relative, root, agent) ==
            if TextOk(relative) && resolved <= plain then Ok(plain) else Err(InvalidTarget())
  {
    JoinUnique(relative, pieces);
    AcceptableMeans(relative);
    CleanedIsNormal(effective + pieces, plain);
    assert root + [] == root;
  }

  /** The three cases are all there are. */
  lemma EveryPath(t: Tree, relative: string, root: Path, agent: Option<string>)
    returns (effective: Path, resolved: Path, pieces: seq<string>, plain: Path)
    requires WellFormed(t)
    ensures IsRoot(t, root, agent, effective, resolved) && SlashPieces(relative, pieces)
    ensures Cleaned(effective + pieces, plain)
    ensures plain == [] ==> Locate(t, effective + pieces).Reached?
  {
    effective := root + (if agent.Some? then [agent.value] else []);
    resolved := if Locate(t, effective).Reached? then Locate(t, effective).at else effective;
    pieces := Split(relative, SLASH);
    SplitJoins(relative);
    plain := Normal(effective + pieces);
    NormalIsCleaned(effective + pieces);
    if plain == [] {
      OnlyDots(t, effective + pieces);
    }
  }

  lemma {:induction false} NormalIsCleaned(raw: Path)
    ensures Cleaned(raw, Normal(raw))
    decreases |raw|
  {
    if raw != [] {
      var last := raw[|raw| - 1];
      assert raw == Parent(raw) + [last];
      NormalOfSum(Parent(raw), [last]);
      assert [last][1..] == [];
      NormalIsCleaned(Parent(raw));
      if last != "" && last != "." {
        assert Parent(Normal(raw)) == Normal(Parent(raw));
      } else {
        assert Normal(raw) == Normal(Parent(raw));
      }
    }
  }

  /** A root the loader can accept: absolute, made of plain components. */
  ghost predicate PlainPath(p: Path) {
    forall n :: n in p ==> Plain(n)
  }

  lemma PhysicalIsPlain(t: Tree, p: Path)
    requires WellFormed(t) && p in t
    ensures PlainPath(p)
  {
    forall i | 0 <= i < |p| ensures Plain(p[i]) {
      PrefixIsDir(t, p, i);
    }
  }

  /** What acceptance gives: plain components, under the resolved root. */
  lemma AcceptedPath(t: Tree, relative: string, root: Path, agent: Option<string>)
    requires WellFormed(t) && PlainPath(EffectiveRoot(root, agent))
    requires NewWorkspacePath(t, relative, root, agent).Ok?
    ensures var p := NewWorkspacePath(t, relative, root, agent).value;
            PlainPath(p) && RootOf(t, EffectiveRoot(root, agent)) <= p
  {
    var effective := EffectiveRoot(root, agent);
    var joined := effective + Split(relative, SLASH);
    NoParentPieces(relative);
    assert ".." !in joined;
    NormalPlain(joined);
    if Exists(t, joined) {
      PhysicalIsPlain(t, Locate(t, joined).at);
    } else if Normal(joined) != [] && Exists(t, Parent(Normal(joined))) {
      PhysicalIsPlain(t, Locate(t, Parent(Normal(joined))).at);
    }
  }

  /** Agents whose roots are real directories of the workspace never share an accepted path. */
  lemma AgentsAreDisjoint(t: Tree, root: Path, a: string, b: string, relative: string, relative': string)
    requires WellFormed(t) && Exists(t, root) && a != b && Plain(a) && Plain(b)
    requires Locate(t, root).at + [a] in t && t[Locate(t, root).at + [a]] == Dir
    requires Locate(t, root).at + [b] in t && t[Locate(t, root).at + [b]] == Dir
    requires NewWorkspacePath(t, relative, root, Some(a)).Ok? && NewWorkspacePath(t, relative', root, Some(b)).Ok?
    ensures NewWorkspacePath(t, relative, root, Some(a)).value != NewWorkspacePath(t, relative', root, Some(b)).value
  {
    var base := Locate(t, root).at;
    RealRoot(t, root, a);
    RealRoot(t, root, b);
    assert (base + [a])[|base|] != (base + [b])[|base|];
  }

  lemma RealRoot(t: Tree, root: Path, a: string)
    requires WellFormed(t) && Exists(t, root) && Plain(a)
    requires Locate(t, root).at + [a] in t && t[Locate(t, root).at + [a]] == Dir
    ensures Exists(t, root + [a]) && RootOf(t, root + [a]) == Locate(t, root).at + [a]
  {
    var w := Locate(t, root);
    ResolveSplit(t, [], root, [a], MAX_LINKS);
    assert Parent(w.at + [a]) == w.at;
  }
}
