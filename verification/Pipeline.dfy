/** Structural validation of a request, and the argument vector of a shell intent. */
module Pipeline {
  import opened Common
  import opened Errors
  import opened FileTree
  import opened Workspace
  import opened Decimal

  const OPEN: string := ['{', '{']
  const CLOSE: string := ['}', '}']

  predicate OpensAt(s: string, i: nat) {
    i + 2 <= |s| && s[i] == '{' && s[i + 1] == '{'
  }

  /** `contains("{{")`: what counts as a placeholder when arguments are counted. */
  predicate MentionsOpen(s: string) {
    exists i :: 0 <= i < |s| && OpensAt(s, i)
  }

  /** What counts as one when the template is filled: the number between the braces. */
  function Index(s: string): Option<nat> {
    if |s| >= 4 && s[..2] == OPEN && s[|s| - 2..] == CLOSE then ParseUnsigned(s[2..|s| - 2]) else None
  }

  function Placeholder(i: nat): string {
    OPEN + Show(i) + CLOSE
  }

  lemma IndexOfPlaceholder(i: nat)
    requires i <= U64_MAX
    ensures Index(Placeholder(i)) == Some(i) && MentionsOpen(Placeholder(i))
  {
    var p := Placeholder(i);
    assert p[..2] == OPEN && p[|p| - 2..] == CLOSE && p[2..|p| - 2] == Show(i);
    ParseOfShow(i);
    assert OpensAt(p, 0);
  }

  lemma PlaceholdersDiffer(i: nat, j: nat)
    requires i <= U64_MAX && j <= U64_MAX && Placeholder(i) == Placeholder(j)
    ensures i == j
  {
    IndexOfPlaceholder(i);
    IndexOfPlaceholder(j);
  }

  // ---- Arguments -------------------------------------------------------------------------------

  /** Positions of the template entries that count as placeholders. */
  function Openings(template: seq<string>): set<nat> {
    set k: nat | k < |template| && MentionsOpen(template[k])
  }

  /** Not empty, and no null byte. */
  ghost predicate SafeArg(arg: string) {
    |arg| >= 1 && forall k :: 0 <= k < |arg| ==> arg[k] as int != 0
  }

  function Invalid(errorClass: ErrorClass): AmaError {
    Validation(errorClass, Text([]))
  }

  function InvalidArgs(): AmaError {
    Invalid(INVALID_ARGS)
  }

  const PATH_VALIDATOR: string := "relative_workspace_path"

  ghost predicate Guarded(validators: seq<string>, i: nat) {
    i < |validators| && validators[i] == "relative_workspace_path"
  }

  /** One argument against the two checks made on it. */
  ghost predicate ArgOk(t: Tree, root: Path, agent: Option<string>, validators: seq<string>, args: seq<string>, i: nat)
    requires i < |args|
  {
    SafeArg(args[i]) && (Guarded(validators, i) ==> NewWorkspacePath(t, args[i], root, agent).Ok?)
  }

  method CountOpenings(template: seq<string>) returns (count: nat)
    ensures count == |Openings(template)|
  {
    count := 0;
    assert Openings([]) == {};
    assert template[..0] == [];
    for k := 0 to |template|
      invariant count == |Openings(template[..k])|
    {
      var more := template[..k + 1];
      assert forall j: nat :: j < k ==> more[j] == template[..k][j];
      if MentionsOpen(template[k]) {
        assert Openings(more) == Openings(template[..k]) + {k};
        count := count + 1;
      } else {
        assert Openings(more) == Openings(template[..k]);
      }
    }
    assert template[..|template|] == template;
  }

  /** The two checks on one argument. */
  method CheckArg(
      t: Tree, root: Path, agent: Option<string>, validators: seq<string>, raw: seq<string>, i: nat)
    returns (error: Option<AmaError>)
    requires i < |raw|
    ensures error.None? <==> ArgOk(t, root, agent, validators, raw, i)
    ensures error.Some? ==> error.value == Invalid(if SafeArg(raw[i]) then INVALID_TARGET else INVALID_ARGS)
  {
    if raw[i] == [] || '\0' in raw[i] {
      return Some(InvalidArgs());
    }
    if i < |validators| && validators[i] == PATH_VALIDATOR {
      var path := NewWorkspacePath(t, raw[i], root, agent);
      if path.Err? {
        return Some(path.error);
      }
    }
    return None;
  }

  /** Which class of error a refused argument list gives: its number, or the first argument that fails. */
  ghost predicate ArgsRefused(
      t: Tree, root: Path, agent: Option<string>, template: seq<string>, validators: seq<string>, raw: seq<string>,
      e: ErrorClass)
  {
    if |raw| != |Openings(template)| then e == INVALID_ARGS
    else
      exists i: nat ::
        && i < |raw| && FirstRefused(t, root, agent, validators, raw, i)
        && e == if SafeArg(raw[i]) then INVALID_TARGET else INVALID_ARGS
  }

  ghost predicate FirstRefused(
      t: Tree, root: Path, agent: Option<string>, validators: seq<string>, raw: seq<string>, i: nat)
    requires i < |raw|
  {
    !ArgOk(t, root, agent, validators, raw, i) && forall j: nat :: j < i ==> ArgOk(t, root, agent, validators, raw, j)
  }

  /** The shell branch of canonicalization: accepts exactly as many arguments as there are placeholders,
      all of them safe and the guarded ones workspace paths, and passes them on unchanged. */
  method CanonicalizeArgs(
      t: Tree, root: Path, agent: Option<string>, template: seq<string>, validators: seq<string>, raw: seq<string>)
    returns (r: Result<seq<string>, AmaError>)
    ensures r.Ok? <==> |raw| == |Openings(template)| && forall i: nat :: i < |raw| ==>
              ArgOk(t, root, agent, validators, raw, i)
    ensures r.Ok? ==> r.value == raw
    ensures r.Err? ==>
              && r.error.Validation? && r.error == Invalid(r.error.errorClass)
              && ArgsRefused(t, root, agent, template, validators, raw, r.error.errorClass)
  {
    var count := CountOpenings(template);
    if |raw| != count {
      return Err(InvalidArgs());
    }
    var args: seq<string> := [];
    var i := 0;
    while i < |raw|
      invariant 0 <= i <= |raw| && args == raw[..i]
      invariant forall j: nat :: j < i ==> ArgOk(t, root, agent, validators, raw, j)
    {
      var error := CheckArg(t, root, agent, validators, raw, i);
      if error.Some? {
        assert FirstRefused(t, root, agent, validators, raw, i);
        return Err(error.value);
      }
      args := args + [raw[i]];
      i := i + 1;
    }
    return Ok(args);
  }

  /** What one template entry becomes. */
  function Slot(entry: string, args: seq<string>): string {
    var index := Index(entry);
    if index.Some? && index.value < |args| then args[index.value] else entry
  }

  function Filled(template: seq<string>, args: seq<string>): seq<string> {
    seq(|template|, k requires 0 <= k < |template| => Slot(template[k], args))
  }

  /** The loop that builds the argument vector. */
  method FillTemplate(template: seq<string>, args: seq<string>) returns (filled: seq<string>)
    ensures filled == Filled(template, args)
  {
    filled := [];
    for k := 0 to |template|
      invariant filled == Filled(template, args)[..k]
    {
      var index := Index(template[k]);
      ghost var all := Filled(template, args);
      assert all[..k + 1] == all[..k] + [all[k]];
      if index.Some? && index.value < |args| {
        filled := filled + [args[index.value]];
      } else {
        filled := filled + [template[k]];
      }
    }
  }

  // ---- Well-formed templates -------------------------------------------------------------------

  /** The placeholders are `{{0}}` to `{{n-1}}`, `at[i]` being the one place of `{{i}}`; all else is literal. */
  ghost predicate WellPlaced(template: seq<string>, at: seq<nat>) {
    && |at| <= U64_MAX
    && (forall i :: 0 <= i < |at| ==> at[i] < |template| && template[at[i]] == Placeholder(i))
    && (forall k: nat :: k < |template| && k !in at ==> !MentionsOpen(template[k]))
  }

  lemma {:induction false} PlacesDistinct(template: seq<string>, at: seq<nat>, i: nat, j: nat)
    requires WellPlaced(template, at) && i < |at| && j < |at| && at[i] == at[j]
    ensures i == j
  {
    PlaceholdersDiffer(i, j);
  }

  ghost function PlaceSet(at: seq<nat>): set<nat> {
    set k | k in at
  }

  lemma {:induction false} DistinctCount(at: seq<nat>)
    requires forall i, j :: 0 <= i < |at| && 0 <= j < |at| && at[i] == at[j] ==> i == j
    ensures |PlaceSet(at)| == |at|
  {
    if at == [] {
      assert PlaceSet(at) == {};
    } else {
      var last, rest := at[|at| - 1], at[..|at| - 1];
      DistinctCount(rest);
      assert last !in PlaceSet(rest);
      assert at == rest + [last];
      assert PlaceSet(at) == PlaceSet(rest) + {last};
    }
  }

  /** The number of arguments asked for is the number of placeholders. */
  lemma OpeningsArePlaces(template: seq<string>, at: seq<nat>)
    requires WellPlaced(template, at)
    ensures |Openings(template)| == |at|
  {
    forall i, j | 0 <= i < |at| && 0 <= j < |at| && at[i] == at[j] ensures i == j {
      PlacesDistinct(template, at, i, j);
    }
    DistinctCount(at);
    forall k: nat ensures k in Openings(template) <==> k in at {
      if k in at {
        var i :| 0 <= i < |at| && at[i] == k;
        IndexOfPlaceholder(i);
      }
    }
    assert Openings(template) == PlaceSet(at);
  }

  lemma NoIndexWithoutOpen(s: string)
    requires !MentionsOpen(s)
    ensures Index(s).None?
  {
    if |s| >= 4 && s[..2] == OPEN {
      assert s[..2][0] == s[0] && s[..2][1] == s[1];
      assert OpensAt(s, 0);
    }
  }

  /**
   * Template filling. For a well-formed template, an accepted request yields a vector of the template's
   * length in which every argument stands exactly in the place of its placeholder, every other entry is
   * the literal it was, and every place with a path validator holds a path that passed it.
   */
  method ShellArguments(
      t: Tree, root: Path, agent: Option<string>, template: seq<string>, validators: seq<string>, raw: seq<string>,
      ghost at: seq<nat>)
    returns (r: Result<seq<string>, AmaError>)
    requires WellPlaced(template, at)
    ensures r.Ok? <==> |raw| == |at| && forall i: nat :: i < |raw| ==> ArgOk(t, root, agent, validators, raw, i)
    ensures r.Ok? ==> |r.value| == |template|
    ensures r.Ok? ==> forall i :: 0 <= i < |at| ==>
              && r.value[at[i]] == raw[i]
              && (Guarded(validators, i) ==> NewWorkspacePath(t, r.value[at[i]], root, agent).Ok?)
    ensures r.Ok? ==> forall k: nat :: k < |template| && k !in at ==> r.value[k] == template[k]
    ensures r.Err? ==> r.error.Validation?
  {
    OpeningsArePlaces(template, at);
    r := CanonicalizeArgs(t, root, agent, template, validators, raw);
    if r.Ok? {
      var filled := FillTemplate(template, r.value);
      forall i | 0 <= i < |at| ensures filled[at[i]] == raw[i] {
        IndexOfPlaceholder(i);
      }
      forall k: nat | k < |template| && k !in at ensures filled[k] == template[k] {
        NoIndexWithoutOpen(template[k]);
      }
      forall i | 0 <= i < |at| ensures Guarded(validators, i) ==> NewWorkspacePath(t, raw[i], root, agent).Ok? {
        assert ArgOk(t, root, agent, validators, raw, i);
      }
      r := Ok(filled);
    }
  }

  function FilledWith(template: seq<string>, args: seq<string>, i: nat, x: string): seq<string>
    requires i < |args|
  {
    Filled(template, args[i := x])
  }

  /**
   * Any template: an argument reaches the vector exactly when some entry is its placeholder. The counting
   * test alone does not give this: `--x={{0}}` asks for an argument and never passes it on.
   */
  lemma ArgumentIsUsed(template: seq<string>, args: seq<string>, i: nat)
    requires i < |args|
    ensures (forall x :: FilledWith(template, args, i, x) == Filled(template, args))
            <==> (forall k: nat :: k < |template| ==> Index(template[k]) != Some(i))
  {
    if k: nat :| k < |template| && Index(template[k]) == Some(i) {
      var x := args[i] + [' '];
      assert FilledWith(template, args, i, x)[k] == x;
      assert Filled(template, args)[k] == args[i];
    } else {
      forall x ensures FilledWith(template, args, i, x) == Filled(template, args) {
        forall k | 0 <= k < |template| ensures Slot(template[k], args[i := x]) == Slot(template[k], args) {
        }
      }
    }
  }

  lemma EmbeddedPlaceholderIsLost(arg: string)
    ensures var template := [['-'] + Placeholder(0)];
            |Openings(template)| == 1 && Filled(template, [arg]) == template
  {
    var entry := ['-'] + Placeholder(0);
    assert OpensAt(entry, 1);
    assert Openings([entry]) == {0};
    assert entry[..2][0] == '-';
  }

  // ---- Structural validation as a whole --------------------------------------------------------

  /** `action` is the name of the action. */
  datatype Request = Request(
    action: string, target: string, payload: Option<seq<byte>>, args: Option<seq<string>>, httpMethod: Option<string>)

  datatype Intent = Intent(template: seq<string>, validators: seq<string>)

  /** `maxWrite` and `maxBody` are the payload limits, `urlAllowed` and `methodKnown` the tests on an HTTP
      request, `unicode` classifies the letters and digits outside ASCII. */
  datatype Rules = Rules(
    root: Path, intents: map<string, Intent>, maxWrite: nat, maxBody: nat,
    urlAllowed: string -> bool, methodKnown: string -> bool, unicode: char -> bool)

  datatype Canonical =
    | CanonicalWrite(path: Path, content: seq<byte>)
    | CanonicalRead(path: Path)
    | CanonicalShell(intent: string, args: seq<string>)
    | CanonicalHttp(url: string, body: Option<seq<byte>>)

  /** `IntentId::new`: every character is a letter, a digit or an underscore. */
  method IsIntentName(s: string, unicode: char -> bool) returns (ok: bool)
    ensures ok <==> IntentName(s, unicode)
  {
    if s == [] {
      return false;
    }
    for i := 0 to |s|
      invariant forall j :: 0 <= j < i ==> Alphanumeric(s[j], unicode) || s[j] == '_'
    {
      if !(Alphanumeric(s[i], unicode) || s[i] == '_') {
        return false;
      }
    }
    ok := true;
  }

  ghost predicate IntentName(s: string, unicode: char -> bool) {
    |s| >= 1 && forall i :: 0 <= i < |s| && s[i] != '_' ==> Alphanumeric(s[i], unicode)
  }

  /** Which of payload, arguments and method an action must and must not carry. */
  ghost predicate FieldsOk(r: Request) {
    && (r.action == "file_write" ==> r.payload.Some? && r.args.None?)
    && (r.action == "file_read" ==> r.payload.None? && r.args.None?)
    && (r.action == "shell_exec" ==> r.args.Some? && r.payload.None?)
    && (r.action == "http_request" ==> r.httpMethod.Some? && r.args.None?)
  }

  /** A missing field is reported before a superfluous one, except that `args` of an HTTP request come first. */
  ghost predicate MissesField(r: Request) {
    || (r.action == "file_write" && r.payload.None?)
    || (r.action == "shell_exec" && r.args.None?)
    || (r.action == "http_request" && r.args.None? && r.httpMethod.None?)
  }

  /** `validate_field_exclusivity`. */
  method CheckFields(r: Request) returns (error: Option<AmaError>)
    ensures error.None? <==> FieldsOk(r)
    ensures error.Some? ==> error.value == Invalid(if MissesField(r) then MISSING_FIELD else INVALID_FIELD)
  {
    if r.action == "file_write" {
      if r.payload.None? {
        return Some(Invalid(MISSING_FIELD));
      }
      if r.args.Some? {
        return Some(Invalid(INVALID_FIELD));
      }
    } else if r.action == "file_read" {
      if r.payload.Some? || r.args.Some? {
        return Some(Invalid(INVALID_FIELD));
      }
    } else if r.action == "shell_exec" {
      if r.args.None? {
        return Some(Invalid(MISSING_FIELD));
      }
      if r.payload.Some? {
        return Some(Invalid(INVALID_FIELD));
      }
    } else if r.action == "http_request" {
      if r.args.Some? {
        return Some(Invalid(INVALID_FIELD));
      }
      if r.httpMethod.None? {
        return Some(Invalid(MISSING_FIELD));
      }
    }
    return None;
  }

  ghost predicate PathOk(t: Tree, rules: Rules, agent: Option<string>, target: string) {
    NewWorkspacePath(t, target, rules.root, agent).Ok?
  }

  ghost predicate ArgsOk(t: Tree, rules: Rules, agent: Option<string>, intent: Intent, raw: seq<string>) {
    && |raw| == |Openings(intent.template)|
    && forall i: nat :: i < |raw| ==> ArgOk(t, rules.root, agent, intent.validators, raw, i)
  }

  /** Exactly the requests that pass structural validation, on their own fields. */
  ghost predicate Accepts(t: Tree, rules: Rules, agent: Option<string>, r: Request) {
    FieldsOk(r) &&
    (|| (r.action == "file_write" && PathOk(t, rules, agent, r.target) && |r.payload.value| <= rules.maxWrite)
     || (r.action == "file_read" && PathOk(t, rules, agent, r.target))
     || (r.action == "shell_exec" && IntentName(r.target, rules.unicode) && r.target in rules.intents
         && ArgsOk(t, rules, agent, rules.intents[r.target], r.args.value))
     || (r.action == "http_request" && rules.methodKnown(r.httpMethod.value) && rules.urlAllowed(r.target)
         && (r.payload.Some? ==> |r.payload.value| <= rules.maxBody)))
  }

  /** Which requests are refused with which class of error. */
  ghost predicate Refuses(t: Tree, rules: Rules, agent: Option<string>, r: Request, e: ErrorClass) {
    if !FieldsOk(r) then e == if MissesField(r) then MISSING_FIELD else INVALID_FIELD
    else match e
         case UNKNOWN_ACTION => r.action !in {"file_write", "file_read", "shell_exec", "http_request"}
         case INVALID_METHOD => r.action == "http_request" && !rules.methodKnown(r.httpMethod.value)
         case UNKNOWN_INTENT =>
           r.action == "shell_exec" && IntentName(r.target, rules.unicode) && r.target !in rules.intents
         case INVALID_ARGS => ShellRefuses(t, rules, agent, r, INVALID_ARGS)
         case INVALID_TARGET =>
           || (r.action in {"file_write", "file_read"} && !PathOk(t, rules, agent, r.target))
           || (r.action == "shell_exec" && !IntentName(r.target, rules.unicode))
           || ShellRefuses(t, rules, agent, r, INVALID_TARGET)
           || (r.action == "http_request" && rules.methodKnown(r.httpMethod.value) && !rules.urlAllowed(r.target))
         case PAYLOAD_TOO_LARGE =>
           || (r.action == "file_write" && PathOk(t, rules, agent, r.target) && |r.payload.value| > rules.maxWrite)
           || (r.action == "http_request" && rules.methodKnown(r.httpMethod.value) && rules.urlAllowed(r.target)
               && r.payload.Some? && |r.payload.value| > rules.maxBody)
         case _ => false
  }

  ghost predicate ShellRefuses(t: Tree, rules: Rules, agent: Option<string>, r: Request, e: ErrorClass)
    requires FieldsOk(r)
  {
    && r.action == "shell_exec" && IntentName(r.target, rules.unicode) && r.target in rules.intents
    && var intent := rules.intents[r.target];
       ArgsRefused(t, rules.root, agent, intent.template, intent.validators, r.args.value, e)
  }

  lemma {:induction false} FirstRefusal(
      t: Tree, root: Path, agent: Option<string>, validators: seq<string>, raw: seq<string>, n: nat)
    returns (i: nat)
    requires n <= |raw| && exists j: nat :: j < n && !ArgOk(t, root, agent, validators, raw, j)
    ensures i < n && FirstRefused(t, root, agent, validators, raw, i)
  {
    if j: nat :| j < n - 1 && !ArgOk(t, root, agent, validators, raw, j) {
      i := FirstRefusal(t, root, agent, validators, raw, n - 1);
    } else {
      i := n - 1;
    }
  }

  lemma OneArgsClass(t: Tree, rules: Rules, agent: Option<string>, intent: Intent, raw: seq<string>, e: ErrorClass,
      e': ErrorClass)
    requires ArgsRefused(t, rules.root, agent, intent.template, intent.validators, raw, e)
    requires ArgsRefused(t, rules.root, agent, intent.template, intent.validators, raw, e')
    ensures e == e'
  {
  }

  /** An argument list is either accepted or refused. */
  lemma OneShellVerdict(t: Tree, rules: Rules, agent: Option<string>, intent: Intent, raw: seq<string>)
    ensures ArgsOk(t, rules, agent, intent, raw) <==>
            forall e :: !ArgsRefused(t, rules.root, agent, intent.template, intent.validators, raw, e)
  {
    if |raw| != |Openings(intent.template)| {
      assert ArgsRefused(t, rules.root, agent, intent.template, intent.validators, raw, INVALID_ARGS);
    } else if !ArgsOk(t, rules, agent, intent, raw) {
      var i := FirstRefusal(t, rules.root, agent, intent.validators, raw, |raw|);
      assert ArgsRefused(t, rules.root, agent, intent.template, intent.validators, raw,
                         if SafeArg(raw[i]) then INVALID_TARGET else INVALID_ARGS);
    }
  }

  /** Every request is either accepted or refused ... */
  lemma AcceptedOrRefused(t: Tree, rules: Rules, agent: Option<string>, r: Request)
    ensures Accepts(t, rules, agent, r) <==> forall e :: !Refuses(t, rules, agent, r, e)
  {
    if FieldsOk(r) && r.action == "shell_exec" && r.target in rules.intents {
      OneShellVerdict(t, rules, agent, rules.intents[r.target], r.args.value);
    }
    if !Accepts(t, rules, agent, r) {
      var e := Refusal(t, rules, agent, r);
    }
  }

  /** ... and refused with one class of error. */
  lemma OneClass(t: Tree, rules: Rules, agent: Option<string>, r: Request, e: ErrorClass, e': ErrorClass)
    requires Refuses(t, rules, agent, r, e) && Refuses(t, rules, agent, r, e')
    ensures e == e'
  {
    if FieldsOk(r) && ShellRefuses(t, rules, agent, r, e) && ShellRefuses(t, rules, agent, r, e') {
      OneArgsClass(t, rules, agent, rules.intents[r.target], r.args.value, e, e');
    }
  }

  lemma Refusal(t: Tree, rules: Rules, agent: Option<string>, r: Request) returns (e: ErrorClass)
    requires !Accepts(t, rules, agent, r)
    ensures Refuses(t, rules, agent, r, e)
  {
    if !FieldsOk(r) {
      e := if MissesField(r) then MISSING_FIELD else INVALID_FIELD;
    } else if r.action == "file_write" {
      e := if PathOk(t, rules, agent, r.target) then PAYLOAD_TOO_LARGE else INVALID_TARGET;
    } else if r.action == "file_read" {
      e := INVALID_TARGET;
    } else if r.action == "shell_exec" {
      if !IntentName(r.target, rules.unicode) {
        e := INVALID_TARGET;
      } else if r.target !in rules.intents {
        e := UNKNOWN_INTENT;
      } else {
        var intent := rules.intents[r.target];
        OneShellVerdict(t, rules, agent, intent, r.args.value);
        e :| ArgsRefused(t, rules.root, agent, intent.template, intent.validators, r.args.value, e);
      }
    } else if r.action == "http_request" {
      e := if !rules.methodKnown(r.httpMethod.value) then INVALID_METHOD
      else if !rules.urlAllowed(r.target) then INVALID_TARGET else PAYLOAD_TOO_LARGE;
    } else {
      e := UNKNOWN_ACTION;
    }
  }

  /** The canonical action stands for the request: its path accepted, its content, arguments or body as sent. */
  ghost predicate Stands(t: Tree, rules: Rules, agent: Option<string>, r: Request, action: Canonical) {
    match action
    case CanonicalWrite(path, content) =>
      && r.action == "file_write" && NewWorkspacePath(t, r.target, rules.root, agent) == Ok(path)
      && r.payload == Some(content)
    case CanonicalRead(path) =>
      r.action == "file_read" && NewWorkspacePath(t, r.target, rules.root, agent) == Ok(path)
    case CanonicalShell(intent, given) => r.action == "shell_exec" && intent == r.target && r.args == Some(given)
    case CanonicalHttp(url, body) => r.action == "http_request" && url == r.target && body == r.payload
  }

  /**
   * Field check and canonicalization in sequence: which requests pass, which class of error each other one
   * gives, and that what passes stands for the request.
   */
  method Canonicalize(
      t: Tree, rules: Rules, agent: Option<string>, request: Request) returns (r: Result<Canonical, AmaError>)
    ensures r.Ok? <==> Accepts(t, rules, agent, request)
    ensures r.Err? ==> r.error.Validation? && Refuses(t, rules, agent, request, r.error.errorClass)
    ensures r.Ok? ==> Stands(t, rules, agent, request, r.value)
  {
    var fields := CheckFields(request);
    if fields.Some? {
      return Err(fields.value);
    }
    if request.action == "file_write" {
      var path := NewWorkspacePath(t, request.target, rules.root, agent);
      if path.Err? {
        return Err(path.error);
      }
      var content := if request.payload.Some? then request.payload.value else [];
      if |content| > rules.maxWrite {
        return Err(Invalid(PAYLOAD_TOO_LARGE));
      }
      return Ok(CanonicalWrite(path.value, content));
    } else if request.action == "file_read" {
      var path := NewWorkspacePath(t, request.target, rules.root, agent);
      if path.Err? {
        return Err(path.error);
      }
      return Ok(CanonicalRead(path.value));
    } else if request.action == "shell_exec" {
      var named := IsIntentName(request.target, rules.unicode);
      if !named {
        return Err(Invalid(INVALID_TARGET));
      }
      if request.target !in rules.intents {
        return Err(Invalid(UNKNOWN_INTENT));
      }
      var intent := rules.intents[request.target];
      var raw := if request.args.Some? then request.args.value else [];
      var args := CanonicalizeArgs(t, rules.root, agent, intent.template, intent.validators, raw);
      if args.Err? {
        return Err(args.error);
      }
      return Ok(CanonicalShell(request.target, args.value));
    } else if request.action == "http_request" {
      if !rules.methodKnown(if request.httpMethod.Some? then request.httpMethod.value else []) {
        return Err(Invalid(INVALID_METHOD));
      }
      if !rules.urlAllowed(request.target) {
        return Err(Invalid(INVALID_TARGET));
      }
      if request.payload.Some? && |request.payload.value| > rules.maxBody {
        return Err(Invalid(PAYLOAD_TOO_LARGE));
      }
      return Ok(CanonicalHttp(request.target, request.payload));
    }
    return Err(Invalid(UNKNOWN_ACTION));
  }
}
