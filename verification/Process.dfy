/** One request from validation to its outcome, as `process_action` chains the parts. */
module Process {
  import opened Common
  import opened Errors
  import opened Slime
  import opened FileTree
  import opened Workspace
  import opened Disk
  import opened FileActuator
  import FileRead
  import opened Containment
  import opened Pipeline
  import opened Utf8
  import opened Idempotency
  import opened Admission
  import opened AdmissionHistory

  const FILE_READ_MAX: nat := 524_288

  /** What the file actuators report. */
  datatype Done = Wrote(bytes: nat) | Read(reading: FileRead.Reading)

  /** What a write gives and leaves. */
  ghost predicate WriteDone(
      t: Tree, s: Tree, path: Path, content: seq<byte>, id: string, fault: Fault, outcome: Result<Json, AmaError>,
      render: Done -> string)
  {
    && (outcome.Ok? <==> Writable(t, path) && !Strikes(fault, content))
    && (outcome.Ok? ==>
          && outcome.value == Success(false, render(Wrote(|content|)))
          && s == WithDirs(t, Parent(path))[path := File(content)])
    && (outcome.Err? ==>
          || s == t
          || (path != [] && s == Debris(WithDirs(t, Parent(path)), TempPath(path, id), content, fault)))
  }

  /** What a read gives: the file's text up to the limit, if it is text. */
  ghost predicate ReadDone(t: Tree, path: Path, outcome: Result<Json, AmaError>, render: Done -> string) {
    if Settled(t, path) && path in t && t[path].File? then
      var bytes := t[path].bytes;
      var cut := if |bytes| <= 524_288 then |bytes| else 524_288;
      if WellFormedText(bytes[..cut]) then
        outcome == Ok(Success(false, render(Read(
                      FileRead.Reading(bytes[..cut], cut, |bytes|, |bytes| > 524_288)))))
      else outcome.Err?
    else outcome.Err?
  }

  /** The action was carried out from tree `t`, gave `outcome` and left tree `s`. */
  ghost predicate CarriedOut(
      t: Tree, s: Tree, action: Canonical, id: string, fault: Fault, elsewhere: Result<Json, AmaError>,
      outcome: Result<Json, AmaError>, render: Done -> string)
  {
    match action
    case CanonicalWrite(path, content) => WriteDone(t, s, path, content, id, fault, outcome, render)
    case CanonicalRead(path) => s == t && ReadDone(t, path, outcome, render)
    case CanonicalShell(_, _) => s == t && outcome == elsewhere
    case CanonicalHttp(_, _) => s == t && outcome == elsewhere
  }

  /** Either no state was added, or a write that the second check let through went from `before` to `after`. */
  ghost predicate Passes(before: seq<Tree>, after: seq<Tree>, t: Tree, action: Canonical, id: string) {
    after != before ==>
      && action.CanonicalWrite? && action.path != [] && Settled(t, action.path)
      && !(action.path in t && t[action.path] == Dir)
      && Grows(before, after, t, action.path, TempPath(action.path, id), action.content)
  }

  /**
   * `actuate`: the file actions as modelled; `elsewhere` is what the shell or HTTP actuator gives, any
   * success or one of the two error kinds they build. `render` writes a report as JSON.
   */
  method Actuate(
      disk: Volume, action: Canonical, id: string, fault: Fault, elsewhere: Result<Json, AmaError>,
      render: Done -> string)
    returns (r: Result<Json, AmaError>)
    requires disk.Valid() && (elsewhere.Err? ==> ActuatorError(elsewhere.error))
    requires action.CanonicalWrite? || action.CanonicalRead? ==> PlainPath(action.path)
    requires action.CanonicalWrite? && action.path != [] ==> TempPath(action.path, id) !in disk.tree
    modifies disk
    ensures disk.Valid()
    ensures r.Err? ==> ActuatorError(r.error)
    ensures CarriedOut(old(disk.tree), disk.tree, action, id, fault, elsewhere, r, render)
    ensures Passes(old(disk.trail), disk.trail, old(disk.tree), action, id)
  {
    match action {
      case CanonicalWrite(path, content) =>
        var written := FileWrite(disk, path, content, id, fault);
        r := if written.Ok? then Ok(Success(false, render(Wrote(written.value)))) else Err(written.error);
      case CanonicalRead(path) =>
        var reading := FileRead.FileRead(disk.tree, path, FILE_READ_MAX);
        r := if reading.Ok? then Ok(Success(false, render(Read(reading.value)))) else Err(reading.error);
      case CanonicalShell(_, _) => r := elsewhere;
      case CanonicalHttp(_, _) => r := elsewhere;
    }
  }

  /** The result of a request that reaches the authorizer. */
  function Judged(
      c: Config, agent: AgentId, used: nat, action: Action, domain: DomainId, outcome: Result<Json, AmaError>):
    Result<Json, AmaError>
    requires agent in c.agents
  {
    if Decide(c.agents[agent].maxCapacity, c.agents[agent].policies, used, domain, action.magnitude) != Authorized then
      Err(AmaError.Impossible)
    else if action.dryRun then Ok(Success(true, []))
    else outcome
  }

  /** The result of a request, given the counter at its decision, the error of structural validation if there
      was one, and the outcome of its action. */
  function Outcome(
      c: Config, agent: AgentId, used: nat, action: Action, rejection: Option<AmaError>,
      outcome: Result<Json, AmaError>):
    Result<Json, AmaError>
    requires agent in c.agents
  {
    match Prepare(c, action, rejection)
    case Err(e) => Err(e)
    case Ok(domain) => Judged(c, agent, used, action, domain, outcome)
  }

  /** Whether the request reserves its units, and so starts its action. */
  predicate Reserves(c: Config, agent: AgentId, used: nat, action: Action, rejection: Option<AmaError>)
    requires agent in c.agents
  {
    && !action.dryRun && Prepare(c, action, rejection).Ok?
    && Decide(c.agents[agent].maxCapacity, c.agents[agent].policies, used, Prepare(c, action, rejection).value,
              action.magnitude) == Authorized
  }

  /**
   * What this result is: a body exactly when the magnitude is right, validation found nothing, the action is
   * mapped, its domain's policy allows it, the units fit, and, unless it is a dry run, the action succeeds.
   */
  lemma OutcomeMeans(
      c: Config, agent: AgentId, used: nat, action: Action, rejection: Option<AmaError>,
      outcome: Result<Json, AmaError>, body: Json)
    requires agent in c.agents && c.agents[agent].maxCapacity <= U64_MAX
    ensures Outcome(c, agent, used, action, rejection, outcome) == Ok(body) <==>
            && 1 <= action.magnitude <= 1000 && rejection.None? && action.name in c.mapping
            && var d, policies := c.mapping[action.name], c.agents[agent].policies;
               && d in policies && policies[d].enabled && action.magnitude <= policies[d].maxMagnitude
               && used + action.magnitude <= c.agents[agent].maxCapacity
               && if action.dryRun then body == Success(true, []) else outcome == Ok(body)
    ensures Reserves(c, agent, used, action, rejection) <==>
            && 1 <= action.magnitude <= 1000 && rejection.None? && action.name in c.mapping
            && var d, policies := c.mapping[action.name], c.agents[agent].policies;
               && d in policies && policies[d].enabled && action.magnitude <= policies[d].maxMagnitude
               && used + action.magnitude <= c.agents[agent].maxCapacity && !action.dryRun
  {
  }

  /** Which error it is otherwise, the first that applies. */
  lemma OutcomeErrors(
      c: Config, agent: AgentId, used: nat, action: Action, rejection: Option<AmaError>,
      outcome: Result<Json, AmaError>)
    requires agent in c.agents && Outcome(c, agent, used, action, rejection, outcome).Err?
    ensures Outcome(c, agent, used, action, rejection, outcome).error ==
            if action.magnitude < 1 || action.magnitude > 1000 then
              Validation(INVALID_MAGNITUDE, MagnitudeRange(action.magnitude))
            else if rejection.Some? then rejection.value
            else if action.name !in c.mapping then Validation(UNKNOWN_ACTION, ActionNotMapped(action.name))
            else if outcome.Err? && Reserves(c, agent, used, action, rejection) then outcome.error
            else AmaError.Impossible
  {
  }

  /** The configuration knows the agent, and the authorizer is the agent's. */
  ghost predicate Serves(c: Config, agent: AgentId, authorizer: P0Authorizer)
    reads authorizer
  {
    && agent in c.agents && authorizer.Valid()
    && authorizer.maxCapacity == c.agents[agent].maxCapacity && authorizer.domains == c.agents[agent].policies
  }

  /** What validation gives the file actuators to rely on. */
  lemma ActionIsPlain(t: Tree, rules: Rules, agent: AgentId, target: string, action: Canonical, id: string)
    requires WellFormed(t) && PlainPath(EffectiveRoot(rules.root, Some(agent))) && UnusedId(t, id)
    requires action.CanonicalWrite? || action.CanonicalRead? ==>
               NewWorkspacePath(t, target, rules.root, Some(agent)) == Ok(action.path)
    ensures action.CanonicalWrite? || action.CanonicalRead? ==> PlainPath(action.path)
    ensures action.CanonicalWrite? && action.path != [] ==> TempPath(action.path, id) !in t
  {
    if action.CanonicalWrite? || action.CanonicalRead? {
      AcceptedPath(t, target, rules.root, Some(agent));
    }
    if action.CanonicalWrite? && action.path != [] {
      TempUnused(t, action.path, id);
    }
  }

  /** With the agent's directory in place, every state added since `before` differs from `t` only strictly
      under it. */
  ghost predicate StaysInside(before: seq<Tree>, after: seq<Tree>, t: Tree, rules: Rules, agent: AgentId)
    requires PlainPath(EffectiveRoot(rules.root, Some(agent)))
  {
    IsDir(t, rules.root) && IsDir(t, EffectiveRoot(rules.root, Some(agent))) ==>
      forall k :: |before| <= k < |after| ==>
        Confined(t, after[k], RootOf(t, EffectiveRoot(rules.root, Some(agent))))
  }

  /** What the accepted path gives for containment. */
  lemma ActionIsConfined(
      before: seq<Tree>, after: seq<Tree>, t: Tree, rules: Rules, agent: AgentId, target: string, action: Canonical,
      id: string, k: nat)
    requires WellFormed(t) && PlainPath(EffectiveRoot(rules.root, Some(agent))) && UnusedId(t, id)
    requires IsDir(t, rules.root) && IsDir(t, EffectiveRoot(rules.root, Some(agent)))
    requires action.CanonicalWrite? ==> NewWorkspacePath(t, target, rules.root, Some(agent)) == Ok(action.path)
    requires Passes(before, after, t, action, id) && |before| <= k < |after|
    ensures Confined(t, after[k], RootOf(t, EffectiveRoot(rules.root, Some(agent))))
  {
    assert after != before;
    WriteIsConfined(t, after[k], target, rules.root, Some(agent), action.path, id, action.content);
  }

  /** The checks before the authorizer: magnitude, fields, canonicalization, mapping. */
  method Validate(c: Config, agent: AgentId, t: Tree, rules: Rules, action: Action, request: Request)
    returns (r: Result<DomainId, AmaError>, canonical: Canonical, rejection: Option<AmaError>)
    requires request.action == action.name
    ensures RightVerdict(c, action, rejection, r) && r == Prepare(c, action, rejection)
    ensures RightRejection(t, rules, agent, action, request, rejection)
    ensures r.Ok? ==> Stands(t, rules, Some(agent), request, canonical)
  {
    canonical, rejection := CanonicalShell([], []), None;
    if !(1 <= action.magnitude <= 1000) {
      return Err(Validation(INVALID_MAGNITUDE, MagnitudeRange(action.magnitude))), canonical, rejection;
    }
    var structure := Canonicalize(t, rules, Some(agent), request);
    if structure.Err? {
      return Err(structure.error), canonical, Some(structure.error);
    }
    canonical := structure.value;
    if action.name !in c.mapping {
      return Err(Validation(UNKNOWN_ACTION, ActionNotMapped(action.name))), canonical, rejection;
    }
    r := Ok(c.mapping[action.name]);
  }

  /** A request of right magnitude is rejected exactly when structural validation does not accept it, with
      the class of error that it gives. */
  ghost predicate RightRejection(
      t: Tree, rules: Rules, agent: AgentId, action: Action, request: Request, rejection: Option<AmaError>)
  {
    && (1 <= action.magnitude <= 1000 ==> (rejection.None? <==> Accepts(t, rules, Some(agent), request)))
    && (rejection.Some? ==>
          rejection.value.Validation? && Refuses(t, rules, Some(agent), request, rejection.value.errorClass))
  }

  /** The action of a validated request; with the agent's directory in place, confined to it. */
  method Carry(
      disk: Volume, rules: Rules, agent: AgentId, target: string, action: Canonical, id: string, fault: Fault,
      elsewhere: Result<Json, AmaError>, render: Done -> string)
    returns (outcome: Result<Json, AmaError>)
    requires disk.Valid() && PlainPath(EffectiveRoot(rules.root, Some(agent))) && UnusedId(disk.tree, id)
    requires elsewhere.Err? ==> ActuatorError(elsewhere.error)
    requires action.CanonicalWrite? || action.CanonicalRead? ==>
               NewWorkspacePath(disk.tree, target, rules.root, Some(agent)) == Ok(action.path)
    modifies disk
    ensures disk.Valid() && (outcome.Err? ==> ActuatorError(outcome.error))
    ensures CarriedOut(old(disk.tree), disk.tree, action, id, fault, elsewhere, outcome, render)
    ensures StaysInside(old(disk.trail), disk.trail, old(disk.tree), rules, agent)
  {
    ghost var t, trail := disk.tree, disk.trail;
    ActionIsPlain(t, rules, agent, target, action, id);
    outcome := Actuate(disk, action, id, fault, elsewhere, render);
    if IsDir(t, rules.root) && IsDir(t, EffectiveRoot(rules.root, Some(agent))) {
      forall k | |trail| <= k < |disk.trail|
        ensures Confined(t, disk.trail[k], RootOf(t, EffectiveRoot(rules.root, Some(agent))))
      {
        ActionIsConfined(trail, disk.trail, t, rules, agent, target, action, id, k);
      }
    }
  }

  /**
   * `process_action`, with `others` interfering in the reservation. `acted` says whether the action was
   * started: that is exactly when its units were reserved, and only then is the disk touched; whatever the
   * action gives, nothing is refunded. What is carried out is what the client asked for, with the outcome
   * the actuators promise, and with the agent's directory in place no state on the way differs outside
   * it. Every error is one that is cached as it is sent.
   */
  method ProcessAction(
      c: Config, agent: AgentId, authorizer: P0Authorizer, others: seq<Interference>, disk: Volume, rules: Rules,
      action: Action, request: Request, id: string, fault: Fault, elsewhere: Result<Json, AmaError>,
      render: Done -> string)
    returns (r: Result<Json, AmaError>, rejection: Option<AmaError>, canonical: Canonical,
             outcome: Result<Json, AmaError>, acted: bool, lost: nat)
    requires Serves(c, agent, authorizer) && authorizer.capacity + Added(others) <= authorizer.maxCapacity
    requires disk.Valid() && PlainPath(EffectiveRoot(rules.root, Some(agent))) && UnusedId(disk.tree, id)
    requires request.action == action.name && (elsewhere.Err? ==> ActuatorError(elsewhere.error))
    modifies authorizer`capacity, disk
    ensures Serves(c, agent, authorizer) && disk.Valid() && lost <= |others|
    ensures RightRejection(old(disk.tree), rules, agent, action, request, rejection)
    ensures outcome.Err? ==> ActuatorError(outcome.error)
    ensures r == Outcome(c, agent, old(authorizer.capacity) + Added(others[..lost]), action, rejection, outcome)
    ensures r.Err? ==> Replayable(r.error)
    ensures acted <==> Reserves(c, agent, old(authorizer.capacity) + Added(others[..lost]), action, rejection)
    ensures authorizer.capacity ==
            old(authorizer.capacity) + Added(others[..lost]) + if acted then action.magnitude else 0
    ensures !acted ==> disk.tree == old(disk.tree) && disk.trail == old(disk.trail)
    ensures acted ==>
              && Stands(old(disk.tree), rules, Some(agent), request, canonical)
              && CarriedOut(old(disk.tree), disk.tree, canonical, id, fault, elsewhere, outcome, render)
    ensures StaysInside(old(disk.trail), disk.trail, old(disk.tree), rules, agent)
  {
    outcome, acted, lost := Ok(Success(false, [])), false, 0;
    var domain;
    domain, canonical, rejection := Validate(c, agent, disk.tree, rules, action, request);
    if domain.Err? {
      return Err(domain.error), rejection, canonical, outcome, acted, lost;
    }
    if action.dryRun {
      var verdict := authorizer.CheckOnly(domain.value, action.magnitude);
      r := if verdict == Authorized then Ok(Success(true, [])) else Err(AmaError.Impossible);
      return;
    }
    var verdict;
    verdict, lost := authorizer.TryReserve(domain.value, action.magnitude, others);
    if verdict != Authorized {
      return Err(AmaError.Impossible), rejection, canonical, outcome, acted, lost;
    }
    acted := true;
    outcome := Carry(disk, rules, agent, request.target, canonical, id, fault, elsewhere, render);
    r := outcome;
  }

  // ---- The same request as a handler of the protocol ---------------------------------------------

  /** `states` are those of a stretch of steps `ls`. */
  ghost predicate IsStretch(c: Config, states: seq<State>, ls: seq<Label>) {
    && |states| == |ls| + 1
    && forall i {:trigger Apply(c, states[i], ls[i])} :: 0 <= i < |ls| ==>
         Apply(c, states[i], ls[i]) == Some(states[i + 1])
  }

  /** The steps `ls`, one after the other, lead from `s` to `t`. */
  ghost predicate Leads(c: Config, s: State, ls: seq<Label>, t: State) {
    exists states :: IsStretch(c, states, ls) && states[0] == s && states[|ls|] == t
  }

  lemma LeadsNowhere(c: Config, s: State)
    ensures Leads(c, s, [], s)
  {
    assert IsStretch(c, [s], []);
  }

  lemma LeadsOn(c: Config, s: State, l: Label, s1: State, rest: seq<Label>, t: State)
    requires Apply(c, s, l) == Some(s1) && Leads(c, s1, rest, t)
    ensures Leads(c, s, [l] + rest, t)
  {
    var states :| IsStretch(c, states, rest) && states[0] == s1 && states[|rest|] == t;
    var more, ls := [s] + states, [l] + rest;
    forall i | 0 <= i < |ls| ensures Apply(c, more[i], ls[i]) == Some(more[i + 1]) {
      if i > 0 {
        assert Apply(c, states[i - 1], rest[i - 1]) == Some(states[i]);
      }
    }
    assert IsStretch(c, more, ls);
  }

  lemma StretchLess(c: Config, states: seq<State>, ls: seq<Label>)
    requires IsStretch(c, states, ls) && ls != []
    ensures IsStretch(c, states[..|ls|], ls[..|ls| - 1])
    ensures Apply(c, states[|ls| - 1], ls[|ls| - 1]) == Some(states[|ls|])
  {
    var less, n := states[..|ls|], |ls| - 1;
    forall i {:trigger Apply(c, less[i], ls[..n][i])} | 0 <= i < n
      ensures Apply(c, less[i], ls[..n][i]) == Some(less[i + 1])
    {
      assert Apply(c, states[i], ls[i]) == Some(states[i + 1]);
    }
    assert Apply(c, states[n], ls[n]) == Some(states[n + 1]);
  }

  /** A stretch without its last step. */
  lemma LeadsBack(c: Config, s: State, ls: seq<Label>, t: State) returns (m: State)
    requires Leads(c, s, ls, t) && ls != []
    ensures Leads(c, s, ls[..|ls| - 1], m) && Apply(c, m, ls[|ls| - 1]) == Some(t)
  {
    var states :| IsStretch(c, states, ls) && states[0] == s && states[|ls|] == t;
    StretchLess(c, states, ls);
    m := states[|ls| - 1];
    assert states[..|ls|][0] == s && states[..|ls|][|ls| - 1] == m;
  }

  lemma OneLabelMore(c: Config, run: seq<Label>, ls: seq<Label>, m: State, t: State)
    requires ls != [] && Exec(c, run + ls[..|ls| - 1]) == Some(m) && Apply(c, m, ls[|ls| - 1]) == Some(t)
    ensures Exec(c, run + ls) == Some(t)
  {
    assert (run + ls)[..|run + ls| - 1] == run + ls[..|ls| - 1];
  }

  /** Such a stretch continues any run of the protocol that has come to `s`. */
  lemma {:induction false} LeadsExtendsRun(c: Config, run: seq<Label>, s: State, ls: seq<Label>, t: State)
    requires Exec(c, run) == Some(s) && Leads(c, s, ls, t)
    ensures Exec(c, run + ls) == Some(t)
    decreases |ls|
  {
    if ls == [] {
      assert run + ls == run;
    } else {
      var m := LeadsBack(c, s, ls, t);
      LeadsExtendsRun(c, run, s, ls[..|ls| - 1], m);
      OneLabelMore(c, run, ls, m, t);
    }
  }

  lemma AdmitStep(c: Config, s: State, id: ReqId, action: Action, rejection: Option<AmaError>)
    requires id in s.handlers && s.handlers[id].pc == AtAdmit(action)
    requires rejection.Some? ==> rejection.value.Validation?
    ensures Apply(c, s, Admit(id, rejection)) == Some(CheckStep(c, s, id, action, rejection))
  {
  }

  lemma PoliceStep(c: Config, s: State, id: ReqId, action: Action, domain: DomainId)
    requires id in s.handlers && s.handlers[id].pc == AtPolicy(action, domain)
    requires s.handlers[id].agent in c.agents && s.handlers[id].agent in s.used
    ensures Apply(c, s, Police(id)) ==
            if !PolicyAllows(c.agents[s.handlers[id].agent].policies, domain, action.magnitude) then
              Some(JudgeStep(c, s, id, action, domain, false))
            else if action.dryRun then Some(Move(s, id, AtPeek(action, domain)))
            else Some(Move(s, id, AtLoad(action, domain, Tries(None, 0, 0))))
  {
  }

  lemma PeekStep(c: Config, s: State, id: ReqId, action: Action, domain: DomainId)
    requires id in s.handlers && s.handlers[id].pc == AtPeek(action, domain)
    requires s.handlers[id].agent in c.agents && s.handlers[id].agent in s.used
    ensures var h := s.handlers[id];
            Apply(c, s, Peek(id)) ==
            Some(JudgeStep(c, s, id, action, domain,
                           Fits(c.agents[h.agent].maxCapacity, s.used[h.agent], action.magnitude)))
  {
  }

  lemma LoadStep(c: Config, s: State, id: ReqId, action: Action, domain: DomainId)
    requires id in s.handlers && s.handlers[id].pc == AtLoad(action, domain, Tries(None, 0, 0))
    requires s.handlers[id].agent in c.agents && s.handlers[id].agent in s.used
    ensures var h := s.handlers[id];
            var used := s.used[h.agent];
            Apply(c, s, Load(id)) ==
            if Fits(c.agents[h.agent].maxCapacity, used, action.magnitude) then
              Some(Move(s, id, AtExchange(action, domain, used, Tries(Some(used), 0, 0))))
            else Some(JudgeStep(c, s, id, action, domain, false))
  {
  }

  lemma ReserveStep(c: Config, s: State, id: ReqId, action: Action, domain: DomainId, tries: Tries)
    requires id in s.handlers && s.handlers[id].agent in c.agents && s.handlers[id].agent in s.used
    requires s.handlers[id].pc == AtExchange(action, domain, s.used[s.handlers[id].agent], tries)
    ensures Apply(c, s, Exchange(id, false)) ==
            Some(ExchangeStep(s, id, action, domain, s.used[s.handlers[id].agent], tries, false))
  {
  }

  lemma ActStep(c: Config, s: State, id: ReqId, action: Action, outcome: Result<Json, AmaError>)
    requires id in s.handlers && s.handlers[id].pc == AtActuate(action)
    requires outcome.Err? ==> ActuatorError(outcome.error)
    ensures Apply(c, s, Label.Actuate(id, outcome)) == Some(ActuateStep(s, id, action, Some(outcome)))
  {
  }

  /** Where a handler stands once its request has the result `r`. */
  function ResultPc(action: Action, r: Result<Json, AmaError>): Pc {
    match r
    case Ok(body) => AtCount(action, body)
    case Err(e) => AtCommit(CachedBody(e), HttpStatusAndBody(e).1)
  }

  /** `s'` is `s` with handler `id` at its result, `used` units reserved for its agent, and another log. */
  ghost predicate Reaches(s: State, s': State, id: ReqId, pc: Pc, used: nat)
    requires id in s.handlers
  {
    s' == s.(handlers := s.handlers[id := s.handlers[id].(pc := pc)], used := s.used[s.handlers[id].agent := used],
             log := s'.log)
  }

  lemma ReachesFrom(s: State, s1: State, s': State, id: ReqId, pc: Pc, pc': Pc, used: nat)
    requires id in s.handlers && s1 == Move(s, id, pc) && Reaches(s1, s', id, pc', used)
    ensures Reaches(s, s', id, pc', used)
  {
    assert s.handlers[id := s1.handlers[id]][id := s'.handlers[id]] == s.handlers[id := s'.handlers[id]];
  }

  lemma NoteReaches(s: State, e: Event, s': State, id: ReqId, pc: Pc, pc': Pc, used: nat)
    requires id in s.handlers && Reaches(Move(Note(s, e), id, pc), s', id, pc', used)
    ensures Reaches(s, s', id, pc', used)
  {
    ReachesFrom(Note(s, e), Move(Note(s, e), id, pc), s', id, pc, pc', used);
  }

  lemma RefuseReaches(s: State, id: ReqId, action: Action, e: AmaError)
    requires id in s.handlers && s.handlers[id].agent in s.used
    ensures Reaches(s, Refuse(s, id, e), id, ResultPc(action, Err(e)), s.used[s.handlers[id].agent])
  {
    assert s.used[s.handlers[id].agent := s.used[s.handlers[id].agent]] == s.used;
  }

  lemma JudgeReaches(c: Config, s: State, id: ReqId, action: Action, domain: DomainId, allowed: bool)
    requires id in s.handlers && s.handlers[id].agent in s.used
    ensures Reaches(s, JudgeStep(c, s, id, action, domain, allowed), id,
                    ResultPc(action, if allowed then Ok(Success(true, [])) else Err(AmaError.Impossible)),
                    s.used[s.handlers[id].agent])
  {
    assert s.used[s.handlers[id].agent := s.used[s.handlers[id].agent]] == s.used;
  }

  lemma ExchangeReaches(
      s: State, id: ReqId, action: Action, domain: DomainId, tries: Tries, outcome: Result<Json, AmaError>)
    requires id in s.handlers && s.handlers[id].agent in s.used
    ensures var s1 := ExchangeStep(s, id, action, domain, s.used[s.handlers[id].agent], tries, false);
            id in s1.handlers &&
            Reaches(s, ActuateStep(s1, id, action, Some(outcome)), id, ResultPc(action, outcome),
                    s.used[s.handlers[id].agent] + action.magnitude)
  {
    var s1 := ExchangeStep(s, id, action, domain, s.used[s.handlers[id].agent], tries, false);
    var s2 := ActuateStep(s1, id, action, Some(outcome));
    assert s.handlers[id := s1.handlers[id]][id := s2.handlers[id]] == s.handlers[id := s2.handlers[id]];
  }

  /** The units it leaves reserved. */
  function UsedAfter(c: Config, agent: AgentId, used: nat, action: Action, domain: DomainId): nat
    requires agent in c.agents
  {
    if Decide(c.agents[agent].maxCapacity, c.agents[agent].policies, used, domain, action.magnitude) == Authorized
       && !action.dryRun
    then used + action.magnitude else used
  }

  /** A step that only moves the handler, and then a stretch to its result. */
  lemma MoveAndReach(
      c: Config, s: State, id: ReqId, l: Label, pc: Pc, rest: seq<Label>, t: State, pc': Pc, used: nat)
    requires id in s.handlers && Apply(c, s, l) == Some(Move(s, id, pc))
    requires Leads(c, Move(s, id, pc), rest, t) && Reaches(Move(s, id, pc), t, id, pc', used)
    ensures Leads(c, s, [l] + rest, t) && Reaches(s, t, id, pc', used)
  {
    LeadsOn(c, s, l, Move(s, id, pc), rest, t);
    ReachesFrom(s, Move(s, id, pc), t, id, pc, pc', used);
  }

  /** A last step. */
  lemma LastStep(c: Config, s: State, l: Label, t: State)
    requires Apply(c, s, l) == Some(t)
    ensures Leads(c, s, [l], t)
  {
    LeadsNowhere(c, t);
    LeadsOn(c, s, l, t, [], t);
    assert [l] + [] == [l];
  }

  /** The reservation and the action. */
  lemma ReserveAndAct(
      c: Config, s: State, id: ReqId, action: Action, domain: DomainId, tries: Tries, outcome: Result<Json, AmaError>)
    returns (ls: seq<Label>, t: State)
    requires id in s.handlers && s.handlers[id].agent in c.agents && s.handlers[id].agent in s.used
    requires s.handlers[id].pc == AtExchange(action, domain, s.used[s.handlers[id].agent], tries)
    requires outcome.Err? ==> ActuatorError(outcome.error)
    ensures ls == [Exchange(id, false)] + [Label.Actuate(id, outcome)] && Leads(c, s, ls, t)
    ensures Reaches(s, t, id, ResultPc(action, outcome), s.used[s.handlers[id].agent] + action.magnitude)
  {
    var s1 := ExchangeStep(s, id, action, domain, s.used[s.handlers[id].agent], tries, false);
    t := ActuateStep(s1, id, action, Some(outcome));
    ls := [Exchange(id, false)] + [Label.Actuate(id, outcome)];
    ReserveStep(c, s, id, action, domain, tries);
    ActStep(c, s1, id, action, outcome);
    LastStep(c, s1, Label.Actuate(id, outcome), t);
    LeadsOn(c, s, Exchange(id, false), s1, [Label.Actuate(id, outcome)], t);
    ExchangeReaches(s, id, action, domain, tries, outcome);
  }

  /** From the reservation loop on. */
  lemma LoadAndGoOn(
      c: Config, s: State, id: ReqId, action: Action, domain: DomainId, outcome: Result<Json, AmaError>)
    returns (ls: seq<Label>, t: State)
    requires id in s.handlers && s.handlers[id].pc == AtLoad(action, domain, Tries(None, 0, 0))
    requires s.handlers[id].agent in c.agents && s.handlers[id].agent in s.used
    requires outcome.Err? ==> ActuatorError(outcome.error)
    ensures var a := s.handlers[id].agent;
            var fits := Fits(c.agents[a].maxCapacity, s.used[a], action.magnitude);
            && Leads(c, s, ls, t)
            && Reaches(s, t, id, ResultPc(action, if fits then outcome else Err(AmaError.Impossible)),
                       s.used[a] + if fits then action.magnitude else 0)
  {
    var used := s.used[s.handlers[id].agent];
    LoadStep(c, s, id, action, domain);
    if Fits(c.agents[s.handlers[id].agent].maxCapacity, used, action.magnitude) {
      var pc := AtExchange(action, domain, used, Tries(Some(used), 0, 0));
      ls, t := ReserveAndAct(c, Move(s, id, pc), id, action, domain, Tries(Some(used), 0, 0), outcome);
      MoveAndReach(c, s, id, Load(id), pc, ls, t, ResultPc(action, outcome), used + action.magnitude);
      ls := [Load(id)] + ls;
    } else {
      ls, t := [Load(id)], JudgeStep(c, s, id, action, domain, false);
      LastStep(c, s, Load(id), t);
      JudgeReaches(c, s, id, action, domain, false);
    }
  }

  /** From the dry run's reading on. */
  lemma PeekAndGoOn(c: Config, s: State, id: ReqId, action: Action, domain: DomainId) returns (ls: seq<Label>, t: State)
    requires id in s.handlers && s.handlers[id].pc == AtPeek(action, domain)
    requires s.handlers[id].agent in c.agents && s.handlers[id].agent in s.used
    ensures var a := s.handlers[id].agent;
            var fits := Fits(c.agents[a].maxCapacity, s.used[a], action.magnitude);
            && Leads(c, s, ls, t)
            && Reaches(s, t, id, ResultPc(action, if fits then Ok(Success(true, [])) else Err(AmaError.Impossible)),
                       s.used[a])
  {
    var a := s.handlers[id].agent;
    var fits := Fits(c.agents[a].maxCapacity, s.used[a], action.magnitude);
    ls, t := [Peek(id)], JudgeStep(c, s, id, action, domain, fits);
    PeekStep(c, s, id, action, domain);
    LastStep(c, s, Peek(id), t);
    JudgeReaches(c, s, id, action, domain, fits);
  }

  /** From the policy check on. */
  lemma PoliceAndGoOn(
      c: Config, s: State, id: ReqId, action: Action, domain: DomainId, outcome: Result<Json, AmaError>)
    returns (ls: seq<Label>, t: State)
    requires id in s.handlers && s.handlers[id].pc == AtPolicy(action, domain)
    requires s.handlers[id].agent in c.agents && s.handlers[id].agent in s.used
    requires outcome.Err? ==> ActuatorError(outcome.error)
    ensures var a := s.handlers[id].agent;
            && Leads(c, s, ls, t)
            && Reaches(s, t, id, ResultPc(action, Judged(c, a, s.used[a], action, domain, outcome)),
                       UsedAfter(c, a, s.used[a], action, domain))
  {
    var a := s.handlers[id].agent;
    var fits := Fits(c.agents[a].maxCapacity, s.used[a], action.magnitude);
    PoliceStep(c, s, id, action, domain);
    if !PolicyAllows(c.agents[a].policies, domain, action.magnitude) {
      ls, t := [Police(id)], JudgeStep(c, s, id, action, domain, false);
      LastStep(c, s, Police(id), t);
      JudgeReaches(c, s, id, action, domain, false);
    } else {
      var pc := if action.dryRun then AtPeek(action, domain) else AtLoad(action, domain, Tries(None, 0, 0));
      if action.dryRun {
        ls, t := PeekAndGoOn(c, Move(s, id, pc), id, action, domain);
      } else {
        ls, t := LoadAndGoOn(c, Move(s, id, pc), id, action, domain, outcome);
      }
      MoveAndReach(c, s, id, Police(id), pc, ls, t, ResultPc(action, Judged(c, a, s.used[a], action, domain, outcome)),
                   UsedAfter(c, a, s.used[a], action, domain));
      ls := [Police(id)] + ls;
    }
  }

  /**
   * The protocol's steps of one handler compute the same result: from its checks, with any validation error
   * as rejection and any outcome of its action the guards let through, and nobody in between, it comes to
   * stand at exactly this result, about to count it or to commit and send it, its units reserved. Whatever
   * run of the protocol has come to `s`, these steps continue it.
   */
  lemma RouteEnds(
      c: Config, s: State, id: ReqId, action: Action, rejection: Option<AmaError>, outcome: Result<Json, AmaError>)
    returns (ls: seq<Label>, t: State)
    requires id in s.handlers && s.handlers[id].pc == AtAdmit(action)
    requires s.handlers[id].agent in c.agents && s.handlers[id].agent in s.used
    requires rejection.Some? ==> rejection.value.Validation?
    requires outcome.Err? ==> ActuatorError(outcome.error)
    ensures var a := s.handlers[id].agent;
            && Leads(c, s, ls, t)
            && Reaches(s, t, id, ResultPc(action, Outcome(c, a, s.used[a], action, rejection, outcome)),
                       s.used[a] + if Reserves(c, a, s.used[a], action, rejection) then action.magnitude else 0)
    ensures forall run :: Exec(c, run) == Some(s) ==> Exec(c, run + ls) == Some(t)
  {
    ls, t := RouteFrom(c, s, id, action, rejection, outcome);
    forall run | Exec(c, run) == Some(s) ensures Exec(c, run + ls) == Some(t) {
      LeadsExtendsRun(c, run, s, ls, t);
    }
  }

  lemma RouteFrom(
      c: Config, s: State, id: ReqId, action: Action, rejection: Option<AmaError>, outcome: Result<Json, AmaError>)
    returns (ls: seq<Label>, t: State)
    requires id in s.handlers && s.handlers[id].pc == AtAdmit(action)
    requires s.handlers[id].agent in c.agents && s.handlers[id].agent in s.used
    requires rejection.Some? ==> rejection.value.Validation?
    requires outcome.Err? ==> ActuatorError(outcome.error)
    ensures var a := s.handlers[id].agent;
            && Leads(c, s, ls, t)
            && Reaches(s, t, id, ResultPc(action, Outcome(c, a, s.used[a], action, rejection, outcome)),
                       s.used[a] + if Reserves(c, a, s.used[a], action, rejection) then action.magnitude else 0)
  {
    var a := s.handlers[id].agent;
    var verdict := Prepare(c, action, rejection);
    var e := Checked(id, rejection, verdict);
    AdmitStep(c, s, id, action, rejection);
    match verdict {
      case Err(error) =>
        ls, t := [Admit(id, rejection)], Refuse(Note(s, e), id, error);
        LastStep(c, s, Admit(id, rejection), t);
        RefuseReaches(Note(s, e), id, action, error);
      case Ok(domain) =>
        var s1 := Move(Note(s, e), id, AtPolicy(action, domain));
        ls, t := PoliceAndGoOn(c, s1, id, action, domain, outcome);
        LeadsOn(c, s, Admit(id, rejection), s1, ls, t);
        NoteReaches(s, e, t, id, AtPolicy(action, domain),
                    ResultPc(action, Judged(c, a, s.used[a], action, domain, outcome)),
                    UsedAfter(c, a, s.used[a], action, domain));
        ls := [Admit(id, rejection)] + ls;
    }
  }

  // ---- The answer ----------------------------------------------------------------------------------

  /** The document a result is sent as. */
  function BodyOf(r: Result<Json, AmaError>): Json {
    match r
    case Ok(body) => body
    case Err(e) => HttpStatusAndBody(e).1
  }

  /**
   * Handler `id` has ended with `doc`: that is what was committed and sent, what its entry holds if the entry
   * is still there, and a success has been counted in the domain of the action `name`.
   */
  ghost predicate Replied(
      c: Config, s: State, t: State, id: ReqId, name: string, doc: Json, success: bool, used: nat)
    requires id in s.handlers
  {
    var h := s.handlers[id];
    && t.log.Then? && t.log.last == Committed(id, h.key, doc, doc)
    && t.handlers == s.handlers - {id} && t.used == s.used[h.agent := used]
    && t.cache.Keys == s.cache.Keys
    && (h.key in s.cache ==> t.cache[h.key] == Entry(Some(doc), s.cache[h.key].createdAt, false))
    && (forall k :: k in s.cache && k != h.key ==> t.cache[k] == s.cache[k])
    && t.counters.Keys == s.counters.Keys
    && (forall d :: d in s.counters ==>
          t.counters[d] == s.counters[d] + if success && name in c.mapping && c.mapping[name] == d then 1 else 0)
    && t.windows == s.windows && t.now == s.now && t.next == s.next
  }

  lemma ParseStepIs(c: Config, s: State, id: ReqId, action: Action)
    requires id in s.handlers && s.handlers[id].pc == AtParse && s.handlers[id].body == Parsed(action)
    requires s.handlers[id].agent in c.agents
    ensures Apply(c, s, Parse(id)) == Some(Move(Note(s, Opened(id, Parsed(action))), id, AtAdmit(action)))
  {
  }

  lemma CommitReplies(c: Config, s: State, id: ReqId, doc: Json) returns (t: State)
    requires id in s.handlers && s.handlers[id].pc == AtCommit(doc, doc) && s.handlers[id].agent in s.used
    ensures Apply(c, s, Commit(id)) == Some(t)
    ensures Replied(c, s, t, id, "", doc, false, s.used[s.handlers[id].agent])
  {
    t := CommitStep(s, id, doc, doc);
    assert s.used[s.handlers[id].agent := s.used[s.handlers[id].agent]] == s.used;
  }

  lemma CountStepIs(c: Config, s: State, id: ReqId, action: Action, body: Json)
    requires id in s.handlers && s.handlers[id].pc == AtCount(action, body)
    ensures Apply(c, s, Count(id)) == Some(CountStep(c, s, id, action, body))
  {
  }

  lemma CountAndCommit(c: Config, s: State, id: ReqId, action: Action, body: Json) returns (ls: seq<Label>, t: State)
    requires id in s.handlers && s.handlers[id].pc == AtCount(action, body) && s.handlers[id].agent in s.used
    ensures Leads(c, s, ls, t) && Replied(c, s, t, id, action.name, body, true, s.used[s.handlers[id].agent])
  {
    var s1 := CountStep(c, s, id, action, body);
    CountStepIs(c, s, id, action, body);
    t := CommitReplies(c, s1, id, body);
    LastStep(c, s1, Commit(id), t);
    LeadsOn(c, s, Count(id), s1, [Commit(id)], t);
    ls := [Count(id)] + [Commit(id)];
    assert s1.handlers - {id} == s.handlers - {id};
  }

  /** From the result to the end of the handler. */
  lemma FinishRoute(c: Config, s: State, id: ReqId, action: Action, r: Result<Json, AmaError>)
    returns (ls: seq<Label>, t: State)
    requires id in s.handlers && s.handlers[id].pc == ResultPc(action, r) && s.handlers[id].agent in s.used
    requires r.Err? ==> Replayable(r.error)
    ensures Leads(c, s, ls, t)
    ensures Replied(c, s, t, id, action.name, BodyOf(r), r.Ok?, s.used[s.handlers[id].agent])
  {
    match r {
      case Ok(body) => ls, t := CountAndCommit(c, s, id, action, body);
      case Err(e) =>
        CachedEqualsSent(e);
        t := CommitReplies(c, s, id, BodyOf(r));
        ls := [Commit(id)];
        LastStep(c, s, Commit(id), t);
    }
  }

  lemma RepliedFrom(
      c: Config, s: State, e: Event, m: State, t: State, id: ReqId, pc: Pc, pc': Pc, name: string, doc: Json,
      success: bool, used: nat)
    requires id in s.handlers && Reaches(Move(Note(s, e), id, pc), m, id, pc', used)
    requires id in m.handlers && s.handlers[id].agent in m.used && m.used[s.handlers[id].agent] == used
    requires Replied(c, m, t, id, name, doc, success, used)
    ensures Replied(c, s, t, id, name, doc, success, used)
  {
    assert m.handlers - {id} == s.handlers - {id};
    assert m.used[s.handlers[id].agent := used] == s.used[s.handlers[id].agent := used];
  }

  lemma Regroup(run: seq<Label>, a: seq<Label>, b: seq<Label>)
    ensures run + (a + b) == (run + a) + b
  {
  }

  lemma OneAfterTheOther(c: Config, run: seq<Label>, s: State, a: seq<Label>, m: State, b: seq<Label>, t: State)
    requires Exec(c, run) == Some(s) && Leads(c, s, a, m) && Leads(c, m, b, t)
    ensures Exec(c, run + (a + b)) == Some(t)
  {
    LeadsExtendsRun(c, run, s, a, m);
    LeadsExtendsRun(c, run + a, m, b, t);
    Regroup(run, a, b);
  }

  lemma TwoStretches(c: Config, s: State, a: seq<Label>, m: State, b: seq<Label>, t: State)
    requires Leads(c, s, a, m) && Leads(c, m, b, t)
    ensures forall run :: Exec(c, run) == Some(s) ==> Exec(c, run + (a + b)) == Some(t)
  {
    forall run | Exec(c, run) == Some(s) ensures Exec(c, run + (a + b)) == Some(t) {
      OneAfterTheOther(c, run, s, a, m, b, t);
    }
  }

  lemma ReplyAfter(
      c: Config, s: State, e: Event, way: seq<Label>, m: State, id: ReqId, action: Action, r: Result<Json, AmaError>,
      used: nat)
    returns (ls: seq<Label>, t: State)
    requires id in s.handlers && s.handlers[id].agent in s.used && (r.Err? ==> Replayable(r.error))
    requires Leads(c, s, way, m) && Reaches(Move(Note(s, e), id, AtAdmit(action)), m, id, ResultPc(action, r), used)
    ensures Replied(c, s, t, id, action.name, BodyOf(r), r.Ok?, used)
    ensures forall run :: Exec(c, run) == Some(s) ==> Exec(c, run + ls) == Some(t)
  {
    var rest;
    rest, t := FinishRoute(c, m, id, action, r);
    RepliedFrom(c, s, e, m, t, id, AtAdmit(action), ResultPc(action, r), action.name, BodyOf(r), r.Ok?, used);
    ls := way + rest;
    TwoStretches(c, s, way, m, rest, t);
  }

  /**
   * The whole way of one handler: from parsing a request for `action` to its end, with any validation error
   * and any outcome of the action the guards let through. It ends with the document of the result as
   * committed, sent and cached, the success counted, the units reserved, and continues any run that has come
   * to `s`.
   */
  lemma RouteReplies(
      c: Config, s: State, id: ReqId, action: Action, rejection: Option<AmaError>, outcome: Result<Json, AmaError>)
    returns (ls: seq<Label>, t: State)
    requires id in s.handlers && s.handlers[id].pc == AtParse && s.handlers[id].body == Parsed(action)
    requires s.handlers[id].agent in c.agents && s.handlers[id].agent in s.used
    requires rejection.Some? ==> rejection.value.Validation?
    requires outcome.Err? ==> ActuatorError(outcome.error)
    ensures var a := s.handlers[id].agent;
            var r := Outcome(c, a, s.used[a], action, rejection, outcome);
            Replied(c, s, t, id, action.name, BodyOf(r), r.Ok?,
                    s.used[a] + if Reserves(c, a, s.used[a], action, rejection) then action.magnitude else 0)
    ensures forall run :: Exec(c, run) == Some(s) ==> Exec(c, run + ls) == Some(t)
  {
    var a := s.handlers[id].agent;
    var e := Opened(id, Parsed(action));
    var s1 := Move(Note(s, e), id, AtAdmit(action));
    ParseStepIs(c, s, id, action);
    var way, m := RouteEnds(c, s1, id, action, rejection, outcome);
    LeadsOn(c, s, Parse(id), s1, way, m);
    ls, t := ReplyAfter(c, s, e, [Parse(id)] + way, m, id, action,
                        Outcome(c, a, s.used[a], action, rejection, outcome),
                        s.used[a] + if Reserves(c, a, s.used[a], action, rejection) then action.magnitude else 0);
  }

  /**
   * Both views of one request agree: `process_action` carried out on the authorizer and the disk, and the
   * protocol's steps `ls` of a handler `req` about to parse it, give the same result and leave the same
   * units reserved. The handler ends with the document of that result: it is what is sent, committed and
   * cached. The error kinds the protocol's steps let through are those the parts really have; only those of
   * the shell and HTTP actuators are assumed.
   */
  method ServeRequest(
      c: Config, ghost s: State, ghost req: ReqId, authorizer: P0Authorizer, disk: Volume, agent: AgentId, rules: Rules,
      action: Action, request: Request, id: string, fault: Fault, elsewhere: Result<Json, AmaError>,
      render: Done -> string)
    returns (r: Result<Json, AmaError>, ghost ls: seq<Label>, ghost t: State)
    requires Serves(c, agent, authorizer) && agent in s.used && s.used[agent] == authorizer.capacity
    requires req in s.handlers && s.handlers[req].agent == agent
    requires s.handlers[req].pc == AtParse && s.handlers[req].body == Parsed(action)
    requires disk.Valid() && PlainPath(EffectiveRoot(rules.root, Some(agent))) && UnusedId(disk.tree, id)
    requires request.action == action.name && (elsewhere.Err? ==> ActuatorError(elsewhere.error))
    modifies authorizer`capacity, disk
    ensures Serves(c, agent, authorizer) && disk.Valid()
    ensures Replied(c, s, t, req, action.name, BodyOf(r), r.Ok?, authorizer.capacity)
    ensures forall run :: Exec(c, run) == Some(s) ==> Exec(c, run + ls) == Some(t)
    ensures r.Err? ==> Replayable(r.error) && CachedBody(r.error) == HttpStatusAndBody(r.error).1
  {
    var rejection, canonical, outcome, acted, lost;
    r, rejection, canonical, outcome, acted, lost := ProcessAction(
      c, agent, authorizer, [], disk, rules, action, request, id, fault, elsewhere, render);
    ls, t := RouteReplies(c, s, req, action, rejection, outcome);
    if r.Err? {
      CachedEqualsSent(r.error);
    }
  }
}
