/**
 * The admission protocol as a transition system: any number of handlers, each at one point of
 * `handle_action`, interleave one atomic step at a time over the shared cache, the per-agent capacity
 * counters, the rate limiters and the domain counters. `log` records what happened; no step reads it.
 */
module Admission {
  import opened Common
  import opened Errors
  import opened Slime
  import opened Idempotency
  import R = RateLimit

  type AgentId = string
  type ReqId = nat

  datatype Agent = Agent(maxCapacity: nat, policies: map<DomainId, Policy>, rateMax: nat, rateSecs: nat)

  /** `threads` is the concurrency limit, `mapping` sends an action name to its domain. */
  datatype Config = Config(
    agents: map<AgentId, Agent>, defaultAgent: Option<AgentId>, mapping: map<string, DomainId>,
    maxEntries: nat, ttl: nat, threads: nat)

  /** What loading the configuration establishes. */
  ghost predicate ValidConfig(c: Config) {
    && c.threads >= 1
    && (c.defaultAgent.Some? ==> c.defaultAgent.value in c.agents)
    && forall a :: a in c.agents ==>
         c.agents[a].maxCapacity <= U64_MAX && c.agents[a].rateMax >= 1 && c.agents[a].rateSecs >= 1
  }

  datatype Action = Action(name: string, magnitude: nat, dryRun: bool)

  datatype Body = Malformed(message: string) | Parsed(action: Action)

  // ---- History ---------------------------------------------------------------------------

  datatype Event =
    | Limited(agent: AgentId, at: nat, passed: bool)
    | Answered(req: ReqId, key: Key, at: nat, status: Status)
    | FullRemoved(req: ReqId, key: Key)
    | OrphanRemoved(req: ReqId, key: Key)
    | Opened(req: ReqId, body: Body)
    | Checked(req: ReqId, structural: Option<AmaError>, check: Result<DomainId, AmaError>)
    | Decided(req: ReqId, agent: AgentId, domain: DomainId, magnitude: nat, dry: bool, verdict: Verdict)
    | Actuated(req: ReqId, agent: AgentId, outcome: Option<Result<Json, AmaError>>)
    | Succeeded(req: ReqId, name: string)
    | Committed(req: ReqId, key: Key, cached: Json, sent: Json)

  datatype History = Start | Then(past: History, last: Event)

  // ---- State -----------------------------------------------------------------------------

  /** Bookkeeping of one reservation loop: the first value loaded, exchanges lost to rivals, spurious failures. */
  datatype Tries = Tries(first: Option<nat>, lost: nat, spurious: nat)

  datatype Pc =
    | AtRate
    | AtPurge
    | Purging(at: nat, todo: set<Key>)
    | AtEntry(full: bool)
    | AtRemove
    | AtParse
    | AtAdmit(action: Action)
    | AtPolicy(action: Action, domain: DomainId)
    | AtPeek(action: Action, domain: DomainId)
    | AtLoad(action: Action, domain: DomainId, tries: Tries)
    | AtExchange(action: Action, domain: DomainId, seen: nat, tries: Tries)
    | AtActuate(action: Action)
    | AtCount(action: Action, body: Json)
    | AtCommit(cached: Json, sent: Json)

  /** `since` is the instant of the handler's own reservation, once it has one. */
  datatype Handler = Handler(agent: AgentId, key: Key, body: Body, pc: Pc, since: nat)

  /** Past the idempotency check with the answer `New`. */
  predicate Owner(pc: Pc) {
    !(pc.AtRate? || pc.AtPurge? || pc.Purging? || pc.AtEntry? || pc.AtRemove?)
  }

  datatype State = State(
    now: nat, next: ReqId, handlers: map<ReqId, Handler>, cache: Entries,
    used: map<AgentId, nat>, windows: map<AgentId, R.Window>, counters: map<DomainId, nat>, log: History)

  /** Every domain some agent has a policy for. */
  function Domains(c: Config): set<DomainId> {
    set a, d | a in c.agents && d in c.agents[a].policies :: d
  }

  function Init(c: Config): State {
    State(0, 0, map[], map[], map a | a in c.agents :: 0, map a | a in c.agents :: R.Window(0, 0),
          map d | d in Domains(c) :: 0, Start)
  }

  // ---- Steps -----------------------------------------------------------------------------

  datatype Label =
    | Tick(elapsed: nat)
    | Arrive(header: Option<AgentId>, key: Key, body: Body)
    | ArriveKeyless(header: Option<AgentId>)
    | RateCheck(id: ReqId)
    | PurgeBegin(id: ReqId)
    | PurgeVisit(id: ReqId, visited: Key)
    | Snapshot(id: ReqId)
    | Lookup(id: ReqId)
    | RemoveFull(id: ReqId)
    | Parse(id: ReqId)
    | Admit(id: ReqId, rejection: Option<AmaError>)
    | Police(id: ReqId)
    | Peek(id: ReqId)
    | Load(id: ReqId)
    | Exchange(id: ReqId, weak: bool)
    | Actuate(id: ReqId, outcome: Result<Json, AmaError>)
    | TimeOut(id: ReqId)
    | Count(id: ReqId)
    | Commit(id: ReqId)

  /** A header counts if its agent is known; the default agent stands in for an absent one only. */
  function ResolveAgent(c: Config, header: Option<AgentId>): (r: Option<AgentId>)
    ensures forall a :: r == Some(a) <==>
              (header == Some(a) && a in c.agents) || (header == None && c.defaultAgent == Some(a))
  {
    match header
    case Some(a) => if a in c.agents then Some(a) else None
    case None => c.defaultAgent
  }

  /** A new request takes the next identity and one of the permits. */
  function Accept(s: State, agent: AgentId, key: Key, body: Body): State {
    s.(next := s.next + 1, handlers := s.handlers[s.next := Handler(agent, key, body, AtRate, 0)])
  }

  function Wait(s: State, elapsed: nat): State {
    s.(now := s.now + elapsed)
  }

  function End(s: State, id: ReqId): State {
    s.(handlers := s.handlers - {id})
  }

  function Move(s: State, id: ReqId, pc: Pc): State
    requires id in s.handlers
  {
    s.(handlers := s.handlers[id := s.handlers[id].(pc := pc)])
  }

  function Note(s: State, e: Event): State {
    s.(log := Then(s.log, e))
  }

  /** The error path: commit what is cached for `e`, send what is sent for `e`. */
  function Refuse(s: State, id: ReqId, e: AmaError): State
    requires id in s.handlers
  {
    Move(s, id, AtCommit(CachedBody(e), HttpStatusAndBody(e).1))
  }

  /**
   * The checks `process_action` makes before it asks the authorizer, in order: magnitude, field
   * exclusivity and canonicalization (`rejection` is their error, if any), mapping to a domain.
   */
  function Prepare(c: Config, action: Action, rejection: Option<AmaError>): Result<DomainId, AmaError> {
    if !(1 <= action.magnitude <= 1000) then Err(Validation(INVALID_MAGNITUDE, MagnitudeRange(action.magnitude)))
    else if rejection.Some? then Err(rejection.value)
    else if action.name in c.mapping then Ok(c.mapping[action.name])
    else Err(Validation(UNKNOWN_ACTION, ActionNotMapped(action.name)))
  }

  /** The two error constructors the actuators build. */
  predicate ActuatorError(e: AmaError) {
    e.Validation? || e.ServiceUnavailable?
  }

  function RateStep(c: Config, s: State, agent: AgentId): (r: (bool, State))
    requires agent in c.agents && agent in s.windows
  {
    var (ok, w) := R.Step(s.windows[agent], s.now, c.agents[agent].rateMax, c.agents[agent].rateSecs);
    (ok, Note(s.(windows := s.windows[agent := w]), Limited(agent, s.now, ok)))
  }

  function LimitStep(c: Config, s: State, id: ReqId): State
    requires id in s.handlers && s.handlers[id].agent in c.agents && s.handlers[id].agent in s.windows
  {
    var (ok, s1) := RateStep(c, s, s.handlers[id].agent);
    if ok then Move(s1, id, AtPurge) else End(s1, id)
  }

  function VisitStep(c: Config, s: State, id: ReqId, k: Key, at: nat, todo: set<Key>): State
    requires id in s.handlers
  {
    Move(s.(cache := Visit(s.cache, k, at, c.ttl)), id, Purging(at, todo - {k}))
  }

  function RemoveStep(s: State, id: ReqId): State
    requires id in s.handlers
  {
    var k := s.handlers[id].key;
    End(Note(s.(cache := s.cache - {k}), FullRemoved(id, k)), id)
  }

  function CommitStep(s: State, id: ReqId, cached: Json, sent: Json): State
    requires id in s.handlers
  {
    var k := s.handlers[id].key;
    End(Note(s.(cache := Completed(s.cache, k, cached)), Committed(id, k, cached, sent)), id)
  }

  function LookupStep(c: Config, s: State, id: ReqId, full: bool): State
    requires id in s.handlers
  {
    var h := s.handlers[id];
    var status := Answer(s.cache, h.key, s.now, c.ttl, full);
    var s1 := Note(s.(cache := AfterAnswer(s.cache, h.key, s.now, c.ttl, full)), Answered(id, h.key, s.now, status));
    match status
    case New => s1.(handlers := s1.handlers[id := h.(pc := AtParse, since := s.now)])
    case Full => Move(s1, id, AtRemove)
    case _ => End(s1, id)
  }

  function ParseStep(c: Config, s: State, id: ReqId): State
    requires id in s.handlers
  {
    var h := s.handlers[id];
    var s1 := Note(s, Opened(id, h.body));
    match h.body
    case Malformed(message) =>
      var body := ErrorBody(BAD_REQUEST, InvalidJson(message));
      Move(s1, id, AtCommit(body, body))
    case Parsed(action) =>
      if h.agent in c.agents then Move(s1, id, AtAdmit(action))
      else End(Note(s.(cache := s.cache - {h.key}), OrphanRemoved(id, h.key)), id)
  }

  /** Validation and mapping. */
  function CheckStep(c: Config, s: State, id: ReqId, action: Action, rejection: Option<AmaError>): State
    requires id in s.handlers
  {
    var verdict := Prepare(c, action, rejection);
    var s1 := Note(s, Checked(id, rejection, verdict));
    match verdict
    case Err(e) => Refuse(s1, id, e)
    case Ok(domain) => Move(s1, id, AtPolicy(action, domain))
  }

  /** The end of the action: its outcome, or `None` when the request was dropped while it waited. */
  function ActuateStep(s: State, id: ReqId, action: Action, outcome: Option<Result<Json, AmaError>>): State
    requires id in s.handlers
  {
    var s1 := Note(s, Actuated(id, s.handlers[id].agent, outcome));
    match outcome
    case None => End(s1, id)
    case Some(Ok(body)) => Move(s1, id, AtCount(action, body))
    case Some(Err(e)) => Refuse(s1, id, e)
  }

  /** One reading of the counter: the dry run's verdict, or the reservation loop's early exit. */
  function JudgeStep(c: Config, s: State, id: ReqId, action: Action, domain: DomainId, allowed: bool): State
    requires id in s.handlers
  {
    var h := s.handlers[id];
    var verdict := if allowed then Authorized else Verdict.Impossible;
    var s1 := Note(s, Decided(id, h.agent, domain, action.magnitude, action.dryRun, verdict));
    if allowed then Move(s1, id, AtCount(action, Success(true, []))) else Refuse(s1, id, AmaError.Impossible)
  }

  function ExchangeStep(
      s: State, id: ReqId, action: Action, domain: DomainId, seen: nat, tries: Tries, weak: bool): State
    requires id in s.handlers && s.handlers[id].agent in s.used
  {
    var agent := s.handlers[id].agent;
    if s.used[agent] != seen then
      Move(s, id, AtLoad(action, domain, tries.(lost := tries.lost + 1)))
    else if weak then
      Move(s, id, AtLoad(action, domain, tries.(spurious := tries.spurious + 1)))
    else
      var s1 := s.(used := s.used[agent := seen + action.magnitude]);
      Move(Note(s1, Decided(id, agent, domain, action.magnitude, false, Authorized)), id, AtActuate(action))
  }

  function CountStep(c: Config, s: State, id: ReqId, action: Action, body: Json): State
    requires id in s.handlers
  {
    var counters :=
      if action.name in c.mapping && c.mapping[action.name] in s.counters then
        s.counters[c.mapping[action.name] := s.counters[c.mapping[action.name]] + 1]
      else s.counters;
    Move(Note(s.(counters := counters), Succeeded(id, action.name)), id, AtCommit(body, body))
  }

  /** The rate check, and the purge and size test before the entry lock. */
  function FrontAct(c: Config, s: State, id: ReqId, l: Label): Option<State>
    requires id in s.handlers
  {
    var h := s.handlers[id];
    match (l, h.pc)
    case (RateCheck(_), AtRate) =>
      if h.agent !in c.agents || h.agent !in s.windows then Some(End(s, id))
      else Some(LimitStep(c, s, id))
    case (PurgeBegin(_), AtPurge) => Some(Move(s, id, Purging(s.now, s.cache.Keys)))
    case (PurgeVisit(_, k), Purging(at, todo)) => Some(VisitStep(c, s, id, k, at, todo))
    case (Snapshot(_), Purging(at, todo)) =>
      if todo == {} then Some(Move(s, id, AtEntry(|s.cache| >= c.maxEntries))) else None
    case _ => None
  }

  /** The three steps on the handler's own cache entry. */
  function EntryAct(c: Config, s: State, id: ReqId, l: Label): Option<State>
    requires id in s.handlers
  {
    match (l, s.handlers[id].pc)
    case (Lookup(_), AtEntry(full)) => Some(LookupStep(c, s, id, full))
    case (RemoveFull(_), AtRemove) => Some(RemoveStep(s, id))
    case (Commit(_), AtCommit(cached, sent)) => Some(CommitStep(s, id, cached, sent))
    case _ => None
  }

  /** Parsing and validation. */
  function PrepareAct(c: Config, s: State, id: ReqId, l: Label): Option<State>
    requires id in s.handlers
  {
    match (l, s.handlers[id].pc)
    case (Parse(_), AtParse) => Some(ParseStep(c, s, id))
    case (Admit(_, rejection), AtAdmit(action)) =>
      if rejection.Some? && !rejection.value.Validation? then None
      else Some(CheckStep(c, s, id, action, rejection))
    case _ => None
  }

  /** The action itself, and counting its success. */
  function OutcomeAct(c: Config, s: State, id: ReqId, l: Label): Option<State>
    requires id in s.handlers
  {
    match (l, s.handlers[id].pc)
    case (Actuate(_, outcome), AtActuate(action)) =>
      if outcome.Err? && !ActuatorError(outcome.error) then None else Some(ActuateStep(s, id, action, Some(outcome)))
    case (TimeOut(_), AtActuate(action)) => Some(ActuateStep(s, id, action, None))
    case (Count(_), AtCount(action, body)) => Some(CountStep(c, s, id, action, body))
    case _ => None
  }

  /** Policy check and dry-run reading. */
  function PolicyAct(c: Config, s: State, id: ReqId, l: Label): Option<State>
    requires id in s.handlers
  {
    var h := s.handlers[id];
    if h.agent !in c.agents || h.agent !in s.used then None
    else
      match (l, h.pc)
      case (Police(_), AtPolicy(action, domain)) =>
        if !PolicyAllows(c.agents[h.agent].policies, domain, action.magnitude) then
          Some(JudgeStep(c, s, id, action, domain, false))
        else if action.dryRun then Some(Move(s, id, AtPeek(action, domain)))
        else Some(Move(s, id, AtLoad(action, domain, Tries(None, 0, 0))))
      case (Peek(_), AtPeek(action, domain)) =>
        Some(JudgeStep(c, s, id, action, domain,
                       Fits(c.agents[h.agent].maxCapacity, s.used[h.agent], action.magnitude)))
      case _ => None
  }

  /** The load and the exchange of the reservation loop. */
  function ReserveAct(c: Config, s: State, id: ReqId, l: Label): Option<State>
    requires id in s.handlers
  {
    var h := s.handlers[id];
    if h.agent !in c.agents || h.agent !in s.used then None
    else
      match (l, h.pc)
      case (Load(_), AtLoad(action, domain, tries)) =>
        if Fits(c.agents[h.agent].maxCapacity, s.used[h.agent], action.magnitude) then
          var first := if tries.first.Some? then tries.first else Some(s.used[h.agent]);
          Some(Move(s, id, AtExchange(action, domain, s.used[h.agent], tries.(first := first))))
        else Some(JudgeStep(c, s, id, action, domain, false))
      case (Exchange(_, weak), AtExchange(action, domain, seen, tries)) =>
        Some(ExchangeStep(s, id, action, domain, seen, tries, weak))
      case _ => None
  }

  /** The step `l` of handler `id`, if the handler stands where the step starts. */
  function Act(c: Config, s: State, id: ReqId, l: Label): Option<State>
    requires id in s.handlers
  {
    if l.Parse? || l.Admit? then PrepareAct(c, s, id, l)
    else if l.Actuate? || l.TimeOut? || l.Count? then OutcomeAct(c, s, id, l)
    else if l.Police? || l.Peek? then PolicyAct(c, s, id, l)
    else if l.Load? || l.Exchange? then ReserveAct(c, s, id, l)
    else if l.Lookup? || l.RemoveFull? || l.Commit? then EntryAct(c, s, id, l)
    else FrontAct(c, s, id, l)
  }

  /** One step of the system, or `None` when the step is not possible in `s`. */
  function Apply(c: Config, s: State, l: Label): Option<State> {
    match l
    case Tick(elapsed) => Some(Wait(s, elapsed))
    case Arrive(header, key, body) =>
      (match ResolveAgent(c, header)
       case None => Some(s)
       case Some(agent) =>
         if |s.handlers| >= c.threads then None
         else Some(Accept(s, agent, key, body)))
    case ArriveKeyless(header) =>
      (match ResolveAgent(c, header)
       case None => Some(s)
       case Some(agent) =>
         if agent !in c.agents || agent !in s.windows then Some(s) else Some(RateStep(c, s, agent).1))
    case _ => if l.id in s.handlers then Act(c, s, l.id, l) else None
  }

  /** The state after the steps `ls` from start-up, or `None` when they are not a run. */
  function Exec(c: Config, ls: seq<Label>): Option<State> {
    if ls == [] then Some(Init(c))
    else match Exec(c, ls[..|ls| - 1])
         case Some(s) => Apply(c, s, ls[|ls| - 1])
         case None => None
  }
}
