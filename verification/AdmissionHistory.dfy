/**
 * What a history alone determines: who holds a key, how much an agent has reserved, how far a request
 * has come. `Legal` is the protocol's specification, one condition per event on the events before it.
 */
module AdmissionHistory {
  import opened Common
  import opened Errors
  import opened Slime
  import opened Idempotency
  import opened Admission
  import R = RateLimit

  datatype Grant = Grant(req: ReqId, at: nat)

  /** The latest `New` answer for `key` that no Full-branch removal of the key has followed. */
  function Claim(h: History, key: Key): Option<Grant> {
    match h
    case Start => None
    case Then(past, Answered(r, k, at, New)) => if k == key then Some(Grant(r, at)) else Claim(past, key)
    case Then(past, FullRemoved(_, k)) => if k == key then None else Claim(past, key)
    case Then(past, _) => Claim(past, key)
  }

  /** What was last committed under `key` since its latest grant, whoever committed it. */
  function LastCommit(h: History, key: Key): Option<Json> {
    match h
    case Start => None
    case Then(past, Answered(_, k, _, New)) => if k == key then None else LastCommit(past, key)
    case Then(past, Committed(_, k, cached, _)) => if k == key then Some(cached) else LastCommit(past, key)
    case Then(past, _) => LastCommit(past, key)
  }

  /** The answer to a repeat while the latest grant of its key is alive and unremoved. */
  function Recalled(h: History, key: Key): Status {
    match LastCommit(h, key)
    case Some(body) => Cached(body)
    case None => InFlight
  }

  /** Units reserved on behalf of `agent`. */
  function Used(h: History, agent: AgentId): nat {
    match h
    case Start => 0
    case Then(past, Decided(_, a, _, magnitude, false, Authorized)) =>
      Used(past, agent) + if a == agent then magnitude else 0
    case Then(past, _) => Used(past, agent)
  }

  /** The calls made on the limiter of `agent`. */
  function CallsOf(h: History, agent: AgentId): R.Calls {
    match h
    case Start => R.Boot(0)
    case Then(past, Limited(a, at, _)) => if a == agent then R.Then(CallsOf(past, agent), at) else CallsOf(past, agent)
    case Then(past, _) => CallsOf(past, agent)
  }

  /** Requests that passed the counter increment with an action of domain `domain`. */
  function Successes(c: Config, h: History, domain: DomainId): nat {
    match h
    case Start => 0
    case Then(past, Succeeded(_, name)) =>
      Successes(c, past, domain) + if name in c.mapping && c.mapping[name] == domain then 1 else 0
    case Then(past, _) => Successes(c, past, domain)
  }

  datatype Ruling = Ruling(agent: AgentId, magnitude: nat, dry: bool, verdict: Verdict)

  /** How far one request has come: `content` is its body once parsed, `check` what validation and mapping
      said, `outcome` how its action ended, if it was not dropped. */
  datatype Record = Record(
    answered: bool, grant: Option<(Key, nat)>, content: Option<Body>, check: Option<Result<DomainId, AmaError>>,
    ruling: Option<Ruling>, acted: bool, outcome: Option<Result<Json, AmaError>>, counted: bool,
    committed: Option<Json>)

  const BLANK := Record(false, None, None, None, None, false, None, false, None)

  function RecordOf(h: History, r: ReqId): Record {
    match h
    case Start => BLANK
    case Then(past, e) =>
      var before := RecordOf(past, r);
      if e.Limited? || e.req != r then before
      else match e
           case Answered(_, k, at, status) =>
             before.(answered := true, grant := if status == New then Some((k, at)) else before.grant)
           case Decided(_, a, _, m, dry, verdict) => before.(ruling := Some(Ruling(a, m, dry, verdict)))
           case Opened(_, body) => before.(content := Some(body))
           case Checked(_, _, verdict) => before.(check := Some(verdict))
           case Actuated(_, _, outcome) => before.(acted := true, outcome := outcome)
           case Succeeded(_, _) => before.(counted := true)
           case Committed(_, _, cached, _) => before.(committed := Some(cached))
           case _ => before
  }

  /** Authorized to go on: a dry run, or a reservation whose action has succeeded. */
  predicate MaySucceed(rec: Record) {
    && rec.content.Some? && rec.content.value.Parsed? && rec.check.Some? && rec.check.value.Ok?
    && rec.ruling.Some? && rec.ruling.value.verdict == Authorized
    && (rec.ruling.value.dry || (rec.outcome.Some? && rec.outcome.value.Ok?))
  }

  /** The document a request is owed, once what has happened to it decides one. */
  function Due(rec: Record): Option<Json> {
    match rec.content
    case None => None
    case Some(Malformed(message)) => Some(Problem(ERROR, Some(BAD_REQUEST), InvalidJson(message)))
    case Some(Parsed(_)) =>
      match rec.check
      case None => None
      case Some(Err(e)) => Some(HttpStatusAndBody(e).1)
      case Some(Ok(_)) =>
        match rec.ruling
        case None => None
        case Some(Ruling(_, _, _, Impossible)) => Some(Denial)
        case Some(Ruling(_, _, true, Authorized)) => Some(Success(true, []))
        case Some(Ruling(_, _, false, Authorized)) =>
          match rec.outcome
          case None => None
          case Some(Ok(body)) => Some(body)
          case Some(Err(e)) => Some(HttpStatusAndBody(e).1)
  }

  /** What validation and mapping must say: the magnitude first, then the structural error if there is one,
      then the mapping. */
  ghost predicate RightVerdict(
      c: Config, action: Action, structural: Option<AmaError>, verdict: Result<DomainId, AmaError>)
  {
    && (verdict.Ok? <==> 1 <= action.magnitude <= 1000 && structural.None? && action.name in c.mapping)
    && (verdict.Ok? ==> c.mapping[action.name] == verdict.value)
    && (!(1 <= action.magnitude <= 1000) ==>
          verdict == Err(Validation(INVALID_MAGNITUDE, MagnitudeRange(action.magnitude))))
    && (1 <= action.magnitude <= 1000 && structural.Some? ==> verdict == Err(structural.value))
    && (1 <= action.magnitude <= 1000 && structural.None? && action.name !in c.mapping ==>
          verdict == Err(Validation(UNKNOWN_ACTION, ActionNotMapped(action.name))))
  }

  /** The specification of one event `e` after the events `h`. */
  ghost predicate LegalNext(c: Config, h: History, e: Event) {
    match e
    case Limited(a, at, passed) =>
      && a in c.agents && CallsOf(h, a).at <= at
      && passed == R.Passes(R.Then(CallsOf(h, a), at), c.agents[a].rateMax, c.agents[a].rateSecs)
    case Answered(r, k, at, status) =>
      && !RecordOf(h, r).answered
      && (Claim(h, k).Some? && at < Claim(h, k).value.at + c.ttl ==> status == Recalled(h, k))
      && (Claim(h, k).Some? && at > Claim(h, k).value.at + c.ttl ==> status == New || status == Full)
      && (Claim(h, k).None? ==> status == New || status == Full)
    case FullRemoved(r, _) => RecordOf(h, r) == BLANK.(answered := true)
    case OrphanRemoved(_, _) => false
    case Opened(r, _) => RecordOf(h, r).grant.Some? && RecordOf(h, r).content.None?
    case Checked(r, structural, verdict) =>
      && RecordOf(h, r).content.Some? && RecordOf(h, r).content.value.Parsed? && RecordOf(h, r).check.None?
      && (structural.Some? ==> structural.value.Validation?)
      && RightVerdict(c, RecordOf(h, r).content.value.action, structural, verdict)
    case Decided(r, a, d, m, dry, verdict) =>
      && RecordOf(h, r).grant.Some? && RecordOf(h, r).check == Some(Ok(d)) && RecordOf(h, r).ruling.None?
      && RecordOf(h, r).content.Some? && RecordOf(h, r).content.value.Parsed?
      && m == RecordOf(h, r).content.value.action.magnitude && dry == RecordOf(h, r).content.value.action.dryRun
      && a in c.agents && 1 <= m <= 1000
      && verdict == Decide(c.agents[a].maxCapacity, c.agents[a].policies, Used(h, a), d, m)
    case Actuated(r, a, outcome) =>
      var rec := RecordOf(h, r);
      && (outcome.Some? && outcome.value.Err? ==> ActuatorError(outcome.value.error))
      && !rec.acted && rec.ruling.Some? && rec.ruling.value == Ruling(a, rec.ruling.value.magnitude, false, Authorized)
    case Succeeded(r, name) =>
      && MaySucceed(RecordOf(h, r)) && !RecordOf(h, r).counted && RecordOf(h, r).content.value.action.name == name
      && name in c.mapping && c.mapping[name] in Domains(c)
    case Committed(r, k, cached, sent) =>
      && RecordOf(h, r).grant.Some? && RecordOf(h, r).grant.value.0 == k
      && RecordOf(h, r).committed.None? && cached == sent && Due(RecordOf(h, r)) == Some(sent)
      && (RecordOf(h, r).counted <==> MaySucceed(RecordOf(h, r)))
  }

  ghost predicate Legal(c: Config, h: History) {
    h.Then? ==> Legal(c, h.past) && LegalNext(c, h.past, h.last)
  }

  // ---- Reading a history by position -------------------------------------------------------

  function Length(h: History): nat {
    if h.Start? then 0 else Length(h.past) + 1
  }

  function At(h: History, i: nat): Event
    requires i < Length(h)
  {
    if i == Length(h.past) then h.last else At(h.past, i)
  }

  /** The first `i` events. */
  function Upto(h: History, i: nat): History
    requires i <= Length(h)
  {
    if i == Length(h) then h else Upto(h.past, i)
  }

  lemma {:induction false} LegalAt(c: Config, h: History, i: nat)
    requires Legal(c, h) && i < Length(h)
    ensures Legal(c, Upto(h, i)) && LegalNext(c, Upto(h, i), At(h, i))
  {
    if i < Length(h.past) {
      LegalAt(c, h.past, i);
    }
  }
}
