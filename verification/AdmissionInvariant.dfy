/** Every run of the admission protocol has a legal history, and its shared state is what the history says. */
module AdmissionInvariant {
  import opened Common
  import opened Errors
  import opened Slime
  import opened Idempotency
  import opened Admission
  import opened AdmissionHistory
  import R = RateLimit

  /** The record of a request that holds its key, has been opened, has passed validation, has its units. */
  function GrantedRecord(h: Handler): Record {
    BLANK.(answered := true, grant := Some((h.key, h.since)))
  }

  function OpenedRecord(h: Handler): Record {
    GrantedRecord(h).(content := Some(h.body))
  }

  function CheckedRecord(h: Handler, domain: DomainId): Record {
    OpenedRecord(h).(check := Some(Ok(domain)))
  }

  function ReservedRecord(h: Handler, domain: DomainId, magnitude: nat): Record {
    CheckedRecord(h, domain).(ruling := Some(Ruling(h.agent, magnitude, false, Authorized)))
  }

  /** Validated as `action` in `domain`, not yet ruled on. */
  ghost predicate Passed(c: Config, h: Handler, rec: Record, action: Action, domain: DomainId) {
    rec == CheckedRecord(h, domain) && h.body == Parsed(action) && ActionOk(c, h, action, domain)
  }

  /** Owner of its key, with `doc` due and not yet sent. */
  ghost predicate Owed(h: Handler, rec: Record, doc: Json) {
    rec.grant == Some((h.key, h.since)) && rec.committed.None? && Due(rec) == Some(doc)
  }

  ghost predicate ActionOk(c: Config, h: Handler, action: Action, domain: DomainId) {
    && 1 <= action.magnitude <= 1000
    && action.name in c.mapping && c.mapping[action.name] == domain
    && h.agent in c.agents
  }

  ghost predicate Allowed(c: Config, h: Handler, action: Action, domain: DomainId) {
    ActionOk(c, h, action, domain) && PolicyAllows(c.agents[h.agent].policies, domain, action.magnitude)
  }

  ghost predicate Mapped(c: Config, action: Action) {
    action.name in c.mapping && c.mapping[action.name] in Domains(c)
  }

  /** A lost exchange is paid for by a unit reserved since the first load. */
  ghost predicate TriesOk(tries: Tries, seen: nat) {
    match tries.first
    case Some(first) => first + tries.lost <= seen
    case None => tries.lost == 0
  }

  /** What a handler's position says about its request's record and about the counters. */
  ghost predicate HandlerOk(c: Config, s: State, r: ReqId)
    requires r in s.handlers
  {
    var h, rec := s.handlers[r], RecordOf(s.log, r);
    && r < s.next && h.agent in c.agents && h.since <= s.now
    && match h.pc
       case AtRate => rec == BLANK
       case AtPurge => rec == BLANK
       case Purging(at, _) => rec == BLANK && at <= s.now
       case AtEntry(_) => rec == BLANK
       case AtRemove => rec == BLANK.(answered := true)
       case AtParse => rec == GrantedRecord(h)
       case AtAdmit(action) => rec == OpenedRecord(h) && h.body == Parsed(action)
       case AtPolicy(action, domain) => Passed(c, h, rec, action, domain)
       case AtPeek(action, domain) =>
         Passed(c, h, rec, action, domain) && Allowed(c, h, action, domain) && action.dryRun
       case AtLoad(action, domain, tries) =>
         && Passed(c, h, rec, action, domain) && Allowed(c, h, action, domain) && !action.dryRun
         && TriesOk(tries, Used(s.log, h.agent))
       case AtExchange(action, domain, seen, tries) =>
         && Passed(c, h, rec, action, domain) && Allowed(c, h, action, domain) && !action.dryRun
         && tries.first.Some? && TriesOk(tries, seen) && seen <= Used(s.log, h.agent)
         && Fits(c.agents[h.agent].maxCapacity, seen, action.magnitude)
       case AtActuate(action) =>
         && Mapped(c, action) && h.body == Parsed(action)
         && rec == ReservedRecord(h, c.mapping[action.name], action.magnitude)
       case AtCount(action, body) =>
         && Owed(h, rec, body) && MaySucceed(rec) && !rec.counted
         && Mapped(c, action) && h.body == Parsed(action) && rec.content == Some(h.body)
       case AtCommit(cached, sent) => Owed(h, rec, sent) && cached == sent && (rec.counted <==> MaySucceed(rec))
  }

  ghost predicate HandlersOk(c: Config, s: State) {
    && |s.handlers| <= c.threads
    && (forall r :: r in s.handlers ==> HandlerOk(c, s, r))
    && (forall r :: r >= s.next ==> RecordOf(s.log, r) == BLANK)
  }

  ghost predicate CapacityOk(c: Config, s: State) {
    && s.used.Keys == c.agents.Keys
    && forall a :: a in s.used ==> s.used[a] == Used(s.log, a) <= c.agents[a].maxCapacity
  }

  ghost predicate WindowsOk(c: Config, s: State) {
    && s.windows.Keys == c.agents.Keys
    && forall a :: a in s.windows ==>
         && R.Ordered(CallsOf(s.log, a)) && CallsOf(s.log, a).at <= s.now
         && s.windows[a] == R.WindowAfter(CallsOf(s.log, a), c.agents[a].rateMax, c.agents[a].rateSecs)
  }

  ghost predicate CountersOk(c: Config, s: State) {
    && s.counters.Keys == Domains(c)
    && forall d :: d in s.counters ==> s.counters[d] == Successes(c, s.log, d)
  }

  /** An entry is the latest grant of its key and holds what was committed since; a grant without an entry
      has outlived its time. */
  ghost predicate CacheOk(c: Config, s: State) {
    && Consistent(s.cache)
    && forall k :: match Claim(s.log, k)
                   case None => k !in s.cache
                   case Some(g) =>
                     && g.at <= s.now
                     && if k in s.cache then s.cache[k].createdAt == g.at && s.cache[k].result == LastCommit(s.log, k)
                        else g.at + c.ttl <= s.now
  }

  ghost predicate Inv(c: Config, s: State) {
    && Legal(c, s.log)
    && HandlersOk(c, s) && CapacityOk(c, s) && WindowsOk(c, s) && CountersOk(c, s) && CacheOk(c, s)
  }

  lemma InitInv(c: Config)
    requires ValidConfig(c)
    ensures Inv(c, Init(c))
  {
  }

  // ---- One step, described by the event it logs ------------------------------------------------

  /** Entries only disappear, and only when they have outlived their time. */
  ghost predicate Purged(c: Config, before: Entries, after: Entries, now: nat) {
    forall k :: if k in after then k in before && after[k] == before[k]
                else k in before ==> before[k].createdAt + c.ttl <= now
  }

  ghost predicate CacheEffect(c: Config, s: State, after: Entries, e: Option<Event>) {
    match e
    case None => Purged(c, s.cache, after, s.now)
    case Some(Answered(_, k, at, status)) =>
      at == s.now && exists full ::
        status == Answer(s.cache, k, at, c.ttl, full) && after == AfterAnswer(s.cache, k, at, c.ttl, full)
    case Some(FullRemoved(_, k)) => after == s.cache - {k}
    case Some(Committed(_, k, cached, _)) => after == Completed(s.cache, k, cached)
    case _ => after == s.cache
  }

  ghost predicate CapacityEffect(s: State, after: map<AgentId, nat>, e: Option<Event>) {
    match e
    case Some(Decided(_, a, _, m, false, Authorized)) => a in s.used && after == s.used[a := s.used[a] + m]
    case _ => after == s.used
  }

  ghost predicate WindowEffect(c: Config, s: State, after: map<AgentId, R.Window>, e: Option<Event>) {
    match e
    case Some(Limited(a, at, _)) =>
      && a in c.agents && a in s.windows && at == s.now
      && after == s.windows[a := R.Step(s.windows[a], at, c.agents[a].rateMax, c.agents[a].rateSecs).1]
    case _ => after == s.windows
  }

  ghost predicate CounterEffect(c: Config, s: State, after: map<DomainId, nat>, e: Option<Event>) {
    match e
    case Some(Succeeded(_, name)) =>
      && name in c.mapping && c.mapping[name] in s.counters
      && after == s.counters[c.mapping[name] := s.counters[c.mapping[name]] + 1]
    case _ => after == s.counters
  }

  /** A step logs at most one event, which is legal, and changes the shared state as that event says. */
  ghost predicate Effect(c: Config, s: State, s': State, e: Option<Event>) {
    && s.now <= s'.now && s.next <= s'.next
    && s'.log == (if e.Some? then Then(s.log, e.value) else s.log)
    && (e.Some? ==> LegalNext(c, s.log, e.value))
    && CacheEffect(c, s, s'.cache, e) && CapacityEffect(s, s'.used, e)
    && WindowEffect(c, s, s'.windows, e) && CounterEffect(c, s, s'.counters, e)
  }

  /** A handler serves one request from beginning to end. */
  ghost predicate SameRequest(h: Handler, h': Handler) {
    h'.agent == h.agent && h'.key == h.key && h'.body == h.body
  }

  /** Handler `id` leaves or stays in a sound position; nobody else moves or is mentioned. */
  ghost predicate OwnStep(c: Config, s: State, s': State, id: ReqId, e: Option<Event>) {
    && id in s.handlers && s'.next == s.next && s'.now == s.now
    && s'.handlers.Keys <= s.handlers.Keys
    && (forall r :: r in s.handlers && r != id ==> r in s'.handlers && s'.handlers[r] == s.handlers[r])
    && (id in s'.handlers ==> HandlerOk(c, s', id) && SameRequest(s.handlers[id], s'.handlers[id]))
    && (e.Some? ==> e.value.Limited? || e.value.req == id)
  }

  /** The step of handler `id` from `s` to `s'` is accounted for by one event, or by none. */
  ghost predicate Sound(c: Config, s: State, s': State, id: ReqId) {
    exists e :: Effect(c, s, s', e) && OwnStep(c, s, s', id, e)
  }

  lemma MoveSound(c: Config, s: State, id: ReqId, pc: Pc)
    requires id in s.handlers && HandlerOk(c, Move(s, id, pc), id)
    ensures Sound(c, s, Move(s, id, pc), id)
  {
    assert Effect(c, s, Move(s, id, pc), None);
  }

  /** The refusal path sends what it caches. */
  lemma RefuseOk(c: Config, s: State, id: ReqId, e: AmaError)
    requires id in s.handlers && Replayable(e)
    requires id < s.next && s.handlers[id].agent in c.agents && s.handlers[id].since <= s.now
    requires Owed(s.handlers[id], RecordOf(s.log, id), HttpStatusAndBody(e).1)
    requires !RecordOf(s.log, id).counted && !MaySucceed(RecordOf(s.log, id))
    ensures HandlerOk(c, Refuse(s, id, e), id)
  {
    CachedEqualsSent(e);
  }

  lemma RateEffect(c: Config, s: State, id: ReqId)
    requires id in s.handlers && s.handlers[id].agent in c.agents && s.handlers[id].agent in s.windows
    requires WindowsOk(c, s)
    ensures var s' := LimitStep(c, s, id);
            s'.log.Then? && s'.log.past == s.log && s'.log.last.Limited? && Effect(c, s, s', Some(s'.log.last))
  {
    assert LegalNext(c, s.log, LimitStep(c, s, id).log.last);
  }

  lemma RateOwn(c: Config, s: State, id: ReqId)
    requires id in s.handlers && HandlerOk(c, s, id) && s.handlers[id].pc.AtRate? && s.handlers[id].agent in s.windows
    ensures OwnStep(c, s, LimitStep(c, s, id), id, Some(LimitStep(c, s, id).log.last))
  {
    assert RecordOf(LimitStep(c, s, id).log, id) == RecordOf(s.log, id);
  }

  lemma RateSound(c: Config, s: State, id: ReqId)
    requires id in s.handlers && HandlerOk(c, s, id) && s.handlers[id].pc.AtRate? && WindowsOk(c, s)
    ensures Sound(c, s, LimitStep(c, s, id), id)
  {
    RateEffect(c, s, id);
    RateOwn(c, s, id);
  }

  lemma VisitSound(c: Config, s: State, id: ReqId, k: Key, at: nat, todo: set<Key>)
    requires id in s.handlers && HandlerOk(c, s, id) && s.handlers[id].pc == Purging(at, todo) && CacheOk(c, s)
    ensures Sound(c, s, VisitStep(c, s, id, k, at, todo), id)
  {
    assert Effect(c, s, VisitStep(c, s, id, k, at, todo), None);
  }

  lemma AnswerLegal(c: Config, s: State, id: ReqId, k: Key, full: bool)
    requires RecordOf(s.log, id) == BLANK && CacheOk(c, s)
    ensures LegalNext(c, s.log, Answered(id, k, s.now, Answer(s.cache, k, s.now, c.ttl, full)))
  {
  }

  lemma LookupEffect(c: Config, s: State, id: ReqId, full: bool)
    requires id in s.handlers && RecordOf(s.log, id) == BLANK && CacheOk(c, s)
    ensures Effect(c, s, LookupStep(c, s, id, full),
                   Some(Answered(id, s.handlers[id].key, s.now,
                                 Answer(s.cache, s.handlers[id].key, s.now, c.ttl, full))))
  {
    var k, s' := s.handlers[id].key, LookupStep(c, s, id, full);
    AnswerLegal(c, s, id, k, full);
    assert s'.cache == AfterAnswer(s.cache, k, s.now, c.ttl, full);
  }

  lemma LookupOwn(c: Config, s: State, id: ReqId, full: bool)
    requires id in s.handlers && HandlerOk(c, s, id) && s.handlers[id].pc.AtEntry?
    ensures OwnStep(c, s, LookupStep(c, s, id, full), id,
                    Some(Answered(id, s.handlers[id].key, s.now,
                                  Answer(s.cache, s.handlers[id].key, s.now, c.ttl, full))))
  {
    var k, s' := s.handlers[id].key, LookupStep(c, s, id, full);
    var status := Answer(s.cache, k, s.now, c.ttl, full);
    assert RecordOf(s'.log, id) == BLANK.(answered := true, grant := if status == New then Some((k, s.now)) else None);
  }

  lemma LookupSound(c: Config, s: State, id: ReqId, full: bool)
    requires id in s.handlers && HandlerOk(c, s, id) && s.handlers[id].pc.AtEntry? && CacheOk(c, s)
    ensures Sound(c, s, LookupStep(c, s, id, full), id)
  {
    LookupEffect(c, s, id, full);
    LookupOwn(c, s, id, full);
  }

  lemma RemoveSound(c: Config, s: State, id: ReqId)
    requires id in s.handlers && HandlerOk(c, s, id) && s.handlers[id].pc.AtRemove?
    ensures Sound(c, s, RemoveStep(s, id), id)
  {
    assert Effect(c, s, RemoveStep(s, id), Some(FullRemoved(id, s.handlers[id].key)));
  }

  lemma CommitSound(c: Config, s: State, id: ReqId, cached: Json, sent: Json)
    requires id in s.handlers && HandlerOk(c, s, id) && s.handlers[id].pc == AtCommit(cached, sent)
    ensures Sound(c, s, CommitStep(s, id, cached, sent), id)
  {
    assert Effect(c, s, CommitStep(s, id, cached, sent), Some(Committed(id, s.handlers[id].key, cached, sent)));
  }

  /** What a decision of handler `id` rests on. */
  ghost predicate Judges(c: Config, s: State, id: ReqId, action: Action, domain: DomainId, allowed: bool)
    requires id in s.handlers
  {
    var h := s.handlers[id];
    && Passed(c, h, RecordOf(s.log, id), action, domain) && h.agent in s.used
    && (allowed <==> Decide(c.agents[h.agent].maxCapacity, c.agents[h.agent].policies, s.used[h.agent], domain,
                            action.magnitude) == Authorized)
    && (allowed ==> action.dryRun && Mapped(c, action))
  }

  lemma JudgeEffect(c: Config, s: State, id: ReqId, action: Action, domain: DomainId, allowed: bool)
    requires id in s.handlers && CapacityOk(c, s) && Judges(c, s, id, action, domain, allowed)
    ensures var s' := JudgeStep(c, s, id, action, domain, allowed);
            Effect(c, s, s', Some(s'.log.last))
  {
    assert LegalNext(c, s.log, JudgeStep(c, s, id, action, domain, allowed).log.last);
  }

  lemma JudgeOwn(c: Config, s: State, id: ReqId, action: Action, domain: DomainId, allowed: bool)
    requires id in s.handlers && HandlerOk(c, s, id) && Judges(c, s, id, action, domain, allowed)
    ensures var s' := JudgeStep(c, s, id, action, domain, allowed);
            OwnStep(c, s, s', id, Some(s'.log.last))
  {
    if !allowed {
      RefuseOk(c, Note(s, JudgeStep(c, s, id, action, domain, allowed).log.last), id, AmaError.Impossible);
    }
  }

  lemma JudgeSound(c: Config, s: State, id: ReqId, action: Action, domain: DomainId, allowed: bool)
    requires id in s.handlers && HandlerOk(c, s, id) && CapacityOk(c, s) && Judges(c, s, id, action, domain, allowed)
    ensures Sound(c, s, JudgeStep(c, s, id, action, domain, allowed), id)
  {
    JudgeEffect(c, s, id, action, domain, allowed);
    JudgeOwn(c, s, id, action, domain, allowed);
  }

  lemma ReserveSound(c: Config, s: State, id: ReqId)
    requires id in s.handlers && HandlerOk(c, s, id) && s.handlers[id].pc.AtExchange? && CapacityOk(c, s)
    requires s.used[s.handlers[id].agent] == s.handlers[id].pc.seen
    ensures var pc := s.handlers[id].pc;
            Sound(c, s, ExchangeStep(s, id, pc.action, pc.domain, pc.seen, pc.tries, false), id)
  {
    var h := s.handlers[id];
    var s' := ExchangeStep(s, id, h.pc.action, h.pc.domain, h.pc.seen, h.pc.tries, false);
    var e := s'.log.last;
    assert LegalNext(c, s.log, e);
    assert Effect(c, s, s', Some(e));
  }

  lemma LostSound(c: Config, s: State, id: ReqId, weak: bool)
    requires id in s.handlers && HandlerOk(c, s, id) && s.handlers[id].pc.AtExchange? && CapacityOk(c, s)
    requires weak || s.used[s.handlers[id].agent] != s.handlers[id].pc.seen
    ensures var pc := s.handlers[id].pc;
            Sound(c, s, ExchangeStep(s, id, pc.action, pc.domain, pc.seen, pc.tries, weak), id)
  {
    var pc := s.handlers[id].pc;
    MoveSound(c, s, id, ExchangeStep(s, id, pc.action, pc.domain, pc.seen, pc.tries, weak).handlers[id].pc);
  }

  lemma ActuateEffect(c: Config, s: State, id: ReqId, outcome: Option<Result<Json, AmaError>>)
    requires id in s.handlers && HandlerOk(c, s, id) && s.handlers[id].pc.AtActuate?
    requires outcome.Some? && outcome.value.Err? ==> ActuatorError(outcome.value.error)
    ensures Effect(c, s, ActuateStep(s, id, s.handlers[id].pc.action, outcome),
                   Some(Actuated(id, s.handlers[id].agent, outcome)))
  {
    assert LegalNext(c, s.log, Actuated(id, s.handlers[id].agent, outcome));
  }

  lemma ActuateOwn(c: Config, s: State, id: ReqId, outcome: Option<Result<Json, AmaError>>)
    requires id in s.handlers && HandlerOk(c, s, id) && s.handlers[id].pc.AtActuate?
    requires outcome.Some? && outcome.value.Err? ==> ActuatorError(outcome.value.error)
    ensures OwnStep(c, s, ActuateStep(s, id, s.handlers[id].pc.action, outcome), id,
                    Some(Actuated(id, s.handlers[id].agent, outcome)))
  {
    var s1 := Note(s, Actuated(id, s.handlers[id].agent, outcome));
    if outcome.Some? && outcome.value.Err? {
      RefuseOk(c, s1, id, outcome.value.error);
    }
  }

  lemma ActuateSound(c: Config, s: State, id: ReqId, outcome: Option<Result<Json, AmaError>>)
    requires id in s.handlers && HandlerOk(c, s, id) && s.handlers[id].pc.AtActuate?
    requires outcome.Some? && outcome.value.Err? ==> ActuatorError(outcome.value.error)
    ensures Sound(c, s, ActuateStep(s, id, s.handlers[id].pc.action, outcome), id)
  {
    ActuateEffect(c, s, id, outcome);
    ActuateOwn(c, s, id, outcome);
  }

  lemma CountEffect(c: Config, s: State, id: ReqId)
    requires id in s.handlers && HandlerOk(c, s, id) && s.handlers[id].pc.AtCount? && CountersOk(c, s)
    ensures var s' := CountStep(c, s, id, s.handlers[id].pc.action, s.handlers[id].pc.body);
            Effect(c, s, s', Some(s'.log.last))
  {
    assert LegalNext(c, s.log, Succeeded(id, s.handlers[id].pc.action.name));
  }

  lemma CountOwn(c: Config, s: State, id: ReqId)
    requires id in s.handlers && HandlerOk(c, s, id) && s.handlers[id].pc.AtCount?
    ensures var s' := CountStep(c, s, id, s.handlers[id].pc.action, s.handlers[id].pc.body);
            OwnStep(c, s, s', id, Some(s'.log.last))
  {
  }

  lemma CountSound(c: Config, s: State, id: ReqId)
    requires id in s.handlers && HandlerOk(c, s, id) && s.handlers[id].pc.AtCount? && CountersOk(c, s)
    ensures Sound(c, s, CountStep(c, s, id, s.handlers[id].pc.action, s.handlers[id].pc.body), id)
  {
    CountEffect(c, s, id);
    CountOwn(c, s, id);
  }

  lemma CheckEffect(c: Config, s: State, id: ReqId, action: Action, rejection: Option<AmaError>)
    requires id in s.handlers && HandlerOk(c, s, id) && s.handlers[id].pc == AtAdmit(action)
    requires rejection.Some? ==> rejection.value.Validation?
    ensures Effect(c, s, CheckStep(c, s, id, action, rejection),
                   Some(Checked(id, rejection, Prepare(c, action, rejection))))
  {
    assert LegalNext(c, s.log, Checked(id, rejection, Prepare(c, action, rejection)));
  }

  lemma CheckOwn(c: Config, s: State, id: ReqId, action: Action, rejection: Option<AmaError>)
    requires id in s.handlers && HandlerOk(c, s, id) && s.handlers[id].pc == AtAdmit(action)
    requires rejection.Some? ==> rejection.value.Validation?
    ensures OwnStep(c, s, CheckStep(c, s, id, action, rejection), id,
                    Some(Checked(id, rejection, Prepare(c, action, rejection))))
  {
    var verdict := Prepare(c, action, rejection);
    if verdict.Err? {
      RefuseOk(c, Note(s, Checked(id, rejection, verdict)), id, verdict.error);
    }
  }

  lemma CheckSound(c: Config, s: State, id: ReqId, action: Action, rejection: Option<AmaError>)
    requires id in s.handlers && HandlerOk(c, s, id) && s.handlers[id].pc == AtAdmit(action)
    requires rejection.Some? ==> rejection.value.Validation?
    ensures Sound(c, s, CheckStep(c, s, id, action, rejection), id)
  {
    CheckEffect(c, s, id, action, rejection);
    CheckOwn(c, s, id, action, rejection);
  }

  lemma ParseEffect(c: Config, s: State, id: ReqId)
    requires id in s.handlers && HandlerOk(c, s, id) && s.handlers[id].pc.AtParse?
    ensures Effect(c, s, ParseStep(c, s, id), Some(Opened(id, s.handlers[id].body)))
  {
    assert LegalNext(c, s.log, Opened(id, s.handlers[id].body));
  }

  lemma ParseOwn(c: Config, s: State, id: ReqId)
    requires id in s.handlers && HandlerOk(c, s, id) && s.handlers[id].pc.AtParse?
    ensures OwnStep(c, s, ParseStep(c, s, id), id, Some(Opened(id, s.handlers[id].body)))
  {
  }

  lemma ParseSound(c: Config, s: State, id: ReqId)
    requires id in s.handlers && HandlerOk(c, s, id) && s.handlers[id].pc.AtParse?
    ensures Sound(c, s, ParseStep(c, s, id), id)
  {
    ParseEffect(c, s, id);
    ParseOwn(c, s, id);
  }

  lemma PurgeSound(c: Config, s: State, id: ReqId)
    requires id in s.handlers && HandlerOk(c, s, id)
    ensures s.handlers[id].pc.AtPurge? ==> Sound(c, s, Move(s, id, Purging(s.now, s.cache.Keys)), id)
    ensures s.handlers[id].pc.Purging? ==> Sound(c, s, Move(s, id, AtEntry(|s.cache| >= c.maxEntries)), id)
  {
    if s.handlers[id].pc.AtPurge? {
      MoveSound(c, s, id, Purging(s.now, s.cache.Keys));
    } else if s.handlers[id].pc.Purging? {
      MoveSound(c, s, id, AtEntry(|s.cache| >= c.maxEntries));
    }
  }

  lemma RateActSound(c: Config, s: State, id: ReqId, l: Label)
    requires id in s.handlers && HandlerOk(c, s, id) && WindowsOk(c, s)
    requires l.RateCheck? && FrontAct(c, s, id, l).Some?
    ensures Sound(c, s, FrontAct(c, s, id, l).value, id)
  {
    RateSound(c, s, id);
  }

  lemma PurgeActSound(c: Config, s: State, id: ReqId, l: Label)
    requires id in s.handlers && HandlerOk(c, s, id) && CacheOk(c, s)
    requires !l.RateCheck? && FrontAct(c, s, id, l).Some?
    ensures Sound(c, s, FrontAct(c, s, id, l).value, id)
  {
    if l.PurgeVisit? {
      VisitSound(c, s, id, l.visited, s.handlers[id].pc.at, s.handlers[id].pc.todo);
    } else {
      PurgeSound(c, s, id);
    }
  }

  lemma EntryActSound(c: Config, s: State, id: ReqId, l: Label)
    requires id in s.handlers && HandlerOk(c, s, id) && CacheOk(c, s)
    requires EntryAct(c, s, id, l).Some?
    ensures Sound(c, s, EntryAct(c, s, id, l).value, id)
  {
    match (l, s.handlers[id].pc) {
      case (Lookup(_), AtEntry(full)) => LookupSound(c, s, id, full);
      case (RemoveFull(_), AtRemove) => RemoveSound(c, s, id);
      case (Commit(_), AtCommit(cached, sent)) => CommitSound(c, s, id, cached, sent);
      case _ =>
    }
  }

  lemma PrepareActSound(c: Config, s: State, id: ReqId, l: Label)
    requires id in s.handlers && HandlerOk(c, s, id) && PrepareAct(c, s, id, l).Some?
    ensures Sound(c, s, PrepareAct(c, s, id, l).value, id)
  {
    match (l, s.handlers[id].pc) {
      case (Parse(_), AtParse) => ParseSound(c, s, id);
      case (Admit(_, rejection), AtAdmit(action)) => CheckSound(c, s, id, action, rejection);
      case _ =>
    }
  }

  lemma OutcomeActSound(c: Config, s: State, id: ReqId, l: Label)
    requires id in s.handlers && HandlerOk(c, s, id) && CountersOk(c, s) && OutcomeAct(c, s, id, l).Some?
    ensures Sound(c, s, OutcomeAct(c, s, id, l).value, id)
  {
    match (l, s.handlers[id].pc) {
      case (Actuate(_, outcome), AtActuate(_)) => ActuateSound(c, s, id, Some(outcome));
      case (TimeOut(_), AtActuate(_)) => ActuateSound(c, s, id, None);
      case (Count(_), AtCount(_, _)) => CountSound(c, s, id);
      case _ =>
    }
  }

  lemma PoliceSound(c: Config, s: State, id: ReqId, action: Action, domain: DomainId)
    requires id in s.handlers && HandlerOk(c, s, id) && CapacityOk(c, s)
    requires s.handlers[id].pc == AtPolicy(action, domain)
    requires PolicyAllows(c.agents[s.handlers[id].agent].policies, domain, action.magnitude)
    ensures action.dryRun ==> Sound(c, s, Move(s, id, AtPeek(action, domain)), id)
    ensures !action.dryRun ==> Sound(c, s, Move(s, id, AtLoad(action, domain, Tries(None, 0, 0))), id)
  {
    MoveSound(c, s, id, if action.dryRun then AtPeek(action, domain) else AtLoad(action, domain, Tries(None, 0, 0)));
  }

  lemma LoadSound(c: Config, s: State, id: ReqId, action: Action, domain: DomainId, tries: Tries)
    requires id in s.handlers && HandlerOk(c, s, id) && CapacityOk(c, s)
    requires s.handlers[id].pc == AtLoad(action, domain, tries)
    requires Fits(c.agents[s.handlers[id].agent].maxCapacity, s.used[s.handlers[id].agent], action.magnitude)
    ensures var used := s.used[s.handlers[id].agent];
            var first := if tries.first.Some? then tries.first else Some(used);
            Sound(c, s, Move(s, id, AtExchange(action, domain, used, tries.(first := first))), id)
  {
    var used := s.used[s.handlers[id].agent];
    var first := if tries.first.Some? then tries.first else Some(used);
    MoveSound(c, s, id, AtExchange(action, domain, used, tries.(first := first)));
  }

  lemma PolicyActSound(c: Config, s: State, id: ReqId, l: Label)
    requires id in s.handlers && HandlerOk(c, s, id) && CapacityOk(c, s) && PolicyAct(c, s, id, l).Some?
    ensures Sound(c, s, PolicyAct(c, s, id, l).value, id)
  {
    var h := s.handlers[id];
    match (l, h.pc) {
      case (Police(_), AtPolicy(action, domain)) =>
        if !PolicyAllows(c.agents[h.agent].policies, domain, action.magnitude) {
          JudgeSound(c, s, id, action, domain, false);
        } else {
          PoliceSound(c, s, id, action, domain);
        }
      case (Peek(_), AtPeek(action, domain)) =>
        JudgeSound(c, s, id, action, domain, Fits(c.agents[h.agent].maxCapacity, s.used[h.agent], action.magnitude));
      case _ =>
    }
  }

  lemma ReserveActSound(c: Config, s: State, id: ReqId, l: Label)
    requires id in s.handlers && HandlerOk(c, s, id) && CapacityOk(c, s) && ReserveAct(c, s, id, l).Some?
    ensures Sound(c, s, ReserveAct(c, s, id, l).value, id)
  {
    var h := s.handlers[id];
    match (l, h.pc) {
      case (Load(_), AtLoad(action, domain, tries)) =>
        if Fits(c.agents[h.agent].maxCapacity, s.used[h.agent], action.magnitude) {
          LoadSound(c, s, id, action, domain, tries);
        } else {
          JudgeSound(c, s, id, action, domain, false);
        }
      case (Exchange(_, weak), AtExchange(_, _, seen, _)) =>
        if s.used[h.agent] == seen && !weak { ReserveSound(c, s, id); } else { LostSound(c, s, id, weak); }
      case _ =>
    }
  }

  // ---- Every invariant survives an accounted step ----------------------------------------------

  lemma CacheKept(c: Config, s: State, s': State, e: Option<Event>)
    requires CacheOk(c, s) && Effect(c, s, s', e)
    ensures CacheOk(c, s')
  {
  }

  lemma CapacityKept(c: Config, s: State, s': State, e: Option<Event>)
    requires ValidConfig(c) && CapacityOk(c, s) && Effect(c, s, s', e)
    ensures CapacityOk(c, s')
  {
  }

  lemma WindowsKept(c: Config, s: State, s': State, e: Option<Event>)
    requires WindowsOk(c, s) && Effect(c, s, s', e)
    ensures WindowsOk(c, s')
  {
  }

  lemma CountersKept(c: Config, s: State, s': State, e: Option<Event>)
    requires CountersOk(c, s) && Effect(c, s, s', e)
    ensures CountersOk(c, s')
  {
  }

  lemma SharedKept(c: Config, s: State, s': State, e: Option<Event>)
    requires ValidConfig(c) && Inv(c, s) && Effect(c, s, s', e)
    ensures Legal(c, s'.log) && CapacityOk(c, s') && WindowsOk(c, s') && CountersOk(c, s') && CacheOk(c, s')
  {
    CapacityKept(c, s, s', e);
    WindowsKept(c, s, s', e);
    CountersKept(c, s, s', e);
    CacheKept(c, s, s', e);
  }

  lemma OthersKept(c: Config, s: State, s': State, id: ReqId, e: Option<Event>, r: ReqId)
    requires Effect(c, s, s', e) && OwnStep(c, s, s', id, e)
    requires r in s.handlers && HandlerOk(c, s, r) && r != id
    ensures HandlerOk(c, s', r)
  {
  }

  lemma HandlersKept(c: Config, s: State, s': State, id: ReqId, e: Option<Event>)
    requires HandlersOk(c, s) && Effect(c, s, s', e) && OwnStep(c, s, s', id, e)
    ensures HandlersOk(c, s')
  {
    CardinalitySubset(s'.handlers.Keys, s.handlers.Keys);
    assert id < s.next by { assert HandlerOk(c, s, id); }
    forall r | r in s'.handlers ensures HandlerOk(c, s', r) {
      if r != id {
        OthersKept(c, s, s', id, e, r);
      }
    }
  }

  lemma ArriveKept(c: Config, s: State, agent: AgentId, key: Key, body: Body)
    requires Inv(c, s) && |s.handlers| < c.threads && agent in c.agents
    ensures Inv(c, Accept(s, agent, key, body))
  {
    var s' := Accept(s, agent, key, body);
    forall r | r in s'.handlers ensures HandlerOk(c, s', r) {
      if r != s.next {
        assert HandlerOk(c, s, r);
      }
    }
  }

  lemma TickKept(c: Config, s: State, elapsed: nat)
    requires Inv(c, s)
    ensures Inv(c, Wait(s, elapsed))
  {
    forall r | r in s.handlers ensures HandlerOk(c, Wait(s, elapsed), r) {
      assert HandlerOk(c, s, r);
    }
  }

  lemma KeylessHandlers(c: Config, s: State, agent: AgentId)
    requires HandlersOk(c, s) && agent in c.agents && agent in s.windows
    ensures HandlersOk(c, RateStep(c, s, agent).1)
  {
    var s' := RateStep(c, s, agent).1;
    forall r | r in s'.handlers ensures HandlerOk(c, s', r) {
      assert HandlerOk(c, s, r);
    }
  }

  lemma KeylessKept(c: Config, s: State, agent: AgentId)
    requires ValidConfig(c) && Inv(c, s) && agent in c.agents && agent in s.windows
    ensures Inv(c, RateStep(c, s, agent).1)
  {
    var s' := RateStep(c, s, agent).1;
    assert Effect(c, s, s', Some(s'.log.last));
    SharedKept(c, s, s', Some(s'.log.last));
    KeylessHandlers(c, s, agent);
  }

  lemma SoundKept(c: Config, s: State, s': State, id: ReqId)
    requires ValidConfig(c) && Inv(c, s) && Sound(c, s, s', id)
    ensures Inv(c, s')
  {
    var e :| Effect(c, s, s', e) && OwnStep(c, s, s', id, e);
    SharedKept(c, s, s', e);
    HandlersKept(c, s, s', id, e);
  }

  lemma ActSound(c: Config, s: State, id: ReqId, l: Label)
    requires Inv(c, s) && id in s.handlers && Act(c, s, id, l).Some?
    ensures Sound(c, s, Act(c, s, id, l).value, id)
  {
    assert HandlerOk(c, s, id);
    if l.Parse? || l.Admit? {
      PrepareActSound(c, s, id, l);
    } else if l.Actuate? || l.TimeOut? || l.Count? {
      OutcomeActSound(c, s, id, l);
    } else if l.Police? || l.Peek? {
      PolicyActSound(c, s, id, l);
    } else if l.Load? || l.Exchange? {
      ReserveActSound(c, s, id, l);
    } else if l.Lookup? || l.RemoveFull? || l.Commit? {
      EntryActSound(c, s, id, l);
    } else if l.RateCheck? {
      RateActSound(c, s, id, l);
    } else {
      PurgeActSound(c, s, id, l);
    }
  }

  lemma EnvironmentKept(c: Config, s: State, l: Label)
    requires ValidConfig(c) && Inv(c, s) && (l.Tick? || l.Arrive? || l.ArriveKeyless?) && Apply(c, s, l).Some?
    ensures Inv(c, Apply(c, s, l).value)
  {
    if l.Tick? {
      TickKept(c, s, l.elapsed);
    } else {
      var agent := ResolveAgent(c, l.header);
      if agent.None? {
        assert Apply(c, s, l).value == s;
      } else if l.Arrive? {
        ArriveKept(c, s, agent.value, l.key, l.body);
      } else {
        KeylessKept(c, s, agent.value);
      }
    }
  }

  lemma StepKept(c: Config, s: State, l: Label)
    requires ValidConfig(c) && Inv(c, s) && Apply(c, s, l).Some?
    ensures Inv(c, Apply(c, s, l).value)
  {
    if l.Tick? || l.Arrive? || l.ArriveKeyless? {
      EnvironmentKept(c, s, l);
    } else {
      ActSound(c, s, l.id, l);
      SoundKept(c, s, Act(c, s, l.id, l).value, l.id);
    }
  }

  /** Refinement: every run has a legal history, and the shared state is what that history says. */
  lemma {:induction false} RunInvariant(c: Config, ls: seq<Label>)
    requires ValidConfig(c) && Exec(c, ls).Some?
    ensures Inv(c, Exec(c, ls).value)
  {
    if ls == [] {
      InitInv(c);
    } else {
      RunInvariant(c, ls[..|ls| - 1]);
      StepKept(c, Exec(c, ls[..|ls| - 1]).value, ls[|ls| - 1]);
    }
  }
}
