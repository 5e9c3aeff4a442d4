/**
 * What the rate limits say about the cache: every grant of a key belongs to a request that passed a rate
 * check not long before, so the grants of an interval are no more than what all limiters together let pass.
 */
module AdmissionLoad {
  import opened Common
  import opened Slime
  import opened Idempotency
  import opened Admission
  import opened AdmissionHistory
  import opened AdmissionInvariant
  import opened AdmissionTheorems
  import R = RateLimit

  /** Past the rate check, not yet at the lookup. */
  predicate OnTheWay(pc: Pc) {
    pc.AtPurge? || pc.Purging? || pc.AtEntry?
  }

  /** When each request passed its rate check. */
  type Rated = map<ReqId, nat>

  function RatedAt(rated: Rated, r: ReqId): nat {
    if r in rated then rated[r] else 0
  }

  function RatedNext(s: State, l: Label, rated: Rated): Rated {
    if l.RateCheck? then rated[l.id := s.now] else rated
  }

  function RatedBy(c: Config, ls: seq<Label>): Rated
    requires Exec(c, ls).Some?
  {
    if ls == [] then map[]
    else RatedNext(Exec(c, ls[..|ls| - 1]).value, ls[|ls| - 1], RatedBy(c, ls[..|ls| - 1]))
  }

  /** Nobody is longer than `delay` on the way from the rate check to the lookup. */
  ghost predicate Quick(s: State, rated: Rated, delay: nat) {
    forall r :: r in s.handlers && OnTheWay(s.handlers[r].pc) ==> s.now <= RatedAt(rated, r) + delay
  }

  ghost predicate QuickRun(c: Config, ls: seq<Label>, delay: nat) {
    && Exec(c, ls).Some? && Quick(Exec(c, ls).value, RatedBy(c, ls), delay)
    && (ls != [] ==> QuickRun(c, ls[..|ls| - 1], delay))
  }

  /** Calls that passed a limiter at or after `from`, of all agents. */
  function PassedSince(h: History, from: nat): nat {
    match h
    case Start => 0
    case Then(past, Limited(_, at, true)) => PassedSince(past, from) + if from <= at then 1 else 0
    case Then(past, _) => PassedSince(past, from)
  }

  /** Keys granted at or after `from`. */
  function GrantsSince(h: History, from: nat): nat {
    match h
    case Start => 0
    case Then(past, Answered(_, _, at, New)) => GrantsSince(past, from) + if from <= at then 1 else 0
    case Then(past, _) => GrantsSince(past, from)
  }

  /** Requests on the way that were rated at or after `from`. */
  ghost function Coming(s: State, rated: Rated, from: nat): set<ReqId> {
    set r | r in s.handlers && OnTheWay(s.handlers[r].pc) && from <= RatedAt(rated, r)
  }

  /** Who is granted a key from `x` on, or may yet be, passed a limiter from `y` on. */
  ghost predicate Accounted(s: State, rated: Rated, y: nat, x: nat) {
    GrantsSince(s.log, x) + |Coming(s, rated, y)| <= PassedSince(s.log, y)
  }

  // ---- One step --------------------------------------------------------------------------------

  predicate Environment(l: Label) {
    l.Tick? || l.Arrive? || l.ArriveKeyless?
  }

  /** At most one event is logged; it is no grant and no rate check, and a Full-branch removal only where one
      was due. */
  ghost predicate LogsAside(s: State, s': State, id: ReqId) {
    || s'.log == s.log
    || (s'.log.Then? && s'.log.past == s.log && !s'.log.last.Limited? && !s'.log.last.Answered?
        && (s'.log.last.FullRemoved? ==> id in s.handlers && s.handlers[id].pc.AtRemove?))
  }

  /** Handler `id` is or gets off the way, and no grant or rate check is logged. */
  ghost predicate Aside(s: State, s': State, id: ReqId) {
    && s'.now == s.now && s'.handlers.Keys <= s.handlers.Keys
    && (forall r :: r in s'.handlers && r != id ==> s'.handlers[r] == s.handlers[r])
    && (id in s'.handlers ==> !OnTheWay(s'.handlers[id].pc) && !s'.handlers[id].pc.AtRemove?)
    && LogsAside(s, s', id)
    && (forall k :: k in s'.cache ==> k in s.cache && s'.cache[k].createdAt == s.cache[k].createdAt)
  }

  /** The handler moves ... */
  lemma MoveAside(s: State, s': State, id: ReqId, pc: Pc)
    requires id in s.handlers && !OnTheWay(pc) && !pc.AtRemove? && LogsAside(s, s', id)
    requires s'.now == s.now && s'.cache == s.cache && s'.handlers == Move(s, id, pc).handlers
    ensures Aside(s, s', id)
  {
  }

  /** ... or ends. */
  lemma EndAside(s: State, s': State, id: ReqId)
    requires id in s.handlers && LogsAside(s, s', id) && s'.now == s.now && s'.handlers == End(s, id).handlers
    requires forall k :: k in s'.cache ==> k in s.cache && s'.cache[k].createdAt == s.cache[k].createdAt
    ensures Aside(s, s', id)
  {
  }

  lemma ParseAside(c: Config, s: State, id: ReqId)
    requires id in s.handlers
    ensures Aside(s, ParseStep(c, s, id), id)
  {
    var s' := ParseStep(c, s, id);
    if id in s'.handlers {
      MoveAside(s, s', id, s'.handlers[id].pc);
    } else {
      EndAside(s, s', id);
    }
  }

  lemma PrepareAside(c: Config, s: State, id: ReqId, l: Label)
    requires id in s.handlers && PrepareAct(c, s, id, l).Some?
    ensures Aside(s, PrepareAct(c, s, id, l).value, id)
  {
    if l.Parse? {
      ParseAside(c, s, id);
    } else {
      MoveAside(s, PrepareAct(c, s, id, l).value, id, PrepareAct(c, s, id, l).value.handlers[id].pc);
    }
  }

  lemma OutcomeAside(c: Config, s: State, id: ReqId, l: Label)
    requires id in s.handlers && OutcomeAct(c, s, id, l).Some?
    ensures Aside(s, OutcomeAct(c, s, id, l).value, id)
  {
    var s' := OutcomeAct(c, s, id, l).value;
    if l.TimeOut? {
      EndAside(s, s', id);
    } else {
      MoveAside(s, s', id, s'.handlers[id].pc);
    }
  }

  lemma JudgeAside(c: Config, s: State, id: ReqId, action: Action, domain: DomainId, allowed: bool)
    requires id in s.handlers
    ensures Aside(s, JudgeStep(c, s, id, action, domain, allowed), id)
  {
    var s' := JudgeStep(c, s, id, action, domain, allowed);
    MoveAside(s, s', id, s'.handlers[id].pc);
  }

  lemma PolicyAside(c: Config, s: State, id: ReqId, l: Label)
    requires id in s.handlers && PolicyAct(c, s, id, l).Some?
    ensures Aside(s, PolicyAct(c, s, id, l).value, id)
  {
    var h := s.handlers[id];
    if l.Peek? {
      var allowed := Fits(c.agents[h.agent].maxCapacity, s.used[h.agent], h.pc.action.magnitude);
      JudgeAside(c, s, id, h.pc.action, h.pc.domain, allowed);
    } else if !PolicyAllows(c.agents[h.agent].policies, h.pc.domain, h.pc.action.magnitude) {
      JudgeAside(c, s, id, h.pc.action, h.pc.domain, false);
    } else {
      MoveAside(s, PolicyAct(c, s, id, l).value, id, PolicyAct(c, s, id, l).value.handlers[id].pc);
    }
  }

  lemma ExchangeAside(
      s: State, id: ReqId, action: Action, domain: DomainId, seen: nat, tries: Tries, weak: bool)
    requires id in s.handlers && s.handlers[id].agent in s.used
    ensures Aside(s, ExchangeStep(s, id, action, domain, seen, tries, weak), id)
  {
    var s' := ExchangeStep(s, id, action, domain, seen, tries, weak);
    MoveAside(s, s', id, s'.handlers[id].pc);
  }

  lemma ReserveAside(c: Config, s: State, id: ReqId, l: Label)
    requires id in s.handlers && ReserveAct(c, s, id, l).Some?
    ensures Aside(s, ReserveAct(c, s, id, l).value, id)
  {
    var h := s.handlers[id];
    if l.Exchange? {
      ExchangeAside(s, id, h.pc.action, h.pc.domain, h.pc.seen, h.pc.tries, l.weak);
    } else if !Fits(c.agents[h.agent].maxCapacity, s.used[h.agent], h.pc.action.magnitude) {
      JudgeAside(c, s, id, h.pc.action, h.pc.domain, false);
    } else {
      MoveAside(s, ReserveAct(c, s, id, l).value, id, ReserveAct(c, s, id, l).value.handlers[id].pc);
    }
  }

  lemma EntryAside(c: Config, s: State, id: ReqId, l: Label)
    requires id in s.handlers && !l.Lookup? && EntryAct(c, s, id, l).Some?
    ensures Aside(s, EntryAct(c, s, id, l).value, id)
  {
  }

  lemma AsideAccounted(s: State, s': State, id: ReqId, rated: Rated, y: nat, x: nat)
    requires Accounted(s, rated, y, x) && Aside(s, s', id)
    ensures Accounted(s', rated, y, x)
  {
    CardinalitySubset(Coming(s', rated, y), Coming(s, rated, y));
  }

  /** A step on the way, from one position there to the next. */
  lemma AlongAccounted(c: Config, s: State, id: ReqId, l: Label, rated: Rated, y: nat, x: nat)
    requires Accounted(s, rated, y, x) && id in s.handlers && !l.RateCheck? && FrontAct(c, s, id, l).Some?
    ensures Accounted(FrontAct(c, s, id, l).value, rated, y, x)
  {
    var s' := FrontAct(c, s, id, l).value;
    assert s'.log == s.log && OnTheWay(s.handlers[id].pc);
    CardinalitySubset(Coming(s', rated, y), Coming(s, rated, y));
  }

  lemma RateAccounted(c: Config, s: State, id: ReqId, rated: Rated, y: nat, x: nat)
    requires Accounted(s, rated, y, x) && id in s.handlers && s.handlers[id].pc.AtRate?
    requires s.handlers[id].agent in c.agents && s.handlers[id].agent in s.windows
    ensures Accounted(LimitStep(c, s, id), rated[id := s.now], y, x)
  {
    var s', rated' := LimitStep(c, s, id), rated[id := s.now];
    var (ok, _) := RateStep(c, s, s.handlers[id].agent);
    var more := if ok && y <= s.now then {id} else {};
    CardinalitySubset(Coming(s', rated', y), Coming(s, rated, y) + more);
  }

  lemma LookupLeaves(c: Config, s: State, id: ReqId, full: bool, rated: Rated, y: nat)
    requires id in s.handlers && s.handlers[id].pc == AtEntry(full)
    ensures var s' := LookupStep(c, s, id, full);
            && Coming(s', rated, y) <= Coming(s, rated, y) - {id}
            && s'.log.Then? && s'.log.past == s.log && s'.log.last.Answered? && s'.log.last.at == s.now
  {
  }

  lemma LookupAccounted(c: Config, s: State, id: ReqId, full: bool, rated: Rated, delay: nat, y: nat, x: nat)
    requires Accounted(s, rated, y, x) && id in s.handlers && s.handlers[id].pc == AtEntry(full)
    requires s.now <= RatedAt(rated, id) + delay && (y == 0 || y + delay <= x)
    ensures Accounted(LookupStep(c, s, id, full), rated, y, x)
  {
    LookupLeaves(c, s, id, full, rated, y);
    CardinalitySubset(Coming(LookupStep(c, s, id, full), rated, y), Coming(s, rated, y) - {id});
    if x <= s.now {
      assert id in Coming(s, rated, y);
    }
  }

  lemma ArriveAccounted(s: State, agent: AgentId, key: Key, body: Body, rated: Rated, y: nat, x: nat)
    requires Accounted(s, rated, y, x) && s.next !in s.handlers
    ensures Accounted(Accept(s, agent, key, body), rated, y, x)
  {
    assert Coming(Accept(s, agent, key, body), rated, y) == Coming(s, rated, y);
  }

  lemma EnvironmentSteps(c: Config, s: State, l: Label)
    requires Environment(l) && Apply(c, s, l).Some?
    ensures var s' := Apply(c, s, l).value;
            || (s.now <= s'.now && s'.handlers == s.handlers && s'.cache == s.cache
                && (s'.log == s.log || (s'.log.Then? && s'.log.past == s.log && s'.log.last.Limited?)))
            || exists agent, key, body :: s' == Accept(s, agent, key, body)
  {
    if l.Arrive? && ResolveAgent(c, l.header).Some? {
      assert Apply(c, s, l).value == Accept(s, ResolveAgent(c, l.header).value, l.key, l.body);
    }
  }

  lemma OthersAccounted(c: Config, s: State, l: Label, rated: Rated, y: nat, x: nat)
    requires Accounted(s, rated, y, x) && Environment(l) && Apply(c, s, l).Some? && s.next !in s.handlers
    ensures Accounted(Apply(c, s, l).value, rated, y, x)
  {
    var s' := Apply(c, s, l).value;
    EnvironmentSteps(c, s, l);
    if s'.handlers == s.handlers {
      assert Coming(s', rated, y) == Coming(s, rated, y);
    } else {
      var agent, key, body :| s' == Accept(s, agent, key, body);
      ArriveAccounted(s, agent, key, body, rated, y, x);
    }
  }

  // ---- The kinds of steps ------------------------------------------------------------------------

  ghost predicate Rates(c: Config, s: State, s': State, l: Label) {
    && l.RateCheck? && l.id in s.handlers && s.handlers[l.id].pc.AtRate?
    && s.handlers[l.id].agent in c.agents && s.handlers[l.id].agent in s.windows && s' == LimitStep(c, s, l.id)
  }

  ghost predicate LooksUp(c: Config, s: State, s': State, l: Label) {
    && l.Lookup? && l.id in s.handlers && s.handlers[l.id].pc.AtEntry?
    && s' == LookupStep(c, s, l.id, s.handlers[l.id].pc.full)
  }

  predicate Along(l: Label) {
    l.PurgeBegin? || l.PurgeVisit? || l.Snapshot?
  }

  ghost predicate GoesAlong(c: Config, s: State, s': State, l: Label) {
    Along(l) && l.id in s.handlers && FrontAct(c, s, l.id, l) == Some(s')
  }

  ghost predicate StandsAside(s: State, s': State, l: Label) {
    && !Environment(l) && !l.RateCheck? && !l.Lookup? && !Along(l)
    && l.id in s.handlers && Aside(s, s', l.id)
  }

  lemma ActAside(c: Config, s: State, l: Label)
    requires !Environment(l) && !l.RateCheck? && !l.Lookup? && !Along(l)
    requires l.id in s.handlers && Act(c, s, l.id, l).Some?
    ensures Aside(s, Act(c, s, l.id, l).value, l.id)
  {
    if l.Parse? || l.Admit? {
      PrepareAside(c, s, l.id, l);
    } else if l.Actuate? || l.TimeOut? || l.Count? {
      OutcomeAside(c, s, l.id, l);
    } else if l.Police? || l.Peek? {
      PolicyAside(c, s, l.id, l);
    } else if l.Load? || l.Exchange? {
      ReserveAside(c, s, l.id, l);
    } else {
      EntryAside(c, s, l.id, l);
    }
  }

  lemma RateKind(c: Config, s: State, l: Label)
    requires l.RateCheck? && Apply(c, s, l).Some? && HandlersOk(c, s) && s.windows.Keys == c.agents.Keys
    ensures Rates(c, s, Apply(c, s, l).value, l)
  {
    assert HandlerOk(c, s, l.id);
  }

  lemma LookupKind(c: Config, s: State, l: Label)
    requires l.Lookup? && Apply(c, s, l).Some?
    ensures LooksUp(c, s, Apply(c, s, l).value, l)
  {
  }

  lemma AlongKind(c: Config, s: State, l: Label)
    requires Along(l) && Apply(c, s, l).Some?
    ensures GoesAlong(c, s, Apply(c, s, l).value, l)
  {
  }

  lemma StepKinds(c: Config, s: State, l: Label)
    requires HandlersOk(c, s) && s.windows.Keys == c.agents.Keys && !Environment(l) && Apply(c, s, l).Some?
    ensures var s' := Apply(c, s, l).value;
            Rates(c, s, s', l) || LooksUp(c, s, s', l) || GoesAlong(c, s, s', l) || StandsAside(s, s', l)
  {
    if l.RateCheck? {
      RateKind(c, s, l);
    } else if l.Lookup? {
      LookupKind(c, s, l);
    } else if Along(l) {
      AlongKind(c, s, l);
    } else {
      ActAside(c, s, l);
    }
  }

  lemma StepAccounted(c: Config, s: State, s': State, l: Label, rated: Rated, delay: nat, y: nat, x: nat)
    requires Accounted(s, rated, y, x) && Quick(s, rated, delay) && (y == 0 || y + delay <= x)
    requires Rates(c, s, s', l) || LooksUp(c, s, s', l) || GoesAlong(c, s, s', l) || StandsAside(s, s', l)
    ensures Accounted(s', RatedNext(s, l, rated), y, x)
  {
    if Rates(c, s, s', l) {
      RateAccounted(c, s, l.id, rated, y, x);
    } else if LooksUp(c, s, s', l) {
      assert OnTheWay(s.handlers[l.id].pc);
      LookupAccounted(c, s, l.id, s.handlers[l.id].pc.full, rated, delay, y, x);
    } else if GoesAlong(c, s, s', l) {
      AlongAccounted(c, s, l.id, l, rated, y, x);
    } else {
      AsideAccounted(s, s', l.id, rated, y, x);
    }
  }

  /** In every quick run the grants since `x` are covered by the rate checks since `y`. */
  lemma {:induction false} RunAccounted(c: Config, ls: seq<Label>, delay: nat, y: nat, x: nat)
    requires ValidConfig(c) && QuickRun(c, ls, delay) && (y == 0 || y + delay <= x)
    ensures Accounted(Exec(c, ls).value, RatedBy(c, ls), y, x)
  {
    if ls == [] {
      assert Coming(Init(c), map[], y) == {};
    } else {
      var past, l := ls[..|ls| - 1], ls[|ls| - 1];
      var s := Exec(c, past).value;
      RunAccounted(c, past, delay, y, x);
      RunInvariant(c, past);
      assert s.next in s.handlers ==> HandlerOk(c, s, s.next);
      if Environment(l) {
        OthersAccounted(c, s, l, RatedBy(c, past), y, x);
      } else {
        StepKinds(c, s, l);
        StepAccounted(c, s, Apply(c, s, l).value, l, RatedBy(c, past), delay, y, x);
      }
    }
  }

  // ---- The limits of all agents ----------------------------------------------------------------

  /** What the agents' limits let pass together in an interval of `length` nanoseconds. */
  ghost function LoadLimit(c: Config, length: nat): nat
    requires ValidConfig(c)
  {
    SumOf(map a | a in c.agents :: R.IntervalLimit(length, c.agents[a].rateMax, c.agents[a].rateSecs))
  }

  lemma OneFewer(m: map<string, nat>, k: string)
    requires k in m
    ensures |m - {k}| == |m| - 1
  {
    assert (m - {k}).Keys == m.Keys - {k};
    assert |(m - {k}).Keys| == |m.Keys| - 1;
  }

  lemma {:induction false} SumBound(m: map<string, nat>, bound: nat)
    requires forall k :: k in m ==> m[k] <= bound
    ensures SumOf(m) <= |m| * bound
  {
    if m != map[] {
      var k :| k in m;
      SumWithout(m, k);
      SumBound(m - {k}, bound);
      OneFewer(m, k);
      R.MulMonotone(|m| - 1, |m|, bound);
    }
  }

  /** A bound on each agent's limit bounds their sum. */
  lemma LoadLimitBound(c: Config, length: nat, bound: nat)
    requires ValidConfig(c)
    requires forall a :: a in c.agents ==> R.IntervalLimit(length, c.agents[a].rateMax, c.agents[a].rateSecs) <= bound
    ensures LoadLimit(c, length) <= |c.agents| * bound
  {
    var limits := map a | a in c.agents :: R.IntervalLimit(length, c.agents[a].rateMax, c.agents[a].rateSecs);
    SumBound(limits, bound);
    assert limits.Keys == c.agents.Keys;
    assert |limits| == |limits.Keys| && |c.agents| == |c.agents.Keys|;
  }

  ghost function AdmittedTable(c: Config, h: History, from: nat): map<AgentId, nat> {
    map a | a in c.agents :: R.Admitted(CallsOf(h, a), c.agents[a].rateMax, c.agents[a].rateSecs, from)
  }

  lemma {:induction false} SumMonotone(a: map<string, nat>, b: map<string, nat>)
    requires a.Keys == b.Keys && forall k :: k in a ==> a[k] <= b[k]
    ensures SumOf(a) <= SumOf(b)
  {
    if a != map[] {
      var k :| k in a;
      SumWithout(a, k);
      SumWithout(b, k);
      SumMonotone(a - {k}, b - {k});
    }
  }

  lemma AdmittedOne(c: Config, h: History, from: nat, a: AgentId)
    requires Legal(c, h) && h.Then? && a in c.agents
    ensures AdmittedTable(c, h, from)[a] == AdmittedTable(c, h.past, from)[a] +
            if h.last.Limited? && h.last.agent == a && h.last.passed && from <= h.last.at then 1 else 0
  {
  }

  lemma AdmittedNext(c: Config, h: History, from: nat)
    requires Legal(c, h) && h.Then?
    ensures var before, after := AdmittedTable(c, h.past, from), AdmittedTable(c, h, from);
            if h.last.Limited? && h.last.passed && from <= h.last.at then
              h.last.agent in before && after == before[h.last.agent := before[h.last.agent] + 1]
            else after == before
  {
    forall a | a in c.agents
      ensures AdmittedTable(c, h, from)[a] == AdmittedTable(c, h.past, from)[a] +
              if h.last.Limited? && h.last.agent == a && h.last.passed && from <= h.last.at then 1 else 0
    {
      AdmittedOne(c, h, from, a);
    }
  }

  lemma {:induction false} PassedIsSum(c: Config, h: History, from: nat)
    requires Legal(c, h)
    ensures SumOf(AdmittedTable(c, h, from)) == PassedSince(h, from)
  {
    if h.Start? {
      SumOfZeros(AdmittedTable(c, h, from));
    } else {
      PassedIsSum(c, h.past, from);
      AdmittedNext(c, h, from);
      if h.last.Limited? && h.last.passed && from <= h.last.at {
        OneMoreInTable(AdmittedTable(c, h.past, from), AdmittedTable(c, h, from), h.last.agent);
      }
    }
  }

  lemma PassedWithinLimit(c: Config, s: State, from: nat, length: nat)
    requires ValidConfig(c) && Legal(c, s.log) && WindowsOk(c, s) && s.now <= from + length
    ensures PassedSince(s.log, from) <= LoadLimit(c, length)
  {
    PassedIsSum(c, s.log, from);
    var limits := map a | a in c.agents :: R.IntervalLimit(length, c.agents[a].rateMax, c.agents[a].rateSecs);
    forall a | a in c.agents ensures AdmittedTable(c, s.log, from)[a] <= limits[a] {
      assert a in s.windows;
      R.IntervalBound(CallsOf(s.log, a), c.agents[a].rateMax, c.agents[a].rateSecs, from, length);
    }
    SumMonotone(AdmittedTable(c, s.log, from), limits);
  }
}
