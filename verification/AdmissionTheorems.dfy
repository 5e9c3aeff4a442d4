/** What holds of every run of the admission protocol, whatever the interleaving. */
module AdmissionTheorems {
  import opened Common
  import opened Errors
  import opened Slime
  import opened Idempotency
  import opened Admission
  import opened AdmissionHistory
  import opened AdmissionInvariant
  import R = RateLimit

  /** The events of a run. */
  function LogOf(c: Config, ls: seq<Label>): History
    requires Exec(c, ls).Some?
  {
    Exec(c, ls).value.log
  }

  predicate Grants(e: Event, key: Key) {
    e.Answered? && e.key == key && e.status == New
  }

  predicate Removes(e: Event, key: Key) {
    e.FullRemoved? && e.key == key
  }

  /** A Full-branch removal of the key falls strictly between the positions `i` and `j`. */
  ghost predicate RemovedBetween(h: History, key: Key, i: nat, j: nat)
    requires j <= Length(h)
  {
    exists m :: i < m < j && Removes(At(h, m), key)
  }

  /** No grant of the key falls strictly between the positions `i` and `j`. */
  ghost predicate NoGrantBetween(h: History, key: Key, i: nat, j: nat)
    requires j <= Length(h)
  {
    forall m :: i < m < j ==> !Grants(At(h, m), key)
  }

  // ---- Single ownership ----------------------------------------------------------------------

  lemma {:induction false} ClaimIsRecent(c: Config, h: History, key: Key, i: nat)
    requires Legal(c, h) && i < Length(h) && Grants(At(h, i), key) && !RemovedBetween(h, key, i, Length(h))
    ensures Claim(h, key).Some? && At(h, i).at <= Claim(h, key).value.at
  {
    if i < Length(h.past) {
      assert forall m :: i < m < Length(h.past) ==> At(h, m) == At(h.past, m);
      assert !Removes(At(h, Length(h.past)), key);
      ClaimIsRecent(c, h.past, key, i);
    }
  }

  /** The first half of the refinement, alone. */
  lemma RunLegal(c: Config, ls: seq<Label>)
    requires ValidConfig(c) && Exec(c, ls).Some?
    ensures Legal(c, LogOf(c, ls))
  {
    RunInvariant(c, ls);
  }

  /** Conservation: in every state an agent's counter is the sum of its authorized reservations. */
  lemma RunCapacity(c: Config, ls: seq<Label>, agent: AgentId)
    requires ValidConfig(c) && Exec(c, ls).Some? && agent in c.agents
    ensures agent in Exec(c, ls).value.used
    ensures Exec(c, ls).value.used[agent] == Used(LogOf(c, ls), agent) <= c.agents[agent].maxCapacity
  {
    RunInvariant(c, ls);
  }

  lemma RunHandler(c: Config, ls: seq<Label>, r: ReqId)
    requires ValidConfig(c) && Exec(c, ls).Some? && r in Exec(c, ls).value.handlers
    ensures HandlerOk(c, Exec(c, ls).value, r)
  {
    RunInvariant(c, ls);
  }

  lemma RunOrdered(c: Config, ls: seq<Label>, agent: AgentId)
    requires ValidConfig(c) && Exec(c, ls).Some? && agent in c.agents
    ensures R.Ordered(CallsOf(LogOf(c, ls), agent))
  {
    RunInvariant(c, ls);
    assert agent in Exec(c, ls).value.windows;
  }

  lemma {:induction false} AtUpto(h: History, n: nat)
    requires n <= Length(h)
    ensures Length(Upto(h, n)) == n
    ensures forall i :: 0 <= i < n ==> At(Upto(h, n), i) == At(h, i)
  {
    if n < Length(h) {
      AtUpto(h.past, n);
    }
  }

  lemma BetweenUpto(h: History, key: Key, i: nat, j: nat)
    requires j <= Length(h)
    ensures Length(Upto(h, j)) == j
    ensures RemovedBetween(Upto(h, j), key, i, j) <==> RemovedBetween(h, key, i, j)
    ensures NoGrantBetween(Upto(h, j), key, i, j) <==> NoGrantBetween(h, key, i, j)
  {
    AtUpto(h, j);
    assert forall m :: 0 <= m < j ==> At(Upto(h, j), m) == At(h, m);
  }

  lemma GrantsApart(c: Config, h: History, key: Key, i: nat, j: nat)
    requires Legal(c, h) && i < j < Length(h) && Grants(At(h, i), key) && Grants(At(h, j), key)
    requires !RemovedBetween(h, key, i, j)
    ensures At(h, i).at + c.ttl <= At(h, j).at
  {
    LegalAt(c, h, j);
    AtUpto(h, j);
    BetweenUpto(h, key, i, j);
    ClaimIsRecent(c, Upto(h, j), key, i);
  }

  /** Two `New` answers for one key lie at least the time to live apart, unless a Full-branch removal of
      the key falls between them. */
  lemma SingleOwnership(c: Config, ls: seq<Label>, key: Key, i: nat, j: nat)
    requires ValidConfig(c) && Exec(c, ls).Some?
    requires i < j < Length(LogOf(c, ls)) && Grants(At(LogOf(c, ls), i), key) && Grants(At(LogOf(c, ls), j), key)
    requires !RemovedBetween(LogOf(c, ls), key, i, j)
    ensures At(LogOf(c, ls), i).at + c.ttl <= At(LogOf(c, ls), j).at
  {
    RunLegal(c, ls);
    GrantsApart(c, LogOf(c, ls), key, i, j);
  }

  /** The latest grant is the claim until a Full-branch removal, and no longer. */
  lemma {:induction false} ClaimAfterLatest(h: History, key: Key, i: nat)
    requires i < Length(h) && Grants(At(h, i), key) && NoGrantBetween(h, key, i, Length(h))
    ensures Claim(h, key) ==
            if RemovedBetween(h, key, i, Length(h)) then None else Some(Grant(At(h, i).req, At(h, i).at))
  {
    if i < Length(h.past) {
      assert forall m :: i < m < Length(h.past) ==> At(h, m) == At(h.past, m);
      assert At(h, Length(h.past)) == h.last;
      ClaimAfterLatest(h.past, key, i);
      if RemovedBetween(h.past, key, i, Length(h.past)) {
        var m :| i < m < Length(h.past) && Removes(At(h.past, m), key);
        assert Removes(At(h, m), key);
      }
    }
  }

  lemma AnswerAfterLatest(c: Config, h: History, key: Key, i: nat, j: nat)
    requires Legal(c, h) && i < j < Length(h) && Grants(At(h, i), key) && NoGrantBetween(h, key, i, j)
    requires At(h, j).Answered? && At(h, j).key == key && At(h, j).at < At(h, i).at + c.ttl
    ensures if RemovedBetween(h, key, i, j) then At(h, j).status == New || At(h, j).status == Full
            else At(h, j).status == Recalled(Upto(h, j), key)
  {
    LegalAt(c, h, j);
    AtUpto(h, j);
    BetweenUpto(h, key, i, j);
    ClaimAfterLatest(Upto(h, j), key, i);
  }

  /**
   * Ownership is lost exactly by removal. `i` is the latest grant of the key before the lookup `j`, less
   * than the time to live earlier: the lookup fails to find it, and is answered `New` or `Full`, if and
   * only if a Full-branch removal of the key falls between the two. Otherwise it is answered with what was
   * last committed under the key since the grant, or that the key is in flight if nothing was.
   */
  lemma OwnershipLostExactlyByRemoval(c: Config, ls: seq<Label>, key: Key, i: nat, j: nat)
    requires ValidConfig(c) && Exec(c, ls).Some?
    requires i < j < Length(LogOf(c, ls)) && Grants(At(LogOf(c, ls), i), key)
    requires At(LogOf(c, ls), j).Answered? && At(LogOf(c, ls), j).key == key
    requires At(LogOf(c, ls), j).at < At(LogOf(c, ls), i).at + c.ttl && NoGrantBetween(LogOf(c, ls), key, i, j)
    ensures (At(LogOf(c, ls), j).status == New || At(LogOf(c, ls), j).status == Full)
            <==> RemovedBetween(LogOf(c, ls), key, i, j)
    ensures !RemovedBetween(LogOf(c, ls), key, i, j) ==>
              At(LogOf(c, ls), j).status == Recalled(Upto(LogOf(c, ls), j), key)
  {
    RunLegal(c, ls);
    AnswerAfterLatest(c, LogOf(c, ls), key, i, j);
  }

  /** The position of the claim: a grant that no grant and no removal of the key has followed. */
  lemma {:induction false} ClaimPosition(h: History, key: Key) returns (m: nat)
    requires Claim(h, key).Some?
    ensures m < Length(h) && At(h, m) == Answered(Claim(h, key).value.req, key, Claim(h, key).value.at, New)
    ensures NoGrantBetween(h, key, m, Length(h)) && !RemovedBetween(h, key, m, Length(h))
  {
    if Grants(h.last, key) {
      m := Length(h.past);
    } else {
      m := ClaimPosition(h.past, key);
      assert forall n :: m < n < Length(h.past) ==> At(h, n) == At(h.past, n);
      assert At(h, Length(h.past)) == h.last;
    }
  }

  /** A request is answered once. */
  lemma {:induction false} AnsweredStays(h: History, r: ReqId, i: nat)
    requires i < Length(h) && At(h, i).Answered? && At(h, i).req == r
    ensures RecordOf(h, r).answered
  {
    if i < Length(h.past) {
      AnsweredStays(h.past, r, i);
    }
  }

  lemma AnsweredOnce(c: Config, h: History, i: nat, j: nat)
    requires Legal(c, h) && i < j < Length(h) && At(h, i).Answered? && At(h, j).Answered?
    ensures At(h, i).req != At(h, j).req
  {
    LegalAt(c, h, j);
    AtUpto(h, j);
    if At(h, i).req == At(h, j).req {
      AnsweredStays(Upto(h, j), At(h, i).req, i);
    }
  }

  /** A grant younger than the time to live is the claim exactly while no removal has followed it. */
  lemma LivingGrantIsClaim(c: Config, h: History, key: Key, p: nat, now: nat)
    requires Legal(c, h) && p < Length(h) && Grants(At(h, p), key) && now < At(h, p).at + c.ttl
    requires Claim(h, key).Some? ==> Claim(h, key).value.at <= now
    ensures Claim(h, key) == Some(Grant(At(h, p).req, At(h, p).at)) <==> !RemovedBetween(h, key, p, Length(h))
  {
    if !RemovedBetween(h, key, p, Length(h)) {
      ClaimIsRecent(c, h, key, p);
    }
    if Claim(h, key).Some? {
      var m := ClaimPosition(h, key);
      if p < m {
        AnsweredOnce(c, h, p, m);
        if !RemovedBetween(h, key, p, Length(h)) {
          assert !RemovedBetween(h, key, p, m);
          GrantsApart(c, h, key, p, m);
        }
      }
    }
  }

  lemma RunCache(c: Config, ls: seq<Label>)
    requires ValidConfig(c) && Exec(c, ls).Some?
    ensures CacheOk(c, Exec(c, ls).value)
  {
    RunInvariant(c, ls);
  }

  /**
   * The entry of an owner, whatever happened to the key before and whatever other requests do: as long as
   * its grant, made at `p`, is younger than the time to live, the owner still holds the key if and only if
   * no Full-branch removal of the key has followed, and then the entry carries the instant of its own
   * reservation and holds exactly what was committed under the key since.
   */
  lemma OwnersKeepTheirEntry(c: Config, ls: seq<Label>, r: ReqId, p: nat)
    requires ValidConfig(c) && Exec(c, ls).Some? && r in Exec(c, ls).value.handlers
    requires var s := Exec(c, ls).value;
             var h := s.handlers[r];
             && Owner(h.pc) && s.now < h.since + c.ttl
             && p < Length(s.log) && At(s.log, p) == Answered(r, h.key, h.since, New)
    ensures var s := Exec(c, ls).value;
            var h := s.handlers[r];
            && (Claim(s.log, h.key) == Some(Grant(r, h.since)) <==> !RemovedBetween(s.log, h.key, p, Length(s.log)))
            && (!RemovedBetween(s.log, h.key, p, Length(s.log)) ==>
                  && h.key in s.cache
                  && s.cache[h.key] == Entry(LastCommit(s.log, h.key), h.since, LastCommit(s.log, h.key).None?))
  {
    var s := Exec(c, ls).value;
    RunLegal(c, ls);
    RunCache(c, ls);
    LivingGrantIsClaim(c, s.log, s.handlers[r].key, p, s.now);
  }

  /** The branch for an agent without authorizer is never taken. */
  lemma NeverOrphaned(c: Config, ls: seq<Label>, i: nat)
    requires ValidConfig(c) && Exec(c, ls).Some? && i < Length(LogOf(c, ls))
    ensures !At(LogOf(c, ls), i).OrphanRemoved?
  {
    RunLegal(c, ls);
    LegalAt(c, LogOf(c, ls), i);
  }

  /** A request answers once with exactly the document it commits. */
  lemma CommitsWhatItSends(c: Config, ls: seq<Label>, i: nat)
    requires ValidConfig(c) && Exec(c, ls).Some? && i < Length(LogOf(c, ls)) && At(LogOf(c, ls), i).Committed?
    ensures At(LogOf(c, ls), i).cached == At(LogOf(c, ls), i).sent
    ensures RecordOf(Upto(LogOf(c, ls), i), At(LogOf(c, ls), i).req).committed.None?
  {
    RunLegal(c, ls);
    LegalAt(c, LogOf(c, ls), i);
  }

  // ---- What is served --------------------------------------------------------------------------------

  datatype Arrival = Arrival(agent: AgentId, key: Key, body: Body)

  /** The request that arrived as number `r`: its agent as its header says, its key and its body. */
  ghost predicate Arrived(c: Config, ls: seq<Label>, r: ReqId, a: Arrival) {
    exists n ::
      && 0 <= n < |ls| && ls[n].Arrive? && ls[n].key == a.key && ls[n].body == a.body
      && (ls[n].header == Some(a.agent) || (ls[n].header == None && c.defaultAgent == Some(a.agent)))
      && Exec(c, ls[..n]).Some? && Exec(c, ls[..n]).value.next == r
  }

  lemma ArrivedLater(c: Config, ls: seq<Label>, l: Label, r: ReqId, a: Arrival)
    requires Arrived(c, ls, r, a)
    ensures Arrived(c, ls + [l], r, a)
  {
    var n :| && 0 <= n < |ls| && ls[n].Arrive? && ls[n].key == a.key && ls[n].body == a.body
             && (ls[n].header == Some(a.agent) || (ls[n].header == None && c.defaultAgent == Some(a.agent)))
             && Exec(c, ls[..n]).Some? && Exec(c, ls[..n]).value.next == r;
    assert (ls + [l])[..n] == ls[..n] && (ls + [l])[n] == ls[n];
  }

  lemma ArrivesNow(c: Config, ls: seq<Label>, l: Label, a: Arrival)
    requires Exec(c, ls).Some? && l.Arrive? && l.key == a.key && l.body == a.body
    requires ResolveAgent(c, l.header) == Some(a.agent)
    ensures Arrived(c, ls + [l], Exec(c, ls).value.next, a)
  {
    assert (ls + [l])[..|ls|] == ls && (ls + [l])[|ls|] == l;
  }

  /** A step of a handler leaves everybody's request as it is. */
  lemma StepKeepsRequests(c: Config, s: State, l: Label, r: ReqId)
    requires Inv(c, s) && !(l.Tick? || l.Arrive? || l.ArriveKeyless?) && Apply(c, s, l).Some?
    requires r in Apply(c, s, l).value.handlers
    ensures r in s.handlers && SameRequest(s.handlers[r], Apply(c, s, l).value.handlers[r])
  {
    ActSound(c, s, l.id, l);
    SoundKeepsRequests(c, s, Act(c, s, l.id, l).value, l.id, r);
  }

  lemma SoundKeepsRequests(c: Config, s: State, s': State, id: ReqId, r: ReqId)
    requires Sound(c, s, s', id) && r in s'.handlers
    ensures r in s.handlers && SameRequest(s.handlers[r], s'.handlers[r])
  {
  }

  lemma EnvironmentKeepsRequests(c: Config, s: State, l: Label, r: ReqId)
    requires (l.Tick? || l.Arrive? || l.ArriveKeyless?) && Apply(c, s, l).Some? && r in Apply(c, s, l).value.handlers
    requires !(l.Arrive? && r == s.next)
    ensures r in s.handlers && SameRequest(s.handlers[r], Apply(c, s, l).value.handlers[r])
  {
  }

  lemma AcceptedAs(c: Config, s: State, l: Label)
    requires l.Arrive? && Apply(c, s, l).Some? && s.next !in s.handlers && s.next in Apply(c, s, l).value.handlers
    ensures var h := Apply(c, s, l).value.handlers[s.next];
            ResolveAgent(c, l.header) == Some(h.agent) && h.key == l.key && h.body == l.body
  {
  }

  /** In every run each handler works for the agent, on the key and on the body its request arrived with. */
  lemma {:induction false} HandlersServeArrivals(c: Config, ls: seq<Label>, r: ReqId)
    requires ValidConfig(c) && Exec(c, ls).Some? && r in Exec(c, ls).value.handlers
    ensures var h := Exec(c, ls).value.handlers[r]; Arrived(c, ls, r, Arrival(h.agent, h.key, h.body))
  {
    var past, l := ls[..|ls| - 1], ls[|ls| - 1];
    var s := Exec(c, past).value;
    var h := Exec(c, ls).value.handlers[r];
    assert ls == past + [l];
    RunInvariant(c, past);
    assert s.next in s.handlers ==> HandlerOk(c, s, s.next);
    if l.Arrive? && r == s.next {
      AcceptedAs(c, s, l);
      ArrivesNow(c, past, l, Arrival(h.agent, h.key, h.body));
    } else {
      if l.Tick? || l.Arrive? || l.ArriveKeyless? {
        EnvironmentKeepsRequests(c, s, l, r);
      } else {
        StepKeepsRequests(c, s, l, r);
      }
      HandlersServeArrivals(c, past, r);
      ArrivedLater(c, past, l, r, Arrival(h.agent, h.key, h.body));
    }
  }

  /** A purge judges every entry by the instant it began, however late it comes to it. */
  lemma VisitJudgesByStart(c: Config, s: State, r: ReqId, k: Key)
    requires r in s.handlers && s.handlers[r].pc.Purging? && c.ttl >= 1
    ensures Apply(c, s, PurgeVisit(r, k)).Some?
    ensures var t := Apply(c, s, PurgeVisit(r, k)).value;
            && (forall j :: j in s.cache && j != k ==> j in t.cache && t.cache[j] == s.cache[j])
            && (k in t.cache <==> k in s.cache && s.handlers[r].pc.at < s.cache[k].createdAt + c.ttl)
  {
  }

  // ---- What is sent --------------------------------------------------------------------------------

  lemma {:induction false} OpenedStays(c: Config, h: History, r: ReqId, i: nat)
    requires Legal(c, h) && i < Length(h) && At(h, i).Opened? && At(h, i).req == r
    ensures RecordOf(h, r).content == Some(At(h, i).body)
  {
    if i < Length(h.past) {
      OpenedStays(c, h.past, r, i);
    }
  }

  lemma {:induction false} CheckedStays(c: Config, h: History, r: ReqId, i: nat)
    requires Legal(c, h) && i < Length(h) && At(h, i).Checked? && At(h, i).req == r
    ensures RecordOf(h, r).check == Some(At(h, i).check)
  {
    if i < Length(h.past) {
      CheckedStays(c, h.past, r, i);
    }
  }

  lemma {:induction false} DecidedStays(c: Config, h: History, r: ReqId, i: nat)
    requires Legal(c, h) && i < Length(h) && At(h, i).Decided? && At(h, i).req == r
    ensures var e := At(h, i); RecordOf(h, r).ruling == Some(Ruling(e.agent, e.magnitude, e.dry, e.verdict))
  {
    if i < Length(h.past) {
      DecidedStays(c, h.past, r, i);
    }
  }

  lemma {:induction false} ActuatedStays(c: Config, h: History, r: ReqId, i: nat)
    requires Legal(c, h) && i < Length(h) && At(h, i).Actuated? && At(h, i).req == r
    ensures RecordOf(h, r).acted && RecordOf(h, r).outcome == At(h, i).outcome
  {
    if i < Length(h.past) {
      ActuatedStays(c, h.past, r, i);
    }
  }

  /** The document an event of a request settles as its answer, if it settles one. */
  function Settles(e: Event): Option<Json> {
    match e
    case Opened(_, Malformed(message)) => Some(Problem(ERROR, Some(BAD_REQUEST), InvalidJson(message)))
    case Checked(_, _, Err(error)) => Some(HttpStatusAndBody(error).1)
    case Decided(_, _, _, _, _, Impossible) => Some(Denial)
    case Decided(_, _, _, _, true, Authorized) => Some(Success(true, []))
    case Actuated(_, _, Some(Ok(body))) => Some(body)
    case Actuated(_, _, Some(Err(error))) => Some(HttpStatusAndBody(error).1)
    case _ => None
  }

  /** A request's document, in the order of its records. */
  lemma {:induction false} RecordsInOrder(c: Config, h: History, r: ReqId)
    requires Legal(c, h)
    ensures var rec := RecordOf(h, r);
            && (rec.check.Some? ==> rec.content.Some? && rec.content.value.Parsed?)
            && (rec.ruling.Some? ==> rec.check.Some? && rec.check.value.Ok?)
            && (rec.acted ==> rec.ruling.Some? && rec.ruling.value.verdict == Authorized && !rec.ruling.value.dry)
            && (rec.outcome.Some? ==> rec.acted)
  {
    if h.Then? {
      RecordsInOrder(c, h.past, r);
    }
  }

  lemma SettledIsDue(c: Config, h: History, r: ReqId, i: nat)
    requires Legal(c, h) && i < Length(h) && Settles(At(h, i)).Some? && At(h, i).req == r
    ensures Due(RecordOf(h, r)) == Settles(At(h, i))
  {
    RecordsInOrder(c, h, r);
    match At(h, i) {
      case Opened(_, _) => OpenedStays(c, h, r, i);
      case Checked(_, _, _) => CheckedStays(c, h, r, i);
      case Decided(_, _, _, _, _, _) => DecidedStays(c, h, r, i);
      case Actuated(_, _, _) => ActuatedStays(c, h, r, i);
      case _ =>
    }
  }

  /**
   * A request is sent what has happened to it. Whatever event of the request `i` settled its answer, the
   * document it commits and sends at `j` is that one: the body of its action, `Success` of an authorized dry
   * run, `Denial` of a denied one, the error of its validation or of its action, or the error of a body that
   * is no JSON.
   */
  lemma SendsWhatHappened(c: Config, ls: seq<Label>, i: nat, j: nat)
    requires ValidConfig(c) && Exec(c, ls).Some? && i < j < Length(LogOf(c, ls)) && At(LogOf(c, ls), j).Committed?
    requires Settles(At(LogOf(c, ls), i)).Some? && At(LogOf(c, ls), i).req == At(LogOf(c, ls), j).req
    ensures At(LogOf(c, ls), j).sent == At(LogOf(c, ls), j).cached == Settles(At(LogOf(c, ls), i)).value
  {
    var h := LogOf(c, ls);
    RunLegal(c, ls);
    LegalAt(c, h, j);
    AtUpto(h, j);
    SettledIsDue(c, Upto(h, j), At(h, j).req, i);
  }

  lemma {:induction false} DueIsSettled(c: Config, h: History, r: ReqId) returns (i: nat)
    requires Legal(c, h) && Due(RecordOf(h, r)).Some?
    ensures i < Length(h) && Settles(At(h, i)) == Due(RecordOf(h, r)) && At(h, i).req == r
  {
    if Due(RecordOf(h.past, r)) == Due(RecordOf(h, r)) {
      i := DueIsSettled(c, h.past, r);
    } else {
      RecordsInOrder(c, h.past, r);
      i := Length(h.past);
    }
  }

  /** Nothing is sent that no event has settled. */
  lemma SentWasSettled(c: Config, ls: seq<Label>, j: nat) returns (i: nat)
    requires ValidConfig(c) && Exec(c, ls).Some? && j < Length(LogOf(c, ls)) && At(LogOf(c, ls), j).Committed?
    ensures i < j && Settles(At(LogOf(c, ls), i)) == Some(At(LogOf(c, ls), j).sent)
    ensures At(LogOf(c, ls), i).req == At(LogOf(c, ls), j).req
  {
    var h := LogOf(c, ls);
    RunLegal(c, ls);
    LegalAt(c, h, j);
    AtUpto(h, j);
    i := DueIsSettled(c, Upto(h, j), At(h, j).req);
  }

  // ---- Capacity ------------------------------------------------------------------------------

  /** The counter of an agent after replaying its decisions one after the other through the sequential
      specification, ignoring the verdicts the concurrent run gave. */
  function Sequential(c: Config, h: History, agent: AgentId): nat
    requires agent in c.agents
  {
    match h
    case Start => 0
    case Then(past, Decided(_, a, d, m, dry, _)) =>
      var used := Sequential(c, past, agent);
      if a == agent && !dry && Decide(c.agents[agent].maxCapacity, c.agents[agent].policies, used, d, m) == Authorized
      then used + m else used
    case Then(past, _) => Sequential(c, past, agent)
  }

  lemma {:induction false} SequentialIsUsed(c: Config, h: History, agent: AgentId)
    requires Legal(c, h) && agent in c.agents
    ensures Sequential(c, h, agent) == Used(h, agent)
  {
    if h.Then? {
      SequentialIsUsed(c, h.past, agent);
    }
  }

  /** Linearizability: in the order of their decision points, all verdicts are those of the sequential
      authorizer, and it ends with the value of the concurrent counter. */
  lemma Linearizable(c: Config, ls: seq<Label>, agent: AgentId, i: nat)
    requires ValidConfig(c) && Exec(c, ls).Some? && agent in c.agents
    ensures agent in Exec(c, ls).value.used
    ensures Sequential(c, LogOf(c, ls), agent) == Exec(c, ls).value.used[agent] <= c.agents[agent].maxCapacity
    ensures i < Length(LogOf(c, ls)) && At(LogOf(c, ls), i).Decided? && At(LogOf(c, ls), i).agent == agent ==>
              var e := At(LogOf(c, ls), i);
              e.verdict == Decide(c.agents[agent].maxCapacity, c.agents[agent].policies,
                                  Sequential(c, Upto(LogOf(c, ls), i), agent), e.domain, e.magnitude)
  {
    RunLegal(c, ls);
    RunCapacity(c, ls, agent);
    SequentialIsUsed(c, LogOf(c, ls), agent);
    if i < Length(LogOf(c, ls)) {
      LegalAt(c, LogOf(c, ls), i);
      SequentialIsUsed(c, Upto(LogOf(c, ls), i), agent);
    }
  }

  lemma {:induction false} UsedMonotone(h: History, agent: AgentId, i: nat, j: nat)
    requires i <= j <= Length(h)
    ensures Used(Upto(h, i), agent) <= Used(Upto(h, j), agent)
  {
    if i < Length(h) {
      if j == Length(h) {
        UsedMonotone(h.past, agent, i, j - 1);
        assert Upto(h.past, j - 1) == h.past;
      } else {
        UsedMonotone(h.past, agent, i, j);
      }
    }
  }

  /** Once a magnitude is denied for lack of capacity, every later decision on the agent for at least that
      magnitude is a denial, in any domain, dry run or not. */
  lemma DenialIsPermanent(c: Config, ls: seq<Label>, i: nat, j: nat)
    requires ValidConfig(c) && Exec(c, ls).Some? && i < j < Length(LogOf(c, ls))
    requires At(LogOf(c, ls), i).Decided? && At(LogOf(c, ls), j).Decided?
    requires var e, e' := At(LogOf(c, ls), i), At(LogOf(c, ls), j);
             && e.agent == e'.agent && e.agent in c.agents && e.magnitude <= e'.magnitude
             && e.verdict == Verdict.Impossible && PolicyAllows(c.agents[e.agent].policies, e.domain, e.magnitude)
    ensures At(LogOf(c, ls), j).verdict == Verdict.Impossible
  {
    RunLegal(c, ls);
    LegalAt(c, LogOf(c, ls), i);
    LegalAt(c, LogOf(c, ls), j);
    UsedMonotone(LogOf(c, ls), At(LogOf(c, ls), i).agent, i, j);
  }

  /** Everything reservation requests of an agent ask for within their policies. */
  function Demand(c: Config, h: History, agent: AgentId): nat
    requires agent in c.agents
  {
    match h
    case Start => 0
    case Then(past, Decided(_, a, d, m, false, _)) =>
      Demand(c, past, agent) + if a == agent && PolicyAllows(c.agents[agent].policies, d, m) then m else 0
    case Then(past, _) => Demand(c, past, agent)
  }

  lemma {:induction false} DemandCoversUse(c: Config, h: History, agent: AgentId, i: nat)
    requires Legal(c, h) && agent in c.agents && i < Length(h)
    requires At(h, i).Decided? && At(h, i).agent == agent && !At(h, i).dry
    requires PolicyAllows(c.agents[agent].policies, At(h, i).domain, At(h, i).magnitude)
    ensures Used(Upto(h, i), agent) + At(h, i).magnitude <= Demand(c, h, agent)
  {
    if i < Length(h.past) {
      DemandCoversUse(c, h.past, agent, i);
    } else {
      UsedWithinDemand(c, h.past, agent);
    }
  }

  lemma {:induction false} UsedWithinDemand(c: Config, h: History, agent: AgentId)
    requires Legal(c, h) && agent in c.agents
    ensures Used(h, agent) <= Demand(c, h, agent)
  {
    if h.Then? {
      UsedWithinDemand(c, h.past, agent);
    }
  }

  /** If everything an agent asks for fits, everything its policies allow is authorized, under any schedule. */
  lemma FittingDemandIsMet(c: Config, ls: seq<Label>, agent: AgentId, i: nat)
    requires ValidConfig(c) && Exec(c, ls).Some? && agent in c.agents
    requires Demand(c, LogOf(c, ls), agent) <= c.agents[agent].maxCapacity
    requires i < Length(LogOf(c, ls)) && At(LogOf(c, ls), i).Decided? && At(LogOf(c, ls), i).agent == agent
    requires !At(LogOf(c, ls), i).dry
    requires PolicyAllows(c.agents[agent].policies, At(LogOf(c, ls), i).domain, At(LogOf(c, ls), i).magnitude)
    ensures At(LogOf(c, ls), i).verdict == Authorized
  {
    RunLegal(c, ls);
    LegalAt(c, LogOf(c, ls), i);
    DemandCoversUse(c, LogOf(c, ls), agent, i);
  }

  lemma {:induction false} GrantedEarlier(h: History, r: ReqId, key: Key, at: nat) returns (m: nat)
    requires RecordOf(h, r).grant == Some((key, at))
    ensures m < Length(h) && At(h, m) == Answered(r, key, at, New)
  {
    var e := h.last;
    if e.Answered? && e.req == r && e.status == New {
      m := Length(h.past);
    } else {
      m := GrantedEarlier(h.past, r, key, at);
    }
  }

  lemma {:induction false} RulingStays(h: History, r: ReqId, i: nat)
    requires i < Length(h) && At(h, i).Decided? && At(h, i).req == r
    ensures RecordOf(h, r).ruling.Some?
  {
    if i < Length(h.past) {
      RulingStays(h.past, r, i);
    }
  }

  /** Every decision, dry run or reservation, is made for a request answered `New` before, and in its name. */
  lemma DecisionsAreHeldByOwners(c: Config, ls: seq<Label>, j: nat) returns (m: nat)
    requires ValidConfig(c) && Exec(c, ls).Some? && j < Length(LogOf(c, ls)) && At(LogOf(c, ls), j).Decided?
    ensures m < j && At(LogOf(c, ls), m).Answered? && At(LogOf(c, ls), m).status == New
    ensures At(LogOf(c, ls), m).req == At(LogOf(c, ls), j).req
  {
    var h := LogOf(c, ls);
    RunLegal(c, ls);
    LegalAt(c, h, j);
    AtUpto(h, j);
    var past, r := Upto(h, j), At(h, j).req;
    var grant := RecordOf(past, r).grant.value;
    m := GrantedEarlier(past, r, grant.0, grant.1);
  }

  /** No request is ruled on twice. */
  lemma DecidedOnce(c: Config, ls: seq<Label>, i: nat, j: nat)
    requires ValidConfig(c) && Exec(c, ls).Some?
    requires i < j < Length(LogOf(c, ls)) && At(LogOf(c, ls), i).Decided? && At(LogOf(c, ls), j).Decided?
    ensures At(LogOf(c, ls), i).req != At(LogOf(c, ls), j).req
  {
    var h := LogOf(c, ls);
    RunLegal(c, ls);
    LegalAt(c, h, j);
    AtUpto(h, j);
    if At(h, i).req == At(h, j).req {
      RulingStays(Upto(h, j), At(h, j).req, i);
    }
  }

  /** Actions carried out, or begun and abandoned, for an agent. */
  function Actuations(h: History, agent: AgentId): nat {
    match h
    case Start => 0
    case Then(past, Actuated(_, a, _)) => Actuations(past, agent) + if a == agent then 1 else 0
    case Then(past, _) => Actuations(past, agent)
  }

  /** Requests holding a reservation of the agent that have not acted yet. */
  ghost function Waiting(h: History, agent: AgentId): set<ReqId> {
    match h
    case Start => {}
    case Then(past, Decided(r, a, _, _, false, Authorized)) => Waiting(past, agent) + if a == agent then {r} else {}
    case Then(past, Actuated(r, a, _)) => Waiting(past, agent) - if a == agent then {r} else {}
    case Then(past, _) => Waiting(past, agent)
  }

  lemma {:induction false} WaitingMeaning(c: Config, h: History, agent: AgentId, r: ReqId)
    requires Legal(c, h)
    ensures r in Waiting(h, agent) <==>
            var rec := RecordOf(h, r);
            && !rec.acted && rec.ruling.Some?
            && rec.ruling.value == Ruling(agent, rec.ruling.value.magnitude, false, Authorized)
    ensures RecordOf(h, r).acted ==> RecordOf(h, r).ruling.Some?
  {
    if h.Then? {
      WaitingMeaning(c, h.past, agent, r);
    }
  }

  lemma {:induction false} ActuationsArePaid(c: Config, h: History, agent: AgentId)
    requires Legal(c, h)
    ensures Actuations(h, agent) + |Waiting(h, agent)| <= Used(h, agent)
  {
    if h.Then? {
      ActuationsArePaid(c, h.past, agent);
      if h.last.Actuated? {
        WaitingMeaning(c, h.past, agent, h.last.req);
      }
    }
  }

  /** Lifetime bound: an agent starts at most `maxCapacity` actions in a whole run, those still waiting for
      their outcome included. */
  lemma LifetimeBound(c: Config, ls: seq<Label>, agent: AgentId)
    requires ValidConfig(c) && Exec(c, ls).Some? && agent in c.agents
    ensures Actuations(LogOf(c, ls), agent) + |Waiting(LogOf(c, ls), agent)| <= c.agents[agent].maxCapacity
  {
    RunLegal(c, ls);
    RunCapacity(c, ls, agent);
    ActuationsArePaid(c, LogOf(c, ls), agent);
  }

  /** Termination of the reservation loop: beyond the spurious ones, a call loses at most as many exchanges
      as there were units left when it first looked. */
  lemma LostExchangesBounded(c: Config, ls: seq<Label>, r: ReqId)
    requires ValidConfig(c) && Exec(c, ls).Some? && r in Exec(c, ls).value.handlers
    requires var pc := Exec(c, ls).value.handlers[r].pc; pc.AtLoad? || pc.AtExchange?
    ensures var h := Exec(c, ls).value.handlers[r];
            && h.agent in c.agents
            && match h.pc.tries.first
               case Some(first) => first + h.pc.tries.lost <= c.agents[h.agent].maxCapacity
               case None => h.pc.tries.lost == 0
  {
    var s := Exec(c, ls).value;
    RunHandler(c, ls, r);
    RunCapacity(c, ls, s.handlers[r].agent);
  }

  /** Every exchange that fails is counted: as lost if the counter had moved, as spurious if it had not. */
  lemma FailedExchangeCounts(c: Config, s: State, r: ReqId, weak: bool)
    requires r in s.handlers && s.handlers[r].pc.AtExchange? && s.handlers[r].agent in s.used
    requires Apply(c, s, Exchange(r, weak)).Some?
    ensures var t := Apply(c, s, Exchange(r, weak)).value;
            var pc, moved := s.handlers[r].pc, s.used[s.handlers[r].agent] != s.handlers[r].pc.seen;
            && r in t.handlers
            && (t.handlers[r].pc.AtLoad? <==> moved || weak)
            && (moved ==> t.handlers[r].pc.tries == pc.tries.(lost := pc.tries.lost + 1))
            && (!moved && weak ==> t.handlers[r].pc.tries == pc.tries.(spurious := pc.tries.spurious + 1))
  {
  }

  /** One step of its own for a handler at each position. */
  ghost function NextLabel(r: ReqId, pc: Pc): Label {
    match pc
    case AtRate => RateCheck(r)
    case AtPurge => PurgeBegin(r)
    case Purging(_, todo) => if k :| k in todo then PurgeVisit(r, k) else Snapshot(r)
    case AtEntry(_) => Lookup(r)
    case AtRemove => RemoveFull(r)
    case AtParse => Parse(r)
    case AtAdmit(_) => Admit(r, None)
    case AtPolicy(_, _) => Police(r)
    case AtPeek(_, _) => Peek(r)
    case AtLoad(_, _, _) => Load(r)
    case AtExchange(_, _, _, _) => Exchange(r, false)
    case AtActuate(_) => TimeOut(r)
    case AtCount(_, _) => Count(r)
    case AtCommit(_, _) => Commit(r)
  }

  /** No handler ever waits for another: from every reachable state each can take a step of its own. */
  lemma NoHandlerIsStuck(c: Config, ls: seq<Label>, r: ReqId)
    requires ValidConfig(c) && Exec(c, ls).Some? && r in Exec(c, ls).value.handlers
    ensures Apply(c, Exec(c, ls).value, NextLabel(r, Exec(c, ls).value.handlers[r].pc)).Some?
  {
    RunHandler(c, ls, r);
    RunCapacity(c, ls, Exec(c, ls).value.handlers[r].agent);
    HandlerCanMove(c, Exec(c, ls).value, r);
  }

  lemma HandlerCanMove(c: Config, s: State, r: ReqId)
    requires r in s.handlers && HandlerOk(c, s, r) && s.handlers[r].agent in s.used
    ensures Apply(c, s, NextLabel(r, s.handlers[r].pc)).Some?
  {
  }

  // ---- Rate limiting and domain counters -------------------------------------------------------

  /** The agent's limiter is about to be asked, for a request with a key or without one. */
  predicate Asks(c: Config, s: State, l: Label, agent: AgentId) {
    || (l.RateCheck? && l.id in s.handlers && s.handlers[l.id].pc.AtRate? && s.handlers[l.id].agent == agent)
    || (l.ArriveKeyless? && ResolveAgent(c, l.header) == Some(agent))
  }

  /** Every request of a known agent is counted, one without a key too; one with a key goes on exactly if its
      window has ended or has room. */
  lemma EveryRequestIsCounted(c: Config, s: State, l: Label, agent: AgentId)
    requires agent in c.agents && agent in s.windows && Asks(c, s, l, agent)
    ensures Apply(c, s, l).Some?
    ensures var t, w, limits := Apply(c, s, l).value, s.windows[agent], c.agents[agent];
            var ended := limits.rateSecs == 0 || s.now >= w.start + limits.rateSecs * 1_000_000_000;
            && t.log == Then(s.log, Limited(agent, s.now, ended || w.count < limits.rateMax))
            && t.windows == s.windows[agent := if ended then R.Window(s.now, 1) else R.Window(w.start, w.count + 1)]
            && (l.RateCheck? ==>
                  t.handlers == if ended || w.count < limits.rateMax then
                                  s.handlers[l.id := s.handlers[l.id].(pc := AtPurge)]
                                else s.handlers - {l.id})
  {
    R.ElapsedIsExact(s.now, s.windows[agent].start, c.agents[agent].rateSecs);
  }

  /** The limiter's interval bound, for the calls of any run. */
  lemma RateBound(c: Config, ls: seq<Label>, agent: AgentId, from: nat, length: nat)
    requires ValidConfig(c) && Exec(c, ls).Some? && agent in c.agents
    requires CallsOf(LogOf(c, ls), agent).at <= from + length
    ensures R.Admitted(CallsOf(LogOf(c, ls), agent), c.agents[agent].rateMax, c.agents[agent].rateSecs, from)
            <= R.IntervalLimit(length, c.agents[agent].rateMax, c.agents[agent].rateSecs)
  {
    RunOrdered(c, ls, agent);
    R.IntervalBound(CallsOf(LogOf(c, ls), agent), c.agents[agent].rateMax, c.agents[agent].rateSecs, from, length);
  }

  ghost function SumOf(m: map<DomainId, nat>): nat {
    if m == map[] then 0
    else var d :| d in m; m[d] + SumOf(m - {d})
  }

  lemma {:induction false} SumWithout(m: map<DomainId, nat>, d: DomainId)
    requires d in m
    ensures SumOf(m) == m[d] + SumOf(m - {d})
  {
    var p :| p in m && SumOf(m) == m[p] + SumOf(m - {p});
    if p != d {
      SumWithout(m - {p}, d);
      SumWithout(m - {d}, p);
      assert m - {p} - {d} == m - {d} - {p};
    }
  }

  lemma {:induction false} SumOfZeros(m: map<DomainId, nat>)
    requires forall d :: d in m ==> m[d] == 0
    ensures SumOf(m) == 0
  {
    if m != map[] {
      var p :| p in m && SumOf(m) == m[p] + SumOf(m - {p});
      SumOfZeros(m - {p});
    }
  }

  /** Requests that succeeded, dry runs included. */
  function TotalSuccesses(h: History): nat {
    if h.Start? then 0 else TotalSuccesses(h.past) + if h.last.Succeeded? then 1 else 0
  }

  ghost function CounterTable(c: Config, h: History): map<DomainId, nat> {
    map d | d in Domains(c) :: Successes(c, h, d)
  }

  lemma OneMoreInTable(before: map<DomainId, nat>, after: map<DomainId, nat>, d: DomainId)
    requires d in before && after == before[d := before[d] + 1]
    ensures SumOf(after) == SumOf(before) + 1
  {
    SumWithout(before, d);
    SumWithout(after, d);
    assert after - {d} == before - {d};
  }

  lemma {:induction false} TableSum(c: Config, h: History)
    requires Legal(c, h)
    ensures SumOf(CounterTable(c, h)) == TotalSuccesses(h)
  {
    if h.Start? {
      SumOfZeros(CounterTable(c, h));
    } else {
      TableSum(c, h.past);
      var before, after := CounterTable(c, h.past), CounterTable(c, h);
      if h.last.Succeeded? {
        var d := c.mapping[h.last.name];
        assert after == before[d := before[d] + 1];
        OneMoreInTable(before, after, d);
      } else {
        assert after == before;
      }
    }
  }

  lemma CountersAreTable(c: Config, s: State)
    requires CountersOk(c, s)
    ensures s.counters == CounterTable(c, s.log)
  {
  }

  lemma RunCounters(c: Config, ls: seq<Label>)
    requires ValidConfig(c) && Exec(c, ls).Some?
    ensures CountersOk(c, Exec(c, ls).value)
  {
    RunInvariant(c, ls);
  }

  /** Conservation of the domain counters: together they count the successful requests, none is lost. */
  lemma CountersConserved(c: Config, ls: seq<Label>)
    requires ValidConfig(c) && Exec(c, ls).Some?
    ensures SumOf(Exec(c, ls).value.counters) == TotalSuccesses(LogOf(c, ls))
  {
    RunLegal(c, ls);
    RunCounters(c, ls);
    CountersAreTable(c, Exec(c, ls).value);
    TableSum(c, LogOf(c, ls));
  }
}
