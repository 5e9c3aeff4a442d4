/**
 * Where the limits of all agents together stay within the cache's size, no size test ever fails: the Full
 * branch is dead, and with it every exception to single ownership.
 */
module AdmissionRoom {
  import opened Common
  import opened Idempotency
  import opened Admission
  import opened AdmissionHistory
  import opened AdmissionInvariant
  import opened AdmissionTheorems
  import opened AdmissionTiming
  import opened AdmissionLoad

  // ---- The size test ---------------------------------------------------------------------------

  /** Keys held by grants since `x` are no more than those grants. */
  lemma {:induction false} ClaimsAreGrants(h: History, keys: set<Key>, x: nat)
    requires forall k :: k in keys ==> Claim(h, k).Some? && x <= Claim(h, k).value.at
    ensures |keys| <= GrantsSince(h, x)
  {
    if h.Start? {
      assert keys == {};
    } else if h.last.Answered? && h.last.status == New && h.last.key in keys {
      ClaimsAreGrants(h.past, keys - {h.last.key}, x);
    } else {
      ClaimsAreGrants(h.past, keys, x);
    }
  }

  /** A handler on the way: its purge began after its rate check, and what it has purged or not seen is
      younger than the time to live. Nobody has found the cache full. */
  ghost predicate PurgeOk(c: Config, s: State, r: ReqId, rated: Rated)
    requires r in s.handlers
  {
    var pc := s.handlers[r].pc;
    && pc != AtEntry(true) && !pc.AtRemove?
    && (OnTheWay(pc) ==> RatedAt(rated, r) <= s.now)
    && (pc.Purging? ==>
          && RatedAt(rated, r) <= pc.at
          && forall k :: k in s.cache && k !in pc.todo ==> pc.at <= s.cache[k].createdAt + c.ttl)
  }

  ghost predicate NeverFull(c: Config, s: State, rated: Rated) {
    forall r :: r in s.handlers ==> PurgeOk(c, s, r, rated)
  }

  lemma EntriesAreGrants(c: Config, s: State, x: nat)
    requires CacheOk(c, s) && forall k :: k in s.cache ==> x <= s.cache[k].createdAt
    ensures |s.cache| <= GrantsSince(s.log, x)
  {
    forall k | k in s.cache.Keys ensures Claim(s.log, k).Some? && x <= Claim(s.log, k).value.at {
      assert match Claim(s.log, k) case None => k !in s.cache case Some(g) => s.cache[k].createdAt == g.at;
    }
    ClaimsAreGrants(s.log, s.cache.Keys, x);
    assert |s.cache.Keys| == |s.cache|;
  }

  lemma SomeoneComing(s: State, rated: Rated, r: ReqId, y: nat)
    requires r in s.handlers && OnTheWay(s.handlers[r].pc) && y <= RatedAt(rated, r)
    ensures |Coming(s, rated, y)| >= 1
  {
    assert r in Coming(s, rated, y);
  }

  /** The interval from `y` on contains the rate check and is short enough for the limits. */
  lemma Interval(at: nat, now: nat, rated: nat, ttl: nat, delay: nat, y: nat, x: nat)
    requires rated <= at <= now <= rated + delay
    requires x == if at <= ttl then 0 else at - ttl
    requires y == if x <= delay then 0 else x - delay
    ensures y <= rated && now <= y + (ttl + 2 * delay)
  {
  }

  /** The size test succeeds: the entries left by the purge, and the request itself, fit in the limits. */
  lemma TestSucceeds(c: Config, s: State, rated: Rated, r: ReqId, y: nat, x: nat, length: nat)
    requires ValidConfig(c) && Legal(c, s.log) && WindowsOk(c, s) && CacheOk(c, s)
    requires forall k :: k in s.cache ==> x <= s.cache[k].createdAt
    requires r in s.handlers && OnTheWay(s.handlers[r].pc) && y <= RatedAt(rated, r)
    requires s.now <= y + length && LoadLimit(c, length) <= c.maxEntries && Accounted(s, rated, y, x)
    ensures |s.cache| < c.maxEntries
  {
    EntriesAreGrants(c, s, x);
    SomeoneComing(s, rated, r, y);
    PassedWithinLimit(c, s, y, length);
  }

  lemma AsideNeverFull(c: Config, s: State, s': State, id: ReqId, rated: Rated)
    requires NeverFull(c, s, rated) && Aside(s, s', id)
    ensures NeverFull(c, s', rated)
  {
    forall r | r in s'.handlers ensures PurgeOk(c, s', r, rated) {
      assert PurgeOk(c, s, r, rated);
    }
  }

  lemma RateNeverFull(c: Config, s: State, id: ReqId, rated: Rated)
    requires NeverFull(c, s, rated) && id in s.handlers && s.handlers[id].pc.AtRate?
    requires s.handlers[id].agent in c.agents && s.handlers[id].agent in s.windows
    ensures NeverFull(c, LimitStep(c, s, id), rated[id := s.now])
  {
    var s' := LimitStep(c, s, id);
    forall r | r in s'.handlers ensures PurgeOk(c, s', r, rated[id := s.now]) {
      assert PurgeOk(c, s, r, rated);
    }
  }

  lemma AlongNeverFull(c: Config, s: State, id: ReqId, l: Label, rated: Rated)
    requires NeverFull(c, s, rated) && id in s.handlers && !l.RateCheck? && FrontAct(c, s, id, l).Some?
    requires HandlerOk(c, s, id) && (l.Snapshot? ==> |s.cache| < c.maxEntries)
    ensures NeverFull(c, FrontAct(c, s, id, l).value, rated)
  {
    var s' := FrontAct(c, s, id, l).value;
    assert PurgeOk(c, s, id, rated);
    forall r | r in s'.handlers ensures PurgeOk(c, s', r, rated) {
      assert PurgeOk(c, s, r, rated);
    }
  }

  /** A lookup that was not told the cache is full adds at most an entry of its own instant. */
  ghost predicate Found(s: State, s': State, id: ReqId) {
    && s'.now == s.now && s'.handlers.Keys <= s.handlers.Keys
    && (forall r :: r in s'.handlers && r != id ==> s'.handlers[r] == s.handlers[r])
    && (id in s'.handlers ==> s'.handlers[id].pc.AtParse?)
    && (forall k :: k in s'.cache && s'.cache[k].createdAt != s.now ==> k in s.cache && s'.cache[k] == s.cache[k])
  }

  lemma LookupFinds(c: Config, s: State, id: ReqId)
    requires id in s.handlers && s.handlers[id].pc == AtEntry(false)
    ensures Found(s, LookupStep(c, s, id, false), id)
  {
  }

  lemma FoundNeverFull(c: Config, s: State, s': State, id: ReqId, rated: Rated)
    requires NeverFull(c, s, rated) && HandlersOk(c, s) && Found(s, s', id)
    ensures NeverFull(c, s', rated)
  {
    forall r | r in s'.handlers ensures PurgeOk(c, s', r, rated) {
      assert PurgeOk(c, s, r, rated) && HandlerOk(c, s, r);
    }
  }

  lemma LookupNeverFull(c: Config, s: State, id: ReqId, full: bool, rated: Rated)
    requires NeverFull(c, s, rated) && HandlersOk(c, s) && id in s.handlers && s.handlers[id].pc == AtEntry(full)
    ensures NeverFull(c, LookupStep(c, s, id, full), rated)
  {
    assert PurgeOk(c, s, id, rated);
    LookupFinds(c, s, id);
    FoundNeverFull(c, s, LookupStep(c, s, id, false), id, rated);
  }

  lemma OthersNeverFull(c: Config, s: State, l: Label, rated: Rated)
    requires NeverFull(c, s, rated) && Environment(l) && Apply(c, s, l).Some?
    ensures NeverFull(c, Apply(c, s, l).value, rated)
  {
    EnvironmentSteps(c, s, l);
    ShapeNeverFull(c, s, Apply(c, s, l).value, rated);
  }

  lemma ShapeNeverFull(c: Config, s: State, s': State, rated: Rated)
    requires NeverFull(c, s, rated)
    requires || (s.now <= s'.now && s'.handlers == s.handlers && s'.cache == s.cache)
             || exists agent, key, body :: s' == Accept(s, agent, key, body)
    ensures NeverFull(c, s', rated)
  {
    forall r | r in s'.handlers ensures PurgeOk(c, s', r, rated) {
      assert r in s.handlers ==> PurgeOk(c, s, r, rated);
    }
  }

  lemma StepNeverFull(c: Config, s: State, s': State, l: Label, rated: Rated)
    requires HandlersOk(c, s) && NeverFull(c, s, rated) && (l.Snapshot? ==> |s.cache| < c.maxEntries)
    requires Rates(c, s, s', l) || LooksUp(c, s, s', l) || GoesAlong(c, s, s', l) || StandsAside(s, s', l)
    ensures NeverFull(c, s', RatedNext(s, l, rated))
  {
    if Rates(c, s, s', l) {
      RateNeverFull(c, s, l.id, rated);
    } else if LooksUp(c, s, s', l) {
      LookupNeverFull(c, s, l.id, s.handlers[l.id].pc.full, rated);
    } else if GoesAlong(c, s, s', l) {
      assert HandlerOk(c, s, l.id);
      AlongNeverFull(c, s, l.id, l, rated);
    } else {
      AsideNeverFull(c, s, s', l.id, rated);
    }
  }

  lemma SnapshotStands(c: Config, s: State, l: Label)
    requires l.Snapshot? && Apply(c, s, l).Some?
    ensures l.id in s.handlers && s.handlers[l.id].pc.Purging? && s.handlers[l.id].pc.todo == {}
  {
  }

  function EntriesFrom(at: nat, ttl: nat): nat {
    if at <= ttl then 0 else at - ttl
  }

  function RatesFrom(at: nat, ttl: nat, delay: nat): nat {
    if EntriesFrom(at, ttl) <= delay then 0 else EntriesFrom(at, ttl) - delay
  }

  /** After the purge, and not too long after the rate check. */
  lemma PurgedSucceeds(c: Config, s: State, rated: Rated, r: ReqId, delay: nat)
    requires ValidConfig(c) && Legal(c, s.log) && WindowsOk(c, s) && CacheOk(c, s)
    requires r in s.handlers && PurgeOk(c, s, r, rated) && s.handlers[r].pc.Purging? && s.handlers[r].pc.todo == {}
    requires s.handlers[r].pc.at <= s.now <= RatedAt(rated, r) + delay
    requires LoadLimit(c, c.ttl + 2 * delay) <= c.maxEntries
    requires var at := s.handlers[r].pc.at; Accounted(s, rated, RatesFrom(at, c.ttl, delay), EntriesFrom(at, c.ttl))
    ensures |s.cache| < c.maxEntries
  {
    var at := s.handlers[r].pc.at;
    var y, x := RatesFrom(at, c.ttl, delay), EntriesFrom(at, c.ttl);
    Interval(at, s.now, RatedAt(rated, r), c.ttl, delay, y, x);
    TestSucceeds(c, s, rated, r, y, x, c.ttl + 2 * delay);
  }

  /** The size test of a quick run, in the state before it. */
  lemma SnapshotSucceeds(c: Config, ls: seq<Label>, delay: nat, r: ReqId)
    requires ValidConfig(c) && QuickRun(c, ls, delay) && LoadLimit(c, c.ttl + 2 * delay) <= c.maxEntries
    requires NeverFull(c, Exec(c, ls).value, RatedBy(c, ls)) && r in Exec(c, ls).value.handlers
    requires var pc := Exec(c, ls).value.handlers[r].pc; pc.Purging? && pc.todo == {}
    ensures |Exec(c, ls).value.cache| < c.maxEntries
  {
    var s, rated := Exec(c, ls).value, RatedBy(c, ls);
    var at := s.handlers[r].pc.at;
    RunInvariant(c, ls);
    RunAccounted(c, ls, delay, RatesFrom(at, c.ttl, delay), EntriesFrom(at, c.ttl));
    assert PurgeOk(c, s, r, rated) && HandlerOk(c, s, r);
    assert OnTheWay(s.handlers[r].pc);
    PurgedSucceeds(c, s, rated, r, delay);
  }

  lemma {:induction false} RunNeverFull(c: Config, ls: seq<Label>, delay: nat)
    requires ValidConfig(c) && QuickRun(c, ls, delay) && LoadLimit(c, c.ttl + 2 * delay) <= c.maxEntries
    ensures NeverFull(c, Exec(c, ls).value, RatedBy(c, ls))
  {
    if ls != [] {
      var past, l := ls[..|ls| - 1], ls[|ls| - 1];
      var s := Exec(c, past).value;
      RunNeverFull(c, past, delay);
      RunInvariant(c, past);
      if Environment(l) {
        OthersNeverFull(c, s, l, RatedBy(c, past));
      } else {
        if l.Snapshot? {
          SnapshotStands(c, s, l);
          SnapshotSucceeds(c, past, delay, l.id);
        }
        StepKinds(c, s, l);
        StepNeverFull(c, s, Apply(c, s, l).value, l, RatedBy(c, past));
      }
    }
  }

  // ---- Theorems --------------------------------------------------------------------------------

  /** No Full-branch removal, and no `Full` answer. */
  ghost predicate NoFull(h: History) {
    h.Then? ==> NoFull(h.past) && !h.last.FullRemoved? && !(h.last.Answered? && h.last.status == Full)
  }

  lemma {:induction false} NoFullAt(h: History, i: nat)
    requires NoFull(h) && i < Length(h)
    ensures !At(h, i).FullRemoved? && !(At(h, i).Answered? && At(h, i).status == Full)
  {
    if i < Length(h.past) {
      NoFullAt(h.past, i);
    }
  }

  lemma LookupNoFull(c: Config, s: State, id: ReqId)
    requires NoFull(s.log) && id in s.handlers && s.handlers[id].pc == AtEntry(false)
    ensures NoFull(LookupStep(c, s, id, false).log)
  {
  }

  lemma StepNoFull(c: Config, s: State, s': State, l: Label, rated: Rated)
    requires NeverFull(c, s, rated) && NoFull(s.log)
    requires Rates(c, s, s', l) || LooksUp(c, s, s', l) || GoesAlong(c, s, s', l) || StandsAside(s, s', l)
    ensures NoFull(s'.log)
  {
    assert PurgeOk(c, s, l.id, rated);
    if LooksUp(c, s, s', l) {
      LookupNoFull(c, s, l.id);
    } else if GoesAlong(c, s, s', l) {
      AlongLog(c, s, s', l);
    }
  }

  lemma AlongLog(c: Config, s: State, s': State, l: Label)
    requires GoesAlong(c, s, s', l)
    ensures s'.log == s.log && s'.now == s.now
  {
  }

  /**
   * Where the limits of all agents together stay within the cache's size, the cache is never full: if nobody
   * takes longer than `delay` from its rate check to its lookup, no lookup is ever answered `Full`, and no
   * Full-branch removal ever happens.
   */
  lemma {:induction false} NeverFullWithinLimits(c: Config, ls: seq<Label>, delay: nat)
    requires ValidConfig(c) && QuickRun(c, ls, delay) && LoadLimit(c, c.ttl + 2 * delay) <= c.maxEntries
    ensures NoFull(LogOf(c, ls))
  {
    if ls != [] {
      var past, l := ls[..|ls| - 1], ls[|ls| - 1];
      var s := Exec(c, past).value;
      NeverFullWithinLimits(c, past, delay);
      RunNeverFull(c, past, delay);
      RunInvariant(c, past);
      if Environment(l) {
        EnvironmentSteps(c, s, l);
      } else {
        StepKinds(c, s, l);
        StepNoFull(c, s, Apply(c, s, l).value, l, RatedBy(c, past));
      }
    }
  }

  lemma NotRemoved(h: History, key: Key, i: nat, j: nat)
    requires NoFull(h) && j <= Length(h)
    ensures !RemovedBetween(h, key, i, j)
  {
    forall m | i < m < j ensures !Removes(At(h, m), key) {
      NoFullAt(h, m);
    }
  }

  lemma NobodyDisturbs(h: History, key: Key, p: nat, deadline: nat)
    requires NoFull(h) && p < Length(h) && Grants(At(h, p), key)
    ensures Undisturbed(h, key, p, deadline)
  {
    forall m | 0 <= m < p ensures !Removes(At(h, m), key) {
      NoFullAt(h, m);
    }
  }

  /** Single ownership without exception, from the configuration alone. */
  lemma SingleOwnershipWithinLimits(c: Config, ls: seq<Label>, delay: nat, key: Key, i: nat, j: nat)
    requires ValidConfig(c) && QuickRun(c, ls, delay) && LoadLimit(c, c.ttl + 2 * delay) <= c.maxEntries
    requires i < j < Length(LogOf(c, ls)) && Grants(At(LogOf(c, ls), i), key) && Grants(At(LogOf(c, ls), j), key)
    ensures At(LogOf(c, ls), i).at + c.ttl <= At(LogOf(c, ls), j).at
  {
    NeverFullWithinLimits(c, ls, delay);
    NotRemoved(LogOf(c, ls), key, i, j);
    SingleOwnership(c, ls, key, i, j);
  }

  /** Every completion writes the entry its own request reserved. */
  lemma CompletionWithinLimits(c: Config, ls: seq<Label>, delay: nat, deadline: nat, r: ReqId)
    requires ValidConfig(c) && QuickRun(c, ls, delay) && LoadLimit(c, c.ttl + 2 * delay) <= c.maxEntries
    requires PromptRun(c, ls, deadline) && deadline < c.ttl
    requires r in Exec(c, ls).value.handlers && Exec(c, ls).value.handlers[r].pc.AtCommit?
    ensures var s := Exec(c, ls).value;
            var h := s.handlers[r];
            h.key in s.cache && s.cache[h.key] == Entry(None, h.since, true)
  {
    var s := Exec(c, ls).value;
    var h := s.handlers[r];
    RunLegal(c, ls);
    RunHandler(c, ls, r);
    var p := GrantedEarlier(s.log, r, h.key, h.since);
    NeverFullWithinLimits(c, ls, delay);
    NotRemoved(s.log, h.key, p, Length(s.log));
    NobodyDisturbs(s.log, h.key, p, deadline);
    CompletionFindsOwnEntry(c, ls, deadline, r, p);
  }

  /** Answers are logged in the order of their instants, none later than `now`. */
  ghost predicate InTime(h: History, now: nat) {
    h.Then? ==> (h.last.Answered? ==> h.last.at <= now) && InTime(h.past, if h.last.Answered? then h.last.at else now)
  }

  lemma {:induction false} InTimeLater(h: History, now: nat, later: nat)
    requires InTime(h, now) && now <= later
    ensures InTime(h, later)
  {
    if h.Then? && !h.last.Answered? {
      InTimeLater(h.past, now, later);
    }
  }

  lemma {:induction false} RunInTime(c: Config, ls: seq<Label>)
    requires ValidConfig(c) && Exec(c, ls).Some?
    ensures InTime(LogOf(c, ls), Exec(c, ls).value.now)
  {
    if ls != [] {
      var past, l := ls[..|ls| - 1], ls[|ls| - 1];
      var s, s' := Exec(c, past).value, Exec(c, ls).value;
      RunInTime(c, past);
      RunInvariant(c, past);
      if Environment(l) {
        EnvironmentSteps(c, s, l);
      } else {
        StepKinds(c, s, l);
        KindInTime(c, s, s', l);
      }
      InTimeLater(s.log, s.now, s'.now);
    }
  }

  /** The instant of a step of a handler is that of the state before, and of an answer it gives. */
  lemma KindInTime(c: Config, s: State, s': State, l: Label)
    requires Rates(c, s, s', l) || LooksUp(c, s, s', l) || GoesAlong(c, s, s', l) || StandsAside(s, s', l)
    ensures s'.now == s.now
    ensures || s'.log == s.log
            || (s'.log.Then? && s'.log.past == s.log && (s'.log.last.Answered? ==> s'.log.last.at == s.now))
  {
    if LooksUp(c, s, s', l) {
      LookupLeaves(c, s, l.id, s.handlers[l.id].pc.full, map[], 0);
    } else if GoesAlong(c, s, s', l) {
      AlongLog(c, s, s', l);
    }
  }

  lemma {:induction false} AnswerInTime(h: History, now: nat, i: nat)
    requires InTime(h, now) && i < Length(h) && At(h, i).Answered?
    ensures At(h, i).at <= now
  {
    if i < Length(h.past) {
      AnswerInTime(h.past, if h.last.Answered? then h.last.at else now, i);
    }
  }

  lemma {:induction false} InOrder(h: History, now: nat, m: nat, j: nat)
    requires InTime(h, now) && m < j < Length(h) && At(h, m).Answered? && At(h, j).Answered?
    ensures At(h, m).at <= At(h, j).at
  {
    if j < Length(h.past) {
      InOrder(h.past, if h.last.Answered? then h.last.at else now, m, j);
    } else {
      AnswerInTime(h.past, h.last.at, m);
    }
  }

  lemma AnswersInOrder(c: Config, ls: seq<Label>, m: nat, j: nat)
    requires ValidConfig(c) && Exec(c, ls).Some? && m < j < Length(LogOf(c, ls))
    requires At(LogOf(c, ls), m).Answered? && At(LogOf(c, ls), j).Answered?
    ensures At(LogOf(c, ls), m).at <= At(LogOf(c, ls), j).at
  {
    RunInTime(c, ls);
    InOrder(LogOf(c, ls), Exec(c, ls).value.now, m, j);
  }

  /** While a grant is alive no other follows, if events are logged in the order of time. */
  lemma NoGrantsUntil(c: Config, ls: seq<Label>, delay: nat, key: Key, i: nat, j: nat)
    requires ValidConfig(c) && QuickRun(c, ls, delay) && LoadLimit(c, c.ttl + 2 * delay) <= c.maxEntries
    requires i < j < Length(LogOf(c, ls)) && Grants(At(LogOf(c, ls), i), key)
    requires At(LogOf(c, ls), j).Answered? && At(LogOf(c, ls), j).at < At(LogOf(c, ls), i).at + c.ttl
    ensures NoGrantBetween(LogOf(c, ls), key, i, j)
  {
    forall m | i < m < j ensures !Grants(At(LogOf(c, ls), m), key) {
      if Grants(At(LogOf(c, ls), m), key) {
        SingleOwnershipWithinLimits(c, ls, delay, key, i, m);
        AnswersInOrder(c, ls, m, j);
      }
    }
  }

  /** Every repeat within the time to live of its key's latest grant is told what the owner has sent. */
  lemma RepeatsWithinLimits(
      c: Config, ls: seq<Label>, delay: nat, deadline: nat, key: Key, i: nat, j: nat, d: nat)
    requires ValidConfig(c) && QuickRun(c, ls, delay) && LoadLimit(c, c.ttl + 2 * delay) <= c.maxEntries
    requires PromptRun(c, ls, deadline) && deadline < c.ttl
    requires i < j < Length(LogOf(c, ls)) && Grants(At(LogOf(c, ls), i), key)
    requires At(LogOf(c, ls), j).Answered? && At(LogOf(c, ls), j).key == key
    requires At(LogOf(c, ls), j).at < At(LogOf(c, ls), i).at + c.ttl && d < j
    ensures At(LogOf(c, ls), d).Committed? && At(LogOf(c, ls), d).req == At(LogOf(c, ls), i).req ==>
              At(LogOf(c, ls), j).status == Cached(At(LogOf(c, ls), d).sent)
    ensures (forall m :: 0 <= m < j ==>
               !(At(LogOf(c, ls), m).Committed? && At(LogOf(c, ls), m).req == At(LogOf(c, ls), i).req)) ==>
              At(LogOf(c, ls), j).status == InFlight
  {
    var h := LogOf(c, ls);
    NeverFullWithinLimits(c, ls, delay);
    NotRemoved(h, key, i, j);
    NobodyDisturbs(h, key, i, deadline);
    NoGrantsUntil(c, ls, delay, key, i, j);
    RepeatsAreDetermined(c, ls, deadline, key, i, j, d);
  }
}
