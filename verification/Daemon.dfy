/** The protocol's theorems for the daemon as configured: every condition on the configuration is discharged. */
module Daemon {
  import opened Common
  import opened Idempotency
  import opened Admission
  import opened AdmissionHistory
  import opened AdmissionTheorems
  import opened AdmissionTiming
  import opened AdmissionSize
  import opened AdmissionLoad
  import opened AdmissionRoom
  import Race = AdmissionRace
  import C = Config
  import R = RateLimit

  /** For every accepted configuration and every interleaving: the cache stays within 10 007 entries, and
      an agent reserves no more units, and starts no more actions, than its capacity. */
  lemma BoundsOfLoaded(l: C.Loaded, ls: seq<Label>, agent: AgentId)
    requires C.Sound(l) && Exec(C.AdmissionConfig(l), ls).Some? && agent in l.agents
    ensures |Exec(C.AdmissionConfig(l), ls).value.cache| <= 10_007
    ensures agent in Exec(C.AdmissionConfig(l), ls).value.used
    ensures Exec(C.AdmissionConfig(l), ls).value.used[agent] <= l.agents[agent].maxCapacity
    ensures Actuations(LogOf(C.AdmissionConfig(l), ls), agent) + |Waiting(LogOf(C.AdmissionConfig(l), ls), agent)|
            <= l.agents[agent].maxCapacity
  {
    var c := C.AdmissionConfig(l);
    C.LoadedIsValid(l);
    CacheBound(c, ls);
    assert agent in c.agents;
    RunCapacity(c, ls, agent);
    LifetimeBound(c, ls, agent);
  }

  /**
   * Within the 30 second deadline a completion writes the entry its own request reserved, at `p`, unless a
   * Full-branch removal has followed: 300 seconds are long enough for no other request to have taken the
   * key, and earlier removals are forgotten after 30.
   */
  lemma CompletionOfLoaded(l: C.Loaded, ls: seq<Label>, r: ReqId, p: nat)
    requires C.Sound(l) && PromptRun(C.AdmissionConfig(l), ls, 30_000_000_000)
    requires var s := Exec(C.AdmissionConfig(l), ls).value;
             && r in s.handlers && s.handlers[r].pc.AtCommit? && p < Length(s.log)
             && At(s.log, p) == Answered(r, s.handlers[r].key, s.handlers[r].since, New)
             && !RemovedBetween(s.log, s.handlers[r].key, p, Length(s.log))
             && Undisturbed(s.log, s.handlers[r].key, p, 30_000_000_000)
    ensures var s := Exec(C.AdmissionConfig(l), ls).value;
            var h := s.handlers[r];
            && h.key in s.cache && s.cache[h.key] == Entry(None, h.since, true)
            && Claim(s.log, h.key) == Some(Grant(r, h.since))
  {
    C.LoadedIsValid(l);
    CompletionFindsOwnEntry(C.AdmissionConfig(l), ls, C.REQUEST_TIMEOUT, r, p);
  }

  // ---- Configurations that exclude the race ----------------------------------------------------

  /** All agents together may call no oftener than the cache has entries, in a time to live and twice the
      request deadline. */
  ghost predicate RatesFit(l: C.Loaded)
    requires C.Sound(l)
  {
    C.LoadedIsValid(l);
    LoadLimit(C.AdmissionConfig(l), C.CACHE_TTL + 2 * C.REQUEST_TIMEOUT) <= C.CACHE_ENTRIES
  }

  /** Then no request is ever turned away as `Full`. */
  lemma NeverFullWithinRates(l: C.Loaded, ls: seq<Label>)
    requires C.Sound(l) && RatesFit(l) && QuickRun(C.AdmissionConfig(l), ls, 30_000_000_000)
    ensures NoFull(LogOf(C.AdmissionConfig(l), ls))
  {
    C.LoadedIsValid(l);
    NeverFullWithinLimits(C.AdmissionConfig(l), ls, C.REQUEST_TIMEOUT);
  }

  /** And a key is granted at most once in a time to live. */
  lemma OwnershipWithinRates(l: C.Loaded, ls: seq<Label>, key: Key, i: nat, j: nat)
    requires C.Sound(l) && RatesFit(l) && QuickRun(C.AdmissionConfig(l), ls, 30_000_000_000)
    requires var h := LogOf(C.AdmissionConfig(l), ls);
             i < j < Length(h) && Grants(At(h, i), key) && Grants(At(h, j), key)
    ensures var h := LogOf(C.AdmissionConfig(l), ls);
            At(h, i).at + 300_000_000_000 <= At(h, j).at
  {
    C.LoadedIsValid(l);
    SingleOwnershipWithinLimits(C.AdmissionConfig(l), ls, C.REQUEST_TIMEOUT, key, i, j);
  }

  /** And every completion within the deadline writes the entry its own request reserved. */
  lemma CompletionWithinRates(l: C.Loaded, ls: seq<Label>, r: ReqId)
    requires C.Sound(l) && RatesFit(l) && QuickRun(C.AdmissionConfig(l), ls, 30_000_000_000)
    requires PromptRun(C.AdmissionConfig(l), ls, 30_000_000_000)
    requires var s := Exec(C.AdmissionConfig(l), ls).value; r in s.handlers && s.handlers[r].pc.AtCommit?
    ensures var s := Exec(C.AdmissionConfig(l), ls).value;
            var h := s.handlers[r];
            h.key in s.cache && s.cache[h.key] == Entry(None, h.since, true)
  {
    C.LoadedIsValid(l);
    CompletionWithinLimits(C.AdmissionConfig(l), ls, C.REQUEST_TIMEOUT, C.REQUEST_TIMEOUT, r);
  }

  /** Twenty agents with the default rate limit, or a stricter one, are few enough. */
  lemma DefaultRatesFit(l: C.Loaded)
    requires C.Sound(l) && |l.agents| <= 20
    requires forall id :: id in l.agents ==> l.agents[id].rateMax <= 60 && l.agents[id].rateSecs >= 60
    ensures RatesFit(l)
  {
    var c := C.AdmissionConfig(l);
    C.LoadedIsValid(l);
    forall a | a in c.agents
      ensures R.IntervalLimit(C.CACHE_TTL + 2 * C.REQUEST_TIMEOUT, c.agents[a].rateMax, c.agents[a].rateSecs) <= 480
    {
      SixWindows(c.agents[a].rateMax, c.agents[a].rateSecs);
    }
    LoadLimitBound(c, C.CACHE_TTL + 2 * C.REQUEST_TIMEOUT, 480);
    assert c.agents.Keys == l.agents.Keys && |c.agents| == |c.agents.Keys| && |l.agents| == |l.agents.Keys|;
  }

  lemma SixWindows(max: nat, secs: nat)
    requires max <= 60 && secs >= 60
    ensures R.IntervalLimit(C.CACHE_TTL + 2 * C.REQUEST_TIMEOUT, max, secs) <= 480
  {
    var windows, width := (C.CACHE_TTL + 2 * C.REQUEST_TIMEOUT) / (secs * R.SECOND), secs * R.SECOND;
    R.MulMonotone(7, windows, width);
    R.MulMonotone(60, secs, R.SECOND);
    assert windows * width <= C.CACHE_TTL + 2 * C.REQUEST_TIMEOUT;
    assert windows <= 6;
    R.MulMonotone(windows + 2, 8, max);
  }

  // ---- One that does not -------------------------------------------------------------------------

  /** The only agent of a configuration whose rate limit lets it fill the cache. */
  const EAGER := C.RawAgent(Race.A, 1, C.CACHE_ENTRIES + 3, C.CACHE_TTL + 1, None, map[])

  lemma EagerLoads(slime: C.RawSlime, unicode: char -> bool)
    ensures C.Loadable(Some([EAGER]), slime, {}, unicode)
  {
    assert [EAGER][0].domains == map[];
  }

  lemma EagerIsRoomy(l: C.Loaded)
    requires C.Sound(l) && l.mapping == map[] && C.AgentsOf([EAGER], 1, l.agents)
    ensures C.AdmissionConfig(l) == Race.Roomy(Race.Setting(C.CACHE_ENTRIES, C.CACHE_TTL, C.CONCURRENCY))
  {
    assert [EAGER][0].id in l.agents;
    forall id | id in l.agents ensures id == Race.A {
      assert C.IdOf([EAGER], 1, id);
    }
    var a := l.agents[Race.A];
    C.DomainsAreNamed(EAGER.domains, a.policies);
    assert a.policies == map[] && l.agents == map[Race.A := a];
    assert |l.agents.Keys| == 1;
  }

  /**
   * The race is open to the daemon with its own constants. The configuration is loaded from one agent file;
   * it has a run, all of whose owners are prompt, in which a key is granted twice at one instant and the
   * first owner's answer is found in the second owner's entry.
   */
  method RaceOfLoaded(slime: C.RawSlime, unicode: char -> bool)
    returns (l: C.Loaded, ghost ls: seq<Label>, ghost s: State, ghost i: nat, ghost j: nat, ghost r: ReqId)
    requires slime.maxCapacity.Some? ==> slime.maxCapacity.value <= U64_MAX
    ensures C.Loadable(Some([EAGER]), slime, l.mapping.Values, unicode)
    ensures C.Sound(l) && C.AgentsOf([EAGER], 1, l.agents)
    ensures PromptRun(C.AdmissionConfig(l), ls, 30_000_000_000) && Exec(C.AdmissionConfig(l), ls) == Some(s)
    ensures DoublyOwned(s, i, j, r)
  {
    EagerLoads(slime, unicode);
    var loaded := C.Load(Some([EAGER]), slime, map[], unicode);
    l := loaded.value;
    ls, s, i, j, r := EagerRaces(l);
  }

  /** The key is granted at `i` and at `j`, both now, and the second owner, about to commit, finds a result in
      its entry. */
  ghost predicate DoublyOwned(s: State, i: nat, j: nat, r: ReqId) {
    && i < j < Length(s.log) && r in s.handlers && s.handlers[r].pc.AtCommit? && r >= 1
    && At(s.log, i) == Answered(r - 1, s.handlers[r].key, s.now, New)
    && At(s.log, j) == Answered(r, s.handlers[r].key, s.now, New)
    && s.handlers[r].key in s.cache && s.cache[s.handlers[r].key].result.Some?
  }

  lemma EagerRaces(l: C.Loaded) returns (ls: seq<Label>, s: State, i: nat, j: nat, r: ReqId)
    requires C.Sound(l) && l.mapping == map[] && C.AgentsOf([EAGER], 1, l.agents)
    ensures PromptRun(C.AdmissionConfig(l), ls, 30_000_000_000) && Exec(C.AdmissionConfig(l), ls) == Some(s)
    ensures DoublyOwned(s, i, j, r)
  {
    var g := Race.Setting(C.CACHE_ENTRIES, C.CACHE_TTL, C.CONCURRENCY);
    EagerIsRoomy(l);
    ls, s, i, j, r := Race.FullBranchRemovalRace(g);
    PromptLonger(C.AdmissionConfig(l), ls, 0, C.REQUEST_TIMEOUT);
  }

  lemma {:induction false} PromptLonger(c: Config, ls: seq<Label>, deadline: nat, longer: nat)
    requires PromptRun(c, ls, deadline) && deadline <= longer
    ensures PromptRun(c, ls, longer)
  {
    if ls != [] {
      PromptLonger(c, ls[..|ls| - 1], deadline, longer);
    }
  }
}
