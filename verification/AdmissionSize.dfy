/** The size of the cache, although the size test is made before the entry lock is taken. */
module AdmissionSize {
  import opened Idempotency
  import opened Admission
  import opened AdmissionInvariant

  /** Handlers holding an answer "not full" that may be out of date. */
  ghost function Cleared(s: State): set<ReqId> {
    set r | r in s.handlers && s.handlers[r].pc == AtEntry(false)
  }

  ghost predicate SizeOk(c: Config, s: State) {
    |s.cache| + |Cleared(s)| <= c.maxEntries + c.threads - 1
  }

  /** No new entry, and no new handler with a size test behind it. */
  ghost predicate Calm(s: State, s': State, id: ReqId) {
    && s'.cache.Keys <= s.cache.Keys
    && s'.handlers.Keys <= s.handlers.Keys
    && (forall r :: r in s'.handlers && r != id ==> s'.handlers[r] == s.handlers[r])
    && (id in s'.handlers ==> s'.handlers[id].pc != AtEntry(false))
  }

  lemma CalmKeepsSize(c: Config, s: State, s': State, id: ReqId)
    requires SizeOk(c, s) && Calm(s, s', id)
    ensures SizeOk(c, s')
  {
    CardinalitySubset(s'.cache.Keys, s.cache.Keys);
    assert |s'.cache.Keys| == |s'.cache| && |s.cache.Keys| == |s.cache|;
    CardinalitySubset(Cleared(s'), Cleared(s));
  }

  lemma PrepareCalm(c: Config, s: State, id: ReqId, l: Label)
    requires id in s.handlers && PrepareAct(c, s, id, l).Some?
    ensures Calm(s, PrepareAct(c, s, id, l).value, id)
  {
  }

  lemma OutcomeCalm(c: Config, s: State, id: ReqId, l: Label)
    requires id in s.handlers && OutcomeAct(c, s, id, l).Some?
    ensures Calm(s, OutcomeAct(c, s, id, l).value, id)
  {
  }

  lemma PolicyCalm(c: Config, s: State, id: ReqId, l: Label)
    requires id in s.handlers && PolicyAct(c, s, id, l).Some?
    ensures Calm(s, PolicyAct(c, s, id, l).value, id)
  {
  }

  lemma ReserveCalm(c: Config, s: State, id: ReqId, l: Label)
    requires id in s.handlers && ReserveAct(c, s, id, l).Some?
    ensures Calm(s, ReserveAct(c, s, id, l).value, id)
  {
  }

  lemma EntryCalm(c: Config, s: State, id: ReqId, l: Label)
    requires id in s.handlers && !l.Lookup? && EntryAct(c, s, id, l).Some?
    ensures Calm(s, EntryAct(c, s, id, l).value, id)
  {
  }

  lemma FrontCalm(c: Config, s: State, id: ReqId, l: Label)
    requires id in s.handlers && !l.Snapshot? && FrontAct(c, s, id, l).Some?
    ensures Calm(s, FrontAct(c, s, id, l).value, id)
  {
  }

  /** The size test passes only below the limit, and at most `threads` handlers hold one. */
  lemma SnapshotKeepsSize(c: Config, s: State, id: ReqId)
    requires SizeOk(c, s) && |s.handlers| <= c.threads && id in s.handlers && s.handlers[id].pc.Purging?
    ensures SizeOk(c, Move(s, id, AtEntry(|s.cache| >= c.maxEntries)))
  {
    var s' := Move(s, id, AtEntry(|s.cache| >= c.maxEntries));
    if |s.cache| >= c.maxEntries {
      CalmKeepsSize(c, s, s', id);
    } else {
      assert s'.handlers.Keys == s.handlers.Keys;
      CardinalitySubset(Cleared(s'), s.handlers.Keys);
    }
  }

  /** Answering adds at most one entry, and none when the size test failed. */
  lemma AnswerGrowth(entries: Entries, k: Key, now: nat, ttl: nat, full: bool)
    ensures |AfterAnswer(entries, k, now, ttl, full)| <= |entries| + if full then 0 else 1
  {
    var after := AfterAnswer(entries, k, now, ttl, full);
    assert after.Keys <= entries.Keys + if full then {} else {k};
    CardinalitySubset(after.Keys, entries.Keys + if full then {} else {k});
    assert |after.Keys| == |after| && |entries.Keys| == |entries|;
  }

  lemma LookupShape(c: Config, s: State, id: ReqId, full: bool)
    requires id in s.handlers && s.handlers[id].pc == AtEntry(full)
    ensures var s' := LookupStep(c, s, id, full);
            && s'.cache == AfterAnswer(s.cache, s.handlers[id].key, s.now, c.ttl, full)
            && Cleared(s') <= Cleared(s) - {id}
  {
  }

  /** An insertion uses up one test. */
  lemma LookupKeepsSize(c: Config, s: State, id: ReqId, full: bool)
    requires SizeOk(c, s) && id in s.handlers && s.handlers[id].pc == AtEntry(full)
    ensures SizeOk(c, LookupStep(c, s, id, full))
  {
    LookupShape(c, s, id, full);
    AnswerGrowth(s.cache, s.handlers[id].key, s.now, c.ttl, full);
    CardinalitySubset(Cleared(LookupStep(c, s, id, full)), Cleared(s) - {id});
    assert full || id in Cleared(s);
  }

  lemma ActKeepsSize(c: Config, s: State, id: ReqId, l: Label)
    requires |s.handlers| <= c.threads && SizeOk(c, s) && id in s.handlers && Act(c, s, id, l).Some?
    ensures SizeOk(c, Act(c, s, id, l).value)
  {
    if l.Lookup? {
      LookupKeepsSize(c, s, id, s.handlers[id].pc.full);
    } else if l.Snapshot? {
      SnapshotKeepsSize(c, s, id);
    } else {
      if l.Parse? || l.Admit? {
        PrepareCalm(c, s, id, l);
      } else if l.Actuate? || l.TimeOut? || l.Count? {
        OutcomeCalm(c, s, id, l);
      } else if l.Police? || l.Peek? {
        PolicyCalm(c, s, id, l);
      } else if l.Load? || l.Exchange? {
        ReserveCalm(c, s, id, l);
      } else if l.RemoveFull? || l.Commit? {
        EntryCalm(c, s, id, l);
      } else {
        FrontCalm(c, s, id, l);
      }
      CalmKeepsSize(c, s, Act(c, s, id, l).value, id);
    }
  }

  lemma StepKeepsSize(c: Config, s: State, l: Label)
    requires |s.handlers| <= c.threads && SizeOk(c, s) && Apply(c, s, l).Some?
    ensures SizeOk(c, Apply(c, s, l).value)
  {
    if l.Tick? || l.Arrive? || l.ArriveKeyless? {
      CardinalitySubset(Cleared(Apply(c, s, l).value), Cleared(s));
    } else {
      ActKeepsSize(c, s, l.id, l);
    }
  }

  lemma {:induction false} RunSize(c: Config, ls: seq<Label>)
    requires ValidConfig(c) && Exec(c, ls).Some?
    ensures SizeOk(c, Exec(c, ls).value)
  {
    if ls != [] {
      RunSize(c, ls[..|ls| - 1]);
      RunInvariant(c, ls[..|ls| - 1]);
      StepKeepsSize(c, Exec(c, ls[..|ls| - 1]).value, ls[|ls| - 1]);
    }
  }

  /** With `threads` concurrent requests the cache never holds more than `maxEntries + threads - 1` entries;
      with a single one, never more than `maxEntries`. */
  lemma CacheBound(c: Config, ls: seq<Label>)
    requires ValidConfig(c) && Exec(c, ls).Some?
    ensures |Exec(c, ls).value.cache| <= c.maxEntries + c.threads - 1
  {
    RunSize(c, ls);
  }
}
