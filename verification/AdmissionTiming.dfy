/**
 * Runs in which every owner commits or is dropped within `deadline` of its reservation, with
 * `deadline` below the time to live: completions land on their own entries, and every repeated request is
 * answered with what the owner of its key has sent.
 */
module AdmissionTiming {
  import opened Common
  import opened Idempotency
  import opened Admission
  import opened AdmissionHistory
  import opened AdmissionInvariant
  import opened AdmissionTheorems

  /** No owner has been at work for longer than `deadline`. */
  ghost predicate Prompt(s: State, deadline: nat) {
    forall r :: r in s.handlers && Owner(s.handlers[r].pc) ==> s.now <= s.handlers[r].since + deadline
  }

  /** Every state of the run is prompt. */
  ghost predicate PromptRun(c: Config, ls: seq<Label>, deadline: nat) {
    && Exec(c, ls).Some? && Prompt(Exec(c, ls).value, deadline)
    && (ls != [] ==> PromptRun(c, ls[..|ls| - 1], deadline))
  }

  /**
   * The first instant at which no request that lost the key to a Full-branch removal can still be at work
   * on it, if every owner finishes within `deadline`.
   */
  function FreeFrom(h: History, key: Key, deadline: nat): nat {
    match h
    case Start => 0
    case Then(past, FullRemoved(_, k)) =>
      var before := FreeFrom(past, key, deadline);
      if k != key || Claim(past, key).None? || Claim(past, key).value.at + deadline < before then before
      else Claim(past, key).value.at + deadline + 1
    case Then(past, _) => FreeFrom(past, key, deadline)
  }

  /** The key is held, by a grant made when nobody who had lost the key could still be at work on it. */
  predicate Clean(h: History, key: Key, deadline: nat) {
    Claim(h, key).Some? && FreeFrom(h, key, deadline) <= Claim(h, key).value.at
  }

  /** Whoever commits under a clean key is the request that holds it. */
  ghost predicate OwnCommits(h: History, deadline: nat) {
    h.Then? ==>
      && OwnCommits(h.past, deadline)
      && (h.last.Committed? && Clean(h.past, h.last.key, deadline) ==>
            Claim(h.past, h.last.key).value.req == h.last.req)
  }

  /** A working owner holds its key, or lost it so that the key is not free before its own deadline. */
  ghost predicate OwnerHolds(s: State, r: ReqId, deadline: nat)
    requires r in s.handlers
  {
    var h := s.handlers[r];
    Owner(h.pc) ==>
      Claim(s.log, h.key) == Some(Grant(r, h.since)) || h.since + deadline < FreeFrom(s.log, h.key, deadline)
  }

  ghost predicate TimedInv(c: Config, s: State, deadline: nat) {
    && Inv(c, s) && OwnCommits(s.log, deadline)
    && forall r :: r in s.handlers ==> OwnerHolds(s, r, deadline)
  }

  lemma {:induction false} ClaimIsGrant(c: Config, h: History, k: Key)
    requires Legal(c, h) && Claim(h, k).Some?
    ensures RecordOf(h, Claim(h, k).value.req).grant == Some((k, Claim(h, k).value.at))
    ensures RecordOf(h, Claim(h, k).value.req).answered
  {
    if !(Grants(h.last, k)) {
      ClaimIsGrant(c, h.past, k);
    }
    AnsweredFirst(c, h, Claim(h, k).value.req);
  }

  lemma {:induction false} AnsweredFirst(c: Config, h: History, r: ReqId)
    requires Legal(c, h)
    ensures RecordOf(h, r).grant.Some? ==> RecordOf(h, r).answered
    ensures RecordOf(h, r).committed.Some? ==> RecordOf(h, r).grant.Some?
  {
    if h.Then? {
      AnsweredFirst(c, h.past, r);
    }
  }

  /** Ownership shows in the record: a handler is past the idempotency check exactly when it has a grant. */
  lemma OwnerHasGrant(c: Config, s: State, r: ReqId)
    requires r in s.handlers && HandlerOk(c, s, r)
    ensures Owner(s.handlers[r].pc) <==> RecordOf(s.log, r).grant.Some?
    ensures Owner(s.handlers[r].pc) ==>
              && RecordOf(s.log, r).grant.value == (s.handlers[r].key, s.handlers[r].since)
              && RecordOf(s.log, r).committed.None?
  {
  }

  /** A prompt owner of a clean key holds it. */
  lemma CleanIsHeld(c: Config, s: State, r: ReqId, deadline: nat)
    requires CacheOk(c, s) && Prompt(s, deadline) && r in s.handlers && OwnerHolds(s, r, deadline)
    requires Owner(s.handlers[r].pc) && Clean(s.log, s.handlers[r].key, deadline)
    ensures Claim(s.log, s.handlers[r].key) == Some(Grant(r, s.handlers[r].since))
  {
  }

  lemma OwnCommitsKept(c: Config, s: State, s': State, id: ReqId, e: Option<Event>, deadline: nat)
    requires TimedInv(c, s, deadline) && Prompt(s, deadline)
    requires Effect(c, s, s', e) && OwnStep(c, s, s', id, e)
    ensures OwnCommits(s'.log, deadline)
  {
    if e.Some? && e.value.Committed? && Clean(s.log, e.value.key, deadline) {
      assert HandlerOk(c, s, id) && OwnerHolds(s, id, deadline);
      OwnerHasGrant(c, s, id);
      CleanIsHeld(c, s, id, deadline);
    }
  }

  lemma OwnersKept(c: Config, s: State, s': State, id: ReqId, e: Option<Event>, deadline: nat, r: ReqId)
    requires CacheOk(c, s) && Prompt(s, deadline) && deadline < c.ttl
    requires Effect(c, s, s', e) && OwnStep(c, s, s', id, e)
    requires r in s'.handlers && HandlerOk(c, s', r)
    requires r in s.handlers && HandlerOk(c, s, r) && OwnerHolds(s, r, deadline)
    ensures OwnerHolds(s', r, deadline)
  {
    OwnerHasGrant(c, s, r);
    OwnerHasGrant(c, s', r);
  }

  lemma ActTimed(c: Config, s: State, s': State, id: ReqId, deadline: nat)
    requires TimedInv(c, s, deadline) && Prompt(s, deadline) && deadline < c.ttl
    requires Sound(c, s, s', id) && HandlersOk(c, s')
    ensures OwnCommits(s'.log, deadline)
    ensures forall r :: r in s'.handlers ==> OwnerHolds(s', r, deadline)
  {
    var e :| Effect(c, s, s', e) && OwnStep(c, s, s', id, e);
    OwnCommitsKept(c, s, s', id, e, deadline);
    forall r | r in s'.handlers ensures OwnerHolds(s', r, deadline) {
      assert HandlerOk(c, s, r) && OwnerHolds(s, r, deadline);
      OwnersKept(c, s, s', id, e, deadline, r);
    }
  }

  /** Time passing, a request arriving and a bare rate check leave owners and commits alone. */
  lemma EnvironmentTimed(c: Config, s: State, s': State, deadline: nat)
    requires TimedInv(c, s, deadline)
    requires s'.log == s.log || (s'.log.Then? && s'.log.past == s.log && s'.log.last.Limited?)
    requires forall r :: r in s'.handlers && Owner(s'.handlers[r].pc) ==>
               r in s.handlers && s'.handlers[r] == s.handlers[r]
    ensures OwnCommits(s'.log, deadline)
    ensures forall r :: r in s'.handlers ==> OwnerHolds(s', r, deadline)
  {
    forall r | r in s'.handlers ensures OwnerHolds(s', r, deadline) {
      assert r in s.handlers ==> OwnerHolds(s, r, deadline);
    }
  }

  lemma EnvironmentShape(c: Config, s: State, l: Label)
    requires HandlersOk(c, s) && (l.Tick? || l.Arrive? || l.ArriveKeyless?) && Apply(c, s, l).Some?
    ensures var s' := Apply(c, s, l).value;
            && (s'.log == s.log || (s'.log.Then? && s'.log.past == s.log && s'.log.last.Limited?))
            && forall r :: r in s'.handlers && Owner(s'.handlers[r].pc) ==>
                 r in s.handlers && s'.handlers[r] == s.handlers[r]
  {
  }

  lemma TimedStep(c: Config, s: State, l: Label, deadline: nat)
    requires TimedInv(c, s, deadline) && Prompt(s, deadline) && deadline < c.ttl && Apply(c, s, l).Some?
    requires Inv(c, Apply(c, s, l).value)
    ensures TimedInv(c, Apply(c, s, l).value, deadline)
  {
    if l.Tick? || l.Arrive? || l.ArriveKeyless? {
      EnvironmentShape(c, s, l);
      EnvironmentTimed(c, s, Apply(c, s, l).value, deadline);
    } else {
      ActSound(c, s, l.id, l);
      ActTimed(c, s, Act(c, s, l.id, l).value, l.id, deadline);
    }
  }

  /** In every run whose owners are prompt, whoever commits under a clean key holds it. */
  lemma {:induction false} TimedRun(c: Config, ls: seq<Label>, deadline: nat)
    requires ValidConfig(c) && PromptRun(c, ls, deadline) && deadline < c.ttl
    ensures TimedInv(c, Exec(c, ls).value, deadline)
  {
    RunInvariant(c, ls);
    if ls != [] {
      TimedRun(c, ls[..|ls| - 1], deadline);
      TimedStep(c, Exec(c, ls[..|ls| - 1]).value, ls[|ls| - 1], deadline);
    }
  }

  // ---- What the timing adds to the history -----------------------------------------------------

  /** Under a clean key what was committed since the grant is what the request holding it committed. */
  lemma {:induction false} CleanCommitIsOwn(c: Config, h: History, key: Key, deadline: nat)
    requires Legal(c, h) && OwnCommits(h, deadline) && Clean(h, key, deadline)
    ensures LastCommit(h, key) == RecordOf(h, Claim(h, key).value.req).committed
  {
    if Grants(h.last, key) {
      AnsweredFirst(c, h.past, h.last.req);
    } else {
      CleanCommitIsOwn(c, h.past, key, deadline);
      ClaimIsGrant(c, h.past, key);
    }
  }

  /** Every request that held the key before position `p` and lost it to a removal was granted it more than
      `deadline` before the grant at `p`. */
  ghost predicate Undisturbed(h: History, key: Key, p: nat, deadline: nat)
    requires p < Length(h) && Grants(At(h, p), key)
  {
    forall g, m :: 0 <= g < m < p && Grants(At(h, g), key) && Removes(At(h, m), key) ==>
                     At(h, g).at + deadline < At(h, p).at
  }

  /** `FreeFrom` is the latest of the deadlines of those who lost the key. */
  lemma {:induction false} FreeFromByPosition(h: History, key: Key, deadline: nat, bound: nat)
    requires forall g, m :: 0 <= g < m < Length(h) && Grants(At(h, g), key) && Removes(At(h, m), key) ==>
                              At(h, g).at + deadline < bound
    ensures FreeFrom(h, key, deadline) <= bound
  {
    if h.Then? {
      assert forall m :: 0 <= m < Length(h.past) ==> At(h, m) == At(h.past, m);
      assert At(h, Length(h.past)) == h.last;
      FreeFromByPosition(h.past, key, deadline, bound);
      if Removes(h.last, key) && Claim(h.past, key).Some? {
        var g := ClaimPosition(h.past, key);
        assert Grants(At(h, g), key) && Removes(At(h, Length(h.past)), key);
      }
    }
  }

  lemma {:induction false} FreeFromStays(h: History, key: Key, deadline: nat, p: nat)
    requires p < Length(h) && !RemovedBetween(h, key, p, Length(h)) && Grants(At(h, p), key)
    ensures FreeFrom(h, key, deadline) == FreeFrom(Upto(h, p), key, deadline)
  {
    if p < Length(h.past) {
      assert forall m :: p < m < Length(h.past) ==> At(h, m) == At(h.past, m);
      assert !Removes(At(h, Length(h.past)), key);
      FreeFromStays(h.past, key, deadline, p);
    } else {
      AtUpto(h, p);
      assert Upto(h, p) == h.past;
    }
  }

  /** An undisturbed grant that no removal has followed leaves its key clean. */
  lemma UndisturbedIsClean(h: History, key: Key, p: nat, deadline: nat)
    requires p < Length(h) && Grants(At(h, p), key) && !RemovedBetween(h, key, p, Length(h))
    requires Undisturbed(h, key, p, deadline) && Claim(h, key) == Some(Grant(At(h, p).req, At(h, p).at))
    ensures Clean(h, key, deadline)
  {
    AtUpto(h, p);
    FreeFromStays(h, key, deadline, p);
    FreeFromByPosition(Upto(h, p), key, deadline, At(h, p).at);
  }

  /** An undisturbed owner that has not committed holds a key under which nothing has been committed. */
  lemma NothingCommitted(c: Config, s: State, r: ReqId, p: nat, deadline: nat)
    requires TimedInv(c, s, deadline) && r in s.handlers && Owner(s.handlers[r].pc)
    requires var h := s.handlers[r];
             && p < Length(s.log) && At(s.log, p) == Answered(r, h.key, h.since, New)
             && !RemovedBetween(s.log, h.key, p, Length(s.log)) && Undisturbed(s.log, h.key, p, deadline)
             && Claim(s.log, h.key) == Some(Grant(r, h.since))
    ensures LastCommit(s.log, s.handlers[r].key).None?
  {
    assert HandlerOk(c, s, r);
    OwnerHasGrant(c, s, r);
    UndisturbedIsClean(s.log, s.handlers[r].key, p, deadline);
    CleanCommitIsOwn(c, s.log, s.handlers[r].key, deadline);
  }

  // ---- Theorems --------------------------------------------------------------------------------

  /**
   * A completion writes the entry its own request reserved, at `p`: unless a Full-branch removal has
   * followed, the entry is present, still in flight, and carries the instant of that reservation.
   * Earlier removals do not matter, once those who lost the key by them have outlived their deadline.
   */
  lemma CompletionFindsOwnEntry(c: Config, ls: seq<Label>, deadline: nat, r: ReqId, p: nat)
    requires ValidConfig(c) && PromptRun(c, ls, deadline) && deadline < c.ttl
    requires r in Exec(c, ls).value.handlers && Exec(c, ls).value.handlers[r].pc.AtCommit?
    requires var s := Exec(c, ls).value;
             var h := s.handlers[r];
             && p < Length(s.log) && At(s.log, p) == Answered(r, h.key, h.since, New)
             && !RemovedBetween(s.log, h.key, p, Length(s.log)) && Undisturbed(s.log, h.key, p, deadline)
    ensures var s := Exec(c, ls).value;
            var h := s.handlers[r];
            && h.key in s.cache && s.cache[h.key] == Entry(None, h.since, true)
            && Claim(s.log, h.key) == Some(Grant(r, h.since))
  {
    TimedRun(c, ls, deadline);
    OwnersKeepTheirEntry(c, ls, r, p);
    NothingCommitted(c, Exec(c, ls).value, r, p, deadline);
  }

  lemma {:induction false} CommittedAt(c: Config, h: History, r: ReqId, i: nat)
    requires Legal(c, h) && i < Length(h) && At(h, i).Committed? && At(h, i).req == r
    ensures RecordOf(h, r).committed == Some(At(h, i).cached)
  {
    if i < Length(h.past) {
      CommittedAt(c, h.past, r, i);
    }
  }

  lemma {:induction false} UncommittedByPosition(h: History, r: ReqId)
    requires forall m :: 0 <= m < Length(h) ==> !(At(h, m).Committed? && At(h, m).req == r)
    ensures RecordOf(h, r).committed.None?
  {
    if h.Then? {
      assert forall m :: 0 <= m < Length(h.past) ==> At(h, m) == At(h.past, m);
      assert At(h, Length(h.past)) == h.last;
      UncommittedByPosition(h.past, r);
    }
  }

  lemma {:induction false} OwnCommitsUpto(h: History, deadline: nat, n: nat)
    requires OwnCommits(h, deadline) && n <= Length(h)
    ensures OwnCommits(Upto(h, n), deadline)
  {
    if n < Length(h) {
      OwnCommitsUpto(h.past, deadline, n);
    }
  }

  /** What a repeat recalls is what the owner has committed. */
  lemma RecalledIsOwn(c: Config, h: History, key: Key, i: nat, deadline: nat)
    requires Legal(c, h) && OwnCommits(h, deadline) && i < Length(h) && Grants(At(h, i), key)
    requires NoGrantBetween(h, key, i, Length(h)) && !RemovedBetween(h, key, i, Length(h))
    requires Undisturbed(h, key, i, deadline)
    ensures LastCommit(h, key) == RecordOf(h, At(h, i).req).committed
  {
    ClaimAfterLatest(h, key, i);
    UndisturbedIsClean(h, key, i, deadline);
    CleanCommitIsOwn(c, h, key, deadline);
  }

  lemma UndisturbedUpto(h: History, key: Key, i: nat, j: nat, deadline: nat)
    requires i < j <= Length(h) && Grants(At(h, i), key) && Undisturbed(h, key, i, deadline)
    ensures Length(Upto(h, j)) == j && Grants(At(Upto(h, j), i), key) && Undisturbed(Upto(h, j), key, i, deadline)
  {
    AtUpto(h, j);
    assert forall m :: 0 <= m < j ==> At(Upto(h, j), m) == At(h, m);
  }

  /**
   * The answer to a repeat, determined by the history. `i` is the latest grant of the key before the
   * answer `j`, still alive, undisturbed, and not followed by a Full-branch removal: if its request has
   * committed at `d`, the repeat replays exactly the body that request sent; if it has not committed, the
   * repeat is told the key is in flight.
   */
  lemma RepeatsAreDetermined(c: Config, ls: seq<Label>, deadline: nat, key: Key, i: nat, j: nat, d: nat)
    requires ValidConfig(c) && PromptRun(c, ls, deadline) && deadline < c.ttl
    requires i < j < Length(LogOf(c, ls)) && Grants(At(LogOf(c, ls), i), key)
    requires At(LogOf(c, ls), j).Answered? && At(LogOf(c, ls), j).key == key
    requires At(LogOf(c, ls), j).at < At(LogOf(c, ls), i).at + c.ttl
    requires NoGrantBetween(LogOf(c, ls), key, i, j) && !RemovedBetween(LogOf(c, ls), key, i, j)
    requires Undisturbed(LogOf(c, ls), key, i, deadline)
    ensures d < j && At(LogOf(c, ls), d).Committed? && At(LogOf(c, ls), d).req == At(LogOf(c, ls), i).req ==>
              At(LogOf(c, ls), j).status == Cached(At(LogOf(c, ls), d).sent)
    ensures (forall m :: 0 <= m < j ==>
               !(At(LogOf(c, ls), m).Committed? && At(LogOf(c, ls), m).req == At(LogOf(c, ls), i).req)) ==>
              At(LogOf(c, ls), j).status == InFlight
  {
    var h := LogOf(c, ls);
    var past, r := Upto(h, j), At(h, i).req;
    TimedRun(c, ls, deadline);
    RunLegal(c, ls);
    AnswerAfterLatest(c, h, key, i, j);
    LegalAt(c, h, j);
    OwnCommitsUpto(h, deadline, j);
    BetweenUpto(h, key, i, j);
    UndisturbedUpto(h, key, i, j, deadline);
    AtUpto(h, j);
    RecalledIsOwn(c, past, key, i, deadline);
    if d < j && At(h, d).Committed? && At(h, d).req == r {
      CommittedAt(c, past, r, d);
      CommitsWhatItSends(c, ls, d);
    }
    if forall m :: 0 <= m < j ==> !(At(h, m).Committed? && At(h, m).req == r) {
      UncommittedByPosition(past, r);
    }
  }
}
