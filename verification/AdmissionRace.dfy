/**
 * The Full branch removes its key after the entry lock has been released. An interleaving, for a cache of
 * any size, in which that removal deletes another request's fresh reservation: the key is granted twice at
 * one instant, and the first owner's answer lands in the second owner's entry.
 */
module AdmissionRace {
  import opened Common
  import opened Errors
  import opened Idempotency
  import opened Admission
  import opened AdmissionHistory
  import opened AdmissionTheorems
  import opened AdmissionTiming
  import R = RateLimit

  const A := "agent"

  /** Cache size, time to live and number of permits. */
  datatype Setting = Setting(entries: nat, ttl: nat, threads: nat)

  /** One agent, with a rate limit that lets it fill the cache and go on. */
  function Roomy(g: Setting): Config {
    Config(map[A := Agent(1, map[], g.entries + 3, g.ttl + 1)], Some(A), map[], g.entries, g.ttl, g.threads)
  }

  predicate Usable(g: Setting) {
    g.entries >= 1 && g.ttl >= 1 && g.threads >= 3
  }

  const BODY := Malformed("")
  const ANSWER := ErrorBody(BAD_REQUEST, InvalidJson(""))

  function Waiting(key: Key, pc: Pc): Handler {
    Handler(A, key, BODY, pc, 0)
  }

  function Owning(key: Key, pc: Pc, since: nat): Handler {
    Handler(A, key, BODY, pc, since)
  }

  datatype View = View(now: nat, next: ReqId, handlers: map<ReqId, Handler>, cache: Entries, calls: nat, log: History)

  function StateOf(v: View): State {
    State(v.now, v.next, v.handlers, v.cache, map[A := 0], map[A := R.Window(0, v.calls)], map[], v.log)
  }

  function Place(v: View, id: ReqId, h: Handler): View {
    v.(handlers := v.handlers[id := h])
  }

  /** `states` are those of the run `ls`; in none of them is an owner seen at a later instant than that of
      its own reservation. */
  ghost predicate IsPath(g: Setting, states: seq<State>, ls: seq<Label>) {
    && |states| == |ls| + 1 && states[0] == Init(Roomy(g))
    && (forall i {:trigger Apply(Roomy(g), states[i], ls[i])} :: 0 <= i < |ls| ==>
          Apply(Roomy(g), states[i], ls[i]) == Some(states[i + 1]))
    && (forall i {:trigger Prompt(states[i], 0)} :: 0 <= i <= |ls| ==> Prompt(states[i], 0))
  }

  /** `ls` is such a run, and ends in the state viewed by `v`. */
  ghost predicate Ends(g: Setting, ls: seq<Label>, v: View) {
    exists states :: IsPath(g, states, ls) && states[|ls|] == StateOf(v)
  }

  lemma Extend(g: Setting, ls: seq<Label>, v: View, l: Label, v': View)
    requires Ends(g, ls, v) && Apply(Roomy(g), StateOf(v), l) == Some(StateOf(v')) && Prompt(StateOf(v'), 0)
    ensures Ends(g, ls + [l], v')
  {
    var states :| IsPath(g, states, ls) && states[|ls|] == StateOf(v);
    PathMore(g, states, ls, l, StateOf(v'));
    assert (states + [StateOf(v')])[|ls + [l]|] == StateOf(v');
  }

  lemma PathMore(g: Setting, states: seq<State>, ls: seq<Label>, l: Label, s: State)
    requires IsPath(g, states, ls) && Apply(Roomy(g), states[|ls|], l) == Some(s) && Prompt(s, 0)
    ensures IsPath(g, states + [s], ls + [l])
  {
    var more, steps := states + [s], ls + [l];
    forall i {:trigger Apply(Roomy(g), more[i], steps[i])} | 0 <= i < |steps|
      ensures Apply(Roomy(g), more[i], steps[i]) == Some(more[i + 1])
    {
      if i < |ls| {
        assert Apply(Roomy(g), states[i], ls[i]) == Some(states[i + 1]);
      }
    }
    forall i {:trigger Prompt(more[i], 0)} | 0 <= i <= |steps| ensures Prompt(more[i], 0) {
      if i <= |ls| {
        assert Prompt(states[i], 0);
      }
    }
  }

  /** A path is a prompt run in the sense of the protocol. */
  lemma {:induction false} PathIsRun(g: Setting, states: seq<State>, ls: seq<Label>)
    requires IsPath(g, states, ls)
    ensures PromptRun(Roomy(g), ls, 0) && Exec(Roomy(g), ls) == Some(states[|ls|])
  {
    assert Prompt(states[|ls|], 0);
    if ls != [] {
      var n := |ls| - 1;
      assert Apply(Roomy(g), states[n], ls[n]) == Some(states[n + 1]);
      PathLess(g, states, ls);
      PathIsRun(g, states[..n + 1], ls[..n]);
    }
  }

  lemma PathLess(g: Setting, states: seq<State>, ls: seq<Label>)
    requires IsPath(g, states, ls) && ls != []
    ensures IsPath(g, states[..|ls|], ls[..|ls| - 1])
  {
    var less, steps := states[..|ls|], ls[..|ls| - 1];
    forall i {:trigger Apply(Roomy(g), less[i], steps[i])} | 0 <= i < |steps|
      ensures Apply(Roomy(g), less[i], steps[i]) == Some(less[i + 1])
    {
      assert Apply(Roomy(g), states[i], ls[i]) == Some(states[i + 1]);
    }
    forall i {:trigger Prompt(less[i], 0)} | 0 <= i <= |steps| ensures Prompt(less[i], 0) {
      assert Prompt(states[i], 0);
    }
  }

  lemma EndsMeans(g: Setting, ls: seq<Label>, v: View)
    requires Ends(g, ls, v)
    ensures PromptRun(Roomy(g), ls, 0) && Exec(Roomy(g), ls) == Some(StateOf(v))
  {
    var states :| IsPath(g, states, ls) && states[|ls|] == StateOf(v);
    PathIsRun(g, states, ls);
  }

  // ---- Single steps ----------------------------------------------------------------------------

  lemma PromptNow(g: Setting, ls: seq<Label>, v: View)
    requires Ends(g, ls, v)
    ensures Prompt(StateOf(v), 0)
  {
    var states :| IsPath(g, states, ls) && states[|ls|] == StateOf(v);
    assert Prompt(states[|ls|], 0);
  }

  /** A handler put where it owns nothing, or owns a key reserved at this instant, keeps the state prompt. */
  lemma PlaceIsPrompt(v: View, v': View, id: ReqId, h: Handler)
    requires Prompt(StateOf(v), 0) && v'.now == v.now && v'.handlers == v.handlers[id := h]
    requires Owner(h.pc) ==> v.now <= h.since
    ensures Prompt(StateOf(v'), 0)
  {
  }

  lemma DoTick(g: Setting, ls: seq<Label>, v: View, elapsed: nat)
    requires Ends(g, ls, v) && forall r :: r in v.handlers ==> !Owner(v.handlers[r].pc)
    ensures Ends(g, ls + [Tick(elapsed)], v.(now := v.now + elapsed))
  {
    Extend(g, ls, v, Tick(elapsed), v.(now := v.now + elapsed));
  }

  function Arrived(v: View, key: Key): View {
    Place(v, v.next, Waiting(key, AtRate)).(next := v.next + 1)
  }

  lemma DoArrive(g: Setting, ls: seq<Label>, v: View, key: Key)
    requires Ends(g, ls, v) && |v.handlers| < g.threads
    ensures Ends(g, ls + [Arrive(Some(A), key, BODY)], Arrived(v, key))
  {
    PromptNow(g, ls, v);
    PlaceIsPrompt(v, Arrived(v, key), v.next, Waiting(key, AtRate));
    Extend(g, ls, v, Arrive(Some(A), key, BODY), Arrived(v, key));
  }

  function Admitted(v: View, id: ReqId, key: Key): View {
    Place(v, id, Waiting(key, AtPurge)).(calls := v.calls + 1, log := Then(v.log, Limited(A, v.now, true)))
  }

  lemma RateIs(g: Setting, v: View, id: ReqId, key: Key)
    requires id in v.handlers && v.handlers[id] == Waiting(key, AtRate) && v.calls < g.entries + 3 && v.now <= g.ttl
    ensures LimitStep(Roomy(g), StateOf(v), id) == StateOf(Admitted(v, id, key))
  {
    assert LimitStep(Roomy(g), StateOf(v), id).windows == map[A := R.Window(0, v.calls + 1)];
  }

  lemma RateStepIs(c: Config, s: State, id: ReqId)
    requires id in s.handlers && s.handlers[id].pc.AtRate?
    requires s.handlers[id].agent in c.agents && s.handlers[id].agent in s.windows
    ensures Apply(c, s, RateCheck(id)) == Some(LimitStep(c, s, id))
  {
  }

  lemma DoRate(g: Setting, ls: seq<Label>, v: View, id: ReqId, key: Key)
    requires Ends(g, ls, v) && id in v.handlers && v.handlers[id] == Waiting(key, AtRate)
    requires v.calls < g.entries + 3 && v.now <= g.ttl
    ensures Ends(g, ls + [RateCheck(id)], Admitted(v, id, key))
  {
    PromptNow(g, ls, v);
    PlaceIsPrompt(v, Admitted(v, id, key), id, Waiting(key, AtPurge));
    RateIs(g, v, id, key);
    RateStepIs(Roomy(g), StateOf(v), id);
    Extend(g, ls, v, RateCheck(id), Admitted(v, id, key));
  }

  lemma DoPurge(g: Setting, ls: seq<Label>, v: View, id: ReqId, key: Key)
    requires Ends(g, ls, v) && id in v.handlers && v.handlers[id] == Waiting(key, AtPurge)
    ensures Ends(g, ls + [PurgeBegin(id)], Place(v, id, Waiting(key, Purging(v.now, v.cache.Keys))))
  {
    var h := Waiting(key, Purging(v.now, v.cache.Keys));
    PromptNow(g, ls, v);
    PlaceIsPrompt(v, Place(v, id, h), id, h);
    Extend(g, ls, v, PurgeBegin(id), Place(v, id, h));
  }

  lemma DoVisit(g: Setting, ls: seq<Label>, v: View, id: ReqId, key: Key, at: nat, todo: set<Key>, k: Key)
    requires Ends(g, ls, v) && id in v.handlers && v.handlers[id] == Waiting(key, Purging(at, todo))
    ensures Ends(g, ls + [PurgeVisit(id, k)],
                 Place(v, id, Waiting(key, Purging(at, todo - {k}))).(cache := Visit(v.cache, k, at, g.ttl)))
  {
    var h := Waiting(key, Purging(at, todo - {k}));
    var v' := Place(v, id, h).(cache := Visit(v.cache, k, at, g.ttl));
    PromptNow(g, ls, v);
    PlaceIsPrompt(v, v', id, h);
    Extend(g, ls, v, PurgeVisit(id, k), v');
  }

  lemma DoSnapshot(g: Setting, ls: seq<Label>, v: View, id: ReqId, key: Key, at: nat)
    requires Ends(g, ls, v) && id in v.handlers && v.handlers[id] == Waiting(key, Purging(at, {}))
    ensures Ends(g, ls + [Snapshot(id)], Place(v, id, Waiting(key, AtEntry(|v.cache| >= g.entries))))
  {
    var h := Waiting(key, AtEntry(|v.cache| >= g.entries));
    PromptNow(g, ls, v);
    PlaceIsPrompt(v, Place(v, id, h), id, h);
    Extend(g, ls, v, Snapshot(id), Place(v, id, h));
  }

  function Granted(v: View, id: ReqId, key: Key): View {
    Place(v, id, Owning(key, AtParse, v.now))
      .(cache := v.cache[key := Reserved(v.now)], log := Then(v.log, Answered(id, key, v.now, New)))
  }

  lemma DoGrant(g: Setting, ls: seq<Label>, v: View, id: ReqId, key: Key)
    requires Ends(g, ls, v) && id in v.handlers && v.handlers[id] == Waiting(key, AtEntry(false)) && key !in v.cache
    ensures Ends(g, ls + [Lookup(id)], Granted(v, id, key))
  {
    PromptNow(g, ls, v);
    PlaceIsPrompt(v, Granted(v, id, key), id, Owning(key, AtParse, v.now));
    Extend(g, ls, v, Lookup(id), Granted(v, id, key));
  }

  lemma DoFull(g: Setting, ls: seq<Label>, v: View, id: ReqId, key: Key)
    requires Ends(g, ls, v) && id in v.handlers && v.handlers[id] == Waiting(key, AtEntry(true)) && key !in v.cache
    ensures Ends(g, ls + [Lookup(id)],
                 Place(v, id, Waiting(key, AtRemove)).(log := Then(v.log, Answered(id, key, v.now, Full))))
  {
    var v' := Place(v, id, Waiting(key, AtRemove)).(log := Then(v.log, Answered(id, key, v.now, Full)));
    PromptNow(g, ls, v);
    PlaceIsPrompt(v, v', id, Waiting(key, AtRemove));
    Extend(g, ls, v, Lookup(id), v');
  }

  function Removed(v: View, id: ReqId, key: Key): View {
    v.(handlers := v.handlers - {id}, cache := v.cache - {key}, log := Then(v.log, FullRemoved(id, key)))
  }

  lemma DoRemove(g: Setting, ls: seq<Label>, v: View, id: ReqId, key: Key)
    requires Ends(g, ls, v) && id in v.handlers && v.handlers[id] == Waiting(key, AtRemove)
    ensures Ends(g, ls + [RemoveFull(id)], Removed(v, id, key))
  {
    PromptNow(g, ls, v);
    Extend(g, ls, v, RemoveFull(id), Removed(v, id, key));
  }

  /** A body that is no JSON is opened and refused in one step. */
  function ParsedOut(v: View, id: ReqId, key: Key): View {
    Place(v, id, Owning(key, AtCommit(ANSWER, ANSWER), v.now)).(log := Then(v.log, Opened(id, BODY)))
  }

  lemma DoParse(g: Setting, ls: seq<Label>, v: View, id: ReqId, key: Key)
    requires Ends(g, ls, v) && id in v.handlers && v.handlers[id] == Owning(key, AtParse, v.now)
    ensures Ends(g, ls + [Parse(id)], ParsedOut(v, id, key))
  {
    PromptNow(g, ls, v);
    PlaceIsPrompt(v, ParsedOut(v, id, key), id, Owning(key, AtCommit(ANSWER, ANSWER), v.now));
    Extend(g, ls, v, Parse(id), ParsedOut(v, id, key));
  }

  function Committed(v: View, id: ReqId, key: Key): View
    requires key in v.cache
  {
    v.(handlers := v.handlers - {id}, cache := v.cache[key := Entry(Some(ANSWER), v.cache[key].createdAt, false)],
       log := Then(v.log, Event.Committed(id, key, ANSWER, ANSWER)))
  }

  lemma DoCommit(g: Setting, ls: seq<Label>, v: View, id: ReqId, key: Key)
    requires Ends(g, ls, v) && id in v.handlers && v.handlers[id] == Owning(key, AtCommit(ANSWER, ANSWER), v.now)
    requires key in v.cache
    ensures Ends(g, ls + [Commit(id)], Committed(v, id, key))
  {
    PromptNow(g, ls, v);
    Extend(g, ls, v, Commit(id), Committed(v, id, key));
  }

  // ---- Whole requests --------------------------------------------------------------------------

  /** The entries left when those of `todo` have been visited. */
  function Swept(entries: Entries, todo: set<Key>, at: nat, ttl: nat): Entries {
    map k | k in entries && !(k in todo && Stale(entries[k], at, ttl)) :: entries[k]
  }

  lemma VisitFirst(entries: Entries, todo: set<Key>, k: Key, at: nat, ttl: nat)
    requires k in todo
    ensures Swept(Visit(entries, k, at, ttl), todo - {k}, at, ttl) == Swept(entries, todo, at, ttl)
  {
  }

  lemma PlaceTwice(v: View, id: ReqId, h: Handler, h': Handler)
    ensures Place(Place(v, id, h), id, h') == Place(v, id, h')
  {
    assert v.handlers[id := h][id := h'] == v.handlers[id := h'];
  }

  lemma {:induction false} PurgeAll(g: Setting, ls: seq<Label>, v: View, id: ReqId, key: Key, at: nat, todo: set<Key>)
    returns (more: seq<Label>)
    requires Ends(g, ls, v) && id in v.handlers && v.handlers[id] == Waiting(key, Purging(at, todo))
    ensures Ends(g, more, Place(v, id, Waiting(key, Purging(at, {}))).(cache := Swept(v.cache, todo, at, g.ttl)))
    decreases todo
  {
    if todo == {} {
      more := ls;
      assert v.handlers[id := v.handlers[id]] == v.handlers;
      assert Swept(v.cache, todo, at, g.ttl) == v.cache;
    } else {
      var k :| k in todo;
      DoVisit(g, ls, v, id, key, at, todo, k);
      var h := Waiting(key, Purging(at, todo - {k}));
      var v1 := Place(v, id, h).(cache := Visit(v.cache, k, at, g.ttl));
      more := PurgeAll(g, ls + [PurgeVisit(id, k)], v1, id, key, at, todo - {k});
      VisitFirst(v.cache, todo, k, at, g.ttl);
      PlaceTwice(v, id, h, Waiting(key, Purging(at, {})));
    }
  }

  /** A request for `key` has arrived, passed the rate check, purged, and taken the size test. */
  function Approached(g: Setting, v: View, key: Key): View {
    var cache := Retained(v.cache, v.now, g.ttl);
    View(v.now, v.next + 1, v.handlers[v.next := Waiting(key, AtEntry(|cache| >= g.entries))], cache, v.calls + 1,
         Then(v.log, Limited(A, v.now, true)))
  }

  lemma EnteredIs(v: View, key: Key)
    ensures Admitted(Arrived(v, key), v.next, key) == Admitted(v, v.next, key).(next := v.next + 1)
  {
    PlaceTwice(v, v.next, Waiting(key, AtRate), Waiting(key, AtPurge));
  }

  lemma Enter(g: Setting, ls: seq<Label>, v: View, key: Key) returns (more: seq<Label>)
    requires Ends(g, ls, v) && |v.handlers| < g.threads && v.calls < g.entries + 3 && v.now <= g.ttl
    ensures Ends(g, more, Admitted(v, v.next, key).(next := v.next + 1))
  {
    DoArrive(g, ls, v, key);
    more := ls + [Arrive(Some(A), key, BODY)];
    DoRate(g, more, Arrived(v, key), v.next, key);
    more := more + [RateCheck(v.next)];
    EnteredIs(v, key);
  }

  lemma Purge(g: Setting, ls: seq<Label>, v: View, id: ReqId, key: Key) returns (more: seq<Label>)
    requires Ends(g, ls, v) && id in v.handlers && v.handlers[id] == Waiting(key, AtPurge)
    ensures Ends(g, more, Place(v, id, Waiting(key, Purging(v.now, {}))).(cache := Retained(v.cache, v.now, g.ttl)))
  {
    var h := Waiting(key, Purging(v.now, v.cache.Keys));
    DoPurge(g, ls, v, id, key);
    more := PurgeAll(g, ls + [PurgeBegin(id)], Place(v, id, h), id, key, v.now, v.cache.Keys);
    PlaceTwice(v, id, h, Waiting(key, Purging(v.now, {})));
    assert Swept(v.cache, v.cache.Keys, v.now, g.ttl) == Retained(v.cache, v.now, g.ttl);
  }

  lemma ApproachedIs(g: Setting, v: View, key: Key)
    ensures var id, cache := v.next, Retained(v.cache, v.now, g.ttl);
            var v1 := Admitted(v, id, key).(next := v.next + 1);
            Place(Place(v1, id, Waiting(key, Purging(v.now, {}))).(cache := cache), id,
                  Waiting(key, AtEntry(|cache| >= g.entries)))
            == Approached(g, v, key)
  {
    var id, cache := v.next, Retained(v.cache, v.now, g.ttl);
    var h := Waiting(key, AtEntry(|cache| >= g.entries));
    assert v.handlers[id := Waiting(key, AtPurge)][id := Waiting(key, Purging(v.now, {}))][id := h]
           == v.handlers[id := h];
  }

  lemma Approach(g: Setting, ls: seq<Label>, v: View, key: Key) returns (more: seq<Label>)
    requires Ends(g, ls, v) && |v.handlers| < g.threads && v.calls < g.entries + 3 && v.now <= g.ttl
    ensures Ends(g, more, Approached(g, v, key))
  {
    var id, v1 := v.next, Admitted(v, v.next, key).(next := v.next + 1);
    more := Enter(g, ls, v, key);
    more := Purge(g, more, v1, id, key);
    ApproachedIs(g, v, key);
    var cache := Retained(v.cache, v.now, g.ttl);
    DoSnapshot(g, more, Place(v1, id, Waiting(key, Purging(v.now, {}))).(cache := cache), id, key, v.now);
    more := more + [Snapshot(id)];
  }

  lemma OwnedIs(g: Setting, v: View, key: Key)
    ensures Granted(Approached(g, v, key), v.next, key) == Owned(g, v, key)
  {
    var h := Waiting(key, AtEntry(|Retained(v.cache, v.now, g.ttl)| >= g.entries));
    var h' := Owning(key, AtParse, v.now);
    assert v.handlers[v.next := h][v.next := h'] == v.handlers[v.next := h'];
  }

  /** A request for a new key is granted. */
  lemma Grant(g: Setting, ls: seq<Label>, v: View, key: Key) returns (more: seq<Label>)
    requires Ends(g, ls, v) && |v.handlers| < g.threads && v.calls < g.entries + 3 && v.now <= g.ttl
    requires key !in v.cache && |Retained(v.cache, v.now, g.ttl)| < g.entries
    ensures Ends(g, more, Owned(g, v, key))
  {
    more := Approach(g, ls, v, key);
    DoGrant(g, more, Approached(g, v, key), v.next, key);
    more := more + [Lookup(v.next)];
    OwnedIs(g, v, key);
  }

  function Owned(g: Setting, v: View, key: Key): View {
    View(v.now, v.next + 1, v.handlers[v.next := Owning(key, AtParse, v.now)],
         Retained(v.cache, v.now, g.ttl)[key := Reserved(v.now)], v.calls + 1,
         Then(Then(v.log, Limited(A, v.now, true)), Answered(v.next, key, v.now, New)))
  }

  /** A request for a new key finds the cache full. */
  lemma Refuse(g: Setting, ls: seq<Label>, v: View, key: Key) returns (more: seq<Label>)
    requires Ends(g, ls, v) && |v.handlers| < g.threads && v.calls < g.entries + 3 && v.now <= g.ttl
    requires key !in v.cache && |Retained(v.cache, v.now, g.ttl)| >= g.entries
    ensures Ends(g, more, Refused(g, v, key))
  {
    more := Approach(g, ls, v, key);
    DoFull(g, more, Approached(g, v, key), v.next, key);
    more := more + [Lookup(v.next)];
    RefusedIs(g, v, key);
  }

  lemma RefusedIs(g: Setting, v: View, key: Key)
    ensures Place(Approached(g, v, key), v.next, Waiting(key, AtRemove))
              .(log := Then(Approached(g, v, key).log, Answered(v.next, key, v.now, Full)))
            == Refused(g, v, key)
  {
    var h := Waiting(key, AtEntry(|Retained(v.cache, v.now, g.ttl)| >= g.entries));
    var h' := Waiting(key, AtRemove);
    assert v.handlers[v.next := h][v.next := h'] == v.handlers[v.next := h'];
  }

  function Refused(g: Setting, v: View, key: Key): View {
    View(v.now, v.next + 1, v.handlers[v.next := Waiting(key, AtRemove)], Retained(v.cache, v.now, g.ttl), v.calls + 1,
         Then(Then(v.log, Limited(A, v.now, true)), Answered(v.next, key, v.now, Full)))
  }

  lemma Wait(g: Setting, ls: seq<Label>, v: View, elapsed: nat) returns (more: seq<Label>)
    requires Ends(g, ls, v) && forall r :: r in v.handlers ==> !Owner(v.handlers[r].pc)
    ensures Ends(g, more, v.(now := v.now + elapsed))
  {
    DoTick(g, ls, v, elapsed);
    more := ls + [Tick(elapsed)];
  }

  function Finished(v: View, id: ReqId, key: Key): View
    requires key in v.cache
  {
    Committed(v.(log := Then(v.log, Opened(id, BODY))), id, key)
  }

  lemma FinishedIs(v: View, id: ReqId, key: Key)
    requires key in v.cache
    ensures Committed(ParsedOut(v, id, key), id, key) == Finished(v, id, key)
  {
    assert v.handlers[id := Owning(key, AtCommit(ANSWER, ANSWER), v.now)] - {id} == v.handlers - {id};
  }

  /** An owner finishes. */
  lemma Finish(g: Setting, ls: seq<Label>, v: View, id: ReqId, key: Key) returns (more: seq<Label>)
    requires Ends(g, ls, v) && id in v.handlers && v.handlers[id] == Owning(key, AtParse, v.now) && key in v.cache
    ensures Ends(g, more, Finished(v, id, key))
  {
    DoParse(g, ls, v, id, key);
    DoCommit(g, ls + [Parse(id)], ParsedOut(v, id, key), id, key);
    more := ls + [Parse(id)] + [Commit(id)];
    FinishedIs(v, id, key);
  }

  // ---- The run ---------------------------------------------------------------------------------

  lemma StartView(g: Setting)
    ensures Ends(g, [], View(0, 0, map[], map[], 0, Start))
  {
    assert IsPath(g, [Init(Roomy(g))], []);
    var c := Roomy(g);
    assert Domains(c) == {};
    assert (map a | a in c.agents :: 0) == map[A := 0];
    assert (map a | a in c.agents :: R.Window(0, 0)) == map[A := R.Window(0, 0)];
  }

  /** The cache after `n` requests have been answered at instant 0. */
  function FilledTo(n: nat): Entries {
    if n == 0 then map[] else FilledTo(n - 1)[n - 1 := Entry(Some(ANSWER), 0, false)]
  }

  lemma {:induction false} FilledMeaning(n: nat)
    ensures forall k: Key :: k in FilledTo(n) <==> k < n
    ensures forall k :: k in FilledTo(n) ==> FilledTo(n)[k] == Entry(Some(ANSWER), 0, false)
    ensures |FilledTo(n)| == n
  {
    if n == 0 {
      assert FilledTo(n) == map[];
    } else {
      FilledMeaning(n - 1);
      var less, more := FilledTo(n - 1), FilledTo(n);
      assert more == less[n - 1 := Entry(Some(ANSWER), 0, false)] && n - 1 !in less;
      forall k: Key ensures k in more <==> k < n {
        assert k in more <==> k in less || k == n - 1;
      }
    }
  }

  lemma FilledFresh(n: nat, now: nat, ttl: nat)
    ensures now < ttl ==> Retained(FilledTo(n), now, ttl) == FilledTo(n)
    ensures now >= ttl ==> Retained(FilledTo(n), now, ttl) == map[]
  {
    FilledMeaning(n);
  }

  /** The view after `n` requests have filled `n` slots and are done. */
  function Filled(n: nat, log: History): View {
    View(0, n, map[], FilledTo(n), n, log)
  }

  lemma {:induction false} Fill(g: Setting, n: nat) returns (ls: seq<Label>, log: History)
    requires Usable(g) && n <= g.entries
    ensures Ends(g, ls, Filled(n, log))
  {
    if n == 0 {
      ls, log := [], Start;
      StartView(g);
    } else {
      ls, log := Fill(g, n - 1);
      ls, log := FillOne(g, ls, log, n - 1);
    }
  }

  lemma FilledNext(n: nat)
    ensures FilledTo(n)[n := Reserved(0)][n := Entry(Some(ANSWER), 0, false)] == FilledTo(n + 1)
  {
  }

  lemma FilledRoom(g: Setting, n: nat)
    requires Usable(g) && n < g.entries
    ensures |Retained(FilledTo(n), 0, g.ttl)| < g.entries && Retained(FilledTo(n), 0, g.ttl) == FilledTo(n)
    ensures n !in FilledTo(n)
  {
    FilledMeaning(n);
    FilledFresh(n, 0, g.ttl);
  }

  lemma FilledOne(g: Setting, n: nat, log: History)
    requires Usable(g) && n < g.entries
    ensures |Retained(FilledTo(n), 0, g.ttl)| < g.entries && n !in FilledTo(n)
    ensures var v := Owned(g, Filled(n, log), n);
            && n in v.handlers && v.handlers[n] == Owning(n, AtParse, v.now) && n in v.cache
            && Finished(v, n, n) == Filled(n + 1, Finished(v, n, n).log)
  {
    FilledRoom(g, n);
    var v := Owned(g, Filled(n, log), n);
    assert v.handlers - {n} == map[];
    FilledNext(n);
  }

  lemma FillOne(g: Setting, ls: seq<Label>, log: History, n: nat) returns (more: seq<Label>, log': History)
    requires Usable(g) && n < g.entries && Ends(g, ls, Filled(n, log))
    ensures Ends(g, more, Filled(n + 1, log'))
  {
    FilledOne(g, n, log);
    more := Grant(g, ls, Filled(n, log), n);
    more := Finish(g, more, Owned(g, Filled(n, log), n), n, n);
    log' := Finished(Owned(g, Filled(n, log), n), n, n).log;
  }

  /** The cache was full one instant ago, and the request that saw this has its removal still to do. */
  function Stalled(g: Setting, log: History): View {
    var n := g.entries;
    View(g.ttl, n + 1, map[n := Waiting(n, AtRemove)], FilledTo(n), n + 1, log)
  }

  /** The filled cache, one instant before all its entries are out of time. */
  function Late(g: Setting, log: History): View
    requires Usable(g)
  {
    Filled(g.entries, log).(now := g.ttl - 1)
  }

  lemma StalledIs(g: Setting, log: History)
    requires Usable(g)
    ensures var v, n := Late(g, log), g.entries;
            && n !in v.cache && |Retained(v.cache, v.now, g.ttl)| >= n && |v.handlers| == 0 && v.next == v.calls == n
            && v.now + 1 == g.ttl
            && Refused(g, v, n).handlers == map[n := Waiting(n, AtRemove)]
            && Refused(g, v, n).(now := v.now + 1) == Stalled(g, Refused(g, v, n).log)
  {
    FilledMeaning(g.entries);
    FilledFresh(g.entries, g.ttl - 1, g.ttl);
  }

  /** A request finds the cache full, and time goes on. */
  lemma Stall(g: Setting, ls: seq<Label>, log: History) returns (more: seq<Label>, log': History)
    requires Usable(g) && Ends(g, ls, Late(g, log))
    ensures Ends(g, more, Stalled(g, log'))
  {
    StalledIs(g, log);
    more := Refuse(g, ls, Late(g, log), g.entries);
    log' := Refused(g, Late(g, log), g.entries).log;
    more := Wait(g, more, Refused(g, Late(g, log), g.entries), 1);
  }

  function Doubly(g: Setting, log: History): View {
    var n := g.entries;
    View(g.ttl, n + 3, map[n + 1 := Owning(n, AtParse, g.ttl), n + 2 := Owning(n, AtParse, g.ttl)],
         map[n := Reserved(g.ttl)], n + 3, DoublyLog(g, log))
  }

  function DoublyLog(g: Setting, log: History): History {
    var n := g.entries;
    Then(Then(Then(Then(Then(log, Limited(A, g.ttl, true)), Answered(n + 1, n, g.ttl, New)), FullRemoved(n, n)),
              Limited(A, g.ttl, true)), Answered(n + 2, n, g.ttl, New))
  }

  /** The view after the first grant: the stalled request and an owner, the only entry the owner's. */
  function FirstGrant(g: Setting, log: History): View {
    var n := g.entries;
    View(g.ttl, n + 2, map[n := Waiting(n, AtRemove), n + 1 := Owning(n, AtParse, g.ttl)],
         map[n := Reserved(g.ttl)], n + 2,
         Then(Then(log, Limited(A, g.ttl, true)), Answered(n + 1, n, g.ttl, New)))
  }

  lemma FirstGrantIs(g: Setting, log: History)
    requires Usable(g)
    ensures var v, n := Stalled(g, log), g.entries;
            n !in v.cache && |Retained(v.cache, v.now, g.ttl)| == 0 && Owned(g, v, n) == FirstGrant(g, log)
  {
    FilledMeaning(g.entries);
    FilledFresh(g.entries, g.ttl, g.ttl);
  }

  /** The view after the removal. */
  function Bared(g: Setting, log: History): View {
    var n := g.entries;
    View(g.ttl, n + 2, map[n + 1 := Owning(n, AtParse, g.ttl)], map[], n + 2,
         Then(FirstGrant(g, log).log, FullRemoved(n, n)))
  }

  lemma BaredIs(g: Setting, log: History)
    ensures Removed(FirstGrant(g, log), g.entries, g.entries) == Bared(g, log)
    ensures Owned(g, Bared(g, log), g.entries) == Doubly(g, log)
    ensures |Retained(Bared(g, log).cache, g.ttl, g.ttl)| == 0
  {
    var n, v := g.entries, FirstGrant(g, log);
    assert v.handlers - {n} == map[n + 1 := Owning(n, AtParse, g.ttl)] && v.cache - {n} == map[];
    assert Retained(map[], g.ttl, g.ttl) == map[];
  }

  /** The two grants around the removal. */
  lemma TwoGrants(g: Setting, ls: seq<Label>, log: History) returns (more: seq<Label>)
    requires Usable(g) && Ends(g, ls, Stalled(g, log))
    ensures Ends(g, more, Doubly(g, log))
  {
    var n := g.entries;
    FirstGrantIs(g, log);
    more := Grant(g, ls, Stalled(g, log), n);
    DoRemove(g, more, FirstGrant(g, log), n, n);
    more := more + [RemoveFull(n)];
    BaredIs(g, log);
    more := Grant(g, more, Bared(g, log), n);
  }

  function OverwrittenLog(g: Setting, log: History): History {
    var n := g.entries;
    Then(Then(Then(DoublyLog(g, log), Opened(n + 1, BODY)), Event.Committed(n + 1, n, ANSWER, ANSWER)),
         Opened(n + 2, BODY))
  }

  /** The first owner has committed, the second is about to. */
  function Overwritten(g: Setting, log: History): View {
    var n := g.entries;
    View(g.ttl, n + 3, map[n + 2 := Owning(n, AtCommit(ANSWER, ANSWER), g.ttl)],
         map[n := Entry(Some(ANSWER), g.ttl, false)], n + 3, OverwrittenLog(g, log))
  }

  lemma OverwrittenIs(g: Setting, log: History)
    ensures var n := g.entries;
            var v := Finished(Doubly(g, log), n + 1, n);
            && n + 2 in v.handlers && v.handlers[n + 2] == Owning(n, AtParse, v.now)
            && ParsedOut(v, n + 2, n) == Overwritten(g, log)
  {
    var n := g.entries;
    var v := Finished(Doubly(g, log), n + 1, n);
    assert v.handlers == map[n + 2 := Owning(n, AtParse, g.ttl)];
  }

  lemma Interfere(g: Setting, ls: seq<Label>, log: History) returns (more: seq<Label>)
    requires Usable(g) && Ends(g, ls, Doubly(g, log))
    ensures Ends(g, more, Overwritten(g, log))
  {
    var n := g.entries;
    more := Finish(g, ls, Doubly(g, log), n + 1, n);
    OverwrittenIs(g, log);
    DoParse(g, more, Finished(Doubly(g, log), n + 1, n), n + 2, n);
    more := more + [Parse(n + 2)];
  }

  lemma RaceRun(g: Setting) returns (ls: seq<Label>, log: History)
    requires Usable(g)
    ensures Ends(g, ls, Overwritten(g, log))
  {
    ls, log := Fill(g, g.entries);
    ls := Wait(g, ls, Filled(g.entries, log), g.ttl - 1);
    ls, log := Stall(g, ls, log);
    ls := TwoGrants(g, ls, log);
    ls := Interfere(g, ls, log);
  }

  lemma DoublyPositions(g: Setting, log: History)
    ensures var h, k := DoublyLog(g, log), Length(log);
            && Length(h) == k + 5
            && At(h, k + 1) == Answered(g.entries + 1, g.entries, g.ttl, New)
            && At(h, k + 2) == FullRemoved(g.entries, g.entries)
            && At(h, k + 3) == Limited(A, g.ttl, true)
            && At(h, k + 4) == Answered(g.entries + 2, g.entries, g.ttl, New)
  {
    var n, k := g.entries, Length(log);
    var h1 := Then(log, Limited(A, g.ttl, true));
    var h2 := Then(h1, Answered(n + 1, n, g.ttl, New));
    var h3 := Then(h2, FullRemoved(n, n));
    var h4 := Then(h3, Limited(A, g.ttl, true));
    var h5 := Then(h4, Answered(n + 2, n, g.ttl, New));
    assert h5 == DoublyLog(g, log);
    assert At(h2, k + 1) == Answered(n + 1, n, g.ttl, New);
    assert At(h3, k + 1) == At(h4, k + 1) == At(h5, k + 1) == At(h2, k + 1);
    assert At(h3, k + 2) == At(h4, k + 2) == At(h5, k + 2) == FullRemoved(n, n);
    assert At(h4, k + 3) == At(h5, k + 3) == Limited(A, g.ttl, true);
  }

  /** What follows does not touch the positions before. */
  lemma LaterPositions(h: History, a: Event, b: Event, d: Event)
    ensures var more := Then(Then(Then(h, a), b), d);
            && Length(more) == Length(h) + 3
            && (forall m :: 0 <= m < Length(h) ==> At(more, m) == At(h, m))
            && At(more, Length(h)) == a && At(more, Length(h) + 1) == b && At(more, Length(h) + 2) == d
  {
    var h1 := Then(h, a);
    var h2 := Then(h1, b);
    var h3 := Then(h2, d);
    assert forall m :: 0 <= m < Length(h2) ==> At(h3, m) == At(h2, m);
    assert forall m :: 0 <= m < Length(h1) ==> At(h2, m) == At(h1, m);
    assert forall m :: 0 <= m < Length(h) ==> At(h1, m) == At(h, m);
    assert At(h3, Length(h)) == At(h2, Length(h)) == At(h1, Length(h));
    assert At(h3, Length(h) + 1) == At(h2, Length(h) + 1);
  }

  lemma RoomyIsValid(g: Setting)
    requires Usable(g)
    ensures ValidConfig(Roomy(g))
  {
  }

  /**
   * In state `s` the key has been granted twice at one instant, at `i` and at `j` with a removal between
   * them and none after. The second owner, `r`, is about to commit, and its entry already holds an answer.
   */
  ghost predicate Raced(g: Setting, s: State, i: nat, j: nat, r: ReqId) {
    && r >= 1 && i < j < Length(s.log)
    && At(s.log, i) == Answered(r - 1, g.entries, s.now, New) && At(s.log, j) == Answered(r, g.entries, s.now, New)
    && RemovedBetween(s.log, g.entries, i, j) && !RemovedBetween(s.log, g.entries, j, Length(s.log))
    && r in s.handlers && s.handlers[r] == Owning(g.entries, AtCommit(ANSWER, ANSWER), s.now)
    && s.cache == map[g.entries := Entry(Some(ANSWER), s.now, false)]
  }

  lemma OverwrittenHistory(g: Setting, log: History)
    ensures var h, k := Overwritten(g, log).log, Length(log);
            && Length(h) == k + 8
            && At(h, k + 1) == Answered(g.entries + 1, g.entries, g.ttl, New)
            && At(h, k + 4) == Answered(g.entries + 2, g.entries, g.ttl, New)
            && RemovedBetween(h, g.entries, k + 1, k + 4) && !RemovedBetween(h, g.entries, k + 4, k + 8)
  {
    var n, h, k := g.entries, Overwritten(g, log).log, Length(log);
    DoublyPositions(g, log);
    LaterPositions(DoublyLog(g, log), Opened(n + 1, BODY), Event.Committed(n + 1, n, ANSWER, ANSWER),
                   Opened(n + 2, BODY));
    assert Removes(At(h, k + 2), g.entries);
  }

  lemma OverwrittenIsRaced(g: Setting, log: History)
    ensures Raced(g, StateOf(Overwritten(g, log)), Length(log) + 1, Length(log) + 4, g.entries + 2)
  {
    OverwrittenHistory(g, log);
  }

  /**
   * The side conditions are needed, even with instantly prompt owners. For every cache size and time to
   * live there is a run in which a key is granted twice at one instant, because a request had found the
   * cache full and its removal runs between the two grants; and the owner of the second, whose key no
   * removal has touched since, finds the answer of the first in its entry.
   */
  lemma FullBranchRemovalRace(g: Setting) returns (ls: seq<Label>, s: State, i: nat, j: nat, r: ReqId)
    requires Usable(g)
    ensures ValidConfig(Roomy(g)) && PromptRun(Roomy(g), ls, 0) && Exec(Roomy(g), ls) == Some(s)
    ensures Raced(g, s, i, j, r)
  {
    var log;
    ls, log := RaceRun(g);
    EndsMeans(g, ls, Overwritten(g, log));
    OverwrittenIsRaced(g, log);
    RoomyIsValid(g);
    s, i, j, r := StateOf(Overwritten(g, log)), Length(log) + 1, Length(log) + 4, g.entries + 2;
  }
}
