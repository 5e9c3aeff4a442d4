/** Loading: what the checks on the configuration files establish for the running daemon. */
module Config {
  import opened Common
  import opened Errors
  import opened FileTree
  import opened Slime
  import opened Decimal
  import opened Encoding
  import A = Admission
  import R = RateLimit

  datatype RawPolicy = RawPolicy(enabled: bool, maxMagnitude: nat)

  /** One agent file, parsed, with defaults filled in. */
  datatype RawAgent = RawAgent(
    id: string, maxCapacity: nat, rateMax: nat, rateSecs: nat, secret: Option<seq<byte>>,
    domains: map<string, RawPolicy>)

  datatype AgentConfig = AgentConfig(
    id: string, maxCapacity: nat, rateMax: nat, rateSecs: nat, secret: Option<seq<byte>>,
    policies: map<DomainId, Policy>)

  function BootError(): AmaError {
    ServiceUnavailable(Text([]))
  }

  /** The domain a key of the file stands for: the same name with dots where the key has underscores. */
  ghost predicate StandsFor(key: string, d: DomainId) {
    |key| == |d| && forall i :: 0 <= i < |key| ==> d[i] == if key[i] == '_' then '.' else key[i]
  }

  /** `replace('_', ".")`. */
  function Normalize(key: string): (d: DomainId)
    ensures StandsFor(key, d)
  {
    if key == [] then [] else [if key[0] == '_' then '.' else key[0]] + Normalize(key[1..])
  }

  lemma OneDomain(key: string, d: DomainId, d': DomainId)
    requires StandsFor(key, d) && StandsFor(key, d')
    ensures d == d'
  {
    forall i | 0 <= i < |key| ensures d[i] == d'[i] {
    }
  }

  /** Some key of the section stands for the domain. */
  ghost predicate Names(domains: map<string, RawPolicy>, d: DomainId) {
    exists key :: key in domains && StandsFor(key, d)
  }

  /** Some key of some file does. */
  ghost predicate NamesAny(raws: seq<RawAgent>, d: DomainId) {
    exists i :: 0 <= i < |raws| && Names(raws[i].domains, d)
  }

  predicate PolicyOk(p: RawPolicy, maxCapacity: nat) {
    0 < p.maxMagnitude <= maxCapacity
  }

  predicate SecretOk(secret: Option<seq<byte>>) {
    secret.Some? ==> |secret.value| >= 32
  }

  /** What the loader accepts. */
  ghost predicate Acceptable(raw: RawAgent, unicode: char -> bool) {
    && AgentIdOk(raw.id, unicode)
    && raw.maxCapacity > 0 && raw.rateMax > 0 && raw.rateSecs > 0 && SecretOk(raw.secret)
    && forall key :: key in raw.domains ==> PolicyOk(raw.domains[key], raw.maxCapacity)
  }

  /** `policies` holds exactly the domains the keys stand for, each with the policy of a key that stands for
      it: of two such keys, the one visited last. */
  ghost predicate PoliciesOf(raw: map<string, RawPolicy>, policies: map<DomainId, Policy>) {
    && (forall d :: Names(raw, d) ==> d in policies)
    && (forall d :: d in policies ==> Source(raw, policies[d], d))
  }

  ghost predicate Source(raw: map<string, RawPolicy>, p: Policy, d: DomainId) {
    exists key :: key in raw && StandsFor(key, d) && p == Policy(raw[key].enabled, raw[key].maxMagnitude)
  }

  /** The normalization loop, over the keys in any order. */
  method NormalizePolicies(
      raw: map<string, RawPolicy>, maxCapacity: nat) returns (r: Result<map<DomainId, Policy>, AmaError>)
    ensures r.Ok? <==> forall key :: key in raw ==> PolicyOk(raw[key], maxCapacity)
    ensures r.Ok? ==> PoliciesOf(raw, r.value)
    ensures r.Err? ==> r.error.ServiceUnavailable?
  {
    var policies: map<DomainId, Policy> := map[];
    var todo := raw.Keys;
    while todo != {}
      invariant todo <= raw.Keys
      invariant forall key :: key in raw && key !in todo ==>
                  PolicyOk(raw[key], maxCapacity) && Normalize(key) in policies
      invariant forall d :: d in policies ==> Source(raw, policies[d], d)
      decreases todo
    {
      var key :| key in todo;
      if raw[key].maxMagnitude == 0 || raw[key].maxMagnitude > maxCapacity {
        assert !PolicyOk(raw[key], maxCapacity);
        return Err(BootError());
      }
      var p := Policy(raw[key].enabled, raw[key].maxMagnitude);
      assert Source(raw, p, Normalize(key));
      policies := policies[Normalize(key) := p];
      todo := todo - {key};
    }
    forall d | Names(raw, d) ensures d in policies {
      var key :| key in raw && StandsFor(key, d);
      OneDomain(key, d, Normalize(key));
    }
    r := Ok(policies);
  }

  ghost predicate LoadedFrom(raw: RawAgent, a: AgentConfig) {
    && a.id == raw.id && a.maxCapacity == raw.maxCapacity && a.rateMax == raw.rateMax && a.rateSecs == raw.rateSecs
    && a.secret == raw.secret && PoliciesOf(raw.domains, a.policies)
  }

  /** The test on the characters of an agent id. */
  method IsAgentId(id: string, unicode: char -> bool) returns (ok: bool)
    ensures ok <==> AgentIdOk(id, unicode)
  {
    if id == [] {
      return false;
    }
    for i := 0 to |id|
      invariant forall j :: 0 <= j < i ==> Alphanumeric(id[j], unicode) || id[j] == '-' || id[j] == '_'
    {
      if !(Alphanumeric(id[i], unicode) || id[i] == '-' || id[i] == '_') {
        return false;
      }
    }
    ok := true;
  }

  /** `AgentConfig::from_toml_str`, after parsing. */
  method FromRaw(raw: RawAgent, unicode: char -> bool) returns (r: Result<AgentConfig, AmaError>)
    ensures r.Ok? <==> Acceptable(raw, unicode)
    ensures r.Ok? ==> LoadedFrom(raw, r.value)
    ensures r.Err? ==> r.error.ServiceUnavailable?
  {
    var named := IsAgentId(raw.id, unicode);
    if !named || raw.maxCapacity == 0 || raw.rateMax == 0 || raw.rateSecs == 0 {
      return Err(BootError());
    }
    var policies := NormalizePolicies(raw.domains, raw.maxCapacity);
    if policies.Err? {
      return Err(policies.error);
    }
    if raw.secret.Some? && (raw.secret.value == [] || |raw.secret.value| < 32) {
      return Err(BootError());
    }
    r := Ok(AgentConfig(raw.id, raw.maxCapacity, raw.rateMax, raw.rateSecs, raw.secret, policies.value));
  }

  /** An agent whose policies can all be used. */
  ghost predicate Usable(a: AgentConfig) {
    && 0 < a.maxCapacity <= U64_MAX && a.rateMax >= 1 && a.rateSecs >= 1
    && forall d :: d in a.policies ==> 0 < a.policies[d].maxMagnitude <= a.maxCapacity
  }

  lemma AcceptedIsUsable(raw: RawAgent, a: AgentConfig, unicode: char -> bool)
    requires Acceptable(raw, unicode) && LoadedFrom(raw, a) && raw.maxCapacity <= U64_MAX
    ensures Usable(a)
  {
    forall d | d in a.policies ensures 0 < a.policies[d].maxMagnitude <= a.maxCapacity {
      assert Source(raw.domains, a.policies[d], d);
    }
  }

  /** A fresh authorizer of an accepted agent authorizes exactly the magnitudes up to the ceiling of each
      enabled domain, and nothing on a disabled or absent one. */
  lemma FreshAuthority(raw: RawAgent, a: AgentConfig, unicode: char -> bool, d: DomainId, m: nat)
    requires Acceptable(raw, unicode) && LoadedFrom(raw, a) && raw.maxCapacity <= U64_MAX
    ensures Decide(a.maxCapacity, a.policies, 0, d, m) == Authorized
            <==> d in a.policies && a.policies[d].enabled && m <= a.policies[d].maxMagnitude
    ensures d in a.policies && a.policies[d].enabled ==> Decide(a.maxCapacity, a.policies, 0, d, 1) == Authorized
  {
    AcceptedIsUsable(raw, a, unicode);
    FitsIsCeiling(a.maxCapacity, 0, m);
    FitsIsCeiling(a.maxCapacity, 0, 1);
  }

  // ---- All agents ------------------------------------------------------------------------------

  type Agents = map<string, AgentConfig>

  ghost predicate DistinctIds(raws: seq<RawAgent>, n: nat)
    requires n <= |raws|
  {
    forall i, j :: 0 <= i < j < n ==> raws[i].id != raws[j].id
  }

  /** One entry for each of the first `n` files, under the file's id. */
  ghost predicate AgentsOf(raws: seq<RawAgent>, n: nat, agents: Agents)
    requires n <= |raws|
  {
    && (forall i :: 0 <= i < n ==> raws[i].id in agents && LoadedFrom(raws[i], agents[raws[i].id]))
    && (forall id :: id in agents ==> IdOf(raws, n, id))
  }

  ghost predicate IdOf(raws: seq<RawAgent>, n: nat, id: string)
    requires n <= |raws|
  {
    exists i :: 0 <= i < n && raws[i].id == id
  }

  ghost predicate AllAcceptable(raws: seq<RawAgent>, n: nat, unicode: char -> bool)
    requires n <= |raws|
  {
    forall i :: 0 <= i < n ==> Acceptable(raws[i], unicode)
  }

  lemma OneAgentMore(raws: seq<RawAgent>, n: nat, agents: Agents, a: AgentConfig)
    requires n < |raws| && AgentsOf(raws, n, agents) && LoadedFrom(raws[n], a)
    ensures raws[n].id in agents <==> IdOf(raws, n, raws[n].id)
    ensures raws[n].id !in agents ==> AgentsOf(raws, n + 1, agents[a.id := a])
    ensures raws[n].id !in agents && DistinctIds(raws, n) ==> DistinctIds(raws, n + 1)
  {
    if raws[n].id !in agents {
      var more := agents[a.id := a];
      forall i | 0 <= i < n + 1 ensures raws[i].id in more && LoadedFrom(raws[i], more[raws[i].id]) {
      }
      forall id | id in more ensures IdOf(raws, n + 1, id) {
        if id in agents {
          assert IdOf(raws, n, id);
        }
      }
    }
  }

  /** `load_agent_configs`, after reading. */
  method LoadAgents(raws: seq<RawAgent>, unicode: char -> bool) returns (r: Result<Agents, AmaError>)
    ensures r.Ok? <==> raws != [] && DistinctIds(raws, |raws|) && AllAcceptable(raws, |raws|, unicode)
    ensures r.Ok? ==> AgentsOf(raws, |raws|, r.value) && |r.value| == |raws|
    ensures r.Err? ==> r.error.ServiceUnavailable?
  {
    if raws == [] {
      return Err(BootError());
    }
    var agents: Agents := map[];
    for n := 0 to |raws|
      invariant AllAcceptable(raws, n, unicode) && DistinctIds(raws, n)
      invariant AgentsOf(raws, n, agents) && |agents| == n
    {
      var a := FromRaw(raws[n], unicode);
      if a.Err? {
        assert !Acceptable(raws[n], unicode);
        return Err(a.error);
      }
      OneAgentMore(raws, n, agents, a.value);
      if a.value.id in agents {
        var i :| 0 <= i < n && raws[i].id == raws[n].id;
        return Err(BootError());
      }
      agents := agents[a.value.id := a.value];
    }
    r := Ok(agents);
  }

  // ---- The whole configuration -----------------------------------------------------------------

  datatype RawSlime = RawSlime(maxCapacity: Option<nat>, domains: map<string, RawPolicy>)

  /** `mapping` sends an action to its domain. */
  datatype Loaded = Loaded(agents: Agents, defaultAgent: Option<string>, mapping: map<string, DomainId>)

  const DEFAULT_AGENT: string := "default"

  /** Every domain some agent has a policy for. */
  function DomainsOf(agents: Agents): set<DomainId> {
    set id, d | id in agents && d in agents[id].policies :: d
  }

  ghost predicate AllUsable(agents: Agents) {
    forall id :: id in agents ==> agents[id].id == id && Usable(agents[id])
  }

  /** The loop over the agents that checks their domains against `domains.toml`. */
  method CheckDomains(agents: Agents, mapping: map<string, DomainId>) returns (ok: bool)
    ensures ok <==> DomainsOf(agents) <= mapping.Values
  {
    var todo := agents.Keys;
    while todo != {}
      invariant todo <= agents.Keys
      invariant forall id, d :: id in agents && id !in todo && d in agents[id].policies ==> d in mapping.Values
      decreases todo
    {
      var id :| id in todo;
      if !(agents[id].policies.Keys <= mapping.Values) {
        var d :| d in agents[id].policies.Keys && d !in mapping.Values;
        assert d in DomainsOf(agents);
        return false;
      }
      todo := todo - {id};
    }
    ok := true;
  }

  /** The loop over the mappings that checks their domains against the agents' policies. */
  method CheckMappings(mapping: map<string, DomainId>, domains: set<DomainId>) returns (ok: bool)
    ensures ok <==> forall action :: action in mapping ==> mapping[action] in domains
  {
    var todo := mapping.Keys;
    while todo != {}
      invariant todo <= mapping.Keys
      invariant forall action :: action in mapping && action !in todo ==> mapping[action] in domains
      decreases todo
    {
      var action :| action in todo;
      if mapping[action] !in domains {
        return false;
      }
      todo := todo - {action};
    }
    ok := true;
  }

  /** What a loaded configuration guarantees. */
  ghost predicate Sound(l: Loaded) {
    && l.agents != map[] && AllUsable(l.agents)
    && (l.defaultAgent.Some? <==> |l.agents| == 1)
    && (l.defaultAgent.Some? ==> l.defaultAgent.value in l.agents)
    && (forall action :: action in l.mapping ==> l.mapping[action] in DomainsOf(l.agents))
  }

  /** The default agent: the section's capacity and domains, 60 calls a minute, no secret. */
  ghost predicate IsSlimeAgent(slime: RawSlime, a: AgentConfig) {
    && slime.maxCapacity == Some(a.maxCapacity) && a.id == "default"
    && a.rateMax == 60 && a.rateSecs == 60 && a.secret.None? && PoliciesOf(slime.domains, a.policies)
  }

  /** The agents synthesized from the `[slime]` section when there is no agents directory. */
  method SlimeAgents(slime: RawSlime) returns (r: Result<Agents, AmaError>)
    requires slime.maxCapacity.Some? ==> slime.maxCapacity.value <= U64_MAX
    ensures r.Ok? <==>
              && slime.maxCapacity.Some? && slime.maxCapacity.value > 0 && slime.domains != map[]
              && forall key :: key in slime.domains ==> PolicyOk(slime.domains[key], slime.maxCapacity.value)
    ensures r.Ok? ==>
              && AllUsable(r.value) && r.value.Keys == {"default"} && IsSlimeAgent(slime, r.value["default"])
              && forall d :: d in DomainsOf(r.value) <==> Names(slime.domains, d)
    ensures r.Err? ==> r.error.ServiceUnavailable?
  {
    if slime.maxCapacity.None? || slime.maxCapacity.value == 0 || slime.domains == map[] {
      return Err(BootError());
    }
    var policies := NormalizePolicies(slime.domains, slime.maxCapacity.value);
    if policies.Err? {
      return Err(policies.error);
    }
    var a := AgentConfig(DEFAULT_AGENT, slime.maxCapacity.value, 60, 60, None, policies.value);
    forall d | d in a.policies ensures 0 < a.policies[d].maxMagnitude <= a.maxCapacity {
      assert Source(slime.domains, a.policies[d], d);
    }
    DomainsAreNamed(slime.domains, a.policies);
    var agents := map[DEFAULT_AGENT := a];
    forall d ensures d in DomainsOf(agents) <==> d in a.policies {
      if d in a.policies {
        assert d in agents[DEFAULT_AGENT].policies;
      }
    }
    r := Ok(agents);
  }

  lemma LoadedAgentsUsable(raws: seq<RawAgent>, agents: Agents, unicode: char -> bool)
    requires AgentsOf(raws, |raws|, agents) && AllAcceptable(raws, |raws|, unicode)
    requires forall i :: 0 <= i < |raws| ==> raws[i].maxCapacity <= U64_MAX
    ensures AllUsable(agents)
  {
    forall id | id in agents ensures agents[id].id == id && Usable(agents[id]) {
      assert IdOf(raws, |raws|, id);
      var i :| 0 <= i < |raws| && raws[i].id == id;
      AcceptedIsUsable(raws[i], agents[id], unicode);
    }
  }

  /** The agents directory: its agents, their domains all defined, and a default agent if there is just one. */
  method LoadDirectory(raws: seq<RawAgent>, domains: map<string, DomainId>, unicode: char -> bool)
    returns (r: Result<(Agents, Option<string>), AmaError>)
    requires forall i :: 0 <= i < |raws| ==> raws[i].maxCapacity <= U64_MAX
    ensures r.Ok? <==>
              && raws != [] && DistinctIds(raws, |raws|) && AllAcceptable(raws, |raws|, unicode)
              && forall d :: NamesAny(raws, d) ==> d in domains.Values
    ensures r.Ok? ==>
              && AgentsOf(raws, |raws|, r.value.0) && AllUsable(r.value.0)
              && forall d :: d in DomainsOf(r.value.0) <==> NamesAny(raws, d)
    ensures r.Ok? ==> r.value.0 != map[] && (r.value.1.Some? <==> |r.value.0| == 1)
    ensures r.Ok? && r.value.1.Some? ==> r.value.1.value in r.value.0
    ensures r.Err? ==> r.error.ServiceUnavailable?
  {
    var loaded := LoadAgents(raws, unicode);
    if loaded.Err? {
      return Err(loaded.error);
    }
    var agents := loaded.value;
    LoadedAgentsUsable(raws, agents, unicode);
    AllDomainsAreNamed(raws, agents);
    var ok := CheckDomains(agents, domains);
    if !ok {
      return Err(BootError());
    }
    if |agents| == 1 {
      var id :| id in agents;
      return Ok((agents, Some(id)));
    }
    r := Ok((agents, None));
  }

  lemma DomainsAreNamed(raw: map<string, RawPolicy>, policies: map<DomainId, Policy>)
    requires PoliciesOf(raw, policies)
    ensures forall d :: d in policies <==> Names(raw, d)
  {
    forall d | d in policies ensures Names(raw, d) {
      assert Source(raw, policies[d], d);
    }
  }

  lemma AllDomainsAreNamed(raws: seq<RawAgent>, agents: Agents)
    requires AgentsOf(raws, |raws|, agents)
    ensures forall d :: d in DomainsOf(agents) <==> NamesAny(raws, d)
  {
    forall i | 0 <= i < |raws| ensures forall d :: d in agents[raws[i].id].policies <==> Names(raws[i].domains, d) {
      DomainsAreNamed(raws[i].domains, agents[raws[i].id].policies);
    }
    forall d | d in DomainsOf(agents) ensures NamesAny(raws, d) {
      var id :| id in agents && d in agents[id].policies;
      assert IdOf(raws, |raws|, id);
    }
    forall d | NamesAny(raws, d) ensures d in DomainsOf(agents) {
      var i :| 0 <= i < |raws| && Names(raws[i].domains, d);
      assert d in agents[raws[i].id].policies;
    }
  }

  /** The configurations `Load` accepts. */
  ghost predicate Loadable(dir: Option<seq<RawAgent>>, slime: RawSlime, mapped: set<DomainId>, unicode: char -> bool) {
    match dir
    case Some(raws) =>
      && raws != [] && DistinctIds(raws, |raws|) && AllAcceptable(raws, |raws|, unicode)
      && forall d :: d in mapped <==> NamesAny(raws, d)
    case None =>
      && slime.maxCapacity.Some? && slime.maxCapacity.value > 0 && slime.domains != map[]
      && (forall key :: key in slime.domains ==> PolicyOk(slime.domains[key], slime.maxCapacity.value))
      && forall d :: d in mapped ==> Names(slime.domains, d)
  }

  /** Every mapped action's domain is some agent's. */
  lemma MappedDomains(mapping: map<string, DomainId>, domains: set<DomainId>)
    ensures (forall action :: action in mapping ==> mapping[action] in domains) <==> mapping.Values <= domains
  {
    if forall action :: action in mapping ==> mapping[action] in domains {
      forall d | d in mapping.Values ensures d in domains {
        var action :| action in mapping && mapping[action] == d;
      }
    }
  }

  /** `AmaConfig::load` with an agents directory. */
  method LoadFiles(raws: seq<RawAgent>, domains: map<string, DomainId>, unicode: char -> bool)
    returns (r: Result<Loaded, AmaError>)
    requires forall i :: 0 <= i < |raws| ==> raws[i].maxCapacity <= U64_MAX
    ensures r.Ok? <==>
              && raws != [] && DistinctIds(raws, |raws|) && AllAcceptable(raws, |raws|, unicode)
              && forall d :: d in domains.Values <==> NamesAny(raws, d)
    ensures r.Ok? ==> Sound(r.value) && r.value.mapping == domains
    ensures r.Ok? ==> AgentsOf(raws, |raws|, r.value.agents) && DomainsOf(r.value.agents) == domains.Values
    ensures r.Err? ==> r.error.ServiceUnavailable?
  {
    var loaded := LoadDirectory(raws, domains, unicode);
    if loaded.Err? {
      return Err(loaded.error);
    }
    var agents, default := loaded.value.0, loaded.value.1;
    var ok := CheckMappings(domains, DomainsOf(agents));
    MappedDomains(domains, DomainsOf(agents));
    if !ok {
      return Err(BootError());
    }
    r := Ok(Loaded(agents, default, domains));
  }

  /** `AmaConfig::load` without one. */
  method LoadSection(slime: RawSlime, domains: map<string, DomainId>) returns (r: Result<Loaded, AmaError>)
    requires slime.maxCapacity.Some? ==> slime.maxCapacity.value <= U64_MAX
    ensures r.Ok? <==>
              && slime.maxCapacity.Some? && slime.maxCapacity.value > 0 && slime.domains != map[]
              && (forall key :: key in slime.domains ==> PolicyOk(slime.domains[key], slime.maxCapacity.value))
              && forall d :: d in domains.Values ==> Names(slime.domains, d)
    ensures r.Ok? ==>
              && Sound(r.value) && r.value.mapping == domains && r.value.defaultAgent == Some("default")
              && r.value.agents.Keys == {"default"} && IsSlimeAgent(slime, r.value.agents["default"])
    ensures r.Err? ==> r.error.ServiceUnavailable?
  {
    var loaded := SlimeAgents(slime);
    if loaded.Err? {
      return Err(loaded.error);
    }
    var agents := loaded.value;
    assert |agents.Keys| == 1;
    var ok := CheckMappings(domains, DomainsOf(agents));
    MappedDomains(domains, DomainsOf(agents));
    if !ok {
      return Err(BootError());
    }
    r := Ok(Loaded(agents, Some(DEFAULT_AGENT), domains));
  }

  /**
   * The agent part of `AmaConfig::load`: agents from their directory when there is one, else the default
   * agent; then the check that every mapped domain has a policy. `domains` is the content of `domains.toml`.
   */
  method Load(dir: Option<seq<RawAgent>>, slime: RawSlime, domains: map<string, DomainId>, unicode: char -> bool)
    returns (r: Result<Loaded, AmaError>)
    requires slime.maxCapacity.Some? ==> slime.maxCapacity.value <= U64_MAX
    requires dir.Some? ==> forall i :: 0 <= i < |dir.value| ==> dir.value[i].maxCapacity <= U64_MAX
    ensures r.Ok? <==> Loadable(dir, slime, domains.Values, unicode)
    ensures r.Ok? ==> Sound(r.value) && r.value.mapping == domains
    ensures r.Ok? && dir.Some? ==>
              AgentsOf(dir.value, |dir.value|, r.value.agents) && DomainsOf(r.value.agents) == domains.Values
    ensures r.Ok? && dir.None? ==>
              && r.value.agents.Keys == {"default"} && r.value.defaultAgent == Some("default")
              && IsSlimeAgent(slime, r.value.agents["default"])
    ensures r.Err? ==> r.error.ServiceUnavailable?
  {
    match dir {
      case Some(raws) => r := LoadFiles(raws, domains, unicode);
      case None => r := LoadSection(slime, domains);
    }
  }

  /** An agent file with the key `fs_write_workspace`. */
  function ShippedAgent(p: RawPolicy): RawAgent {
    RawAgent("default", 10_000, 60, 60, None, map["fs_write_workspace" := p])
  }

  lemma ShippedLoadable(p: RawPolicy, mapping: map<string, DomainId>, unicode: char -> bool)
    requires 0 < p.maxMagnitude <= 10_000 && mapping.Values == {"fs.write.workspace"}
    ensures Loadable(Some([ShippedAgent(p)]), RawSlime(None, map[]), mapping.Values, unicode)
  {
    var raw := ShippedAgent(p);
    ShippedPair(raw.domains);
    assert Acceptable(raw, unicode);
    forall d ensures NamesAny([raw], d) <==> d == "fs.write.workspace" {
      assert [raw][0].domains == raw.domains;
    }
  }

  lemma ShippedPolicies(p: RawPolicy, agents: Agents)
    requires AgentsOf([ShippedAgent(p)], 1, agents)
    ensures agents.Keys == {"default"}
    ensures agents["default"].policies == map["fs.write.workspace" := Policy(p.enabled, p.maxMagnitude)]
  {
    var raw := ShippedAgent(p);
    assert [raw][0].id in agents;
    forall id | id in agents ensures id == raw.id {
      assert IdOf([raw], 1, id);
    }
    var policies := agents[raw.id].policies;
    ShippedPair(raw.domains);
    DomainsAreNamed(raw.domains, policies);
    forall d | d in policies ensures policies[d] == Policy(p.enabled, p.maxMagnitude) {
      assert Source(raw.domains, policies[d], d);
    }
  }

  /** A shipped pair: the key `fs_write_workspace` of an agent file beside the domain `fs.write.workspace`. */
  method ShippedPairLoads(p: RawPolicy, action: string, unicode: char -> bool) returns (r: Result<Loaded, AmaError>)
    requires 0 < p.maxMagnitude <= 10_000
    ensures r.Ok? && r.value.agents.Keys == {"default"}
    ensures r.value.agents["default"].policies == map["fs.write.workspace" := Policy(p.enabled, p.maxMagnitude)]
  {
    var mapping := map[action := "fs.write.workspace"];
    assert mapping[action] in mapping.Values;
    assert mapping.Values == {"fs.write.workspace"};
    ShippedLoadable(p, mapping, unicode);
    r := Load(Some([ShippedAgent(p)]), RawSlime(None, map[]), mapping, unicode);
    ShippedPolicies(p, r.value.agents);
  }

  lemma ShippedPair(domains: map<string, RawPolicy>)
    requires domains.Keys == {"fs_write_workspace"}
    ensures forall d :: Names(domains, d) <==> d == "fs.write.workspace"
  {
    assert StandsFor("fs_write_workspace", "fs.write.workspace");
    forall d | Names(domains, d) ensures d == "fs.write.workspace" {
      OneDomain("fs_write_workspace", d, "fs.write.workspace");
    }
  }

  // ---- The application state -------------------------------------------------------------------

  /** The limits `AppState::new` and the router fix: cache size, time to live, concurrent requests. */
  const CACHE_ENTRIES: nat := 10_000
  const CACHE_TTL: nat := 300 * R.SECOND
  const REQUEST_TIMEOUT: nat := 30 * R.SECOND
  const CONCURRENCY: nat := 8

  function AdmissionAgent(a: AgentConfig): A.Agent {
    A.Agent(a.maxCapacity, a.policies, a.rateMax, a.rateSecs)
  }

  function AdmissionConfig(l: Loaded): A.Config {
    A.Config(map id | id in l.agents :: AdmissionAgent(l.agents[id]), l.defaultAgent, l.mapping,
             CACHE_ENTRIES, CACHE_TTL, CONCURRENCY)
  }

  /** A loaded configuration meets everything the admission protocol relies on: its theorems apply to the
      daemon that runs it. Every mapped action's domain has a counter, and the request deadline lies
      within the time to live. */
  lemma LoadedIsValid(l: Loaded)
    requires Sound(l)
    ensures A.ValidConfig(AdmissionConfig(l))
    ensures A.Domains(AdmissionConfig(l)) == DomainsOf(l.agents)
    ensures forall action :: action in l.mapping ==> l.mapping[action] in A.Domains(AdmissionConfig(l))
    ensures REQUEST_TIMEOUT < CACHE_TTL
  {
    var c := AdmissionConfig(l);
    forall d ensures d in A.Domains(c) <==> d in DomainsOf(l.agents) {
      if d in DomainsOf(l.agents) {
        var id :| id in l.agents && d in l.agents[id].policies;
        assert d in c.agents[id].policies;
      }
    }
  }

  /** `AgentRegistry::new`: a fresh counter for every agent, under the agent's own id. */
  method BootCounters(agents: Agents) returns (used: map<string, nat>)
    requires AllUsable(agents)
    ensures used == map id | id in agents :: 0
  {
    used := map[];
    var todo := agents.Keys;
    while todo != {}
      invariant todo <= agents.Keys && used == map id | id in agents.Keys - todo :: 0
      decreases todo
    {
      var id :| id in todo;
      used := used[agents[id].id := 0];
      todo := todo - {id};
    }
  }

  /** The limiter loop. */
  method BootLimiters(agents: Agents) returns (windows: map<string, R.Window>)
    ensures windows == map id | id in agents :: R.Window(0, 0)
  {
    windows := map[];
    var todo := agents.Keys;
    while todo != {}
      invariant todo <= agents.Keys && windows == map id | id in agents.Keys - todo :: R.Window(0, 0)
      decreases todo
    {
      var id :| id in todo;
      windows := windows[id := R.Window(0, 0)];
      todo := todo - {id};
    }
  }

  /** The domain counter loop: the union of the agents' policies. */
  method BootDomains(agents: Agents) returns (counters: map<DomainId, nat>)
    ensures counters == map d | d in DomainsOf(agents) :: 0
  {
    counters := map[];
    var todo := agents.Keys;
    while todo != {}
      invariant todo <= agents.Keys
      invariant forall d :: d in counters ==> d in DomainsOf(agents) && counters[d] == 0
      invariant forall id, d :: id in agents && id !in todo && d in agents[id].policies ==> d in counters
      decreases todo
    {
      var id :| id in todo;
      counters := map d | d in counters.Keys + agents[id].policies.Keys :: 0;
      todo := todo - {id};
    }
  }

  /** `AppState::new` starts the admission protocol in its initial state. */
  method BootState(
      l: Loaded) returns (used: map<string, nat>, windows: map<string, R.Window>, counters: map<DomainId, nat>)
    requires Sound(l)
    ensures A.Init(AdmissionConfig(l)) == A.State(0, 0, map[], map[], used, windows, counters, A.Start)
  {
    LoadedIsValid(l);
    used := BootCounters(l.agents);
    windows := BootLimiters(l.agents);
    counters := BootDomains(l.agents);
  }
}
