/** Choosing the best and the current lending pool from a relay response. */
module PoolSelection {
  import opened Results
  import opened Words
  import opened Bindings
  import opened Config
  import opened JsonStream
  import opened PoolRanking

  const MIN_POOL_APY: real := 0.0
  const MAX_POOL_APY: real := 1000.0

  datatype ChainName = ChainName(chainSelector: uint64, name: string)

  /** The selection policy: which pools, chains, projects and symbols are approved. */
  datatype Policy = Policy(poolIDs: seq<string>, chains: seq<ChainName>, projects: seq<string>, symbols: seq<string>)

  /** The pools found: the highest-ranked one, and the highest-ranked one on the active strategy. */
  datatype Selection = Selection(best: Option<Pool>, current: Option<Pool>)

  predicate ValidPoolApy(apy: real) {
    MIN_POOL_APY <= apy <= MAX_POOL_APY
  }

  // ----- the selection policy -----

  function ChainNames(evms: seq<EvmConfig>): seq<ChainName> {
    if evms == [] then []
    else ChainNames(evms[..|evms| - 1])
         + [ChainName(evms[|evms| - 1].chainSelector, evms[|evms| - 1].defiLlamaChainName)]
  }

  function SelectionPolicy(c: Config): Policy {
    Policy(c.defiLlama.poolIDs, ChainNames(c.evms), c.defiLlama.projects, c.defiLlama.symbols)
  }

  method NewPolicy(c: Config) returns (p: Policy)
    ensures p == SelectionPolicy(c)
  {
    var chains: seq<ChainName> := [];
    for i := 0 to |c.evms|
      invariant chains == ChainNames(c.evms[..i])
    {
      assert c.evms[..i + 1][..i] == c.evms[..i];
      chains := chains + [ChainName(c.evms[i].chainSelector, c.evms[i].defiLlamaChainName)];
    }
    assert c.evms[..|c.evms|] == c.evms;
    return Policy(c.defiLlama.poolIDs, chains, c.defiLlama.projects, c.defiLlama.symbols);
  }

  lemma {:induction false} ChainNamesAt(evms: seq<EvmConfig>)
    ensures |ChainNames(evms)| == |evms|
    ensures forall i :: 0 <= i < |evms| ==>
              ChainNames(evms)[i] == ChainName(evms[i].chainSelector, evms[i].defiLlamaChainName)
  {
    if evms != [] {
      ChainNamesAt(evms[..|evms| - 1]);
    }
  }

  /** The configured value for each canonical value; the last of several wins. */
  function AllowedValues(text: Text, values: seq<string>): map<string, string> {
    if values == [] then map[]
    else AllowedValues(text, values[..|values| - 1])[text.Canonical(values[|values| - 1]) := values[|values| - 1]]
  }

  function Named(chains: seq<ChainName>): seq<string> {
    if chains == [] then []
    else Named(chains[..|chains| - 1]) + if chains[|chains| - 1].name == "" then [] else [chains[|chains| - 1].name]
  }

  /** The name of each chain that has one; the last of several wins. */
  function SelectorToName(chains: seq<ChainName>): map<uint64, string> {
    if chains == [] then map[]
    else
      var last := chains[|chains| - 1];
      var front := SelectorToName(chains[..|chains| - 1]);
      if last.name == "" then front else front[last.chainSelector := last.name]
  }

  /** The map leads from every canonical form of a value, and from nothing else, to a value of that form. */
  ghost predicate IsAllowedMap(text: Text, values: seq<string>, m: map<string, string>) {
    && (forall k :: k in m ==> m[k] in values && text.Canonical(m[k]) == k)
    && (forall v :: v in values ==> text.Canonical(v) in m)
  }

  lemma {:induction false} AllowedValuesAreExact(text: Text, values: seq<string>)
    ensures IsAllowedMap(text, values, AllowedValues(text, values))
  {
    if values != [] {
      var front, last := values[..|values| - 1], values[|values| - 1];
      AllowedValuesAreExact(text, front);
      assert values == front + [last];
    }
  }

  /** Values with distinct canonical forms are all found again by their own form. */
  lemma DistinctValueIsFound(text: Text, values: seq<string>, v: string)
    requires DistinctValues(text, values) && v in values
    ensures text.Canonical(v) in AllowedValues(text, values) && AllowedValues(text, values)[text.Canonical(v)] == v
  {
    AllowedValuesAreExact(text, values);
    var found := AllowedValues(text, values)[text.Canonical(v)];
    var i :| 0 <= i < |values| && values[i] == v;
    var j :| 0 <= j < |values| && values[j] == found;
    assert i == j;
  }

  method BuildAllowedValues(text: Text, values: seq<string>) returns (m: map<string, string>)
    ensures m == AllowedValues(text, values) && IsAllowedMap(text, values, m)
  {
    m := map[];
    for i := 0 to |values|
      invariant m == AllowedValues(text, values[..i])
    {
      assert values[..i + 1][..i] == values[..i];
      m := m[text.Canonical(values[i]) := values[i]];
    }
    assert values[..|values|] == values;
    AllowedValuesAreExact(text, values);
  }

  method BuildAllowedChains(text: Text, chains: seq<ChainName>) returns (m: map<string, string>)
    ensures m == AllowedValues(text, Named(chains)) && IsAllowedMap(text, Named(chains), m)
  {
    m := map[];
    for i := 0 to |chains|
      invariant m == AllowedValues(text, Named(chains[..i]))
    {
      assert chains[..i + 1][..i] == chains[..i];
      if chains[i].name != "" {
        var names := Named(chains[..i]);
        assert (names + [chains[i].name])[..|names|] == names;
        m := m[text.Canonical(chains[i].name) := chains[i].name];
      } else {
        assert Named(chains[..i]) + [] == Named(chains[..i]);
      }
    }
    assert chains[..|chains|] == chains;
    AllowedValuesAreExact(text, Named(chains));
  }

  method BuildSelectorToName(chains: seq<ChainName>) returns (m: map<uint64, string>)
    ensures m == SelectorToName(chains)
  {
    m := map[];
    for i := 0 to |chains|
      invariant m == SelectorToName(chains[..i])
    {
      assert chains[..i + 1][..i] == chains[..i];
      if chains[i].name != "" {
        m := m[chains[i].chainSelector := chains[i].name];
      }
    }
    assert chains[..|chains|] == chains;
  }

  /** Chains are told apart by selector, and by canonical name where they have one. */
  predicate DistinctChains(text: Text, chains: seq<ChainName>) {
    && (forall i, j :: 0 <= i < j < |chains| ==> chains[i].chainSelector != chains[j].chainSelector)
    && (forall i, j :: 0 <= i < j < |chains| && chains[i].name != "" && chains[j].name != "" ==>
          text.Canonical(chains[i].name) != text.Canonical(chains[j].name))
  }

  lemma {:induction false} SelectorToNameEntries(chains: seq<ChainName>)
    ensures forall c :: c in SelectorToName(chains) ==> ChainName(c, SelectorToName(chains)[c]) in chains
                                                        && SelectorToName(chains)[c] != ""
    ensures forall i :: 0 <= i < |chains| && chains[i].name != "" ==> chains[i].chainSelector in SelectorToName(chains)
  {
    if chains != [] {
      SelectorToNameEntries(chains[..|chains| - 1]);
    }
  }

  /** With distinct selectors the map holds exactly the named chains. */
  lemma SelectorToNameIsExact(text: Text, chains: seq<ChainName>, c: ChainName)
    requires DistinctChains(text, chains) && c in chains
    ensures c.name != "" ==> c.chainSelector in SelectorToName(chains) && SelectorToName(chains)[c.chainSelector] == c.name
    ensures c.name == "" ==> c.chainSelector !in SelectorToName(chains)
  {
    SelectorToNameEntries(chains);
    var i :| 0 <= i < |chains| && chains[i] == c;
    if c.chainSelector in SelectorToName(chains) {
      var d := ChainName(c.chainSelector, SelectorToName(chains)[c.chainSelector]);
      var j :| 0 <= j < |chains| && chains[j] == d;
      assert i == j;
    }
  }

  /** The name of the active chain, empty when it is unknown or has none. */
  function NameOf(policy: Policy, selector: uint64): string {
    if selector in SelectorToName(policy.chains) then SelectorToName(policy.chains)[selector] else ""
  }

  predicate Denotes(text: Text, c: ChainName, chain: string) {
    c.name != "" && text.Canonical(c.name) == text.Canonical(chain)
  }

  /** The selector of the chain that a pool's chain name denotes. */
  function SelectorOf(text: Text, policy: Policy, chain: string): Option<uint64> {
    FirstDenoted(text, policy.chains, chain)
  }

  function FirstDenoted(text: Text, chains: seq<ChainName>, chain: string): (r: Option<uint64>)
    ensures r.None? <==> forall c :: c in chains ==> !Denotes(text, c, chain)
    ensures r.Some? ==> exists c :: c in chains && Denotes(text, c, chain) && c.chainSelector == r.value
  {
    if chains == [] then None
    else if Denotes(text, chains[0], chain) then Some(chains[0].chainSelector)
    else FirstDenoted(text, chains[1..], chain)
  }

  /** The search over the selector map, in whatever order its keys come out. With distinct chains the
      order does not matter. */
  method PoolToChainSelector(text: Text, policy: Policy, chain: string) returns (selector: Option<uint64>)
    ensures selector.None? <==> forall c :: c in SelectorToName(policy.chains) ==>
                                  text.Canonical(SelectorToName(policy.chains)[c]) != text.Canonical(chain)
    ensures selector.Some? ==>
              && selector.value in SelectorToName(policy.chains)
              && text.Canonical(SelectorToName(policy.chains)[selector.value]) == text.Canonical(chain)
    ensures DistinctChains(text, policy.chains) ==> selector == SelectorOf(text, policy, chain)
  {
    var names := BuildSelectorToName(policy.chains);
    var left := names.Keys;
    selector := None;
    while left != {} && selector.None?
      invariant left <= names.Keys
      invariant selector.None? ==> forall c :: c in names && c !in left ==> text.Canonical(names[c]) != text.Canonical(chain)
      invariant selector.Some? ==> selector.value in names
                                   && text.Canonical(names[selector.value]) == text.Canonical(chain)
      decreases left
    {
      var c :| c in left;
      if text.Canonical(names[c]) == text.Canonical(chain) {
        selector := Some(c);
      }
      left := left - {c};
    }
    if DistinctChains(text, policy.chains) {
      MapSearchIsUnique(text, policy, chain, selector);
    }
  }

  lemma MapSearchIsUnique(text: Text, policy: Policy, chain: string, found: Option<uint64>)
    requires DistinctChains(text, policy.chains)
    requires found.None? ==> forall c :: c in SelectorToName(policy.chains) ==>
                               text.Canonical(SelectorToName(policy.chains)[c]) != text.Canonical(chain)
    requires found.Some? ==>
               && found.value in SelectorToName(policy.chains)
               && text.Canonical(SelectorToName(policy.chains)[found.value]) == text.Canonical(chain)
    ensures found == SelectorOf(text, policy, chain)
  {
    var chains := policy.chains;
    SelectorToNameEntries(chains);
    var expected := SelectorOf(text, policy, chain);
    if expected.Some? {
      var c :| c in chains && Denotes(text, c, chain) && c.chainSelector == expected.value;
      SelectorToNameIsExact(text, chains, c);
      var d := ChainName(found.value, SelectorToName(chains)[found.value]);
      var i :| 0 <= i < |chains| && chains[i] == c;
      var j :| 0 <= j < |chains| && chains[j] == d;
      assert i == j;
    } else if found.Some? {
      assert Denotes(text, ChainName(found.value, SelectorToName(chains)[found.value]), chain);
    }
  }

  lemma ValidConfigHasDistinctChains(text: Text, cfg: Config)
    requires ValidEvms(text, cfg.evms)
    ensures DistinctChains(text, SelectionPolicy(cfg).chains)
  {
    ChainNamesAt(cfg.evms);
    var chains := ChainNames(cfg.evms);
    forall i, j | 0 <= i < j < |chains| && chains[i].name != "" && chains[j].name != ""
      ensures text.Canonical(chains[i].name) != text.Canonical(chains[j].name)
    {
      assert !SameChainName(text, cfg.evms[i], cfg.evms[j]);
    }
  }

  /** Name and selector of a configured chain lead back to each other, and an unknown chain has no name. */
  lemma ChainNameRoundTrip(text: Text, cfg: Config, e: EvmConfig)
    requires ValidEvms(text, cfg.evms) && e in cfg.evms
    ensures NameOf(SelectionPolicy(cfg), e.chainSelector) == e.defiLlamaChainName
    ensures e.defiLlamaChainName != "" ==>
              SelectorOf(text, SelectionPolicy(cfg), e.defiLlamaChainName) == Some(e.chainSelector)
  {
    ValidConfigHasDistinctChains(text, cfg);
    ChainNamesAt(cfg.evms);
    var chains := ChainNames(cfg.evms);
    var i :| 0 <= i < |cfg.evms| && cfg.evms[i] == e;
    assert chains[i] in chains;
    SelectorToNameIsExact(text, chains, chains[i]);
    if e.defiLlamaChainName != "" {
      MapSearchIsUnique(text, SelectionPolicy(cfg), e.defiLlamaChainName, Some(e.chainSelector));
    }
  }

  // ----- candidates -----

  /** A pool as decoded from the response; a missing or null APY is nothing. */
  datatype PoolJson = PoolJson(pool: string, chain: string, project: string, symbol: string, apy: Option<real>)

  const BLANK_POOL := PoolJson("", "", "", "", None)

  predicate Names(text: Text, key: string, field: string) {
    key == field || text.fold(key) == text.fold(field)
  }

  /** One member of an element: an unknown key or a null string is ignored, a wrong type is an error. */
  function SetField(text: Text, p: PoolJson, m: Member): Option<PoolJson> {
    var asText := if m.value.JString? then Some(m.value.s) else None;
    if Names(text, m.key, "apyBase") then
      match m.value
      case JNumber(r, _) => Some(p.(apy := Some(r)))
      case JNull => Some(p.(apy := None))
      case _ => None
    else if Names(text, m.key, "pool") || Names(text, m.key, "chain")
            || Names(text, m.key, "project") || Names(text, m.key, "symbol") then
      if m.value.JNull? then Some(p)
      else if asText.None? then None
      else if Names(text, m.key, "pool") then Some(p.(pool := asText.value))
      else if Names(text, m.key, "chain") then Some(p.(chain := asText.value))
      else if Names(text, m.key, "project") then Some(p.(project := asText.value))
      else Some(p.(symbol := asText.value))
    else Some(p)
  }

  function SetFields(text: Text, ms: seq<Member>): Option<PoolJson> {
    if ms == [] then Some(BLANK_POOL)
    else
      match SetFields(text, ms[..|ms| - 1])
      case None => None
      case Some(p) => SetField(text, p, ms[|ms| - 1])
  }

  /** Decoding one element into the pool record; nothing if it is malformed. */
  function DecodePool(text: Text, v: Json): Option<PoolJson> {
    match v
    case JObject(ms) => SetFields(text, ms)
    case JNull => Some(BLANK_POOL)
    case _ => None
  }

  /** The approved values of one response, from canonical to configured spelling. */
  datatype Allowed = Allowed(pools: map<string, string>, chains: map<string, string>,
                             projects: map<string, string>, symbols: map<string, string>)

  function AllowedBy(text: Text, policy: Policy): Allowed {
    Allowed(AllowedValues(text, policy.poolIDs), AllowedValues(text, Named(policy.chains)),
            AllowedValues(text, policy.projects), AllowedValues(text, policy.symbols))
  }

  /** The candidate an element yields: complete, approved in all four respects, and with an APY in range.
      It carries the configured spelling of every value. */
  function AcceptBy(text: Text, allowed: Allowed, v: Json): Option<Pool> {
    match DecodePool(text, v)
    case None => None
    case Some(p) =>
      if p.apy.None? then None
      else if text.Canonical(p.pool) !in allowed.pools || text.Canonical(p.symbol) !in allowed.symbols
              || text.Canonical(p.project) !in allowed.projects || text.Canonical(p.chain) !in allowed.chains then None
      else if !ValidPoolApy(p.apy.value) then None
      else Some(Pool(allowed.pools[text.Canonical(p.pool)], allowed.chains[text.Canonical(p.chain)],
                     allowed.projects[text.Canonical(p.project)], allowed.symbols[text.Canonical(p.symbol)],
                     p.apy.value))
  }

  function Accept(text: Text, policy: Policy, v: Json): Option<Pool> {
    AcceptBy(text, AllowedBy(text, policy), v)
  }

  function Candidates(text: Text, policy: Policy, vs: seq<Json>): seq<Pool> {
    if vs == [] then []
    else
      var front := Candidates(text, policy, vs[..|vs| - 1]);
      match Accept(text, policy, vs[|vs| - 1])
      case None => front
      case Some(p) => front + [p]
  }

  /** Every value of the pool is one the configuration approves, spelled as configured. */
  predicate Approved(policy: Policy, p: Pool) {
    && p.pool in policy.poolIDs && p.chain in Named(policy.chains)
    && p.project in policy.projects && p.symbol in policy.symbols
    && ValidPoolApy(p.apy)
  }

  /** The pool carries the values of this element, up to their canonical form. */
  predicate StandsFor(text: Text, p: Pool, v: Json) {
    match DecodePool(text, v)
    case None => false
    case Some(d) =>
      && text.Canonical(p.pool) == text.Canonical(d.pool) && text.Canonical(p.chain) == text.Canonical(d.chain)
      && text.Canonical(p.project) == text.Canonical(d.project) && text.Canonical(p.symbol) == text.Canonical(d.symbol)
      && d.apy == Some(p.apy)
  }

  /** An accepted element yields an approved pool with its own values. */
  lemma AcceptedStandsForElement(text: Text, policy: Policy, v: Json)
    ensures Accept(text, policy, v).Some? ==>
              Approved(policy, Accept(text, policy, v).value) && StandsFor(text, Accept(text, policy, v).value, v)
  {
    AllowedValuesAreExact(text, policy.poolIDs);
    AllowedValuesAreExact(text, Named(policy.chains));
    AllowedValuesAreExact(text, policy.projects);
    AllowedValuesAreExact(text, policy.symbols);
  }

  /** The lists of a policy tell their values apart. */
  predicate DistinctPolicy(text: Text, policy: Policy) {
    && DistinctValues(text, policy.poolIDs) && DistinctValues(text, Named(policy.chains))
    && DistinctValues(text, policy.projects) && DistinctValues(text, policy.symbols)
  }

  /** Exactly the approved pools with the values of an element are what it yields: at most one, and none
      for a malformed, incomplete or unapproved element. */
  lemma AcceptIsExact(text: Text, policy: Policy, v: Json, p: Pool)
    requires DistinctPolicy(text, policy)
    ensures Accept(text, policy, v) == Some(p) <==> Approved(policy, p) && StandsFor(text, p, v)
  {
    AcceptedStandsForElement(text, policy, v);
    if Approved(policy, p) && StandsFor(text, p, v) {
      DistinctValueIsFound(text, policy.poolIDs, p.pool);
      DistinctValueIsFound(text, Named(policy.chains), p.chain);
      DistinctValueIsFound(text, policy.projects, p.project);
      DistinctValueIsFound(text, policy.symbols, p.symbol);
    }
  }

  lemma {:induction false} NamedAreDistinct(text: Text, chains: seq<ChainName>)
    requires DistinctChains(text, chains)
    ensures DistinctValues(text, Named(chains))
  {
    if chains != [] {
      var front, last := chains[..|chains| - 1], chains[|chains| - 1];
      NamedAreDistinct(text, front);
      forall n | n in Named(front) && last.name != ""
        ensures text.Canonical(n) != text.Canonical(last.name)
      {
        var c := NamedChain(front, n);
        var i :| 0 <= i < |front| && front[i] == c;
        assert chains[i] == c && chains[|chains| - 1] == last;
      }
    }
  }

  /** A valid configuration gives a policy that tells its values apart. */
  lemma ValidPolicyIsDistinct(text: Text, cfg: Config)
    requires ValidDefiLlama(text, cfg.defiLlama) && ValidEvms(text, cfg.evms)
    ensures DistinctPolicy(text, SelectionPolicy(cfg))
  {
    ValidConfigHasDistinctChains(text, cfg);
    NamedAreDistinct(text, SelectionPolicy(cfg).chains);
  }

  /** Every candidate is approved, and stands for an element it was read from. */
  lemma {:induction false} CandidatesAreApproved(text: Text, policy: Policy, vs: seq<Json>)
    ensures forall p :: p in Candidates(text, policy, vs) ==>
              Approved(policy, p) && exists v :: v in vs && StandsFor(text, p, v)
  {
    if vs != [] {
      var front, last := vs[..|vs| - 1], vs[|vs| - 1];
      CandidatesAreApproved(text, policy, front);
      AcceptedStandsForElement(text, policy, last);
      assert forall v :: v in front ==> v in vs;
      assert last in vs;
    }
  }

  lemma {:induction false} CandidatesOfConcat(text: Text, policy: Policy, a: seq<Json>, b: seq<Json>)
    ensures Candidates(text, policy, a + b) == Candidates(text, policy, a) + Candidates(text, policy, b)
  {
    if b == [] {
      assert a + b == a;
    } else {
      assert (a + b)[..|a + b| - 1] == a + b[..|b| - 1];
      CandidatesOfConcat(text, policy, a, b[..|b| - 1]);
    }
  }

  lemma MiddleOut<T>(l: seq<T>, x: seq<T>, r: seq<T>)
    ensures multiset(l + (x + r)) == multiset(l + r) + multiset(x)
  {
    assert multiset(l + (x + r)) == multiset(l) + multiset(x + r);
  }

  lemma RemoveFirst(a: seq<Json>, l: seq<Json>, r: seq<Json>)
    requires a != [] && multiset(a) == multiset(l + ([a[0]] + r))
    ensures multiset(a[1..]) == multiset(l + r)
  {
    assert a == [a[0]] + a[1..];
    assert multiset(a[1..]) == multiset(a) - multiset{a[0]};
    assert multiset(l + ([a[0]] + r)) == multiset(l) + multiset{a[0]} + multiset(r);
  }

  /** Where a permutation put the first element. */
  lemma FindFirst(a: seq<Json>, b: seq<Json>) returns (l: seq<Json>, r: seq<Json>)
    requires a != [] && multiset(a) == multiset(b)
    ensures b == l + ([a[0]] + r) && multiset(a[1..]) == multiset(l + r)
  {
    assert a[0] in multiset(a);
    var k :| 0 <= k < |b| && b[k] == a[0];
    l, r := b[..k], b[k + 1..];
    assert b == l + ([a[0]] + r);
    RemoveFirst(a, l, r);
  }

  /** Permuted elements give permuted candidates. */
  lemma {:induction false} CandidatesOfPermutation(text: Text, policy: Policy, a: seq<Json>, b: seq<Json>)
    requires multiset(a) == multiset(b)
    ensures multiset(Candidates(text, policy, a)) == multiset(Candidates(text, policy, b))
  {
    if a == [] {
      assert |multiset(b)| == 0;
    } else {
      var l, r := FindFirst(a, b);
      CandidatesOfPermutation(text, policy, a[1..], l + r);
      SplitAround(text, policy, [], a[0], a[1..]);
      assert a == [] + ([a[0]] + a[1..]) && [] + a[1..] == a[1..];
      SplitAround(text, policy, l, a[0], r);
    }
  }

  /** Taking one element out takes out what it yields. */
  lemma SplitAround(text: Text, policy: Policy, l: seq<Json>, x: Json, r: seq<Json>)
    ensures multiset(Candidates(text, policy, l + ([x] + r)))
            == multiset(Candidates(text, policy, l + r)) + multiset(Candidates(text, policy, [x]))
  {
    CandidatesOfConcat(text, policy, l, [x] + r);
    CandidatesOfConcat(text, policy, [x], r);
    CandidatesOfConcat(text, policy, l, r);
    MiddleOut(Candidates(text, policy, l), Candidates(text, policy, [x]), Candidates(text, policy, r));
  }

  /** Malformed, incomplete or unapproved elements, those no approved pool stands for, yield nothing. */
  lemma {:induction false} RejectedYieldNothing(text: Text, policy: Policy, rejected: seq<Json>)
    requires forall v, p: Pool :: v in rejected && StandsFor(text, p, v) ==> !Approved(policy, p)
    ensures Candidates(text, policy, rejected) == []
  {
    if rejected != [] {
      RejectedYieldNothing(text, policy, rejected[..|rejected| - 1]);
      AcceptedStandsForElement(text, policy, rejected[|rejected| - 1]);
    }
  }

  lemma {:induction false} NamedChain(chains: seq<ChainName>, name: string) returns (c: ChainName)
    requires name in Named(chains)
    ensures c in chains && c.name == name != ""
  {
    var last := chains[|chains| - 1];
    if last.name == name && name != "" {
      c := last;
    } else {
      c := NamedChain(chains[..|chains| - 1], name);
    }
  }

  predicate OnStrategy(keccak: string -> ProtocolId, p: Pool, protocolId: ProtocolId, chainName: string) {
    p.chain == chainName && keccak(p.project) == protocolId
  }

  /** The strategy a pool stands for, if its chain is configured. */
  function StrategyOf(text: Text, keccak: string -> ProtocolId, policy: Policy, p: Pool): Option<Strategy> {
    match SelectorOf(text, policy, p.chain)
    case None => None
    case Some(selector) => Some(Strategy(keccak(p.project), selector))
  }

  /** An approved pool always stands for a strategy, and comparing chain names with the active chain's
      name recognises exactly the pools that stand for the active strategy. An active chain without a
      name is never recognised. */
  lemma ActiveStrategyIsRecognised(text: Text, keccak: string -> ProtocolId, cfg: Config, p: Pool, active: Strategy)
    requires ValidEvms(text, cfg.evms) && Approved(SelectionPolicy(cfg), p)
    ensures StrategyOf(text, keccak, SelectionPolicy(cfg), p).Some?
    ensures OnStrategy(keccak, p, active.protocolId, NameOf(SelectionPolicy(cfg), active.chainSelector))
            <==> StrategyOf(text, keccak, SelectionPolicy(cfg), p) == Some(active)
  {
    var policy := SelectionPolicy(cfg);
    ValidConfigHasDistinctChains(text, cfg);
    var c := NamedChain(policy.chains, p.chain);
    SelectorToNameIsExact(text, policy.chains, c);
    MapSearchIsUnique(text, policy, p.chain, Some(c.chainSelector));
    if p.chain == NameOf(policy, active.chainSelector) {
      MapSearchIsUnique(text, policy, p.chain, Some(active.chainSelector));
    }
  }

  // ----- choosing -----

  function FirstOnStrategy(keccak: string -> ProtocolId, ps: seq<Pool>, protocolId: ProtocolId,
                           chainName: string): Option<Pool> {
    if ps == [] then None
    else if OnStrategy(keccak, ps[0], protocolId, chainName) then Some(ps[0])
    else FirstOnStrategy(keccak, ps[1..], protocolId, chainName)
  }

  /** The best and the current pool of an unordered collection of candidates. */
  function Choose(keccak: string -> ProtocolId, ps: seq<Pool>, protocolId: ProtocolId, chainName: string): Selection {
    var sorted := Sorted(ps);
    Selection(if sorted == [] then None else Some(sorted[0]), FirstOnStrategy(keccak, sorted, protocolId, chainName))
  }

  lemma {:induction false} FirstOnStrategyRanks(keccak: string -> ProtocolId, ps: seq<Pool>, protocolId: ProtocolId,
                                                chainName: string)
    requires Ranked(ps)
    ensures var r := FirstOnStrategy(keccak, ps, protocolId, chainName);
            && (r.None? <==> forall p :: p in ps ==> !OnStrategy(keccak, p, protocolId, chainName))
            && (r.Some? ==> r.value in ps && OnStrategy(keccak, r.value, protocolId, chainName)
                            && forall p :: p in ps && OnStrategy(keccak, p, protocolId, chainName) ==> !Before(p, r.value))
  {
    if ps != [] {
      assert ps == [ps[0]] + ps[1..];
      if OnStrategy(keccak, ps[0], protocolId, chainName) {
        forall p | p in ps
          ensures !Before(p, ps[0])
        {
          FirstIsTop(ps, p);
        }
      } else {
        DropFirst(ps);
        FirstOnStrategyRanks(keccak, ps[1..], protocolId, chainName);
      }
    }
  }

  /** The choice says what it means: each of the two is the top-ranked candidate of its kind. */
  lemma ChooseIsTopRanked(keccak: string -> ProtocolId, ps: seq<Pool>, protocolId: ProtocolId, chainName: string)
    ensures var s := Choose(keccak, ps, protocolId, chainName);
            && (s.best.None? <==> ps == [])
            && (s.best.Some? ==> s.best.value in ps && forall p :: p in ps ==> !Before(p, s.best.value))
            && (s.current.None? <==> forall p :: p in ps ==> !OnStrategy(keccak, p, protocolId, chainName))
            && (s.current.Some? ==>
                  s.current.value in ps && OnStrategy(keccak, s.current.value, protocolId, chainName)
                  && forall p :: p in ps && OnStrategy(keccak, p, protocolId, chainName) ==> !Before(p, s.current.value))
  {
    var sorted := Sorted(ps);
    SortedRanks(ps);
    assert |multiset(sorted)| == |sorted| && |multiset(ps)| == |ps|;
    assert forall p :: p in ps <==> p in multiset(sorted);
    assert forall p :: p in sorted <==> p in multiset(ps);
    FirstOnStrategyRanks(keccak, sorted, protocolId, chainName);
    forall p | p in ps
      ensures !Before(p, sorted[0])
    {
      FirstIsTop(sorted, p);
    }
  }

  /** Only which candidates there are matters, not their order. */
  lemma ChooseIgnoresOrder(keccak: string -> ProtocolId, a: seq<Pool>, b: seq<Pool>, protocolId: ProtocolId,
                           chainName: string)
    requires multiset(a) == multiset(b)
    ensures Choose(keccak, a, protocolId, chainName) == Choose(keccak, b, protocolId, chainName)
  {
    SortedRanks(a);
    SortedRanks(b);
    RankedIsUnique(Sorted(a), Sorted(b));
  }
}
