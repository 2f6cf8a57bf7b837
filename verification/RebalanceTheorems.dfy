/** Why rebalancing pays and why it comes to rest. */
module RebalanceTheorems {
  import opened Results
  import opened Words
  import opened Bindings
  import opened Config
  import opened JsonStream
  import opened PoolRanking
  import opened PoolSelection
  import opened RelayResponse
  import opened Snapshot
  import opened Handlers
  import opened Workflow
  import opened Preflight

  /** The candidates in a response body. */
  function Offered(text: Text, cfg: Config, body: Json): seq<Pool> {
    match Elements(text, body)
    case None => []
    case Some(vs) => Candidates(text, SelectionPolicy(cfg), vs)
  }

  /** Two bodies offer the same candidates, in whatever order and among whatever else. */
  ghost predicate SameOffer(text: Text, cfg: Config, a: Json, b: Json) {
    multiset(Offered(text, cfg, a)) == multiset(Offered(text, cfg, b))
  }

  function Decide(text: Text, keccak: string -> ProtocolId, cfg: Config, s: Snapshot, body: Json, now: int64): Outcome
    requires ValidConfig(text, cfg) && ValidSnapshot(cfg.evms, s)
  {
    OnRebalanceCron(text, keccak, cfg, s, Fetch(text, keccak, cfg, s.parent.rebalance.activeStrategy, Some(body), now))
  }

  /** Nothing in the snapshot keeps an initiation back. */
  predicate Ready(cfg: Config, s: Snapshot)
    requires ValidSnapshot(cfg.evms, s)
  {
    var p := s.parent;
    && p.rebalance.state == REBALANCE_NONE && p.currentEpochNonce.v > 1 && p.previousEpoch.status != EPOCH_EXECUTING
    && s.observedAt >= p.rebalance.lastRebalanceCompletedTimestamp.v + MIN_REBALANCE_INTERVAL
    && FindParent(cfg.evms).Some?
    && (p.rebalance.activeStrategy.chainSelector == FindParent(cfg.evms).value.chainSelector ==> p.tvl.v != 0)
  }

  /** A fresh body whose best pool beats the active strategy's best pool by a point or more. */
  predicate Pays(text: Text, keccak: string -> ProtocolId, cfg: Config, active: Strategy, body: Json, now: int64,
                 best: Pool, current: Pool)
  {
    var policy, offered := SelectionPolicy(cfg), Offered(text, cfg, body);
    && Elements(text, body).Some? && RefreshedAt(text, body).Some? && InWindow(RefreshedAt(text, body).value, now)
    && best in offered && (forall p :: p in offered ==> !Before(p, best))
    && StrategyOf(text, keccak, policy, best) != Some(active)
    && current in offered && StrategyOf(text, keccak, policy, current) == Some(active)
    && (forall p :: p in offered && StrategyOf(text, keccak, policy, p) == Some(active) ==> !Before(p, current))
    && best.apy - current.apy >= 1.0
  }

  /** What an initiation says about the selection it was decided on. */
  lemma InitiationFacts(text: Text, keccak: string -> ProtocolId, cfg: Config, s: Snapshot, fetched: Option<Selection>)
    requires ValidConfig(text, cfg) && ValidSnapshot(cfg.evms, s)
    requires OnRebalanceCron(text, keccak, cfg, s, fetched).Submit?
    ensures OnRebalanceCron(text, keccak, cfg, s, fetched).report.call.InitiateRebalance?
    ensures Ready(cfg, s) && fetched.Some? && fetched.value.best.Some? && fetched.value.current.Some?
    ensures var target := OnRebalanceCron(text, keccak, cfg, s, fetched).report.call.newStrategy;
            && StrategyOf(text, keccak, SelectionPolicy(cfg), fetched.value.best.value) == Some(target)
            && target != s.parent.rebalance.activeStrategy
            && fetched.value.best.value.apy - fetched.value.current.value.apy >= 1.0
  {
  }

  /** A selection with a gap of a point or more comes from a paying offer. */
  lemma SelectionPays(text: Text, keccak: string -> ProtocolId, cfg: Config, active: Strategy, body: Json, now: int64,
                      best: Pool, current: Pool)
    requires ValidConfig(text, cfg)
    requires Fetch(text, keccak, cfg, active, Some(body), now) == Some(Selection(Some(best), Some(current)))
    requires StrategyOf(text, keccak, SelectionPolicy(cfg), best) != Some(active) && best.apy - current.apy >= 1.0
    ensures Pays(text, keccak, cfg, active, body, now, best, current)
  {
    var policy, offered := SelectionPolicy(cfg), Offered(text, cfg, body);
    var name := NameOf(policy, active.chainSelector);
    CandidatesAreApproved(text, policy, Elements(text, body).value);
    ChooseIsTopRanked(keccak, offered, active.protocolId, name);
    forall p | p in offered
      ensures OnStrategy(keccak, p, active.protocolId, name) <==> StrategyOf(text, keccak, policy, p) == Some(active)
    {
      ActiveStrategyIsRecognised(text, keccak, cfg, p, active);
    }
  }

  /** The best pool of a paying offer yields most of all, and at least one point more than every pool of the
      active strategy. */
  lemma BestBeatsActive(text: Text, keccak: string -> ProtocolId, cfg: Config, active: Strategy, body: Json, now: int64,
                        best: Pool, current: Pool, p: Pool)
    requires Pays(text, keccak, cfg, active, body, now, best, current) && p in Offered(text, cfg, body)
    ensures p.apy <= best.apy
    ensures StrategyOf(text, keccak, SelectionPolicy(cfg), p) == Some(active) ==> best.apy - p.apy >= 1.0
  {
    assert !Before(p, best);
  }

  function InitiatedTarget(o: Outcome): Option<Strategy> {
    if o.Submit? && o.report.call.InitiateRebalance? then Some(o.report.call.newStrategy) else None
  }

  /** Initiated only on a ready snapshot and a paying offer, towards the configured strategy of its best pool. */
  lemma InitiationPays(text: Text, keccak: string -> ProtocolId, cfg: Config, s: Snapshot, body: Json, now: int64)
    returns (best: Pool, current: Pool)
    requires ValidConfig(text, cfg) && ValidSnapshot(cfg.evms, s)
    requires Decide(text, keccak, cfg, s, body, now).Submit?
    ensures Ready(cfg, s) && Pays(text, keccak, cfg, s.parent.rebalance.activeStrategy, body, now, best, current)
    ensures var target := InitiatedTarget(Decide(text, keccak, cfg, s, body, now));
            target.Some? && target == StrategyOf(text, keccak, SelectionPolicy(cfg), best)
            && FindEvmByChainSelector(cfg.evms, target.value.chainSelector).Some?
  {
    var active := s.parent.rebalance.activeStrategy;
    var fetched := Fetch(text, keccak, cfg, active, Some(body), now);
    InitiationFacts(text, keccak, cfg, s, fetched);
    best := fetched.value.best.value;
    current := fetched.value.current.value;
    SelectionPays(text, keccak, cfg, active, body, now, best, current);
    ConfiguredSelector(text, cfg, best.chain);
  }

  /** The chain that a pool's chain name denotes is configured. */
  lemma ConfiguredSelector(text: Text, cfg: Config, chain: string)
    ensures SelectorOf(text, SelectionPolicy(cfg), chain).Some? ==>
              FindEvmByChainSelector(cfg.evms, SelectorOf(text, SelectionPolicy(cfg), chain).value).Some?
  {
    var r := SelectorOf(text, SelectionPolicy(cfg), chain);
    if r.Some? {
      ChainNamesAt(cfg.evms);
      var c :| c in ChainNames(cfg.evms) && Denotes(text, c, chain) && c.chainSelector == r.value;
      var i :| 0 <= i < |cfg.evms| && ChainNames(cfg.evms)[i] == c;
      assert cfg.evms[i] in cfg.evms;
    }
  }

  /** While the offer stays the same, all initiations aim at one strategy, and once it is active nothing is
      submitted any more, whatever else has happened to the vaults and whenever the data was fetched. */
  lemma UnchangedOfferSettles(text: Text, keccak: string -> ProtocolId, cfg: Config, target: Strategy,
                              s1: Snapshot, body1: Json, now1: int64, s2: Snapshot, body2: Json, now2: int64)
    requires ValidConfig(text, cfg) && ValidSnapshot(cfg.evms, s1) && ValidSnapshot(cfg.evms, s2)
    requires SameOffer(text, cfg, body1, body2)
    requires InitiatedTarget(Decide(text, keccak, cfg, s1, body1, now1)) == Some(target)
    ensures Decide(text, keccak, cfg, s2, body2, now2).Submit? ==>
              && InitiatedTarget(Decide(text, keccak, cfg, s2, body2, now2)) == Some(target)
              && s2.parent.rebalance.activeStrategy != target
  {
    BestOnOffer(text, keccak, cfg, s1, body1, now1);
    if Decide(text, keccak, cfg, s2, body2, now2).Submit? {
      BestOnOffer(text, keccak, cfg, s2, body2, now2);
    }
    SortedRanks(Offered(text, cfg, body1));
    SortedRanks(Offered(text, cfg, body2));
    RankedIsUnique(Sorted(Offered(text, cfg, body1)), Sorted(Offered(text, cfg, body2)));
  }

  /** An initiation aims at the strategy of the first of the offered pools in order of rank. */
  lemma BestOnOffer(text: Text, keccak: string -> ProtocolId, cfg: Config, s: Snapshot, body: Json, now: int64)
    requires ValidConfig(text, cfg) && ValidSnapshot(cfg.evms, s)
    requires Decide(text, keccak, cfg, s, body, now).Submit?
    ensures var sorted := Sorted(Offered(text, cfg, body));
            var target := InitiatedTarget(Decide(text, keccak, cfg, s, body, now));
            && sorted != [] && target == StrategyOf(text, keccak, SelectionPolicy(cfg), sorted[0])
            && target.Some? && target.value != s.parent.rebalance.activeStrategy
  {
    InitiationFacts(text, keccak, cfg, s, Fetch(text, keccak, cfg, s.parent.rebalance.activeStrategy, Some(body), now));
  }

  /** What selecting from a paying offer returns. */
  lemma PayingSelection(text: Text, keccak: string -> ProtocolId, cfg: Config, active: Strategy, body: Json, now: int64,
                        best: Pool, current: Pool)
    requires ValidConfig(text, cfg) && Pays(text, keccak, cfg, active, body, now, best, current)
    ensures Fetch(text, keccak, cfg, active, Some(body), now) == Some(Selection(Some(best), Some(current)))
    ensures Approved(SelectionPolicy(cfg), best) && Approved(SelectionPolicy(cfg), current)
    ensures StrategyOf(text, keccak, SelectionPolicy(cfg), best).Some?
  {
    var policy, offered := SelectionPolicy(cfg), Offered(text, cfg, body);
    var name := NameOf(policy, active.chainSelector);
    CandidatesAreApproved(text, policy, Elements(text, body).value);
    ChooseIsTopRanked(keccak, offered, active.protocolId, name);
    forall p | p in offered
      ensures OnStrategy(keccak, p, active.protocolId, name) <==> StrategyOf(text, keccak, policy, p) == Some(active)
    {
      ActiveStrategyIsRecognised(text, keccak, cfg, p, active);
    }
    var chosen := Choose(keccak, offered, active.protocolId, name);
    BeforeIsTotal(chosen.best.value, best);
    BeforeIsTotal(chosen.current.value, current);
    ActiveStrategyIsRecognised(text, keccak, cfg, best, active);
  }

  /** Conversely, a paying offer on a ready snapshot is always taken up, for the strategy of the best pool. */
  lemma PayingOfferIsInitiated(text: Text, keccak: string -> ProtocolId, cfg: Config, s: Snapshot, body: Json, now: int64,
                               best: Pool, current: Pool)
    requires ValidConfig(text, cfg) && ValidSnapshot(cfg.evms, s) && Ready(cfg, s)
    requires Pays(text, keccak, cfg, s.parent.rebalance.activeStrategy, body, now, best, current)
    ensures StrategyOf(text, keccak, SelectionPolicy(cfg), best).Some?
    ensures InitiatedTarget(Decide(text, keccak, cfg, s, body, now)) == StrategyOf(text, keccak, SelectionPolicy(cfg), best)
  {
    PayingSelection(text, keccak, cfg, s.parent.rebalance.activeStrategy, body, now, best, current);
    SelectionIsTakenUp(text, keccak, cfg, s, best, current);
  }

  lemma SelectionIsTakenUp(text: Text, keccak: string -> ProtocolId, cfg: Config, s: Snapshot, best: Pool, current: Pool)
    requires ValidConfig(text, cfg) && ValidSnapshot(cfg.evms, s) && Ready(cfg, s)
    requires ValidPoolApy(best.apy) && ValidPoolApy(current.apy) && best.apy - current.apy >= 1.0
    requires StrategyOf(text, keccak, SelectionPolicy(cfg), best).Some?
    requires StrategyOf(text, keccak, SelectionPolicy(cfg), best) != Some(s.parent.rebalance.activeStrategy)
    ensures InitiatedTarget(OnRebalanceCron(text, keccak, cfg, s, Some(Selection(Some(best), Some(current)))))
            == StrategyOf(text, keccak, SelectionPolicy(cfg), best)
  {
  }

  /** On what a real response selects, the schedule fails only when the response gave nothing: the best
      pool's chain is always known. */
  lemma ScheduleFailsOnlyUnfetched(text: Text, keccak: string -> ProtocolId, cfg: Config, s: Snapshot,
                                   body: Json, now: int64)
    requires ValidConfig(text, cfg) && ValidSnapshot(cfg.evms, s)
    ensures Decide(text, keccak, cfg, s, body, now).Fail? ==>
              && Decide(text, keccak, cfg, s, body, now).error == FetchFailed
              && Fetch(text, keccak, cfg, s.parent.rebalance.activeStrategy, Some(body), now) == None
  {
    var active := s.parent.rebalance.activeStrategy;
    var fetched := Fetch(text, keccak, cfg, active, Some(body), now);
    SchedulesFailOnlyOutside(text, keccak, cfg, s, fetched);
    if fetched.Some? && fetched.value.best.Some? {
      BestIsKnown(text, keccak, cfg, active, body, now);
    }
  }

  lemma BestIsKnown(text: Text, keccak: string -> ProtocolId, cfg: Config, active: Strategy, body: Json, now: int64)
    requires ValidConfig(text, cfg)
    requires Fetch(text, keccak, cfg, active, Some(body), now).Some?
    requires Fetch(text, keccak, cfg, active, Some(body), now).value.best.Some?
    ensures SelectorOf(text, SelectionPolicy(cfg),
                       Fetch(text, keccak, cfg, active, Some(body), now).value.best.value.chain).Some?
  {
    var policy, offered := SelectionPolicy(cfg), Offered(text, cfg, body);
    var best := Fetch(text, keccak, cfg, active, Some(body), now).value.best.value;
    CandidatesAreApproved(text, policy, Elements(text, body).value);
    ChooseIsTopRanked(keccak, offered, active.protocolId, NameOf(policy, active.chainSelector));
    ActiveStrategyIsRecognised(text, keccak, cfg, best, active);
  }
}
