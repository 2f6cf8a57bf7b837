/** The workflow configuration and its validation. */
module Config {
  import opened Results
  import opened Words

  type Address = a: seq<uint8> | |a| == 20 witness [0, 0, 0, 0, 0, 0, 0, 0, 0, 0, 0, 0, 0, 0, 0, 0, 0, 0, 0, 0]

  const ZERO_ADDRESS: Address := [0, 0, 0, 0, 0, 0, 0, 0, 0, 0, 0, 0, 0, 0, 0, 0, 0, 0, 0, 0]
  const MAX_GAS_LIMIT: uint64 := 5_000_000
  const MAX_TRIGGERS := 10

  /** A configured address: whether the text is a hex address, and the twenty bytes it reads as. */
  datatype HexAddress = HexAddress(isHex: bool, bytes: Address)

  datatype EvmConfig = EvmConfig(
    isParent: bool,
    chainName: string,
    defiLlamaChainName: string,
    chainSelector: uint64,
    vaultAddress: HexAddress,
    workflowRouterAddress: HexAddress,
    gasLimit: uint64)

  datatype DefiLlama = DefiLlama(poolIDs: seq<string>, projects: seq<string>, symbols: seq<string>)

  datatype Config = Config(
    rebalanceSchedule: string,
    epochSchedule: string,
    assetDecimals: Option<uint8>,
    blockNumber: Option<int64>,
    defiLlama: DefiLlama,
    evms: seq<EvmConfig>)

  /** The text library's trimming, lower-casing and case folding, about which nothing is assumed. */
  datatype Text = Text(trim: string -> string, lower: string -> string, fold: string -> string) {
    function Canonical(value: string): string {
      lower(trim(value))
    }
  }

  datatype Field = PoolIDs | Projects | Symbols

  datatype ConfigError =
    | NoEvms
    | EmptyList(field: Field)
    | BlankValue(field: Field, index: nat)
    | DuplicateValue(field: Field, index: nat)
    | UnsupportedProject(index: nat)
    | ZeroSelector(index: nat)
    | DuplicateSelector(index: nat)
    | InvalidVaultAddress(index: nat)
    | InvalidRouterAddress(index: nat)
    | InvalidGasLimit(index: nat)
    | DuplicateChainName(index: nat)
    | ParentCount
    | TooManyTriggers
    | InvalidAssetDecimals
    | MissingBlockNumber
    | BlankSchedule

  // ----- what a valid configuration is -----

  predicate IsRequiredAddress(a: HexAddress) {
    a.isHex && a.bytes != ZERO_ADDRESS
  }

  /** The canonical forms of the values are pairwise different. */
  predicate DistinctValues(text: Text, values: seq<string>) {
    forall i, j :: 0 <= i < j < |values| ==> text.Canonical(values[i]) != text.Canonical(values[j])
  }

  predicate UniqueNonEmpty(text: Text, values: seq<string>) {
    && values != []
    && (forall i :: 0 <= i < |values| ==> text.Canonical(values[i]) != "")
    && DistinctValues(text, values)
  }

  predicate SupportedProject(project: string) {
    project in ["aave-v3", "aave-v4", "compound-v3"]
  }

  predicate ValidDefiLlama(text: Text, d: DefiLlama) {
    && UniqueNonEmpty(text, d.poolIDs)
    && UniqueNonEmpty(text, d.projects)
    && (forall i :: 0 <= i < |d.projects| ==> SupportedProject(d.projects[i]))
    && UniqueNonEmpty(text, d.symbols)
  }

  predicate ValidEvm(e: EvmConfig) {
    && e.chainSelector != 0
    && IsRequiredAddress(e.vaultAddress)
    && IsRequiredAddress(e.workflowRouterAddress)
    && 0 < e.gasLimit <= MAX_GAS_LIMIT
  }

  predicate SameChainName(text: Text, a: EvmConfig, b: EvmConfig) {
    && a.defiLlamaChainName != "" && b.defiLlamaChainName != ""
    && text.Canonical(a.defiLlamaChainName) == text.Canonical(b.defiLlamaChainName)
  }

  predicate OnlyParent(evms: seq<EvmConfig>, p: int) {
    0 <= p < |evms| && evms[p].isParent && forall i :: 0 <= i < |evms| && evms[i].isParent ==> i == p
  }

  /** The first `n` chains have pairwise different selectors. */
  predicate DistinctSelectors(evms: seq<EvmConfig>, n: nat)
    requires n <= |evms|
  {
    forall i, j :: 0 <= i < j < n ==> evms[i].chainSelector != evms[j].chainSelector
  }

  /** No two of the first `n` chains have the same canonical chain name. */
  predicate DistinctNames(text: Text, evms: seq<EvmConfig>, n: nat)
    requires n <= |evms|
  {
    forall i, j :: 0 <= i < j < n ==> !SameChainName(text, evms[i], evms[j])
  }

  ghost predicate ValidEvms(text: Text, evms: seq<EvmConfig>) {
    && (forall i :: 0 <= i < |evms| ==> ValidEvm(evms[i]))
    && DistinctSelectors(evms, |evms|) && DistinctNames(text, evms, |evms|)
    && (exists p :: OnlyParent(evms, p))
  }

  ghost predicate ValidConfig(text: Text, c: Config) {
    && c.evms != []
    && ValidDefiLlama(text, c.defiLlama)
    && ValidEvms(text, c.evms)
    && TriggerCount(|c.evms|) <= MAX_TRIGGERS
    && c.assetDecimals.Some? && c.assetDecimals.value <= 77
    && c.blockNumber.Some?
    && text.trim(c.epochSchedule) != "" && text.trim(c.rebalanceSchedule) != ""
  }

  function TriggerCount(chains: int): int {
    chains + 2
  }

  function ListOf(d: DefiLlama, field: Field): seq<string> {
    match field
    case PoolIDs => d.poolIDs
    case Projects => d.projects
    case Symbols => d.symbols
  }

  /** The fault an error names is really there. */
  ghost predicate Fault(text: Text, c: Config, e: ConfigError) {
    match e
    case NoEvms => c.evms == []
    case EmptyList(f) => ListOf(c.defiLlama, f) == []
    case BlankValue(f, i) => i < |ListOf(c.defiLlama, f)| && text.Canonical(ListOf(c.defiLlama, f)[i]) == ""
    case DuplicateValue(f, i) =>
      i < |ListOf(c.defiLlama, f)|
      && exists j :: 0 <= j < i && text.Canonical(ListOf(c.defiLlama, f)[j]) == text.Canonical(ListOf(c.defiLlama, f)[i])
    case UnsupportedProject(i) => i < |c.defiLlama.projects| && !SupportedProject(c.defiLlama.projects[i])
    case ZeroSelector(i) => i < |c.evms| && c.evms[i].chainSelector == 0
    case DuplicateSelector(i) =>
      i < |c.evms| && exists j :: 0 <= j < i && c.evms[j].chainSelector == c.evms[i].chainSelector
    case InvalidVaultAddress(i) => i < |c.evms| && !IsRequiredAddress(c.evms[i].vaultAddress)
    case InvalidRouterAddress(i) => i < |c.evms| && !IsRequiredAddress(c.evms[i].workflowRouterAddress)
    case InvalidGasLimit(i) => i < |c.evms| && !(0 < c.evms[i].gasLimit <= MAX_GAS_LIMIT)
    case DuplicateChainName(i) => i < |c.evms| && exists j :: 0 <= j < i && SameChainName(text, c.evms[j], c.evms[i])
    case ParentCount => !exists p :: OnlyParent(c.evms, p)
    case TooManyTriggers => TriggerCount(|c.evms|) > MAX_TRIGGERS
    case InvalidAssetDecimals => c.assetDecimals.None? || c.assetDecimals.value > 77
    case MissingBlockNumber => c.blockNumber.None?
    case BlankSchedule => text.trim(c.epochSchedule) == "" || text.trim(c.rebalanceSchedule) == ""
  }

  /** The error names a fault of the chain list. */
  predicate ConcernsEvms(e: ConfigError) {
    || e.ZeroSelector? || e.DuplicateSelector? || e.InvalidVaultAddress? || e.InvalidRouterAddress?
    || e.InvalidGasLimit? || e.DuplicateChainName? || e.ParentCount?
  }

  lemma EvmFaultsAreInvalid(text: Text, c: Config, e: ConfigError)
    requires Fault(text, c, e) && ConcernsEvms(e)
    ensures !ValidEvms(text, c.evms)
  {
  }

  lemma FaultsAreInvalid(text: Text, c: Config, e: ConfigError)
    requires Fault(text, c, e)
    ensures !ValidConfig(text, c)
  {
  }

  // ----- validation -----

  /** The seen-set scan over one list of the selection policy. */
  method ValidateUniqueNonEmpty(text: Text, d: DefiLlama, field: Field) returns (err: Option<ConfigError>)
    ensures err.None? <==> UniqueNonEmpty(text, ListOf(d, field))
    ensures forall c: Config :: c.defiLlama == d && err.Some? ==> Fault(text, c, err.value)
  {
    var values := ListOf(d, field);
    if |values| == 0 {
      return Some(EmptyList(field));
    }
    var seen := {};
    for i := 0 to |values|
      invariant seen == set k | 0 <= k < i :: text.Canonical(values[k])
      invariant forall k :: 0 <= k < i ==> text.Canonical(values[k]) != ""
      invariant forall j, k :: 0 <= j < k < i ==> text.Canonical(values[j]) != text.Canonical(values[k])
    {
      var canonical := text.Canonical(values[i]);
      if canonical == "" {
        return Some(BlankValue(field, i));
      }
      if canonical in seen {
        return Some(DuplicateValue(field, i));
      }
      seen := seen + {canonical};
    }
    return None;
  }

  method ValidateDefiLlama(text: Text, d: DefiLlama) returns (err: Option<ConfigError>)
    ensures err.None? <==> ValidDefiLlama(text, d)
    ensures forall c: Config :: c.defiLlama == d && err.Some? ==> Fault(text, c, err.value)
  {
    err := ValidateUniqueNonEmpty(text, d, PoolIDs);
    if err.Some? {
      return;
    }
    err := ValidateUniqueNonEmpty(text, d, Projects);
    if err.Some? {
      return;
    }
    for i := 0 to |d.projects|
      invariant forall k :: 0 <= k < i ==> SupportedProject(d.projects[k])
    {
      if !SupportedProject(d.projects[i]) {
        return Some(UnsupportedProject(i));
      }
    }
    err := ValidateUniqueNonEmpty(text, d, Symbols);
  }

  function ParentCountOf(evms: seq<EvmConfig>): nat {
    if evms == [] then 0
    else ParentCountOf(evms[..|evms| - 1]) + if evms[|evms| - 1].isParent then 1 else 0
  }

  lemma {:induction false} CountingParents(evms: seq<EvmConfig>)
    ensures ParentCountOf(evms) == 0 <==> forall i :: 0 <= i < |evms| ==> !evms[i].isParent
    ensures ParentCountOf(evms) == 1 <==> exists p :: OnlyParent(evms, p)
  {
    if evms != [] {
      var last := |evms| - 1;
      var front := evms[..last];
      CountingParents(front);
      if evms[last].isParent && ParentCountOf(front) == 0 {
        assert OnlyParent(evms, last);
      } else if !evms[last].isParent && ParentCountOf(front) == 1 {
        var p :| OnlyParent(front, p);
        assert OnlyParent(evms, p);
      }
      if p :| OnlyParent(evms, p) {
        if p < last {
          assert OnlyParent(front, p);
        }
      }
    }
  }

  /** The addresses and the gas limit of one chain. */
  method CheckDestination(text: Text, c: Config, i: nat) returns (err: Option<ConfigError>)
    requires i < |c.evms|
    ensures err.None? && c.evms[i].chainSelector != 0 ==> ValidEvm(c.evms[i])
    ensures err.Some? ==> Fault(text, c, err.value) && ConcernsEvms(err.value)
  {
    var e := c.evms[i];
    if !IsRequiredAddress(e.vaultAddress) {
      return Some(InvalidVaultAddress(i));
    }
    if !IsRequiredAddress(e.workflowRouterAddress) {
      return Some(InvalidRouterAddress(i));
    }
    if e.gasLimit == 0 || e.gasLimit > MAX_GAS_LIMIT {
      return Some(InvalidGasLimit(i));
    }
    return None;
  }

  /** The first `i` chains are distinct in their selectors, which are exactly those seen. */
  ghost predicate SelectorsScanned(evms: seq<EvmConfig>, i: nat, seen: set<uint64>)
    requires i <= |evms|
  {
    && (forall k :: 0 <= k < i ==> evms[k].chainSelector in seen)
    && (forall c :: c in seen ==> exists k :: 0 <= k < i && evms[k].chainSelector == c)
    && DistinctSelectors(evms, i)
  }

  /** The same for the canonical chain names. */
  ghost predicate NamesScanned(text: Text, evms: seq<EvmConfig>, i: nat, seen: set<string>)
    requires i <= |evms|
  {
    && (forall k :: 0 <= k < i ==> NameSet(text, evms[k]) <= seen)
    && (forall n :: n in seen ==> exists k :: 0 <= k < i && n in NameSet(text, evms[k]))
    && DistinctNames(text, evms, i)
  }

  function NameSet(text: Text, e: EvmConfig): set<string> {
    if e.defiLlamaChainName == "" then {} else {text.Canonical(e.defiLlamaChainName)}
  }

  lemma ExtendSelectors(evms: seq<EvmConfig>, i: nat, seen: set<uint64>)
    requires i < |evms| && SelectorsScanned(evms, i, seen) && evms[i].chainSelector !in seen
    ensures SelectorsScanned(evms, i + 1, seen + {evms[i].chainSelector})
  {
  }

  lemma ExtendNames(text: Text, evms: seq<EvmConfig>, i: nat, seen: set<string>)
    requires i < |evms| && NamesScanned(text, evms, i, seen) && NameSet(text, evms[i]) !! seen
    ensures NamesScanned(text, evms, i + 1, seen + NameSet(text, evms[i]))
  {
    forall j | 0 <= j < i
      ensures !SameChainName(text, evms[j], evms[i])
    {
      assert NameSet(text, evms[j]) <= seen;
      if evms[j].defiLlamaChainName != "" {
        assert text.Canonical(evms[j].defiLlamaChainName) in NameSet(text, evms[j]);
      }
    }
  }

  method ScanSelector(text: Text, c: Config, i: nat, seen: set<uint64>)
    returns (err: Option<ConfigError>, selectors: set<uint64>)
    requires i < |c.evms| && SelectorsScanned(c.evms, i, seen)
    ensures err.None? ==> c.evms[i].chainSelector != 0 && SelectorsScanned(c.evms, i + 1, selectors)
    ensures err.Some? ==> Fault(text, c, err.value) && ConcernsEvms(err.value)
  {
    var selector := c.evms[i].chainSelector;
    if selector == 0 {
      return Some(ZeroSelector(i)), seen;
    }
    if selector in seen {
      return Some(DuplicateSelector(i)), seen;
    }
    ExtendSelectors(c.evms, i, seen);
    return None, seen + {selector};
  }

  method ScanName(text: Text, c: Config, i: nat, seen: set<string>) returns (err: Option<ConfigError>, names: set<string>)
    requires i < |c.evms| && NamesScanned(text, c.evms, i, seen)
    ensures err.None? ==> NamesScanned(text, c.evms, i + 1, names)
    ensures err.Some? ==> Fault(text, c, err.value) && ConcernsEvms(err.value)
  {
    names := seen;
    if c.evms[i].defiLlamaChainName != "" {
      var canonical := text.Canonical(c.evms[i].defiLlamaChainName);
      if canonical in seen {
        SeenName(text, c.evms, i, seen);
        return Some(DuplicateChainName(i)), names;
      }
      names := names + {canonical};
    }
    assert names == seen + NameSet(text, c.evms[i]);
    ExtendNames(text, c.evms, i, seen);
    return None, names;
  }

  lemma SeenName(text: Text, evms: seq<EvmConfig>, i: nat, seen: set<string>)
    requires i < |evms| && NamesScanned(text, evms, i, seen)
    requires evms[i].defiLlamaChainName != "" && text.Canonical(evms[i].defiLlamaChainName) in seen
    ensures exists j :: 0 <= j < i && SameChainName(text, evms[j], evms[i])
  {
    var j :| 0 <= j < i && text.Canonical(evms[i].defiLlamaChainName) in NameSet(text, evms[j]);
    assert SameChainName(text, evms[j], evms[i]);
  }

  /** The first `i` chains are valid and distinct, and the seen-sets are theirs. */
  ghost predicate Scanned(text: Text, evms: seq<EvmConfig>, i: nat, selectors: set<uint64>, names: set<string>)
    requires i <= |evms|
  {
    (forall k :: 0 <= k < i ==> ValidEvm(evms[k])) && SelectorsScanned(evms, i, selectors) && NamesScanned(text, evms, i, names)
  }

  /** One step of the scan: the selector, then the destination, then the name. */
  method ScanEvm(text: Text, c: Config, i: nat, seenSelectors: set<uint64>, seenNames: set<string>)
    returns (err: Option<ConfigError>, selectors: set<uint64>, names: set<string>)
    requires i < |c.evms| && Scanned(text, c.evms, i, seenSelectors, seenNames)
    ensures err.None? ==> Scanned(text, c.evms, i + 1, selectors, names)
    ensures err.Some? ==> Fault(text, c, err.value) && ConcernsEvms(err.value)
  {
    names := seenNames;
    err, selectors := ScanSelector(text, c, i, seenSelectors);
    if err.Some? {
      return;
    }
    err := CheckDestination(text, c, i);
    if err.Some? {
      return;
    }
    err, names := ScanName(text, c, i, seenNames);
  }

  lemma CountNext(evms: seq<EvmConfig>, i: nat)
    requires i < |evms|
    ensures ParentCountOf(evms[..i + 1]) == ParentCountOf(evms[..i]) + if evms[i].isParent then 1 else 0
  {
    assert evms[..i + 1][..i] == evms[..i];
  }

  /** After a complete scan only the parent count is left to decide. */
  lemma CompleteScan(text: Text, evms: seq<EvmConfig>, selectors: set<uint64>, names: set<string>)
    requires Scanned(text, evms, |evms|, selectors, names)
    ensures ParentCountOf(evms) == 1 <==> ValidEvms(text, evms)
    ensures ParentCountOf(evms) == 1 <==> exists p :: OnlyParent(evms, p)
  {
    CountingParents(evms);
  }

  /** The scan over the chains with its parent count. */
  method ValidateEvms(text: Text, c: Config) returns (err: Option<ConfigError>)
    ensures err.None? <==> ValidEvms(text, c.evms)
    ensures err.Some? ==> Fault(text, c, err.value) && ConcernsEvms(err.value)
  {
    var evms := c.evms;
    var seenSelectors, seenNames, parentCount := {}, {}, 0;
    for i := 0 to |evms|
      invariant Scanned(text, evms, i, seenSelectors, seenNames)
      invariant parentCount == ParentCountOf(evms[..i])
    {
      err, seenSelectors, seenNames := ScanEvm(text, c, i, seenSelectors, seenNames);
      if err.Some? {
        EvmFaultsAreInvalid(text, c, err.value);
        return;
      }
      CountNext(evms, i);
      if evms[i].isParent {
        parentCount := parentCount + 1;
      }
    }
    assert evms[..|evms|] == evms;
    CompleteScan(text, evms, seenSelectors, seenNames);
    return if parentCount != 1 then Some(ParentCount) else None;
  }

  /** Accepts exactly the valid configurations, and names a real fault of every other one. */
  method ValidateConfig(text: Text, cfg: Option<Config>) returns (err: Option<ConfigError>)
    ensures err.None? <==> cfg.Some? && ValidConfig(text, cfg.value)
    ensures cfg.Some? && err.Some? ==> Fault(text, cfg.value, err.value)
  {
    if cfg.None? || |cfg.value.evms| == 0 {
      return Some(NoEvms);
    }
    var c := cfg.value;
    err := ValidateDefiLlama(text, c.defiLlama);
    if err.Some? {
      return;
    }
    err := ValidateEvms(text, c);
    if err.Some? {
      FaultsAreInvalid(text, c, err.value);
      return;
    }
    if TriggerCount(|c.evms|) > MAX_TRIGGERS {
      return Some(TooManyTriggers);
    }
    if c.assetDecimals.None? || c.assetDecimals.value > 77 {
      return Some(InvalidAssetDecimals);
    }
    if c.blockNumber.None? {
      return Some(MissingBlockNumber);
    }
    if text.trim(c.epochSchedule) == "" || text.trim(c.rebalanceSchedule) == "" {
      return Some(BlankSchedule);
    }
    return None;
  }

  // ----- lookups -----

  function FindEvmByChainSelector(evms: seq<EvmConfig>, target: uint64): (r: Option<EvmConfig>)
    ensures r.Some? ==> r.value in evms && r.value.chainSelector == target
    ensures r.None? <==> forall e :: e in evms ==> e.chainSelector != target
  {
    if evms == [] then None
    else if evms[0].chainSelector == target then Some(evms[0])
    else FindEvmByChainSelector(evms[1..], target)
  }

  function FindParent(evms: seq<EvmConfig>): (r: Option<EvmConfig>)
    ensures r.Some? ==> r.value in evms && r.value.isParent
    ensures r.None? <==> forall e :: e in evms ==> !e.isParent
  {
    if evms == [] then None
    else if evms[0].isParent then Some(evms[0])
    else FindParent(evms[1..])
  }

  /** In a valid configuration both lookups are unambiguous, and only the parent has the parent's chain. */
  lemma LookupsAreUnique(text: Text, evms: seq<EvmConfig>, e: EvmConfig)
    requires ValidEvms(text, evms) && e in evms
    ensures FindEvmByChainSelector(evms, e.chainSelector) == Some(e)
    ensures FindParent(evms).Some?
    ensures e.isParent <==> FindParent(evms) == Some(e)
    ensures e.isParent <==> e.chainSelector == FindParent(evms).value.chainSelector
  {
    var p :| OnlyParent(evms, p);
    assert evms[p] in evms;
    var i :| 0 <= i < |evms| && evms[i] == e;
    var found := FindEvmByChainSelector(evms, e.chainSelector).value;
    var j :| 0 <= j < |evms| && evms[j] == found;
    assert i == j;
    var parent := FindParent(evms).value;
    var k :| 0 <= k < |evms| && evms[k] == parent;
    assert k == p;
  }
}
