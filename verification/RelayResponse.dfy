/** From a relay response to the selected pools: the freshness check and the streaming parse. */
module RelayResponse {
  import opened Results
  import opened Words
  import opened Bindings
  import opened Config
  import opened JsonStream
  import opened PoolRanking
  import opened PoolSelection

  const MAX_SNAPSHOT_AGE := 900

  // ----- the streaming parse -----

  predicate IsDataKey(text: Text, t: Token) {
    t.Scalar? && t.v.JString? && Names(text, t.v.s, "data")
  }

  /** What follows the first data key, skipping every member before it. */
  function FindData(text: Text, ts: seq<Token>): (r: Option<seq<Token>>)
    decreases |ts|
  {
    if ts == [] || ts[0].IsClose() then None
    else if IsDataKey(text, ts[0]) then Some(ts[1..])
    else
      match Skip(ts[1..], 0)
      case None => None
      case Some(rest) => FindData(text, rest)
  }

  /** The elements up to where no more can follow. The closing delimiter is not required. */
  function ReadElements(ts: seq<Token>, tail: Tail): Option<seq<Json>>
    decreases |ts|
  {
    if ts == [] then if tail.Garbage? then None else Some([])
    else if ts[0].IsClose() then Some([])
    else
      match Parse(ts)
      case None => None
      case Some(p) =>
        match ReadElements(p.1, tail)
        case None => None
        case Some(vs) => Some([p.0] + vs)
  }

  /** The elements of what stands behind the data key. */
  function ArrayAt(found: Option<seq<Token>>, tail: Tail): Option<seq<Json>> {
    if found.None? || found.value == [] || found.value[0] != OpenArray then None
    else ReadElements(found.value[1..], tail)
  }

  /** The elements of the first data array of a response stream. */
  function StreamedElements(text: Text, ts: seq<Token>, tail: Tail): Option<seq<Json>> {
    if ts == [] || ts[0] != OpenObject then None
    else
      ArrayAt(FindData(text, ts[1..]), tail)
  }

  /** What is asked of the response: the policy, and which strategy is the active one. */
  datatype Query = Query(policy: Policy, protocolId: ProtocolId, chainName: string)

  function SelectFrom(text: Text, keccak: string -> ProtocolId, q: Query,
                      elements: Option<seq<Json>>): Option<Selection> {
    match elements
    case None => None
    case Some(vs) => Some(Choose(keccak, Candidates(text, q.policy, vs), q.protocolId, q.chainName))
  }

  /** The loop over the members before the data key. */
  method SkipToData(text: Text, decoder: Decoder) returns (found: bool)
    requires decoder.Valid()
    modifies decoder
    ensures decoder.Valid()
    ensures match FindData(text, old(decoder.Rest()))
            case None => !found
            case Some(rest) => found && decoder.Rest() == rest
  {
    ghost var goal := FindData(text, decoder.Rest());
    while decoder.More()
      invariant decoder.Valid() && goal == FindData(text, decoder.Rest())
      decreases |decoder.Rest()|
    {
      ghost var before := decoder.Rest();
      var key := decoder.Next();
      if key.None? {
        return false;
      }
      if IsDataKey(text, key.value) {
        return true;
      }
      var ok := decoder.SkipValue(0);
      if !ok {
        return false;
      }
      assert |decoder.Rest()| < |before|;
    }
    return false;
  }

  function Prepend(vs: seq<Json>, r: Option<seq<Json>>): Option<seq<Json>> {
    match r
    case None => None
    case Some(more) => Some(vs + more)
  }

  lemma StartReading(r: Option<seq<Json>>)
    ensures Prepend([], r) == r
  {
    if r.Some? {
      assert [] + r.value == r.value;
    }
  }

  lemma ReadNext(vs: seq<Json>, ts: seq<Token>, tail: Tail)
    requires ts != [] && !ts[0].IsClose()
    ensures Parse(ts).None? ==> Prepend(vs, ReadElements(ts, tail)) == None
    ensures Parse(ts).Some? ==>
              Prepend(vs, ReadElements(ts, tail))
              == Prepend(vs + [Parse(ts).value.0], ReadElements(Parse(ts).value.1, tail))
  {
    if Parse(ts).Some? && ReadElements(Parse(ts).value.1, tail).Some? {
      var x, more := [Parse(ts).value.0], ReadElements(Parse(ts).value.1, tail).value;
      assert vs + (x + more) == vs + x + more;
    }
  }

  lemma StopReading(vs: seq<Json>, ts: seq<Token>, tail: Tail)
    requires if ts == [] then tail.Exhausted? else ts[0].IsClose()
    ensures Prepend(vs, ReadElements(ts, tail)) == Some(vs)
  {
    assert vs + [] == vs;
  }

  lemma CandidatesNext(text: Text, policy: Policy, vs: seq<Json>, v: Json)
    ensures Candidates(text, policy, vs + [v])
            == Candidates(text, policy, vs) + match Accept(text, policy, v) case None => [] case Some(p) => [p]
  {
    assert (vs + [v])[..|vs|] == vs;
  }

  /** The loop over the data elements: structural errors are fatal, a rejected element is passed over. */
  method CollectCandidates(text: Text, policy: Policy, decoder: Decoder) returns (candidates: Option<seq<Pool>>)
    requires decoder.Valid()
    modifies decoder
    ensures decoder.Valid()
    ensures match ReadElements(old(decoder.Rest()), decoder.tail)
            case None => candidates == None
            case Some(vs) => candidates == Some(Candidates(text, policy, vs))
  {
    var pools := BuildAllowedValues(text, policy.poolIDs);
    var chains := BuildAllowedChains(text, policy.chains);
    var projects := BuildAllowedValues(text, policy.projects);
    var symbols := BuildAllowedValues(text, policy.symbols);
    var accepted: seq<Pool> := [];
    ghost var goal := ReadElements(decoder.Rest(), decoder.tail);
    ghost var vs: seq<Json> := [];
    StartReading(goal);
    while decoder.More()
      invariant decoder.Valid()
      invariant goal == Prepend(vs, ReadElements(decoder.Rest(), decoder.tail))
      invariant accepted == Candidates(text, policy, vs)
      decreases |decoder.Rest()|
    {
      ghost var before := decoder.Rest();
      var raw := decoder.Decode();
      if before != [] {
        ReadNext(vs, before, decoder.tail);
      }
      if raw.None? {
        return None;
      }
      CandidatesNext(text, policy, vs, raw.value);
      vs := vs + [raw.value];
      var pool := AcceptBy(text, Allowed(pools, chains, projects, symbols), raw.value);
      if pool.None? {
        continue;
      }
      accepted := accepted + [pool.value];
    }
    StopReading(vs, decoder.Rest(), decoder.tail);
    return Some(accepted);
  }

  method SearchCurrent(keccak: string -> ProtocolId, pools: seq<Pool>, protocolId: ProtocolId, chainName: string)
    returns (current: Option<Pool>)
    ensures current == FirstOnStrategy(keccak, pools, protocolId, chainName)
  {
    for i := 0 to |pools|
      invariant FirstOnStrategy(keccak, pools, protocolId, chainName)
                == FirstOnStrategy(keccak, pools[i..], protocolId, chainName)
    {
      if OnStrategy(keccak, pools[i], protocolId, chainName) {
        return Some(pools[i]);
      }
    }
    return None;
  }

  /** parsePools: exactly the choice among the candidates of the streamed elements. */
  method ParsePools(text: Text, keccak: string -> ProtocolId, q: Query,
                    decoder: Decoder) returns (result: Option<Selection>)
    requires decoder.Valid()
    modifies decoder
    ensures result == SelectFrom(text, keccak, q, StreamedElements(text, old(decoder.Rest()), decoder.tail))
  {
    var t := decoder.Next();
    if t != Some(OpenObject) {
      return None;
    }
    var foundData := SkipToData(text, decoder);
    if !foundData {
      return None;
    }
    t := decoder.Next();
    if t != Some(OpenArray) {
      return None;
    }
    var candidates := CollectCandidates(text, q.policy, decoder);
    if candidates.None? {
      return None;
    }
    result := SelectPools(keccak, q, candidates.value);
  }

  /** Sort the candidates in place and pick. */
  method SelectPools(keccak: string -> ProtocolId, q: Query, candidates: seq<Pool>) returns (result: Option<Selection>)
    ensures result == Some(Choose(keccak, candidates, q.protocolId, q.chainName))
  {
    var pools := new Pool[|candidates|](i requires 0 <= i < |candidates| => candidates[i]);
    assert pools[..] == candidates;
    SortPools(pools);
    var best := None;
    if pools.Length > 0 {
      best := Some(pools[0]);
    }
    var current := SearchCurrent(keccak, pools[..], q.protocolId, q.chainName);
    return Some(Selection(best, current));
  }

  // ----- what the parse means on whole documents -----

  /** The elements of the first data member, if it is an array and no member before it nests too deeply. */
  function DataOf(text: Text, ms: seq<Member>): Option<seq<Json>> {
    if ms == [] then None
    else if Names(text, ms[0].key, "data") then
      if ms[0].value.JArray? then Some(ms[0].value.elements) else None
    else if Height(ms[0].value) > MAX_NESTING_DEPTH then None
    else DataOf(text, ms[1..])
  }

  function Elements(text: Text, doc: Json): Option<seq<Json>> {
    if doc.JObject? then DataOf(text, doc.members) else None
  }

  lemma {:induction false} ReadUndoesSerialize(vs: seq<Json>, rest: seq<Token>, tail: Tail)
    requires rest == [] || rest[0].IsClose()
    requires rest == [] ==> tail.Exhausted?
    ensures ReadElements(SerializeElements(vs) + rest, tail) == Some(vs)
  {
    var ts := SerializeElements(vs) + rest;
    if vs == [] {
      assert ts == rest;
    } else {
      var after := SerializeElements(vs[1..]) + rest;
      assert ts == Serialize(vs[0]) + after;
      SerializeStartsOpen(vs[0]);
      ParseUndoesSerialize(vs[0], after);
      ReadUndoesSerialize(vs[1..], rest, tail);
      assert [vs[0]] + vs[1..] == vs;
    }
  }

  lemma ArrayAtValue(v: Json, after: seq<Token>, tail: Tail)
    ensures ArrayAt(Some(Serialize(v) + after), tail) == if v.JArray? then Some(v.elements) else None
  {
    if v.JArray? {
      assert (Serialize(v) + after)[1..] == SerializeElements(v.elements) + ([CloseArray] + after);
      ReadUndoesSerialize(v.elements, [CloseArray] + after, tail);
    }
  }

  /** Streaming over the members finds what the tree holds. */
  lemma {:induction false} FindDataFinds(text: Text, ms: seq<Member>, tail: Tail)
    ensures ArrayAt(FindData(text, SerializeMembers(ms) + [CloseObject]), tail) == DataOf(text, ms)
  {
    var ts := SerializeMembers(ms) + [CloseObject];
    if ms == [] {
      assert ts == [CloseObject];
    } else {
      var after := SerializeMembers(ms[1..]) + [CloseObject];
      assert ts == [Scalar(JString(ms[0].key))] + (Serialize(ms[0].value) + after);
      assert ts[1..] == Serialize(ms[0].value) + after;
      if Names(text, ms[0].key, "data") {
        ArrayAtValue(ms[0].value, after, tail);
      } else {
        SkipUndoesSerialize(ms[0].value, after, 0);
        FindDataFinds(text, ms[1..], tail);
      }
    }
  }

  /** On the tokens of a whole document, streaming computes exactly the tree's data elements: it fails
      without a data array, and when a member before it nests deeper than the limit. */
  lemma StreamingIsExact(text: Text, doc: Json, tail: Tail)
    ensures StreamedElements(text, Serialize(doc), tail) == Elements(text, doc)
  {
    if doc.JObject? {
      assert Serialize(doc)[1..] == SerializeMembers(doc.members) + [CloseObject];
      FindDataFinds(text, doc.members, tail);
    }
  }

  /** Members the streaming skips over on its way to the data. */
  predicate Skippable(text: Text, ms: seq<Member>) {
    forall m :: m in ms ==> !Names(text, m.key, "data") && Height(m.value) <= MAX_NESTING_DEPTH
  }

  /** A response up to some data element: members before the data, its key, and elements. */
  function Cut(before: seq<Member>, key: string, vs: seq<Json>): seq<Token> {
    [OpenObject] + (SerializeMembers(before) + ([Scalar(JString(key))] + ([OpenArray] + SerializeElements(vs))))
  }

  lemma {:induction false} FindDataBehind(text: Text, before: seq<Member>, key: string, after: seq<Token>)
    requires Skippable(text, before) && Names(text, key, "data")
    ensures FindData(text, SerializeMembers(before) + ([Scalar(JString(key))] + after)) == Some(after)
  {
    var ts := SerializeMembers(before) + ([Scalar(JString(key))] + after);
    if before == [] {
      assert ts == [Scalar(JString(key))] + after;
      assert ts[1..] == after;
    } else {
      var rest := SerializeMembers(before[1..]) + ([Scalar(JString(key))] + after);
      assert ts == [Scalar(JString(before[0].key))] + (Serialize(before[0].value) + rest);
      assert ts[1..] == Serialize(before[0].value) + rest;
      assert before[0] in before;
      SkipUndoesSerialize(before[0].value, rest, 0);
      FindDataBehind(text, before[1..], key, after);
    }
  }

  /** What the streaming selects does not depend on anything after the last element it reads: neither on
      what follows a closing delimiter, nor on whether the input goes on at all. */
  lemma NothingAfterMatters(text: Text, before: seq<Member>, key: string, vs: seq<Json>, rest: seq<Token>, tail: Tail)
    requires Skippable(text, before) && Names(text, key, "data")
    requires rest == [] ==> tail.Exhausted?
    requires rest != [] ==> rest[0].IsClose()
    ensures StreamedElements(text, Cut(before, key, vs) + rest, tail) == Some(vs)
  {
    var after := [OpenArray] + (SerializeElements(vs) + rest);
    assert Cut(before, key, vs) + rest
           == [OpenObject] + (SerializeMembers(before) + ([Scalar(JString(key))] + after));
    assert (Cut(before, key, vs) + rest)[1..] == SerializeMembers(before) + ([Scalar(JString(key))] + after);
    FindDataBehind(text, before, key, after);
    assert after[1..] == SerializeElements(vs) + rest;
    ReadUndoesSerialize(vs, rest, tail);
  }

  /** So the streaming accepts a response that was cut off behind any element, although it is no JSON value:
      only the freshness check, which decodes the whole body, refuses it. */
  lemma TruncationIsAccepted(text: Text, before: seq<Member>, key: string, vs: seq<Json>)
    requires Skippable(text, before) && Names(text, key, "data")
    ensures StreamedElements(text, Cut(before, key, vs), Exhausted) == Some(vs)
    ensures Parse(Cut(before, key, vs)) == None
  {
    assert Cut(before, key, vs) + [] == Cut(before, key, vs);
    NothingAfterMatters(text, before, key, vs, [], Exhausted);
    assert Cut(before, key, vs)[1..]
           == SerializeMembers(before) + ([Scalar(JString(key))] + ([OpenArray] + SerializeElements(vs)));
    UnclosedMembers(before, key, vs);
  }

  lemma {:induction false} UnclosedMembers(before: seq<Member>, key: string, vs: seq<Json>)
    ensures ParseMembers(SerializeMembers(before) + ([Scalar(JString(key))] + ([OpenArray] + SerializeElements(vs)))) == None
  {
    var last := [OpenArray] + SerializeElements(vs);
    var ts := SerializeMembers(before) + ([Scalar(JString(key))] + last);
    if before == [] {
      assert ts == [Scalar(JString(key))] + last;
      assert ts[1..] == last && last[1..] == SerializeElements(vs);
      UnclosedElements(vs);
    } else {
      var rest := SerializeMembers(before[1..]) + ([Scalar(JString(key))] + last);
      assert ts == [Scalar(JString(before[0].key))] + (Serialize(before[0].value) + rest);
      assert ts[1..] == Serialize(before[0].value) + rest;
      ParseUndoesSerialize(before[0].value, rest);
      UnclosedMembers(before[1..], key, vs);
    }
  }

  lemma {:induction false} UnclosedElements(vs: seq<Json>)
    ensures ParseElements(SerializeElements(vs)) == None
  {
    if vs != [] {
      SerializeStartsOpen(vs[0]);
      ParseUndoesSerialize(vs[0], SerializeElements(vs[1..]));
      UnclosedElements(vs[1..]);
    }
  }

  // ----- freshness -----

  /** Decoding the refresh time: the last such member wins, null takes it back, and anything but a plain
      64-bit integer makes the whole body invalid. */
  function RefreshTime(text: Text, ms: seq<Member>): Option<Option<int64>> {
    if ms == [] then Some(None)
    else
      var front := RefreshTime(text, ms[..|ms| - 1]);
      var last := ms[|ms| - 1];
      if front.None? || !Names(text, last.key, "refreshedAt") then front
      else
        match last.value
        case JNull => Some(None)
        case JNumber(r, isPlainInteger) =>
          if isPlainInteger && -TWO_63 <= r.Floor < TWO_63 then Some(Some(r.Floor)) else None
        case _ => None
  }

  function RefreshedAt(text: Text, doc: Json): Option<int64> {
    match doc
    case JObject(ms) => (match RefreshTime(text, ms) case Some(t) => t case None => None)
    case _ => None
  }

  predicate InWindow(refreshedAt: int, observedAt: int) {
    observedAt - MAX_SNAPSHOT_AGE <= refreshedAt <= observedAt && 0 <= refreshedAt
  }

  /** The checks in their order. The subtraction cannot leave 64 bits: both times are nonnegative. */
  method ValidateFreshness(text: Text, body: Option<Json>, observedAt: int64) returns (ok: bool)
    ensures ok <==> body.Some? && RefreshedAt(text, body.value).Some?
                    && InWindow(RefreshedAt(text, body.value).value, observedAt)
  {
    if body.None? {
      return false;
    }
    var refreshedAt := RefreshedAt(text, body.value);
    if observedAt < 0 || refreshedAt.None? || refreshedAt.value < 0 {
      return false;
    }
    if refreshedAt.value > observedAt {
      return false;
    }
    var age: int64 := observedAt - refreshedAt.value;
    return age <= MAX_SNAPSHOT_AGE;
  }

  // ----- fetching -----

  /** What a node makes of a response body; a body that is not one JSON document is nothing. */
  function FetchAndParse(text: Text, keccak: string -> ProtocolId, q: Query, body: Option<Json>, observedAt: int64)
    : Option<Selection>
  {
    if body.None? || RefreshedAt(text, body.value).None?
       || !InWindow(RefreshedAt(text, body.value).value, observedAt) then None
    else SelectFrom(text, keccak, q, Elements(text, body.value))
  }

  /** The freshness check and the streaming parse of the same body, one after the other. */
  method FetchAndParseBody(text: Text, keccak: string -> ProtocolId, q: Query, body: Option<Json>, observedAt: int64)
    returns (result: Option<Selection>)
    ensures result == FetchAndParse(text, keccak, q, body, observedAt)
  {
    var ok := ValidateFreshness(text, body, observedAt);
    if !ok {
      return None;
    }
    var decoder := new Decoder(Serialize(body.value), Exhausted);
    StreamingIsExact(text, body.value, Exhausted);
    result := ParsePools(text, keccak, q, decoder);
  }

  /** Nodes that see the same pools agree, whatever order the relay lists them in and whatever elements
      that are no candidates it lists beside them. */
  lemma SelectionIgnoresOrder(text: Text, keccak: string -> ProtocolId, q: Query, a: Json, b: Json,
                              vs: seq<Json>, ws: seq<Json>, rejected: seq<Json>)
    requires Elements(text, a) == Some(vs) && Elements(text, b) == Some(ws)
    requires multiset(ws) == multiset(vs + rejected)
    requires forall v, p: Pool :: v in rejected && StandsFor(text, p, v) ==> !Approved(q.policy, p)
    ensures SelectFrom(text, keccak, q, Elements(text, a)) == SelectFrom(text, keccak, q, Elements(text, b))
  {
    CandidatesOfPermutation(text, q.policy, ws, vs + rejected);
    CandidatesOfConcat(text, q.policy, vs, rejected);
    RejectedYieldNothing(text, q.policy, rejected);
    assert Candidates(text, q.policy, vs) + [] == Candidates(text, q.policy, vs);
    ChooseIgnoresOrder(keccak, Candidates(text, q.policy, vs), Candidates(text, q.policy, ws), q.protocolId, q.chainName);
  }
}
