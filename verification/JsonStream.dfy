/** A JSON token stream, the depth-limited skipping of values on it, and the reading of whole values.
    Token structure as in sections 2, 4 and 5 of RFC 8259; section 9 permits the depth limit. */
module JsonStream {
  import opened Results

  const MAX_NESTING_DEPTH: nat := 256

  datatype Json =
    | JNull
    | JBool(b: bool)
    | JNumber(r: real, isPlainInteger: bool)
    | JString(s: string)
    | JArray(elements: seq<Json>)
    | JObject(members: seq<Member>)

  datatype Member = Member(key: string, value: Json)

  /** A value that is a single token. */
  type Atom = v: Json | !v.JArray? && !v.JObject? witness JNull

  /** Tokens as the decoder hands them out: separators are consumed silently. */
  datatype Token = OpenObject | CloseObject | OpenArray | CloseArray | Scalar(v: Atom) {
    predicate IsClose() {
      CloseObject? || CloseArray?
    }
  }

  // ----- values and their token streams -----

  function Serialize(v: Json): seq<Token>
    decreases v, 1
  {
    match v
    case JArray(vs) => [OpenArray] + SerializeElements(vs) + [CloseArray]
    case JObject(ms) => [OpenObject] + SerializeMembers(ms) + [CloseObject]
    case _ => [Scalar(v)]
  }

  function SerializeElements(vs: seq<Json>): seq<Token>
    decreases vs, 0
  {
    if vs == [] then [] else Serialize(vs[0]) + SerializeElements(vs[1..])
  }

  function SerializeMembers(ms: seq<Member>): seq<Token>
    decreases ms, 0
  {
    if ms == [] then []
    else [Scalar(JString(ms[0].key))] + Serialize(ms[0].value) + SerializeMembers(ms[1..])
  }

  /** How far the deepest sub-value lies below the root. */
  function Height(v: Json): nat
    decreases v, 1
  {
    match v
    case JArray(vs) => ElementsHeight(vs)
    case JObject(ms) => MembersHeight(ms)
    case _ => 0
  }

  function Max(a: nat, b: nat): nat {
    if a < b then b else a
  }

  /** Zero without elements, otherwise one more than the highest element. */
  function ElementsHeight(vs: seq<Json>): nat
    decreases vs, 0
  {
    if vs == [] then 0 else Max(1 + Height(vs[0]), ElementsHeight(vs[1..]))
  }

  function MembersHeight(ms: seq<Member>): nat
    decreases ms, 0
  {
    if ms == [] then 0 else Max(1 + Height(ms[0].value), MembersHeight(ms[1..]))
  }

  // ----- skipping -----

  /** What is left after skipping one value found at `depth`, or nothing on an error. */
  function Skip(ts: seq<Token>, depth: nat): (r: Option<seq<Token>>)
    ensures r.Some? ==> |r.value| < |ts|
    decreases |ts|, 0
  {
    if depth > MAX_NESTING_DEPTH || ts == [] then None
    else
      match ts[0]
      case OpenObject => SkipMembers(ts[1..], depth + 1)
      case OpenArray => SkipElements(ts[1..], depth + 1)
      case _ => Some(ts[1..])
  }

  function SkipElements(ts: seq<Token>, depth: nat): (r: Option<seq<Token>>)
    ensures r.Some? ==> |r.value| < |ts|
    decreases |ts|, 1
  {
    if ts == [] then None
    else if ts[0].IsClose() then Some(ts[1..])
    else
      match Skip(ts, depth)
      case None => None
      case Some(rest) => SkipElements(rest, depth)
  }

  function SkipMembers(ts: seq<Token>, depth: nat): (r: Option<seq<Token>>)
    ensures r.Some? ==> |r.value| < |ts|
    decreases |ts|, 1
  {
    if ts == [] then None
    else if ts[0].IsClose() then Some(ts[1..])
    else
      match Skip(ts[1..], depth)
      case None => None
      case Some(rest) => SkipMembers(rest, depth)
  }

  lemma SerializeStartsOpen(v: Json)
    ensures |Serialize(v)| > 0 && !Serialize(v)[0].IsClose()
  {
  }

  /** Skipping undoes serialisation: it consumes exactly the tokens of one value, and it fails exactly when
      some sub-value lies deeper than the limit. */
  lemma {:induction false} SkipUndoesSerialize(v: Json, rest: seq<Token>, depth: nat)
    ensures Skip(Serialize(v) + rest, depth)
            == if depth + Height(v) <= MAX_NESTING_DEPTH then Some(rest) else None
    decreases v, 1
  {
    var ts := Serialize(v) + rest;
    match v
    case JArray(vs) =>
      assert ts[1..] == SerializeElements(vs) + ([CloseArray] + rest);
      SkipUndoesElements(vs, CloseArray, rest, depth + 1);
    case JObject(ms) =>
      assert ts[1..] == SerializeMembers(ms) + ([CloseObject] + rest);
      SkipUndoesMembers(ms, CloseObject, rest, depth + 1);
    case _ =>
      assert ts == [Scalar(v)] + rest;
      assert ts[1..] == rest;
  }

  lemma {:induction false} SkipUndoesElements(vs: seq<Json>, close: Token, rest: seq<Token>, depth: nat)
    requires close.IsClose() && depth > 0
    ensures SkipElements(SerializeElements(vs) + ([close] + rest), depth)
            == if vs == [] || depth - 1 + ElementsHeight(vs) <= MAX_NESTING_DEPTH then Some(rest) else None
    decreases vs, 0
  {
    var ts := SerializeElements(vs) + ([close] + rest);
    if vs == [] {
      assert ts == [close] + rest;
      assert ts[1..] == rest;
    } else {
      var tail := SerializeElements(vs[1..]) + ([close] + rest);
      assert ts == Serialize(vs[0]) + tail;
      SerializeStartsOpen(vs[0]);
      SkipUndoesSerialize(vs[0], tail, depth);
      SkipUndoesElements(vs[1..], close, rest, depth);
    }
  }

  lemma {:induction false} SkipUndoesMembers(ms: seq<Member>, close: Token, rest: seq<Token>, depth: nat)
    requires close.IsClose() && depth > 0
    ensures SkipMembers(SerializeMembers(ms) + ([close] + rest), depth)
            == if ms == [] || depth - 1 + MembersHeight(ms) <= MAX_NESTING_DEPTH then Some(rest) else None
    decreases ms, 0
  {
    var ts := SerializeMembers(ms) + ([close] + rest);
    if ms == [] {
      assert ts == [close] + rest;
      assert ts[1..] == rest;
    } else {
      var tail := SerializeMembers(ms[1..]) + ([close] + rest);
      assert ts[1..] == Serialize(ms[0].value) + tail;
      SkipUndoesSerialize(ms[0].value, tail, depth);
      SkipUndoesMembers(ms[1..], close, rest, depth);
    }
  }

  // ----- reading whole values -----

  /** The value at the head of the stream, and what follows it. */
  function Parse(ts: seq<Token>): (r: Option<(Json, seq<Token>)>)
    ensures r.Some? ==> |r.value.1| < |ts|
    decreases |ts|, 0
  {
    if ts == [] then None
    else
      match ts[0]
      case OpenArray =>
        (match ParseElements(ts[1..])
         case None => None
         case Some(p) => Some((JArray(p.0), p.1)))
      case OpenObject =>
        (match ParseMembers(ts[1..])
         case None => None
         case Some(p) => Some((JObject(p.0), p.1)))
      case Scalar(v) => Some((v, ts[1..]))
      case _ => None
  }

  function ParseElements(ts: seq<Token>): (r: Option<(seq<Json>, seq<Token>)>)
    ensures r.Some? ==> |r.value.1| < |ts|
    decreases |ts|, 1
  {
    if ts == [] then None
    else if ts[0] == CloseArray then Some(([], ts[1..]))
    else
      match Parse(ts)
      case None => None
      case Some(p) =>
        match ParseElements(p.1)
        case None => None
        case Some(q) => Some(([p.0] + q.0, q.1))
  }

  function ParseMembers(ts: seq<Token>): (r: Option<(seq<Member>, seq<Token>)>)
    ensures r.Some? ==> |r.value.1| < |ts|
    decreases |ts|, 1
  {
    if ts == [] then None
    else if ts[0] == CloseObject then Some(([], ts[1..]))
    else if !(ts[0].Scalar? && ts[0].v.JString?) then None
    else
      match Parse(ts[1..])
      case None => None
      case Some(p) =>
        match ParseMembers(p.1)
        case None => None
        case Some(q) => Some(([Member(ts[0].v.s, p.0)] + q.0, q.1))
  }

  /** Reading undoes serialisation, whatever follows. */
  lemma {:induction false} ParseUndoesSerialize(v: Json, rest: seq<Token>)
    ensures Parse(Serialize(v) + rest) == Some((v, rest))
    decreases v, 1
  {
    var ts := Serialize(v) + rest;
    match v
    case JArray(vs) =>
      assert ts[1..] == SerializeElements(vs) + ([CloseArray] + rest);
      ParseUndoesElements(vs, rest);
    case JObject(ms) =>
      assert ts[1..] == SerializeMembers(ms) + ([CloseObject] + rest);
      ParseUndoesMembers(ms, rest);
    case _ =>
      assert ts == [Scalar(v)] + rest;
      assert ts[1..] == rest;
  }

  lemma {:induction false} ParseUndoesElements(vs: seq<Json>, rest: seq<Token>)
    ensures ParseElements(SerializeElements(vs) + ([CloseArray] + rest)) == Some((vs, rest))
    decreases vs, 0
  {
    var ts := SerializeElements(vs) + ([CloseArray] + rest);
    if vs == [] {
      assert ts == [CloseArray] + rest;
      assert ts[1..] == rest;
    } else {
      var tail := SerializeElements(vs[1..]) + ([CloseArray] + rest);
      assert ts == Serialize(vs[0]) + tail;
      SerializeStartsOpen(vs[0]);
      ParseUndoesSerialize(vs[0], tail);
      ParseUndoesElements(vs[1..], rest);
      assert [vs[0]] + vs[1..] == vs;
    }
  }

  lemma {:induction false} ParseUndoesMembers(ms: seq<Member>, rest: seq<Token>)
    ensures ParseMembers(SerializeMembers(ms) + ([CloseObject] + rest)) == Some((ms, rest))
    decreases ms, 0
  {
    var ts := SerializeMembers(ms) + ([CloseObject] + rest);
    if ms == [] {
      assert ts == [CloseObject] + rest;
      assert ts[1..] == rest;
    } else {
      var tail := SerializeMembers(ms[1..]) + ([CloseObject] + rest);
      assert ts[0] == Scalar(JString(ms[0].key));
      assert ts[1..] == Serialize(ms[0].value) + tail;
      ParseUndoesSerialize(ms[0].value, tail);
      ParseUndoesMembers(ms[1..], rest);
      assert [ms[0]] + ms[1..] == ms;
    }
  }

  // ----- the streaming decoder -----

  /** What follows the last complete token: nothing that could start a value (the end of the input, or a
      delimiter that closes nothing), or other bytes that are no token. */
  datatype Tail = Exhausted | Garbage

  class Decoder {
    const tokens: seq<Token>
    const tail: Tail
    var pos: nat

    constructor (tokens: seq<Token>, tail: Tail)
      ensures Valid() && this.tokens == tokens && this.tail == tail && Rest() == tokens
    {
      this.tokens, this.tail, pos := tokens, tail, 0;
    }

    ghost predicate Valid()
      reads this
    {
      pos <= |tokens|
    }

    function Rest(): seq<Token>
      reads this
      requires Valid()
    {
      tokens[pos..]
    }

    /** Another element or member may follow. */
    predicate More()
      reads this
      requires Valid()
    {
      if pos < |tokens| then !tokens[pos].IsClose() else tail.Garbage?
    }

    method Next() returns (t: Option<Token>)
      requires Valid()
      modifies this
      ensures Valid()
      ensures t == if old(Rest()) == [] then None else Some(old(Rest())[0])
      ensures Rest() == if old(Rest()) == [] then [] else old(Rest())[1..]
    {
      if pos == |tokens| {
        return None;
      }
      t := Some(tokens[pos]);
      pos := pos + 1;
    }

    /** Decode one whole value. */
    method Decode() returns (v: Option<Json>)
      requires Valid()
      modifies this
      ensures Valid()
      ensures match Parse(old(Rest()))
              case None => v == None
              case Some(p) => v == Some(p.0) && Rest() == p.1
    {
      match Parse(Rest())
      case None => v := None;
      case Some(p) =>
        SuffixOfRest();
        v := Some(p.0);
        pos := |tokens| - |p.1|;
    }

    lemma SuffixOfRest()
      requires Valid()
      ensures Parse(Rest()).Some? ==>
                var after := Parse(Rest()).value.1;
                |after| <= |tokens| && tokens[|tokens| - |after|..] == after
    {
      ParseLeavesSuffix(Rest());
      if Parse(Rest()).Some? {
        var after := Parse(Rest()).value.1;
        var k := |Rest()| - |after|;
        assert Rest()[k..] == tokens[pos + k..];
      }
    }

    /** Skip one value, failing below the nesting limit. */
    method SkipValue(depth: nat) returns (ok: bool)
      requires Valid()
      modifies this
      ensures Valid()
      ensures match Skip(old(Rest()), depth)
              case None => !ok
              case Some(rest) => ok && Rest() == rest
      decreases |tokens| - pos, 0
    {
      if depth > MAX_NESTING_DEPTH {
        return false;
      }
      var t := Next();
      if t.None? {
        return false;
      }
      match t.value
      case OpenObject => ok := SkipRest(depth, true);
      case OpenArray => ok := SkipRest(depth, false);
      case _ => ok := true;
    }

    /** The two loops over the inside of an object or an array, up to and including its closing delimiter. */
    method SkipRest(depth: nat, isObject: bool) returns (ok: bool)
      requires Valid()
      modifies this
      ensures Valid()
      ensures match (if isObject then SkipMembers(old(Rest()), depth + 1) else SkipElements(old(Rest()), depth + 1))
              case None => !ok
              case Some(rest) => ok && Rest() == rest
      decreases |tokens| - pos, 1
    {
      ghost var goal := if isObject then SkipMembers(Rest(), depth + 1) else SkipElements(Rest(), depth + 1);
      while More()
        invariant Valid() && pos >= old(pos)
        invariant goal == if isObject then SkipMembers(Rest(), depth + 1) else SkipElements(Rest(), depth + 1)
        decreases |tokens| - pos
      {
        ghost var before := pos;
        if isObject {
          var key := Next();
          if key.None? {
            return false;
          }
        }
        ok := SkipValue(depth + 1);
        if !ok {
          return;
        }
        assert |Rest()| < |tokens[before..]|;
      }
      var close := Next();
      ok := close.Some?;
    }
  }

  lemma {:induction false} ParseLeavesSuffix(ts: seq<Token>)
    ensures Parse(ts).Some? ==> Parse(ts).value.1 == ts[|ts| - |Parse(ts).value.1|..]
    decreases |ts|, 0
  {
    if ts != [] && ts[0].OpenArray? {
      ElementsLeaveSuffix(ts[1..]);
    } else if ts != [] && ts[0].OpenObject? {
      MembersLeaveSuffix(ts[1..]);
    }
  }

  lemma {:induction false} ElementsLeaveSuffix(ts: seq<Token>)
    ensures ParseElements(ts).Some? ==> ParseElements(ts).value.1 == ts[|ts| - |ParseElements(ts).value.1|..]
    decreases |ts|, 1
  {
    if ts != [] && ts[0] != CloseArray && Parse(ts).Some? {
      ParseLeavesSuffix(ts);
      ElementsLeaveSuffix(Parse(ts).value.1);
    }
  }

  lemma {:induction false} MembersLeaveSuffix(ts: seq<Token>)
    ensures ParseMembers(ts).Some? ==> ParseMembers(ts).value.1 == ts[|ts| - |ParseMembers(ts).value.1|..]
    decreases |ts|, 1
  {
    if ts != [] && ts[0] != CloseObject && Parse(ts[1..]).Some? {
      ParseLeavesSuffix(ts[1..]);
      MembersLeaveSuffix(Parse(ts[1..]).value.1);
    }
  }
}
