/** The byte layout of a report, its encoding in place, and the router that decodes it on chain. */
module Reports {
  import opened Results
  import opened Words
  import opened Config

  const ENVELOPE_LENGTH := 60
  const SELECTOR_LENGTH := 4
  const MAX_REPORT_LENGTH := 5120
  const MAX_REPORT_AGE := 1800

  // ----- big-endian numbers -----

  function ToBytes(v: nat, n: nat): (bs: seq<uint8>)
    ensures |bs| == n
  {
    if n == 0 then [] else ToBytes(v / 256, n - 1) + [v % 256]
  }

  function FromBytes(bs: seq<uint8>): nat {
    if bs == [] then 0 else FromBytes(bs[..|bs| - 1]) * 256 + bs[|bs| - 1]
  }

  lemma {:induction false} FromToBytes(v: nat, n: nat)
    requires v < Power(256, n)
    ensures FromBytes(ToBytes(v, n)) == v
  {
    if n != 0 {
      FromToBytes(v / 256, n - 1);
    }
  }

  lemma {:induction false} ToFromBytes(bs: seq<uint8>)
    ensures ToBytes(FromBytes(bs), |bs|) == bs
    ensures FromBytes(bs) < Power(256, |bs|)
  {
    if bs != [] {
      ToFromBytes(bs[..|bs| - 1]);
      assert bs == bs[..|bs| - 1] + [bs[|bs| - 1]];
    }
  }

  lemma ByteWidths()
    ensures Power(256, 8) == TWO_64 && Power(256, 32) == TWO_256
  {
    assert Power(256, 4) == 0x1_0000_0000;
    PowerAdds(256, 4, 4);
    PowerAdds(256, 8, 8);
    PowerAdds(256, 16, 16);
  }

  // ----- the layout -----

  /** What a report says: for which router, observed when, and the vault call it carries. */
  datatype Envelope = Envelope(chainSelector: uint64, router: Address, observedAt: uint256, call: seq<uint8>)

  function Encode(e: Envelope): seq<uint8> {
    ToBytes(e.chainSelector, 8) + e.router + ToBytes(e.observedAt, 32) + e.call
  }

  /** The router's decoding of the envelope. */
  function Decode(report: seq<uint8>): Option<Envelope> {
    if |report| < ENVELOPE_LENGTH + SELECTOR_LENGTH then None
    else
      ByteWidths();
      ToFromBytes(report[..8]);
      ToFromBytes(report[28..60]);
      Some(Envelope(FromBytes(report[..8]), report[8..28], FromBytes(report[28..60]), report[60..]))
  }

  /** The router recovers every field of what was encoded. */
  lemma DecodeUndoesEncode(e: Envelope)
    requires |e.call| >= SELECTOR_LENGTH
    ensures Decode(Encode(e)) == Some(e)
  {
    var r := Encode(e);
    assert r[..8] == ToBytes(e.chainSelector, 8);
    assert r[8..28] == e.router;
    assert r[28..60] == ToBytes(e.observedAt, 32);
    assert r[60..] == e.call;
    ByteWidths();
    FromToBytes(e.chainSelector, 8);
    FromToBytes(e.observedAt, 32);
  }

  /** No two byte strings decode alike: what was decoded encodes to the same bytes again. */
  lemma EncodeUndoesDecode(report: seq<uint8>)
    requires Decode(report).Some?
    ensures Encode(Decode(report).value) == report
  {
    ToFromBytes(report[..8]);
    ToFromBytes(report[28..60]);
    assert report == report[..8] + report[8..28] + report[28..60] + report[60..];
  }

  // ----- encoding in place -----

  /** Write `v` big-endian over a[lo..hi], the last byte first. */
  method FillBytes(a: array<uint8>, lo: nat, hi: nat, v: nat)
    requires lo <= hi <= a.Length
    modifies a
    ensures a[..] == old(a[..lo]) + ToBytes(v, hi - lo) + old(a[hi..])
  {
    var i, rest := hi, v;
    ghost var done: seq<uint8> := [];
    while i > lo
      invariant lo <= i <= hi && |done| == hi - i
      invariant a[..i] == old(a[..i]) && a[i..hi] == done && a[hi..] == old(a[hi..])
      invariant ToBytes(v, hi - lo) == ToBytes(rest, i - lo) + done
    {
      i := i - 1;
      ghost var was := a[..];
      a[i] := rest % 256;
      assert a[..i] == was[..i] && a[i..hi] == [rest % 256] + done;
      done, rest := [rest % 256] + done, rest / 256;
    }
    assert a[..] == a[..lo] + a[lo..hi] + a[hi..];
  }

  method Copy(a: array<uint8>, at: nat, bs: seq<uint8>)
    requires at + |bs| <= a.Length
    modifies a
    ensures a[..] == old(a[..at]) + bs + old(a[at + |bs|..])
  {
    for i := 0 to |bs|
      invariant a[..at] == old(a[..at]) && a[at..at + i] == bs[..i] && a[at + i..] == old(a[at + i..])
    {
      a[at + i] := bs[i];
    }
    assert a[..] == a[..at] + a[at..at + |bs|] + a[at + |bs|..];
  }

  datatype EncodingError = InvalidDestination | NegativeTimestamp | InvalidCalldataLength

  /** What keeps a report from being encoded, in the order of the checks. */
  function EncodingFault(target: EvmConfig, observedAt: int64, calldata: seq<uint8>): Option<EncodingError> {
    if target.chainSelector == 0 || !IsRequiredAddress(target.workflowRouterAddress) then Some(InvalidDestination)
    else if observedAt < 0 then Some(NegativeTimestamp)
    else if |calldata| < SELECTOR_LENGTH || ENVELOPE_LENGTH + |calldata| > MAX_REPORT_LENGTH then Some(InvalidCalldataLength)
    else None
  }

  function EnvelopeOf(target: EvmConfig, observedAt: int64, calldata: seq<uint8>): Envelope
    requires observedAt >= 0
  {
    Envelope(target.chainSelector, target.workflowRouterAddress.bytes, observedAt, calldata)
  }

  method EncodeReport(target: EvmConfig, observedAt: int64, calldata: seq<uint8>)
    returns (payload: Result<array<uint8>, EncodingError>)
    ensures match EncodingFault(target, observedAt, calldata)
            case Some(fault) => payload == Err(fault)
            case None =>
              && payload.Ok? && fresh(payload.value)
              && payload.value[..] == Encode(EnvelopeOf(target, observedAt, calldata))
              && Decode(payload.value[..]) == Some(EnvelopeOf(target, observedAt, calldata))
              && 64 <= payload.value.Length <= 5120
  {
    if target.chainSelector == 0 || !IsRequiredAddress(target.workflowRouterAddress) {
      return Err(InvalidDestination);
    }
    if observedAt < 0 {
      return Err(NegativeTimestamp);
    }
    if |calldata| < SELECTOR_LENGTH || |calldata| + ENVELOPE_LENGTH > MAX_REPORT_LENGTH {
      return Err(InvalidCalldataLength);
    }
    var bytes := new uint8[ENVELOPE_LENGTH + |calldata|];
    FillBytes(bytes, 0, 8, target.chainSelector);
    assert bytes[..8] == ToBytes(target.chainSelector, 8);
    Copy(bytes, 8, target.workflowRouterAddress.bytes);
    assert bytes[..28] == ToBytes(target.chainSelector, 8) + target.workflowRouterAddress.bytes;
    FillBytes(bytes, 28, 60, observedAt);
    assert bytes[..60] == ToBytes(target.chainSelector, 8) + target.workflowRouterAddress.bytes + ToBytes(observedAt, 32);
    Copy(bytes, 60, calldata);
    DecodeUndoesEncode(EnvelopeOf(target, observedAt, calldata));
    return Ok(bytes);
  }

  // ----- submission and acceptance -----

  datatype Submission = Submission(chainSelector: uint64, receiver: Address, payload: seq<uint8>, gasLimit: uint64)

  datatype SubmitError = Encoding(error: EncodingError) | InvalidGasLimit | OutsideWindow

  function SubmitFault(target: EvmConfig, observedAt: int64, calldata: seq<uint8>, now: int64): Option<SubmitError> {
    if EncodingFault(target, observedAt, calldata).Some? then Some(Encoding(EncodingFault(target, observedAt, calldata).value))
    else if target.gasLimit == 0 || target.gasLimit > MAX_GAS_LIMIT then Some(SubmitError.InvalidGasLimit)
    else if observedAt > now || now - observedAt > MAX_REPORT_AGE then Some(OutsideWindow)
    else None
  }

  /** What has been handed to the runtime for signing and delivery. */
  class Outbox {
    var sent: seq<Submission>

    constructor ()
      ensures sent == []
    {
      sent := [];
    }

    /** Hand over one report, or nothing at all. The age cannot overflow: encoding has already refused
        negative observation times. */
    method Submit(target: EvmConfig, observedAt: int64, calldata: seq<uint8>,
                  now: int64) returns (err: Option<SubmitError>)
      modifies this
      ensures err == SubmitFault(target, observedAt, calldata, now)
      ensures sent == old(sent) + if err.Some? then []
                                  else [Submission(target.chainSelector, target.workflowRouterAddress.bytes,
                                                   Encode(EnvelopeOf(target, observedAt, calldata)), target.gasLimit)]
    {
      var payload := EncodeReport(target, observedAt, calldata);
      if payload.Err? {
        return Some(Encoding(payload.error));
      }
      if target.gasLimit == 0 || target.gasLimit > MAX_GAS_LIMIT {
        return Some(SubmitError.InvalidGasLimit);
      }
      if observedAt > now {
        return Some(OutsideWindow);
      }
      var age: int64 := now - observedAt;
      if age > MAX_REPORT_AGE {
        return Some(OutsideWindow);
      }
      sent := sent + [Submission(target.chainSelector, target.workflowRouterAddress.bytes, payload.value[..], target.gasLimit)];
      return None;
    }
  }

  /** The domain and age checks of the router at `router` on `chain` at block time `now`. */
  predicate RouterAccepts(chain: uint64, router: Address, now: uint256, report: seq<uint8>) {
    match Decode(report)
    case None => false
    case Some(e) =>
      e.chainSelector == chain && e.router == router && e.observedAt <= now && now - e.observedAt <= MAX_REPORT_AGE
  }

  /** A submitted report is good for exactly one router, for exactly thirty minutes from its observation,
      whatever the time of its submission. */
  lemma SubmittedReportIsForOneRouter(target: EvmConfig, observedAt: int64, calldata: seq<uint8>, submittedAt: int64,
                                      chain: uint64, router: Address, now: uint256)
    requires SubmitFault(target, observedAt, calldata, submittedAt) == None
    ensures RouterAccepts(chain, router, now, Encode(EnvelopeOf(target, observedAt, calldata))) <==>
              && chain == target.chainSelector && router == target.workflowRouterAddress.bytes
              && observedAt <= now <= observedAt + MAX_REPORT_AGE
  {
    DecodeUndoesEncode(EnvelopeOf(target, observedAt, calldata));
  }
}
