/**
 * Witness node 3 (`WitnessNode` in the witness server): it checks the HMAC of
 * an incoming `new_task` message, decodes its hex payload as JSON, offsets
 * the GPS fields, and answers with an Ed25519 signature and a SHA-256 hash
 * of the payload bytes. HMAC-SHA256, SHA-256, Ed25519, the signing key and
 * JSON text (parse and dump) are parameters: `Crypto` and `Parser`.
 */
module WitnessNode {
  import opened Wrappers
  import Hex

  const WitnessId: int := 3
  const GpsOffset: real := 0.001
  /** What `add_gps_noise` adds to each coordinate. */
  const Noise: real := GpsOffset * (WitnessId as real)
  const ResponseType: string := "witness_signature"
  const TaskType: string := "new_task"

  /** A JSON value as Python's `json` module produces it. */
  datatype Json =
    | JNull
    | JBool(b: bool)
    | JNum(n: real)
    | JStr(s: string)
    | JArr(items: seq<Json>)
    | JObj(fields: map<string, Json>)

  /**
   * The node's cryptography and serialisation: `hmac` is HMAC-SHA256 under
   * the shared secret over the UTF-8 bytes of a text (the raw digest), `dumps`
   * is `json.dumps`, `sign` the detached Ed25519 signature by the node's key,
   * `pubkeyHex` the hex form of its verify key.
   */
  datatype Crypto = Crypto(
    hmac: string -> seq<Hex.byte>,
    dumps: Json -> string,
    sha256Hex: seq<Hex.byte> -> string,
    sign: seq<Hex.byte> -> seq<Hex.byte>,
    pubkeyHex: string)

  /** `json.loads` on bytes and on text; `None` where it raises. */
  datatype Parser = Parser(
    loadsBytes: seq<Hex.byte> -> Option<Json>,
    loadsText: string -> Option<Json>)

  predicate IsAscii(s: string) {
    forall i :: 0 <= i < |s| ==> (s[i] as int) < 128
  }

  /** `hmac.compare_digest` on two texts may also raise `TypeError`. */
  datatype HmacCheck = Match | Mismatch | HmacTypeError

  /** The hex digest the sender should have attached to `message`. */
  function ExpectedHmac(c: Crypto, message: map<string, Json>): (h: string)
    ensures IsAscii(h)
  {
    Hex.Encode(c.hmac(c.dumps(JObj(message - {"hmac"}))))
  }

  /**
   * `verify_hmac`: the digest is computed over a copy of the message with the
   * `hmac` key removed; `compare_digest` refuses anything but ASCII text.
   */
  function VerifyHmac(c: Crypto, message: map<string, Json>, received: Json): (r: HmacCheck)
    ensures r == HmacTypeError <==> !(received.JStr? && IsAscii(received.s))
    ensures r == Match <==> received == JStr(ExpectedHmac(c, message))
  {
    if !(received.JStr? && IsAscii(received.s)) then HmacTypeError
    else if received.s == ExpectedHmac(c, message) then Match
    else Mismatch
  }

  /** The `hmac` entry itself never takes part in the digest. */
  lemma HmacIgnoresOwnField(c: Crypto, message: map<string, Json>, v: Json, received: Json)
    ensures VerifyHmac(c, message["hmac" := v], received) == VerifyHmac(c, message, received)
  {
    assert message["hmac" := v] - {"hmac"} == message - {"hmac"};
  }

  /** `message.get('hmac', '')`. */
  function ReceivedHmac(message: map<string, Json>): (j: Json)
    ensures "hmac" in message ==> j == message["hmac"]
    ensures "hmac" !in message ==> j == JStr("")
  {
    if "hmac" in message then message["hmac"] else JStr("")
  }

  /** HMAC-SHA256 digests are 32 bytes long. */
  ghost predicate DigestsAre32Bytes(c: Crypto) {
    forall t :: |c.hmac(t)| == 32
  }

  /** A message without an `hmac` entry never passes. */
  lemma MissingHmacFails(c: Crypto, message: map<string, Json>)
    requires DigestsAre32Bytes(c)
    requires "hmac" !in message
    ensures VerifyHmac(c, message, ReceivedHmac(message)) == Mismatch
  {
    assert |ExpectedHmac(c, message)| == 64;
  }

  /** `x += 0.003` on a JSON value: numbers and booleans add, the rest raise `TypeError`. */
  function Bump(v: Json): (r: Option<Json>)
    ensures r.Some? <==> v.JNum? || v.JBool?
    ensures v.JNum? ==> r == Some(JNum(v.n + Noise))
    ensures v.JBool? ==> r == Some(JNum((if v.b then 1.0 else 0.0) + Noise))
  {
    match v
    case JNum(x) => Some(JNum(x + Noise))
    case JBool(b) => Some(JNum((if b then 1.0 else 0.0) + Noise))
    case _ => None
  }

  /** Whether `add_gps_noise` completes on a dictionary. */
  predicate NoiseFits(m: map<string, Json>): (fits: bool)
    ensures fits <==>
      && ("lat" in m ==> m["lat"].JNum? || m["lat"].JBool?)
      && ("lon" in m ==> m["lon"].JNum? || m["lon"].JBool?)
  {
    ("lat" in m ==> Bump(m["lat"]).Some?) && ("lon" in m ==> Bump(m["lon"]).Some?)
  }

  /** p occurs in s starting at index i. */
  predicate OccursAt(s: string, p: string, i: int) {
    0 <= i && i + |p| <= |s| && s[i..i + |p|] == p
  }

  /** An occurrence in s[1..] is an occurrence in s one index later, and conversely. */
  lemma OccursShift(s: string, p: string)
    requires |s| > 0
    ensures forall i :: OccursAt(s[1..], p, i) ==> OccursAt(s, p, i + 1)
    ensures forall j :: OccursAt(s, p, j) && j > 0 ==> OccursAt(s[1..], p, j - 1)
  {
    forall i | OccursAt(s[1..], p, i)
      ensures OccursAt(s, p, i + 1)
    {
      assert s[1..][i..i + |p|] == s[i + 1..i + 1 + |p|];
    }
    forall j | OccursAt(s, p, j) && j > 0
      ensures OccursAt(s[1..], p, j - 1)
    {
      assert s[1..][j - 1..j - 1 + |p|] == s[j..j + |p|];
    }
  }

  /** Python's `p in s` on texts. */
  predicate Contains(s: string, p: string)
    decreases |s|
  {
    |p| <= |s| && (s[..|p|] == p || (|s| > 0 && Contains(s[1..], p)))
  }

  /** `p in s` holds exactly when p occurs at some index of s. */
  lemma {:induction false} ContainsIffOccurs(s: string, p: string)
    ensures Contains(s, p) <==> exists i :: OccursAt(s, p, i)
    decreases |s|
  {
    if |p| > |s| {
      assert forall i :: !OccursAt(s, p, i);
    } else if s[..|p|] == p {
      assert OccursAt(s, p, 0);
    } else {
      assert |s| > 0;
      OccursShift(s, p);
      assert !OccursAt(s, p, 0);
      ContainsIffOccurs(s[1..], p);
    }
  }

  /**
   * Whether `add_gps_noise` raises on the decoded payload: a dictionary when
   * a present coordinate is not a number; a list or text that contains `lat`
   * or `lon` (indexing it by a string fails); any other value already at the
   * `in` test.
   */
  predicate NoiseRaises(data: Json): (raises: bool)
    ensures data.JNull? || data.JBool? || data.JNum? ==> raises
    ensures data.JObj? ==> (raises <==>
      ("lat" in data.fields && !(data.fields["lat"].JNum? || data.fields["lat"].JBool?)) ||
      ("lon" in data.fields && !(data.fields["lon"].JNum? || data.fields["lon"].JBool?)))
    ensures data.JArr? && data.items == [] ==> !raises
    ensures data.JStr? && |data.s| < 3 ==> !raises
  {
    match data
    case JObj(m) => !NoiseFits(m)
    case JArr(a) => JStr("lat") in a || JStr("lon") in a
    case JStr(s) => Contains(s, "lat") || Contains(s, "lon")
    case _ => true
  }

  /** A JSON dictionary as a mutable Python `dict`. */
  class JsonDict {
    var fields: map<string, Json>

    constructor(m: map<string, Json>)
      ensures fields == m
    {
      fields := m;
    }

    /**
     * `add_gps_noise`: `lat` then `lon` are offset in place when present. On
     * success the same dictionary comes back; `null` stands for the
     * `TypeError`, after which an offset already applied to `lat` stays.
     */
    method AddGpsNoise() returns (data: JsonDict?)
      modifies this`fields
      ensures data != null <==> NoiseFits(old(fields))
      ensures data != null ==> data == this
      ensures fields.Keys == old(fields).Keys
      ensures forall k :: k in fields && k != "lat" && k != "lon" ==> fields[k] == old(fields)[k]
      ensures "lat" in fields ==>
        if Bump(old(fields)["lat"]).Some? then fields["lat"] == Bump(old(fields)["lat"]).value
        else fields["lat"] == old(fields)["lat"]
      ensures "lon" in fields ==>
        if data != null then fields["lon"] == Bump(old(fields)["lon"]).value
        else fields["lon"] == old(fields)["lon"]
    {
      if "lat" in fields {
        var b := Bump(fields["lat"]);
        if b.None? {
          return null;
        }
        fields := fields["lat" := b.value];
      }
      if "lon" in fields {
        var b := Bump(fields["lon"]);
        if b.None? {
          return null;
        }
        fields := fields["lon" := b.value];
      }
      return this;
    }
  }

  /** The reply dictionary of a signed task. */
  datatype Response = Response(
    kind: string, witnessId: int, pubkey: string, signature: string, payloadHash: string, cid: Json)

  /** The response as the dictionary that is sent: exactly six entries, one per field. */
  function ResponseJson(r: Response): (j: Json)
    ensures j.JObj? && j.fields.Keys == {"type", "witness_id", "pubkey", "signature", "payload_hash", "cid"}
    ensures j.fields["type"] == JStr(r.kind) && j.fields["witness_id"] == JNum(r.witnessId as real)
    ensures j.fields["pubkey"] == JStr(r.pubkey) && j.fields["signature"] == JStr(r.signature)
    ensures j.fields["payload_hash"] == JStr(r.payloadHash) && j.fields["cid"] == r.cid
  {
    JObj(map["type" := JStr(r.kind), "witness_id" := JNum(r.witnessId as real),
             "pubkey" := JStr(r.pubkey), "signature" := JStr(r.signature),
             "payload_hash" := JStr(r.payloadHash), "cid" := r.cid])
  }

  /** Distinct responses are sent as distinct dictionaries: no field is lost. */
  lemma ResponseJsonInjective(r1: Response, r2: Response)
    ensures ResponseJson(r1) == ResponseJson(r2) ==> r1 == r2
  {
    if ResponseJson(r1) == ResponseJson(r2) {
      var f1, f2 := ResponseJson(r1).fields, ResponseJson(r2).fields;
      assert f1["type"] == f2["type"] && f1["pubkey"] == f2["pubkey"];
      assert f1["signature"] == f2["signature"] && f1["payload_hash"] == f2["payload_hash"];
      assert f1["witness_id"] == f2["witness_id"] && f1["cid"] == f2["cid"];
    }
  }

  /**
   * What `process_task` comes to: `None` (declined), a response, or an
   * exception that escapes it (caught by the connection loop).
   */
  datatype Outcome = Declined | Signed(response: Response) | Raised

  /**
   * `bytes.fromhex(message['payload'])` then `json.loads`; a missing or
   * non-text payload, bad hex and bad JSON are all caught and give `None`.
   */
  function DecodePayload(p: Parser, message: map<string, Json>): (r: Option<(seq<Hex.byte>, Json)>)
    ensures r.Some? ==> "payload" in message && message["payload"].JStr?
    ensures r.Some? ==> Hex.Decode(message["payload"].s) == Some(r.value.0)
    ensures r.Some? ==> p.loadsBytes(r.value.0) == Some(r.value.1)
    ensures r.None? ==>
      ("payload" !in message || !message["payload"].JStr?
       || Hex.Decode(message["payload"].s).None?
       || p.loadsBytes(Hex.Decode(message["payload"].s).value).None?)
  {
    if "payload" !in message || !message["payload"].JStr? then None
    else match Hex.Decode(message["payload"].s)
      case None => None
      case Some(bytes) =>
        match p.loadsBytes(bytes)
        case None => None
        case Some(data) => Some((bytes, data))
  }

  /** `message['cid'][:16]` succeeds on texts and lists only. */
  predicate Sliceable(j: Json): (sliceable: bool)
    ensures !sliceable <==> j.JNull? || j.JBool? || j.JNum? || j.JObj?
  {
    j.JStr? || j.JArr?
  }

  /**
   * The guards of `process_task`, in order, as one value: an exception from
   * the HMAC check, or after decoding from the GPS offset or the `cid`
   * lookup and slice; `None` for a wrong HMAC or an undecodable payload.
   */
  function TaskOutcome(c: Crypto, p: Parser, message: map<string, Json>): (out: Outcome)
    ensures out == Raised <==>
      || VerifyHmac(c, message, ReceivedHmac(message)) == HmacTypeError
      || (&& VerifyHmac(c, message, ReceivedHmac(message)) == Match
          && DecodePayload(p, message).Some?
          && (|| NoiseRaises(DecodePayload(p, message).value.1)
              || "cid" !in message || !Sliceable(message["cid"])))
    ensures out == Declined <==>
      || VerifyHmac(c, message, ReceivedHmac(message)) == Mismatch
      || (VerifyHmac(c, message, ReceivedHmac(message)) == Match && DecodePayload(p, message).None?)
  {
    match VerifyHmac(c, message, ReceivedHmac(message))
    case HmacTypeError => Raised
    case Mismatch => Declined
    case Match =>
      match DecodePayload(p, message)
      case None => Declined
      case Some((bytes, data)) =>
        if NoiseRaises(data) then Raised
        else if "cid" !in message || !Sliceable(message["cid"]) then Raised
        else Signed(Response(ResponseType, WitnessId, c.pubkeyHex,
                             Hex.Encode(c.sign(bytes)), c.sha256Hex(bytes), message["cid"]))
  }

  /** `process_task`, step by step. */
  method ProcessTask(c: Crypto, p: Parser, message: map<string, Json>) returns (out: Outcome)
    ensures out == TaskOutcome(c, p, message)
  {
    var ok := VerifyHmac(c, message, ReceivedHmac(message));
    if ok == HmacTypeError {
      return Raised;
    }
    if ok == Mismatch {
      return Declined;
    }
    var decoded := DecodePayload(p, message);
    if decoded.None? {
      return Declined;
    }
    var (payload, data) := decoded.value;
    if data.JObj? {
      var d := new JsonDict(data.fields);
      var same := d.AddGpsNoise();
      if same == null {
        return Raised;
      }
    } else if NoiseRaises(data) {
      return Raised;
    }
    var payloadHash := c.sha256Hex(payload);
    var signature := c.sign(payload);
    if "cid" !in message {
      return Raised;
    }
    var response := Response(ResponseType, WitnessId, c.pubkeyHex, Hex.Encode(signature),
                             payloadHash, message["cid"]);
    if !Sliceable(message["cid"]) {
      return Raised;
    }
    return Signed(response);
  }

  /** A failed HMAC check declines before the payload is looked at. */
  lemma HmacMismatchDeclines(c: Crypto, p: Parser, message: map<string, Json>)
    requires VerifyHmac(c, message, ReceivedHmac(message)) == Mismatch
    ensures TaskOutcome(c, p, message) == Declined
  {
  }

  /** Undecodable payloads are declined once the HMAC matches. */
  lemma BadPayloadDeclines(c: Crypto, p: Parser, message: map<string, Json>)
    requires VerifyHmac(c, message, ReceivedHmac(message)) == Match
    requires "payload" !in message || !message["payload"].JStr?
      || Hex.Decode(message["payload"].s).None?
      || p.loadsBytes(Hex.Decode(message["payload"].s).value).None?
    ensures TaskOutcome(c, p, message) == Declined
  {
  }

  /** Only a matching HMAC and a decodable payload lead to a signature. */
  lemma SignedRequiresChecks(c: Crypto, p: Parser, message: map<string, Json>)
    requires TaskOutcome(c, p, message).Signed?
    ensures ReceivedHmac(message) == JStr(ExpectedHmac(c, message))
    ensures DecodePayload(p, message).Some?
    ensures !NoiseRaises(DecodePayload(p, message).value.1)
  {
  }

  /**
   * The response names this witness, carries the message's cid, and hashes
   * and signs the payload bytes as received.
   */
  lemma SignedResponse(c: Crypto, p: Parser, message: map<string, Json>)
    requires TaskOutcome(c, p, message).Signed?
    ensures "payload" in message && message["payload"].JStr?
    ensures Hex.Decode(message["payload"].s).Some?
    ensures var r := TaskOutcome(c, p, message).response;
      var bytes := Hex.Decode(message["payload"].s).value;
      && r.kind == ResponseType && r.witnessId == WitnessId && r.pubkey == c.pubkeyHex
      && "cid" in message && r.cid == message["cid"]
      && r.payloadHash == c.sha256Hex(bytes)
      && r.signature == Hex.Encode(c.sign(bytes))
  {
  }

  /**
   * The parsed (and offset) data never reaches the response: two parsers
   * that both yield noise-safe data lead to the same outcome.
   */
  lemma ResponseIgnoresParsedData(c: Crypto, p1: Parser, p2: Parser, message: map<string, Json>)
    requires DecodePayload(p1, message).Some? && !NoiseRaises(DecodePayload(p1, message).value.1)
    requires DecodePayload(p2, message).Some? && !NoiseRaises(DecodePayload(p2, message).value.1)
    ensures TaskOutcome(c, p1, message) == TaskOutcome(c, p2, message)
  {
  }

  /**
   * What the connection loop sends for one incoming text: a reply only for
   * a dictionary of type `new_task` whose task is signed. Everything else,
   * including every exception, is swallowed.
   */
  function ReplyTo(c: Crypto, p: Parser, text: string): (out: seq<string>)
    ensures |out| <= 1
    ensures |out| == 1 ==>
      && p.loadsText(text).Some? && p.loadsText(text).value.JObj?
      && TaskOutcome(c, p, p.loadsText(text).value.fields).Signed?
      && out[0] == c.dumps(ResponseJson(TaskOutcome(c, p, p.loadsText(text).value.fields).response))
  {
    match p.loadsText(text)
    case Some(JObj(m)) =>
      if "type" in m && m["type"] == JStr(TaskType) then
        match TaskOutcome(c, p, m)
        case Signed(r) => [c.dumps(ResponseJson(r))]
        case _ => []
      else []
    case _ => []
  }

  /** The replies to a sequence of incoming texts, in order. */
  function Replies(c: Crypto, p: Parser, texts: seq<string>): (out: seq<string>)
    ensures |out| <= |texts|
  {
    if texts == [] then []
    else Replies(c, p, texts[..|texts| - 1]) + ReplyTo(c, p, texts[|texts| - 1])
  }

  /** A reply is sent exactly for a `new_task` dictionary whose task is signed. */
  lemma ReplyExactlyForSignedTasks(c: Crypto, p: Parser, text: string)
    ensures |ReplyTo(c, p, text)| == 1 <==>
      && p.loadsText(text).Some? && p.loadsText(text).value.JObj?
      && "type" in p.loadsText(text).value.fields
      && p.loadsText(text).value.fields["type"] == JStr(TaskType)
      && TaskOutcome(c, p, p.loadsText(text).value.fields).Signed?
  {
  }

  /** The connection's replies split along any split of its messages. */
  lemma {:induction false} RepliesAppend(c: Crypto, p: Parser, xs: seq<string>, ys: seq<string>)
    ensures Replies(c, p, xs + ys) == Replies(c, p, xs) + Replies(c, p, ys)
    decreases |ys|
  {
    if ys == [] {
      assert xs + ys == xs;
    } else {
      var ys' := ys[..|ys| - 1];
      assert (xs + ys)[..|xs + ys| - 1] == xs + ys';
      assert (xs + ys)[|xs + ys| - 1] == ys[|ys| - 1];
      RepliesAppend(c, p, xs, ys');
    }
  }

  /** One more incoming text adds its own reply at the end. */
  lemma RepliesStep(c: Crypto, p: Parser, texts: seq<string>, i: nat)
    requires i < |texts|
    ensures Replies(c, p, texts[..i + 1]) == Replies(c, p, texts[..i]) + ReplyTo(c, p, texts[i])
  {
    assert texts[..i + 1][..i] == texts[..i];
  }

  /** One pass of the `handle_connection` loop body: parse, dispatch, and maybe reply. */
  method HandleMessage(c: Crypto, p: Parser, text: string) returns (reply: seq<string>)
    ensures reply == ReplyTo(c, p, text)
  {
    reply := [];
    match p.loadsText(text) {
      case Some(JObj(m)) =>
        if "type" in m && m["type"] == JStr(TaskType) {
          var out := ProcessTask(c, p, m);
          if out.Signed? {
            reply := [c.dumps(ResponseJson(out.response))];
          }
        }
      case _ =>
    }
  }

  /** `handle_connection`: every incoming text is handled in turn. */
  method HandleConnection(c: Crypto, p: Parser, incoming: seq<string>) returns (sent: seq<string>)
    ensures sent == Replies(c, p, incoming)
  {
    sent := [];
    var i := 0;
    while i < |incoming|
      invariant 0 <= i <= |incoming|
      invariant sent == Replies(c, p, incoming[..i])
    {
      var reply := HandleMessage(c, p, incoming[i]);
      RepliesStep(c, p, incoming, i);
      sent := sent + reply;
      i := i + 1;
    }
    assert incoming[..i] == incoming;
  }
}
