/**
 * `parseStatusResponse` of utils/server-status.js: reads the packet length,
 * the packet id and the JSON length as VarInts from the start of the bytes
 * received so far, and turns the JSON body into the status record, filling
 * in defaults for absent fields. Every failure, including a thrown
 * "VarInt too long", becomes `null` (None here).
 *
 * UTF-8 decoding and `JSON.parse` are not modelled: together they are the
 * parameter `decodeJson`, which gives None where `JSON.parse` throws.
 *
 * In the source the length check of line 135 shares a text line with the
 * comment before it; it is modelled as live code, as the `return null` and
 * the closing brace on line 136 show it to be.
 */
module StatusResponse {
  import opened Wrappers
  import opened VarInt

  /** A value `JSON.parse` can return. Numbers are modelled as reals. */
  datatype Json =
    | JNull
    | JBool(b: bool)
    | JNumber(n: real)
    | JString(s: string)
    | JArray(items: seq<Json>)
    | JObject(members: map<string, Json>)

  /** JavaScript truthiness: what `||` tests. */
  predicate Truthy(j: Json)
  {
    match j
    case JNull => false
    case JBool(b) => b
    case JNumber(n) => n != 0.0
    case JString(s) => s != ""
    case JArray(_) => true
    case JObject(_) => true
  }

  /** `data.key` on a non-null value: the member of an object, or `undefined` (None). */
  function Member(data: Json, key: string): (r: Option<Json>)
  {
    if data.JObject? && key in data.members then Some(data.members[key]) else None
  }

  /** `field || fallback`, where None stands for `undefined`. */
  function OrElse(field: Option<Json>, fallback: Json): (r: Json)
  {
    if field.Some? && Truthy(field.value) then field.value else fallback
  }

  /** The fields the response record carries, in source order. */
  const STATUS_KEYS: seq<string> := ["version", "players", "description", "favicon", "modinfo"]

  const DEFAULT_VERSION: Json := JObject(map["name" := JString("Unknown"), "protocol" := JNumber(0.0)])
  const DEFAULT_PLAYERS: Json := JObject(map["max" := JNumber(0.0), "online" := JNumber(0.0), "sample" := JArray([])])
  const DEFAULT_DESCRIPTION: Json := JObject(map["text" := JString("")])

  /** The default substituted for an absent or falsy field. */
  function FieldDefault(key: string): (r: Json)
  {
    if key == "version" then DEFAULT_VERSION
    else if key == "players" then DEFAULT_PLAYERS
    else if key == "description" then DEFAULT_DESCRIPTION
    else JNull
  }

  /** The record `parseStatusResponse` returns on success. */
  datatype StatusFields = StatusFields(
    version: Json, players: Json, description: Json, favicon: Json, modinfo: Json)

  /** The field of a record under its JSON key. */
  function Field(f: StatusFields, key: string): (r: Json)
  {
    if key == "version" then f.version
    else if key == "players" then f.players
    else if key == "description" then f.description
    else if key == "favicon" then f.favicon
    else f.modinfo
  }

  /**
   * The object literal of lines 141-144 built from `serverData`. Reading a
   * property of `null` throws, which the `catch` turns into None.
   */
  function StatusFromData(data: Json): (r: Option<StatusFields>)
  {
    if data.JNull? then None
    else Some(StatusFields(
      version := OrElse(Member(data, "version"), DEFAULT_VERSION),
      players := OrElse(Member(data, "players"), DEFAULT_PLAYERS),
      description := OrElse(Member(data, "description"), DEFAULT_DESCRIPTION),
      favicon := OrElse(Member(data, "favicon"), JNull),
      modinfo := OrElse(Member(data, "modinfo"), JNull)))
  }

  /**
   * Defaults: a field present in the server's JSON with a truthy value passes
   * through unchanged; an absent or falsy one becomes its default. Only a
   * `null` document fails.
   */
  lemma StatusFromDataDefaults(data: Json)
    ensures StatusFromData(data).None? <==> data.JNull?
    ensures forall key ::
      (key in STATUS_KEYS && data.JObject? && key in data.members && Truthy(data.members[key]))
        ==> Field(StatusFromData(data).value, key) == data.members[key]
    ensures forall key ::
      (key in STATUS_KEYS && !data.JNull? && !(data.JObject? && key in data.members && Truthy(data.members[key])))
        ==> Field(StatusFromData(data).value, key) == FieldDefault(key)
  {
  }

  /**
   * The record never carries a falsy version, players or description, and
   * its favicon and modinfo are either truthy or null.
   */
  lemma StatusFromDataPresent(data: Json)
    requires StatusFromData(data).Some?
    ensures var f := StatusFromData(data).value;
      && Truthy(f.version) && Truthy(f.players) && Truthy(f.description)
      && (Truthy(f.favicon) || f.favicon == JNull)
      && (Truthy(f.modinfo) || f.modinfo == JNull)
  {
  }

  // ---------------------------------------------------------------------------
  // Parsing the buffer
  // ---------------------------------------------------------------------------

  /** `parseStatusResponse` answers null for buffers shorter than this. */
  const MIN_RESPONSE_BYTES: nat := 5
  const STATUS_RESPONSE_ID: int := 0x00

  /** Clamps a `Buffer.slice` bound: a negative one counts from the end. */
  function SliceBound(i: int, len: nat): (r: nat)
    ensures r <= len
    ensures 0 <= i <= len ==> r == i
  {
    if i < 0 then (if len + i < 0 then 0 else len + i)
    else if i > len then len
    else i
  }

  /** `buf.slice(start, end)` of a Node.js Buffer. */
  function NodeSlice(buf: seq<Byte>, start: int, end: int): (r: seq<Byte>)
    ensures 0 <= start <= end <= |buf| ==> r == buf[start..end]
  {
    var s := SliceBound(start, |buf|);
    var e := SliceBound(end, |buf|);
    if e <= s then [] else buf[s..e]
  }

  /**
   * The JSON body `parseStatusResponse(buffer)` hands to `JSON.parse`, or
   * None where it returns null before that. The packet length is read but
   * never checked; the JSON length is the int32 `readVarInt` gives.
   */
  function JsonPayload(buffer: seq<Byte>): (r: Option<seq<Byte>>)
  {
    if |buffer| < MIN_RESPONSE_BYTES then None
    else match DecodeVarInt(buffer, 0)
      case Failure(_) => None
      case Success(packetLength) => PayloadFromPacketId(buffer, packetLength.bytesRead)
  }

  /** From the packet id on: anything but id 0 is not a status response. */
  function PayloadFromPacketId(buffer: seq<Byte>, offset: nat): (r: Option<seq<Byte>>)
  {
    match DecodeVarInt(buffer, offset)
    case Failure(_) => None
    case Success(packetId) =>
      if packetId.value != STATUS_RESPONSE_ID then None
      else PayloadFromJsonLength(buffer, offset + packetId.bytesRead)
  }

  /** From the JSON length on. */
  function PayloadFromJsonLength(buffer: seq<Byte>, offset: nat): (r: Option<seq<Byte>>)
  {
    match DecodeVarInt(buffer, offset)
    case Failure(_) => None
    case Success(jsonLength) => PayloadBody(buffer, offset + jsonLength.bytesRead, jsonLength.value)
  }

  /** The JSON body of `jsonLength` bytes at `offset`, once all of it has arrived. */
  function PayloadBody(buffer: seq<Byte>, offset: nat, jsonLength: int): (r: Option<seq<Byte>>)
  {
    if |buffer| < offset + jsonLength then None
    else Some(NodeSlice(buffer, offset, offset + jsonLength))
  }

  /** What the parser makes of a complete JSON body. */
  function ResultForJson(json: seq<Byte>, decodeJson: seq<Byte> -> Option<Json>): (r: Option<StatusFields>)
  {
    match decodeJson(json)
    case None => None
    case Some(data) => StatusFromData(data)
  }

  /** What `parseStatusResponse(buffer)` returns. */
  function ParseStatus(buffer: seq<Byte>, decodeJson: seq<Byte> -> Option<Json>): (r: Option<StatusFields>)
    ensures |buffer| < MIN_RESPONSE_BYTES ==> r.None?
  {
    match JsonPayload(buffer)
    case None => None
    case Some(json) => ResultForJson(json, decodeJson)
  }

  /**
   * `parseStatusResponse`: the framing is read by ReadJsonPayload, then the
   * JSON body is parsed and the record built.
   */
  method ParseStatusResponse(buffer: seq<Byte>, decodeJson: seq<Byte> -> Option<Json>)
    returns (result: Option<StatusFields>)
    ensures result == ParseStatus(buffer, decodeJson)
  {
    var jsonResponse := ReadJsonPayload(buffer);
    if jsonResponse.None? {
      NoPayload(buffer, decodeJson);
      return None;
    }
    var serverData := decodeJson(jsonResponse.value);
    WithPayload(buffer, jsonResponse.value, serverData, decodeJson);
    if serverData.None? {
      return None;
    }
    result := StatusFromData(serverData.value);
  }

  /**
   * The framing part of `parseStatusResponse`: reads the packet length at
   * offset 0, then goes on from the packet id.
   */
  method ReadJsonPayload(buffer: seq<Byte>) returns (jsonResponse: Option<seq<Byte>>)
    ensures jsonResponse == JsonPayload(buffer)
  {
    if |buffer| < MIN_RESPONSE_BYTES {
      return None;
    }
    var packetLength := ReadVarInt(buffer, 0);
    JsonPayloadStep(buffer, packetLength);
    if packetLength.Failure? {
      return None;
    }
    jsonResponse := ReadFromPacketId(buffer, packetLength.value.bytesRead);
  }

  /** Reads the packet id at `offset`; only id 0 goes on to the JSON length. */
  method ReadFromPacketId(buffer: seq<Byte>, offset: nat) returns (jsonResponse: Option<seq<Byte>>)
    ensures jsonResponse == PayloadFromPacketId(buffer, offset)
  {
    var packetId := ReadVarInt(buffer, offset);
    PayloadFromPacketIdStep(buffer, offset, packetId);
    if packetId.Failure? || packetId.value.value != STATUS_RESPONSE_ID {
      return None;
    }
    jsonResponse := ReadFromJsonLength(buffer, offset + packetId.value.bytesRead);
  }

  /**
   * Reads the JSON length at `offset` and slices out the body once all of it
   * has arrived.
   */
  method ReadFromJsonLength(buffer: seq<Byte>, offset: nat) returns (jsonResponse: Option<seq<Byte>>)
    ensures jsonResponse == PayloadFromJsonLength(buffer, offset)
  {
    var jsonLength := ReadVarInt(buffer, offset);
    PayloadFromJsonLengthStep(buffer, offset, jsonLength);
    if jsonLength.Failure? {
      return None;
    }
    var start := offset + jsonLength.value.bytesRead;
    var length := jsonLength.value.value;
    if |buffer| < start + length {
      return None;
    }
    return Some(NodeSlice(buffer, start, start + length));
  }

  // Lemmas that unfold the functions above one step at a time, for the method.

  lemma NoPayload(buffer: seq<Byte>, decodeJson: seq<Byte> -> Option<Json>)
    requires JsonPayload(buffer).None?
    ensures ParseStatus(buffer, decodeJson) == None
  {
  }

  lemma WithPayload(buffer: seq<Byte>, json: seq<Byte>, serverData: Option<Json>,
                    decodeJson: seq<Byte> -> Option<Json>)
    requires JsonPayload(buffer) == Some(json) && decodeJson(json) == serverData
    ensures ParseStatus(buffer, decodeJson)
         == if serverData.None? then None else StatusFromData(serverData.value)
  {
  }

  lemma JsonPayloadStep(buffer: seq<Byte>, packetLength: Result<VarIntRead>)
    requires |buffer| >= MIN_RESPONSE_BYTES && DecodeVarInt(buffer, 0) == packetLength
    ensures JsonPayload(buffer)
         == if packetLength.Failure? then None
            else PayloadFromPacketId(buffer, packetLength.value.bytesRead)
  {
  }

  lemma PayloadFromPacketIdStep(buffer: seq<Byte>, offset: nat, packetId: Result<VarIntRead>)
    requires DecodeVarInt(buffer, offset) == packetId
    ensures PayloadFromPacketId(buffer, offset)
         == if packetId.Failure? || packetId.value.value != STATUS_RESPONSE_ID then None
            else PayloadFromJsonLength(buffer, offset + packetId.value.bytesRead)
  {
  }

  lemma PayloadFromJsonLengthStep(buffer: seq<Byte>, offset: nat, jsonLength: Result<VarIntRead>)
    requires DecodeVarInt(buffer, offset) == jsonLength
    ensures PayloadFromJsonLength(buffer, offset)
         == if jsonLength.Failure? then None
            else PayloadBody(buffer, offset + jsonLength.value.bytesRead, jsonLength.value.value)
  {
  }

  // ---------------------------------------------------------------------------
  // The response a server sends, and what the parser makes of it
  // ---------------------------------------------------------------------------

  /** The three VarInts in front of the JSON body: packet length, id 0, JSON length. */
  function ResponseHeader(declaredLength: int, jsonLength: int): (r: seq<Byte>)
  {
    VarIntBytes(declaredLength) + VarIntBytes(STATUS_RESPONSE_ID) + VarIntBytes(jsonLength)
  }

  /** A status response packet with the given packet-length field and JSON body. */
  function ResponsePacket(declaredLength: int, json: seq<Byte>): (r: seq<Byte>)
  {
    ResponseHeader(declaredLength, |json|) + json
  }

  /**
   * Once a status response header has arrived, the parser yields no JSON
   * body until the whole body has arrived, and from then on exactly that
   * body: the packet-length field is never checked and bytes after the body
   * are ignored.
   */
  lemma ParseAfterHeader(declaredLength: int, jsonLength: int, rest: seq<Byte>)
    requires 0 <= declaredLength < TWO_32 && 0 <= jsonLength < TWO_31
    ensures var buf := ResponseHeader(declaredLength, jsonLength) + rest;
      JsonPayload(buf)
        == if |buf| < MIN_RESPONSE_BYTES || |rest| < jsonLength then None
           else Some(rest[..jsonLength])
  {
    var buf := ResponseHeader(declaredLength, jsonLength) + rest;
    var n, m := HeaderFields(declaredLength, jsonLength, rest);
    PayloadOfFields(buf, n, m, jsonLength);
    if |rest| >= jsonLength {
      SliceAfterPrefix(ResponseHeader(declaredLength, jsonLength), rest, jsonLength);
    }
  }

  /** The `n` bytes after a prefix are the first `n` bytes of what follows it. */
  lemma SliceAfterPrefix(prefix: seq<Byte>, rest: seq<Byte>, n: nat)
    requires n <= |rest|
    ensures (prefix + rest)[|prefix|..|prefix| + n] == rest[..n]
  {
  }

  /** The three header fields of a response read back, and where the body starts. */
  lemma HeaderFields(declaredLength: int, jsonLength: int, rest: seq<Byte>) returns (n: nat, m: nat)
    requires 0 <= declaredLength < TWO_32 && 0 <= jsonLength < TWO_31
    ensures var buf := ResponseHeader(declaredLength, jsonLength) + rest;
      && n + 1 + m == |ResponseHeader(declaredLength, jsonLength)|
      && DecodeVarInt(buf, 0).Success? && DecodeVarInt(buf, 0).value.bytesRead == n
      && DecodeVarInt(buf, n) == Success(VarIntRead(STATUS_RESPONSE_ID, 1))
      && DecodeVarInt(buf, n + 1) == Success(VarIntRead(jsonLength, m))
  {
    var h0 := VarIntBytes(declaredLength);
    var h1 := VarIntBytes(STATUS_RESPONSE_ID);
    var h2 := VarIntBytes(jsonLength);
    var buf := h0 + h1 + h2 + rest;
    assert ResponseHeader(declaredLength, jsonLength) + rest == buf;
    assert h1 == [0x00] by {
      VarIntBytesExamples();
    }
    VarIntRoundTrip([], declaredLength, h1 + h2 + rest);
    assert [] + h0 + (h1 + h2 + rest) == buf;
    VarIntRoundTrip(h0, STATUS_RESPONSE_ID, h2 + rest);
    assert h0 + h1 + (h2 + rest) == buf;
    VarIntRoundTrip(h0 + h1, jsonLength, rest);
    assert (h0 + h1) + h2 + rest == buf;
    n, m := |h0|, |h2|;
  }

  /**
   * Whatever bytes carry them: once the packet length, the packet id 0 and a
   * JSON length read back, the JSON body is the next `jsonLength` bytes, or
   * None while some of them are still missing.
   */
  lemma PayloadOfFields(buf: seq<Byte>, lengthBytes: nat, jsonLengthBytes: nat, jsonLength: int)
    requires 0 <= jsonLength
    requires DecodeVarInt(buf, 0).Success? && DecodeVarInt(buf, 0).value.bytesRead == lengthBytes
    requires DecodeVarInt(buf, lengthBytes) == Success(VarIntRead(STATUS_RESPONSE_ID, 1))
    requires DecodeVarInt(buf, lengthBytes + 1) == Success(VarIntRead(jsonLength, jsonLengthBytes))
    ensures var o := lengthBytes + 1 + jsonLengthBytes;
      JsonPayload(buf)
        == if |buf| < MIN_RESPONSE_BYTES || |buf| < o + jsonLength then None
           else Some(buf[o..o + jsonLength])
  {
    if |buf| >= MIN_RESPONSE_BYTES {
      JsonPayloadStep(buf, DecodeVarInt(buf, 0));
      assert JsonPayload(buf) == PayloadFromPacketId(buf, lengthBytes);
      PayloadFromPacketIdStep(buf, lengthBytes, DecodeVarInt(buf, lengthBytes));
      assert JsonPayload(buf) == PayloadFromJsonLength(buf, lengthBytes + 1);
      PayloadFromJsonLengthStep(buf, lengthBytes + 1, DecodeVarInt(buf, lengthBytes + 1));
      assert JsonPayload(buf) == PayloadBody(buf, lengthBytes + 1 + jsonLengthBytes, jsonLength);
    }
  }

  /**
   * A complete response, whatever its packet-length field says and whatever
   * follows it, parses to the result for its JSON body.
   */
  lemma ParseCompleteResponse(declaredLength: int, json: seq<Byte>, rest: seq<Byte>,
                              decodeJson: seq<Byte> -> Option<Json>)
    requires 0 <= declaredLength < TWO_32 && |json| < TWO_31
    requires |ResponsePacket(declaredLength, json)| >= MIN_RESPONSE_BYTES
    ensures ParseStatus(ResponsePacket(declaredLength, json) + rest, decodeJson)
         == ResultForJson(json, decodeJson)
  {
    var h := ResponseHeader(declaredLength, |json|);
    assert ResponsePacket(declaredLength, json) + rest == h + (json + rest);
    ParseAfterHeader(declaredLength, |json|, json + rest);
    assert (json + rest)[..|json|] == json;
  }

  /**
   * Every proper prefix of a response, cut in the header or in the JSON
   * body, parses to None: the client keeps buffering.
   */
  lemma ParseTruncatedResponse(declaredLength: int, json: seq<Byte>, k: nat,
                               decodeJson: seq<Byte> -> Option<Json>)
    requires 0 <= declaredLength < TWO_32 && |json| < TWO_31
    requires k < |ResponsePacket(declaredLength, json)|
    ensures ParseStatus(ResponsePacket(declaredLength, json)[..k], decodeJson) == None
  {
    TruncatedNoPayload(declaredLength, json, k);
    NoPayload(ResponsePacket(declaredLength, json)[..k], decodeJson);
  }

  /** The JSON body of a proper prefix of a response is not there yet. */
  lemma TruncatedNoPayload(declaredLength: int, json: seq<Byte>, k: nat)
    requires 0 <= declaredLength < TWO_32 && |json| < TWO_31
    requires k < |ResponsePacket(declaredLength, json)|
    ensures JsonPayload(ResponsePacket(declaredLength, json)[..k]) == None
  {
    var p := ResponsePacket(declaredLength, json);
    var buf := p[..k];
    var h0 := VarIntBytes(declaredLength);
    var h1 := VarIntBytes(STATUS_RESPONSE_ID);
    var h2 := VarIntBytes(|json|);
    var h := ResponseHeader(declaredLength, |json|);
    assert h1 == [0x00] by {
      VarIntBytesExamples();
    }
    assert p == h0 + h1 + h2 + json;
    if k < |h0| {
      assert buf == [] + h0[..k];
      VarIntTruncated([], declaredLength, k);
      NoPayloadWithoutLength(buf);
    } else if k == |h0| {
      assert buf == [] + h0 + [];
      VarIntRoundTrip([], declaredLength, []);
      DecodeVarIntPastEnd(buf, |h0|);
      NoPayloadWithoutId(buf, |h0|);
    } else if k < |h| {
      var cut := h2[..k - |h0| - 1];
      assert buf == (h0 + h1) + cut;
      VarIntTruncated(h0 + h1, |json|, k - |h0| - 1);
      assert buf == [] + h0 + (h1 + cut);
      VarIntRoundTrip([], declaredLength, h1 + cut);
      assert buf == h0 + h1 + cut;
      VarIntRoundTrip(h0, STATUS_RESPONSE_ID, cut);
      NoPayloadWithoutJsonLength(buf, |h0|);
    } else {
      var body := json[..k - |h|];
      assert buf == h + body;
      ParseAfterHeader(declaredLength, |json|, body);
    }
  }

  /** No packet length can be read: no JSON body. */
  lemma NoPayloadWithoutLength(buf: seq<Byte>)
    requires DecodeVarInt(buf, 0).Failure?
    ensures JsonPayload(buf) == None
  {
  }

  /** A packet length but no packet id can be read: no JSON body. */
  lemma NoPayloadWithoutId(buf: seq<Byte>, lengthBytes: nat)
    requires DecodeVarInt(buf, 0).Success? && DecodeVarInt(buf, 0).value.bytesRead == lengthBytes
    requires DecodeVarInt(buf, lengthBytes).Failure?
    ensures JsonPayload(buf) == None
  {
    if |buf| >= MIN_RESPONSE_BYTES {
      JsonPayloadStep(buf, DecodeVarInt(buf, 0));
    }
  }

  /** A packet length and id 0 but no JSON length can be read: no JSON body. */
  lemma NoPayloadWithoutJsonLength(buf: seq<Byte>, lengthBytes: nat)
    requires DecodeVarInt(buf, 0).Success? && DecodeVarInt(buf, 0).value.bytesRead == lengthBytes
    requires DecodeVarInt(buf, lengthBytes) == Success(VarIntRead(STATUS_RESPONSE_ID, 1))
    requires DecodeVarInt(buf, lengthBytes + 1).Failure?
    ensures JsonPayload(buf) == None
  {
    if |buf| >= MIN_RESPONSE_BYTES {
      JsonPayloadStep(buf, DecodeVarInt(buf, 0));
      PayloadFromPacketIdStep(buf, lengthBytes, DecodeVarInt(buf, lengthBytes));
    }
  }

  /**
   * A packet whose id does not read as 0 is not a status response: the parser
   * answers None, whatever the id is (negative ones included) and however it
   * is encoded.
   */
  lemma ParseOtherPacketId(buffer: seq<Byte>, decodeJson: seq<Byte> -> Option<Json>)
    requires DecodeVarInt(buffer, 0).Success?
    requires var packetId := DecodeVarInt(buffer, DecodeVarInt(buffer, 0).value.bytesRead);
      packetId.Success? && packetId.value.value != STATUS_RESPONSE_ID
    ensures ParseStatus(buffer, decodeJson) == None
  {
    if |buffer| >= MIN_RESPONSE_BYTES {
      var n := DecodeVarInt(buffer, 0).value.bytesRead;
      JsonPayloadStep(buffer, DecodeVarInt(buffer, 0));
      PayloadFromPacketIdStep(buffer, n, DecodeVarInt(buffer, n));
      NoPayload(buffer, decodeJson);
    }
  }
}
