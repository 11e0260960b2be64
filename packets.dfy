/**
 * The two packets the client sends: the handshake that `createHandshakePacket`
 * builds and the fixed status request, both framed as
 * `VarInt(length of body) ++ body` with the body starting with a VarInt
 * packet id.
 *
 * In utils/server-status.js the statements that append the protocol version
 * (line 72) and the next state (line 81) appear on the same text line as the
 * comment before them. They are modelled as live code: the wire format needs
 * both fields, and line 16 names protocol 760 as the one being sent.
 */
module Packets {
  import opened Wrappers
  import opened VarInt

  const HANDSHAKE_PACKET_ID: int := 0x00
  /** Protocol 760, Minecraft 1.19.2. */
  const PROTOCOL_VERSION: int := 760
  /** Next state 1 asks for the status, 2 would ask for login. */
  const NEXT_STATE_STATUS: int := 1
  /** `writeUInt16BE` accepts ports below 2^16. */
  const PORT_LIMIT: nat := 0x1_0000

  /** The status request packet: VarInt(1), the body length, then packet id VarInt(0). */
  const STATUS_REQUEST: seq<Byte> := [0x01, 0x00]

  /** `writeUInt16BE(port, 0)`: high byte first. */
  function PortBytes(port: nat): (r: seq<Byte>)
    requires port < PORT_LIMIT
    ensures |r| == 2 && r[0] as int * 256 + r[1] as int == port
  {
    [port / 256, port % 256]
  }

  /** The handshake body: packet id, protocol version, host, port, next state. */
  function HandshakeBody(host: seq<Byte>, port: nat, nextState: int): (r: seq<Byte>)
    requires port < PORT_LIMIT
  {
    VarIntBytes(HANDSHAKE_PACKET_ID) + VarIntBytes(PROTOCOL_VERSION)
      + VarIntBytes(|host|) + host + PortBytes(port) + VarIntBytes(nextState)
  }

  /** The handshake body prefixed with its length. */
  function HandshakePacket(host: seq<Byte>, port: nat, nextState: int): (r: seq<Byte>)
    requires port < PORT_LIMIT
  {
    var body := HandshakeBody(host, port, nextState);
    VarIntBytes(|body|) + body
  }

  /**
   * `createHandshakePacket`: rebinds `packet` through successive
   * concatenations, then prepends the length. The host is given as its
   * UTF-8 bytes.
   */
  method CreateHandshakePacket(host: seq<Byte>, port: nat, nextState: int) returns (packet: seq<Byte>)
    requires port < PORT_LIMIT
    ensures packet == HandshakePacket(host, port, nextState)
  {
    var protocolVersion := PROTOCOL_VERSION;
    packet := [];
    var id := WriteVarInt(HANDSHAKE_PACKET_ID);
    packet := packet + id;
    var version := WriteVarInt(protocolVersion);
    packet := packet + version;
    var hostLength := WriteVarInt(|host|);
    packet := packet + hostLength;
    packet := packet + host;
    var portBuffer := [port / 256, port % 256];
    packet := packet + portBuffer;
    var state := WriteVarInt(nextState);
    packet := packet + state;
    var length := WriteVarInt(|packet|);
    assert packet == HandshakeBody(host, port, nextState);
    packet := length + packet;
  }

  /** The handshake body is between 7 and 15 bytes longer than the host. */
  lemma HandshakeBodyLength(host: seq<Byte>, port: nat, nextState: int)
    requires port < PORT_LIMIT
    requires |host| < TWO_32 && 0 <= nextState < TWO_32
    ensures |host| + 7 <= |HandshakeBody(host, port, nextState)| <= |host| + 15
  {
    VarIntBytesShape(|host|);
    VarIntBytesShape(nextState);
    assert VarIntBytes(HANDSHAKE_PACKET_ID) == [0x00];
    assert VarIntBytes(PROTOCOL_VERSION) == [0xF8, 0x05];
  }

  /**
   * The first VarInt of the handshake packet is the number of bytes that
   * follow it.
   */
  lemma HandshakeFraming(host: seq<Byte>, port: nat, nextState: int)
    requires port < PORT_LIMIT
    requires |host| + 15 < TWO_31 && 0 <= nextState < TWO_32
    ensures var p := HandshakePacket(host, port, nextState);
      var r := DecodeVarInt(p, 0);
      r.Success? && r.value.value == |p| - r.value.bytesRead
  {
    var body := HandshakeBody(host, port, nextState);
    HandshakeBodyLength(host, port, nextState);
    VarIntRoundTrip([], |body|, body);
    assert [] + VarIntBytes(|body|) + body == HandshakePacket(host, port, nextState);
  }

  /** Where each field of the handshake lies in the packet. */
  lemma HandshakeSlices(host: seq<Byte>, port: nat, nextState: int)
    requires port < PORT_LIMIT
    ensures var p := HandshakePacket(host, port, nextState);
      var o1 := |VarIntBytes(|HandshakeBody(host, port, nextState)|)|;
      var o2 := o1 + |VarIntBytes(HANDSHAKE_PACKET_ID)|;
      var o3 := o2 + |VarIntBytes(PROTOCOL_VERSION)|;
      var o4 := o3 + |VarIntBytes(|host|)|;
      var o5 := o4 + |host|;
      var o6 := o5 + 2;
      && o6 <= |p|
      && p[o1..o2] == VarIntBytes(HANDSHAKE_PACKET_ID)
      && p[o2..o3] == VarIntBytes(PROTOCOL_VERSION)
      && p[o3..o4] == VarIntBytes(|host|)
      && p[o4..o5] == host
      && p[o5..o6] == PortBytes(port)
      && p[o6..] == VarIntBytes(nextState)
  {
    HandshakePacketParts(host, port, nextState);
    PartsOfConcat(VarIntBytes(|HandshakeBody(host, port, nextState)|), VarIntBytes(HANDSHAKE_PACKET_ID),
                  VarIntBytes(PROTOCOL_VERSION), VarIntBytes(|host|), host, PortBytes(port),
                  VarIntBytes(nextState));
  }

  /**
   * Reading the handshake packet back: after the length prefix come the
   * packet id 0 and the protocol version 760.
   */
  lemma HandshakeHeaderFields(host: seq<Byte>, port: nat, nextState: int)
    requires port < PORT_LIMIT
    ensures var p := HandshakePacket(host, port, nextState);
      var o1 := |VarIntBytes(|HandshakeBody(host, port, nextState)|)|;
      && DecodeVarInt(p, o1) == Success(VarIntRead(HANDSHAKE_PACKET_ID, 1))
      && DecodeVarInt(p, o1 + 1) == Success(VarIntRead(PROTOCOL_VERSION, 2))
  {
    var p := HandshakePacket(host, port, nextState);
    var o1 := |VarIntBytes(|HandshakeBody(host, port, nextState)|)|;
    HandshakeSlices(host, port, nextState);
    VarIntBytesExamples();
    assert p[o1..o1 + 1] == VarIntBytes(HANDSHAKE_PACKET_ID);
    VarIntAt(p, o1, HANDSHAKE_PACKET_ID);
    assert DecodeVarInt(p, o1) == Success(VarIntRead(HANDSHAKE_PACKET_ID, 1));
    assert p[o1 + 1..o1 + 3] == VarIntBytes(PROTOCOL_VERSION);
    VarIntAt(p, o1 + 1, PROTOCOL_VERSION);
    assert DecodeVarInt(p, o1 + 1) == Success(VarIntRead(PROTOCOL_VERSION, 2));
  }

  /**
   * Reading the handshake packet back: the server address is its length as a
   * VarInt followed by its bytes.
   */
  lemma HandshakeHostField(host: seq<Byte>, port: nat, nextState: int)
    requires port < PORT_LIMIT
    requires |host| < TWO_31
    ensures var p := HandshakePacket(host, port, nextState);
      var o3 := |VarIntBytes(|HandshakeBody(host, port, nextState)|)| + 3;
      var h := |VarIntBytes(|host|)|;
      && DecodeVarInt(p, o3) == Success(VarIntRead(|host|, h))
      && p[o3 + h..o3 + h + |host|] == host
  {
    var p := HandshakePacket(host, port, nextState);
    var o3 := |VarIntBytes(|HandshakeBody(host, port, nextState)|)| + 3;
    var hostLength := VarIntBytes(|host|);
    HandshakeSlices(host, port, nextState);
    VarIntBytesExamples();
    assert p[o3..o3 + |hostLength|] == hostLength;
    VarIntAt(p, o3, |host|);
  }

  /**
   * Reading the handshake packet back: the port, high byte first, and the
   * next state, which ends the packet.
   */
  lemma HandshakeTailFields(host: seq<Byte>, port: nat, nextState: int)
    requires port < PORT_LIMIT
    requires 0 <= nextState < TWO_31
    ensures var p := HandshakePacket(host, port, nextState);
      var o5 := |VarIntBytes(|HandshakeBody(host, port, nextState)|)| + 3 + |VarIntBytes(|host|)| + |host|;
      && o5 + 2 + |VarIntBytes(nextState)| == |p|
      && p[o5] as int * 256 + p[o5 + 1] as int == port
      && DecodeVarInt(p, o5 + 2) == Success(VarIntRead(nextState, |VarIntBytes(nextState)|))
  {
    var p := HandshakePacket(host, port, nextState);
    var front := VarIntBytes(|HandshakeBody(host, port, nextState)|) + VarIntBytes(HANDSHAKE_PACKET_ID)
                 + VarIntBytes(PROTOCOL_VERSION) + VarIntBytes(|host|) + host;
    var portBytes := PortBytes(port);
    HandshakePacketParts(host, port, nextState);
    assert p == (front + portBytes) + VarIntBytes(nextState) + [];
    VarIntBytesExamples();
    assert p[|front|] == portBytes[0] && p[|front| + 1] == portBytes[1];
    VarIntRoundTrip(front + portBytes, nextState, []);
  }

  /** The handshake packet as the concatenation of its seven fields. */
  lemma HandshakePacketParts(host: seq<Byte>, port: nat, nextState: int)
    requires port < PORT_LIMIT
    ensures HandshakePacket(host, port, nextState)
         == VarIntBytes(|HandshakeBody(host, port, nextState)|) + VarIntBytes(HANDSHAKE_PACKET_ID)
            + VarIntBytes(PROTOCOL_VERSION) + VarIntBytes(|host|) + host + PortBytes(port)
            + VarIntBytes(nextState)
  {
  }

  /** Where each of seven concatenated parts lies in the whole. */
  lemma PartsOfConcat(s0: seq<Byte>, s1: seq<Byte>, s2: seq<Byte>, s3: seq<Byte>,
                      s4: seq<Byte>, s5: seq<Byte>, s6: seq<Byte>)
    ensures var p := s0 + s1 + s2 + s3 + s4 + s5 + s6;
      var o1 := |s0|;
      var o2 := o1 + |s1|;
      var o3 := o2 + |s2|;
      var o4 := o3 + |s3|;
      var o5 := o4 + |s4|;
      var o6 := o5 + |s5|;
      && p[o1..o2] == s1 && p[o2..o3] == s2 && p[o3..o4] == s3
      && p[o4..o5] == s4 && p[o5..o6] == s5 && p[o6..] == s6
  {
  }

  /**
   * The status request is a framed packet whose body is the packet id 0 and
   * nothing else.
   */
  lemma StatusRequestFraming()
    ensures var body := VarIntBytes(0);
      STATUS_REQUEST == VarIntBytes(|body|) + body
    ensures DecodeVarInt(STATUS_REQUEST, 0) == Success(VarIntRead(1, 1))
    ensures DecodeVarInt(STATUS_REQUEST, 1) == Success(VarIntRead(0, 1))
  {
    VarIntRoundTrip([], 1, [0x00]);
    VarIntRoundTrip([0x01], 0, []);
  }
}
