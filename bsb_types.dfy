/**
 * Value types shared by every part of the BSB engine: bytes, field ids,
 * the fixed-width integers the packet parsers return, bus commands,
 * packets and the frame codec whose byte layout lives outside this model.
 */
module BsbTypes {

  /** One byte on the bus. */
  type Byte = bv8

  /** A 32-bit field identifier (uint32_t). */
  type FieldId = x: int | 0 <= x < 0x1_0000_0000

  type UInt8 = x: int | 0 <= x < 0x100
  type Int8 = x: int | -0x80 <= x < 0x80
  type Int16 = x: int | -0x8000 <= x < 0x8000
  type Int32 = x: int | -0x8000_0000 <= x < 0x8000_0000

  /** Milliseconds of the host clock. uint32 wrap-around is not modelled. */
  type Time = nat

  datatype Option<T> = None | Some(value: T)

  /** The commands the engine distinguishes. */
  datatype Command = Get | Set | Inf | Ret | Ack | Nack

  /** A decoded or constructed packet: its command, its field and its frame bytes. */
  datatype Packet = Packet(command: Command, fieldId: FieldId, buffer: seq<Byte>)

  /** What the receive assembler hands back after one byte: its new buffer and maybe a packet. */
  datatype Assembled = Assembled(buffer: seq<Byte>, packet: Option<Packet>)

  /**
   * The frame codec and receive assembler (BsbPacket, BsbPacketReceive,
   * BsbPacketSend*). Their byte layout and checksum are not part of this
   * model, so they are parameters: the frames a Get and an Int8 Set produce,
   * the assembler's step on one (already inverted) byte, and the parse_as_*
   * readers of a received frame.
   */
  datatype Framing = Framing(
    getFrame: (Byte, Byte, FieldId) -> seq<Byte>,
    setInt8Frame: (Byte, Byte, FieldId, Int8, Byte) -> seq<Byte>,
    assemble: (seq<Byte>, Byte) -> Assembled,
    asUInt8: seq<Byte> -> UInt8,
    asInt8: seq<Byte> -> Int8,
    asInt16: seq<Byte> -> Int16,
    asInt32: seq<Byte> -> Int32,
    asTemperature: seq<Byte> -> real,
    asText: seq<Byte> -> string)

  /** BsbPacketGet(source, destination, field). */
  function GetPacket(fr: Framing, source: Byte, destination: Byte, field: FieldId): Packet {
    Packet(Get, field, fr.getFrame(source, destination, field))
  }

  /** BsbPacketSetInt8(source, destination, field, value, enable). */
  function SetInt8Packet(fr: Framing, source: Byte, destination: Byte, field: FieldId, value: Int8, enable: Byte): Packet {
    Packet(Set, field, fr.setInt8Frame(source, destination, field, value, enable))
  }

  /** The value type a point is configured with (BsbSensorValueType). */
  datatype ValueType = UInt8Type | Int8Type | Int16Type | Int32Type | TemperatureType | RoomTemperatureType | DateTimeType

  /** A raw value read out of a packet before any scaling. */
  datatype Reading = Integer(n: int) | Temperature(t: real)

  /** The integer parse_as_* reader for the four integer value types, if the type is one of them. */
  function IntegerOf(fr: Framing, buffer: seq<Byte>, vt: ValueType): (r: Option<int>)
    ensures r.Some? <==> vt in {UInt8Type, Int8Type, Int16Type, Int32Type}
  {
    match vt
    case UInt8Type => Some(fr.asUInt8(buffer))
    case Int8Type => Some(fr.asInt8(buffer))
    case Int16Type => Some(fr.asInt16(buffer))
    case Int32Type => Some(fr.asInt32(buffer))
    case _ => None
  }

  /** The reading the value-type switch of a numeric point takes: the integer types and Temperature. */
  function ReadingOf(fr: Framing, buffer: seq<Byte>, vt: ValueType): (r: Option<Reading>)
    ensures r.Some? <==> vt !in {RoomTemperatureType, DateTimeType}
    ensures vt == TemperatureType ==> r == Some(Temperature(fr.asTemperature(buffer)))
    ensures IntegerOf(fr, buffer, vt).Some? ==> r == Some(Integer(IntegerOf(fr, buffer, vt).value))
  {
    if vt == TemperatureType then Some(Temperature(fr.asTemperature(buffer)))
    else match IntegerOf(fr, buffer, vt)
      case Some(n) => Some(Integer(n))
      case None => None
  }

  /** The result of a readiness check: the answer and the point's new state. */
  datatype Checked<S> = Checked(ready: bool, next: S)

  /** The result of building a request: the packet and the point's new state. */
  datatype Made<S> = Made(packet: Packet, next: S)
}
