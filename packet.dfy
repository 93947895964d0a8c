/**
 * The captured-packet record (MAPacket): a pcap header, a private copy of the
 * captured bytes, an identification number, the UUID of the capturing device
 * and its link type. Nothing changes a record after it is built.
 */
module Packets {
  import Pan

  type Byte = Pan.Byte

  const NSIntegerMax: int := 0x7FFF_FFFF_FFFF_FFFF
  const NSUIntegerModulus: int := 0x1_0000_0000_0000_0000
  const BpfUInt32Modulus: int := 0x1_0000_0000

  /** Values of Cocoa's unsigned word (NSUInteger) and of pcap's bpf_u_int32. */
  type NSUInteger = x: int | 0 <= x < NSUIntegerModulus
  type BpfUInt32 = x: int | 0 <= x < BpfUInt32Modulus

  /** A capture timestamp (struct timeval), copied from the header and never interpreted. */
  datatype Timeval = Timeval(sec: int, usec: int)

  /** struct pcap_pkthdr: timestamp, captured length and on-the-wire length. */
  datatype PcapHeader = PcapHeader(ts: Timeval, caplen: BpfUInt32, len: BpfUInt32)

  /** cap_device_t: a save file or a live device. */
  datatype DeviceKind = SaveFile | LiveDevice

  /** What a packet reads from the device it came from (the MACaptureProtocol properties). */
  datatype CaptureSource = CaptureSource(deviceType: DeviceKind, deviceName: string, uuid: string, dataLink: int)

  /** The record's private state: _header, _bytes, _id, _deviceUUID, _datalink. */
  datatype Packet = Packet(header: PcapHeader, bytes: seq<Byte>, id: int, deviceUUID: string, datalink: int)

  /**
   * The NSInteger that holds an NSUInteger's bits: the initialisers take the
   * identification as an NSUInteger while the record keeps an NSInteger, so
   * the value is the same below 2^63 and negative above.
   */
  function AsNSInteger(u: NSUInteger): (i: int)
    ensures -NSIntegerMax - 1 <= i <= NSIntegerMax
    ensures (u - i) % NSUIntegerModulus == 0
    ensures u <= NSIntegerMax ==> i == u
  {
    if u <= NSIntegerMax then u else u - NSUIntegerModulus
  }

  /**
   * initWithData:withHeader:withId:withUUID:withDataLink: — the record keeps
   * the header, its own copy of the `caplen` captured bytes, and the rest.
   */
  function InitWithUUID(bytes: seq<Byte>, header: PcapHeader, identification: NSUInteger,
                        uuid: string, dataLink: int): (p: Packet)
    requires header.caplen <= |bytes|
    ensures Header(p) == header && Time(p) == header.ts && Length(p) == header.len
    ensures Bytes(p) == bytes[..header.caplen] && Data(p) == Bytes(p)
    ensures |bytes| == header.caplen ==> Bytes(p) == bytes
    ensures Number(p) == AsNSInteger(identification)
    ensures identification <= NSIntegerMax ==> Number(p) == identification
    ensures DeviceUUID(p) == uuid && p.datalink == dataLink
  {
    Packet(header, bytes[..header.caplen], AsNSInteger(identification), uuid, dataLink)
  }

  /**
   * initWithData:withHeader:withId:fromDevice: — the explicit initialiser
   * with the device's uuid and dataLink.
   */
  function InitFromDevice(bytes: seq<Byte>, header: PcapHeader, identification: NSUInteger,
                          device: CaptureSource): (p: Packet)
    requires header.caplen <= |bytes|
    ensures p == InitWithUUID(bytes, header, identification, device.uuid, device.dataLink)
    ensures DeviceUUID(p) == device.uuid && p.datalink == device.dataLink
  {
    InitWithUUID(bytes, header, identification, device.uuid, device.dataLink)
  }

  // The readonly accessors.

  function Header(p: Packet): PcapHeader { p.header }

  function Bytes(p: Packet): seq<Byte> { p.bytes }

  function Data(p: Packet): seq<Byte> { p.bytes }

  function Length(p: Packet): int { p.header.len }

  function Number(p: Packet): int { p.id }

  function Time(p: Packet): Timeval { p.header.ts }

  function DeviceUUID(p: Packet): string { p.deviceUUID }

  /**
   * The source, destination, protocol and description strings: a decode
   * request of that kind over the record's bytes, dispatched on its link type.
   */
  function View(table: Pan.Table, p: Packet, req: Pan.Request): (v: string)
    requires Pan.WellFormed(table)
    ensures Pan.ItoP(table, p.datalink).None? || |p.bytes| == 0 ==> v == Pan.Unknown
  {
    if Pan.ItoP(table, p.datalink).None? || |p.bytes| == 0 then
      Pan.RenderPlaceholder(table, req, p.datalink, |p.bytes|);
      Pan.Render(table, req, p.datalink, |p.bytes|)
    else
      Pan.Render(table, req, p.datalink, |p.bytes|)
  }

  /** A record whose link type has no decoder shows the placeholder for all four views. */
  lemma UnregisteredLinkTypeIsUnknown(table: Pan.Table, p: Packet)
    requires Pan.WellFormed(table)
    requires forall j :: 0 <= j < |table| ==> table[j].typ != p.datalink
    ensures forall req :: View(table, p, req) == Pan.Unknown
  {
  }

  /** Every view is the placeholder or that kind's fragment of some registered decoder. */
  lemma ViewOrigin(table: Pan.Table, p: Packet, req: Pan.Request)
    requires Pan.WellFormed(table)
    ensures View(table, p, req) == Pan.Unknown || Pan.Produces(table, req, View(table, p, req))
  {
    Pan.RenderOrigin(table, req, p.datalink, |p.bytes|);
  }
}
