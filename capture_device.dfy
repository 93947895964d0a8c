/**
 * A live capture device (MACaptureDevice): its fixed identity and link type,
 * its capture flag, its per-device packet counter, its read/write capture
 * settings, and the stream of packets it hands to its delegate. Every libpcap
 * call is replaced by the success or failure it reports.
 */
module Capture {
  import opened Wrappers
  import opened Packets

  /** PCAP_IF_LOOPBACK in pcap.h's interface flags. */
  const PcapIfLoopback: bv32 := 1

  type Int32 = x: int | -0x8000_0000 <= x < 0x8000_0000

  /** The counter value the device stamps on its k-th packet (0-based): numbering starts at 1 and wraps with NSUInteger. */
  function IdAt(k: nat): (id: NSUInteger)
    ensures k + 1 < NSUIntegerModulus ==> id == k + 1
  {
    (k + 1) % NSUIntegerModulus
  }

  /** Advancing the counter once more gives the stamp of the next packet. */
  lemma IdAtSucc(k: nat)
    ensures IdAt(k + 1) == (IdAt(k) + 1) % NSUIntegerModulus
  {
  }

  /** `ps` is what a device with identity `src` delivers: the k-th carries stamp IdAt(k), its uuid and its link type. */
  ghost predicate Stamped(ps: seq<Packet>, src: CaptureSource)
  {
    forall k :: 0 <= k < |ps| ==>
      ps[k].id == AsNSInteger(IdAt(k)) && ps[k].deviceUUID == src.uuid && ps[k].datalink == src.dataLink
  }

  /**
   * Packets of one device are numbered consecutively and strictly increasing
   * in delivery order, as long as the count stays below 2^63.
   */
  lemma StampedNumbersIncrease(ps: seq<Packet>, src: CaptureSource, i: nat, j: nat)
    requires Stamped(ps, src)
    requires i < j < |ps| && j < NSIntegerMax
    ensures Number(ps[i]) < Number(ps[j])
    ensures Number(ps[j]) == Number(ps[i]) + (j - i)
    ensures Number(ps[j]) == j + 1
  {
  }

  class CaptureDevice {
    var nextPacketId: NSUInteger
    const deviceType: DeviceKind
    const captureDatalinkType: int
    const deviceName: string
    const deviceDescription: string
    const deviceFlags: bv32
    const uuid: string
    var promiscMode: bool
    var rfmonMode: bool
    const dataLink: int
    var maxPacketSize: Int32
    var readDelay: Int32
    var isCapturing: bool

    /** The filter program installed in the capture handle (state held by libpcap). */
    ghost var filter: Option<string>

    /** The packets handed to the delegate, in order. */
    var delivered: seq<Packet>

    /** The device as packets see it (MACaptureProtocol). */
    function Source(): CaptureSource
    {
      CaptureSource(deviceType, deviceName, uuid, dataLink)
    }

    /** The counter always holds the stamp of the next packet, and every packet so far was stamped by this device. */
    ghost predicate Valid()
      reads this
    {
      nextPacketId == IdAt(|delivered|) && Stamped(delivered, Source())
    }

    /**
     * initWithName:description:address:flags: — the device kind, the link
     * types, which libpcap reports when the device is opened, and the
     * generated uuid are inputs; the settings are taken to start at zero.
     */
    constructor (name: string, desc: string, flags: bv32, uuid: string, kind: DeviceKind,
                 dataLink: int, captureDatalinkType: int)
      ensures Valid()
      ensures deviceType == kind && deviceName == name && deviceDescription == desc && deviceFlags == flags && this.uuid == uuid
      ensures this.dataLink == dataLink && this.captureDatalinkType == captureDatalinkType
      ensures !isCapturing && delivered == [] && nextPacketId == 1 && filter == None
      ensures !promiscMode && !rfmonMode && maxPacketSize == 0 && readDelay == 0
    {
      deviceType := kind;
      deviceName := name;
      deviceDescription := desc;
      deviceFlags := flags;
      this.uuid := uuid;
      this.dataLink := dataLink;
      this.captureDatalinkType := captureDatalinkType;
      nextPacketId := 1;
      isCapturing := false;
      filter := None;
      delivered := [];
      promiscMode := false;
      rfmonMode := false;
      maxPacketSize := 0;
      readDelay := 0;
    }

    /** startCapture: `activated` is whether libpcap opened and activated the handle. */
    method StartCapture(activated: bool) returns (ok: bool)
      modifies this`isCapturing
      ensures ok == activated
      ensures nextPacketId == old(nextPacketId) && delivered == old(delivered) && filter == old(filter)
      ensures isCapturing == (ok || old(isCapturing))
      ensures !ok && !old(isCapturing) ==> !isCapturing
    {
      ok := activated;
      if ok {
        isCapturing := true;
      }
    }

    /** stopCapture: cannot fail; afterwards the device is not capturing. */
    method StopCapture()
      modifies this`isCapturing
      ensures !isCapturing
      ensures nextPacketId == old(nextPacketId) && delivered == old(delivered) && filter == old(filter)
    {
      isCapturing := false;
    }

    /** setFilter: `compiles` is whether libpcap compiled and installed `expr`. */
    method SetFilter(expr: string, compiles: bool) returns (ok: bool)
      modifies this`filter
      ensures ok == compiles
      ensures filter == if ok then Some(expr) else old(filter)
      ensures isCapturing == old(isCapturing) && nextPacketId == old(nextPacketId) && delivered == old(delivered)
    {
      ok := compiles;
      if ok {
        filter := Some(expr);
      }
    }

    /** isLoopBack: whether libpcap flagged the interface as loopback. */
    method IsLoopBack() returns (r: bool)
      ensures r <==> deviceFlags & PcapIfLoopback == PcapIfLoopback
    {
      r := deviceFlags & PcapIfLoopback != 0;
    }

    /**
     * sendPacket:withHeader: — build a record stamped with the counter and this
     * device's identity, hand it to the delegate, and advance the counter.
     */
    method SendPacket(data: seq<Byte>, hdr: PcapHeader)
      requires Valid()
      requires hdr.caplen <= |data|
      modifies this`nextPacketId, this`delivered
      ensures Valid()
      ensures delivered == old(delivered) + [InitFromDevice(data, hdr, old(nextPacketId), Source())]
      ensures nextPacketId == (old(nextPacketId) + 1) % NSUIntegerModulus
      ensures isCapturing == old(isCapturing) && filter == old(filter)
    {
      var packet := InitFromDevice(data, hdr, nextPacketId, Source());
      IdAtSucc(|delivered|);
      delivered := delivered + [packet];
      nextPacketId := (nextPacketId + 1) % NSUIntegerModulus;
    }

    /** The four read/write settings (promiscuousMode, monitorMode, maxPacketSize, readDelay) are set one at a time. */
    method SetPromiscuousMode(on: bool)
      modifies this`promiscMode
      ensures promiscMode == on
      ensures rfmonMode == old(rfmonMode) && maxPacketSize == old(maxPacketSize) && readDelay == old(readDelay)
      ensures isCapturing == old(isCapturing) && nextPacketId == old(nextPacketId)
    {
      promiscMode := on;
    }

    method SetMonitorMode(on: bool)
      modifies this`rfmonMode
      ensures rfmonMode == on
      ensures promiscMode == old(promiscMode) && maxPacketSize == old(maxPacketSize) && readDelay == old(readDelay)
      ensures isCapturing == old(isCapturing) && nextPacketId == old(nextPacketId)
    {
      rfmonMode := on;
    }

    method SetMaxPacketSize(size: Int32)
      modifies this`maxPacketSize
      ensures maxPacketSize == size
      ensures promiscMode == old(promiscMode) && rfmonMode == old(rfmonMode) && readDelay == old(readDelay)
      ensures isCapturing == old(isCapturing) && nextPacketId == old(nextPacketId)
    {
      maxPacketSize := size;
    }

    method SetReadDelay(delay: Int32)
      modifies this`readDelay
      ensures readDelay == delay
      ensures promiscMode == old(promiscMode) && rfmonMode == old(rfmonMode) && maxPacketSize == old(maxPacketSize)
      ensures isCapturing == old(isCapturing) && nextPacketId == old(nextPacketId)
    {
      readDelay := delay;
    }
  }
}
