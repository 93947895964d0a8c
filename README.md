# MacAlyzer capture core in Dafny

This project models the core of MacAlyzer, a packet analyser for macOS. It has three parts:

- **The protocol decoder framework** (`pan.dfy`, module `Pan`). A decode request (`pbuf_t`, class `Pan.Pbuf`) holds:
  - a link type;
  - a window over a captured frame, given as an offset `data` and a remaining length `len`;
  - one of four request kinds (source, destination, protocol, info);
  - an output object.
  `PAN_NEXT` (`Pan.PanNext`) hands the request to the next layer's decoder. It narrows the window past the current header, runs that decoder, and restores the window. Decoders are reached through a static table of `pan_header_t` rows: names and type codes map to each other (`pan_stoi`, `pan_itos`), and a type code maps to its decoder (`pan_itop`). `pan_input` (`Pan.PanInput`) is the entry point.
- **The packet record** (`packet.dfy`, module `Packets`). `MAPacket` is an immutable value. It holds a pcap header, its own copy of the captured bytes, an identification number, the capturing device's UUID and the link type. It has two initialisers and readonly accessors.
- **The capture device** (`capture_device.dfy`, module `Capture`). `MACaptureDevice` is a class with:
  - a per-device packet counter;
  - a capturing flag;
  - a fixed identity and fixed link types;
  - four read/write capture settings;
  - the stream of packets it hands to its delegate.
  Every libpcap call is replaced by the success or failure it would report.

`wrappers.dfy` holds the `Option` type. The model uses it for NULL pointers and failed lookups.

Modelling choices:

- **Decoders.** A decoder is a table entry. It has the size of the header it consumes, the fragment it writes for each request kind it answers, and the type code of the layer it hands on to. `Pan.Decode` runs one decoder on a request:
  - it writes its fragment, but only when its whole header fits in the window;
  - it then calls `PAN_NEXT` with its own header size and the table row of its next type.
- **Decoder behaviour as functions.** `Pan.Run` and `Pan.Descent` give the invocations a decode chain makes, as pure functions. `Pan.Decode` and `Pan.PanNext` are proved to perform exactly those invocations. They are also proved to leave `data`, `len`, `dlt` and `req` as they found them. That holds because the modelled decoders never change those fields themselves: `PAN_NEXT` undoes its own shift by relative arithmetic and does not save or restore anything, so a decoder that changed the cursor or `dlt` would break it.
- **Output object.** The output object is modelled as the sequence of values written to it. `pan_input` answers with the last value written, or `"<Unknown>"` when nothing was written or the link type has no decoder.
- **Integer widths.** The packet counter is an `NSUInteger` that wraps at 2^64. A packet's `number` is that counter reinterpreted as `NSInteger`, which turns negative from 2^63 on. Numbering starts at 1, and each packet is stamped before the counter advances.
- **Sources of the behaviour.** Only the header files are modelled; the `.m`/`.c` bodies are not part of this model. Where the headers leave behaviour open, the model follows a stated choice, listed below. A stricter design would refuse `setFilter` while capturing, make packet construction fail on inconsistent lengths, and give the device explicit Idle/Open/Stopped states. The headers declare none of these, so the model follows the headers.

## Model

| member | source | states |
|---|---|---|
| Pan.RequestCode | MacAlyzer/pan.h:52-58 | every request kind has one of the four enumerator values 0..3 |
| Pan.RequestOfCode | MacAlyzer/pan.h:52-58 | an integer is a request kind exactly when it is 0, 1, 2 or 3, and that kind's code is the integer |
| Pan.RequestCodeRoundTrip | MacAlyzer/pan.h:52-58 | reading a kind's code back gives the same kind |
| Pan.FindName | MacAlyzer/pan.h:73-83 | finds the first table row with the name, or reports that no row has it |
| Pan.FindType | MacAlyzer/pan.h:73-85 | finds the first table row with the type code, or reports that no row has it |
| Pan.StoI | MacAlyzer/pan.h:83 | pan_stoi answers exactly when some row has the name, and answers that row's type code |
| Pan.ItoS | MacAlyzer/pan.h:84 | pan_itos answers exactly when some row has the type code, and answers that row's name |
| Pan.HeaderOf | MacAlyzer/pan.h:73-79 | the header found for a type code is a table row with that code, and is found exactly when one exists |
| Pan.ItoP | MacAlyzer/pan.h:85 | pan_itop answers only with a decoder stored in a row with that type code, and gives none for an unregistered code |
| Pan.StoIThenItoS | MacAlyzer/pan.h:83-84 | with unique type codes, pan_itos(pan_stoi(n)) == n for every registered name |
| Pan.ItoSThenStoI | MacAlyzer/pan.h:83-84 | with unique names, pan_stoi(pan_itos(t)) == t for every registered type code |
| Pan.ItoPIsStoredDecoder | MacAlyzer/pan.h:77-85 | with unique type codes, pan_itop of a row's code is exactly that row's decoder, NULL included |
| Pan.NextHeader | MacAlyzer/pan.h:36-38 | the header a decoder hands to PAN_NEXT comes from a well-formed table, so its decoder consumes at least one byte |
| Pan.RunDepth | MacAlyzer/pan.h:40-44 | every descent consumes at least one byte, so a decode chain on `len` bytes makes at least one and at most max(1, len) decoder invocations |
| Pan.RunSteps | MacAlyzer/pan.h:40-45 | a chain starts with the caller's window, and each later invocation sees the previous window less the previous header size, with the same request kind and a table decoder |
| Pan.ChainedWindows | MacAlyzer/pan.h:42-47 | every window in a chain starts no earlier than the first window and ends exactly where it ends, is non-empty after the first, and carries the same request kind |
| Pan.ChainedWindowIsSuffix | MacAlyzer/pan.h:42-45 | the bytes each layer sees are a suffix of the bytes the first layer saw, and never reach past the frame |
| Pan.RunIndependentOfRequest | MacAlyzer/pan.h:36-50 | the layers a chain visits, and their windows, are the same for all four request kinds |
| Pan.RunFragmentsFromTable | MacAlyzer/pan.h:73-79 | every fragment a chain writes is the requested kind's output of some table decoder |
| Pan.RenderOrigin | MacAlyzer/pan.h:87 | pan_input answers either "<Unknown>" or a fragment some table decoder writes for exactly the requested kind |
| Pan.RenderPlaceholder | MacAlyzer/pan.h:85-87 | an unregistered link type, or a zero-length frame, renders as "<Unknown>" |
| Pan.PanNext | MacAlyzer/pan.h:36-50 | PAN_NEXT runs the decoder only if request, header and decoder are present and len > size; afterwards data, len, dlt and req equal their values before the call; the invocations and output are exactly Descent's |
| Pan.Decode | MacAlyzer/pan.h:71 | a decoder leaves the request's window, link type and kind as it found them and performs exactly the invocations and writes of Run |
| Pan.PanInput | MacAlyzer/pan.h:87 | pan_input's answer is the rendering of the chain started by the link type's registered decoder |
| Packets.View | MAProtocols.h:64-68 | each view is pan_input (Pan.Render) over the record's captured bytes and link type; an unregistered link type or an empty capture shows "<Unknown>" |
| Pan.Pbuf.constructor | MacAlyzer/pan.h:60-67 | a fresh request covers the first `len` bytes of the frame with an empty output |
| Packets.AsNSInteger | MacAlyzer/MAPacket.h:43-55 | storing the NSUInteger id in the NSInteger field keeps the bits: same value below 2^63, congruent mod 2^64 always |
| Packets.InitWithUUID | MacAlyzer/MAPacket.h:53-65 | header, time, length, bytes/data (the caplen captured bytes, exactly the input when it has caplen bytes), number and deviceUUID read back what construction was given |
| Packets.InitFromDevice | MacAlyzer/MAPacket.h:48-51 | the device initialiser is the explicit one with the device's uuid and dataLink |
| Packets.UnregisteredLinkTypeIsUnknown | MAProtocols.h:64-68 | a record whose link type has no table row shows "<Unknown>" for source, destination, protocol and description |
| Packets.ViewOrigin | MAProtocols.h:64-68 | each of the four views is "<Unknown>" or that kind's fragment of a registered decoder |
| Capture.IdAt | MACaptureDevice.h:41 | the k-th packet's stamp is k + 1 until the NSUInteger counter wraps |
| Capture.IdAtSucc | MACaptureDevice.h:76-77 | advancing the wrapping counter gives the stamp of the next packet |
| Capture.StampedNumbersIncrease | MACaptureDevice.h:76-77 | one device's packets are numbered 1, 2, 3, ... in delivery order, strictly increasing with no gaps, below 2^63 packets |
| Capture.CaptureDevice.constructor | MACaptureDevice.h:63-66 | a new device is not capturing, has delivered nothing and will stamp its first packet 1 |
| Capture.CaptureDevice.StartCapture | MACaptureDevice.h:69 | the result is libpcap's success; success sets isCapturing, failure leaves a stopped device stopped; counter and packets unchanged |
| Capture.CaptureDevice.StopCapture | MACaptureDevice.h:70 | afterwards the device is not capturing, so a second stop changes nothing; counter and packets unchanged |
| Capture.CaptureDevice.SetFilter | MACaptureDevice.h:71 | the result is whether the filter compiled; only then is it installed; capturing flag and counter unchanged |
| Capture.CaptureDevice.IsLoopBack | MACaptureDevice.h:73 | true exactly when the interface flags have PCAP_IF_LOOPBACK set; no state changes |
| Capture.CaptureDevice.SendPacket | MACaptureDevice.h:76-77 | the delegate receives a record stamped with the counter, the device's uuid and dataLink, and the counter advances; every delivered record keeps its stamp |
| Capture.CaptureDevice.SetPromiscuousMode | MACaptureDevice.h:91 | sets promiscuousMode only; the other settings and the capture state are unchanged |
| Capture.CaptureDevice.SetMonitorMode | MACaptureDevice.h:92 | sets monitorMode only; the other settings and the capture state are unchanged |
| Capture.CaptureDevice.SetMaxPacketSize | MACaptureDevice.h:94 | sets maxPacketSize only; the other settings and the capture state are unchanged |
| Capture.CaptureDevice.SetReadDelay | MACaptureDevice.h:95 | sets readDelay only; the other settings and the capture state are unchanged |

## Left out

- Pan.PanNext: requires `size >= 1`, and a well-formed table gives every decoder a header of at least one byte. With a zero-byte header, PAN_NEXT hands the same window on, and a decoder whose next type leads back to itself recurses without bound. The model excludes that case so the recursion terminates.
- Pan.Decode: a modelled decoder never changes `data`, `len` or `dlt` itself, so the restoration proved for `PAN_NEXT` (pan.h:46-47 undoes only its own shift) holds for such decoders, not for the macro on its own. A C decoder that trims `len` or sets `dlt` is not covered.
- Pan.Decode: a decoder is taken to write its fragment before it descends, so the last value written, which `pan_input` answers, is the innermost answering layer's. It writes nothing when its header does not fit in the window; the zero-length case of Pan.RenderPlaceholder rests on that choice.
- Pan.Decode: concrete decoders (Ethernet, IP, UDP, ...) are not in these files, and their parsing is not modelled. The next-layer type code a decoder reads from its header is a fixed field of the table entry. The fragments a decoder writes are opaque strings.
- Pan.PanInput: the body of pan_input is not part of this model. A lookup miss is taken to give NULL. The result is taken to be the last value written to the output object.
- Pan.StoI, Pan.ItoS, Pan.ItoP: a miss is modelled as `None`. The C sentinel value for a miss is not declared in the header.
- The `p_dat` macro is not modelled. It names fields that `pbuf_t` does not have, so it is dead code.
- Packets.InitWithUUID: requires at least `caplen` input bytes. The C initialiser takes a raw pointer and cannot detect a shorter buffer, so there is no failure path to model.
- Packets.InitWithUUID: `length` is taken to be the on-the-wire length (`len`). `time` is the header's timestamp, kept opaque; the NSDate conversion is not modelled.
- Packets: the record is a value, so its private copy of the bytes cannot alias the caller's buffer. Ownership and memory management are not modelled.
- Packets.View: the source, destination, protocol and description properties are taken to be pan_input over the record's bytes and link type. MAPacket's implementation is not part of this model.
- Capture.CaptureDevice.StartCapture: the header does not say whether a failed start on a device that is already capturing clears the flag. The model leaves the flag unchanged.
- Capture.CaptureDevice.SetFilter: the installed filter lives in libpcap's handle and is kept as ghost state. Filter compilation is an input.
- Capture.CaptureDevice.constructor: the initial counter value (1) is chosen to give 1-based numbering. The initial settings are taken to be zero; the initialiser's body is not part of this model, and opening a device may set them. The device kind, the link types and the uuid come from the caller, libpcap and UUID generation, so they are inputs.
- Capture.CaptureDevice.SendPacket: the packet is recorded as delivered to the delegate. Serialising it to NSData and the delegate call are not modelled.
- `cloneAddress:`, `deviceURL`, `captureSession`, `captureErrorBuffer`, `deviceAddress` and the `delegate` property are not modelled. They are libpcap structures, error strings and Cocoa objects.
- PCAPController.h is not part of this model: helper-process IPC, authorization, dispatch queues, the named pipe and its `readall` loop.
- MAWindowController.h and ConfigurationConstants.h are not part of this model. They hold presentation, UI constants and refresh intervals.
- Concurrency between the capture thread and the consumer is not modelled.
