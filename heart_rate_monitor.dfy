// The emulated USB heart-rate monitor of EA Sports Active 2 / NFL Training Camp: its constant
// descriptors, the two-state interrupt responder and the control-message command parser.

module HeartRate {
  import opened Bytes

  /** The fields of a USB device descriptor the emulated device sets. */
  datatype DeviceDescriptor = DeviceDescriptor(
    bLength: u8, bDescriptorType: u8, bcdUSB: u16, bDeviceClass: u8, bDeviceSubClass: u8,
    bDeviceProtocol: u8, bMaxPacketSize0: u8, idVendor: u16, idProduct: u16, bcdDevice: u16,
    iManufacturer: u8, iProduct: u8, iSerialNumber: u8, bNumConfigurations: u8)

  datatype ConfigDescriptor = ConfigDescriptor(
    bLength: u8, bDescriptorType: u8, wTotalLength: u16, bNumInterfaces: u8,
    bConfigurationValue: u8, iConfiguration: u8, bmAttributes: u8, MaxPower: u8)

  /** bInterfaceProtocol is left at its zero default by the source. */
  datatype InterfaceDescriptor = InterfaceDescriptor(
    bLength: u8, bDescriptorType: u8, bInterfaceNumber: u8, bAlternateSetting: u8,
    bNumEndpoints: u8, bInterfaceClass: u8, bInterfaceSubClass: u8, bInterfaceProtocol: u8,
    iInterface: u8)

  datatype EndpointDescriptor = EndpointDescriptor(
    bLength: u8, bDescriptorType: u8, bEndpointAddress: u8, bmAttributes: u8,
    wMaxPacketSize: u16, bInterval: u8)

  /** USB standard descriptor type codes and the HID interface class. */
  const DEVICE_DESCRIPTOR: u8 := 1
  const CONFIG_DESCRIPTOR: u8 := 2
  const INTERFACE_DESCRIPTOR: u8 := 4
  const ENDPOINT_DESCRIPTOR: u8 := 5
  const HID_CLASS: u8 := 3

  /** An endpoint is an interrupt IN endpoint when bit 7 of its address is set and its
      transfer type (the low two attribute bits) is 3. */
  predicate IsInterruptIn(e: EndpointDescriptor)
  {
    e.bEndpointAddress / 0x80 == 1 && e.bmAttributes % 4 == 3
  }

  function GetEndpoints(config: u8, iface: u8, alt: u8): (es: seq<EndpointDescriptor>)
    ensures |es| == 1 && IsInterruptIn(es[0]) && es[0].bEndpointAddress % 0x80 == 1
    ensures es[0].bDescriptorType == ENDPOINT_DESCRIPTOR && es[0].wMaxPacketSize == 16
  {
    [EndpointDescriptor(7, 5, 0x81, 3, 0x0010, 16)]
  }

  function GetInterfaces(config: u8): (ifs: seq<InterfaceDescriptor>)
    ensures |ifs| == 1 && ifs[0].bInterfaceClass == HID_CLASS && ifs[0].bDescriptorType == INTERFACE_DESCRIPTOR
    ensures ifs[0].bNumEndpoints as int == |GetEndpoints(config, ifs[0].bInterfaceNumber, ifs[0].bAlternateSetting)|
  {
    [InterfaceDescriptor(9, 4, 0, 0, 1, 3, 0, 0, 0)]
  }

  function GetConfigurations(): (cs: seq<ConfigDescriptor>)
    ensures |cs| == 1 && cs[0].bDescriptorType == CONFIG_DESCRIPTOR
    ensures cs[0].bNumInterfaces as int == |GetInterfaces(cs[0].bConfigurationValue)|
    ensures cs[0].wTotalLength as int >= cs[0].bLength as int + GetInterfaces(cs[0].bConfigurationValue)[0].bLength as int +
                                         GetEndpoints(cs[0].bConfigurationValue, 0, 0)[0].bLength as int
  {
    [ConfigDescriptor(9, 2, 0x0022, 1, 1, 0, 0x80, 50)]
  }

  function GetDeviceDescriptor(): (d: DeviceDescriptor)
    ensures d.idVendor == 0x21A4 && d.idProduct == 0xAC40 && d.bDescriptorType == DEVICE_DESCRIPTOR
    ensures d.bNumConfigurations as int == |GetConfigurations()|
  {
    DeviceDescriptor(18, 1, 0x110, 0, 0, 0, 8, 0x21A4, 0xAC40, 0x300, 1, 2, 3, 1)
  }

  /** The report sent while the monitor is in state 0: sixteen bytes of 0x80. */
  function IdleReport(): seq<u8>
  {
    seq(16, _ => 0x80)
  }

  /** The heart-rate report: eleven bytes of 0x80, then the heart rate (0x7B), its confidence
      (0x0C), the left-arm status and the right-leg status (0x20 each: connected, battery fine). */
  function HeartRateReport(): seq<u8>
  {
    seq(11, _ => 0x80) + [0x7B, 0x0C, 0x20, 0x20]
  }

  /** What an interrupt transfer in `state` returns, and the state it leaves behind. */
  function IntrReply(state: u8): seq<u8>
  {
    if state == 0 then IdleReport() else HeartRateReport()
  }

  function IntrNext(state: u8): u8
  {
    if state == 0 then 1 else 0
  }

  /** The replies of `n` consecutive interrupt transfers starting in `state`. */
  function IntrReplies(state: u8, n: nat): (rs: seq<seq<u8>>)
    ensures |rs| == n
    decreases n
  {
    if n == 0 then [] else [IntrReply(state)] + IntrReplies(IntrNext(state), n - 1)
  }

  /** A control message as the device sees it; `payload` is the buffer of `length` bytes that
      MakeBuffer copies out of guest memory. */
  datatype CtrlMessage = CtrlMessage(requestType: u8, request: u8, value: u16, index: u16,
                                     length: u16, payload: seq<u8>)

  const HID_SET_REPORT: u8 := 9
  const REPORT_0_OUTPUT: u16 := 0x0200

  /** The only control message the device looks into: a class SET_REPORT to the interface
      for output report 0, two bytes long. */
  predicate IsCommand(m: CtrlMessage)
  {
    m.requestType == 0x21 && m.request == HID_SET_REPORT && m.value == REPORT_0_OUTPUT && m.length == 2
  }

  /** `b & ~0x60`: clears bits 5 and 6 of a command byte, which select the device, and keeps
      bits 0-4 and bit 7. */
  function ClearDeviceBits(b: u8): (r: u8)
    ensures r % 0x20 == b % 0x20 && r / 0x80 == b / 0x80 && (r / 0x20) % 4 == 0
    ensures r <= b
  {
    var low, top := b % 0x20, b / 0x80;
    assert b == top * 0x80 + (b / 0x20 % 4) * 0x20 + low;
    top * 0x80 + low
  }

  /** The commands the source recognises once the device bits are cleared. */
  datatype Command = Reset | Pairing | Disconnect | Other

  function Classify(b0: u8, b1: u8): Command
  {
    var c := ClearDeviceBits(b0);
    if c == 0x14 && b1 == 0x13 then Reset
    else if c == 0x14 && b1 == 0x93 then Pairing
    else if c == 0x95 && b1 == 0x13 then Disconnect
    else Other
  }

  /** The reset command, described without the mask: first byte 0x14 with any choice of
      bits 5 and 6, second byte 0x13. */
  predicate IsResetCommand(b0: u8, b1: u8)
  {
    b0 in {0x14, 0x34, 0x54, 0x74} && b1 == 0x13
  }

  /** The state after a control transfer in `state`. */
  function CtrlNext(state: u8, m: CtrlMessage): u8
    requires |m.payload| == m.length as int
  {
    if IsCommand(m) && IsResetCommand(m.payload[0], m.payload[1]) then 0 else state
  }

  /** Clearing bits 5 and 6 leaves 0x14 exactly for the four first bytes of the reset command. */
  lemma ClearDeviceBitsIsCommandByte(b: u8)
    ensures ClearDeviceBits(b) == 0x14 <==> b in {0x14, 0x34, 0x54, 0x74}
  {
    if ClearDeviceBits(b) == 0x14 {
      assert b - 0x14 in {0, 0x20, 0x40, 0x60};
    }
  }

  /** Classify recognises Reset on exactly the reset commands. */
  lemma ClassifyReset(b0: u8, b1: u8)
    ensures Classify(b0, b1) == Reset <==> IsResetCommand(b0, b1)
  {
    ClearDeviceBitsIsCommandByte(b0);
  }

  /** Pairing, disconnect and every other command leave the state as it was. */
  lemma OnlyResetChangesState(state: u8, m: CtrlMessage)
    requires |m.payload| == m.length as int && IsCommand(m)
    ensures Classify(m.payload[0], m.payload[1]) != Reset ==> CtrlNext(state, m) == state
    ensures Classify(m.payload[0], m.payload[1]) == Reset ==> CtrlNext(state, m) == 0
  {
    ClassifyReset(m.payload[0], m.payload[1]);
  }

  /** The state stays 0 or 1 under every transfer, and the interrupt transfers alternate. */
  lemma StateStaysBinary(state: u8, m: CtrlMessage)
    requires state <= 1 && |m.payload| == m.length as int
    ensures IntrNext(state) <= 1 && CtrlNext(state, m) <= 1
    ensures IntrNext(IntrNext(state)) == state
  {
  }

  /** From state 0, the k-th interrupt reply is the idle report for even k and the heart-rate
      report for odd k. */
  lemma {:induction false} RepliesAlternate(state: u8, n: nat, k: nat)
    requires state <= 1 && k < n
    decreases k
    ensures IntrReplies(state, n)[k] == (if (k + state) % 2 == 0 then IdleReport() else HeartRateReport())
  {
    if k > 0 {
      RepliesAlternate(IntrNext(state), n - 1, k - 1);
    }
  }

  /** Every interrupt reply fits in one packet of the device's interrupt endpoint. */
  lemma RepliesFitEndpoint(state: u8)
    ensures 0 < |IntrReply(state)| <= GetEndpoints(1, 0, 0)[0].wMaxPacketSize as int
  {
  }

  /** HeartRateMonitor: the emulated device and its one piece of state, m_state. */
  class HeartRateMonitor {
    var state: u8

    constructor ()
      ensures state == 0
    {
      state := 0;
    }

    /** SubmitTransfer(IntrMessage): fills a 16-byte response with 0x80; in state 0 hands
        over all of it and moves to state 1; otherwise stores the heart-rate bytes at
        0x0B..0x0E, hands over the first 15 bytes and moves to state 0. The handed-over
        bytes and their count stand for FillBuffer, the count and 1000 for the completion. */
    method SubmitIntrTransfer() returns (data: seq<u8>, length: int, expectedTimeUs: int)
      modifies this
      ensures data == IntrReply(old(state)) && length == |data| && expectedTimeUs == 1000
      ensures state == IntrNext(old(state))
    {
      var response := new u8[16](_ => 0x80);
      if state == 0 {
        data := response[..16];
        length, expectedTimeUs := 16, 1000;
        state := 1;
      } else {
        response[0x0B] := 0x7B;
        response[0x0C] := 0x0C;
        response[0x0D] := 0x20;
        response[0x0E] := 0x20;
        data := response[..15];
        assert data == HeartRateReport();
        length, expectedTimeUs := 15, 1000;
        state := 0;
      }
    }

    /** SubmitTransfer(CtrlMessage): parses the two command bytes of an output-report
        SET_REPORT, clearing the device bits of the first in place, and goes back to state 0
        on the reset command. Every control transfer completes with the message's full
        length and no delay. */
    method SubmitCtrlTransfer(m: CtrlMessage) returns (length: int, expectedTimeUs: int)
      requires |m.payload| == m.length as int
      modifies this
      ensures length == m.length as int && expectedTimeUs == 0
      ensures state == CtrlNext(old(state), m)
    {
      if m.requestType == 0x21 && m.request == HID_SET_REPORT && m.value == REPORT_0_OUTPUT && m.length == 2 {
        var cmd := new u8[2];
        cmd[0], cmd[1] := m.payload[0], m.payload[1];
        cmd[0] := ClearDeviceBits(cmd[0]);
        ClearDeviceBitsIsCommandByte(m.payload[0]);
        if cmd[0] == 0x14 && cmd[1] == 0x13 {
          state := 0;
        }
      }
      length, expectedTimeUs := m.length as int, 0;
    }
  }
}
