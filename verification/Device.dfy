/** The scanner's side of the wire: where in its replies each value is. The driver's parsers are held to
    these layouts (src/protocol.rs, src/scan.rs). */
module Device {
  import opened Basics
  import opened Wire

  /** A reply frame: its marker and its length, in three bytes less than it has. */
  predicate Frame(b: seq<Byte>, least: nat) {
    |b| >= least && |b| >= 4 && b[0] == 0xa8 && |b| == b[2] as int + 3
  }

  function Word(b: seq<Byte>, at: nat): nat
    requires at + 2 <= |b|
  {
    0x100 * b[at] as int + b[at + 1] as int
  }

  function Long(b: seq<Byte>, at: nat): nat
    requires at + 4 <= |b|
  {
    0x100_0000 * b[at] as int + 0x1_0000 * b[at + 1] as int + 0x100 * b[at + 2] as int + b[at + 3] as int
  }

  lemma LongIsBigEndian(b: seq<Byte>, at: nat)
    requires at + 4 <= |b|
    ensures Be32(b[at..at + 4]) as int == Long(b, at)
  {
    var field := b[at..at + 4];
    assert field[0] == b[at] && field[1] == b[at + 1] && field[2] == b[at + 2] && field[3] == b[at + 3];
  }

  // ---- Image metadata ----

  /** A Good reply to READ that announces this band: type, length, rows, then width. */
  predicate Announces(b: seq<Byte>, info: BandInfo) {
    && Frame(b, 32) && b[1] == 0
    && b[3] == (if info.finalBand then 0x81 else 0x80)
    && Long(b, 4) == info.length && Word(b, 8) == info.rows && Word(b, 10) == info.width
  }

  /** The driver takes a reply for a band exactly when the reply announces it and it is a valid one. */
  lemma ParseBandExactly(b: seq<Byte>, mode: ColorMode, info: BandInfo)
    ensures ParseBand(b, mode) == Ok(info) <==> Announces(b, info) && ValidBand(info, mode)
  {
    if |b| >= 32 {
      LongIsBigEndian(b, 4);
    }
    hide Be32;
  }

  function Halves(n: nat): (b: seq<Byte>)
    requires n < 0x1_0000
    ensures |b| == 2
  {
    [n / 0x100, n % 0x100]
  }

  /** What a device sends to announce a band. */
  function MetadataReply(info: BandInfo): (b: seq<Byte>)
    requires info.length < U32_LIMIT && info.rows < 0x1_0000 && info.width < 0x1_0000
    ensures |b| == 32
  {
    [0xa8, 0, 29, if info.finalBand then 0x81 else 0x80]
    + Halves(info.length / 0x1_0000) + Halves(info.length % 0x1_0000) + Halves(info.rows) + Halves(info.width)
    + seq(20, _ => 0)
  }

  /** Every valid band can be announced, and the driver understands exactly that band. */
  lemma MetadataRoundTrip(info: BandInfo, mode: ColorMode)
    requires ValidBand(info, mode)
    ensures ParseBand(MetadataReply(info), mode) == Ok(info)
  {
    hide ValidBand, ParseBand;
    ValidBandIsSmall(info, mode);
    ParseBandExactly(MetadataReply(info), mode, info);
    WholeWord(info.length / 0x1_0000);
    WholeWord(info.length % 0x1_0000);
    WholeWord(info.rows);
    WholeWord(info.width);
    assert info.length == 0x1_0000 * (info.length / 0x1_0000) + info.length % 0x1_0000;
  }

  lemma ValidBandIsSmall(info: BandInfo, mode: ColorMode)
    requires ValidBand(info, mode)
    ensures info.length < U32_LIMIT && info.rows < 0x1_0000 && info.width < 0x1_0000
  {
  }

  lemma WholeWord(n: nat)
    requires n < 0x1_0000
    ensures 0x100 * Halves(n)[0] as int + Halves(n)[1] as int == n
  {
  }

  // ---- Status ----

  /** How a device answers a command. A CHECK carries a 16-bit state. */
  datatype Status = IsReady | IsBusy | HasCancelled | Check(state: bv16)

  /** A status reply; a state stands at byte 12 of an answer to READ and at byte 4 of any other. */
  function CodedReply(code: Byte, state: nat, read: bool): (b: seq<Byte>)
    requires state < 0x1_0000
    ensures |b| == 32
  {
    [0xa8, code, 29, 0x20] + (if read then seq(8, _ => 0) else []) + Halves(state)
    + seq(if read then 18 else 26, _ => 0)
  }

  function StatusReply(status: Status, read: bool): (b: seq<Byte>)
    ensures |b| == 32
  {
    match status
    case IsReady => CodedReply(0, 0, read)
    case IsBusy => CodedReply(8, 0, read)
    case HasCancelled => CodedReply(4, 0, read)
    case Check(state) => CodedReply(2, state as int, read)
  }

  /** Some of bits 7 and 10 set, bit 0 either way, no other. */
  predicate AsksForRetry(state: bv16) {
    state & !0x481 == 0 && state & 0x480 != 0
  }

  lemma RetryIsListed(state: bv16)
    ensures AsksForRetry(state) <==> state as int in RETRY_STATES
  {
    RetryStates(state);
  }

  lemma StateIsRead(state: nat, read: bool)
    requires state < 0x1_0000
    ensures var r := ResponseStatus(CodedReply(2, state, read), read);
            if state in RETRY_STATES then r == Ok(Busy) else r.Err? && r.error.kind.InvalidData?
  {
    WholeWord(state);
    var b, at := CodedReply(2, state, read), if read then 12 else 4;
    assert b[at] == Halves(state)[0] && b[at + 1] == Halves(state)[1];
  }

  /** The driver reads every status as the device meant it. */
  lemma StatusRoundTrip(status: Status, read: bool)
    ensures var r := ResponseStatus(StatusReply(status, read), read);
            match status
            case IsReady => r == Ok(Good)
            case IsBusy => r == Ok(Busy)
            case HasCancelled => r.Err? && r.error.kind.Interrupted?
            case Check(state) => if AsksForRetry(state) then r == Ok(Busy) else r.Err? && r.error.kind.InvalidData?
  {
    if status.Check? {
      hide AsksForRetry, CodedReply, ResponseStatus;
      RetryIsListed(status.state);
      StateIsRead(status.state as int, read);
    }
  }

  // ---- Capabilities ----

  /** `identity` begins at byte `left` of the text, with only spaces and zeros around it. */
  ghost predicate StandsAt(text: seq<Byte>, identity: seq<Byte>, left: nat)
    requires |text| == 32
  {
    && left + |identity| <= 32
    && (forall i :: 0 <= i < left || left + |identity| <= i < 32 ==> text[i] in {0, 0x20})
    && (forall i :: 0 <= i < |identity| ==> identity[i] == if text[left + i] == 0 then 0x20 else text[left + i])
  }

  /** 32 bytes of printable text or zeros, shown with spaces for the zeros and without those at the ends. */
  ghost predicate Names(text: seq<Byte>, identity: seq<Byte>)
    requires |text| == 32
  {
    && (forall i :: 0 <= i < 32 ==> text[i] == 0 || 0x20 <= text[i] <= 0x7e)
    && identity != [] && identity[0] != 0x20 && identity[|identity| - 1] != 0x20
    && exists left: nat :: StandsAt(text, identity, left)
  }

  /** A product-info frame that reports these capabilities: where each field is. */
  ghost predicate Reports(b: seq<Byte>, caps: Capabilities) {
    && Frame(b, 70) && b[1] == 0 && b[3] == 0x10
    && Names(b[4..36], caps.identity)
    && caps.resolutionMask as int == 0x1_0000 * b[55] as int + Word(b, 36) != 0
    && caps.modeMask == b[39] != 0
    && caps.widthUnits as int == Long(b, 40) != 0
    && caps.lengthUnits as int == Long(b, 44) != 0
    && caps.flatbedLengthUnits as int == Long(b, 60) != 0
    && caps.lineOrder == b[49] && caps.compressionMask == b[50]
  }

  /** The identity text as the driver prepares it for trimming. */
  function Spaced(text: seq<Byte>): (s: seq<Byte>)
    requires |text| == 32
    ensures |s| == 32
  {
    seq(32, i requires 0 <= i < 32 => if text[i] == 0 then 0x20 else text[i])
  }

  /** Trimming takes spaces off both ends and nothing else. */
  lemma {:induction false} TrimExactly(s: seq<Byte>) returns (left: nat)
    ensures left + |Trim(s)| <= |s| && Trim(s) == s[left..left + |Trim(s)|]
    ensures forall i :: 0 <= i < left || left + |Trim(s)| <= i < |s| ==> s[i] == 0x20
    ensures Trim(s) != [] ==> Trim(s)[0] != 0x20 && Trim(s)[|Trim(s)| - 1] != 0x20
    decreases |s|
  {
    if |s| > 0 && s[0] == 0x20 {
      var rest := TrimExactly(s[1..]);
      left := rest + 1;
      assert forall i :: 0 < i < |s| ==> s[i] == s[1..][i - 1];
    } else if |s| > 0 && s[|s| - 1] == 0x20 {
      left := TrimExactly(s[..|s| - 1]);
    } else {
      left := 0;
    }
  }

  /** There is only one way to take the spaces off both ends. */
  lemma OneTrim(s: seq<Byte>, a: nat, b: nat, c: nat, d: nat)
    requires a < b <= |s| && c < d <= |s|
    requires s[a] != 0x20 && s[b - 1] != 0x20 && s[c] != 0x20 && s[d - 1] != 0x20
    requires forall i :: 0 <= i < a || b <= i < |s| ==> s[i] == 0x20
    requires forall i :: 0 <= i < c || d <= i < |s| ==> s[i] == 0x20
    ensures a == c && b == d
  {
  }

  lemma NamesExactly(text: seq<Byte>, identity: seq<Byte>)
    requires |text| == 32
    ensures Names(text, identity) <==>
              && (forall i :: 0 <= i < 32 ==> text[i] == 0 || 0x20 <= text[i] <= 0x7e)
              && identity == Trim(Spaced(text)) != []
  {
    hide Trim;
    var s, trimmed := Spaced(text), Trim(Spaced(text));
    var left := TrimExactly(s);
    if trimmed != [] {
      assert s[left] == trimmed[0] && s[left + |trimmed| - 1] == trimmed[|trimmed| - 1];
    }
    if Names(text, identity) {
      var at: nat :| StandsAt(text, identity, at);
      assert identity == s[at..at + |identity|];
      assert s[at] == identity[0] && s[at + |identity| - 1] == identity[|identity| - 1];
      if trimmed != [] {
        OneTrim(s, at, at + |identity|, left, left + |trimmed|);
      }
    }
    if trimmed != [] && identity == trimmed {
      assert forall i :: 0 <= i < |identity| ==> identity[i] == s[left + i];
      assert StandsAt(text, identity, left) by {
        assert forall i :: 0 <= i < 32 && s[i] == 0x20 ==> text[i] in {0, 0x20};
      }
    }
  }

  /** The driver takes a reply for these capabilities exactly when the reply reports them. */
  lemma ParseCapabilitiesExactly(b: seq<Byte>, caps: Capabilities)
    ensures ParseCapabilities(b) == Ok(caps) <==> Reports(b, caps)
  {
    hide Trim, Names, Be32;
    if Frame(b, 70) {
      LongIsBigEndian(b, 40);
      LongIsBigEndian(b, 44);
      LongIsBigEndian(b, 60);
      var text := b[4..36];
      NamesExactly(text, caps.identity);
      assert Spaced(text) == seq(32, i requires 0 <= i < 32 => if b[4 + i] == 0 then 0x20 else b[4 + i]);
      assert forall i :: 4 <= i < 36 ==> b[i] == text[i - 4];
    }
  }

  // ---- Capability bits ----

  /** Binary digit `k` of `n`. */
  function Digit(n: nat, k: nat): nat {
    if k == 0 then n % 2 else Digit(n / 2, k - 1)
  }

  function Power(k: nat): (p: nat)
    ensures p > 0
  {
    if k == 0 then 1 else 2 * Power(k - 1)
  }

  lemma {:induction false} DigitIsBit(n: nat, k: nat)
    ensures HasBit(n, Power(k)) <==> Digit(n, k) == 1
  {
    if k > 0 {
      DigitIsBit(n / 2, k - 1);
      HalfThenRest(n, Power(k - 1));
    }
  }

  lemma HalfThenRest(n: nat, p: nat)
    requires p > 0
    ensures n / (2 * p) == n / 2 / p
  {
    var q := n / 2 / p;
    assert n / 2 == p * q + n / 2 % p;
    var r := n - 2 * p * q;
    assert 0 <= r < 2 * p;
    QuotientIs(n, 2 * p, q, r);
  }

  lemma QuotientIs(n: nat, d: nat, q: nat, r: nat)
    requires d > 0 && n == d * q + r && r < d
    ensures n / d == q
  {
    var e := n / d - q;
    assert d * e == d * (n / d) - d * q;
    assert 0 - d < d * e < d;
    SmallMultiple(d, e);
  }

  /** Which bit of the resolution mask stands for which resolution. */
  const RESOLUTION_BITS: seq<(int, nat)> :=
    [(75, 0), (100, 12), (150, 1), (200, 4), (300, 5), (600, 8), (1200, 11), (2400, 15), (4800, 17), (9600, 19)]

  lemma PowersOfBits()
    ensures Power(0) == 1 && Power(1) == 2 && Power(3) == 8 && Power(4) == 0x10 && Power(5) == 0x20
    ensures Power(8) == 0x100 && Power(11) == 0x800 && Power(12) == 0x1000 && Power(15) == 0x8000
    ensures Power(17) == 0x2_0000 && Power(19) == 0x8_0000
  {
    assert Power(3) == 8 && Power(7) == 0x80 && Power(11) == 0x800 && Power(15) == 0x8000 && Power(19) == 0x8_0000;
  }

  lemma {:induction false} ReportedExactly(table: seq<(int, nat)>, mask: nat, dpi: int)
    requires Weighted(table)
    ensures dpi in Reported(table, mask) <==>
              exists i :: 0 <= i < |table| && table[i].0 == dpi && HasBit(mask, table[i].1)
  {
    hide HasBit;
    if table != [] {
      ReportedExactly(table[1..], mask, dpi);
      assert forall i :: 0 < i < |table| ==> table[i] == table[1..][i - 1];
      if dpi in Reported(table, mask) && !(table[0].0 == dpi && HasBit(mask, table[0].1)) {
        assert dpi in Reported(table[1..], mask);
        var i :| 0 <= i < |table[1..]| && table[1..][i].0 == dpi && HasBit(mask, table[1..][i].1);
        assert table[i + 1].0 == dpi;
      }
    }
  }

  /** A resolution is listed exactly when its bit is set. */
  lemma ListedByItsBit(caps: Capabilities, i: nat)
    requires i < |RESOLUTION_BITS|
    ensures RESOLUTION_BITS[i].0 in Resolutions(caps) <==> Digit(caps.resolutionMask, RESOLUTION_BITS[i].1) == 1
  {
    hide HasBit, Reported, Digit, Power;
    PowersOfBits();
    ReportedExactly(RESOLUTION_TABLE, caps.resolutionMask, RESOLUTION_BITS[i].0);
    DigitIsBit(caps.resolutionMask, RESOLUTION_BITS[i].1);
    assert RESOLUTION_TABLE[i] == (RESOLUTION_BITS[i].0, Power(RESOLUTION_BITS[i].1));
  }

  /** Grey is bit 3 of the mode mask and colour bit 5; uncompressed transfer is bit 0. */
  lemma OfferedByItsBits(r: ScanRequest, caps: Capabilities)
    ensures Offered(r, caps) <==>
              && r.dpi in Resolutions(caps)
              && Digit(caps.modeMask, if r.mode.Gray? then 3 else 5) == 1
              && Digit(caps.compressionMask, 0) == 1
              && (r.mode.Rgb? ==> caps.lineOrder <= 1)
  {
    hide HasBit, Resolutions, Digit, Power;
    PowersOfBits();
    DigitIsBit(caps.modeMask, if r.mode.Gray? then 3 else 5);
    DigitIsBit(caps.compressionMask, 0);
  }
}
