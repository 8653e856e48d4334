/**
  How sections and packets are written: the section header and CRC of section
  2.4.4 of ISO/IEC 13818-1 and the packet header of section 2.4.3.
*/
module SectionSender {
  import opened Collections
  import opened Sections
  import opened SectionStream
  import Crc

  type Nibble = n: int | 0 <= n < 16
  type PidNo = n: int | 0 <= n < 8192

  // ----- packets -----

  /** Bits the receiver has no use for: the priority flag and the scrambling control. */
  datatype Marks = Marks(priority: bool, scrambling: int)

  predicate FrameFits(field: Option<seq<byte>>, payload: seq<byte>) {
    |payload| >= 1 && |payload| + (if field.Some? then 1 + |field.value| else 0) == 184
  }

  /** A packet of 188 bytes: its header, the adaptation field if there is one, and the payload. */
  function Frame(pid: PidNo, cc: Nibble, starts: bool, marks: Marks, field: Option<seq<byte>>, payload: seq<byte>): seq<byte>
    requires FrameFits(field, payload) && 0 <= marks.scrambling < 4
  {
    [0x47, (if starts then 0x40 else 0) + (if marks.priority then 0x20 else 0) + pid / 256, pid % 256,
     marks.scrambling * 64 + (if field.Some? then 0x30 else 0x10) + cc]
    + (if field.Some? then [|field.value|] + field.value else [])
    + payload
  }

  /** The receiver reads back what was written, of the PAT, SDT and EIT alone. */
  lemma FrameRead(pid: PidNo, cc: Nibble, starts: bool, marks: Marks, field: Option<seq<byte>>, payload: seq<byte>)
    requires FrameFits(field, payload) && 0 <= marks.scrambling < 4
    ensures var pkt := Frame(pid, cc, starts, marks, field, payload);
            && IsPacket(pkt) && Pid(pkt) == pid && Counter(pkt) == cc && (StartsUnit(pkt) <==> starts)
            && (Useful(pkt) <==> pid == 0x00 || pid == 0x11 || pid == 0x12)
            && (Useful(pkt) ==> Payload(pkt) == payload)
  {
    var pkt := Frame(pid, cc, starts, marks, field, payload);
    FlagsRead(if starts then 1 else 0, if marks.priority then 1 else 0, pid / 256);
    ControlRead(marks.scrambling, if field.Some? then 1 else 0, cc);
    assert pkt[1] == (if starts then 0x40 else 0) + (if marks.priority then 0x20 else 0) + pid / 256;
    assert pkt[3] == marks.scrambling * 64 + (if field.Some? then 0x30 else 0x10) + cc;
    assert Offset(pkt) == 188 - |payload|;
    assert pkt[188 - |payload|..] == payload;
  }

  lemma FlagsRead(starts: int, priority: int, high: int)
    requires 0 <= starts <= 1 && 0 <= priority <= 1 && 0 <= high < 32
    ensures var b := starts * 0x40 + priority * 0x20 + high; b < 128 && b % 32 == high && b / 64 % 2 == starts
  {
  }

  lemma ControlRead(scrambling: int, adapted: int, cc: Nibble)
    requires 0 <= scrambling < 4 && 0 <= adapted <= 1
    ensures var b := scrambling * 64 + adapted * 0x20 + 0x10 + cc;
            b < 256 && b % 16 == cc && b / 16 % 2 == 1 && b / 32 % 2 == adapted
  {
  }

  /** A packet whose header says that it has no payload, or an error, carries nothing. */
  lemma EmptyFrameUnread(pkt: seq<byte>)
    requires IsPacket(pkt) && (pkt[1] >= 0x80 || pkt[3] / 16 % 4 == 0 || pkt[3] / 16 % 4 == 2)
    ensures !Useful(pkt)
  {
  }

  // ----- sections -----

  function CrcBytes(c: bv32): (b: seq<byte>)
    ensures |b| == 4
  {
    [((c >> 24) as bv8) as int, (((c >> 16) & 0xFF) as bv8) as int, (((c >> 8) & 0xFF) as bv8) as int, ((c & 0xFF) as bv8) as int]
  }

  predicate SectionFits(content: seq<byte>) { 1 <= |content| <= 4089 }

  function Header(tableId: byte, flags: Nibble, content: seq<byte>): seq<byte>
    requires SectionFits(content)
  {
    var length := |content| + 4;
    [tableId, flags * 16 + length / 256, length % 256]
  }

  /** A section of a table: the header with the length, the content, and the CRC over both. */
  function MakeSection(tableId: byte, flags: Nibble, content: seq<byte>): seq<byte>
    requires SectionFits(content)
  {
    var front := Header(tableId, flags, content) + content;
    front + CrcBytes(Crc.Run(Crc.INIT, Bits(front)))
  }

  lemma MadeIsValid(tableId: byte, flags: Nibble, content: seq<byte>)
    requires tableId != 0xFF && SectionFits(content)
    ensures Valid(MakeSection(tableId, flags, content))
  {
    hide Crc.Run, Crc.BigEndian, Bits, CrcBytes;
    var front := Header(tableId, flags, content) + content;
    var crc := Crc.Run(Crc.INIT, Bits(front));
    BitsConcat(front, CrcBytes(crc));
    BytesOfWord(crc);
    LengthRead(flags, |content| + 4);
    var s := front + CrcBytes(crc);
    assert s == MakeSection(tableId, flags, content) && |s| == |content| + 7;
    assert s[0] == tableId && s[1] == flags * 16 + (|content| + 4) / 256 && s[2] == (|content| + 4) % 256;
    assert |Bits(s)| == |s|;
  }

  lemma BitsConcat(a: seq<byte>, b: seq<byte>)
    ensures |Bits(a)| == |a| && |Bits(b)| == |b| && |Bits(a + b)| == |a| + |b|
    ensures Bits(a + b)[..|a|] == Bits(a) && Bits(a + b)[|a|..] == Bits(b)
  {
  }

  lemma LengthRead(flags: Nibble, length: nat)
    requires length < 4096
    ensures (flags * 16 + length / 256) % 16 * 256 + length % 256 == length
  {
  }

  lemma BytesOfWord(c: bv32)
    ensures Crc.BigEndian(Bits(CrcBytes(c))) == c
  {
    ByteBack((c >> 24) as bv8);
    ByteBack(((c >> 16) & 0xFF) as bv8);
    ByteBack(((c >> 8) & 0xFF) as bv8);
    ByteBack((c & 0xFF) as bv8);
    hide Crc.Word;
    WordOfParts(c);
  }

  lemma ByteBack(b: bv8)
    ensures (b as int) as bv8 == b
  {
  }

  lemma WordOfParts(c: bv32)
    ensures Crc.Word((c >> 24) as bv8, ((c >> 16) & 0xFF) as bv8, ((c >> 8) & 0xFF) as bv8, (c & 0xFF) as bv8) == c
  {
  }
}
