/** The Intel HEX writers, and a reader written from the Intel Hexadecimal Object File Format
    Specification, Revision A: what is written is read back. */
module Hex {
  import opened Wrappers

  type Byte = b: nat | b < 0x100
  type Word = w: nat | w < 0x1_0000

  // ---- Text --------------------------------------------------------------------------

  const DIGITS: string := "0123456789ABCDEF"

  function HexByte(b: Byte): string {
    [DIGITS[b / 16], DIGITS[b % 16]]
  }

  function HexBytes(bs: seq<Byte>): string {
    if bs == [] then "" else HexByte(bs[0]) + HexBytes(bs[1..])
  }

  function Sum(bs: seq<Byte>): nat {
    if bs == [] then 0 else bs[0] + Sum(bs[1..])
  }

  function Checksum(bs: seq<Byte>): Byte {
    (0x100 - Sum(bs) % 0x100) % 0x100
  }

  /** One record: its bytes and their checksum, `:`-prefixed and newline-terminated. */
  function Record(bs: seq<Byte>): string {
    ":" + HexBytes(bs) + HexByte(Checksum(bs)) + "\n"
  }

  lemma {:induction false} SumSnoc(bs: seq<Byte>, b: Byte)
    ensures Sum(bs + [b]) == Sum(bs) + b
    decreases |bs|
  {
    if bs == [] {
      assert [b][1..] == [];
    } else {
      assert (bs + [b])[1..] == bs[1..] + [b];
      SumSnoc(bs[1..], b);
    }
  }

  /** Every record's bytes, checksum included, sum to zero. */
  lemma ChecksumZero(bs: seq<Byte>)
    ensures Sum(bs + [Checksum(bs)]) % 0x100 == 0
  {
    SumSnoc(bs, Checksum(bs));
  }

  lemma {:induction false} HexBytesSnoc(bs: seq<Byte>, b: Byte)
    ensures HexBytes(bs + [b]) == HexBytes(bs) + HexByte(b)
    decreases |bs|
  {
    if bs == [] {
      assert [b][1..] == [];
      assert HexBytes([b]) == HexByte(b) + "";
    } else {
      assert (bs + [b])[1..] == bs[1..] + [b];
      HexBytesSnoc(bs[1..], b);
    }
  }

  // ---- The writers -------------------------------------------------------------------

  /** One past the highest set word. */
  function Top(ws: seq<Word>): (hi: nat)
    ensures hi <= |ws| && (hi > 0 ==> ws[hi - 1] != 0)
    ensures forall k :: hi <= k < |ws| ==> ws[k] == 0
  {
    if ws == [] then 0
    else if ws[|ws| - 1] != 0 then |ws|
    else Top(ws[..|ws| - 1])
  }

  /** Byte `j` of the words, low byte first. */
  function ByteAt(ws: seq<Word>, j: nat): Byte
    requires j < 2 * |ws|
  {
    if j % 2 == 0 then ws[j / 2] % 0x100 else ws[j / 2] / 0x100
  }

  /** The words little-endian. */
  function Bytes(ws: seq<Word>): (bs: seq<Byte>)
    ensures |bs| == 2 * |ws|
    ensures forall j: nat :: j < |bs| ==> bs[j] == ByteAt(ws, j)
  {
    if ws == [] then [] else [ws[0] % 0x100, ws[0] / 0x100] + Bytes(ws[1..])
  }

  /** The record of `ws`, at 16-bit byte offset `at`: length, offset, type 0, data. */
  function DataRecord(at: nat, ws: seq<Word>): seq<Byte>
    requires |ws| <= 8
  {
    [2 * |ws|, at / 0x100 % 0x100, at % 0x100, 0] + Bytes(ws)
  }

  /** At most eight words a record. */
  function ChunkText(at: nat, ws: seq<Word>): string
    decreases |ws|
  {
    if ws == [] then ""
    else if |ws| <= 8 then Record(DataRecord(at, ws))
    else Record(DataRecord(at, ws[..8])) + ChunkText(at + 16, ws[8..])
  }

  function LinearRecord(upper: nat): seq<Byte> {
    [2, 0, 0, 4, upper / 0x100 % 0x100, upper % 0x100]
  }

  const HEADER: string := ":020000040000FA\n"
  const END: string := ":00000001FF\n"

  function HexText(ws: seq<Word>): string {
    HEADER + ChunkText(0, ws[..Top(ws)]) + END
  }

  method DataBody(ws: seq<Word>) returns (body: seq<Byte>)
    ensures body == Bytes(ws)
  {
    var a := new Byte[2 * |ws|](_ => 0);
    for i := 0 to |ws|
      invariant forall j: nat :: j < 2 * i ==> a[j] == ByteAt(ws, j)
    {
      a[2 * i] := ws[i] % 0x100;
      a[2 * i + 1] := ws[i] / 0x100;
    }
    body := a[..];
  }

  /** The bytes of the next record of `words[addr..hi]`, and how many words it takes. */
  method NextRecord(words: seq<Word>, addr: nat, hi: nat, at: nat) returns (rec: seq<Byte>, n: nat)
    requires addr < hi <= |words|
    ensures 0 < n <= 8 && addr + n <= hi
    ensures ChunkText(at, words[addr..hi]) == Record(rec) + ChunkText(at + 2 * n, words[addr + n..hi])
  {
    n := if hi - addr < 8 then hi - addr else 8;
    var body := DataBody(words[addr..addr + n]);
    rec := [2 * n, at / 0x100 % 0x100, at % 0x100, 0];
    rec := rec + body;
    NextChunk(at, words[addr..hi], n);
    assert words[addr..hi][..n] == words[addr..addr + n] && words[addr..hi][n..] == words[addr + n..hi];
  }

  method ToHex(words: seq<Word>) returns (hex: string)
    ensures hex == HexText(words)
  {
    hide Record, ChunkText, HexByte, HexBytes, Checksum;
    hex := HEADER;
    var hi := Top(words);
    var addr := 0;
    ghost var goal, rest := HEADER + ChunkText(0, words[..hi]), ChunkText(0, words[..hi]);
    assert words[0..hi] == words[..hi];
    while addr < hi
      invariant addr <= hi
      invariant rest == ChunkText(2 * addr, words[addr..hi]) && hex + rest == goal
    {
      var rec, n := NextRecord(words, addr, hi, addr * 2);
      ghost var data := rec;
      rec := rec + [Checksum(rec)];
      hex := hex + (":" + HexBytes(rec) + "\n");
      RecordIs(data);
      rest := ChunkText(2 * (addr + n), words[addr + n..hi]);
      addr := addr + n;
    }
    NoChunk(2 * addr, words[hi..hi]);
    hex := hex + END;
  }

  lemma RecordIs(bs: seq<Byte>)
    ensures ":" + HexBytes(bs + [Checksum(bs)]) + "\n" == Record(bs)
  {
    HexBytesSnoc(bs, Checksum(bs));
  }

  lemma NoChunk(at: nat, ws: seq<Word>)
    requires ws == []
    ensures ChunkText(at, ws) == ""
  {
  }

  lemma NextChunk(at: nat, ws: seq<Word>, n: nat)
    requires ws != [] && n == (if |ws| < 8 then |ws| else 8)
    ensures ChunkText(at, ws) == Record(DataRecord(at, ws[..n])) + ChunkText(at + 2 * n, ws[n..])
  {
    if |ws| <= 8 {
      assert ws[..n] == ws && ws[n..] == [];
    }
  }

  type Chunk = (nat, seq<Word>)

  /** The chunks in order, with an extended linear address record where the upper half changes. */
  function RegionsText(chunks: seq<Chunk>, upper: Option<nat>): string {
    if chunks == [] then END
    else
      var (base, ws) := chunks[0];
      (if upper == Some(base / 0x1_0000) then "" else Record(LinearRecord(base / 0x1_0000)))
      + ChunkText(base % 0x1_0000, ws[..Top(ws)])
      + RegionsText(chunks[1..], Some(base / 0x1_0000))
  }

  method ToHexRegions(chunks: seq<Chunk>) returns (hex: string)
    ensures hex == RegionsText(chunks, None)
  {
    hide Record, ChunkText, RegionsText;
    hex := "";
    var upper: Option<nat> := None;
    ghost var rest := RegionsText(chunks, None);
    assert chunks[0..] == chunks;
    for c := 0 to |chunks|
      invariant rest == RegionsText(chunks[c..], upper) && hex + rest == RegionsText(chunks, None)
    {
      var (base, words) := chunks[c];
      var up := base / 0x1_0000;
      var hi := Top(words);
      var at := base % 0x1_0000;
      ghost var later := RegionsText(chunks[c + 1..], Some(up));
      ghost var hex0 := hex;
      RegionsNext(chunks, c, upper);
      if upper != Some(up) {
        hex := hex + Record([2, 0, 0, 4, up / 0x100 % 0x100, up % 0x100]);
      }
      ghost var linear := if upper == Some(up) then "" else Record(LinearRecord(up));
      ghost var chunk := ChunkText(at, words[..hi]);
      assert hex == hex0 + linear && rest == linear + chunk + later;
      var addr := 0;
      ghost var goal, left := hex + chunk, chunk;
      assert words[0..hi] == words[..hi];
      while addr < hi
        invariant addr <= hi
        invariant left == ChunkText(at + 2 * addr, words[addr..hi]) && hex + left == goal
      {
        var rec, n := NextRecord(words, addr, hi, at + 2 * addr);
        hex := hex + Record(rec);
        left := ChunkText(at + 2 * (addr + n), words[addr + n..hi]);
        addr := addr + n;
      }
      NoChunk(at + 2 * addr, words[hi..hi]);
      assert hex == hex0 + linear + chunk;
      assert hex + later == hex0 + (linear + chunk + later);
      upper := Some(up);
      rest := later;
    }
    assert chunks[|chunks|..] == [];
    RegionsEnd(upper);
    hex := hex + END;
  }

  lemma RegionsNext(chunks: seq<Chunk>, c: nat, upper: Option<nat>)
    requires c < |chunks|
    ensures var (base, ws) := chunks[c];
            RegionsText(chunks[c..], upper)
            == (if upper == Some(base / 0x1_0000) then "" else Record(LinearRecord(base / 0x1_0000)))
               + ChunkText(base % 0x1_0000, ws[..Top(ws)])
               + RegionsText(chunks[c + 1..], Some(base / 0x1_0000))
  {
    assert chunks[c..][1..] == chunks[c + 1..];
  }

  lemma RegionsEnd(upper: Option<nat>)
    ensures RegionsText([], upper) == END
  {
  }

  /** One chunk at address 0 is written exactly as the single-image writer writes it. */
  lemma OneRegion(ws: seq<Word>)
    ensures RegionsText([(0, ws)], None) == HexText(ws)
  {
    hide Record, ChunkText, RegionsText;
    var one: seq<Chunk> := [(0, ws)];
    assert one[0..] == one && one[1..] == [];
    HeaderIs();
    RegionsEnd(Some(0));
    RegionsNext(one, 0, None);
  }

  lemma HeaderIs()
    ensures Record(LinearRecord(0)) == HEADER
  {
    hide HexByte, HexBytes, Sum;
    var r: seq<Byte> := [2, 0, 0, 4, 0, 0];
    assert LinearRecord(0) == r;
    HeaderBytes(r);
    assert Checksum(r) == 0xFA;
    Digits();
    assert Record(r) == ":" + "020000040000" + "FA" + "\n";
  }

  lemma HeaderBytes(r: seq<Byte>)
    requires r == [2, 0, 0, 4, 0, 0]
    ensures HexBytes(r) == "020000040000" && Sum(r) == 6
  {
    hide HexByte, HexBytes, Sum;
    assert r[0..] == r && r[6..] == [];
    BytesFrom(r, 0);
    BytesFrom(r, 1);
    BytesFrom(r, 2);
    BytesFrom(r, 3);
    BytesFrom(r, 4);
    BytesFrom(r, 5);
    NoBytes();
    Digits();
    assert HexBytes(r[4..]) == "0000";
    assert HexBytes(r[2..]) == "00040000";
  }

  lemma NoBytes()
    ensures HexBytes([]) == "" && Sum([]) == 0
  {
  }

  lemma Digits()
    ensures HexByte(0) == "00" && HexByte(2) == "02" && HexByte(4) == "04" && HexByte(0xFA) == "FA"
  {
  }

  lemma BytesFrom(r: seq<Byte>, k: nat)
    requires k < |r|
    ensures Sum(r[k..]) == r[k] + Sum(r[k + 1..])
    ensures HexBytes(r[k..]) == HexByte(r[k]) + HexBytes(r[k + 1..])
  {
    assert r[k..][1..] == r[k + 1..];
  }
}
