/** A loader for Intel HEX text, from the record formats of the Intel Hexadecimal Object File
    Format Specification, Revision A (Data, End of File, Extended Linear Address), and the
    round trip of both writers through it. */
module HexRead {
  import opened Wrappers
  import opened Hex

  type Memory = map<nat, Byte>

  const ADDRESS_SPACE := 0x1_0000_0000

  // ---- Reading text ------------------------------------------------------------------

  function DigitValue(c: char): Option<nat>
    ensures DigitValue(c).Some? ==> DigitValue(c).value < 16
  {
    if '0' <= c <= '9' then Some(c as int - '0' as int)
    else if 'A' <= c <= 'F' then Some(c as int - 'A' as int + 10)
    else None
  }

  /** Pairs of digits up to the end of the line. */
  function ReadBytes(s: string): (r: Option<(seq<Byte>, string)>)
    ensures r.Some? ==> |r.value.1| < |s|
  {
    if s == "" then None
    else if s[0] == '\n' then Some(([], s[1..]))
    else if |s| < 2 || DigitValue(s[0]).None? || DigitValue(s[1]).None? then None
    else
      match ReadBytes(s[2..])
      case None => None
      case Some((bs, rest)) => Some(([16 * DigitValue(s[0]).value + DigitValue(s[1]).value] + bs, rest))
  }

  function ReadRecord(s: string): (r: Option<(seq<Byte>, string)>)
    ensures r.Some? ==> |r.value.1| < |s|
  {
    if s != "" && s[0] == ':' then ReadBytes(s[1..]) else None
  }

  function Join(high: Byte, low: Byte): nat {
    0x100 * (high as nat) + low as nat
  }

  /** Data bytes from address `a` on, modulo the 4 GB address space. */
  function Store(m: Memory, a: nat, data: seq<Byte>): Memory
    decreases |data|
  {
    if data == [] then m else Store(m[a % ADDRESS_SPACE := data[0]], a + 1, data[1..])
  }

  /** Length byte, and all bytes summing to zero. */
  predicate WellFormed(rec: seq<Byte>) {
    |rec| >= 5 && rec[0] == |rec| - 5 && Sum(rec) % 0x100 == 0
  }

  /** Load records into `m`; `lba` is the linear base address in force. */
  function Load(s: string, lba: nat, m: Memory): Option<Memory>
    decreases |s|
  {
    match ReadRecord(s)
    case None => None
    case Some((rec, rest)) =>
      if !WellFormed(rec) then None
      else
        var data := rec[4..|rec| - 1];
        if rec[3] == 0 then Load(rest, lba, Store(m, lba + Join(rec[1], rec[2]), data))
        else if rec[3] == 1 then (if data == [] && rest == "" then Some(m) else None)
        else if rec[3] == 4 && |data| == 2 then Load(rest, 0x1_0000 * Join(data[0], data[1]), m)
        else None
  }

  // ---- What is written is read -------------------------------------------------------

  lemma DigitBack(v: nat)
    requires v < 16
    ensures DigitValue(DIGITS[v]) == Some(v) && DIGITS[v] != '\n'
  {
    assert DIGITS == ['0', '1', '2', '3', '4', '5', '6', '7', '8', '9', 'A', 'B', 'C', 'D', 'E', 'F'];
  }

  lemma {:induction false} BytesBack(bs: seq<Byte>, rest: string)
    ensures ReadBytes(HexBytes(bs) + ("\n" + rest)) == Some((bs, rest))
    decreases |bs|
  {
    hide DigitValue, HexByte;
    var s := HexBytes(bs) + ("\n" + rest);
    if bs == [] {
      NoBytes();
      assert s[1..] == rest;
    } else {
      var tail := HexBytes(bs[1..]) + ("\n" + rest);
      BytesBack(bs[1..], rest);
      assert s == HexByte(bs[0]) + tail;
      ByteBack(bs[0], tail);
      assert [bs[0]] + bs[1..] == bs;
    }
  }

  lemma ByteBack(b: Byte, tail: string)
    requires ReadBytes(tail).Some?
    ensures ReadBytes(HexByte(b) + tail) == Some(([b] + ReadBytes(tail).value.0, ReadBytes(tail).value.1))
  {
    hide DigitValue;
    var s := HexByte(b) + tail;
    DigitBack(b / 16);
    DigitBack(b % 16);
    assert s[0] == DIGITS[b / 16] && s[1] == DIGITS[b % 16] && s[2..] == tail;
  }

  lemma RecordBack(bs: seq<Byte>, rest: string)
    ensures ReadRecord(Record(bs) + rest) == Some((bs + [Checksum(bs)], rest))
  {
    hide HexBytes, ReadBytes, Checksum, HexByte;
    var full := bs + [Checksum(bs)];
    HexBytesSnoc(bs, Checksum(bs));
    BytesBack(full, rest);
    var s := Record(bs) + rest;
    assert s[1..] == HexBytes(full) + ("\n" + rest);
  }

  /** Any record with a right length byte loads as its type says. */
  lemma LoadRecord(bs: seq<Byte>, rest: string, lba: nat, m: Memory)
    requires |bs| >= 4 && bs[0] == |bs| - 4
    ensures Load(Record(bs) + rest, lba, m)
         == (if bs[3] == 0 then Load(rest, lba, Store(m, lba + Join(bs[1], bs[2]), bs[4..]))
             else if bs[3] == 1 then (if |bs| == 4 && rest == "" then Some(m) else None)
             else if bs[3] == 4 && |bs| == 6 then Load(rest, 0x1_0000 * Join(bs[4], bs[5]), m)
             else None)
  {
    hide Record, ReadRecord, Store, Sum, Checksum;
    RecordBack(bs, rest);
    ChecksumZero(bs);
    var rec := bs + [Checksum(bs)];
    assert rec[4..|rec| - 1] == bs[4..];
  }

  lemma LoadData(at: nat, ws: seq<Word>, rest: string, lba: nat, m: Memory)
    requires |ws| <= 8
    ensures Load(Record(DataRecord(at, ws)) + rest, lba, m)
         == Load(rest, lba, Store(m, lba + at % 0x1_0000, Bytes(ws)))
  {
    hide Record, Load, Store, Bytes;
    var bs := DataRecord(at, ws);
    LoadRecord(bs, rest, lba, m);
    assert bs[4..] == Bytes(ws);
    assert 0x100 * (at / 0x100 % 0x100) + at % 0x100 == at % 0x1_0000;
  }

  lemma LoadEnd(lba: nat, m: Memory)
    ensures Load(END, lba, m) == Some(m)
  {
    hide Record, Load;
    EndIs();
    var e: seq<Byte> := [0, 0, 0, 1];
    LoadRecord(e, "", lba, m);
    assert Record(e) + "" == END;
  }

  lemma EndIs()
    ensures Record([0, 0, 0, 1]) == END
  {
    hide HexByte, HexBytes, Sum;
    var r: seq<Byte> := [0, 0, 0, 1];
    assert r[0..] == r && r[4..] == [];
    BytesFrom(r, 0);
    BytesFrom(r, 1);
    BytesFrom(r, 2);
    BytesFrom(r, 3);
    NoBytes();
    assert Checksum(r) == 0xFF;
    assert HexByte(1) == "01" && HexByte(0xFF) == "FF" by { OtherDigits(); }
    Digits();
    assert HexBytes(r) == "00000001";
    assert Record(r) == ":" + "00000001" + "FF" + "\n";
  }

  lemma OtherDigits()
    ensures HexByte(1) == "01" && HexByte(0xFF) == "FF"
  {
  }

  // ---- Chunks ------------------------------------------------------------------------

  /** What the records of a chunk store: their offsets are 16 bits wide, and wrap. */
  ghost function Recorded(m: Memory, lba: nat, at: nat, ws: seq<Word>): Memory
    decreases |ws|
  {
    if ws == [] then m
    else if |ws| <= 8 then Store(m, lba + at % 0x1_0000, Bytes(ws))
    else Recorded(Store(m, lba + at % 0x1_0000, Bytes(ws[..8])), lba, at + 16, ws[8..])
  }

  lemma {:induction false} LoadChunk(at: nat, ws: seq<Word>, rest: string, lba: nat, m: Memory)
    ensures Load(ChunkText(at, ws) + rest, lba, m) == Load(rest, lba, Recorded(m, lba, at, ws))
    decreases |ws|
  {
    hide Load, Record, Store, Bytes, DataRecord;
    if ws == [] {
      assert "" + rest == rest;
    } else if |ws| <= 8 {
      LoadData(at, ws, rest, lba, m);
    } else {
      var tail := ChunkText(at + 16, ws[8..]);
      var head := Record(DataRecord(at, ws[..8]));
      assert ChunkText(at, ws) + rest == head + (tail + rest);
      LoadData(at, ws[..8], tail + rest, lba, m);
      LoadChunk(at + 16, ws[8..], rest, lba, Store(m, lba + at % 0x1_0000, Bytes(ws[..8])));
    }
  }

  lemma {:induction false} StoreConcat(m: Memory, a: nat, x: seq<Byte>, y: seq<Byte>)
    ensures Store(Store(m, a, x), a + |x|, y) == Store(m, a, x + y)
    decreases |x|
  {
    if x == [] {
      assert x + y == y;
    } else {
      assert (x + y)[1..] == x[1..] + y;
      StoreConcat(m[a % ADDRESS_SPACE := x[0]], a + 1, x[1..], y);
    }
  }

  lemma BytesConcat(x: seq<Word>, y: seq<Word>)
    ensures Bytes(x + y) == Bytes(x) + Bytes(y)
  {
    hide Bytes, ByteAt;
    var l, r := Bytes(x + y), Bytes(x) + Bytes(y);
    forall j: nat | j < |l| ensures l[j] == r[j] {
      ByteOfConcat(x, y, j);
      assert l[j] == ByteAt(x + y, j);
      assert j < |Bytes(x)| ==> r[j] == ByteAt(x, j);
      assert j >= |Bytes(x)| ==> r[j] == Bytes(y)[j - 2 * |x|];
    }
  }

  lemma ByteOfConcat(x: seq<Word>, y: seq<Word>, j: nat)
    requires j < 2 * |x + y|
    ensures ByteAt(x + y, j) == if j < 2 * |x| then ByteAt(x, j) else ByteAt(y, j - 2 * |x|)
  {
  }

  /** A chunk inside its 64 KB segment is stored whole, at its own address. */
  lemma {:induction false} RecordedWhole(m: Memory, lba: nat, at: nat, ws: seq<Word>)
    requires at + 2 * |ws| <= 0x1_0000
    ensures Recorded(m, lba, at, ws) == Store(m, lba + at, Bytes(ws))
    decreases |ws|
  {
    hide Store, Bytes;
    if ws == [] {
      assert Bytes(ws) == [];
      assert Store(m, lba + at, []) == m by { StoreNone(m, lba + at); }
    } else if |ws| > 8 {
      RecordedWhole(Store(m, lba + at, Bytes(ws[..8])), lba, at + 16, ws[8..]);
      StoreConcat(m, lba + at, Bytes(ws[..8]), Bytes(ws[8..]));
      BytesConcat(ws[..8], ws[8..]);
      assert ws[..8] + ws[8..] == ws;
    }
  }

  lemma StoreNone(m: Memory, a: nat)
    ensures Store(m, a, []) == m
  {
  }

  /** What loading the chunks should give: each chunk's trimmed bytes at its own address. */
  ghost function StoreAll(m: Memory, chunks: seq<Chunk>): Memory
    decreases |chunks|
  {
    if chunks == [] then m
    else
      var (base, ws) := chunks[0];
      StoreAll(Store(m, base, Bytes(ws[..Top(ws)])), chunks[1..])
  }

  /** A 32-bit base, and the set words inside the segment it starts in. */
  predicate Fits(c: Chunk) {
    c.0 < ADDRESS_SPACE && c.0 % 0x1_0000 + 2 * Top(c.1) <= 0x1_0000
  }

  lemma {:induction false} LoadRegions(chunks: seq<Chunk>, upper: Option<nat>, lba: nat, m: Memory)
    requires forall c <- chunks :: Fits(c)
    requires upper.Some? ==> lba == 0x1_0000 * upper.value
    ensures Load(RegionsText(chunks, upper), lba, m) == Some(StoreAll(m, chunks))
    decreases |chunks|
  {
    hide Load, Record, Store, Bytes, ChunkText, Recorded, LinearRecord;
    if chunks == [] {
      LoadEnd(lba, m);
    } else {
      var (base, ws) := chunks[0];
      assert Fits(chunks[0]);
      var up, words := base / 0x1_0000, ws[..Top(ws)];
      var tail := RegionsText(chunks[1..], Some(up));
      var chunk := ChunkText(base % 0x1_0000, words);
      if upper != Some(up) {
        assert RegionsText(chunks, upper) == Record(LinearRecord(up)) + (chunk + tail);
        LoadLinear(up, chunk + tail, lba, m);
      } else {
        assert RegionsText(chunks, upper) == chunk + tail;
      }
      LoadChunk(base % 0x1_0000, words, tail, 0x1_0000 * up, m);
      RecordedWhole(m, 0x1_0000 * up, base % 0x1_0000, words);
      LoadRegions(chunks[1..], Some(up), 0x1_0000 * up, Store(m, base, Bytes(words)));
    }
  }

  lemma LoadLinear(upper: nat, rest: string, lba: nat, m: Memory)
    requires upper < 0x1_0000
    ensures Load(Record(LinearRecord(upper)) + rest, lba, m) == Load(rest, 0x1_0000 * upper, m)
  {
    hide Record, Load, Store;
    LoadRecord(LinearRecord(upper), rest, lba, m);
  }

  /** Loading the multi-region image gives every chunk's bytes back, at its own address. */
  lemma RegionsReadBack(chunks: seq<Chunk>)
    requires forall c <- chunks :: Fits(c)
    ensures Load(RegionsText(chunks, None), 0, map[]) == Some(StoreAll(map[], chunks))
  {
    LoadRegions(chunks, None, 0, map[]);
  }

  // ---- The single image --------------------------------------------------------------

  lemma {:induction false} StoreIs(m: Memory, a: nat, data: seq<Byte>, x: nat)
    requires a + |data| <= ADDRESS_SPACE
    ensures x in Store(m, a, data) <==> x in m || a <= x < a + |data|
    ensures a <= x < a + |data| ==> Store(m, a, data)[x] == data[x - a]
    ensures x in m && !(a <= x < a + |data|) ==> Store(m, a, data)[x] == m[x]
    decreases |data|
  {
    if data != [] {
      StoreIs(m[a % ADDRESS_SPACE := data[0]], a + 1, data[1..], x);
    }
  }

  /** The memory holds exactly the words, little-endian from address 0. */
  ghost predicate Holds(m: Memory, ws: seq<Word>) {
    && (forall x: nat :: x in m <==> x < 2 * |ws|)
    && forall k: nat :: k < |ws| ==> Join(m[2 * k + 1], m[2 * k]) == ws[k]
  }

  lemma StoredHolds(ws: seq<Word>)
    requires |ws| <= 0x8000
    ensures Holds(Store(map[], 0, Bytes(ws)), ws)
  {
    hide Store, Bytes;
    var m := Store(map[], 0, Bytes(ws));
    forall x: nat ensures x in m <==> x < 2 * |ws| {
      StoreIs(map[], 0, Bytes(ws), x);
    }
    forall k: nat | k < |ws| ensures Join(m[2 * k + 1], m[2 * k]) == ws[k] {
      StoreIs(map[], 0, Bytes(ws), 2 * k);
      StoreIs(map[], 0, Bytes(ws), 2 * k + 1);
      assert Bytes(ws)[2 * k] == ByteAt(ws, 2 * k) && Bytes(ws)[2 * k + 1] == ByteAt(ws, 2 * k + 1);
    }
  }

  /** With 16-bit offsets and one base, nothing past 64 KB is ever stored. */
  lemma {:induction false} RecordedBelow(m: Memory, at: nat, ws: seq<Word>)
    requires at % 16 == 0 && forall x <- m :: x < 0x1_0000
    ensures forall x <- Recorded(m, 0, at, ws) :: x < 0x1_0000
    decreases |ws|
  {
    hide Store, Bytes;
    if ws != [] {
      var n := if |ws| <= 8 then |ws| else 8;
      assert |ws| <= 8 ==> ws[..n] == ws;
      var m' := Store(m, at % 0x1_0000, Bytes(ws[..n]));
      forall x <- m' ensures x < 0x1_0000 {
        StoreIs(m, at % 0x1_0000, Bytes(ws[..n]), x);
      }
      if |ws| > 8 { RecordedBelow(m', at + 16, ws[8..]); }
    }
  }

  /** The written image always loads, and the words come back, without their trailing zeros,
      exactly when there are at most 32768 of them. */
  lemma HexReadBack(words: seq<Word>)
    ensures var ws := words[..Top(words)]; var r := Load(HexText(words), 0, map[]);
            r.Some? && (Holds(r.value, ws) <==> |ws| <= 0x8000)
  {
    hide Load, Record, Store, Bytes, ChunkText, Recorded, LinearRecord;
    var ws := words[..Top(words)];
    HeaderIs();
    assert HexText(words) == Record(LinearRecord(0)) + (ChunkText(0, ws) + END);
    LoadLinear(0, ChunkText(0, ws) + END, 0, map[]);
    LoadChunk(0, ws, END, 0, map[]);
    var m := Recorded(map[], 0, 0, ws);
    LoadEnd(0, m);
    if |ws| <= 0x8000 {
      RecordedWhole(map[], 0, 0, ws);
      StoredHolds(ws);
    } else {
      RecordedBelow(map[], 0, ws);
      assert 0x1_0000 !in m;
    }
  }
}
