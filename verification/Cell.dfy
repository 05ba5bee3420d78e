/**
 The 512-byte cell: its wire codec, and the hop budget relays spend.
*/
module Cell {
  import opened Results
  import opened Terms
  import opened Buffers

  const CELL_LEN := 512
  const VERSION: Byte := 1
  const TAG_LEN := 16
  const CIPHERTEXT_LEN := 452
  const MAC_LEN := 16
  const AAD_LEN := 42
  const MAX_TTL := 64
  const MAX_COPIES := 15

  const VERSION_AT := 0
  const FLAGS_AT := 1
  const TTL_AT := 2
  const COPIES_AT := 3
  const TAG_AT := 4
  const NONCE_AT := TAG_AT + TAG_LEN
  const CIPHERTEXT_AT := NONCE_AT + NONCE_LEN
  const MAC_AT := CIPHERTEXT_AT + CIPHERTEXT_LEN

  datatype Error = InvalidLength | UnsupportedVersion(version: Byte) | TtlOutOfRange(ttl: Byte) | CopiesOutOfRange(copies: Byte)

  type Tag = b: seq<Byte> | |b| == TAG_LEN witness seq(TAG_LEN, _ => 0)
  type CellCiphertext = b: seq<Byte> | |b| == CIPHERTEXT_LEN witness seq(CIPHERTEXT_LEN, _ => 0)
  type Mac = b: seq<Byte> | |b| == MAC_LEN witness seq(MAC_LEN, _ => 0)

  datatype CellHeader = CellHeader(flags: Byte, tag: Tag, nonce: Nonce)

  datatype HopFields = HopFields(ttl: Byte, copies: Byte)

  /** Hop budgets can only be built within the maxima. */
  type Hops = h: HopFields | h.ttl <= MAX_TTL && h.copies <= MAX_COPIES witness HopFields(0, 0)

  datatype Cell512 = Cell512(header: CellHeader, hops: Hops, ciphertext: CellCiphertext, mac: Mac)

  function NewHops(ttl: Byte, copies: Byte): Result<Hops, Error> {
    if ttl > MAX_TTL then Err(TtlOutOfRange(ttl))
    else if copies > MAX_COPIES then Err(CopiesOutOfRange(copies))
    else Ok(HopFields(ttl, copies))
  }

  function Spent(hops: Hops): Option<Hops> {
    if hops.ttl == 0 then None else Some(HopFields(hops.ttl - 1, hops.copies))
  }

  /** The associated data an end-to-end seal covers. */
  function Aad(header: CellHeader): seq<Byte> {
    [VERSION, header.flags] + header.tag + header.nonce
  }

  /** The wire layout. */
  function CellBytes(cell: Cell512): (bytes: seq<Byte>)
    ensures |bytes| == CELL_LEN
  {
    [VERSION, cell.header.flags, cell.hops.ttl, cell.hops.copies]
    + cell.header.tag + cell.header.nonce + cell.ciphertext + cell.mac
  }

  function ParseCell(bytes: seq<Byte>): Result<Cell512, Error> {
    if |bytes| != CELL_LEN then Err(Error.InvalidLength)
    else if bytes[VERSION_AT] != VERSION then Err(UnsupportedVersion(bytes[VERSION_AT]))
    else
      match NewHops(bytes[TTL_AT], bytes[COPIES_AT])
      case Err(e) => Err(e)
      case Ok(hops) =>
        Ok(Cell512(CellHeader(bytes[FLAGS_AT], bytes[TAG_AT..NONCE_AT], bytes[NONCE_AT..CIPHERTEXT_AT]),
                   hops, bytes[CIPHERTEXT_AT..MAC_AT], bytes[MAC_AT..]))
  }

  function Forwarded(cell: Cell512): Option<Cell512> {
    match Spent(cell.hops)
    case Some(hops) => Some(cell.(hops := hops))
    case None => None
  }

  method ToBytes(cell: Cell512) returns (bytes: array<Byte>)
    ensures fresh(bytes) && bytes[..] == CellBytes(cell)
  {
    bytes := new Byte[CELL_LEN](_ => 0);
    bytes[VERSION_AT] := VERSION;
    bytes[FLAGS_AT] := cell.header.flags;
    bytes[TTL_AT] := cell.hops.ttl;
    bytes[COPIES_AT] := cell.hops.copies;
    assert bytes[..TAG_AT] == [VERSION, cell.header.flags, cell.hops.ttl, cell.hops.copies];
    CopyInto(bytes, TAG_AT, cell.header.tag);
    CopyInto(bytes, NONCE_AT, cell.header.nonce);
    CopyInto(bytes, CIPHERTEXT_AT, cell.ciphertext);
    CopyInto(bytes, MAC_AT, cell.mac);
  }

  method WriteAad(header: CellHeader) returns (aad: array<Byte>)
    ensures fresh(aad) && aad[..] == Aad(header)
  {
    aad := new Byte[AAD_LEN](_ => 0);
    aad[0] := VERSION;
    aad[1] := header.flags;
    assert aad[..2] == [VERSION, header.flags];
    CopyInto(aad, 2, header.tag);
    CopyInto(aad, 2 + TAG_LEN, header.nonce);
  }

  method FromBytes(bytes: seq<Byte>) returns (r: Result<Cell512, Error>)
    ensures r == ParseCell(bytes)
  {
    if |bytes| != CELL_LEN {
      return Err(Error.InvalidLength);
    }
    if bytes[VERSION_AT] != VERSION {
      return Err(UnsupportedVersion(bytes[VERSION_AT]));
    }
    var tag := new Byte[TAG_LEN](_ => 0);
    CopyInto(tag, 0, bytes[TAG_AT..NONCE_AT]);
    var nonce := new Byte[NONCE_LEN](_ => 0);
    CopyInto(nonce, 0, bytes[NONCE_AT..CIPHERTEXT_AT]);
    var ciphertext := new Byte[CIPHERTEXT_LEN](_ => 0);
    CopyInto(ciphertext, 0, bytes[CIPHERTEXT_AT..MAC_AT]);
    var mac := new Byte[MAC_LEN](_ => 0);
    CopyInto(mac, 0, bytes[MAC_AT..]);
    var hops := NewHops(bytes[TTL_AT], bytes[COPIES_AT]);
    if hops.Err? {
      return Err(hops.error);
    }
    assert tag[..] == bytes[TAG_AT..NONCE_AT] && nonce[..] == bytes[NONCE_AT..CIPHERTEXT_AT];
    assert ciphertext[..] == bytes[CIPHERTEXT_AT..MAC_AT] && mac[..] == bytes[MAC_AT..];
    return Ok(Cell512(CellHeader(bytes[FLAGS_AT], tag[..], nonce[..]), hops.value, ciphertext[..], mac[..]));
  }

  // ---------- The codec ----------

  lemma CellRoundTrip(cell: Cell512)
    ensures ParseCell(CellBytes(cell)) == Ok(cell)
  {
    var bytes := CellBytes(cell);
    assert bytes[TAG_AT..NONCE_AT] == cell.header.tag;
    assert bytes[NONCE_AT..CIPHERTEXT_AT] == cell.header.nonce;
    assert bytes[CIPHERTEXT_AT..MAC_AT] == cell.ciphertext;
    assert bytes[MAC_AT..] == cell.mac;
  }

  /** The wire layout, byte by byte. */
  lemma CellsAreLaidOut(cell: Cell512)
    ensures var bytes := CellBytes(cell);
            && |bytes| == 512
            && bytes[0] == 1 && bytes[1] == cell.header.flags
            && bytes[2] == cell.hops.ttl && bytes[3] == cell.hops.copies
            && bytes[4..20] == cell.header.tag && bytes[20..44] == cell.header.nonce
            && bytes[44..496] == cell.ciphertext && bytes[496..512] == cell.mac
  {
  }

  /** What is read is written back byte for byte, exactly these inputs are read,
      and the first thing wrong with any other decides the error. */
  lemma ReadsExactlyTheCells(bytes: seq<Byte>)
    ensures ParseCell(bytes).Ok? <==> |bytes| == 512 && bytes[0] == 1 && bytes[2] <= 64 && bytes[3] <= 15
    ensures ParseCell(bytes).Ok? ==> CellBytes(ParseCell(bytes).value) == bytes
    ensures ParseCell(bytes).Ok? <==> exists cell :: CellBytes(cell) == bytes
    ensures |bytes| != 512 ==> ParseCell(bytes) == Err(Error.InvalidLength)
    ensures |bytes| == 512 && bytes[0] != 1 ==> ParseCell(bytes) == Err(UnsupportedVersion(bytes[0]))
    ensures |bytes| == 512 && bytes[0] == 1 && bytes[2] > 64 ==> ParseCell(bytes) == Err(TtlOutOfRange(bytes[2]))
    ensures |bytes| == 512 && bytes[0] == 1 && bytes[2] <= 64 && bytes[3] > 15 ==>
              ParseCell(bytes) == Err(CopiesOutOfRange(bytes[3]))
  {
  }

  /** A hop budget is built exactly within the maxima, and spent one hop at a time
      until none is left. */
  lemma HopsExactly(ttl: Byte, copies: Byte, hops: Hops)
    ensures NewHops(ttl, copies) == if ttl > 64 then Err(TtlOutOfRange(ttl))
                                    else if copies > 15 then Err(CopiesOutOfRange(copies))
                                    else Ok(HopFields(ttl, copies))
    ensures hops.ttl == 0 <==> Spent(hops).None?
    ensures hops.ttl > 0 ==> Spent(hops) == Some(HopFields(hops.ttl - 1, hops.copies))
  {
  }

  /** The associated data is bytes 0..2 and 4..44 of the wire, and determines
      the authenticated head. */
  lemma AadIsTheImmutableRuns(cell: Cell512, other: Cell512)
    ensures Aad(cell.header) == CellBytes(cell)[0..2] + CellBytes(cell)[4..44]
    ensures |Aad(cell.header)| == 42
    ensures Aad(cell.header) == Aad(other.header) <==> cell.header == other.header
  {
    var bytes := CellBytes(cell);
    assert bytes[0..TTL_AT] == [VERSION, cell.header.flags];
    assert bytes[TAG_AT..CIPHERTEXT_AT] == cell.header.tag + cell.header.nonce;
    if Aad(cell.header) == Aad(other.header) {
      assert Aad(cell.header)[1] == cell.header.flags && Aad(other.header)[1] == other.header.flags;
      assert Aad(cell.header)[2..2 + TAG_LEN] == cell.header.tag && Aad(other.header)[2..2 + TAG_LEN] == other.header.tag;
      assert Aad(cell.header)[2 + TAG_LEN..] == cell.header.nonce && Aad(other.header)[2 + TAG_LEN..] == other.header.nonce;
    }
  }

  // ---------- Relays ----------

  /** One relay, from wire to wire: read, spend a hop, write; drop what cannot
      be read or has no hop left. */
  function RelayOnce(bytes: seq<Byte>): Option<seq<Byte>> {
    match ParseCell(bytes)
    case Err(_) => None
    case Ok(cell) =>
      match Forwarded(cell)
      case None => None
      case Some(next) => Some(CellBytes(next))
  }

  /** A path of `k` relays. */
  function RelayPath(bytes: seq<Byte>, k: nat): Option<seq<Byte>> {
    if k == 0 then Some(bytes)
    else
      match RelayPath(bytes, k - 1)
      case None => None
      case Some(next) => RelayOnce(next)
  }

  lemma RelayOnceSpendsOneHop(bytes: seq<Byte>)
    requires ParseCell(bytes).Ok?
    ensures RelayOnce(bytes) == if bytes[2] == 0 then None else Some(bytes[2 := bytes[2] - 1])
    ensures RelayOnce(bytes).Some? ==> ParseCell(RelayOnce(bytes).value).Ok?
  {
    var cell := ParseCell(bytes).value;
    ReadsExactlyTheCells(bytes);
    if bytes[2] > 0 {
      var next := Forwarded(cell).value;
      assert CellBytes(next) == CellBytes(cell)[2 := bytes[2] - 1];
      ReadsExactlyTheCells(CellBytes(next));
    }
  }

  /** A cell survives exactly as many relays as its hop count, arrives with that
      many fewer hops and otherwise byte for byte as it was sent, its associated
      data included. */
  lemma {:induction false} PathsSpendTheBudget(bytes: seq<Byte>, k: nat)
    requires ParseCell(bytes).Ok?
    ensures RelayPath(bytes, k) == if k <= bytes[2] then Some(bytes[2 := bytes[2] - k]) else None
    ensures RelayPath(bytes, k).Some? ==>
              && ParseCell(RelayPath(bytes, k).value).Ok?
              && Aad(ParseCell(RelayPath(bytes, k).value).value.header) == Aad(ParseCell(bytes).value.header)
  {
    if k > 0 {
      PathsSpendTheBudget(bytes, k - 1);
      if RelayPath(bytes, k - 1).Some? {
        RelayOnceSpendsOneHop(RelayPath(bytes, k - 1).value);
        var ttl := bytes[2];
        assert k <= ttl ==> bytes[2 := ttl - (k - 1)][2 := ttl - k] == bytes[2 := ttl - k];
      }
    } else {
      assert bytes[2 := bytes[2]] == bytes;
    }
    if k <= bytes[2] {
      OnlyTheBudgetChanges(bytes, bytes[2] - k);
    }
  }

  lemma OnlyTheBudgetChanges(bytes: seq<Byte>, ttl: Byte)
    requires ParseCell(bytes).Ok? && ttl <= bytes[2]
    ensures var last := bytes[2 := ttl];
            ParseCell(last).Ok? && Aad(ParseCell(last).value.header) == Aad(ParseCell(bytes).value.header)
  {
    var last := bytes[2 := ttl];
    assert last[TAG_AT..NONCE_AT] == bytes[TAG_AT..NONCE_AT];
    assert last[NONCE_AT..CIPHERTEXT_AT] == bytes[NONCE_AT..CIPHERTEXT_AT];
  }
}
