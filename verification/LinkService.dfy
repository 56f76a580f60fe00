// The Link-B service: the slot map, the dispatch of one request and the monotonic counters.
// Key operations answer with fixed stand-in octets; their framing is what is modelled.
module LinkService {
  import opened Base
  import opened LinkWire

  const BUF_CAP: nat := 65536
  const STUB_MAX: nat := 4096

  const ST_OK: u32 := 0
  const ST_KEYSTORE_ERROR: u32 := 5
  const ST_NOT_SUPPORTED: u32 := 12
  const ST_KEY_NOT_FOUND: u32 := 14
  const ST_PROTOCOL_ERROR: u32 := 15

  const KEYTYPE_EC_P256: u32 := 1
  const KEYTYPE_AES128: u32 := 3
  const KEYTYPE_AES256: u32 := 4
  const KEYTYPE_HMAC_SHA256: u32 := 5
  const KEYTYPE_MONOTONIC: u32 := 0xFF

  // ----------------------------------------------------------------------
  // The slot map
  // ----------------------------------------------------------------------

  /** A handle's binding; a virtual one holds no private key. */
  datatype Binding = Binding(handle: u32, isVirtual: bool, keyType: u32, hasCert: bool, keyId: string)

  const SLOT_MAP: seq<Binding> := [
    Binding(0x0002, true, KEYTYPE_EC_P256, false, "sw-authority"),
    Binding(0x0003, false, KEYTYPE_EC_P256, false, "device-decrypt"),
    Binding(0x0004, false, KEYTYPE_EC_P256, false, "iam-signing"),
    Binding(0x0005, true, KEYTYPE_EC_P256, false, "key-authority"),
    Binding(0x0006, false, KEYTYPE_EC_P256, false, "jwt-signing"),
    Binding(0x0007, false, KEYTYPE_AES256, false, "storage-key"),
    Binding(0x0008, true, KEYTYPE_EC_P256, false, "operational-issuer"),
    Binding(0x0009, true, KEYTYPE_EC_P256, false, "factory-reset-issuer"),
    Binding(0x000A, false, KEYTYPE_EC_P256, false, "ivd-signing"),
    Binding(0x000C, false, KEYTYPE_EC_P256, true, "tls-identity"),
    Binding(0x000D, false, KEYTYPE_MONOTONIC, false, "time-floor")
  ]

  /** The first binding of a handle at or after `i`. */
  function Resolve(handle: nat, i: nat := 0): (r: Option<Binding>)
    requires i <= |SLOT_MAP|
    ensures r.Some? ==> r.value in SLOT_MAP && r.value.handle == handle
    ensures r.None? ==> forall j :: i <= j < |SLOT_MAP| ==> SLOT_MAP[j].handle != handle
    decreases |SLOT_MAP| - i
  {
    if i == |SLOT_MAP| then None
    else if SLOT_MAP[i].handle == handle then Some(SLOT_MAP[i])
    else Resolve(handle, i + 1)
  }

  predicate IsCounter(handle: nat) {
    Resolve(handle).Some? && Resolve(handle).value.keyType == KEYTYPE_MONOTONIC
  }

  /** The map has one counter. */
  lemma OneCounter(handle: nat)
    ensures IsCounter(handle) ==> handle == 0x000D
  {
  }

  function Ascii(s: string): (r: seq<byte>)
    ensures |r| == |s|
  {
    seq(|s|, i requires 0 <= i < |s| => if s[i] < 128 as char then s[i] as int else 0x3F)
  }

  /** The wire form of one slot's information; both access lists are absent. */
  function InfoFields(b: Binding): (r: seq<Field>)
    ensures |r| == 6
  {
    [FU32(b.handle), FU32(b.keyType), FByte(if b.hasCert then 1 else 0), FBlob(Ascii(b.keyId)), FByte(0), FByte(0)]
  }

  function AllInfoFields(i: nat): seq<Field>
    requires i <= |SLOT_MAP|
    decreases |SLOT_MAP| - i
  {
    if i == |SLOT_MAP| then [] else InfoFields(SLOT_MAP[i]) + AllInfoFields(i + 1)
  }

  function ListFields(): seq<Field> {
    [FU32(|SLOT_MAP|)] + AllInfoFields(0)
  }

  // ----------------------------------------------------------------------
  // Requests and replies
  // ----------------------------------------------------------------------

  /** What a request's handle must be. */
  datatype Gate = Open | Key(isPrivate: bool) | Certified | Counter

  /** The scalar fields of a request, ahead of any tail, and its gate. */
  datatype Row = Row(kinds: seq<Kind>, gate: Gate)

  function RowOf(op: nat): Option<Row> {
    if op == 0x03 then Some(Row([KU32, KBlob], Key(false)))
    else if op == 0x07 then Some(Row([KU32, KBlob], Key(true)))
    else if op == 0x08 || op == 0x0E then Some(Row([KU32, KU32], Key(true)))
    else if op == 0x09 || op == 0x27 then Some(Row([KU32], Open))
    else if op == 0x0A then Some(Row([KU32], Certified))
    else if op == 0x0B || op == 0x0D then Some(Row([KU32], Key(false)))
    else if op == 0x0C || 0x20 <= op <= 0x23 || op == 0x25 || op == 0x26 then Some(Row([], Open))
    else if op == 0x11 then Some(Row([KU32, KBlob, KBlob], Key(true)))
    else if 0x01 <= op <= 0x10 then Some(Row([KU32], Key(true)))
    else if op == 0x24 then Some(Row([KByte, KU64], Open))
    else if op == 0x28 then Some(Row([KU32], Counter))
    else if op == 0x29 then Some(Row([KU32, KU64], Counter))
    else None
  }

  /** A piece of a reply: a field, or `n` octets of fill, at most `STUB_MAX` of them. */
  datatype Piece = Scalar(f: Field) | Fill(v: byte, n: nat)

  function PieceBytes(p: Piece): seq<byte> {
    match p
    case Scalar(f) => EncodeField(f)
    case Fill(v, n) => seq(Min(n, STUB_MAX), _ => v)
  }

  function Bytes(ps: seq<Piece>): seq<byte> {
    if ps == [] then [] else PieceBytes(ps[0]) + Bytes(ps[1..])
  }

  function Scalars(fs: seq<Field>): (r: seq<Piece>)
    ensures |r| == |fs| && forall i :: 0 <= i < |fs| ==> r[i] == Scalar(fs[i])
  {
    seq(|fs|, i requires 0 <= i < |fs| => Scalar(fs[i]))
  }

  function WordAt(fs: seq<Field>, i: nat): u32 {
    if i < |fs| && fs[i].FU32? then fs[i].w else 0
  }

  function LongAt(fs: seq<Field>, i: nat): u64 {
    if i < |fs| && fs[i].FU64? then fs[i].d else 0
  }

  const MAX_COUNTERS: nat := 4

  datatype Cell = Cell(handle: u32, value: u64)

  /** The first cell of a handle, or the length. */
  function IndexOf(cells: seq<Cell>, handle: nat): (r: nat)
    ensures r <= |cells| && (r < |cells| ==> cells[r].handle == handle)
    ensures forall i :: 0 <= i < r ==> cells[i].handle != handle
  {
    if cells == [] || cells[0].handle == handle then 0 else 1 + IndexOf(cells[1..], handle)
  }

  /** The table with a cell for the handle, created at zero; `None` when it is full. */
  function Touched(cells: seq<Cell>, handle: u32): Option<seq<Cell>> {
    if IndexOf(cells, handle) < |cells| then Some(cells)
    else if |cells| >= MAX_COUNTERS then None
    else Some(cells + [Cell(handle, 0)])
  }

  function Raised(cells: seq<Cell>, handle: u32, value: u64): seq<Cell> {
    var at := IndexOf(cells, handle);
    if at < |cells| && value > cells[at].value then cells[at := Cell(handle, value)] else cells
  }

  /** The service's state: whether it is provisioned, and the counters touched so far. */
  datatype Hse = Hse(provisioned: bool, cells: seq<Cell>) {
    function Value(handle: nat): u64 {
      if IndexOf(cells, handle) < |cells| then cells[IndexOf(cells, handle)].value else 0
    }
  }

  predicate IsSymmetric(keyType: u32) {
    keyType == KEYTYPE_AES128 || keyType == KEYTYPE_AES256 || keyType == KEYTYPE_HMAC_SHA256
  }

  /** The status a gate gives a handle. */
  function Admit(gate: Gate, handle: nat): u32 {
    if gate.Open? then ST_OK
    else if Resolve(handle).None? then ST_KEY_NOT_FOUND
    else
      var b := Resolve(handle).value;
      match gate
      case Key(isPrivate) => if isPrivate && b.isVirtual then ST_NOT_SUPPORTED else ST_OK
      case Certified => if b.hasCert then ST_OK else ST_KEY_NOT_FOUND
      case Counter => if b.keyType == KEYTYPE_MONOTONIC then ST_OK else ST_KEY_NOT_FOUND
      case Open => ST_OK
  }

  /** What an admitted request does to the state. */
  function Effect(st: Hse, op: nat, fs: seq<Field>): Hse {
    if op == 0x21 then st.(provisioned := true)
    else if op == 0x28 || op == 0x29 then
      match Touched(st.cells, WordAt(fs, 0))
      case None => st
      case Some(cells) =>
        st.(cells := if op == 0x28 then cells else Raised(cells, WordAt(fs, 0), LongAt(fs, 1)))
    else st
  }

  const COSE_HEAD: seq<byte> := [0xA4, 0x01, 0x02, 0x20, 0x01, 0x21, 0x58, 0x20]
  const COSE_MID: seq<byte> := [0x22, 0x58, 0x20]

  function Octets(bs: seq<byte>): seq<Piece> {
    seq(|bs|, i requires 0 <= i < |bs| => Scalar(FByte(bs[i])))
  }

  /** The reply to an admitted request, `st` being the state after it. */
  function Reply(st: Hse, op: nat, fs: seq<Field>, tailLen: nat): seq<Piece> {
    var h := WordAt(fs, 0);
    var b := Resolve(h);
    if op == 0x01 then [Fill(0xA1, 70)]
    else if op == 0x02 then [Fill(0xA2, 64)]
    else if op == 0x03 || op == 0x07 then [Scalar(FByte(1))]
    else if op == 0x04 then [Fill(0xE1, 12), Fill(0xE2, tailLen), Fill(0xE3, 16)]
    else if op == 0x05 then [Fill(0xD5, 16)]
    else if op == 0x06 then [Fill(0x6A, 16)]
    else if op == 0x08 then [Fill(0x8D, WordAt(fs, 1))]
    else if op == 0x09 then [Fill(0x99, h)]
    else if op == 0x0A then [Fill(0xCE, 120)]
    else if op == 0x0B then [Fill(0xB0, 91)]
    else if op == 0x0C then [Fill(0xAC, 91)]
    else if op == 0x0D then (if b.Some? then Scalars(InfoFields(b.value)) else [])
    else if op == 0x0E then (if b.Some? && IsSymmetric(b.value.keyType) then [] else [Fill(0xB1, 91)])
    else if op == 0x0F then [Fill(0xC5, 200)]
    else if op == 0x10 then [Fill(0x1A, 16)]
    else if op == 0x11 then [Fill(0x1E, 16)]
    else if op == 0x20 then [Scalar(FByte(if st.provisioned then 1 else 0))]
    else if op == 0x22 then Scalars(ListFields())
    else if op == 0x23 then [Scalar(FU32(if st.provisioned then 1 else 0))]
    else if op == 0x25 || op == 0x26 then [Scalar(FByte(0))]
    else if op == 0x27 then Octets(COSE_HEAD) + [Fill(0x27, 32)] + Octets(COSE_MID) + [Fill(0x27, 32)]
    else if op == 0x28 || op == 0x29 then [Scalar(FU64(st.Value(h)))]
    else []
  }

  /** What a request does and is answered. */
  datatype Served = Served(st: Hse, status: u32, reply: seq<Piece>)

  function Serve(st: Hse, op: nat, payload: seq<byte>): Served {
    match RowOf(op)
    case None => Served(st, ST_PROTOCOL_ERROR, [])
    case Some(row) =>
      match Decode(row.kinds, payload)
      case None => Served(st, ST_PROTOCOL_ERROR, [])
      case Some((fs, tail)) =>
        var status := Admit(row.gate, WordAt(fs, 0));
        if status != ST_OK then Served(st, status, [])
        else if op == 0x29 && Touched(st.cells, WordAt(fs, 0)).None? then Served(st, ST_KEYSTORE_ERROR, [])
        else
          var st' := Effect(st, op, fs);
          Served(st', ST_OK, Reply(st', op, fs, |tail|))
  }

  // ----------------------------------------------------------------------
  // Every reply fits
  // ----------------------------------------------------------------------

  predicate ValidPieces(ps: seq<Piece>) {
    forall i :: 0 <= i < |ps| && ps[i].Scalar? ==> ValidField(ps[i].f)
  }

  lemma {:induction false} BytesAppend(a: seq<Piece>, b: seq<Piece>)
    ensures Bytes(a + b) == Bytes(a) + Bytes(b)
    decreases |a|
  {
    if a == [] {
      assert [] + b == b;
    } else {
      assert (a + b)[1..] == a[1..] + b;
      BytesAppend(a[1..], b);
    }
  }

  lemma {:induction false} ScalarBytes(fs: seq<Field>)
    ensures Bytes(Scalars(fs)) == Encode(fs)
    decreases |fs|
  {
    if fs == [] {
    } else {
      assert Scalars(fs)[1..] == Scalars(fs[1..]);
      ScalarBytes(fs[1..]);
    }
  }

  lemma {:induction false} EncodeAppend(a: seq<Field>, b: seq<Field>)
    ensures Encode(a + b) == Encode(a) + Encode(b)
    decreases |a|
  {
    if a == [] {
      assert [] + b == b;
    } else {
      assert (a + b)[1..] == a[1..] + b;
      EncodeAppend(a[1..], b);
    }
  }

  lemma FieldSizes(b: Binding)
    ensures var fs := InfoFields(b);
            && |EncodeField(fs[0])| == 4 && |EncodeField(fs[1])| == 4 && |EncodeField(fs[2])| == 1
            && |EncodeField(fs[3])| == 4 + |b.keyId| && |EncodeField(fs[4])| == 1 && |EncodeField(fs[5])| == 1
  {
  }

  lemma InfoSize(b: Binding)
    requires |b.keyId| < 1000
    ensures |Encode(InfoFields(b))| == 15 + |b.keyId|
    ensures forall f :: f in InfoFields(b) ==> ValidField(f)
  {
    hide EncodeField;
    var fs := InfoFields(b);
    assert Encode(fs) == EncodeField(fs[0]) + Encode(fs[1..]);
    assert Encode(fs[1..]) == EncodeField(fs[1]) + Encode(fs[2..]);
    assert Encode(fs[2..]) == EncodeField(fs[2]) + Encode(fs[3..]);
    assert Encode(fs[3..]) == EncodeField(fs[3]) + Encode(fs[4..]);
    assert Encode(fs[4..]) == EncodeField(fs[4]) + Encode(fs[5..]);
    assert Encode(fs[5..]) == EncodeField(fs[5]) + Encode(fs[6..]);
    FieldSizes(b);
  }

  lemma IdsAreShort(b: Binding)
    requires b in SLOT_MAP
    ensures |b.keyId| <= 20
  {
  }

  lemma {:induction false} AllInfosFit(i: nat)
    requires i <= |SLOT_MAP|
    ensures |Encode(AllInfoFields(i))| <= 40 * (|SLOT_MAP| - i)
    ensures forall f :: f in AllInfoFields(i) ==> ValidField(f)
    decreases |SLOT_MAP| - i
  {
    if i == |SLOT_MAP| {
    } else {
      AllInfosFit(i + 1);
      IdsAreShort(SLOT_MAP[i]);
      InfoSize(SLOT_MAP[i]);
      EncodeAppend(InfoFields(SLOT_MAP[i]), AllInfoFields(i + 1));
      hide InfoFields, Encode;
    }
  }

  lemma ListFits()
    ensures |Encode(ListFields())| <= 500
    ensures forall f :: f in ListFields() ==> ValidField(f)
  {
    hide AllInfoFields;
    AllInfosFit(0);
    EncodeAppend([FU32(|SLOT_MAP|)], AllInfoFields(0));
    assert Encode([FU32(|SLOT_MAP|)]) == LeBytes(|SLOT_MAP|, 4) + Encode([]);
  }

  predicate Small(p: Piece) {
    p.Fill? || !p.f.FBlob?
  }

  lemma {:induction false} SmallPiecesFit(ps: seq<Piece>)
    requires forall i :: 0 <= i < |ps| ==> Small(ps[i])
    ensures |Bytes(ps)| <= STUB_MAX * |ps|
    decreases |ps|
  {
    if ps == [] {
    } else {
      assert Small(ps[0]) && |PieceBytes(ps[0])| <= STUB_MAX;
      SmallPiecesFit(ps[1..]);
    }
  }

  lemma OtherReplies(st: Hse, op: nat, fs: seq<Field>, tailLen: nat)
    requires op != 0x0D && op != 0x22
    ensures var ps := Reply(st, op, fs, tailLen); |ps| <= 13 && forall i :: 0 <= i < |ps| ==> Small(ps[i])
  {
    hide Resolve, IsSymmetric, WordAt, LongAt;
  }

  lemma ScalarsFit(fs: seq<Field>)
    requires |Encode(fs)| <= BUF_CAP && forall f :: f in fs ==> ValidField(f)
    ensures |Bytes(Scalars(fs))| <= BUF_CAP && ValidPieces(Scalars(fs))
  {
    hide ValidField, Bytes, Encode;
    ScalarBytes(fs);
    forall i | 0 <= i < |fs| ensures ValidField(Scalars(fs)[i].f) {
      assert fs[i] in fs;
    }
  }

  lemma SmallAreValid(ps: seq<Piece>)
    requires |ps| <= 13 && forall i :: 0 <= i < |ps| ==> Small(ps[i])
    ensures |Bytes(ps)| <= BUF_CAP && ValidPieces(ps)
  {
    hide Bytes;
    SmallPiecesFit(ps);
  }

  /** Whatever the request, its reply is within the response buffer. */
  lemma ReplyFits(st: Hse, op: nat, fs: seq<Field>, tailLen: nat)
    ensures |Bytes(Reply(st, op, fs, tailLen))| <= BUF_CAP && ValidPieces(Reply(st, op, fs, tailLen))
  {
    hide Bytes, Encode, Small, ValidPieces, InfoFields, ListFields, ValidField;
    if op == 0x22 {
      ListFits();
      ScalarsFit(ListFields());
    } else if op != 0x0D {
      OtherReplies(st, op, fs, tailLen);
      SmallAreValid(Reply(st, op, fs, tailLen));
    } else if Resolve(WordAt(fs, 0)).Some? {
      var b := Resolve(WordAt(fs, 0)).value;
      IdsAreShort(b);
      InfoSize(b);
      ScalarsFit(InfoFields(b));
    } else {
      SmallAreValid([]);
    }
  }

  // ----------------------------------------------------------------------
  // The service
  // ----------------------------------------------------------------------

  lemma NoPieces(ps: seq<Piece>)
    ensures Bytes(ps[..0]) == [] && ps[..|ps|] == ps
  {
  }

  lemma OneMorePiece(ps: seq<Piece>, i: nat)
    requires i < |ps|
    ensures Bytes(ps[..i + 1]) == Bytes(ps[..i]) + PieceBytes(ps[i])
    ensures |Bytes(ps[..i + 1])| <= |Bytes(ps)|
  {
    assert ps[..i + 1] == ps[..i] + [ps[i]] && ps == ps[..i + 1] + ps[i + 1..];
    BytesAppend(ps[..i], [ps[i]]);
    BytesAppend(ps[..i + 1], ps[i + 1..]);
    assert [ps[i]][1..] == [];
    assert Bytes([ps[i]]) == PieceBytes(ps[i]) + Bytes([]);
  }

  method WritePieces(out: array<byte>, ps: seq<Piece>) returns (outLen: nat)
    requires out.Length == BUF_CAP && |Bytes(ps)| <= BUF_CAP && ValidPieces(ps)
    modifies out
    ensures outLen == |Bytes(ps)| && out[..outLen] == Bytes(ps)
  {
    hide Bytes, EncodeField, Wrap, FieldChecked;
    var w := new Writer(out, BUF_CAP);
    NoPieces(ps);
    for i := 0 to |ps|
      invariant w.Valid() && w.buf == out && w.cap == BUF_CAP
      invariant w.len <= BUF_CAP && w.Written() == Bytes(ps[..i])
    {
      OneMorePiece(ps, i);
      if ps[i].Scalar? {
        FittingIsChecked(w.len, ps[i].f, w.cap);
      }
      match ps[i] {
        case Scalar(f) => w.Field(f);
        case Fill(v, n) => w.Tail(seq(Min(n, STUB_MAX), _ => v));
      }
    }
    outLen := w.len;
  }

  class Service {
    var provisioned: bool
    // the counter table, filled from the front as handles are first used
    const cells: array<Cell>
    var cellLen: nat

    constructor ()
      ensures Valid() && View() == Hse(false, []) && fresh(cells)
    {
      provisioned, cellLen := false, 0;
      cells := new Cell[MAX_COUNTERS](_ => Cell(0, 0));
    }

    predicate Valid()
      reads this
    {
      cells.Length == MAX_COUNTERS && cellLen <= MAX_COUNTERS
    }

    ghost function View(): Hse
      requires Valid()
      reads this, cells
    {
      Hse(provisioned, cells[..cellLen])
    }

    /** The cell of a handle, created at zero on first use. */
    method CounterCell(handle: u32) returns (at: Option<nat>)
      requires Valid()
      modifies this, cells
      ensures Valid() && provisioned == old(provisioned)
      ensures match Touched(old(View()).cells, handle)
              case None => at == None && View() == old(View())
              case Some(table) => at == Some(IndexOf(table, handle)) && at.value < cellLen && View().cells == table
    {
      hide IndexOf;
      var i := 0;
      while i < cellLen
        invariant 0 <= i <= cellLen && forall j :: 0 <= j < i ==> cells[j].handle != handle
      {
        if cells[i].handle == handle {
          return Some(i);
        }
        i := i + 1;
      }
      if cellLen >= MAX_COUNTERS {
        return None;
      }
      cells[cellLen] := Cell(handle, 0);
      cellLen := cellLen + 1;
      assert View().cells == old(View().cells) + [Cell(handle, 0)];
      at := Some(cellLen - 1);
    }

    /** The value after raising a counter; `None` when the table is full. */
    method Raise(handle: u32, value: u64) returns (now: Option<u64>)
      requires Valid()
      modifies this, cells
      ensures Valid() && provisioned == old(provisioned)
      ensures match Touched(old(View()).cells, handle)
              case None => now == None && View() == old(View())
              case Some(table) => View().cells == Raised(table, handle, value) && now == Some(View().Value(handle))
    {
      hide IndexOf;
      var at := CounterCell(handle);
      if at.None? {
        return None;
      }
      ghost var table := View().cells;
      if value > cells[at.value].value {
        cells[at.value] := Cell(handle, value);
        assert View().cells == table[at.value := Cell(handle, value)];
      }
      now := Some(cells[at.value].value);
    }

    /** One request: the whole reply is in the response buffer, and the state is the reply's. */
    method HandleOp(op: u32, payload: array<byte>, plen: nat, out: array<byte>) returns (status: u32, outLen: nat)
      requires Valid() && plen <= payload.Length && out.Length == BUF_CAP
      requires out != payload
      modifies this, cells, out
      ensures Valid()
      ensures var served := Serve(old(View()), op, old(payload[..plen]));
              && View() == served.st && status == served.status
              && outLen == |Bytes(served.reply)| <= BUF_CAP && out[..outLen] == Bytes(served.reply)
    {
      var row := RowOf(op);
      if row.None? {
        return ST_PROTOCOL_ERROR, 0;
      }
      var r := new Reader(payload, plen);
      assert r.Rest() == payload[..plen];
      var fs, tail := r.ReadAll(row.value.kinds);
      if !r.ok {
        return ST_PROTOCOL_ERROR, 0;
      }
      var admitted := Admit(row.value.gate, WordAt(fs, 0));
      if admitted != ST_OK {
        return admitted, 0;
      }
      var done := Apply(op, fs);
      if !done {
        return ST_KEYSTORE_ERROR, 0;
      }
      var reply := Reply(Hse(provisioned, cells[..cellLen]), op, fs, |tail|);
      ReplyFits(View(), op, fs, |tail|);
      hide Reply, Bytes, RowOf, Decode, Admit, Effect;
      outLen := WritePieces(out, reply);
      status := ST_OK;
    }

    /** The state change of an admitted request; false when the counter table is full. */
    method Apply(op: u32, fs: seq<Field>) returns (ok: bool)
      requires Valid()
      modifies this, cells
      ensures Valid()
      ensures !ok <==> op == 0x29 && Touched(old(View()).cells, WordAt(fs, 0)).None?
      ensures ok ==> View() == Effect(old(View()), op, fs)
      ensures !ok ==> View() == old(View())
    {
      hide IndexOf;
      ok := true;
      if op == 0x21 {
        provisioned := true;
      } else if op == 0x28 {
        var at := CounterCell(WordAt(fs, 0));
      } else if op == 0x29 {
        var now := Raise(WordAt(fs, 0), LongAt(fs, 1));
        ok := now.Some?;
      }
    }
  }

  // ----------------------------------------------------------------------
  // The slot inventory
  // ----------------------------------------------------------------------

  datatype SlotInfo = SlotInfo(handle: u32, kind: u32, hasCert: bool, keyId: seq<byte>)

  const INFO_KINDS: seq<Kind> := [KU32, KU32, KByte, KBlob, KByte, KByte]

  /** One slot's information off the front, with both access lists absent. */
  function DecodeInfo(s: seq<byte>): Option<(SlotInfo, seq<byte>)> {
    match Decode(INFO_KINDS, s)
    case None => None
    case Some((fs, rest)) =>
      if |fs| == 6 && fs[0].FU32? && fs[1].FU32? && fs[2].FByte? && fs[3].FBlob? && fs[4] == FByte(0) && fs[5] == FByte(0)
      then Some((SlotInfo(fs[0].w, fs[1].w, fs[2].b == 1, fs[3].data), rest))
      else None
  }

  function DecodeInfos(n: nat, s: seq<byte>): Option<seq<SlotInfo>> {
    if n == 0 then (if s == [] then Some([]) else None)
    else
      var (info, rest) :- DecodeInfo(s);
      var more :- DecodeInfos(n - 1, rest);
      Some([info] + more)
  }

  function DecodeList(s: seq<byte>): Option<seq<SlotInfo>> {
    var (fs, rest) :- Decode([KU32], s);
    DecodeInfos(WordAt(fs, 0), rest)
  }

  function InfoOf(b: Binding): SlotInfo {
    SlotInfo(b.handle, b.keyType, b.hasCert, Ascii(b.keyId))
  }

  function InfosFrom(i: nat): seq<SlotInfo>
    requires i <= |SLOT_MAP|
    decreases |SLOT_MAP| - i
  {
    if i == |SLOT_MAP| then [] else [InfoOf(SLOT_MAP[i])] + InfosFrom(i + 1)
  }

  lemma InfoKinds(b: Binding)
    ensures Kinds(InfoFields(b)) == INFO_KINDS
  {
    var fs := InfoFields(b);
    assert Kinds(fs) == [KU32] + Kinds(fs[1..]);
    assert Kinds(fs[1..]) == [KU32] + Kinds(fs[2..]);
    assert Kinds(fs[2..]) == [KByte] + Kinds(fs[3..]);
    assert Kinds(fs[3..]) == [KBlob] + Kinds(fs[4..]);
    assert Kinds(fs[4..]) == [KByte] + Kinds(fs[5..]);
    assert Kinds(fs[5..]) == [KByte] + Kinds(fs[6..]);
  }

  lemma InfoDecodes(b: Binding, rest: seq<byte>)
    requires |b.keyId| < 1000
    ensures DecodeInfo(Encode(InfoFields(b)) + rest) == Some((InfoOf(b), rest))
  {
    hide Decode, Encode;
    InfoSize(b);
    FieldsRoundTrip(InfoFields(b), rest);
    InfoKinds(b);
  }

  lemma {:induction false} InfosDecode(i: nat)
    requires i <= |SLOT_MAP|
    ensures DecodeInfos(|SLOT_MAP| - i, Encode(AllInfoFields(i))) == Some(InfosFrom(i))
    decreases |SLOT_MAP| - i
  {
    if i == |SLOT_MAP| {
    } else {
      IdsAreShort(SLOT_MAP[i]);
      InfoDecodes(SLOT_MAP[i], Encode(AllInfoFields(i + 1)));
      EncodeAppend(InfoFields(SLOT_MAP[i]), AllInfoFields(i + 1));
      InfosDecode(i + 1);
      hide DecodeInfo, InfoFields, Encode, InfoOf;
    }
  }

  lemma ListEncodingDecodes()
    ensures DecodeList(Encode(ListFields())) == Some(InfosFrom(0))
  {
    hide Encode, DecodeInfos, AllInfoFields, Decode, InfosFrom;
    var head := [FU32(|SLOT_MAP|)];
    EncodeAppend(head, AllInfoFields(0));
    FieldsRoundTrip(head, Encode(AllInfoFields(0)));
    assert Kinds(head) == [KU32] + Kinds(head[1..]);
    assert Kinds(head) == [KU32];
    InfosDecode(0);
  }

  /** LIST_SLOTS answers with the slot map itself. */
  lemma ListDecodes(st: Hse, payload: seq<byte>)
    ensures var served := Serve(st, 0x22, payload);
            served.status == ST_OK && served.st == st && DecodeList(Bytes(served.reply)) == Some(InfosFrom(0))
  {
    hide Encode, DecodeList, ListFields, Bytes, InfosFrom, Scalars;
    ScalarBytes(ListFields());
    ListEncodingDecodes();
  }

  // ----------------------------------------------------------------------
  // Counters over any sequence of requests
  // ----------------------------------------------------------------------

  datatype Request = Request(op: u32, payload: seq<byte>)

  function After(st: Hse, reqs: seq<Request>): Hse
    decreases |reqs|
  {
    if reqs == [] then st else After(Serve(st, reqs[0].op, reqs[0].payload).st, reqs[1..])
  }

  /** What a request raises a counter to; zero if it does not. */
  function RaiseOf(req: Request, handle: nat): u64 {
    if req.op != 0x29 || !IsCounter(handle) then 0
    else
      match Decode([KU32, KU64], req.payload)
      case None => 0
      case Some((fs, _)) => if WordAt(fs, 0) == handle then LongAt(fs, 1) else 0
  }

  function MaxRaise(reqs: seq<Request>, handle: nat): nat {
    if reqs == [] then 0 else Max(RaiseOf(reqs[0], handle), MaxRaise(reqs[1..], handle))
  }

  /** The table holds counters, none twice. */
  predicate TableOk(cells: seq<Cell>) {
    && (forall i :: 0 <= i < |cells| ==> IsCounter(cells[i].handle))
    && (forall i, j :: 0 <= i < j < |cells| ==> cells[i].handle != cells[j].handle)
  }

  lemma NeverFull(cells: seq<Cell>)
    requires TableOk(cells)
    ensures |cells| <= 1 < MAX_COUNTERS
  {
    if |cells| >= 2 {
      OneCounter(cells[0].handle);
      OneCounter(cells[1].handle);
    }
  }

  lemma TouchKeepsValues(st: Hse, handle: u32, other: nat)
    requires TableOk(st.cells) && IsCounter(handle)
    ensures Touched(st.cells, handle).Some? && TableOk(Touched(st.cells, handle).value)
    ensures st.(cells := Touched(st.cells, handle).value).Value(other) == st.Value(other)
    ensures IndexOf(Touched(st.cells, handle).value, handle) < |Touched(st.cells, handle).value|
  {
    NeverFull(st.cells);
    hide IndexOf, IsCounter;
  }

  lemma SameHandles(a: seq<Cell>, b: seq<Cell>, handle: nat)
    requires |a| == |b| && forall i :: 0 <= i < |a| ==> a[i].handle == b[i].handle
    ensures IndexOf(a, handle) == IndexOf(b, handle)
  {
    hide IndexOf;
  }

  lemma RaiseKeepsTable(cells: seq<Cell>, handle: u32, value: u64)
    requires TableOk(cells)
    ensures TableOk(Raised(cells, handle, value))
  {
    hide IndexOf, IsCounter;
  }

  lemma RaiseMovesOne(st: Hse, handle: u32, value: u64, other: nat)
    requires IndexOf(st.cells, handle) < |st.cells|
    ensures st.(cells := Raised(st.cells, handle, value)).Value(other)
            == if other == handle then Max(st.Value(handle), value) else st.Value(other)
  {
    hide IndexOf, IsCounter;
    SameHandles(st.cells, Raised(st.cells, handle, value), other);
    SameHandles(st.cells, Raised(st.cells, handle, value), handle);
  }

  lemma OtherRequests(st: Hse, req: Request)
    requires req.op != 0x28 && req.op != 0x29
    ensures Serve(st, req.op, req.payload).st.cells == st.cells
  {
    hide Decode, Admit, Reply;
  }

  lemma CounterRequest(st: Hse, op: u32, fs: seq<Field>, handle: nat)
    requires TableOk(st.cells) && (op == 0x28 || op == 0x29) && IsCounter(WordAt(fs, 0))
    ensures var after := Effect(st, op, fs);
            && Touched(st.cells, WordAt(fs, 0)).Some? && TableOk(after.cells)
            && after.Value(handle)
               == if op == 0x29 && WordAt(fs, 0) == handle then Max(st.Value(handle), LongAt(fs, 1)) else st.Value(handle)
  {
    hide IsCounter, Touched, Raised, TableOk, IndexOf;
    var h := WordAt(fs, 0);
    TouchKeepsValues(st, h, handle);
    RaiseKeepsTable(Touched(st.cells, h).value, h, LongAt(fs, 1));
    RaiseMovesOne(st.(cells := Touched(st.cells, h).value), h, LongAt(fs, 1), handle);
  }

  lemma OneRequest(st: Hse, req: Request, handle: nat)
    requires TableOk(st.cells) && IsCounter(handle)
    ensures var after := Serve(st, req.op, req.payload).st;
            TableOk(after.cells) && after.Value(handle) == Max(st.Value(handle), RaiseOf(req, handle))
  {
    hide Decode, Touched, Effect, TableOk, IndexOf, Reply, Resolve;
    if req.op != 0x28 && req.op != 0x29 {
      OtherRequests(st, req);
    } else if Decode(RowOf(req.op).value.kinds, req.payload).Some? {
      var fs := Decode(RowOf(req.op).value.kinds, req.payload).value.0;
      if IsCounter(WordAt(fs, 0)) {
        CounterRequest(st, req.op, fs, handle);
      }
    }
  }

  /**
   * Over any sequence of requests a counter reads the greatest of where it stood and every
   * value raised on it; nothing else moves it, and its table never fills.
   */
  lemma {:induction false} CounterIsMaximum(st: Hse, reqs: seq<Request>, handle: nat)
    requires TableOk(st.cells) && IsCounter(handle)
    ensures TableOk(After(st, reqs).cells) && |After(st, reqs).cells| < MAX_COUNTERS
    ensures After(st, reqs).Value(handle) == Max(st.Value(handle), MaxRaise(reqs, handle))
    decreases |reqs|
  {
    hide TableOk, Serve, RaiseOf, IsCounter;
    if reqs == [] {
      NeverFull(st.cells);
    } else {
      OneRequest(st, reqs[0], handle);
      CounterIsMaximum(Serve(st, reqs[0].op, reqs[0].payload).st, reqs[1..], handle);
    }
  }

  lemma TimeFloor()
    ensures Resolve(0x000D) == Some(SLOT_MAP[10])
  {
    hide Resolve;
    assert SLOT_MAP[10].handle == 0x000D;
  }

  /**
   * A key operation is served exactly for a mapped handle, and for its private key exactly for
   * one that is not virtual. The counter slot is one, although it holds no key: it answers
   * every key operation, and only the certificate request is refused.
   */
  lemma KeyHandles(st: Hse, op: nat, payload: seq<byte>)
    requires RowOf(op).Some? && !RowOf(op).value.gate.Open? && Decode(RowOf(op).value.kinds, payload).Some?
    ensures var row, handle := RowOf(op).value, WordAt(Decode(RowOf(op).value.kinds, payload).value.0, 0);
            var ok := Serve(st, op, payload).status == ST_OK;
            && (row.gate.Key? ==>
                  (ok <==> Resolve(handle).Some? && !(row.gate.isPrivate && Resolve(handle).value.isVirtual)))
            && (row.gate.Certified? ==> (ok <==> Resolve(handle).Some? && Resolve(handle).value.hasCert))
            && (handle == 0x000D && !row.gate.Counter? ==> (ok <==> row.gate.Key?))
  {
    hide Resolve, Decode, Reply, Effect;
    TimeFloor();
  }

  lemma ReadReply(st: Hse, handle: u32, n: nat)
    requires TableOk(st.cells) && IsCounter(handle)
    ensures var fs := [FU32(handle)];
            Reply(Effect(st, 0x28, fs), 0x28, fs, n) == [Scalar(FU64(st.Value(handle)))]
  {
    hide IndexOf, TableOk, Touched, Raised, Resolve, IsSymmetric, InfoFields, ListFields, Scalars, IsCounter;
    TouchKeepsValues(st, handle, handle);
  }

  lemma HandleDecodes(handle: u32, data: seq<byte>)
    ensures Decode([KU32], LeBytes(handle, 4) + data) == Some(([FU32(handle)], data))
  {
    hide LeBytes;
    var request := [FU32(handle)];
    FieldsRoundTrip(request, data);
    assert Kinds(request) == [KU32] + Kinds(request[1..]);
    assert Kinds(request) == [KU32];
    assert Encode(request) == LeBytes(handle, 4) + Encode([]);
    assert Encode(request) == LeBytes(handle, 4);
  }

  lemma ReadAnswers(st: Hse, handle: u32, rest: seq<byte>)
    requires TableOk(st.cells) && IsCounter(handle)
    ensures var served := Serve(st, 0x28, LeBytes(handle, 4) + rest);
            served.status == ST_OK && served.reply == [Scalar(FU64(st.Value(handle)))]
  {
    hide LeBytes, Decode, TableOk, Touched, Resolve, Reply, Effect;
    HandleDecodes(handle, rest);
    ReadReply(st, handle, |rest|);
  }

  lemma LongBytes(d: u64)
    ensures Bytes([Scalar(FU64(d))]) == LeBytes(d, 8)
  {
    hide LeBytes;
    var ps := [Scalar(FU64(d))];
    assert ps[1..] == [];
    assert Bytes(ps) == LeBytes(d, 8) + Bytes([]);
  }

  /** After any sequence of requests a read answers the greatest value raised on the counter. */
  lemma CounterAnswers(st: Hse, reqs: seq<Request>, handle: u32, rest: seq<byte>)
    requires TableOk(st.cells) && IsCounter(handle)
    ensures var served := Serve(After(st, reqs), 0x28, LeBytes(handle, 4) + rest);
            && served.status == ST_OK
            && Bytes(served.reply) == LeBytes(Max(st.Value(handle), MaxRaise(reqs, handle)), 8)
  {
    hide LeBytes, Bytes, After, MaxRaise, TableOk, Serve, IsCounter;
    CounterIsMaximum(st, reqs, handle);
    ReadAnswers(After(st, reqs), handle, rest);
    LongBytes(After(st, reqs).Value(handle));
  }
}
