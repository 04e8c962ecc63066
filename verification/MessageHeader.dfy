// cyber/message/message_header.h and message_traits.h, for RawMessage: a block of 192
// bytes in front of the content, its numbers in network byte order.
module MessageHeader {
  import opened Wrappers

  type Byte = n: nat | n < 256
  type Bytes = seq<Byte>

  const TWO_32: nat := 0x1_0000_0000
  const HEADER_SIZE: nat := 192

  // The fields of the block: where each starts and how long it is.
  datatype Field = MagicNum | Seq | TimestampNs | SrcId | DstId | MsgType | Res | ContentSize {
    function Start(): (n: nat) {
      match this
      case MagicNum => 0
      case Seq => 8
      case TimestampNs => 16
      case SrcId => 24
      case DstId => 32
      case MsgType => 40
      case Res => 169
      case ContentSize => 188
    }

    function Length(): (n: nat) {
      match this
      case MsgType => 129
      case Res => 19
      case ContentSize => 4
      case _ => 8
    }
  }

  // ---- Numbers as bytes, most significant first ----

  function Convert32ToArray(n: nat): (r: Bytes)
    requires n < TWO_32
    ensures |r| == 4
  {
    [n / 0x100_0000, n / 0x1_0000 % 256, n / 0x100 % 256, n % 256]
  }

  function ConvertArrayTo32(b: Bytes): (n: nat)
    requires |b| == 4
    ensures n < TWO_32
  {
    var b0: nat, b1: nat, b2: nat, b3: nat := b[0], b[1], b[2], b[3];
    b0 * 0x100_0000 + b1 * 0x1_0000 + b2 * 0x100 + b3
  }

  function Convert64ToArray(n: nat): (r: Bytes)
    requires n < TWO_32 * TWO_32
    ensures |r| == 8
  {
    Convert32ToArray(n / TWO_32) + Convert32ToArray(n % TWO_32)
  }

  function ConvertArrayTo64(b: Bytes): (n: nat)
    requires |b| == 8
    ensures n < TWO_32 * TWO_32
  {
    ConvertArrayTo32(b[..4]) * TWO_32 + ConvertArrayTo32(b[4..])
  }

  // Splitting off the last byte, and putting it back.
  lemma {:induction false} LastByte(high: nat, low: Byte, n: nat)
    requires n == high * 256 + low
    ensures n / 256 == high && n % 256 == low
  {
  }

  lemma {:induction false} DividedTwice(n: nat)
    ensures n / 256 / 256 == n / 0x1_0000 && n / 0x1_0000 / 256 == n / 0x100_0000
  {
  }

  lemma {:induction false} RoundTrip32(n: nat, b: Bytes)
    requires n < TWO_32 && |b| == 4
    ensures ConvertArrayTo32(Convert32ToArray(n)) == n
    ensures Convert32ToArray(ConvertArrayTo32(b)) == b
  {
    DividedTwice(n);
    var m := ConvertArrayTo32(b);
    var b0: nat, b1: nat, b2: nat, b3: nat := b[0], b[1], b[2], b[3];
    LastByte((b0 * 256 + b1) * 256 + b2, b3, m);
    LastByte(b0 * 256 + b1, b2, (b0 * 256 + b1) * 256 + b2);
    LastByte(b0, b1, b0 * 256 + b1);
    DividedTwice(m);
    assert Convert32ToArray(m) == [b[0], b[1], b[2], b[3]];
  }

  lemma {:induction false} RoundTrip64(n: nat, b: Bytes)
    requires n < TWO_32 * TWO_32 && |b| == 8
    ensures ConvertArrayTo64(Convert64ToArray(n)) == n
    ensures Convert64ToArray(ConvertArrayTo64(b)) == b
  {
    RoundTrip32(n / TWO_32, b[..4]);
    RoundTrip32(n % TWO_32, b[4..]);
    assert Convert64ToArray(n)[..4] == Convert32ToArray(n / TWO_32);
    assert Convert64ToArray(n)[4..] == Convert32ToArray(n % TWO_32);
    var high, low := ConvertArrayTo32(b[..4]), ConvertArrayTo32(b[4..]);
    assert (high * TWO_32 + low) / TWO_32 == high && (high * TWO_32 + low) % TWO_32 == low;
    assert b[..4] + b[4..] == b;
  }

  // The number that bytes spell when the most significant comes first.
  function BigEndian(b: Bytes): (n: nat) {
    if b == [] then 0 else BigEndian(b[..|b| - 1]) * 256 + b[|b| - 1]
  }

  lemma {:induction false} BigEndianAppend(a: Bytes, b: Bytes)
    requires |b| == 4
    ensures BigEndian(a + b) == BigEndian(a) * TWO_32 + ConvertArrayTo32(b)
  {
    BigEndianOne(a, b[0]);
    BigEndianOne(a + [b[0]], b[1]);
    BigEndianOne(a + [b[0]] + [b[1]], b[2]);
    BigEndianOne(a + [b[0]] + [b[1]] + [b[2]], b[3]);
    assert a + b == a + [b[0]] + [b[1]] + [b[2]] + [b[3]];
    hide BigEndian;
  }

  lemma {:induction false} BigEndianOne(a: Bytes, x: Byte)
    ensures BigEndian(a + [x]) == BigEndian(a) * 256 + x
  {
    assert (a + [x])[..|a|] == a;
  }

  // Network order: the bytes of a number spell it, the most significant first.
  lemma {:induction false} NetworkOrder(n: nat, m: nat)
    requires n < TWO_32 && m < TWO_32 * TWO_32
    ensures BigEndian(Convert32ToArray(n)) == n && BigEndian(Convert64ToArray(m)) == m
  {
    var b, high, low := Convert32ToArray(n), Convert32ToArray(m / TWO_32), Convert32ToArray(m % TWO_32);
    assert BigEndian([]) == 0;
    BigEndianAppend([], b);
    BigEndianAppend([], high);
    BigEndianAppend(high, low);
    assert [] + b == b && [] + high == high;
    RoundTrip32(n, b);
    RoundTrip32(m / TWO_32, high);
    RoundTrip32(m % TWO_32, low);
  }

  // ---- Blocks of bytes ----

  function Put(block: Bytes, at: nat, value: Bytes): (r: Bytes)
    requires at + |value| <= |block|
    ensures |r| == |block|
  {
    block[..at] + value + block[at + |value|..]
  }

  function Get(block: Bytes, field: Field): (value: Bytes)
    requires |block| >= HEADER_SIZE
    ensures |value| == field.Length()
  {
    block[field.Start()..field.Start() + field.Length()]
  }

  // The fields in their order, and what each takes.
  const LAYOUT: seq<Field> := [MagicNum, Seq, TimestampNs, SrcId, DstId, MsgType, Res, ContentSize]
  const LENGTHS: seq<nat> := [8, 8, 8, 8, 8, 129, 19, 4]

  // They fill the block one after the other, without gaps.
  lemma {:induction false} FieldsFollowEachOther()
    ensures forall f: Field :: f in LAYOUT
    ensures forall i | 0 <= i < |LAYOUT| :: LAYOUT[i].Length() == LENGTHS[i]
    ensures LAYOUT[0].Start() == 0 && LAYOUT[7].Start() + LAYOUT[7].Length() == HEADER_SIZE
    ensures forall i | 0 <= i < |LAYOUT| - 1 :: LAYOUT[i + 1].Start() == LAYOUT[i].Start() + LAYOUT[i].Length()
  {
    forall f: Field ensures f in LAYOUT {
      assert f == LAYOUT[0] || f == LAYOUT[1] || f == LAYOUT[2] || f == LAYOUT[3] || f == LAYOUT[4] || f == LAYOUT[5]
          || f == LAYOUT[6] || f == LAYOUT[7];
    }
  }

  // A field that is written reads back what was written; all others are unchanged.
  lemma {:induction false} FieldsAreApart(block: Bytes, written: Field, value: Bytes, other: Field)
    requires |block| >= HEADER_SIZE && |value| == written.Length()
    ensures Get(Put(block, written.Start(), value), other) == if other == written then value else Get(block, other)
  {
    NoByteIsShared(written, other);
    hide Field.Start, Field.Length;
    if other == written {
      PutHere(block, written.Start(), value);
    } else {
      PutApart(block, written.Start(), value, other.Start(), other.Start() + other.Length());
    }
  }

  lemma {:induction false} PutHere(block: Bytes, at: nat, value: Bytes)
    requires at + |value| <= |block|
    ensures Put(block, at, value)[at..at + |value|] == value
  {
  }

  lemma {:induction false} PutApart(block: Bytes, at: nat, value: Bytes, from: nat, to: nat)
    requires at + |value| <= |block| && from <= to <= |block| && (to <= at || at + |value| <= from)
    ensures Put(block, at, value)[from..to] == block[from..to]
  {
    var block' := Put(block, at, value);
    forall i | from <= i < to ensures block'[i] == block[i] {
    }
  }

  lemma {:induction false} NoByteIsShared(a: Field, b: Field)
    ensures a != b ==> a.Start() + a.Length() <= b.Start() || b.Start() + b.Length() <= a.Start()
    ensures a.Start() + a.Length() <= HEADER_SIZE && b.Start() + b.Length() <= HEADER_SIZE
  {
  }

  // ---- The type name, a string that a zero byte ends ----

  function Zeros(n: nat): (r: Bytes)
    ensures |r| == n
  {
    seq(n, _ => 0)
  }

  function TypeField(name: Bytes): (r: Bytes)
    ensures |r| == 129
  {
    if |name| >= 129 then name[..128] + [0] else name + Zeros(129 - |name|)
  }

  // What a reader of a zero-terminated string sees.
  function CString(b: Bytes): (r: Bytes) {
    if b == [] || b[0] == 0 then [] else [b[0]] + CString(b[1..])
  }

  lemma {:induction false} CStringStops(name: Bytes, rest: Bytes)
    requires 0 !in name
    ensures CString(name + [0] + rest) == name
  {
    if name != [] {
      assert (name + [0] + rest)[1..] == name[1..] + [0] + rest;
      CStringStops(name[1..], rest);
    }
  }

  // A type name without zero bytes reads back whole if it has at most 128 bytes, and
  // otherwise its first 128.
  lemma {:induction false} TypeNameReadsBack(name: Bytes)
    requires 0 !in name
    ensures CString(TypeField(name)) == if |name| <= 128 then name else name[..128]
  {
    if |name| >= 129 {
      CStringStops(name[..128], []);
      assert name[..128] + [0] + [] == TypeField(name);
    } else {
      CStringStops(name, Zeros(128 - |name|));
      assert name + [0] + Zeros(128 - |name|) == TypeField(name);
    }
  }

  // ---- Whole messages ----

  const MAGIC_NUM: Bytes := [66, 68, 65, 67, 66, 68, 65, 67]

  lemma {:induction false} MagicNumberSpells()
    ensures |MAGIC_NUM| == 8 && forall i | 0 <= i < 8 :: MAGIC_NUM[i] == "BDACBDAC"[i] as int
  {
  }

  // The header SerializeToHC writes: everything but type and size as constructed.
  function Header(typeName: Bytes, contentSize: nat): (r: Bytes)
    requires contentSize < TWO_32
    ensures |r| == HEADER_SIZE
  {
    MAGIC_NUM + Zeros(32) + (if typeName == [] then Zeros(129) else TypeField(typeName)) + Zeros(19)
      + Convert32ToArray(contentSize)
  }

  // What ParseFromHC makes of a buffer.
  function Parse(data: Bytes): (message: Option<Bytes>) {
    if |data| < HEADER_SIZE then None
    else
      var contentSize := ConvertArrayTo32(Get(data, ContentSize));
      if |data| - HEADER_SIZE < contentSize || contentSize == 0 then None
      else Some(data[HEADER_SIZE..HEADER_SIZE + contentSize])
  }

  lemma {:induction false} ContentAfterHeader(header: Bytes, message: Bytes, rest: Bytes, size: nat)
    requires |header| + |message| <= size <= |header| + |message| + |rest|
    ensures (header + message + rest)[..size][|header|..|header| + |message|] == message
  {
  }

  // A message comes back exactly when it is not empty and the buffer holds all of it,
  // whatever the type name and whatever follows the message; else parsing fails.
  lemma {:induction false} ParseOfSerialized(message: Bytes, typeName: Bytes, rest: Bytes, size: nat)
    requires |message| < TWO_32 && size <= HEADER_SIZE + |message| + |rest|
    ensures Parse((Header(typeName, |message|) + message + rest)[..size])
         == if message != [] && size >= HEADER_SIZE + |message| then Some(message) else None
  {
    var data := (Header(typeName, |message|) + message + rest)[..size];
    if size >= HEADER_SIZE {
      assert Get(data, ContentSize) == Convert32ToArray(|message|);
      RoundTrip32(|message|, [0, 0, 0, 0]);
      if size >= HEADER_SIZE + |message| {
        ContentAfterHeader(Header(typeName, |message|), message, rest, size);
      }
    }
  }

  // ---- The code, in place ----

  lemma {:induction false} PutOneMore(block: Bytes, at: nat, value: Bytes, i: nat)
    requires at + |value| <= |block| && i < |value|
    ensures Put(block, at, value[..i])[at + i := value[i]] == Put(block, at, value[..i + 1])
  {
  }

  lemma {:induction false} PutTwice(block: Bytes, at: nat, a: Bytes, b: Bytes)
    requires at + |a| + |b| <= |block|
    ensures Put(Put(block, at, a), at + |a|, b) == Put(block, at, a + b)
  {
  }

  method CopyBytes(to: array<Byte>, at: nat, value: Bytes)
    requires at + |value| <= to.Length
    modifies to
    ensures to[..] == Put(old(to[..]), at, value)
  {
    var i := 0;
    while i < |value|
      invariant i <= |value| && to[..] == Put(old(to[..]), at, value[..i])
    {
      PutOneMore(old(to[..]), at, value, i);
      to[at + i] := value[i];
      i := i + 1;
    }
    assert value[..i] == value;
  }

  class MessageHeader {
    const block: array<Byte>

    predicate Valid() {
      block.Length == HEADER_SIZE
    }

    constructor ()
      ensures Valid() && fresh(block) && block[..] == MAGIC_NUM + Zeros(HEADER_SIZE - 8)
    {
      block := new Byte[HEADER_SIZE](_ => 0);
      new;
      CopyBytes(block, 0, MAGIC_NUM);
    }

    // set_seq, set_timestamp_ns, set_src_id and set_dst_id.
    method Set64(field: Field, n: nat)
      requires Valid() && field.Length() == 8 && n < TWO_32 * TWO_32
      modifies block
      ensures ConvertArrayTo64(Get(block[..], field)) == n
      ensures forall other: Field | other != field :: Get(block[..], other) == Get(old(block[..]), other)
    {
      CopyBytes(block, field.Start(), Convert32ToArray(n / TWO_32));
      CopyBytes(block, field.Start() + 4, Convert32ToArray(n % TWO_32));
      PutTwice(old(block[..]), field.Start(), Convert32ToArray(n / TWO_32), Convert32ToArray(n % TWO_32));
      hide Put, Get, Convert32ToArray;
      FieldsAreApart(old(block[..]), field, Convert64ToArray(n), field);
      RoundTrip64(n, Convert64ToArray(n));
      forall other: Field | other != field ensures Get(block[..], other) == Get(old(block[..]), other) {
        FieldsAreApart(old(block[..]), field, Convert64ToArray(n), other);
      }
    }

    method SetContentSize(n: nat)
      requires Valid() && n < TWO_32
      modifies block
      ensures block[..] == Put(old(block[..]), ContentSize.Start(), Convert32ToArray(n))
    {
      CopyBytes(block, ContentSize.Start(), Convert32ToArray(n));
    }

    // An empty name leaves the field alone; a long one is cut.
    method SetMsgType(name: Bytes)
      requires Valid()
      modifies block
      ensures block[..] == if name == [] then old(block[..]) else Put(old(block[..]), MsgType.Start(), TypeField(name))
    {
      if |name| == 0 {
        return;
      }
      var realLen := |name|;
      if |name| >= MsgType.Length() {
        realLen := MsgType.Length() - 1;
      }
      CopyBytes(block, MsgType.Start(), Zeros(MsgType.Length()));
      CopyBytes(block, MsgType.Start(), name[..realLen]);
      assert block[..] == Put(old(block[..]), MsgType.Start(), TypeField(name));
    }
  }

  class RawMessage {
    var message: Bytes

    method SerializeToArray(data: array<Byte>, at: nat, size: nat) returns (ok: bool)
      requires at + size <= data.Length
      modifies data
      ensures ok <==> size >= |message|
      ensures data[..] == if ok then Put(old(data[..]), at, message) else old(data[..])
    {
      if size < |message| {
        return false;
      }
      CopyBytes(data, at, message);
      return true;
    }

    method ParseFromArray(data: array<Byte>, at: nat, size: nat) returns (ok: bool)
      requires at + size <= data.Length
      modifies this
      ensures ok <==> size > 0
      ensures message == if ok then data[at..at + size] else old(message)
    {
      if size <= 0 {
        return false;
      }
      message := data[at..at + size];
      return true;
    }
  }

  // The header goes into the buffer even when there is no room for the content.
  method SerializeToHC(message: RawMessage, typeName: Bytes, data: array<Byte>, size: nat) returns (ok: bool)
    requires size <= data.Length && size < TWO_32 / 2 && |message.message| < TWO_32 / 2
    modifies data
    ensures ok <==> size >= HEADER_SIZE + |message.message|
    ensures data[..] == if size < HEADER_SIZE then old(data[..])
                        else Put(old(data[..]), 0,
                                 Header(typeName, |message.message|) + if ok then message.message else [])
  {
    var header := new MessageHeader();
    header.SetMsgType(typeName);
    header.SetContentSize(|message.message|);
    HeaderWritten(header.block[..], typeName, |message.message|);
    if HEADER_SIZE > size {
      return false;
    }
    ghost var before := data[..];
    CopyBytes(data, 0, header.block[..]);
    ghost var between := data[..];
    ok := message.SerializeToArray(data, HEADER_SIZE, size - HEADER_SIZE);
    if ok {
      PutTwice(before, 0, header.block[..], message.message);
    } else {
      assert header.block[..] + [] == header.block[..];
    }
  }

  lemma {:induction false} HeaderWritten(block: Bytes, typeName: Bytes, n: nat)
    requires n < TWO_32
    requires var empty := MAGIC_NUM + Zeros(HEADER_SIZE - 8);
             block == Put(if typeName == [] then empty else Put(empty, MsgType.Start(), TypeField(typeName)),
                          ContentSize.Start(), Convert32ToArray(n))
    ensures block == Header(typeName, n)
  {
  }

  method ParseFromHC(data: array<Byte>, size: nat, message: RawMessage) returns (ok: bool)
    requires size <= data.Length && size < TWO_32 / 2
    modifies message
    ensures ok <==> Parse(data[..size]).Some?
    ensures message.message == if ok then Parse(data[..size]).value else old(message.message)
  {
    if size < HEADER_SIZE {
      return false;
    }
    var field := data[ContentSize.Start()..ContentSize.Start() + ContentSize.Length()];
    assert field == Get(data[..size], ContentSize);
    var contentSize := ConvertArrayTo32(field);
    if size - HEADER_SIZE < contentSize {
      return false;
    }
    ok := message.ParseFromArray(data, HEADER_SIZE, contentSize);
    assert data[HEADER_SIZE..HEADER_SIZE + contentSize] == data[..size][HEADER_SIZE..HEADER_SIZE + contentSize];
  }

  lemma {:induction false} PutAtStart(data: Bytes, header: Bytes, content: Bytes)
    requires |header| + |content| <= |data|
    ensures Put(data, 0, header + content) == header + content + data[|header| + |content|..]
  {
  }

  // A message written to a buffer and read back from the start of it.
  method ThereAndBack(message: RawMessage, typeName: Bytes, data: array<Byte>, size: nat, back: RawMessage)
    returns (ok: bool)
    requires HEADER_SIZE + |message.message| <= size <= data.Length && size < TWO_32 / 2 && back != message
    modifies data, back
    ensures ok <==> message.message != []
    ensures back.message == if ok then message.message else old(back.message)
    ensures data[..] == Header(typeName, |message.message|) + message.message
                        + old(data[HEADER_SIZE + |message.message|..])
  {
    var content := message.message;
    ghost var before := data[..];
    var written := SerializeToHC(message, typeName, data, size);
    PutAtStart(before, Header(typeName, |content|), content);
    hide Header, Put, Parse;
    ParseOfSerialized(content, typeName, before[HEADER_SIZE + |content|..], size);
    ok := ParseFromHC(data, size, back);
  }
}
