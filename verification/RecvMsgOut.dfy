/** Parsing the buffer a multishot `recvmsg` completion fills: a header of four words, a name
    field and a control field of sizes the caller chose, and the payload. */
module RecvMsgOuts {
  import opened Words
  import opened Entries
  import opened Spsc

  const DATA_START: u64 := 16

  /** The lengths that came in, before any truncation. */
  datatype Header = Header(nameLen: u32, controlLen: u32, payloadLen: u32, flags: u32)

  /** A borrowed part of a buffer. */
  datatype Slice = Slice(of: seq<byte>, start: nat, end: nat)

  predicate InBounds(s: Slice) { s.start <= s.end <= |s.of| }

  function Data(s: Slice): seq<byte>
    requires InBounds(s)
  {
    s.of[s.start..s.end]
  }

  datatype RecvMsgOut = RecvMsgOut(header: Header, msghdrNameLen: u64, name: Slice, control: Slice, payload: Slice) {
    function IncomingNameLen(): u32 { header.nameLen }

    predicate IsNameDataTruncated() { header.nameLen > msghdrNameLen }
  }

  function CheckedAdd(a: u64, b: u64): Option<u64> { if a + b < TWO64 then Some(a + b) else None }

  function Word(b: seq<byte>, at: nat): u32
    requires at + 4 <= |b|
  {
    LeBound(b[at..at + 4]); WordSizes();
    FromLe(b[at..at + 4])
  }

  function ReadHeader(b: seq<byte>): Header
    requires |b| >= DATA_START
  {
    Header(Word(b, 0), Word(b, 4), Word(b, 8), Word(b, 12))
  }

  /** The length of header and fields, unless it overflows a usize. */
  function HeaderLen(nameLen: u32, controlLen: u64): Option<u64> {
    match CheckedAdd(DATA_START, nameLen)
    case None => None
    case Some(acc) => CheckedAdd(acc, controlLen)
  }

  /** Parsing succeeds exactly when header and fields fit the buffer (and a usize); the
      three parts are then in bounds, in order, disjoint, and no longer than their fields,
      and the name is known to be truncated exactly when some of it is missing. */
  function Parse(buffer: seq<byte>, nameLen: u32, controlLen: u64): (r: Option<RecvMsgOut>)
    ensures r.Some? <==> 16 + nameLen + controlLen < TWO64 && 16 + nameLen + controlLen <= |buffer|
    ensures r.Some? ==> var out := r.value;
      && out.name.of == out.control.of == out.payload.of == buffer
      && InBounds(out.name) && InBounds(out.control) && InBounds(out.payload)
      && 16 == out.name.start && out.name.end <= out.control.start == 16 + nameLen
      && out.control.end <= out.payload.start == 16 + nameLen + controlLen
      && (out.IsNameDataTruncated() <==> |Data(out.name)| < out.IncomingNameLen())
  {
    var headerLen := HeaderLen(nameLen, controlLen);
    if headerLen.None? || |buffer| < headerLen.value then None
    else
      var header := ReadHeader(buffer);
      var nameStart := DATA_START;
      var name := Slice(buffer, nameStart, nameStart + Min(header.nameLen, nameLen));
      var controlStart := nameStart + nameLen;
      var control := Slice(buffer, controlStart, controlStart + Min(header.controlLen, controlLen));
      var payloadStart := controlStart + controlLen;
      var payload := Slice(buffer, payloadStart, payloadStart + Min(header.payloadLen, |buffer| - payloadStart));
      Some(RecvMsgOut(header, nameLen, name, control, payload))
  }

  // ----- the layout, independently -----

  function HeaderBytes(h: Header): (s: seq<byte>)
    ensures |s| == 16
  {
    ToLe(h.nameLen, 4) + ToLe(h.controlLen, 4) + ToLe(h.payloadLen, 4) + ToLe(h.flags, 4)
  }

  /** A buffer with the given header, fields, and room for payload. */
  function Layout(h: Header, nameField: seq<byte>, controlField: seq<byte>, room: seq<byte>): seq<byte> {
    HeaderBytes(h) + nameField + controlField + room
  }

  lemma HeaderRoundTrip(h: Header, rest: seq<byte>)
    ensures ReadHeader(HeaderBytes(h) + rest) == h
  {
    hide ToLe, FromLe;
    WordSizes();
    LeRoundTrip(h.nameLen, 4); LeRoundTrip(h.controlLen, 4); LeRoundTrip(h.payloadLen, 4); LeRoundTrip(h.flags, 4);
    var b := HeaderBytes(h) + rest;
    assert b[0..4] == ToLe(h.nameLen, 4) && b[4..8] == ToLe(h.controlLen, 4);
    assert b[8..12] == ToLe(h.payloadLen, 4) && b[12..16] == ToLe(h.flags, 4);
  }

  lemma HeaderInverse(b: seq<byte>)
    requires |b| >= 16
    ensures HeaderBytes(ReadHeader(b)) == b[..16]
  {
    hide ToLe, FromLe;
    LeInverse(b[0..4]); LeInverse(b[4..8]); LeInverse(b[8..12]); LeInverse(b[12..16]);
    assert b[0..4] + b[4..8] + b[8..12] + b[12..16] == b[..16];
  }

  /** The four words of the header, byte by byte. */
  lemma HeaderInBytes(b: seq<byte>)
    requires |b| >= 16
    ensures var h, w := ReadHeader(b),
        (i: int) requires 0 <= i && i + 4 <= |b| =>
          b[i] as int + 0x100 * (b[i + 1] as int) + 0x1_0000 * (b[i + 2] as int) + 0x100_0000 * (b[i + 3] as int);
      h.nameLen == w(0) && h.controlLen == w(4) && h.payloadLen == w(8) && h.flags == w(12)
  {
    hide FromLe;
    LeFour(b[0..4]); LeFour(b[4..8]); LeFour(b[8..12]); LeFour(b[12..16]);
  }

  /** As much of `data` as fits `field` is at its front, the way the kernel delivers it. */
  predicate Delivers(field: seq<byte>, data: seq<byte>) { Clip(field, |data|) == Clip(data, |field|) }

  function Clip(s: seq<byte>, n: nat): seq<byte> { s[..Min(|s|, n)] }

  /** Parsing a delivered message returns each part of it, cut to its field; the lengths
      that came in are reported whole, and truncation of the name is noticed. */
  lemma ParseInvertsLayout(name: seq<byte>, control: seq<byte>, payload: seq<byte>, flags: u32,
                           nameField: seq<byte>, controlField: seq<byte>, room: seq<byte>)
    requires |name| < TWO32 && |control| < TWO32 && |payload| < TWO32
    requires |nameField| < TWO32 && 16 + |nameField| + |controlField| < TWO64
    requires Delivers(nameField, name) && Delivers(controlField, control) && Delivers(room, payload)
    ensures var h := Header(|name|, |control|, |payload|, flags);
      var r := Parse(Layout(h, nameField, controlField, room), |nameField|, |controlField|);
      && r.Some? && r.value.header == h
      && Data(r.value.name) == Clip(name, |nameField|)
      && Data(r.value.control) == Clip(control, |controlField|)
      && Data(r.value.payload) == Clip(payload, |room|)
      && (r.value.IsNameDataTruncated() <==> |name| > |nameField|)
  {
    hide HeaderBytes, ReadHeader, Parse, Data;
    var h := Header(|name|, |control|, |payload|, flags);
    var b := Layout(h, nameField, controlField, room);
    HeaderRoundTrip(h, nameField + controlField + room);
    assert b == HeaderBytes(h) + (nameField + controlField + room);
    ParseOf(HeaderBytes(h), nameField, controlField, room);
  }

  /** The parts of a buffer made of four pieces. */
  lemma ParseOf(a: seq<byte>, n: seq<byte>, c: seq<byte>, p: seq<byte>)
    requires |a| == 16 && |n| < TWO32 && 16 + |n| + |c| < TWO64
    ensures var b := a + n + c + p;
      var h, r := ReadHeader(b), Parse(b, |n|, |c|);
      && r.Some? && r.value.header == h && r.value.msghdrNameLen == |n|
      && Data(r.value.name) == Clip(n, h.nameLen)
      && Data(r.value.control) == Clip(c, h.controlLen)
      && Data(r.value.payload) == Clip(p, h.payloadLen)
  {
    hide ReadHeader;
    var b := a + n + c + p;
    var h := ReadHeader(b);
    PartsOf(a, n, c, p, h.nameLen, h.controlLen, h.payloadLen);
  }

  lemma PartsOf(a: seq<byte>, n: seq<byte>, c: seq<byte>, p: seq<byte>, i: nat, j: nat, k: nat)
    ensures var b, x, y := a + n + c + p, |a| + |n|, |a| + |n| + |c|;
      && b[|a|..|a| + Min(i, |n|)] == Clip(n, i)
      && b[x..x + Min(j, |c|)] == Clip(c, j)
      && b[y..y + Min(k, |b| - y)] == Clip(p, k)
  {
    Part(a, n, c + p, i);
    Part(a + n, c, p, j);
    Part(a + n + c, p, [], k);
    assert a + n + c + p == a + n + (c + p) && a + n + c + p == a + n + c + p + [];
  }

  lemma Part(front: seq<byte>, s: seq<byte>, rest: seq<byte>, i: nat)
    ensures (front + s + rest)[|front|..|front| + Min(i, |s|)] == Clip(s, i)
  {
  }

  /** And every buffer that parses is the layout of what the parse found in it. */
  lemma LayoutInvertsParse(b: seq<byte>, nameLen: u32, controlLen: u64)
    requires Parse(b, nameLen, controlLen).Some?
    ensures var out := Parse(b, nameLen, controlLen).value;
      var x, y := 16 + nameLen, 16 + nameLen + controlLen;
      && b == Layout(out.header, b[16..x], b[x..y], b[y..])
      && Data(out.name) == Clip(b[16..x], out.header.nameLen)
      && Data(out.control) == Clip(b[x..y], out.header.controlLen)
      && Data(out.payload) == Clip(b[y..], out.header.payloadLen)
  {
    hide HeaderBytes, ReadHeader, Parse, Data;
    HeaderInverse(b);
    var x, y := 16 + nameLen, 16 + nameLen + controlLen;
    assert b == b[..16] + b[16..x] + b[x..y] + b[y..];
    ParseOf(b[..16], b[16..x], b[x..y], b[y..]);
  }
}
