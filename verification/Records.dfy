/** Records of the kernel ring buffer (`ncda-common/src/lib.rs`) and their parser
    (`parse_event` in `ncda/src/bpf.rs`). */
module Records {
  import opened Saturating

  // --- Little-endian integers ---

  function Range(width: nat): (n: nat)
    ensures n > 0
  {
    if width == 0 then 1 else 256 * Range(width - 1)
  }

  lemma Ranges()
    ensures Range(2) == 0x1_0000 && Range(4) == 0x1_0000_0000 && Range(8) == U64_MAX + 1
  {
    assert Range(4) == 256 * 256 * Range(2);
    assert Range(6) == 256 * 256 * Range(4);
    assert Range(8) == 256 * 256 * Range(6);
  }

  function Le(n: nat, width: nat): (b: Bytes)
    ensures |b| == width
    decreases width
  {
    if width == 0 then [] else [n % 256] + Le(n / 256, width - 1)
  }

  function FromLe(b: Bytes): nat { if b == [] then 0 else b[0] + 256 * FromLe(b[1..]) }

  lemma {:induction false} LeRoundTrip(n: nat, width: nat)
    requires n < Range(width)
    ensures FromLe(Le(n, width)) == n
    decreases width
  {
    if width > 0 {
      LeRoundTrip(n / 256, width - 1);
      assert Le(n, width)[1..] == Le(n / 256, width - 1);
    }
  }

  lemma {:induction false} FromLeRoundTrip(b: Bytes)
    ensures FromLe(b) < Range(|b|) && Le(FromLe(b), |b|) == b
  {
    if b != [] {
      FromLeRoundTrip(b[1..]);
      assert FromLe(b) % 256 == b[0] && FromLe(b) / 256 == FromLe(b[1..]);
    }
  }

  /** Two's complement. */
  function Unsigned(n: int, width: nat): nat
    requires 0 <= n + Range(width) && n < Range(width)
  {
    if n < 0 then n + Range(width) else n
  }

  function Signed(n: nat, width: nat): int { if 2 * n >= Range(width) then n - Range(width) else n }

  // --- Layouts ---

  const MAX_FNAME_LEN := 256
  const PROBE_FNAME_LEN := MAX_FNAME_LEN + 2

  const PATH_TRUNCATED := 1
  const PATH_READ_FAILED := 2

  const EVENT_OPEN := 1
  const EVENT_READ := 2
  const EVENT_WRITE := 3
  const EVENT_CLOSE := 4
  const EVENT_DUP := 5
  const EVENT_CLOSE_RANGE := 6
  const EVENT_PROCESS_EXEC := 7
  const EVENT_PROCESS_EXIT := 8

  type i32 = x: int | -0x8000_0000 <= x <= 0x7FFF_FFFF
  type i64 = x: int | -0x8000_0000_0000_0000 <= x <= 0x7FFF_FFFF_FFFF_FFFF
  type u16 = x: int | 0 <= x <= 0xFFFF

  datatype Record =
    | OpenRecord(pid: u32, tid: u32, fd: u32, nameLen: u16, pathFlags: u16, dirfd: i32, emitted: u64, name: Bytes)
    | IoRecord(kind: u32, pid: u32, tid: u32, fd: u32, result: i64, latency: u64, emitted: u64)
    | FdRecord(pid: u32, tid: u32, oldFd: u32, newFd: u32, emitted: u64)
    | RangeRecord(pid: u32, tid: u32, first: u32, last: u32, flags: u32, emitted: u64)
    | ProcessRecord(kind: u32, pid: u32, emitted: u64)

  /** A number at a fixed offset. */
  datatype Field = Field(at: nat, width: nat, value: nat)

  function Pack(fields: seq<Field>): Bytes {
    if fields == [] then [] else Le(fields[0].value, fields[0].width) + Pack(fields[1..])
  }

  /** The `repr(C)` layout: no field needs padding. */
  function Fields(r: Record): seq<Field> {
    Ranges();
    match r
    case OpenRecord(pid, tid, fd, nameLen, flags, dirfd, emitted, _) =>
      [Field(0, 4, EVENT_OPEN), Field(4, 4, pid), Field(8, 4, tid), Field(12, 4, fd), Field(16, 2, nameLen),
       Field(18, 2, flags), Field(20, 4, Unsigned(dirfd, 4)), Field(24, 8, emitted)]
    case IoRecord(kind, pid, tid, fd, result, latency, emitted) =>
      [Field(0, 4, kind), Field(4, 4, pid), Field(8, 4, tid), Field(12, 4, fd), Field(16, 8, Unsigned(result, 8)),
       Field(24, 8, latency), Field(32, 8, emitted)]
    case FdRecord(pid, tid, oldFd, newFd, emitted) =>
      [Field(0, 4, EVENT_DUP), Field(4, 4, pid), Field(8, 4, tid), Field(12, 4, oldFd), Field(16, 4, newFd),
       Field(20, 4, 0), Field(24, 8, emitted)]
    case RangeRecord(pid, tid, first, last, flags, emitted) =>
      [Field(0, 4, EVENT_CLOSE_RANGE), Field(4, 4, pid), Field(8, 4, tid), Field(12, 4, first), Field(16, 4, last),
       Field(20, 4, flags), Field(24, 8, emitted)]
    case ProcessRecord(kind, pid, emitted) => [Field(0, 4, kind), Field(4, 4, pid), Field(8, 8, emitted)]
  }

  /** The bytes of a record in the ring buffer. */
  function Layout(r: Record): Bytes { Pack(Fields(r)) + if r.OpenRecord? then r.name else [] }

  // --- Fields at their offsets ---

  /** Fields follow each other without gaps, starting at `start`. */
  ghost predicate Contiguous(fields: seq<Field>, start: nat) {
    && (fields != [] ==> fields[0].at == start)
    && forall i :: 0 < i < |fields| ==> fields[i].at == fields[i - 1].at + fields[i - 1].width
  }

  function End(fields: seq<Field>, start: nat): nat {
    if fields == [] then start else fields[|fields| - 1].at + fields[|fields| - 1].width
  }

  lemma ContiguousRest(fields: seq<Field>, start: nat)
    requires Contiguous(fields, start) && fields != []
    ensures fields[0].at == start && Contiguous(fields[1..], start + fields[0].width)
    ensures End(fields[1..], start + fields[0].width) == End(fields, start)
  {
    forall i | 0 < i < |fields[1..]|
      ensures fields[1..][i].at == fields[1..][i - 1].at + fields[1..][i - 1].width
    {
      assert fields[i + 1].at == fields[i].at + fields[i].width;
    }
  }

  lemma SliceAfter(front: Bytes, rest: Bytes, from: nat, to: nat)
    requires from <= to <= |rest|
    ensures (front + rest)[|front| + from..|front| + to] == rest[from..to]
  {
  }

  lemma SliceFront(front: Bytes, rest: Bytes)
    ensures (front + rest)[0..|front|] == front
  {
  }

  lemma PackNext(fields: seq<Field>, more: Bytes)
    requires fields != []
    ensures Pack(fields) + more == Le(fields[0].value, fields[0].width) + (Pack(fields[1..]) + more)
  {
    hide Le;
  }

  lemma {:induction false} PackAt(fields: seq<Field>, start: nat, i: nat, more: Bytes)
    requires Contiguous(fields, start) && i < |fields|
    ensures var f, b := fields[i], Pack(fields) + more;
            && start <= f.at && f.at - start + f.width <= |b|
            && b[f.at - start..f.at - start + f.width] == Le(f.value, f.width)
    decreases i
  {
    hide Pack, Contiguous, Le;
    var front := Le(fields[0].value, fields[0].width);
    var rest := Pack(fields[1..]) + more;
    ContiguousRest(fields, start);
    PackNext(fields, more);
    if i == 0 {
      SliceFront(front, rest);
    } else {
      PackAt(fields[1..], start + fields[0].width, i - 1, more);
      var at := fields[i].at - start - |front|;
      SliceAfter(front, rest, at, at + fields[i].width);
    }
  }

  lemma {:induction false} PackLength(fields: seq<Field>, start: nat)
    requires Contiguous(fields, start)
    ensures |Pack(fields)| == End(fields, start) - start
  {
    if fields != [] {
      ContiguousRest(fields, start);
      PackLength(fields[1..], start + fields[0].width);
    }
  }

  function Number(data: Bytes, from: nat, to: nat): nat
    requires from <= to <= |data|
  {
    FromLe(data[from..to])
  }

  lemma NumberAt(fields: seq<Field>, i: nat, more: Bytes)
    requires Contiguous(fields, 0) && i < |fields| && fields[i].value < Range(fields[i].width)
    ensures var f, b := fields[i], Pack(fields) + more;
            f.at + f.width <= |b| && Number(b, f.at, f.at + f.width) == f.value
  {
    PackAt(fields, 0, i, more);
    LeRoundTrip(fields[i].value, fields[i].width);
  }

  // --- Parsing ---

  datatype BpfEvent =
    | Open(pid: u32, tid: u32, fd: u32, dirfd: i32, path: Bytes, pathFlags: u16, emitted: u64)
    | Read(pid: u32, tid: u32, fd: u32, bytes: u64, result: i64, latency: u64, emitted: u64)
    | Write(pid: u32, tid: u32, fd: u32, bytes: u64, result: i64, latency: u64, emitted: u64)
    | Close(pid: u32, tid: u32, fd: u32, emitted: u64)
    | Dup(pid: u32, tid: u32, oldFd: u32, newFd: u32, emitted: u64)
    | CloseRange(pid: u32, tid: u32, first: u32, last: u32, flags: u32, emitted: u64)
    | ProcessExec(pid: u32, emitted: u64)
    | ProcessExit(pid: u32, emitted: u64)

  function U32(data: Bytes, at: nat): u32
    requires at + 4 <= |data|
  {
    FromLeRoundTrip(data[at..at + 4]);
    Ranges();
    Number(data, at, at + 4)
  }

  function U64(data: Bytes, at: nat): u64
    requires at + 8 <= |data|
  {
    FromLeRoundTrip(data[at..at + 8]);
    Ranges();
    Number(data, at, at + 8)
  }

  function U16(data: Bytes, at: nat): u16
    requires at + 2 <= |data|
  {
    FromLeRoundTrip(data[at..at + 2]);
    Ranges();
    Number(data, at, at + 2)
  }

  predicate HasFlag(flags: u16, flag: nat)
    requires flag > 0
  {
    flags / flag % 2 == 1
  }

  /** Known flags only, and no path after a failed read. */
  predicate FlagsFit(flags: u16, length: nat) {
    flags < 4 && (HasFlag(flags, PATH_READ_FAILED) ==> length == 0)
  }

  predicate Zeros(b: Bytes) { forall i :: 0 <= i < |b| ==> b[i] == 0 }

  function ParseOpen(data: Bytes): Option<BpfEvent> {
    Ranges();
    if |data| < 288 then None
    else
      var length, flags := U16(data, 16), U16(data, 18);
      if length > MAX_FNAME_LEN || !FlagsFit(flags, length) then None
      else if 0 in data[32..32 + length] || !Zeros(data[32 + length..288]) then None
      else
        Some(Open(U32(data, 4), U32(data, 8), U32(data, 12), Signed(U32(data, 20), 4), data[32..32 + length], flags,
                  U64(data, 24)))
  }

  function ParseIo(data: Bytes, kind: u32): Option<BpfEvent> {
    Ranges();
    if |data| < 40 then None
    else
      var pid, tid, fd, latency, emitted := U32(data, 4), U32(data, 8), U32(data, 12), U64(data, 24), U64(data, 32);
      var result := Signed(U64(data, 16), 8);
      if kind == EVENT_READ then Some(Read(pid, tid, fd, Max(result, 0), result, latency, emitted))
      else if kind == EVENT_WRITE then Some(Write(pid, tid, fd, Max(result, 0), result, latency, emitted))
      else if kind == EVENT_CLOSE then Some(Close(pid, tid, fd, emitted))
      else None
  }

  function ParseProcess(data: Bytes, kind: u32): Option<BpfEvent> {
    if |data| < 16 then None
    else if kind == EVENT_PROCESS_EXEC then Some(ProcessExec(U32(data, 4), U64(data, 8)))
    else if kind == EVENT_PROCESS_EXIT then Some(ProcessExit(U32(data, 4), U64(data, 8)))
    else None
  }

  /** `parse_event`. */
  function Parse(data: Bytes): Option<BpfEvent> {
    if |data| < 4 then None
    else
      var kind := U32(data, 0);
      if kind == EVENT_OPEN then ParseOpen(data)
      else if kind in {EVENT_READ, EVENT_WRITE, EVENT_CLOSE} then ParseIo(data, kind)
      else if kind == EVENT_DUP then
        if |data| < 32 then None
        else Some(Dup(U32(data, 4), U32(data, 8), U32(data, 12), U32(data, 16), U64(data, 24)))
      else if kind == EVENT_CLOSE_RANGE then
        if |data| < 32 then None
        else Some(CloseRange(U32(data, 4), U32(data, 8), U32(data, 12), U32(data, 16), U32(data, 20), U64(data, 24)))
      else if kind == EVENT_PROCESS_EXEC || kind == EVENT_PROCESS_EXIT then ParseProcess(data, kind)
      else None
  }

  // --- Round trips ---

  /** What a well-formed record means. */
  ghost predicate Means(r: Record, e: BpfEvent) {
    match r
    case OpenRecord(pid, tid, fd, nameLen, flags, dirfd, emitted, name) =>
      nameLen <= |name| && e == Open(pid, tid, fd, dirfd, name[..nameLen], flags, emitted)
    case IoRecord(kind, pid, tid, fd, result, latency, emitted) =>
      e == if kind == EVENT_READ then Read(pid, tid, fd, Max(result, 0), result, latency, emitted)
           else if kind == EVENT_WRITE then Write(pid, tid, fd, Max(result, 0), result, latency, emitted)
           else Close(pid, tid, fd, emitted)
    case FdRecord(pid, tid, oldFd, newFd, emitted) => e == Dup(pid, tid, oldFd, newFd, emitted)
    case RangeRecord(pid, tid, first, last, flags, emitted) => e == CloseRange(pid, tid, first, last, flags, emitted)
    case ProcessRecord(kind, pid, emitted) =>
      e == if kind == EVENT_PROCESS_EXEC then ProcessExec(pid, emitted) else ProcessExit(pid, emitted)
  }

  /** Records as the kernel side writes them. */
  ghost predicate WellFormed(r: Record) {
    match r
    case OpenRecord(_, _, _, nameLen, flags, _, _, name) =>
      && |name| == MAX_FNAME_LEN && nameLen <= MAX_FNAME_LEN && FlagsFit(flags, nameLen)
      && 0 !in name[..nameLen] && Zeros(name[nameLen..])
    case IoRecord(kind, _, _, _, _, _, _) => kind in {EVENT_READ, EVENT_WRITE, EVENT_CLOSE}
    case ProcessRecord(kind, _, _) => kind in {EVENT_PROCESS_EXEC, EVENT_PROCESS_EXIT}
    case _ => true
  }

  ghost predicate Reads(data: Bytes, f: Field) {
    f.at + f.width <= |data| && Number(data, f.at, f.at + f.width) == f.value
  }

  lemma FieldsFit(r: Record)
    ensures Contiguous(Fields(r), 0)
    ensures forall i :: 0 <= i < |Fields(r)| ==> Fields(r)[i].value < Range(Fields(r)[i].width)
  {
    Ranges();
  }

  /** The sizes that both sides of the ring buffer rely on. */
  lemma LayoutLength(r: Record)
    requires WellFormed(r)
    ensures |Layout(r)| == match r
              case OpenRecord(_, _, _, _, _, _, _, _) => 288
              case IoRecord(_, _, _, _, _, _, _) => 40
              case ProcessRecord(_, _, _) => 16
              case _ => 32
  {
    hide Pack, Zeros, FlagsFit;
    FieldsFit(r);
    PackLength(Fields(r), 0);
  }

  /** The bytes of a number are stored from the lowest to the highest. */
  lemma LowestByteFirst(n: u32)
    ensures Le(n, 4) == [n % 256, n / 256 % 256, n / 65536 % 256, n / 16777216 % 256]
  {
    var a, b, c := n / 256, n / 65536, n / 16777216;
    assert a / 256 == b && b / 256 == c;
    assert Le(c, 1) == [c % 256] + Le(c / 256, 0);
    assert Le(b, 2) == [b % 256] + Le(c, 1);
    assert Le(a, 3) == [a % 256] + Le(b, 2);
    assert Le(n, 4) == [n % 256] + Le(a, 3);
  }

  ghost predicate Stores(data: Bytes, from: nat, to: nat, n: int) { from <= to <= |data| && FromLe(data[from..to]) == n }

  /** The layout of every record, byte by byte. */
  lemma LayoutOffsets(r: Record)
    ensures var d := Layout(r);
            match r
            case OpenRecord(pid, tid, fd, length, flags, dirfd, emitted, name) =>
              && Stores(d, 0, 4, 1) && Stores(d, 4, 8, pid) && Stores(d, 8, 12, tid) && Stores(d, 12, 16, fd)
              && Stores(d, 16, 18, length) && Stores(d, 18, 20, flags)
              && Stores(d, 20, 24, if dirfd < 0 then dirfd + 0x1_0000_0000 else dirfd) && Stores(d, 24, 32, emitted)
              && d[32..] == name
            case IoRecord(kind, pid, tid, fd, result, latency, emitted) =>
              && Stores(d, 0, 4, kind) && Stores(d, 4, 8, pid) && Stores(d, 8, 12, tid) && Stores(d, 12, 16, fd)
              && Stores(d, 16, 24, if result < 0 then result + 0x1_0000_0000_0000_0000 else result)
              && Stores(d, 24, 32, latency) && Stores(d, 32, 40, emitted)
            case FdRecord(pid, tid, oldFd, newFd, emitted) =>
              && Stores(d, 0, 4, 5) && Stores(d, 4, 8, pid) && Stores(d, 8, 12, tid) && Stores(d, 12, 16, oldFd)
              && Stores(d, 16, 20, newFd) && Stores(d, 20, 24, 0) && Stores(d, 24, 32, emitted)
            case RangeRecord(pid, tid, first, last, flags, emitted) =>
              && Stores(d, 0, 4, 6) && Stores(d, 4, 8, pid) && Stores(d, 8, 12, tid) && Stores(d, 12, 16, first)
              && Stores(d, 16, 20, last) && Stores(d, 20, 24, flags) && Stores(d, 24, 32, emitted)
            case ProcessRecord(kind, pid, emitted) =>
              Stores(d, 0, 4, kind) && Stores(d, 4, 8, pid) && Stores(d, 8, 16, emitted)
  {
    Ranges();
    FieldsAt(r);
    if r.OpenRecord? {
      FieldsFit(r);
      PackLength(Fields(r), 0);
    }
    forall i | 0 <= i < |Fields(r)|
      ensures Stores(Layout(r), Fields(r)[i].at, Fields(r)[i].at + Fields(r)[i].width, Fields(r)[i].value)
    {
    }
    hide Layout, Stores, Reads, Range, Contiguous, Pack;
    LayoutIs(r);
    var f := Fields(r);
    assert f[0].at == 0 && f[1].at == 4;
    match r {
      case OpenRecord(_, _, _, _, _, _, _, _) =>
        assert f[2].at == 8 && f[3].at == 12 && f[4].at == 16 && f[5].at == 18 && f[6].at == 20 && f[7].at == 24;
      case IoRecord(_, _, _, _, _, _, _) =>
        assert f[2].at == 8 && f[3].at == 12 && f[4].at == 16 && f[5].at == 24 && f[6].at == 32;
      case ProcessRecord(_, _, _) => assert f[2].at == 8;
      case _ => assert f[2].at == 8 && f[3].at == 12 && f[4].at == 16 && f[5].at == 20 && f[6].at == 24;
    }
  }

  /** Every field of a record is read back at its offset. */
  lemma FieldsAt(r: Record)
    ensures forall i :: 0 <= i < |Fields(r)| ==> Reads(Layout(r), Fields(r)[i])
  {
    var fields, more := Fields(r), if r.OpenRecord? then r.name else [];
    assert Layout(r) == Pack(fields) + more;
    FieldsFit(r);
    hide *;
    forall i | 0 <= i < |fields|
      ensures Reads(Pack(fields) + more, fields[i])
    {
      NumberAt(fields, i, more);
      ReadsIs(Pack(fields) + more, fields[i]);
    }
  }

  lemma ReadsIs(data: Bytes, f: Field)
    ensures Reads(data, f) <==> f.at + f.width <= |data| && Number(data, f.at, f.at + f.width) == f.value
  {
  }

  lemma SignedUnsigned(n: int, width: nat)
    requires width > 0 && -(Range(width) / 2) <= n < Range(width) / 2
    ensures Signed(Unsigned(n, width), width) == n
  {
    assert Range(width) == 256 * Range(width - 1);
  }

  lemma ReadNumbers(data: Bytes, f: Field)
    requires Reads(data, f)
    ensures f.width == 4 ==> U32(data, f.at) == f.value
    ensures f.width == 8 ==> U64(data, f.at) == f.value
    ensures f.width == 2 ==> U16(data, f.at) == f.value
  {
  }

  /** All numbers of a record, as the parser reads them. */
  lemma NumbersAt(r: Record)
    ensures forall i :: 0 <= i < |Fields(r)| ==>
              var f, data := Fields(r)[i], Layout(r);
              && f.at + f.width <= |data|
              && (f.width == 4 ==> U32(data, f.at) == f.value)
              && (f.width == 8 ==> U64(data, f.at) == f.value)
              && (f.width == 2 ==> U16(data, f.at) == f.value)
  {
    FieldsAt(r);
    hide Layout, Fields, U32, U64, U16, Number;
    forall i | 0 <= i < |Fields(r)| { ReadNumbers(Layout(r), Fields(r)[i]); }
  }

  lemma OpenNumbers(r: Record)
    requires r.OpenRecord? && |r.name| == MAX_FNAME_LEN
    ensures var data := Layout(r);
            && |data| == 288 && U32(data, 0) == EVENT_OPEN
            && U32(data, 4) == r.pid && U32(data, 8) == r.tid && U32(data, 12) == r.fd
            && U16(data, 16) == r.nameLen && U16(data, 18) == r.pathFlags
            && Signed(U32(data, 20), 4) == r.dirfd && U64(data, 24) == r.emitted
            && data[32..] == r.name
  {
    NumbersAt(r);
    FieldsFit(r);
    PackLength(Fields(r), 0);
    Ranges();
    SignedUnsigned(r.dirfd, 4);
    hide Layout, U32, U64, U16, Pack, Signed, Unsigned, Range, Contiguous;
    LayoutIs(r);
    var fields, data := Fields(r), Layout(r);
    assert fields[0].at == 0 && fields[1].at == 4 && fields[2].at == 8 && fields[3].at == 12;
    assert fields[4].at == 16 && fields[5].at == 18 && fields[6].at == 20 && fields[7].at == 24;
  }

  lemma LayoutIs(r: Record)
    ensures Layout(r) == Pack(Fields(r)) + if r.OpenRecord? then r.name else []
  {
  }

  lemma ParseOpenLayout(r: Record)
    requires WellFormed(r) && r.OpenRecord?
    ensures Parse(Layout(r)).Some? && Means(r, Parse(Layout(r)).value)
  {
    OpenNumbers(r);
    var data := Layout(r);
    hide Layout, U32, U64, U16, Signed, FlagsFit, Range;
    assert data[32..32 + r.nameLen] == data[32..][..r.nameLen];
    assert data[32 + r.nameLen..288] == data[32..][r.nameLen..];
  }

  lemma ParseIoLayout(r: Record)
    requires WellFormed(r) && r.IoRecord?
    ensures Parse(Layout(r)).Some? && Means(r, Parse(Layout(r)).value)
  {
    LayoutLength(r);
    NumbersAt(r);
    Ranges();
    SignedUnsigned(r.result, 8);
    hide Layout, U32, U64, U16, Signed, Unsigned, Range;
    var fields := Fields(r);
    assert fields[0].at == 0 && fields[1].at == 4 && fields[2].at == 8 && fields[3].at == 12;
    assert fields[4].at == 16 && fields[5].at == 24 && fields[6].at == 32;
  }

  lemma ParseRangeLayout(r: Record)
    requires r.RangeRecord? || r.FdRecord?
    ensures Parse(Layout(r)).Some? && Means(r, Parse(Layout(r)).value)
  {
    LayoutLength(r);
    NumbersAt(r);
    hide Layout, U32, U64, U16, Range;
    var fields := Fields(r);
    assert fields[0].at == 0 && fields[1].at == 4 && fields[2].at == 8 && fields[3].at == 12;
    assert fields[4].at == 16 && fields[5].at == 20 && fields[6].at == 24;
  }

  lemma ParseProcessLayout(r: Record)
    requires WellFormed(r) && r.ProcessRecord?
    ensures Parse(Layout(r)).Some? && Means(r, Parse(Layout(r)).value)
  {
    LayoutLength(r);
    NumbersAt(r);
    hide Layout, U32, U64, U16, Range;
    var fields := Fields(r);
    assert fields[0].at == 0 && fields[1].at == 4 && fields[2].at == 8;
  }

  /** The parser accepts every record the kernel side writes, and reads what it means. */
  lemma ParseLayout(r: Record)
    requires WellFormed(r)
    ensures Parse(Layout(r)).Some? && Means(r, Parse(Layout(r)).value)
  {
    hide *;
    match r
    case OpenRecord(_, _, _, _, _, _, _, _) => ParseOpenLayout(r);
    case IoRecord(_, _, _, _, _, _, _) => ParseIoLayout(r);
    case ProcessRecord(_, _, _) => ParseProcessLayout(r);
    case _ => ParseRangeLayout(r);
  }

  // --- Only well-formed opens are accepted ---

  lemma {:induction false} PackReads(fields: seq<Field>, start: nat, data: Bytes)
    requires Contiguous(fields, start) && start <= |data|
    requires forall i :: 0 <= i < |fields| ==>
               fields[i].at + fields[i].width <= |data|
               && Le(fields[i].value, fields[i].width) == data[fields[i].at..fields[i].at + fields[i].width]
    ensures start <= End(fields, start) <= |data| && Pack(fields) == data[start..End(fields, start)]
    decreases |fields|
  {
    if fields != [] {
      ContiguousRest(fields, start);
      hide Contiguous, Le;
      var next := start + fields[0].width;
      PackReads(fields[1..], next, data);
      assert data[start..next] + data[next..End(fields, start)] == data[start..End(fields, start)];
    }
  }

  lemma ReadBack(data: Bytes, at: nat, width: nat)
    requires at + width <= |data|
    ensures Le(Number(data, at, at + width), width) == data[at..at + width]
  {
    FromLeRoundTrip(data[at..at + width]);
  }

  /** The record at the front of an accepted open. */
  function OpenAt(data: Bytes): Record
    requires |data| >= 288
  {
    Ranges();
    OpenRecord(U32(data, 4), U32(data, 8), U32(data, 12), U16(data, 16), U16(data, 18), Signed(U32(data, 20), 4),
               U64(data, 24), data[32..288])
  }

  lemma UnsignedSigned(n: nat, width: nat)
    requires n < Range(width)
    ensures 0 <= Signed(n, width) + Range(width) && Signed(n, width) < Range(width)
    ensures Unsigned(Signed(n, width), width) == n
  {
  }

  lemma OpenAtLayout(data: Bytes)
    requires |data| >= 288 && U32(data, 0) == EVENT_OPEN
    ensures Layout(OpenAt(data)) == data[..288]
  {
    var r := OpenAt(data);
    var fields := Fields(r);
    FieldsFit(r);
    Ranges();
    UnsignedSigned(U32(data, 20), 4);
    ReadBack(data, 0, 4);
    ReadBack(data, 4, 4);
    ReadBack(data, 8, 4);
    ReadBack(data, 12, 4);
    ReadBack(data, 16, 2);
    ReadBack(data, 18, 2);
    ReadBack(data, 20, 4);
    ReadBack(data, 24, 8);
    hide Le, Range, Number, Signed, Unsigned, Pack;
    assert forall i :: 0 <= i < 8 ==>
      fields[i].at + fields[i].width <= |data|
      && Le(fields[i].value, fields[i].width) == data[fields[i].at..fields[i].at + fields[i].width];
    PackReads(fields, 0, data);
    assert data[0..32] + data[32..288] == data[..288];
  }

  /** An open is accepted exactly when its first 288 bytes are the layout of a well-formed
      record; what follows is ignored. */
  lemma AcceptedIffWellFormed(data: Bytes)
    requires |data| >= 288 && U32(data, 0) == EVENT_OPEN
    ensures Parse(data).Some? <==> WellFormed(OpenAt(data))
    ensures Parse(data).Some? ==> Means(OpenAt(data), Parse(data).value) && Layout(OpenAt(data)) == data[..288]
  {
    OpenAtLayout(data);
    hide U32, U64, U16, Signed, FlagsFit, Layout;
    var length := U16(data, 16);
    if length <= MAX_FNAME_LEN {
      assert data[32..288][..length] == data[32..32 + length];
      assert data[32..288][length..] == data[32 + length..288];
    }
  }

  /** Which data is accepted at all: known kinds of sufficient length, and of the opens those
      whose flags, length, name and padding fit together. */
  lemma AcceptedKinds(data: Bytes)
    ensures Parse(data).Some?
       <==> |data| >= 4
            && match U32(data, 0)
               case 1 =>
                 |data| >= 288
                 && var length, flags := U16(data, 16), U16(data, 18);
                 && length <= 256 && (flags == 0 || flags == 1 || ((flags == 2 || flags == 3) && length == 0))
                 && (forall i :: 32 <= i < 32 + length ==> data[i] != 0)
                 && (forall i :: 32 + length <= i < 288 ==> data[i] == 0)
               case 2 => |data| >= 40
               case 3 => |data| >= 40
               case 4 => |data| >= 40
               case 5 => |data| >= 32
               case 6 => |data| >= 32
               case 7 => |data| >= 16
               case 8 => |data| >= 16
               case _ => false
  {
    hide U32, U64, U16, Signed;
    if |data| >= 288 && U32(data, 0) == 1 && U16(data, 16) <= 256 {
      FlagsAccepted(U16(data, 18), U16(data, 16));
      NameAndPadding(data, U16(data, 16));
      hide FlagsFit, Zeros;
    }
  }

  lemma FlagsAccepted(flags: u16, length: nat)
    ensures FlagsFit(flags, length) <==> flags == 0 || flags == 1 || ((flags == 2 || flags == 3) && length == 0)
  {
  }

  lemma NameAndPadding(data: Bytes, length: nat)
    requires |data| >= 288 && length <= 256
    ensures 0 !in data[32..32 + length] <==> forall i :: 32 <= i < 32 + length ==> data[i] != 0
    ensures Zeros(data[32 + length..288]) <==> forall i :: 32 + length <= i < 288 ==> data[i] == 0
  {
    var name, padding := data[32..32 + length], data[32 + length..288];
    assert forall i :: 32 <= i < 32 + length ==> data[i] == name[i - 32];
    assert forall i :: 0 <= i < |name| ==> name[i] == data[i + 32];
    assert forall i :: 32 + length <= i < 288 ==> data[i] == padding[i - 32 - length];
    assert forall i :: 0 <= i < |padding| ==> padding[i] == data[i + 32 + length];
  }
}
