/** The two request-body storages behind one interface: a reader over a byte slice in memory, and a temporary
    file on disk whose operations succeed. */
module BodyStorage {
  import opened Wrappers

  datatype Whence = FromStart | FromCurrent | FromEnd

  datatype Op = Read(max: nat) | Seek(offset: int, whence: Whence) | Bytes | Close

  datatype Reply = Data(bytes: seq<Byte>) | Eof | Position(at: int) | Done | BadSeek | ErrClosed

  /** What one call leaves behind and returns. */
  datatype Result<S> = Result(state: S, reply: Reply)

  function Target(pos: int, size: int, offset: int, whence: Whence): (at: int) {
    match whence
    case FromStart => offset
    case FromCurrent => pos + offset
    case FromEnd => size + offset
  }

  // ---- Memory: bytes.Reader ----------------------------------------------------------------------------------

  datatype Memory = Memory(data: seq<Byte>, pos: nat, closed: bool)

  function MemoryStep(m: Memory, op: Op): (r: Result<Memory>) {
    if op.Close? then Result(m.(closed := true), Done)
    else if m.closed then Result(m, ErrClosed)
    else match op
      case Read(max) =>
        if m.pos >= |m.data| then Result(m, Eof)
        else
          var n := if m.pos + max <= |m.data| then max else |m.data| - m.pos;
          Result(m.(pos := m.pos + n), Data(m.data[m.pos..m.pos + n]))
      case Seek(offset, whence) =>
        var at := Target(m.pos, |m.data|, offset, whence);
        if at < 0 then Result(m, BadSeek) else Result(m.(pos := at), Position(at))
      case Bytes => Result(m, Data(m.data))
      case Close => Result(m, Done)
  }

  class MemoryStorage {
    const data: seq<Byte>
    var pos: nat
    var closed: bool

    constructor (data: seq<Byte>)
      ensures Value() == Memory(data, 0, false)
    {
      this.data, pos, closed := data, 0, false;
    }

    ghost function Value(): (m: Memory)
      reads this
    {
      Memory(data, pos, closed)
    }

    method Call(op: Op) returns (reply: Reply)
      modifies this
      ensures Result(Value(), reply) == MemoryStep(old(Value()), op)
    {
      match op {
        case Close =>
          closed := true;
          return Done;
        case Read(max) =>
          if closed { return ErrClosed; }
          if pos >= |data| { return Eof; }
          var n := if pos + max <= |data| then max else |data| - pos;
          reply := Data(data[pos..pos + n]);
          pos := pos + n;
        case Seek(offset, whence) =>
          if closed { return ErrClosed; }
          var at := Target(pos, |data|, offset, whence);
          if at < 0 { return BadSeek; }
          pos := at;
          return Position(at);
        case Bytes =>
          if closed { return ErrClosed; }
          return Data(data);
      }
    }
  }

  // ---- Disk: os.File -----------------------------------------------------------------------------------------

  class OsFile {
    const contents: seq<Byte>
    var pos: nat

    constructor (contents: seq<Byte>)
      ensures this.contents == contents && pos == 0
    {
      this.contents, pos := contents, 0;
    }

    /** An empty buffer reads nothing and reports no error, even at the end of the file. */
    method Read(max: nat) returns (got: seq<Byte>, eof: bool)
      modifies this
      ensures eof <==> max > 0 && old(pos) >= |contents|
      ensures old(pos) >= |contents| ==> got == [] && pos == old(pos)
      ensures old(pos) < |contents| ==>
                && pos == (if old(pos) + max <= |contents| then old(pos) + max else |contents|)
                && got == contents[old(pos)..pos]
    {
      if pos >= |contents| {
        return [], max > 0;
      }
      var n := if pos + max <= |contents| then max else |contents| - pos;
      got := contents[pos..pos + n];
      pos := pos + n;
      eof := false;
    }

    method Seek(offset: int, whence: Whence) returns (at: int, ok: bool)
      modifies this
      ensures ok <==> Target(old(pos), |contents|, offset, whence) >= 0
      ensures if ok then pos == at == Target(old(pos), |contents|, offset, whence) else pos == old(pos) && at == 0
    {
      at := Target(pos, |contents|, offset, whence);
      ok := at >= 0;
      if ok { pos := at; } else { at := 0; }
    }

    /** `io.ReadFull`: reads until the buffer is full or the file ends. */
    method ReadFull(size: nat) returns (got: seq<Byte>, ok: bool)
      modifies this
      ensures ok <==> size == 0 || old(pos) + size <= |contents|
      ensures ok && size > 0 ==> got == contents[old(pos)..old(pos) + size]
      ensures ok ==> |got| == size
    {
      got := [];
      var start := pos;
      while |got| < size
        invariant |got| <= size && (got == [] ==> pos == start)
        invariant got != [] ==> pos == start + |got| <= |contents| && got == contents[start..pos]
        decreases size - |got|
      {
        var more, eof := Read(size - |got|);
        if eof { return got, false; }
        got := got + more;
      }
      ok := true;
    }
  }

  /** `size` is the number of bytes written when the file was created. */
  datatype Disk = Disk(contents: seq<Byte>, pos: nat, size: nat, closed: bool)

  function DiskStep(d: Disk, op: Op): (r: Result<Disk>) {
    if op.Close? then Result(d.(closed := true), Done)
    else if d.closed then Result(d, ErrClosed)
    else match op
      case Read(max) =>
        if d.pos >= |d.contents| then Result(d, if max > 0 then Eof else Data([]))
        else
          var end := if d.pos + max <= |d.contents| then d.pos + max else |d.contents|;
          Result(d.(pos := end), Data(d.contents[d.pos..end]))
      case Seek(offset, whence) =>
        var at := Target(d.pos, |d.contents|, offset, whence);
        if at < 0 then Result(d, BadSeek) else Result(d.(pos := at), Position(at))
      case Bytes => Result(d, Data(d.contents))
      case Close => Result(d, Done)
  }

  class DiskStorage {
    const file: OsFile
    const size: nat
    var closed: bool

    constructor (data: seq<Byte>)
      ensures fresh(file) && Valid() && Value() == Disk(data, 0, |data|, false)
    {
      file := new OsFile(data);
      size, closed := |data|, false;
    }

    ghost predicate Valid()
      reads this, file
    {
      size == |file.contents|
    }

    ghost function Value(): (d: Disk)
      reads this, file
    {
      Disk(file.contents, file.pos, size, closed)
    }

    /** Saves the position, rewinds, reads everything, and puts the position back. */
    method ReadAll() returns (data: seq<Byte>, ok: bool)
      requires Valid()
      modifies file
      ensures ok && data == file.contents && file.pos == old(file.pos)
    {
      var current, _ := file.Seek(0, FromCurrent);
      var _, _ := file.Seek(0, FromStart);
      data, ok := file.ReadFull(size);
      if !ok { return; }
      var _, _ := file.Seek(current, FromStart);
    }

    method Call(op: Op) returns (reply: Reply)
      requires Valid()
      modifies this, file
      ensures Valid() && Result(Value(), reply) == DiskStep(old(Value()), op)
    {
      match op {
        case Close =>
          closed := true;
          return Done;
        case Read(max) =>
          if closed { return ErrClosed; }
          var got, eof := file.Read(max);
          return if eof then Eof else Data(got);
        case Seek(offset, whence) =>
          if closed { return ErrClosed; }
          var at, ok := file.Seek(offset, whence);
          return if ok then Position(at) else BadSeek;
        case Bytes =>
          if closed { return ErrClosed; }
          var data, _ := ReadAll();
          return Data(data);
      }
    }
  }

  /** What the calls mean, in positions: a seek goes to the offset counted from the start, the current position or the
      end, unless that is negative; the whole body is returned from anywhere; a closed storage answers nothing else. */
  lemma CallsMean(m: Memory, offset: int, whence: Whence)
    ensures var at := if whence == FromStart then offset else if whence == FromCurrent then m.pos + offset else |m.data| + offset;
            !m.closed ==>
              MemoryStep(m, Seek(offset, whence)) == if at >= 0 then Result(m.(pos := at), Position(at)) else Result(m, BadSeek)
    ensures !m.closed ==> MemoryStep(m, Bytes) == Result(m, Data(m.data))
    ensures forall n: nat :: !m.closed ==>
              MemoryStep(m, Read(n)).reply == if m.pos >= |m.data| then Eof else Data(m.data[m.pos..Clipped(m.pos + n, |m.data|)])
    ensures forall op: Op :: !op.Close? && m.closed ==> MemoryStep(m, op) == Result(m, ErrClosed)
    ensures MemoryStep(m, Close) == Result(m.(closed := true), Done)
  {
  }

  // ---- Indistinguishable --------------------------------------------------------------------------------------

  /** Both hold the same body at the same place. */
  predicate Same(m: Memory, d: Disk) {
    m.data == d.contents && m.pos == d.pos && m.closed == d.closed
  }

  /** The one call on which the two disagree: an empty read at or past the end of an open body. */
  predicate Differs(m: Memory, op: Op) {
    op == Read(0) && !m.closed && m.pos >= |m.data|
  }

  /** One call is answered alike if and only if it is not that one; the bodies stay the same either way. */
  lemma SameAnswerIff(m: Memory, d: Disk, op: Op)
    requires Same(m, d)
    ensures MemoryStep(m, op).reply == DiskStep(d, op).reply <==> !Differs(m, op)
    ensures Same(MemoryStep(m, op).state, DiskStep(d, op).state)
  {
  }

  function MemoryReplies(m: Memory, ops: seq<Op>): (rs: seq<Reply>)
    decreases |ops|
  {
    if ops == [] then [] else [MemoryStep(m, ops[0]).reply] + MemoryReplies(MemoryStep(m, ops[0]).state, ops[1..])
  }

  function DiskReplies(d: Disk, ops: seq<Op>): (rs: seq<Reply>)
    decreases |ops|
  {
    if ops == [] then [] else [DiskStep(d, ops[0]).reply] + DiskReplies(DiskStep(d, ops[0]).state, ops[1..])
  }

  /** No sequence of calls without empty reads tells the storages apart. */
  lemma {:induction false} Indistinguishable(m: Memory, d: Disk, ops: seq<Op>)
    requires Same(m, d) && forall i :: 0 <= i < |ops| ==> ops[i] != Read(0)
    ensures MemoryReplies(m, ops) == DiskReplies(d, ops)
    decreases |ops|
  {
    if ops != [] {
      SameAnswerIff(m, d, ops[0]);
      Indistinguishable(MemoryStep(m, ops[0]).state, DiskStep(d, ops[0]).state, ops[1..]);
    }
  }

  /** The bytes that reads of the given sizes return, one after the other. */
  function BytesRead(m: Memory, sizes: seq<nat>): (bytes: seq<Byte>)
    decreases |sizes|
  {
    if sizes == [] then []
    else
      var r := MemoryStep(m, Read(sizes[0]));
      (if r.reply.Data? then r.reply.bytes else []) + BytesRead(r.state, sizes[1..])
  }

  function Total(sizes: seq<nat>): (n: nat) {
    if sizes == [] then 0 else sizes[0] + Total(sizes[1..])
  }

  function Clipped(at: int, size: nat): (n: int) {
    if at <= size then at else size
  }

  lemma SliceJoin<T>(xs: seq<T>, a: nat, b: nat, c: nat, first: seq<T>, rest: seq<T>)
    requires a <= b <= c <= |xs| && first == xs[a..b] && rest == xs[b..c]
    ensures first + rest == xs[a..c]
  {
  }

  lemma EmptySlice<T>(xs: seq<T>, a: nat)
    requires a <= |xs|
    ensures xs[a..a] == []
  {
  }

  lemma ReadStep(m: Memory, n: nat)
    requires !m.closed && m.pos <= |m.data|
    ensures var r := MemoryStep(m, Read(n)); var end := Clipped(m.pos + n, |m.data|);
            r.state == m.(pos := end) && (if r.reply.Data? then r.reply.bytes else []) == m.data[m.pos..end]
  {
    assert m.pos >= |m.data| ==> m.data[m.pos..|m.data|] == [];
  }

  lemma ReadsUnfold(m: Memory, sizes: seq<nat>)
    requires !m.closed && m.pos <= |m.data| && sizes != []
    ensures var end := Clipped(m.pos + sizes[0], |m.data|);
            BytesRead(m, sizes) == m.data[m.pos..end] + BytesRead(m.(pos := end), sizes[1..])
  {
    ReadStep(m, sizes[0]);
  }

  lemma ClippedTwice(at: nat, n: nat, rest: nat, size: nat)
    requires at <= size
    ensures Clipped(Clipped(at + n, size) + rest, size) == Clipped(at + n + rest, size)
    ensures at <= Clipped(at + n, size) <= Clipped(at + n + rest, size) <= size
  {
  }

  /** Reads of any sizes deliver the rest of an open body in order, up to what they asked for. */
  lemma {:induction false} ReadsDeliverInOrder(m: Memory, sizes: seq<nat>)
    requires !m.closed && m.pos <= |m.data|
    ensures BytesRead(m, sizes) == m.data[m.pos..Clipped(m.pos + Total(sizes), |m.data|)]
    decreases |sizes|
  {
    if sizes == [] {
      EmptySlice(m.data, m.pos);
    } else {
      var end, last := Clipped(m.pos + sizes[0], |m.data|), Clipped(m.pos + Total(sizes), |m.data|);
      ReadsUnfold(m, sizes);
      ClippedTwice(m.pos, sizes[0], Total(sizes[1..]), |m.data|);
      ReadsDeliverInOrder(m.(pos := end), sizes[1..]);
      SliceJoin(m.data, m.pos, end, last, m.data[m.pos..end], BytesRead(m.(pos := end), sizes[1..]));
    }
  }
}
