/** The scan of an Ogg stream for the length of its Opus audio (`getOpusDuration`).

    A page (section 6 of RFC 3533) is a 27-byte header beginning with "OggS", a table of as many segment
    sizes as the last header byte says, and a payload of the sum of those sizes.  Bytes 6 to 13 of the header
    are the granule position, a signed little-endian count of samples at 48 kHz (section 4 of RFC 7845). */
module OpusScan {
  import opened Wrappers

  const SYNC: seq<Byte> := [0x4F, 0x67, 0x67, 0x53]  // "OggS"
  const HEADER := 27

  lemma SyncIsOggS()
    ensures |SYNC| == 4 && forall i :: 0 <= i < 4 ==> SYNC[i] == "OggS"[i] as int
  {
  }

  function LittleEndian(bytes: seq<Byte>): (n: nat) {
    if bytes == [] then 0 else bytes[0] + 256 * LittleEndian(bytes[1..])
  }

  /** `int64(uint64)`. */
  function Signed64(n: int): (v: int) {
    if n >= 0x8000_0000_0000_0000 then n - 0x1_0000_0000_0000_0000 else n
  }

  function GranuleOf(header: seq<Byte>): (g: int)
    requires |header| >= 14
  {
    Signed64(LittleEndian(header[6..14]))
  }

  /** `k` bytes of `n`, lowest first: the encoder's side. */
  function Encoded(n: nat, k: nat): (bytes: seq<Byte>)
    ensures |bytes| == k
  {
    if k == 0 then [] else [n % 256] + Encoded(n / 256, k - 1)
  }

  function Pow256(k: nat): (n: nat) {
    if k == 0 then 1 else 256 * Pow256(k - 1)
  }

  lemma {:induction false} DecodesEncoded(n: nat, k: nat)
    requires n < Pow256(k)
    ensures LittleEndian(Encoded(n, k)) == n
  {
    if k > 0 {
      DecodesEncoded(n / 256, k - 1);
      assert Encoded(n, k)[1..] == Encoded(n / 256, k - 1);
    }
  }

  /** A header into which an encoder wrote the 64-bit two's complement of `g` reads back as `g`. */
  lemma GranuleRoundTrip(header: seq<Byte>, g: int)
    requires |header| == HEADER && -0x8000_0000_0000_0000 <= g < 0x8000_0000_0000_0000
    requires header[6..14] == Encoded(if g < 0 then g + 0x1_0000_0000_0000_0000 else g, 8)
    ensures GranuleOf(header) == g
  {
    assert Pow256(4) == 0x1_0000_0000;
    assert Pow256(8) == 0x1_0000_0000_0000_0000;
    DecodesEncoded(if g < 0 then g + 0x1_0000_0000_0000_0000 else g, 8);
  }

  function Sum(sizes: seq<Byte>): (n: nat) {
    if sizes == [] then 0 else Sum(sizes[..|sizes| - 1]) + sizes[|sizes| - 1]
  }

  predicate HasSync(data: seq<Byte>, pos: nat) {
    && pos + 4 <= |data|
    && data[pos] == SYNC[0] && data[pos + 1] == SYNC[1] && data[pos + 2] == SYNC[2] && data[pos + 3] == SYNC[3]
  }

  /** Where the page at `pos` ends; None when its segment table is cut short. */
  function PageEnd(data: seq<Byte>, pos: nat): (end: Option<nat>)
    requires pos + HEADER <= |data|
    ensures end.Some? ==> end.value >= pos + HEADER
  {
    var table := pos + HEADER;
    var segments := data[pos + HEADER - 1];
    if table + segments > |data| then None else Some(table + segments + Sum(data[table..table + segments]))
  }

  /** Every offset leaves room for a header. */
  predicate Fits(data: seq<Byte>, starts: seq<nat>) {
    forall i :: 0 <= i < |starts| ==> starts[i] + HEADER <= |data|
  }

  /** The offsets at which the scan, started at `pos`, reads a page header. */
  function Visits(data: seq<Byte>, pos: nat): (starts: seq<nat>)
    ensures Fits(data, starts)
    decreases if pos <= |data| then |data| - pos else 0
  {
    if pos + HEADER > |data| then []
    else if !HasSync(data, pos) then Visits(data, pos + 1)
    else
      var next := PageEnd(data, pos);
      [pos] + (if next.Some? then Visits(data, next.value) else [])
  }

  /** The larger of zero and all granule positions at the given offsets. */
  function Best(data: seq<Byte>, starts: seq<nat>): (g: int)
    requires Fits(data, starts)
    ensures g >= 0
  {
    if starts == [] then 0
    else
      var last := starts[|starts| - 1];
      var front := Best(data, starts[..|starts| - 1]);
      var here := GranuleOf(data[last..last + HEADER]);
      if here > front then here else front
  }

  lemma BestSnoc(data: seq<Byte>, starts: seq<nat>, s: nat)
    requires Fits(data, starts) && s + HEADER <= |data|
    ensures Fits(data, starts + [s])
    ensures var g := GranuleOf(data[s..s + HEADER]);
            Best(data, starts + [s]) == if g > Best(data, starts) then g else Best(data, starts)
  {
    assert (starts + [s])[..|starts|] == starts;
  }

  /** The loop that adds up the segment table. */
  method PageSize(table: seq<Byte>) returns (size: nat)
    ensures size == Sum(table)
  {
    size := 0;
    assert table[..0] == [];
    for i := 0 to |table|
      invariant size == Sum(table[..i])
    {
      assert table[..i + 1][..i] == table[..i];
      size := size + table[i];
    }
    assert table[..|table|] == table;
  }

  /** The rest of a page whose header `buf` has been read: its granule position, and the position after the
      payload unless the segment table is cut short. */
  method ReadPage(data: seq<Byte>, pos: nat, buf: seq<Byte>) returns (granule: int, next: Option<nat>)
    requires HEADER <= pos <= |data| && buf == data[pos - HEADER..pos]
    ensures granule == GranuleOf(buf) && next == PageEnd(data, pos - HEADER)
  {
    granule := GranuleOf(buf);
    var segments := buf[26];
    if pos + segments > |data| {
      return granule, None;
    }
    var size := PageSize(data[pos..pos + segments]);
    return granule, Some(pos + segments + size);
  }

  lemma SameSync(data: seq<Byte>, pos: nat, buf: seq<Byte>)
    requires pos + HEADER <= |data| && buf == data[pos..pos + HEADER]
    ensures buf[0..4] == SYNC <==> HasSync(data, pos)
    ensures buf[26] == data[pos + HEADER - 1]
  {
    assert buf[0..4] == [buf[0], buf[1], buf[2], buf[3]];
  }

  /** A page whose segment table is cut off is the last one visited. */
  lemma TruncatedPageEnds(data: seq<Byte>, pos: nat)
    requires pos + HEADER <= |data| && HasSync(data, pos) && pos + HEADER + data[pos + 26] > |data|
    ensures Visits(data, pos) == [pos]
  {
  }

  lemma VisitNone(data: seq<Byte>, pos: nat)
    ensures pos + HEADER > |data| ==> Visits(data, pos) == []
    ensures pos + HEADER <= |data| && !HasSync(data, pos) ==> Visits(data, pos) == Visits(data, pos + 1)
  {
  }

  lemma Reassociate<T>(a: seq<T>, x: T, b: seq<T>)
    ensures a + ([x] + b) == a + [x] + b
    ensures (a == [] ==> a + b == b) && (b == [] ==> a + b == a)
  {
  }

  /** The scan over a seekable reader of `data`; a read delivers all the bytes it can, and a seek past the
      end succeeds.  It ends on every input. */
  method ScanPages(data: seq<Byte>) returns (total: int, visited: seq<nat>)
    ensures visited == Visits(data, 0)
    ensures total == Best(data, visited)
  {
    var pos: nat := 0;
    total, visited := 0, [];
    ghost var todo := Visits(data, 0);
    Reassociate(visited, 0, todo);
    while true
      invariant Fits(data, visited) && todo == Visits(data, pos)
      invariant visited + todo == Visits(data, 0)
      invariant total == Best(data, visited)
      decreases if pos <= |data| then |data| + 1 - pos else 0
    {
      VisitNone(data, pos);
      if pos >= |data| {
        break;  // io.EOF
      }
      var n := if pos + HEADER <= |data| then HEADER else |data| - pos;
      var buf := data[pos..pos + n];
      pos := pos + n;
      if n < HEADER {
        break;
      }
      SameSync(data, pos - HEADER, buf);
      if buf[0..4] != SYNC {
        pos := pos - 26;
        continue;
      }
      var granule, next := ReadPage(data, pos, buf);
      BestSnoc(data, visited, pos - HEADER);
      if granule > total {
        total := granule;
      }
      todo := if next.Some? then Visits(data, next.value) else [];
      Reassociate(visited, pos - HEADER, todo);
      visited := visited + [pos - HEADER];
      if next == None {
        break;
      }
      pos := next.value;
    }
    Reassociate(visited, 0, todo);
  }

  /** Opus always counts samples at 48 kHz. */
  method GetOpusDuration(data: seq<Byte>) returns (seconds: real)
    ensures seconds == Best(data, Visits(data, 0)) as real / 48000.0
  {
    var total, _ := ScanPages(data);
    seconds := total as real / 48000.0;
  }

  // ---- Well-formed streams ------------------------------------------------------------------------------

  datatype Page = Page(header: seq<Byte>, table: seq<Byte>, payload: seq<Byte>)

  predicate WellFormed(p: Page) {
    && |p.header| == HEADER && HasSync(p.header, 0)
    && p.header[HEADER - 1] == |p.table|
    && |p.payload| == Sum(p.table)
  }

  function Bytes(p: Page): (r: seq<Byte>) {
    p.header + p.table + p.payload
  }

  /** Bytes to skip, then a page. */
  datatype Item = Item(gap: seq<Byte>, page: Page)

  function Stream(items: seq<Item>, tail: seq<Byte>): (r: seq<Byte>) {
    if items == [] then tail else items[0].gap + Bytes(items[0].page) + Stream(items[1..], tail)
  }

  /** Where the pages of a stream laid out from `at` begin. */
  function PageStarts(items: seq<Item>, at: nat): (r: seq<nat>) {
    if items == [] then []
    else
      var start := at + |items[0].gap|;
      [start] + PageStarts(items[1..], start + |Bytes(items[0].page)|)
  }

  /** No sync pattern begins at an offset in [from, to). */
  ghost predicate Quiet(data: seq<Byte>, from: nat, to: nat) {
    forall i :: from <= i < to ==> !HasSync(data, i)
  }

  /** No sync pattern begins inside a gap or the tail; payloads are unrestricted. */
  ghost predicate QuietGaps(data: seq<Byte>, items: seq<Item>, at: nat) {
    if items == [] then Quiet(data, at, |data|)
    else
      var start := at + |items[0].gap|;
      Quiet(data, at, start) && QuietGaps(data, items[1..], start + |Bytes(items[0].page)|)
  }

  lemma {:induction false} SkipQuiet(data: seq<Byte>, from: nat, to: nat)
    requires from <= to && Quiet(data, from, to) && to + HEADER <= |data|
    ensures Visits(data, from) == Visits(data, to)
    decreases if from <= to then to - from else 0
  {
    if from < to {
      SkipQuiet(data, from + 1, to);
    }
  }

  lemma {:induction false} QuietTail(data: seq<Byte>, from: nat)
    requires Quiet(data, from, |data|)
    ensures Visits(data, from) == []
    decreases if from <= |data| then |data| - from else 0
  {
    if from + HEADER <= |data| {
      QuietTail(data, from + 1);
    }
  }

  /** A slice of a slice. */
  lemma Within<T>(data: seq<T>, start: nat, b: seq<T>, i: nat, j: nat)
    requires start + |b| <= |data| && data[start..start + |b|] == b && i <= j <= |b|
    ensures data[start + i..start + j] == b[i..j]
  {
    forall k | 0 <= k < j - i ensures data[start + i..start + j][k] == b[i..j][k] {
      assert b[i + k] == data[start..start + |b|][i + k] == data[start + i + k];
    }
  }

  /** The scan steps from the start of a well-formed page to its end. */
  lemma StepOverPage(data: seq<Byte>, start: nat, p: Page)
    requires WellFormed(p) && start + |Bytes(p)| <= |data| && data[start..start + |Bytes(p)|] == Bytes(p)
    ensures HasSync(data, start) && PageEnd(data, start) == Some(start + |Bytes(p)|)
    ensures data[start..start + HEADER] == p.header
  {
    var b, t := Bytes(p), HEADER + |p.table|;
    Within(data, start, b, 0, HEADER);
    Within(data, start, b, HEADER, t);
    assert b[0..HEADER] == p.header && b[HEADER..t] == p.table;
    SameSync(data, start, p.header);
    SameSync(p.header, 0, p.header);
    assert data[start + HEADER..start + t] == p.table;
  }

  predicate AllWellFormed(items: seq<Item>) {
    forall i :: 0 <= i < |items| ==> WellFormed(items[i].page)
  }

  /** The granule positions of the pages, in order. */
  function Granules(items: seq<Item>): (r: seq<int>)
    requires AllWellFormed(items)
    ensures |r| == |items|
  {
    if items == [] then [] else [GranuleOf(items[0].page.header)] + Granules(items[1..])
  }

  /** One item of a stream: the gap is skipped, the page is visited. */
  lemma ScanItem(data: seq<Byte>, gap: seq<Byte>, page: Page, at: nat)
    requires WellFormed(page) && Quiet(data, at, at + |gap|)
    requires var start := at + |gap|; start + |Bytes(page)| <= |data| && data[start..start + |Bytes(page)|] == Bytes(page)
    ensures Visits(data, at) == [at + |gap|] + Visits(data, at + |gap| + |Bytes(page)|)
  {
    StepOverPage(data, at + |gap|, page);
    SkipQuiet(data, at, at + |gap|);
  }

  /** The pages lie where the gaps put them. */
  ghost predicate LaidOut(data: seq<Byte>, items: seq<Item>, at: nat) {
    items == [] ||
    var start := at + |items[0].gap|;
    var next := start + |Bytes(items[0].page)|;
    next <= |data| && data[start..next] == Bytes(items[0].page) && LaidOut(data, items[1..], next)
  }

  lemma {:induction false} StreamIsLaidOut(data: seq<Byte>, items: seq<Item>, tail: seq<Byte>, at: nat)
    requires at <= |data| && data[at..] == Stream(items, tail)
    ensures LaidOut(data, items, at)
  {
    if items != [] {
      var gap, bytes := items[0].gap, Bytes(items[0].page);
      LayOut(data, at, gap, bytes, Stream(items[1..], tail));
      StreamIsLaidOut(data, items[1..], tail, at + |gap| + |bytes|);
    }
  }

  lemma {:induction false} ScanFindsPages(data: seq<Byte>, items: seq<Item>, at: nat)
    requires LaidOut(data, items, at) && QuietGaps(data, items, at) && AllWellFormed(items)
    ensures Visits(data, at) == PageStarts(items, at)
  {
    if items == [] {
      QuietTail(data, at);
    } else {
      var start, rest := at + |items[0].gap|, items[1..];
      var next := start + |Bytes(items[0].page)|;
      assert Visits(data, at) == [start] + Visits(data, next) by {
        ScanItem(data, items[0].gap, items[0].page, at);
      }
      assert Visits(data, next) == PageStarts(rest, next) by {
        ScanFindsPages(data, rest, next);
      }
    }
  }

  lemma {:induction false} ScanReadsGranules(data: seq<Byte>, items: seq<Item>, at: nat)
    requires LaidOut(data, items, at) && AllWellFormed(items)
    ensures AreGranules(data, PageStarts(items, at), Granules(items))
  {
    if items != [] {
      var start, page := at + |items[0].gap|, items[0].page;
      var next := start + |Bytes(page)|;
      StepOverPage(data, start, page);
      ScanReadsGranules(data, items[1..], next);
      GranulesCons(data, start, page.header, PageStarts(items[1..], next), Granules(items[1..]));
    }
  }

  lemma GranulesCons(data: seq<Byte>, s: nat, header: seq<Byte>, starts: seq<nat>, gs: seq<int>)
    requires AreGranules(data, starts, gs) && |header| == HEADER && s + HEADER <= |data| && data[s..s + HEADER] == header
    ensures AreGranules(data, [s] + starts, [GranuleOf(header)] + gs)
  {
  }

  /** `gs` are the granule positions in the headers at `starts`. */
  ghost predicate AreGranules(data: seq<Byte>, starts: seq<nat>, gs: seq<int>) {
    && Fits(data, starts) && |gs| == |starts|
    && forall i :: 0 <= i < |gs| ==> GranuleOf(data[starts[i]..starts[i] + HEADER]) == gs[i]
  }

  lemma LayOut<T>(data: seq<T>, at: nat, a: seq<T>, b: seq<T>, c: seq<T>)
    requires at <= |data| && data[at..] == a + b + c
    ensures at + |a| + |b| + |c| == |data|
    ensures data[at + |a|..at + |a| + |b|] == b && data[at + |a| + |b|..] == c
  {
    var d := data[at..];
    assert data[at + |a|..at + |a| + |b|] == d[|a|..|a| + |b|];
    assert data[at + |a| + |b|..] == d[|a| + |b|..];
  }

  function MaxOrZero(gs: seq<int>): (m: int)
    ensures m >= 0 && forall i :: 0 <= i < |gs| ==> gs[i] <= m
    ensures m == 0 || exists i :: 0 <= i < |gs| && gs[i] == m
  {
    if gs == [] then 0
    else
      var m := MaxOrZero(gs[..|gs| - 1]);
      if gs[|gs| - 1] > m then gs[|gs| - 1] else m
  }

  lemma {:induction false} BestIsMax(data: seq<Byte>, starts: seq<nat>, gs: seq<int>)
    requires AreGranules(data, starts, gs)
    ensures Best(data, starts) == MaxOrZero(gs)
  {
    if starts != [] {
      BestIsMax(data, starts[..|starts| - 1], gs[..|gs| - 1]);
    }
  }

  /** On well-formed pages, separated and followed by bytes in which no sync pattern begins, the scan visits
      exactly the page starts and yields the maximum of zero and the signed granule positions of the pages. */
  lemma ScanIsExact(items: seq<Item>, tail: seq<Byte>)
    requires AllWellFormed(items)
    requires QuietGaps(Stream(items, tail), items, 0)
    ensures var data := Stream(items, tail);
            && Visits(data, 0) == PageStarts(items, 0)
            && Best(data, Visits(data, 0)) == MaxOrZero(Granules(items))
  {
    var data := Stream(items, tail);
    assert data[0..] == data;
    StreamIsLaidOut(data, items, tail, 0);
    ScanFindsPages(data, items, 0);
    ScanReadsGranules(data, items, 0);
    BestIsMax(data, Visits(data, 0), Granules(items));
  }
}
