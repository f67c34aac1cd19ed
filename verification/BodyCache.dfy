/** Creating and closing request-body storages: the admission test of the disk cache and the usage counters. */
module BodyCache {
  datatype Config = Config(enabled: bool, threshold: int, maxSize: int)

  /** `DiskCacheStats`, without the hit counters. */
  datatype Stats = Stats(diskFiles: int, diskBytes: int, buffers: int, bufferBytes: int)

  const NO_USAGE := Stats(0, 0, 0, 0)

  datatype Storage = Storage(disk: bool, size: nat, closed: bool)

  datatype Cache = Cache(stats: Stats, storages: seq<Storage>)

  function AtLeastZero(n: int): (m: int) {
    if n < 0 then 0 else n
  }

  function Incremented(st: Stats, disk: bool, size: nat): (st': Stats) {
    if disk then st.(diskFiles := st.diskFiles + 1, diskBytes := st.diskBytes + size)
    else st.(buffers := st.buffers + 1, bufferBytes := st.bufferBytes + size)
  }

  /** The disk counters are clamped at zero, the memory counters are not. */
  function Decremented(st: Stats, disk: bool, size: nat): (st': Stats) {
    if disk then st.(diskFiles := AtLeastZero(st.diskFiles - 1), diskBytes := AtLeastZero(st.diskBytes - size))
    else st.(buffers := st.buffers - 1, bufferBytes := st.bufferBytes - size)
  }

  predicate IsDiskCacheAvailable(cfg: Config, st: Stats, request: int) {
    cfg.enabled && st.diskBytes + request <= cfg.maxSize
  }

  function Added(c: Cache, disk: bool, size: nat): (c': Cache) {
    Cache(Incremented(c.stats, disk, size), c.storages + [Storage(disk, size, false)])
  }

  /** `CreateBodyStorage` falls back to memory when the file cannot be written. */
  function Created(c: Cache, cfg: Config, size: nat, diskOk: bool): (c': Cache) {
    Added(c, cfg.enabled && size >= cfg.threshold && IsDiskCacheAvailable(cfg, c.stats, size) && diskOk, size)
  }

  datatype Outcome = Stored | TooLarge | Failed

  predicate Streams(c: Cache, cfg: Config, declared: int) {
    cfg.enabled && declared > 0 && declared >= cfg.threshold && IsDiskCacheAvailable(cfg, c.stats, declared)
  }

  /** How much of a body of `available` bytes the limited reader delivers. */
  function Limited(available: nat, maxBytes: int): (n: nat) {
    if maxBytes + 1 <= 0 then 0 else if available <= maxBytes + 1 then available else maxBytes + 1
  }

  datatype Event =
    | Create(size: nat, diskOk: bool)
    | CreateFromReader(available: nat, readOk: bool, declared: int, maxBytes: int, diskOk: bool)
    | Close(index: int)

  function ReaderOutcome(c: Cache, cfg: Config, e: Event): (o: Outcome)
    requires e.CreateFromReader?
  {
    if !e.readOk then Failed
    else if Streams(c, cfg, e.declared) && !e.diskOk then Failed
    else if Limited(e.available, e.maxBytes) > e.maxBytes then TooLarge
    else Stored
  }

  function Step(c: Cache, cfg: Config, e: Event): (c': Cache) {
    match e
    case Create(size, diskOk) => Created(c, cfg, size, diskOk)
    case CreateFromReader(available, _, declared, maxBytes, diskOk) =>
      if !ReaderOutcome(c, cfg, e).Stored? then c
      else if Streams(c, cfg, declared) then Added(c, true, Limited(available, maxBytes))
      else Created(c, cfg, Limited(available, maxBytes), diskOk)
    case Close(i) =>
      if 0 <= i < |c.storages| && !c.storages[i].closed
      then var s := c.storages[i]; Cache(Decremented(c.stats, s.disk, s.size), c.storages[i := s.(closed := true)])
      else c
  }

  /** The process-wide counters and the storages handed out so far. */
  class Process {
    const cfg: Config
    var diskFiles: int
    var diskBytes: int
    var buffers: int
    var bufferBytes: int
    var storages: seq<Storage>

    constructor (cfg: Config)
      ensures this.cfg == cfg && Value() == Cache(NO_USAGE, [])
    {
      this.cfg := cfg;
      diskFiles, diskBytes, buffers, bufferBytes, storages := 0, 0, 0, 0, [];
    }

    ghost function Value(): (c: Cache)
      reads this
    {
      Cache(Stats(diskFiles, diskBytes, buffers, bufferBytes), storages)
    }

    method NewMemoryStorage(size: nat)
      modifies this
      ensures Value() == Added(old(Value()), false, size)
    {
      buffers, bufferBytes := buffers + 1, bufferBytes + size;
      storages := storages + [Storage(false, size, false)];
    }

    method NewDiskStorage(size: nat)
      modifies this
      ensures Value() == Added(old(Value()), true, size)
    {
      diskFiles, diskBytes := diskFiles + 1, diskBytes + size;
      storages := storages + [Storage(true, size, false)];
    }

    method CreateBodyStorage(size: nat, diskOk: bool)
      modifies this
      ensures Value() == Step(old(Value()), cfg, Create(size, diskOk))
      ensures |storages| == |old(storages)| + 1
      ensures storages[|old(storages)|] == Storage(
                cfg.enabled && size >= cfg.threshold && old(diskBytes) + size <= cfg.maxSize && diskOk, size, false)
    {
      if cfg.enabled && size >= cfg.threshold && diskBytes + size <= cfg.maxSize {
        if diskOk {
          NewDiskStorage(size);
          return;
        }
      }
      NewMemoryStorage(size);
    }

    method CreateBodyStorageFromReader(available: nat, readOk: bool, declared: int, maxBytes: int, diskOk: bool)
      returns (outcome: Outcome)
      modifies this
      ensures var e := CreateFromReader(available, readOk, declared, maxBytes, diskOk);
              Value() == Step(old(Value()), cfg, e) && outcome == ReaderOutcome(old(Value()), cfg, e)
      ensures var streams := cfg.enabled && declared > 0 && declared >= cfg.threshold && old(diskBytes) + declared <= cfg.maxSize;
              && (outcome.Stored? <==> readOk && 0 <= maxBytes && available <= maxBytes && (streams ==> diskOk))
              && (outcome.TooLarge? <==> readOk && !(0 <= maxBytes && available <= maxBytes) && (streams ==> diskOk))
              && (if !outcome.Stored? then storages == old(storages)
                  else && |storages| == |old(storages)| + 1
                       && storages[|old(storages)|] == Storage(
                            streams || (cfg.enabled && available >= cfg.threshold && old(diskBytes) + available <= cfg.maxSize && diskOk),
                            available, false))
    {
      var n := Limited(available, maxBytes);
      if cfg.enabled && declared > 0 && declared >= cfg.threshold && diskBytes + declared <= cfg.maxSize {
        if !diskOk || !readOk { return Failed; }
        if n > maxBytes { return TooLarge; }
        NewDiskStorage(n);
        return Stored;
      }
      if !readOk { return Failed; }
      if n > maxBytes { return TooLarge; }
      CreateBodyStorage(n, diskOk);
      return Stored;
    }

    /** Closing twice changes the counters once. */
    method CloseStorage(i: int)
      modifies this
      ensures Value() == Step(old(Value()), cfg, Close(i))
    {
      if i < 0 || i >= |storages| || storages[i].closed { return; }
      var s := storages[i];
      storages := storages[i := s.(closed := true)];
      if s.disk {
        diskFiles := diskFiles - 1;
        if diskFiles < 0 { diskFiles := 0; }
        diskBytes := diskBytes - s.size;
        if diskBytes < 0 { diskBytes := 0; }
      } else {
        buffers, bufferBytes := buffers - 1, bufferBytes - s.size;
      }
    }
  }

  // ---- The counters are exact ---------------------------------------------------------------------------------

  predicate Open(s: Storage, disk: bool) {
    s.disk == disk && !s.closed
  }

  function OpenCount(ss: seq<Storage>, disk: bool): (n: nat) {
    if ss == [] then 0 else OpenCount(ss[..|ss| - 1], disk) + (if Open(ss[|ss| - 1], disk) then 1 else 0)
  }

  function OpenBytes(ss: seq<Storage>, disk: bool): (n: nat) {
    if ss == [] then 0 else OpenBytes(ss[..|ss| - 1], disk) + (if Open(ss[|ss| - 1], disk) then ss[|ss| - 1].size else 0)
  }

  predicate Exact(c: Cache) {
    && c.stats.diskFiles == OpenCount(c.storages, true) && c.stats.diskBytes == OpenBytes(c.storages, true)
    && c.stats.buffers == OpenCount(c.storages, false) && c.stats.bufferBytes == OpenBytes(c.storages, false)
  }

  lemma OpenSnoc(ss: seq<Storage>, s: Storage, disk: bool)
    ensures OpenCount(ss + [s], disk) == OpenCount(ss, disk) + (if Open(s, disk) then 1 else 0)
    ensures OpenBytes(ss + [s], disk) == OpenBytes(ss, disk) + (if Open(s, disk) then s.size else 0)
  {
    assert (ss + [s])[..|ss|] == ss;
  }

  /** Closing an open storage takes exactly its share out of the totals, which therefore had it. */
  lemma {:induction false} OpenClose(ss: seq<Storage>, i: nat, disk: bool)
    requires i < |ss| && !ss[i].closed
    ensures var ss' := ss[i := ss[i].(closed := true)];
            && OpenCount(ss', disk) + (if ss[i].disk == disk then 1 else 0) == OpenCount(ss, disk)
            && OpenBytes(ss', disk) + (if ss[i].disk == disk then ss[i].size else 0) == OpenBytes(ss, disk)
  {
    var n := |ss| - 1;
    var ss' := ss[i := ss[i].(closed := true)];
    if i < n {
      OpenClose(ss[..n], i, disk);
      assert ss'[..n] == ss[..n][i := ss[i].(closed := true)];
    } else {
      assert ss'[..n] == ss[..n];
    }
  }

  lemma AddedIsExact(c: Cache, disk: bool, size: nat)
    requires Exact(c)
    ensures Exact(Added(c, disk, size))
  {
    OpenSnoc(c.storages, Storage(disk, size, false), true);
    OpenSnoc(c.storages, Storage(disk, size, false), false);
  }

  /** Every step keeps the counters equal to the number and total size of the open storages, and closing never
      drives a counter below zero, so the clamp has nothing to do. */
  lemma StepIsExact(c: Cache, cfg: Config, e: Event)
    requires Exact(c)
    ensures Exact(Step(c, cfg, e))
    ensures e.Close? && 0 <= e.index < |c.storages| && Open(c.storages[e.index], true) ==>
              c.stats.diskFiles >= 1 && c.stats.diskBytes >= c.storages[e.index].size
  {
    match e
    case Create(size, diskOk) =>
      AddedIsExact(c, true, size);
      AddedIsExact(c, false, size);
    case CreateFromReader(available, _, declared, maxBytes, diskOk) =>
      AddedIsExact(c, true, Limited(available, maxBytes));
      AddedIsExact(c, false, Limited(available, maxBytes));
    case Close(i) =>
      if 0 <= i < |c.storages| && !c.storages[i].closed {
        OpenClose(c.storages, i, true);
        OpenClose(c.storages, i, false);
      }
  }

  function Exec(cfg: Config, events: seq<Event>): (c: Cache) {
    if events == [] then Cache(NO_USAGE, []) else Step(Exec(cfg, events[..|events| - 1]), cfg, events[|events| - 1])
  }

  lemma {:induction false} RunsAreExact(cfg: Config, events: seq<Event>)
    ensures Exact(Exec(cfg, events))
  {
    if events != [] {
      RunsAreExact(cfg, events[..|events| - 1]);
      StepIsExact(Exec(cfg, events[..|events| - 1]), cfg, events[|events| - 1]);
    }
  }

  // ---- The disk limit -----------------------------------------------------------------------------------------

  /** No reader of the run may deliver more than `most` bytes. */
  predicate Bounded(events: seq<Event>, most: nat) {
    forall k :: 0 <= k < |events| && events[k].CreateFromReader? ==> events[k].maxBytes <= most
  }

  /** Declared lengths are what the bodies really have. */
  predicate Honest(events: seq<Event>) {
    forall k :: 0 <= k < |events| && events[k].CreateFromReader? ==> events[k].available <= events[k].declared
  }

  /** The most a streamed body can exceed what was admitted. */
  function Slack(most: nat): (n: nat) {
    if most == 0 then 0 else most - 1
  }

  lemma StepStaysBelow(c: Cache, cfg: Config, e: Event, bound: int)
    requires Exact(c) && c.stats.diskBytes <= bound && AtLeastZero(cfg.maxSize) <= bound
    requires e.CreateFromReader? ==>
               e.available <= e.declared || AtLeastZero(cfg.maxSize) + Slack(AtLeastZero(e.maxBytes)) <= bound
    ensures Step(c, cfg, e).stats.diskBytes <= bound
  {
    StepIsExact(c, cfg, e);
  }

  /** Disk usage stays below the configured maximum plus the largest body... */
  lemma {:induction false} UsageStaysBelow(cfg: Config, events: seq<Event>, most: nat)
    requires Bounded(events, most)
    ensures Exec(cfg, events).stats.diskBytes <= AtLeastZero(cfg.maxSize) + Slack(most)
  {
    if events != [] {
      var n := |events| - 1;
      UsageStaysBelow(cfg, events[..n], most);
      RunsAreExact(cfg, events[..n]);
      StepStaysBelow(Exec(cfg, events[..n]), cfg, events[n], AtLeastZero(cfg.maxSize) + Slack(most));
    }
  }

  /** ... and at most the maximum itself when the declared lengths are honest. */
  lemma {:induction false} HonestUsageStaysWithin(cfg: Config, events: seq<Event>)
    requires Honest(events)
    ensures Exec(cfg, events).stats.diskBytes <= AtLeastZero(cfg.maxSize)
  {
    if events != [] {
      var n := |events| - 1;
      HonestUsageStaysWithin(cfg, events[..n]);
      RunsAreExact(cfg, events[..n]);
      StepStaysBelow(Exec(cfg, events[..n]), cfg, events[n], AtLeastZero(cfg.maxSize));
    }
  }

  /** The first bound is reached: one body declared as a single byte fills it. */
  lemma SlackIsReached(cfg: Config, most: nat)
    requires cfg.enabled && cfg.threshold <= 1 <= cfg.maxSize && cfg.threshold <= cfg.maxSize - 1 && most >= 1
    ensures var full := Create(cfg.maxSize - 1, true); var late := CreateFromReader(most, true, 1, most, true);
            Exec(cfg, [full, late]).stats.diskBytes == cfg.maxSize + Slack(most)
  {
    var full, late := Create(cfg.maxSize - 1, true), CreateFromReader(most, true, 1, most, true);
    assert [full, late][..1] == [full] && [full][..0] == [];
    assert Exec(cfg, [full]) == Step(Exec(cfg, []), cfg, full);
  }
}
