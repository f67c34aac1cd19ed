/** Administration of a channel that holds several keys.

    The keys are one newline-separated text; status, time and reason of a key live in maps keyed by its
    position and are re-indexed whenever keys are deleted.  Everything here is compared with a plain list of
    key records. */
module MultiKey {
  import opened Wrappers
  import opened Text

  const ENABLED := 1
  const DISABLED := 2
  const AUTO_DISABLED := 3

  /** The stored row. */
  datatype Row = Row(
    text: string,
    size: int,
    status: map<int, int>,
    time: map<int, int>,
    reason: map<int, string>)

  /** `Channel.GetKeys`. */
  function KeysOf(text: string): (keys: seq<string>) {
    if text == "" then [] else Split(Trim(text, {'\n'}), '\n')
  }

  function StatusAt(status: map<int, int>, i: int): (s: int) {
    if i in status then status[i] else ENABLED
  }

  function Below(status: map<int, int>, n: int): (r: map<int, int>) {
    map i | i in status && i < n :: status[i]
  }

  /** `Channel.Update`: an empty text is not written, the size is recounted from the text in force, and
      statuses beyond it are dropped. */
  function Stored(old_: Row, new_: Row): (r: Row) {
    var text := if new_.text != "" then new_.text else old_.text;
    var n := |KeysOf(text)|;
    Row(text, n, Below(new_.status, n), new_.time, new_.reason)
  }

  // ---- The list of records the row stands for --------------------------------------------------------

  datatype Record = Record(key: string, status: int, time: Option<int>, reason: Option<string>)

  function RecordAt(r: Row, key: string, i: int): (rec: Record) {
    Record(key, StatusAt(r.status, i), Lookup(r.time, i), Lookup(r.reason, i))
  }

  function View(r: Row): (recs: seq<Record>) {
    var keys := KeysOf(r.text);
    seq(|keys|, i requires 0 <= i < |keys| => RecordAt(r, keys[i], i))
  }

  function Revived(rec: Record): (r: Record) {
    Record(rec.key, ENABLED, None, None)
  }

  function ReviveAll(recs: seq<Record>): (r: seq<Record>) {
    seq(|recs|, i requires 0 <= i < |recs| => Revived(recs[i]))
  }

  function BlockAll(recs: seq<Record>): (r: seq<Record>) {
    seq(|recs|, i requires 0 <= i < |recs| =>
      if recs[i].status == ENABLED then recs[i].(status := DISABLED) else recs[i])
  }

  predicate AnyAuto(recs: seq<Record>) {
    exists rec <- recs :: rec.status == AUTO_DISABLED
  }

  predicate AllAuto(recs: seq<Record>) {
    forall rec <- recs :: rec.status == AUTO_DISABLED
  }

  /** The records that are not automatically disabled; those in service keep no time or reason. */
  function Survivors(recs: seq<Record>): (r: seq<Record>) {
    if recs == [] then []
    else
      var rec := recs[|recs| - 1];
      var front := Survivors(recs[..|recs| - 1]);
      if rec.status == AUTO_DISABLED then front
      else if rec.status == ENABLED then front + [Revived(rec)]
      else front + [rec]
  }

  datatype Action = Disable(i: int) | Enable(i: int) | EnableAll | DisableAll | Delete(i: int) | DeleteDisabled

  predicate InRange(i: int, n: int) {
    0 <= i < n
  }

  /** The actions on the list of records.  Deleting when every key is automatically disabled leaves all of
      them in place and enabled: the emptied text is not stored, the emptied maps are. */
  function Perform(recs: seq<Record>, a: Action): (r: seq<Record>) {
    match a
    case Disable(i) => if InRange(i, |recs|) then recs[i := recs[i].(status := DISABLED)] else recs
    case Enable(i) => if InRange(i, |recs|) then recs[i := Revived(recs[i])] else recs
    case EnableAll => ReviveAll(recs)
    case DisableAll => BlockAll(recs)
    case Delete(i) => if InRange(i, |recs|) && |recs| > 1 then recs[..i] + recs[i + 1..] else recs
    case DeleteDisabled =>
      if !AnyAuto(recs) then recs else if AllAuto(recs) then ReviveAll(recs) else Survivors(recs)
  }

  /** What each action does to each record, as numbers: 1 is enabled, 2 disabled, 3 automatically disabled. */
  lemma SwitchOneMeans(recs: seq<Record>, i: int, k: nat)
    requires k < |recs|
    ensures |Perform(recs, Disable(i))| == |Perform(recs, Enable(i))| == |recs|
    ensures Perform(recs, Disable(i))[k] == if k == i then recs[k].(status := 2) else recs[k]
    ensures Perform(recs, Enable(i))[k] == if k == i then Record(recs[k].key, 1, None, None) else recs[k]
  {
  }

  lemma SwitchAllMeans(recs: seq<Record>, k: nat)
    requires k < |recs|
    ensures |Perform(recs, EnableAll)| == |Perform(recs, DisableAll)| == |recs|
    ensures Perform(recs, EnableAll)[k] == Record(recs[k].key, 1, None, None)
    ensures Perform(recs, DisableAll)[k] == if recs[k].status == 1 then recs[k].(status := 2) else recs[k]
  {
  }

  lemma DeleteMeans(recs: seq<Record>, i: nat, k: nat)
    requires i < |recs| && k < |recs| - 1
    ensures |Perform(recs, Delete(i))| == |recs| - 1
    ensures Perform(recs, Delete(i))[k] == if k < i then recs[k] else recs[k + 1]
  {
  }

  lemma PruneMeans(recs: seq<Record>)
    ensures Perform(recs, DeleteDisabled) ==
              if forall rec <- recs :: rec.status != 3 then recs
              else if forall rec <- recs :: rec.status == 3 then Perform(recs, EnableAll) else Survivors(recs)
  {
  }

  /** A pruned list is made of the pruned parts: an automatically disabled record goes, an enabled one keeps only its key. */
  lemma {:induction false} SurvivorsSplit(a: seq<Record>, b: seq<Record>)
    ensures Survivors(a + b) == Survivors(a) + Survivors(b)
    ensures |b| == 1 ==> Survivors(b) == if b[0].status == 3 then []
                                         else if b[0].status == 1 then [Record(b[0].key, 1, None, None)] else [b[0]]
  {
    if b == [] {
      assert a + b == a;
    } else {
      var n := |b| - 1;
      SurvivorsSplit(a, b[..n]);
      assert (a + b)[..|a + b| - 1] == a + b[..n] && (a + b)[|a + b| - 1] == b[n];
    }
  }

  // ---- The same actions on the stored row --------------------------------------------------------------

  /** The positions below `n` other than `i`, ascending. */
  function KeptBut(n: nat, i: int): (ks: seq<int>)
    ensures forall j :: 0 <= j < |ks| ==> 0 <= ks[j] < n
  {
    if n == 0 then [] else if n - 1 == i then KeptBut(n - 1, i) else KeptBut(n - 1, i) + [n - 1]
  }

  /** The positions below `n` that are not automatically disabled, ascending. */
  function KeptLive(n: nat, status: map<int, int>): (ks: seq<int>)
    ensures forall j :: 0 <= j < |ks| ==> 0 <= ks[j] < n
  {
    if n == 0 then []
    else if StatusAt(status, n - 1) == AUTO_DISABLED then KeptLive(n - 1, status)
    else KeptLive(n - 1, status) + [n - 1]
  }

  function Put<T>(m: map<int, T>, i: int, v: Option<T>): (m': map<int, T>) {
    if v.Some? then m[i := v.value] else m
  }

  /** Position j gets the entry of position ks[j]. */
  function Reindexed<T>(m: map<int, T>, ks: seq<int>): (r: map<int, T>)
    ensures forall i <- r :: 0 <= i < |ks|
  {
    if ks == [] then map[]
    else Put(Reindexed(m, ks[..|ks| - 1]), |ks| - 1, Lookup(m, ks[|ks| - 1]))
  }

  /** The keys at the given positions. */
  function At(keys: seq<string>, ks: seq<int>): (r: seq<string>)
    requires forall j :: 0 <= j < |ks| ==> 0 <= ks[j] < |keys|
  {
    seq(|ks|, j requires 0 <= j < |ks| => keys[ks[j]])
  }

  /** Entries that differ from the default. */
  function Explicit(status: map<int, int>): (r: map<int, int>) {
    map i | i in status && status[i] != ENABLED :: status[i]
  }

  /** Entries of keys that are out of service. */
  function OutOfService<T>(m: map<int, T>, status: map<int, int>): (r: map<int, T>) {
    map i | i in m && StatusAt(status, i) != ENABLED :: m[i]
  }

  function Blocked(status: map<int, int>, n: int): (r: map<int, int>) {
    if n <= 0 then status
    else
      var r := Blocked(status, n - 1);
      if StatusAt(status, n - 1) == ENABLED then r[n - 1 := DISABLED] else r
  }

  function DeletedAt(r: Row, i: int): (r': Row) {
    var keys := KeysOf(r.text);
    var ks := KeptBut(|keys|, i);
    Row(Join(At(keys, ks), '\n'), |ks|, Reindexed(Explicit(r.status), ks), Reindexed(r.time, ks), Reindexed(r.reason, ks))
  }

  function Pruned(r: Row): (r': Row) {
    var keys := KeysOf(r.text);
    var ks := KeptLive(|keys|, r.status);
    Row(Join(At(keys, ks), '\n'), |ks|, Reindexed(Explicit(r.status), ks),
        Reindexed(OutOfService(r.time, r.status), ks), Reindexed(OutOfService(r.reason, r.status), ks))
  }

  function Manage(r: Row, a: Action): (r': Row) {
    match a
    case Disable(i) =>
      if InRange(i, r.size) then Stored(r, r.(status := r.status[i := DISABLED])) else r
    case Enable(i) =>
      if InRange(i, r.size) then Stored(r, r.(status := r.status - {i}, time := r.time - {i}, reason := r.reason - {i})) else r
    case EnableAll => Stored(r, r.(status := map[], time := map[], reason := map[]))
    case DisableAll =>
      if exists i :: 0 <= i < r.size && StatusAt(r.status, i) == ENABLED
      then Stored(r, r.(status := Blocked(r.status, r.size))) else r
    case Delete(i) =>
      if InRange(i, r.size) && |KeptBut(|KeysOf(r.text)|, i)| > 0 then Stored(r, DeletedAt(r, i)) else r
    case DeleteDisabled =>
      if exists k :: 0 <= k < |KeysOf(r.text)| && StatusAt(r.status, k) == AUTO_DISABLED then Stored(r, Pruned(r)) else r
  }

  /** The size is the number of keys and no map has an entry beyond it. */
  predicate Consistent(r: Row) {
    && r.size == |KeysOf(r.text)|
    && (forall i <- r.status :: 0 <= i < r.size)
    && (forall i <- r.time :: 0 <= i < r.size)
    && (forall i <- r.reason :: 0 <= i < r.size)
  }

  predicate NoBlankKeys(r: Row) {
    forall k <- KeysOf(r.text) :: k != ""
  }

  // ---- Storing a list of keys ---------------------------------------------------------------------------

  /** A list of keys that survives being joined, stored and split again. */
  predicate Storable(keys: seq<string>) {
    keys != [] && keys[0] != "" && keys[|keys| - 1] != ""
  }

  lemma {:induction false} JoinEnds(keys: seq<string>)
    requires Storable(keys)
    ensures var s := Join(keys, '\n');
            |s| > 0 && s[0] == keys[0][0] && s[|s| - 1] == keys[|keys| - 1][|keys[|keys| - 1]| - 1]
  {
    if |keys| > 1 {
      JoinLast(keys);
    }
  }

  lemma {:induction false} JoinLast(keys: seq<string>)
    requires keys != [] && keys[|keys| - 1] != ""
    ensures var s := Join(keys, '\n'); var k := keys[|keys| - 1]; |s| >= |k| && s[|s| - 1] == k[|k| - 1]
  {
    if |keys| > 1 {
      JoinLast(keys[1..]);
    }
  }

  lemma {:induction false} SplitFirst(s: string)
    requires s != "" && s[0] != '\n'
    ensures Split(s, '\n')[0] != ""
  {
  }

  lemma {:induction false} SplitLast(s: string)
    requires s != "" && s[|s| - 1] != '\n'
    ensures var parts := Split(s, '\n'); parts[|parts| - 1] != ""
  {
    if |s| > 1 {
      SplitLast(s[1..]);
    }
  }

  /** A text yields a list without newlines in its keys, with non-blank ends unless it is all newlines. */
  lemma KeysOfFacts(text: string)
    ensures forall k <- KeysOf(text) :: '\n' !in k
    ensures text != "" && Trim(text, {'\n'}) != "" ==> Storable(KeysOf(text))
    ensures text != "" && Trim(text, {'\n'}) == "" ==> KeysOf(text) == [""]
  {
    var t := Trim(text, {'\n'});
    SplitPieces(t, '\n');
    TrimIsTrimmed(text, {'\n'});
    if t != "" {
      SplitFirst(t);
      SplitLast(t);
    }
  }

  /** Exactly the lists with non-blank first and last keys come back as they were stored. */
  lemma StoreRoundTripIff(keys: seq<string>)
    requires keys != [] && forall k <- keys :: '\n' !in k
    ensures KeysOf(Join(keys, '\n')) == keys <==> Storable(keys)
  {
    var text := Join(keys, '\n');
    if Storable(keys) {
      JoinEnds(keys);
      assert keys[0] in keys && keys[|keys| - 1] in keys;
      assert Trimmed(text, {'\n'});
      TrimmedIsFixed(text, {'\n'});
      SplitJoin(keys, '\n');
      SplitAllPlain(keys, '\n');
    } else {
      KeysOfFacts(text);
      assert keys == [""] ==> text == "";
    }
  }

  // ---- Refinement ---------------------------------------------------------------------------------------

  lemma ViewAt(r: Row, i: nat)
    requires i < |KeysOf(r.text)|
    ensures View(r)[i] == RecordAt(r, KeysOf(r.text)[i], i)
  {
  }

  lemma StoredInPlace(r: Row, n: Row)
    requires Consistent(r) && n.text == r.text && n.size == r.size && forall i <- n.status :: 0 <= i < r.size
    ensures Stored(r, n) == n
  {
    assert Below(n.status, r.size) == n.status;
  }

  /** Two views with the same keys agree once status, time and reason agree everywhere. */
  lemma SameView(r: Row, recs: seq<Record>)
    requires |recs| == |KeysOf(r.text)| && forall i :: 0 <= i < |recs| ==> recs[i] == RecordAt(r, KeysOf(r.text)[i], i)
    ensures View(r) == recs
  {
  }

  lemma OneRefines(r: Row, a: Action)
    requires Consistent(r) && (a.Disable? || a.Enable?)
    ensures Consistent(Manage(r, a)) && Manage(r, a).text == r.text
    ensures View(Manage(r, a)) == Perform(View(r), a)
  {
    if InRange(a.i, r.size) {
      var n := if a.Disable? then r.(status := r.status[a.i := DISABLED])
               else r.(status := r.status - {a.i}, time := r.time - {a.i}, reason := r.reason - {a.i});
      StoredInPlace(r, n);
      SameView(n, Perform(View(r), a));
    }
  }

  lemma {:induction false} BlockedAt(status: map<int, int>, n: int, i: int)
    ensures StatusAt(Blocked(status, n), i)
            == if 0 <= i < n && StatusAt(status, i) == ENABLED then DISABLED else StatusAt(status, i)
    ensures i in Blocked(status, n) ==> i in status || 0 <= i < n
  {
    if n > 0 {
      BlockedAt(status, n - 1, i);
    }
  }

  lemma AllRefine(r: Row, a: Action)
    requires Consistent(r) && (a.DisableAll? || a.EnableAll?)
    ensures Consistent(Manage(r, a)) && Manage(r, a).text == r.text
    ensures View(Manage(r, a)) == Perform(View(r), a)
  {
    var n := if a.DisableAll? then r.(status := Blocked(r.status, r.size))
             else r.(status := map[], time := map[], reason := map[]);
    forall i { BlockedAt(r.status, r.size, i); }
    StoredInPlace(r, n);
    SameView(n, Perform(View(r), a));
    if a.DisableAll? && Manage(r, a) == r {
      SameView(r, Perform(View(r), a));
    }
  }

  lemma {:induction false} KeptButIs(n: nat, i: int)
    ensures var ks := KeptBut(n, i);
            && |ks| == (if 0 <= i < n then n - 1 else n)
            && forall j :: 0 <= j < |ks| ==> ks[j] == if 0 <= i <= j then j + 1 else j
  {
    if n > 0 {
      KeptButIs(n - 1, i);
    }
  }

  /** The record a kept key ends up with. */
  function CleanAt(r: Row, k: nat): (rec: Record)
    requires k < |KeysOf(r.text)|
  {
    var rec := RecordAt(r, KeysOf(r.text)[k], k);
    if rec.status == ENABLED then Revived(rec) else rec
  }

  /** Re-indexing gives position j what position ks[j] had. */
  lemma {:induction false} ReindexedLookup<T>(m: map<int, T>, ks: seq<int>, j: nat)
    requires j < |ks|
    ensures Lookup(Reindexed(m, ks), j) == Lookup(m, ks[j])
  {
    if j < |ks| - 1 {
      ReindexedLookup(m, ks[..|ks| - 1], j);
    }
  }

  lemma KeptKeys(r: Row, ks: seq<int>)
    requires forall j :: 0 <= j < |ks| ==> 0 <= ks[j] < |KeysOf(r.text)|
    requires ks != []
    ensures KeysOf(Join(At(KeysOf(r.text), ks), '\n')) == At(KeysOf(r.text), ks) <==> Storable(At(KeysOf(r.text), ks))
    ensures Storable(At(KeysOf(r.text), ks)) ==> Join(At(KeysOf(r.text), ks), '\n') != ""
  {
    var rem := At(KeysOf(r.text), ks);
    KeysOfFacts(r.text);
    forall k | k in rem ensures '\n' !in k {
      var j :| 0 <= j < |rem| && rem[j] == k;
      assert KeysOf(r.text)[ks[j]] in KeysOf(r.text);
    }
    StoreRoundTripIff(rem);
    if Storable(rem) { JoinEnds(rem); }
  }

  /** A row rebuilt from the kept keys is stored as it is when those keys survive storing. */
  lemma Rebuilt(r: Row, ks: seq<int>, p: Row)
    requires forall j :: 0 <= j < |ks| ==> 0 <= ks[j] < |KeysOf(r.text)|
    requires Storable(At(KeysOf(r.text), ks))
    requires p.text == Join(At(KeysOf(r.text), ks), '\n') && p.size == |ks|
    requires (forall i <- p.status :: 0 <= i < |ks|) && (forall i <- p.time :: 0 <= i < |ks|)
    requires forall i <- p.reason :: 0 <= i < |ks|
    ensures KeysOf(p.text) == At(KeysOf(r.text), ks) && Stored(r, p) == p && Consistent(p)
  {
    KeptKeys(r, ks);
    assert Below(p.status, |ks|) == p.status;
  }

  lemma DeletedRecord(r: Row, i: int, key: string, j: nat)
    requires j < |KeptBut(|KeysOf(r.text)|, i)|
    ensures RecordAt(DeletedAt(r, i), key, j) == RecordAt(r, key, KeptBut(|KeysOf(r.text)|, i)[j])
  {
    var ks := KeptBut(|KeysOf(r.text)|, i);
    ReindexedLookup(Explicit(r.status), ks, j);
    ReindexedLookup(r.time, ks, j);
    ReindexedLookup(r.reason, ks, j);
  }

  lemma PrunedRecord(r: Row, j: nat)
    requires j < |KeptLive(|KeysOf(r.text)|, r.status)|
    ensures var k := KeptLive(|KeysOf(r.text)|, r.status)[j];
            RecordAt(Pruned(r), KeysOf(r.text)[k], j) == CleanAt(r, k)
  {
    var ks := KeptLive(|KeysOf(r.text)|, r.status);
    ReindexedLookup(Explicit(r.status), ks, j);
    ReindexedLookup(OutOfService(r.time, r.status), ks, j);
    ReindexedLookup(OutOfService(r.reason, r.status), ks, j);
  }

  lemma Without<T>(xs: seq<T>, i: int, ks: seq<int>, j: nat)
    requires 0 <= i < |xs| && ks == KeptBut(|xs|, i) && j < |ks|
    ensures |ks| == |xs| - 1 && (xs[..i] + xs[i + 1..])[j] == xs[ks[j]]
  {
    KeptButIs(|xs|, i);
  }

  lemma DeleteView(r: Row, i: int)
    requires Consistent(r) && InRange(i, r.size)
    requires Storable(At(KeysOf(r.text), KeptBut(|KeysOf(r.text)|, i)))
    ensures var r' := Stored(r, DeletedAt(r, i));
            && View(r') == View(r)[..i] + View(r)[i + 1..] && Consistent(r')
            && KeysOf(r'.text) == At(KeysOf(r.text), KeptBut(|KeysOf(r.text)|, i))
  {
    var keys := KeysOf(r.text);
    var ks := KeptBut(|keys|, i);
    var p := DeletedAt(r, i);
    Rebuilt(r, ks, p);
    KeptButIs(|keys|, i);
    var recs := View(r)[..i] + View(r)[i + 1..];
    forall j | 0 <= j < |recs| ensures recs[j] == RecordAt(p, KeysOf(p.text)[j], j) {
      Without(View(r), i, ks, j);
      ViewAt(r, ks[j]);
      DeletedRecord(r, i, keys[ks[j]], j);
    }
    SameView(p, recs);
  }

  /** Row `r'` holds the records of `r` without the one at `i`. */
  ghost predicate Drops(r: Row, i: int, r': Row)
    requires 0 <= i < |View(r)|
  {
    View(r') == View(r)[..i] + View(r)[i + 1..]
  }

  lemma DeleteDiffers(r: Row, i: int)
    requires Consistent(r) && InRange(i, r.size) && r.size > 1
    requires !Storable(At(KeysOf(r.text), KeptBut(|KeysOf(r.text)|, i)))
    ensures !Drops(r, i, Stored(r, DeletedAt(r, i)))
  {
    var keys := KeysOf(r.text);
    var ks := KeptBut(|keys|, i);
    KeptButIs(|keys|, i);
    KeptKeys(r, ks);
    var recs := View(r)[..i] + View(r)[i + 1..];
    forall j | 0 <= j < |recs| ensures recs[j].key == At(keys, ks)[j] {
      Without(View(r), i, ks, j);
      ViewAt(r, ks[j]);
    }
    StoredKeysDiffer(r, DeletedAt(r, i), At(keys, ks));
    SameKeys(Stored(r, DeletedAt(r, i)), recs, At(keys, ks));
  }

  lemma KeptButKeys(keys: seq<string>, i: int)
    requires 0 <= i < |keys|
    ensures At(keys, KeptBut(|keys|, i)) == keys[..i] + keys[i + 1..]
  {
    KeptButIs(|keys|, i);
  }

  /** Deleting one of several keys removes exactly its record if and only if the keys that remain begin and
      end with a non-blank key. */
  lemma DeleteRefinesIff(r: Row, i: int)
    requires Consistent(r) && InRange(i, r.size) && r.size > 1
    ensures Drops(r, i, Manage(r, Delete(i))) <==> Storable(KeysOf(r.text)[..i] + KeysOf(r.text)[i + 1..])
  {
    KeptButKeys(KeysOf(r.text), i);
    assert Manage(r, Delete(i)) == Stored(r, DeletedAt(r, i));
    if Storable(At(KeysOf(r.text), KeptBut(|KeysOf(r.text)|, i))) {
      DeleteView(r, i);
    } else {
      DeleteDiffers(r, i);
    }
  }

  /** A list that does not survive storing is not what the row holds afterwards. */
  lemma StoredKeysDiffer(r: Row, p: Row, rem: seq<string>)
    requires p.text == Join(rem, '\n') && KeysOf(p.text) != rem && |rem| < |KeysOf(r.text)|
    ensures KeysOf(Stored(r, p).text) != rem
  {
  }

  lemma SameKeys(r: Row, recs: seq<Record>, keys: seq<string>)
    requires |recs| == |keys| && forall j :: 0 <= j < |keys| ==> recs[j].key == keys[j]
    ensures View(r) == recs ==> KeysOf(r.text) == keys
  {
    if View(r) == recs {
      forall j | 0 <= j < |keys| ensures KeysOf(r.text)[j] == keys[j] {
        ViewAt(r, j);
      }
    }
  }

  lemma {:induction false} SurvivorsAre(r: Row, n: nat)
    requires n <= |KeysOf(r.text)|
    ensures var ks := KeptLive(n, r.status); var recs := Survivors(View(r)[..n]);
            |recs| == |ks| && forall j :: 0 <= j < |ks| ==> recs[j] == CleanAt(r, ks[j])
  {
    if n > 0 {
      SurvivorsAre(r, n - 1);
      assert View(r)[..n][..n - 1] == View(r)[..n - 1];
      ViewAt(r, n - 1);
    }
  }

  lemma PrunedRow(r: Row)
    requires Consistent(r) && Storable(At(KeysOf(r.text), KeptLive(|KeysOf(r.text)|, r.status)))
    ensures var p := Pruned(r);
            && KeysOf(p.text) == At(KeysOf(r.text), KeptLive(|KeysOf(r.text)|, r.status))
            && Stored(r, p) == p && Consistent(p)
  {
    Rebuilt(r, KeptLive(|KeysOf(r.text)|, r.status), Pruned(r));
  }

  lemma SurvivorsArePruned(r: Row, j: nat)
    requires j < |KeptLive(|KeysOf(r.text)|, r.status)|
    ensures var k := KeptLive(|KeysOf(r.text)|, r.status)[j]; var recs := Survivors(View(r));
            && |recs| == |KeptLive(|KeysOf(r.text)|, r.status)|
            && recs[j] == RecordAt(Pruned(r), KeysOf(r.text)[k], j)
  {
    SurvivorsAre(r, |KeysOf(r.text)|);
    assert View(r)[..|KeysOf(r.text)|] == View(r);
    PrunedRecord(r, j);
  }

  /** The row that `delete_disabled_keys` stores when the remaining keys survive storing. */
  lemma PruneView(r: Row)
    requires Consistent(r) && Storable(At(KeysOf(r.text), KeptLive(|KeysOf(r.text)|, r.status)))
    ensures var r' := Stored(r, Pruned(r));
            && View(r') == Survivors(View(r)) && Consistent(r')
            && KeysOf(r'.text) == At(KeysOf(r.text), KeptLive(|KeysOf(r.text)|, r.status))
  {
    var ks, p, recs := KeptLive(|KeysOf(r.text)|, r.status), Pruned(r), Survivors(View(r));
    PrunedRow(r);
    assert ks != [];
    SurvivorsArePruned(r, 0);
    forall j | 0 <= j < |recs| ensures recs[j] == RecordAt(p, KeysOf(p.text)[j], j) {
      SurvivorsArePruned(r, j);
    }
    SameView(p, recs);
  }

  lemma {:induction false} LiveCount(n: nat, status: map<int, int>)
    ensures |KeptLive(n, status)| <= n
    ensures |KeptLive(n, status)| < n <==> exists k :: 0 <= k < n && StatusAt(status, k) == AUTO_DISABLED
  {
    if n > 0 {
      LiveCount(n - 1, status);
      if StatusAt(status, n - 1) == AUTO_DISABLED {
        assert 0 <= n - 1 < n;
      }
    }
  }

  lemma AutoInView(r: Row)
    requires Consistent(r)
    ensures AnyAuto(View(r)) <==> exists k :: 0 <= k < |KeysOf(r.text)| && StatusAt(r.status, k) == AUTO_DISABLED
  {
    var keys := KeysOf(r.text);
    if k :| 0 <= k < |keys| && StatusAt(r.status, k) == AUTO_DISABLED {
      ViewAt(r, k);
      assert View(r)[k] in View(r);
    }
    if rec :| rec in View(r) && rec.status == AUTO_DISABLED {
      var k :| 0 <= k < |keys| && View(r)[k] == rec;
      ViewAt(r, k);
    }
  }

  /** Deleting the automatically disabled keys, when there are any, keeps exactly the other records if and
      only if the keys that remain begin and end with a non-blank key; in particular some key must remain. */
  lemma DeleteDisabledRefinesIff(r: Row)
    requires Consistent(r) && AnyAuto(View(r))
    ensures View(Manage(r, DeleteDisabled)) == Survivors(View(r))
            <==> Storable(At(KeysOf(r.text), KeptLive(|KeysOf(r.text)|, r.status)))
  {
    var keys := KeysOf(r.text);
    var ks := KeptLive(|keys|, r.status);
    AutoInView(r);
    assert Manage(r, DeleteDisabled) == Stored(r, Pruned(r));
    if Storable(At(keys, ks)) {
      PruneView(r);
    } else {
      PruneDiffers(r);
    }
  }

  lemma PruneDiffers(r: Row)
    requires Consistent(r) && exists k :: 0 <= k < |KeysOf(r.text)| && StatusAt(r.status, k) == AUTO_DISABLED
    requires !Storable(At(KeysOf(r.text), KeptLive(|KeysOf(r.text)|, r.status)))
    ensures View(Stored(r, Pruned(r))) != Survivors(View(r))
  {
    var keys := KeysOf(r.text);
    var ks := KeptLive(|keys|, r.status);
    LiveCount(|keys|, r.status);
    PrunedKeysDiffer(r, ks);
    SurvivingKeys(r, ks);
    SameKeys(Stored(r, Pruned(r)), Survivors(View(r)), At(keys, ks));
  }

  lemma SurvivingKeys(r: Row, ks: seq<int>)
    requires ks == KeptLive(|KeysOf(r.text)|, r.status)
    ensures var keys := At(KeysOf(r.text), ks); var recs := Survivors(View(r));
            |recs| == |keys| && forall j :: 0 <= j < |keys| ==> recs[j].key == keys[j]
  {
    SurvivorsAre(r, |KeysOf(r.text)|);
    assert View(r)[..|KeysOf(r.text)|] == View(r);
  }

  lemma PrunedKeysDiffer(r: Row, ks: seq<int>)
    requires ks == KeptLive(|KeysOf(r.text)|, r.status) && |ks| < |KeysOf(r.text)|
    requires !Storable(At(KeysOf(r.text), ks))
    ensures KeysOf(Stored(r, Pruned(r)).text) != At(KeysOf(r.text), ks)
  {
    var rem := At(KeysOf(r.text), ks);
    if ks != [] {
      KeptKeys(r, ks);
      StoredKeysDiffer(r, Pruned(r), rem);
    } else {
      assert rem == [] && Pruned(r).text == "";
    }
  }

  /** When every key is automatically disabled, `delete_disabled_keys` deletes nothing and enables them all. */
  lemma DeletingAllRevivesAll(r: Row)
    requires Consistent(r) && AnyAuto(View(r)) && AllAuto(View(r))
    ensures View(Manage(r, DeleteDisabled)) == ReviveAll(View(r)) && Consistent(Manage(r, DeleteDisabled))
    ensures Manage(r, DeleteDisabled).text == r.text
  {
    var keys := KeysOf(r.text);
    AutoInView(r);
    forall k | 0 <= k < |keys| ensures StatusAt(r.status, k) == AUTO_DISABLED {
      ViewAt(r, k);
      assert View(r)[k] in View(r);
    }
    NoneLive(|keys|, r.status);
    assert At(keys, []) == [];
    SameView(Manage(r, DeleteDisabled), ReviveAll(View(r)));
  }

  lemma {:induction false} NoneLive(n: nat, status: map<int, int>)
    requires forall k :: 0 <= k < n ==> StatusAt(status, k) == AUTO_DISABLED
    ensures KeptLive(n, status) == []
  {
    if n > 0 {
      NoneLive(n - 1, status);
    }
  }

  lemma {:induction false} SomeLive(n: nat, status: map<int, int>, k: nat)
    requires k < n && StatusAt(status, k) != AUTO_DISABLED
    ensures KeptLive(n, status) != []
  {
    if k < n - 1 {
      SomeLive(n - 1, status, k);
    }
  }

  // ---- Whole runs ---------------------------------------------------------------------------------------

  lemma NoBlankStorable(r: Row, ks: seq<int>)
    requires NoBlankKeys(r) && ks != [] && forall j :: 0 <= j < |ks| ==> 0 <= ks[j] < |KeysOf(r.text)|
    ensures Storable(At(KeysOf(r.text), ks)) && forall k <- At(KeysOf(r.text), ks) :: k != ""
  {
    var keys := KeysOf(r.text);
    forall j | 0 <= j < |ks| ensures At(keys, ks)[j] != "" {
      assert keys[ks[j]] in keys;
    }
  }

  /** The keys a deletion would leave survive storing; the other actions leave the key text alone. */
  predicate Guarded(r: Row, a: Action) {
    match a
    case Delete(i) =>
      InRange(i, |KeysOf(r.text)|) && |KeysOf(r.text)| > 1 ==> Storable(KeysOf(r.text)[..i] + KeysOf(r.text)[i + 1..])
    case DeleteDisabled =>
      AnyAuto(View(r)) && !AllAuto(View(r)) ==> Storable(At(KeysOf(r.text), KeptLive(|KeysOf(r.text)|, r.status)))
    case _ => true
  }

  lemma DeleteActionIff(r: Row, i: int)
    requires Consistent(r)
    ensures View(Manage(r, Delete(i))) == Perform(View(r), Delete(i)) <==> Guarded(r, Delete(i))
    ensures Guarded(r, Delete(i)) ==> Consistent(Manage(r, Delete(i)))
  {
    KeptButIs(|KeysOf(r.text)|, i);
    if InRange(i, r.size) && r.size > 1 {
      DeleteRefinesIff(r, i);
      assert Drops(r, i, Manage(r, Delete(i))) <==> View(Manage(r, Delete(i))) == Perform(View(r), Delete(i));
      KeptButKeys(KeysOf(r.text), i);
      if Guarded(r, Delete(i)) {
        DeleteView(r, i);
      }
    }
  }

  lemma PruneActionIff(r: Row)
    requires Consistent(r)
    ensures View(Manage(r, DeleteDisabled)) == Perform(View(r), DeleteDisabled) <==> Guarded(r, DeleteDisabled)
    ensures Guarded(r, DeleteDisabled) ==> Consistent(Manage(r, DeleteDisabled))
  {
    AutoInView(r);
    if AnyAuto(View(r)) {
      if AllAuto(View(r)) {
        DeletingAllRevivesAll(r);
      } else {
        DeleteDisabledRefinesIff(r);
        if Guarded(r, DeleteDisabled) {
          PruneView(r);
        }
      }
    }
  }

  /** An action on the index-keyed maps is the action on the list of records if and only if it is guarded, and then
      keeps the size the number of keys and every map entry below it. */
  lemma ActionRefinesIff(r: Row, a: Action)
    requires Consistent(r)
    ensures View(Manage(r, a)) == Perform(View(r), a) <==> Guarded(r, a)
    ensures Guarded(r, a) ==> Consistent(Manage(r, a))
  {
    match a
    case Disable(_) => OneRefines(r, a);
    case Enable(_) => OneRefines(r, a);
    case EnableAll => AllRefine(r, a);
    case DisableAll => AllRefine(r, a);
    case Delete(i) => DeleteActionIff(r, i);
    case DeleteDisabled => PruneActionIff(r);
  }

  function ManageAll(r: Row, acts: seq<Action>): (r': Row) {
    if acts == [] then r else Manage(ManageAll(r, acts[..|acts| - 1]), acts[|acts| - 1])
  }

  function PerformAll(recs: seq<Record>, acts: seq<Action>): (recs': seq<Record>) {
    if acts == [] then recs else Perform(PerformAll(recs, acts[..|acts| - 1]), acts[|acts| - 1])
  }

  /** Every action of the sequence is guarded when its turn comes. */
  ghost predicate AllGuarded(r: Row, acts: seq<Action>) {
    forall k :: 0 <= k < |acts| ==> Guarded(ManageAll(r, acts[..k]), acts[k])
  }

  lemma AllGuardedPrefix(r: Row, acts: seq<Action>)
    requires AllGuarded(r, acts) && acts != []
    ensures AllGuarded(r, acts[..|acts| - 1]) && Guarded(ManageAll(r, acts[..|acts| - 1]), acts[|acts| - 1])
  {
    var n := |acts| - 1;
    forall k | 0 <= k < n ensures acts[..n][..k] == acts[..k] && acts[..n][k] == acts[k] { }
  }

  /** Any guarded sequence of actions on the index-keyed maps is the same sequence on the list of records, and the
      size stays the number of keys with every map entry below it. */
  lemma {:induction false} SequenceRefines(r: Row, acts: seq<Action>)
    requires Consistent(r) && AllGuarded(r, acts)
    ensures Consistent(ManageAll(r, acts))
    ensures View(ManageAll(r, acts)) == PerformAll(View(r), acts)
  {
    if acts != [] {
      AllGuardedPrefix(r, acts);
      SequenceRefines(r, acts[..|acts| - 1]);
      ActionRefinesIff(ManageAll(r, acts[..|acts| - 1]), acts[|acts| - 1]);
    }
  }

  /** Only deletions need a guard. */
  lemma SwitchingIsGuarded(r: Row, acts: seq<Action>)
    requires forall k :: 0 <= k < |acts| ==> !acts[k].Delete? && !acts[k].DeleteDisabled?
    ensures AllGuarded(r, acts)
  {
  }

  // ---- Channels without blank keys ----------------------------------------------------------------------------------

  lemma SomeSurvive(r: Row)
    requires Consistent(r) && NoBlankKeys(r) && !AllAuto(View(r))
    ensures Storable(At(KeysOf(r.text), KeptLive(|KeysOf(r.text)|, r.status)))
    ensures forall k <- At(KeysOf(r.text), KeptLive(|KeysOf(r.text)|, r.status)) :: k != ""
  {
    var rec :| rec in View(r) && rec.status != AUTO_DISABLED;
    var k :| 0 <= k < |View(r)| && View(r)[k] == rec;
    ViewAt(r, k);
    SomeLive(|KeysOf(r.text)|, r.status, k);
    NoBlankStorable(r, KeptLive(|KeysOf(r.text)|, r.status));
  }

  lemma NoBlankDelete(r: Row, i: int)
    requires Consistent(r) && NoBlankKeys(r)
    ensures Guarded(r, Delete(i)) && NoBlankKeys(Manage(r, Delete(i)))
  {
    if InRange(i, r.size) && r.size > 1 {
      KeptButIs(|KeysOf(r.text)|, i);
      KeptButKeys(KeysOf(r.text), i);
      NoBlankStorable(r, KeptBut(|KeysOf(r.text)|, i));
      DeleteView(r, i);
    }
  }

  lemma NoBlankPrune(r: Row)
    requires Consistent(r) && NoBlankKeys(r)
    ensures Guarded(r, DeleteDisabled) && NoBlankKeys(Manage(r, DeleteDisabled))
  {
    AutoInView(r);
    if AnyAuto(View(r)) {
      if AllAuto(View(r)) {
        DeletingAllRevivesAll(r);
      } else {
        SomeSurvive(r);
        PruneView(r);
      }
    }
  }

  /** Without blank keys every action is guarded, and none makes a key blank. */
  lemma NoBlankIsGuarded(r: Row, a: Action)
    requires Consistent(r) && NoBlankKeys(r)
    ensures Guarded(r, a) && NoBlankKeys(Manage(r, a))
  {
    match a
    case Disable(_) => OneRefines(r, a);
    case Enable(_) => OneRefines(r, a);
    case EnableAll => AllRefine(r, a);
    case DisableAll => AllRefine(r, a);
    case Delete(i) => NoBlankDelete(r, i);
    case DeleteDisabled => NoBlankPrune(r);
  }

  /** So every sequence refines. */
  lemma {:induction false} NoBlankSequence(r: Row, acts: seq<Action>)
    requires Consistent(r) && NoBlankKeys(r)
    ensures Consistent(ManageAll(r, acts)) && NoBlankKeys(ManageAll(r, acts))
    ensures View(ManageAll(r, acts)) == PerformAll(View(r), acts)
  {
    if acts != [] {
      var before, a := ManageAll(r, acts[..|acts| - 1]), acts[|acts| - 1];
      NoBlankSequence(r, acts[..|acts| - 1]);
      NoBlankIsGuarded(before, a);
      ActionRefinesIff(before, a);
    }
  }

  // ---- A failing input ------------------------------------------------------------------------------------------------

  /** Keys "a", blank, "b": deleting the first loses the blank one as well, and "b" takes over its position. */
  lemma BlankIsLost()
    ensures var r := Row("a\n\nb", 3, map[], map[], map[]);
            && Consistent(r) && KeysOf(r.text) == ["a", "", "b"] && !Guarded(r, Delete(0))
            && View(Manage(r, Delete(0))) != Perform(View(r), Delete(0))
  {
    var r := Row("a\n\nb", 3, map[], map[], map[]);
    var keys := ["a", "", "b"];
    assert Join(keys[2..], '\n') == "b" && keys[1..][1..] == keys[2..];
    assert Join(keys[1..], '\n') == "\nb";
    assert Join(keys, '\n') == "a\n\nb";
    StoreRoundTripIff(keys);
    assert keys[..0] + keys[1..] == ["", "b"];
    ActionRefinesIff(r, Delete(0));
  }
}
