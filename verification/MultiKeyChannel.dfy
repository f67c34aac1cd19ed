/** The multi-key channel as `ManageMultiKeys` and the "append" mode of `UpdateChannel` update it, step by step. */
module MultiKeyChannel {
  import opened Wrappers
  import opened Text
  import opened ModelNames
  import opened MultiKey

  function CountEnabled(status: map<int, int>, n: nat): (count: nat) {
    if n == 0 then 0 else CountEnabled(status, n - 1) + (if StatusAt(status, n - 1) == ENABLED then 1 else 0)
  }

  lemma {:induction false} CountIsZero(status: map<int, int>, n: nat)
    ensures CountEnabled(status, n) == 0 <==> forall i :: 0 <= i < n ==> StatusAt(status, i) != ENABLED
  {
    if n > 0 {
      CountIsZero(status, n - 1);
    }
  }

  /** The loop of `disable_all_keys`: disables the enabled keys and counts them. */
  method Block(status: map<int, int>, n: nat) returns (marked: map<int, int>, disabled: nat)
    ensures marked == Blocked(status, n)
    ensures disabled == CountEnabled(status, n)
  {
    marked, disabled := status, 0;
    for i := 0 to n
      invariant marked == Blocked(status, i) && disabled == CountEnabled(status, i)
    {
      BlockedAt(status, i, i);
      if StatusAt(marked, i) == ENABLED {
        marked := marked[i := DISABLED];
        disabled := disabled + 1;
      }
    }
  }

  lemma ReindexedSnoc<T>(m: map<int, T>, ks: seq<int>, k: int)
    ensures Reindexed(m, ks + [k]) == Put(Reindexed(m, ks), |ks|, Lookup(m, k))
  {
    assert (ks + [k])[..|ks|] == ks;
  }

  lemma AtSnoc(keys: seq<string>, ks: seq<int>, k: int)
    requires (forall j :: 0 <= j < |ks| ==> 0 <= ks[j] < |keys|) && 0 <= k < |keys|
    ensures At(keys, ks + [k]) == At(keys, ks) + [keys[k]]
  {
  }

  lemma ExplicitAt(status: map<int, int>, i: int)
    ensures Lookup(Explicit(status), i) == if StatusAt(status, i) != ENABLED then Some(status[i]) else None
  {
  }

  lemma OutOfServiceAt<T>(m: map<int, T>, status: map<int, int>, i: int)
    ensures Lookup(OutOfService(m, status), i) == if StatusAt(status, i) != ENABLED then Lookup(m, i) else None
  {
  }

  /** The loop of `delete_key`. */
  method RemoveOne(keys: seq<string>, status: map<int, int>, time: map<int, int>, reason: map<int, string>, index: int)
    returns (remaining: seq<string>, newStatus: map<int, int>, newTime: map<int, int>, newReason: map<int, string>)
    ensures var ks := KeptBut(|keys|, index);
            && remaining == At(keys, ks) && newStatus == Reindexed(Explicit(status), ks)
            && newTime == Reindexed(time, ks) && newReason == Reindexed(reason, ks)
  {
    var newIndex := 0;
    remaining, newStatus, newTime, newReason := [], map[], map[], map[];
    for i := 0 to |keys|
      invariant newIndex == |KeptBut(i, index)|
      invariant remaining == At(keys, KeptBut(i, index))
      invariant newStatus == Reindexed(Explicit(status), KeptBut(i, index))
      invariant newTime == Reindexed(time, KeptBut(i, index))
      invariant newReason == Reindexed(reason, KeptBut(i, index))
    {
      if i != index {
        ghost var ks := KeptBut(i, index);
        assert KeptBut(i + 1, index) == ks + [i];
        AtSnoc(keys, ks, i);
        ReindexedSnoc(Explicit(status), ks, i);
        ReindexedSnoc(time, ks, i);
        ReindexedSnoc(reason, ks, i);
        ExplicitAt(status, i);
        remaining := remaining + [keys[i]];
        newStatus := Put(newStatus, newIndex, if StatusAt(status, i) != ENABLED then Some(status[i]) else None);
        newTime := Put(newTime, newIndex, Lookup(time, i));
        newReason := Put(newReason, newIndex, Lookup(reason, i));
        newIndex := newIndex + 1;
      }
    }
  }

  /** The loop of `delete_disabled_keys`. */
  method RemoveAuto(keys: seq<string>, status: map<int, int>, time: map<int, int>, reason: map<int, string>)
    returns (remaining: seq<string>, newStatus: map<int, int>, newTime: map<int, int>, newReason: map<int, string>, deleted: nat)
    ensures var ks := KeptLive(|keys|, status);
            && remaining == At(keys, ks) && newStatus == Reindexed(Explicit(status), ks)
            && newTime == Reindexed(OutOfService(time, status), ks)
            && newReason == Reindexed(OutOfService(reason, status), ks)
    ensures deleted + |remaining| == |keys|
    ensures deleted > 0 <==> exists k :: 0 <= k < |keys| && StatusAt(status, k) == AUTO_DISABLED
  {
    var newIndex := 0;
    remaining, newStatus, newTime, newReason, deleted := [], map[], map[], map[], 0;
    for i := 0 to |keys|
      invariant newIndex == |KeptLive(i, status)| && deleted + newIndex == i
      invariant remaining == At(keys, KeptLive(i, status))
      invariant newStatus == Reindexed(Explicit(status), KeptLive(i, status))
      invariant newTime == Reindexed(OutOfService(time, status), KeptLive(i, status))
      invariant newReason == Reindexed(OutOfService(reason, status), KeptLive(i, status))
    {
      var s := StatusAt(status, i);
      if s == AUTO_DISABLED {
        deleted := deleted + 1;
      } else {
        ghost var ks := KeptLive(i, status);
        assert KeptLive(i + 1, status) == ks + [i];
        AtSnoc(keys, ks, i);
        ReindexedSnoc(Explicit(status), ks, i);
        ReindexedSnoc(OutOfService(time, status), ks, i);
        ReindexedSnoc(OutOfService(reason, status), ks, i);
        ExplicitAt(status, i);
        OutOfServiceAt(time, status, i);
        OutOfServiceAt(reason, status, i);
        remaining := remaining + [keys[i]];
        if s != ENABLED {
          newStatus := Put(newStatus, newIndex, Some(s));
          newTime := Put(newTime, newIndex, Lookup(time, i));
          newReason := Put(newReason, newIndex, Lookup(reason, i));
        }
        newIndex := newIndex + 1;
      }
    }
    LiveCount(|keys|, status);
  }

  class Channel {
    var text: string
    var size: int
    var status: map<int, int>
    var time: map<int, int>
    var reason: map<int, string>

    constructor (r: Row)
      ensures Value() == r
    {
      text, size, status, time, reason := r.text, r.size, r.status, r.time, r.reason;
    }

    ghost function Value(): (r: Row)
      reads this
    {
      Row(text, size, status, time, reason)
    }

    /** `Channel.Update`, with a database write that succeeds. */
    method Save(n: Row)
      modifies this
      ensures Value() == Stored(old(Value()), n)
      ensures text == (if n.text != "" then n.text else old(text)) && size == |KeysOf(text)| && time == n.time && reason == n.reason
      ensures (forall i :: i in status <==> i in n.status && i < size) && forall i <- status :: status[i] == n.status[i]
    {
      if n.text != "" { text := n.text; }
      size := |KeysOf(text)|;
      time, reason := n.time, n.reason;
      status := Below(n.status, size);
    }

    method DisableKey(i: int) returns (ok: bool)
      modifies this
      ensures Value() == Manage(old(Value()), Disable(i)) && ok == (0 <= i < old(size))
      ensures text == old(text) && time == old(time) && reason == old(reason)
      ensures ok && i < size ==> i in status && status[i] == 2
      ensures forall k :: k != i && 0 <= k < size ==> StatusAt(status, k) == StatusAt(old(status), k)
    {
      if i < 0 || i >= size { return false; }
      Save(Row(text, size, status[i := DISABLED], time, reason));
      return true;
    }

    method EnableKey(i: int) returns (ok: bool)
      modifies this
      ensures Value() == Manage(old(Value()), Enable(i)) && ok == (0 <= i < old(size))
      ensures text == old(text)
      ensures ok ==> i !in status && i !in time && i !in reason
      ensures forall k :: k != i && 0 <= k < size ==>
                && StatusAt(status, k) == StatusAt(old(status), k)
                && Lookup(time, k) == Lookup(old(time), k) && Lookup(reason, k) == Lookup(old(reason), k)
    {
      if i < 0 || i >= size { return false; }
      Save(Row(text, size, status - {i}, time - {i}, reason - {i}));
      return true;
    }

    method EnableAllKeys()
      modifies this
      ensures Value() == Manage(old(Value()), EnableAll)
    {
      Save(Row(text, size, map[], map[], map[]));
    }

    /** Nothing is saved when no key was enabled. */
    method DisableAllKeys() returns (disabled: nat)
      requires size >= 0
      modifies this
      ensures Value() == Manage(old(Value()), DisableAll)
      ensures disabled == CountEnabled(old(status), old(size))
    {
      var marked;
      marked, disabled := Block(status, size);
      CountIsZero(status, size);
      if disabled == 0 {
        return;
      }
      Save(Row(text, size, marked, time, reason));
    }

    /** The last key cannot be deleted. */
    method DeleteKey(index: int) returns (ok: bool)
      modifies this
      ensures Value() == Manage(old(Value()), Delete(index))
      ensures ok <==> InRange(index, old(size)) && KeptBut(|KeysOf(old(text))|, index) != []
    {
      if index < 0 || index >= size { return false; }
      var remaining, newStatus, newTime, newReason := RemoveOne(KeysOf(text), status, time, reason, index);
      if |remaining| == 0 { return false; }
      var rest := Row(Join(remaining, '\n'), |remaining|, newStatus, newTime, newReason);
      assert rest == DeletedAt(Value(), index);
      Save(rest);
      return true;
    }

    /** Returns how many keys were set aside; nothing is saved when there are none. */
    method DeleteDisabledKeys() returns (deleted: nat)
      modifies this
      ensures Value() == Manage(old(Value()), DeleteDisabled)
      ensures deleted + |KeptLive(|KeysOf(old(text))|, old(status))| == |KeysOf(old(text))|
    {
      var remaining, newStatus, newTime, newReason;
      remaining, newStatus, newTime, newReason, deleted := RemoveAuto(KeysOf(text), status, time, reason);
      if deleted == 0 {
        return;
      }
      var pruned := Row(Join(remaining, '\n'), |remaining|, newStatus, newTime, newReason);
      assert pruned == Pruned(Value());
      Save(pruned);
    }

    /** The "append" mode: existing keys first, then every new key once. */
    method AppendKeys(input: string)
      modifies this
      ensures Value() == Appended(old(Value()), input)
    {
      if text == "" {
        Save(Row(input, size, status, time, reason));
        return;
      }
      var existing := Split(Trim(text, {'\n'}), '\n');
      var newKeys := TrimmedLines(input);
      var deduped := Dedup(existing, newKeys);
      Save(Row(Join(existing + deduped, '\n'), size, status, time, reason));
    }
  }

  // ---- Appending ----------------------------------------------------------------------------------------

  /** The keys a batch adds: its non-blank trimmed lines, each once, that no existing key equals up to trimming. */
  function Fresh(existing: seq<string>, input: string): (r: seq<string>) {
    Select(Normalize(Split(input, '\n')), x => x !in TrimAll(existing))
  }

  function Appended(r: Row, input: string): (r': Row) {
    if r.text == "" then Stored(r, r.(text := input))
    else
      var existing := Split(Trim(r.text, {'\n'}), '\n');
      Stored(r, r.(text := Join(existing + Fresh(existing, input), '\n')))
  }

  lemma SelectSnoc(xs: seq<string>, x: string, keep: string -> bool)
    ensures Select(xs + [x], keep) == if keep(x) then Select(xs, keep) + [x] else Select(xs, keep)
  {
    assert (xs + [x])[..|xs|] == xs;
  }

  /** The loop that trims the lines of a batch and drops the blank ones. */
  method TrimmedLines(input: string) returns (newKeys: seq<string>)
    ensures newKeys == TrimAll(Split(input, '\n'))
    ensures forall k <- newKeys :: k != "" && TrimSpace(k) == k
  {
    newKeys := [];
    var lines := Split(input, '\n');
    assert lines[..0] == [];
    for i := 0 to |lines|
      invariant newKeys == TrimAll(lines[..i])
    {
      assert lines[..i + 1] == lines[..i] + [lines[i]];
      TrimAllConcat(lines[..i], [lines[i]]);
      assert [lines[i]][1..] == [];
      var key := TrimSpace(lines[i]);
      if key != "" { newKeys := newKeys + [key]; }
    }
    assert lines[..|lines|] == lines;
    TrimAllTrimmed(lines);
  }

  lemma TrimAllSnoc(xs: seq<string>, i: nat)
    requires i < |xs|
    ensures forall x :: x in TrimAll(xs[..i + 1]) <==> x in TrimAll(xs[..i]) || (x != "" && x == TrimSpace(xs[i]))
  {
    assert xs[..i + 1] == xs[..i] + [xs[i]];
    forall x ensures x in TrimAll(xs[..i + 1]) <==> x in TrimAll(xs[..i]) || (x != "" && x == TrimSpace(xs[i])) {
      TrimAllMembers(xs[..i + 1], x);
      TrimAllMembers(xs[..i], x);
    }
  }

  /** The keys already there, up to trimming. */
  method Seen(existing: seq<string>) returns (seen: set<string>)
    ensures forall x :: x in seen <==> x in TrimAll(existing)
  {
    seen := {};
    for i := 0 to |existing|
      invariant forall x :: x in seen <==> x in TrimAll(existing[..i])
    {
      TrimAllSnoc(existing, i);
      var normalized := TrimSpace(existing[i]);
      if normalized != "" { seen := seen + {normalized}; }
    }
    assert existing[..|existing|] == existing;
  }

  lemma DedupStep(newKeys: seq<string>, i: nat, keep: string -> bool)
    requires i < |newKeys|
    ensures var was := Select(Uniq(newKeys[..i]), keep); var key := newKeys[i];
            Select(Uniq(newKeys[..i + 1]), keep) == if key in newKeys[..i] || !keep(key) then was else was + [key]
  {
    assert newKeys[..i + 1] == newKeys[..i] + [newKeys[i]];
    UniqSnoc(newKeys[..i], newKeys[i]);
    UniqFacts(newKeys[..i]);
    SelectSnoc(Uniq(newKeys[..i]), newKeys[i], keep);
  }

  /** The loop over the new keys. */
  method Dedup(existing: seq<string>, newKeys: seq<string>) returns (deduped: seq<string>)
    requires forall k <- newKeys :: k != "" && TrimSpace(k) == k
    ensures deduped == Select(Uniq(newKeys), x => x !in TrimAll(existing))
  {
    var seen := Seen(existing);
    var keep := x => x !in TrimAll(existing);
    deduped := [];
    assert newKeys[..0] == [];
    for i := 0 to |newKeys|
      invariant deduped == Select(Uniq(newKeys[..i]), keep)
      invariant forall x :: x in seen <==> !keep(x) || x in newKeys[..i]
    {
      DedupStep(newKeys, i, keep);
      assert forall x :: x in newKeys[..i + 1] <==> x in newKeys[..i] || x == newKeys[i];
      var normalized := TrimSpace(newKeys[i]);
      if normalized != "" && normalized !in seen {
        seen := seen + {normalized};
        deduped := deduped + [normalized];
      }
    }
    assert newKeys[..|newKeys|] == newKeys;
  }

  /** A batch adds each of its non-blank trimmed lines exactly once, unless an existing key equals it up to trimming. */
  lemma FreshFacts(existing: seq<string>, input: string)
    ensures IsNormal(Fresh(existing, input)) && forall k <- Fresh(existing, input) :: '\n' !in k
    ensures forall x :: x in Fresh(existing, input) <==>
              && x != "" && (exists line :: line in Split(input, '\n') && TrimSpace(line) == x)
              && !exists k :: k in existing && TrimSpace(k) == x
  {
    var lines := Split(input, '\n');
    NormalizeFacts(lines);
    SelectFacts(Normalize(lines), x => x !in TrimAll(existing));
    SplitPieces(input, '\n');
    forall x | x in Normalize(lines)
      ensures '\n' !in x && (x in TrimAll(existing) <==> exists k :: k in existing && TrimSpace(k) == x)
    {
      TrimAllMembers(existing, x);
      var line :| line in lines && TrimSpace(line) == x;
      TrimIsTrimmed(line, SPACES);
    }
  }

  lemma FreshStorable(existing: seq<string>, input: string)
    ensures Fresh(existing, input) != [] ==> Storable(Fresh(existing, input))
  {
    FreshFacts(existing, input);
    var f := Fresh(existing, input);
    if f != [] {
      assert f[0] in f && f[|f| - 1] in f;
    }
  }

  /** What the stored text yields after an append to a text that is not all newlines. */
  lemma AppendKeepsPrefix(r: Row, input: string)
    requires r.text != "" && Trim(r.text, {'\n'}) != ""
    ensures KeysOf(Appended(r, input).text) == KeysOf(r.text) + Fresh(KeysOf(r.text), input)
  {
    var existing := KeysOf(r.text);
    var added := Fresh(existing, input);
    KeysOfFacts(r.text);
    FreshFacts(existing, input);
    FreshStorable(existing, input);
    var all := existing + added;
    assert Storable(all);
    StoreRoundTripIff(all);
    JoinEnds(all);
  }

  /** An append to a text of nothing but newlines. */
  lemma AppendToBlank(r: Row, input: string)
    requires r.text != "" && Trim(r.text, {'\n'}) == ""
    ensures KeysOf(r.text) == [""]
    ensures var added := Fresh([""], input);
            KeysOf(Appended(r, input).text) == if added == [] then [""] else added
  {
    var added := Fresh([""], input);
    KeysOfFacts(r.text);
    if added == [] {
      assert [""] + added == [""];
    } else {
      FreshFacts([""], input);
      FreshStorable([""], input);
      StoreRoundTripIff(added);
      JoinEnds(added);
      var all := [""] + added;
      assert all[1..] == added;
      assert Join(all, '\n') == ['\n'] + Join(added, '\n');
      assert (['\n'] + Join(added, '\n'))[1..] == Join(added, '\n');
    }
  }

  /** An append to a channel without keys stores the input as it is. */
  lemma AppendToEmpty(r: Row, input: string)
    requires r.text == ""
    ensures KeysOf(Appended(r, input).text) == KeysOf(input)
    ensures Fresh([], input) == Normalize(KeysOf(input))
  {
    TrimKeepsNames(input, '\n');
    SelectAll(Normalize(Split(input, '\n')), x => x !in TrimAll([]));
    if input == "" {
      assert TrimAll([""]) == [] by { assert TrimSpace("") == ""; assert [""][1..] == []; }
    }
  }

  /** The old keys stay an unchanged prefix if and only if the old text is empty or not all newlines, or nothing is
      added. */
  lemma PrefixKeptIff(r: Row, input: string)
    ensures KeysOf(r.text) <= KeysOf(Appended(r, input).text)
            <==> r.text == "" || Trim(r.text, {'\n'}) != "" || Fresh(KeysOf(r.text), input) == []
  {
    if r.text == "" {
      AppendToEmpty(r, input);
    } else if Trim(r.text, {'\n'}) != "" {
      AppendKeepsPrefix(r, input);
    } else {
      AppendToBlank(r, input);
      FreshFacts([""], input);
      var added := Fresh([""], input);
      assert added != [] ==> added[0] in added;
    }
  }

  /** Into a channel without keys the lines go as they are, so they must be trimmed and distinct already; otherwise
      the old text must not be all newlines, or nothing is new. */
  predicate AppendsCleanly(r: Row, input: string) {
    if r.text == "" then IsNormal(KeysOf(input))
    else Trim(r.text, {'\n'}) != "" || Fresh(KeysOf(r.text), input) == []
  }

  /** The old keys stay and each new key is added once, trimmed and unless present, if and only if the append is clean. */
  lemma AppendIsExactIff(r: Row, input: string)
    ensures KeysOf(Appended(r, input).text) == KeysOf(r.text) + Fresh(KeysOf(r.text), input) <==> AppendsCleanly(r, input)
  {
    if r.text == "" {
      AppendToEmpty(r, input);
      NormalizeFacts(KeysOf(input));
      assert [] + Fresh([], input) == Fresh([], input);
      if IsNormal(KeysOf(input)) {
        NormalizeFixed(KeysOf(input));
      }
    } else if Trim(r.text, {'\n'}) != "" {
      AppendKeepsPrefix(r, input);
    } else {
      AppendToBlank(r, input);
      var added := Fresh([""], input);
      assert |[""] + added| == 1 + |added|;
    }
  }

  /** The failing input: a key repeated in the first batch is stored twice. */
  lemma FirstBatchKeepsRepeats(r: Row)
    requires r.text == ""
    ensures KeysOf(Appended(r, "a\na").text) == ["a", "a"] && !AppendsCleanly(r, "a\na")
  {
    var keys := ["a", "a"];
    assert Join(keys[1..], '\n') == "a";
    assert Join(keys, '\n') == "a\na";
    StoreRoundTripIff(keys);
    AppendToEmpty(r, "a\na");
  }

  /** A clean append changes the text and the size only. */
  lemma AppendedRow(r: Row, input: string)
    requires Consistent(r) && AppendsCleanly(r, input)
    ensures var r' := Appended(r, input); var added := Fresh(KeysOf(r.text), input);
            && r' == r.(text := r'.text, size := r.size + |added|) && KeysOf(r'.text) == KeysOf(r.text) + added
  {
    AppendIsExactIff(r, input);
    var n := r.size + |Fresh(KeysOf(r.text), input)|;
    assert Below(r.status, n) == r.status;
  }

  lemma LongerView(r: Row, r': Row, added: seq<string>)
    requires Consistent(r) && r' == r.(text := r'.text, size := r.size + |added|) && KeysOf(r'.text) == KeysOf(r.text) + added
    ensures Consistent(r') && |View(r')| == |View(r)| + |added|
    ensures forall i :: 0 <= i < |View(r)| ==> View(r')[i] == View(r)[i]
    ensures forall j :: 0 <= j < |added| ==> View(r')[|View(r)| + j] == Record(added[j], ENABLED, None, None)
  {
    forall i | 0 <= i < |View(r)| ensures View(r')[i] == View(r)[i] {
      ViewAt(r, i);
      ViewAt(r', i);
    }
    forall j | 0 <= j < |added| ensures View(r')[|View(r)| + j] == Record(added[j], ENABLED, None, None) {
      ViewAt(r', r.size + j);
    }
  }

  /** Every record keeps its key, status, time and reason; the new keys follow, enabled. */
  lemma AppendExtendsView(r: Row, input: string)
    requires Consistent(r) && AppendsCleanly(r, input)
    ensures var r' := Appended(r, input); var added := Fresh(KeysOf(r.text), input);
            && Consistent(r') && |View(r')| == |View(r)| + |added|
            && (forall i :: 0 <= i < |View(r)| ==> View(r')[i] == View(r)[i])
            && (forall j :: 0 <= j < |added| ==> View(r')[|View(r)| + j] == Record(added[j], ENABLED, None, None))
  {
    AppendedRow(r, input);
    LongerView(r, Appended(r, input), Fresh(KeysOf(r.text), input));
  }

  /** A line is either already there up to trimming or among the keys a batch adds. */
  lemma LineCovered(existing: seq<string>, input: string, keys: seq<string>, x: string)
    requires x in Normalize(Split(input, '\n'))
    requires (forall k <- Fresh(existing, input) :: k in keys) && (forall k <- existing :: k != "" ==> k in keys)
    ensures x in TrimAll(keys)
  {
    TrimAllMembers(keys, x);
    NormalizeFacts(Split(input, '\n'));
    SelectFacts(Normalize(Split(input, '\n')), y => y !in TrimAll(existing));
    if x in TrimAll(existing) {
      TrimAllMembers(existing, x);
      var k :| k in existing && TrimSpace(k) == x;
      assert TrimSpace("") == "";
    } else {
      assert x in Fresh(existing, input);
    }
  }

  lemma NothingFresh(existing: seq<string>, input: string, keys: seq<string>)
    requires (forall k <- Fresh(existing, input) :: k in keys) && (forall k <- existing :: k != "" ==> k in keys)
    ensures Fresh(keys, input) == []
  {
    var lines := Normalize(Split(input, '\n'));
    forall x | x in lines ensures x in TrimAll(keys) {
      LineCovered(existing, input, keys, x);
    }
    SelectFacts(lines, x => x !in TrimAll(keys));
    EmptyOrMember(Fresh(keys, input));
  }

  /** After an append nothing of the same batch is fresh. */
  lemma NothingFreshAfter(r: Row, input: string)
    ensures Fresh(KeysOf(Appended(r, input).text), input) == []
  {
    var keys := KeysOf(Appended(r, input).text);
    if r.text == "" {
      AppendToEmpty(r, input);
      TrimKeepsNames(input, '\n');
      var lines := Split(input, '\n');
      forall x | x in Normalize(lines) ensures x in TrimAll(keys) {
        UniqFacts(TrimAll(lines));
        assert input == "" ==> TrimAll(lines) == [] by { assert TrimSpace("") == ""; assert [""][1..] == []; }
      }
      SelectFacts(Normalize(lines), x => x !in TrimAll(keys));
      EmptyOrMember(Fresh(keys, input));
    } else {
      if Trim(r.text, {'\n'}) != "" { AppendKeepsPrefix(r, input); } else { AppendToBlank(r, input); }
      NothingFresh(KeysOf(r.text), input, keys);
    }
  }

  /** An append of which nothing is fresh leaves the keys as they are. */
  lemma NothingToAppend(r: Row, input: string)
    requires Fresh(KeysOf(r.text), input) == []
    ensures r.text != "" ==> KeysOf(Appended(r, input).text) == KeysOf(r.text)
  {
    if r.text != "" {
      AppendIsExactIff(r, input);
    }
  }

  /** Appending the same batch again adds nothing. */
  lemma AppendTwice(r: Row, input: string)
    ensures Fresh(KeysOf(Appended(r, input).text), input) == []
    ensures KeysOf(Appended(Appended(r, input), input).text) == KeysOf(Appended(r, input).text)
  {
    var r' := Appended(r, input);
    NothingFreshAfter(r, input);
    NothingToAppend(r', input);
    if r'.text == "" {
      AppendToEmpty(r, input);
      AppendToEmpty(r', input);
    }
  }
}
