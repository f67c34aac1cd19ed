/** Whole runs of checks and applies on one channel row, and the row as the two handlers update it. */
module ReconcileRuns {
  import opened Wrappers
  import opened Text
  import opened ModelNames
  import opened Reconcile

  /** `saved` says whether the database write of the step succeeded; a failed write leaves the row as it was. */
  datatype Event =
    | Check(upstream: Option<seq<string>>, now: int, force: bool, allowAuto: bool, saved: bool)
    | Apply(adds: seq<string>, ignores: seq<string>, removes: seq<string>, now: int, saved: bool)

  function Exec(c: Channel, cfg: Config, e: Event): (c': Channel) {
    if !e.saved then c
    else match e
      case Check(upstream, now, force, allowAuto, _) => Checked(c, cfg, upstream, now, force, allowAuto)
      case Apply(adds, ignores, removes, now, _) => Applied(c, adds, ignores, removes, now)
  }

  ghost predicate IsRun(run: seq<Channel>, events: seq<Event>, cfg: Config) {
    && |run| == |events| + 1
    && forall i :: 0 <= i < |events| ==> run[i + 1] == Exec(run[i], cfg, events[i])
  }

  /** The check goes past its rate limit and has an upstream list. */
  predicate Looks(c: Channel, cfg: Config, e: Event) {
    && e.Check? && e.saved && e.upstream.Some?
    && (e.force || c.lastCheck <= 0 || e.now - c.lastCheck >= cfg.minInterval)
  }

  /** The names a step sets out to add to the channel. */
  function Added(c: Channel, cfg: Config, e: Event): (names: seq<string>) {
    if e.Apply? && e.saved then SelectedAdd(c, e.adds)
    else if Looks(c, cfg, e) && e.allowAuto && cfg.autoSync
    then Collect(GetModels(c.models), e.upstream.value, c.ignored, cfg).add
    else []
  }

  lemma ApplyGains(c: Channel, adds: seq<string>, ignores: seq<string>, removes: seq<string>, now: int, x: string)
    requires !IsPieceOf(x, Local(c))
    ensures x in Local(Applied(c, adds, ignores, removes, now)) <==> IsPieceOf(x, SelectedAdd(c, adds))
  {
    SelectionFacts(c, adds, removes);
    NextModelsFacts(c, adds, removes);
    AppliedLocal(c, adds, ignores, removes, now);
    PiecesOfUnion(x, Local(c), SelectedAdd(c, adds), NextModels(c, adds, removes));
  }

  /** An auto-sync with something to add stores the old names followed by the new ones. */
  lemma AutoSyncStores(c: Channel, cfg: Config, e: Event)
    requires e.Check? && Added(c, cfg, e) != []
    ensures Exec(c, cfg, e).models == Join(Local(c) + Added(c, cfg, e), ',')
  {
    CollectFacts(GetModels(c.models), e.upstream.value, c.ignored, cfg);
    LocalIsNormal(c);
    MergeNew(Local(c), Added(c, cfg, e));
  }

  lemma CheckGains(c: Channel, cfg: Config, e: Event, x: string)
    requires e.Check? && !IsPieceOf(x, Local(c)) && Added(c, cfg, e) != []
    ensures x in Local(Exec(c, cfg, e)) <==> IsPieceOf(x, Added(c, cfg, e))
  {
    var all := Local(c) + Added(c, cfg, e);
    AutoSyncStores(c, cfg, e);
    StoredPieces(all);
    PiecesOfUnion(x, Local(c), Added(c, cfg, e), all);
  }

  /** The channel gains exactly the comma-separated pieces of the names a step sets out to add. */
  lemma GainsExactly(c: Channel, cfg: Config, e: Event, x: string)
    requires x !in Local(c)
    ensures x in Local(Exec(c, cfg, e)) <==> IsPieceOf(x, Added(c, cfg, e))
  {
    StoredNamesArePlain(c.models);
    LocalIsNormal(c);
    PlainPieces(Local(c));
    if e.Apply? && e.saved {
      ApplyGains(c, e.adds, e.ignores, e.removes, e.now, x);
    } else if Added(c, cfg, e) != [] {
      CheckGains(c, cfg, e, x);
    }
  }

  /** Pieces of a list made of some of `base` and all of `add`. */
  lemma PiecesOfUnion(x: string, base: seq<string>, add: seq<string>, all: seq<string>)
    requires !IsPieceOf(x, base)
    requires forall n <- add :: n in all
    requires forall n <- all :: n in base || n in add
    ensures IsPieceOf(x, all) <==> IsPieceOf(x, add)
  {
    if IsPieceOf(x, all) {
      var n, p :| n in all && p in Split(n, ',') && TrimSpace(p) == x;
      assert n in base ==> IsPieceOf(x, base);
      assert IsPieceOf(x, add);
    }
    if IsPieceOf(x, add) {
      var n, p :| n in add && p in Split(n, ',') && TrimSpace(p) == x;
      assert n in all;
    }
  }

  // ---- Ignored names ---------------------------------------------------------------------------------

  /** No plain name is both pending and ignored. */
  ghost predicate Disjoint(c: Channel) {
    forall x <- Normalize(c.detected) :: IsPlain(x) ==> x !in Normalize(c.ignored)
  }

  lemma CheckFacts(c: Channel, cfg: Config, e: Event)
    requires e.Check?
    ensures var c' := Exec(c, cfg, e);
            && c'.ignored == c.ignored
            && (forall x <- Normalize(c'.detected) ::
                  || x in Normalize(c.detected)
                  || (Looks(c, cfg, e) && x in Collect(GetModels(c.models), e.upstream.value, c.ignored, cfg).add))
            && (Looks(c, cfg, e) ==> forall x <- Normalize(c'.detected) ::
                  x in Collect(GetModels(c.models), e.upstream.value, c.ignored, cfg).add)
  {
    if Looks(c, cfg, e) {
      CollectFacts(GetModels(c.models), e.upstream.value, c.ignored, cfg);
      NormalizeFixed(Collect(GetModels(c.models), e.upstream.value, c.ignored, cfg).add);
      NormalizeFixed([]);
    }
  }

  /** What a check writes: nothing when it comes too early or cannot be saved, only the time when the fetch fails, and
      otherwise the time, the missing names and the names to drop.  Names are missing if they are offered, no other
      rule stops them and auto-sync does not take them; names are dropped if they are neither offered nor redirected. */
  lemma CheckMeans(c: Channel, cfg: Config, e: Event)
    requires e.Check?
    ensures var c' := Exec(c, cfg, e);
            if !e.saved || (!e.force && c.lastCheck > 0 && e.now - c.lastCheck < cfg.minInterval) then c' == c
            else if e.upstream == None then c' == c.(lastCheck := e.now)
            else
              && c'.lastCheck == e.now && c'.ignored == c.ignored
              && (!(e.allowAuto && cfg.autoSync) ==> c'.models == c.models)
              && (forall x :: x in c'.removed <==>
                    x in Local(c) && x !in cfg.mapping.Keys && x !in Normalize(e.upstream.value))
              && (forall x :: x in c'.detected <==>
                    && !(e.allowAuto && cfg.autoSync) && x in Normalize(e.upstream.value)
                    && IsCandidate(x, Local(c), cfg.mapping) && !Ignores(c.ignored, x, cfg.matches))
  {
    if e.upstream.Some? {
      CollectFacts(GetModels(c.models), e.upstream.value, c.ignored, cfg);
    }
  }

  lemma StepKeepsDisjoint(c: Channel, cfg: Config, e: Event)
    requires Disjoint(c)
    ensures Disjoint(Exec(c, cfg, e))
  {
    var c' := Exec(c, cfg, e);
    if e.Check? {
      CheckFacts(c, cfg, e);
      if Looks(c, cfg, e) {
        CollectFacts(GetModels(c.models), e.upstream.value, c.ignored, cfg);
        forall x | x in Normalize(c'.detected) && IsPlain(x) ensures x !in Normalize(c'.ignored) {
          assert RuleHits(x, x, cfg.matches);
        }
      }
    } else if e.saved {
      AppliedLists(c, e.adds, e.ignores, e.removes, e.now);
    }
  }

  /** Ignored and pending plain names stay disjoint over every run. */
  lemma {:induction false} PendingNeverIgnored(run: seq<Channel>, events: seq<Event>, cfg: Config, i: nat)
    requires IsRun(run, events, cfg) && Disjoint(run[0]) && i < |run|
    ensures Disjoint(run[i])
  {
    if i > 0 {
      PendingNeverIgnored(run, events, cfg, i - 1);
      StepKeepsDisjoint(run[i - 1], cfg, events[i - 1]);
    }
  }

  ghost predicate Suppressed(c: Channel, x: string) {
    x in Normalize(c.ignored) && x !in Normalize(c.detected)
  }

  lemma StepKeepsSuppressed(c: Channel, cfg: Config, e: Event, x: string)
    requires IsPlain(x) && Suppressed(c, x)
    ensures Suppressed(Exec(c, cfg, e), x)
    ensures x !in Added(c, cfg, e)
  {
    if e.Check? {
      CheckFacts(c, cfg, e);
      if Looks(c, cfg, e) {
        CollectFacts(GetModels(c.models), e.upstream.value, c.ignored, cfg);
        assert RuleHits(x, x, cfg.matches);
      }
    } else if e.saved {
      AppliedLists(c, e.adds, e.ignores, e.removes, e.now);
      SelectionFacts(c, e.adds, e.removes);
    }
  }

  /** Every upstream list of the run, and what was pending when it began, is free of commas. */
  ghost predicate CommaFree(c: Channel, events: seq<Event>) {
    && (forall x <- Normalize(c.detected) :: ',' !in x)
    && (forall e <- events :: e.Check? && e.upstream.Some? ==> forall u <- Normalize(e.upstream.value) :: ',' !in u)
  }

  lemma {:induction false} PendingStaysCommaFree(run: seq<Channel>, events: seq<Event>, cfg: Config, i: nat)
    requires IsRun(run, events, cfg) && CommaFree(run[0], events) && i < |run|
    ensures forall x <- Normalize(run[i].detected) :: ',' !in x
  {
    if i > 0 {
      PendingStaysCommaFree(run, events, cfg, i - 1);
      var c, e := run[i - 1], events[i - 1];
      if e.Check? {
        CheckFacts(c, cfg, e);
        if Looks(c, cfg, e) {
          CollectFacts(GetModels(c.models), e.upstream.value, c.ignored, cfg);
        }
      } else if e.saved {
        AppliedLists(c, e.adds, e.ignores, e.removes, e.now);
      }
    }
  }

  lemma AddedIsCommaFree(run: seq<Channel>, events: seq<Event>, cfg: Config, i: nat)
    requires IsRun(run, events, cfg) && CommaFree(run[0], events) && i < |events|
    ensures var add := Added(run[i], cfg, events[i]); IsNormal(add) && forall x <- add :: ',' !in x
  {
    PendingStaysCommaFree(run, events, cfg, i);
    var c, e := run[i], events[i];
    if e.Apply? && e.saved {
      SelectionFacts(c, e.adds, e.removes);
    } else if Added(c, cfg, e) != [] {
      CollectFacts(GetModels(c.models), e.upstream.value, c.ignored, cfg);
    }
  }

  /** Without commas a name that a step does not set out to add is not gained by it. */
  lemma NotGained(run: seq<Channel>, events: seq<Event>, cfg: Config, i: nat, x: string)
    requires IsRun(run, events, cfg) && CommaFree(run[0], events) && i < |events|
    requires x !in Local(run[i]) && x !in Added(run[i], cfg, events[i])
    ensures x !in Local(run[i + 1])
  {
    GainsExactly(run[i], cfg, events[i], x);
    AddedIsCommaFree(run, events, cfg, i);
    PlainPieces(Added(run[i], cfg, events[i]));
  }

  /** Without commas a name that no step sets out to add is never gained. */
  lemma {:induction false} NeverGained(run: seq<Channel>, events: seq<Event>, cfg: Config, x: string, i: nat)
    requires IsRun(run, events, cfg) && CommaFree(run[0], events) && i < |run| && x !in Local(run[0])
    requires forall j :: 0 <= j < |events| ==> x !in Added(run[j], cfg, events[j])
    ensures x !in Local(run[i])
  {
    if i > 0 {
      NeverGained(run, events, cfg, x, i - 1);
      NotGained(run, events, cfg, i - 1, x);
    }
  }

  lemma {:induction false} SuppressedForever(run: seq<Channel>, events: seq<Event>, cfg: Config, x: string, i: nat)
    requires IsRun(run, events, cfg) && i < |run| && IsPlain(x) && Suppressed(run[0], x)
    ensures Suppressed(run[i], x)
  {
    if i > 0 {
      SuppressedForever(run, events, cfg, x, i - 1);
      StepKeepsSuppressed(run[i - 1], cfg, events[i - 1], x);
    }
  }

  /** A plain name that is ignored and not pending stays ignored, never becomes pending, and is never added,
      whatever the checks find and whatever selections are applied. */
  lemma IgnoredForever(run: seq<Channel>, events: seq<Event>, cfg: Config, x: string, i: nat)
    requires IsRun(run, events, cfg) && CommaFree(run[0], events) && i < |run|
    requires IsPlain(x) && Suppressed(run[0], x)
    ensures Suppressed(run[i], x)
    ensures x !in Local(run[0]) ==> x !in Local(run[i])
  {
    SuppressedForever(run, events, cfg, x, i);
    forall j | 0 <= j < |events| ensures x !in Added(run[j], cfg, events[j]) {
      SuppressedForever(run, events, cfg, x, j);
      StepKeepsSuppressed(run[j], cfg, events[j], x);
    }
    if x !in Local(run[0]) {
      NeverGained(run, events, cfg, x, i);
    }
  }

  /** What an apply puts on the ignore list and does not add is suppressed from then on. */
  lemma IgnoringSuppresses(c: Channel, cfg: Config, e: Event, x: string)
    requires e.Apply? && e.saved && x in Normalize(c.detected) && x in Normalize(e.ignores) && x !in Normalize(e.adds)
    ensures Suppressed(Exec(c, cfg, e), x)
  {
    AppliedLists(c, e.adds, e.ignores, e.removes, e.now);
    SelectionFacts(c, e.adds, e.removes);
  }

  // ---- Hard exclusions -------------------------------------------------------------------------------

  lemma {:induction false} ExcludedNeverPending(run: seq<Channel>, events: seq<Event>, cfg: Config, h: string, i: nat)
    requires IsRun(run, events, cfg) && i < |run| && h in HARD_EXCLUSIONS && h !in Normalize(run[0].detected)
    ensures h !in Normalize(run[i].detected)
    ensures i < |events| ==> h !in Added(run[i], cfg, events[i])
  {
    if i > 0 {
      ExcludedNeverPending(run, events, cfg, h, i - 1);
      StepKeepsExcluded(run[i - 1], cfg, events[i - 1], h);
    }
    if i < |events| {
      StepKeepsExcluded(run[i], cfg, events[i], h);
    }
  }

  lemma ExclusionsAreTrimmed(h: string)
    requires h in HARD_EXCLUSIONS
    ensures TrimSpace(h) == h != "" && ',' !in h
  {
    TrimmedIsFixed(h, SPACES);
  }

  lemma StepKeepsExcluded(c: Channel, cfg: Config, e: Event, h: string)
    requires h in HARD_EXCLUSIONS && h !in Normalize(c.detected)
    ensures h !in Normalize(Exec(c, cfg, e).detected)
    ensures h !in Added(c, cfg, e)
  {
    ExclusionsAreTrimmed(h);
    if e.Check? {
      CheckFacts(c, cfg, e);
      if Looks(c, cfg, e) {
        CollectFacts(GetModels(c.models), e.upstream.value, c.ignored, cfg);
      }
    } else if e.saved {
      AppliedLists(c, e.adds, e.ignores, e.removes, e.now);
      SelectionFacts(c, e.adds, e.removes);
    }
  }

  /** A hard-excluded name is never added by auto-sync or by an apply, over runs without commas. */
  lemma ExcludedNeverAdded(run: seq<Channel>, events: seq<Event>, cfg: Config, h: string, i: nat)
    requires IsRun(run, events, cfg) && CommaFree(run[0], events) && i < |run|
    requires h in HARD_EXCLUSIONS && h !in Normalize(run[0].detected) && h !in Local(run[0])
    ensures h !in Local(run[i])
  {
    forall j | 0 <= j < |events| ensures h !in Added(run[j], cfg, events[j]) {
      ExcludedNeverPending(run, events, cfg, h, j);
    }
    NeverGained(run, events, cfg, h, i);
  }

  /** With a comma the denylist is bypassed: auto-sync on the name "h,rest" adds the excluded name h... */
  lemma CommaBypasses(cfg: Config, h: string, rest: string)
    requires h in HARD_EXCLUSIONS && cfg.autoSync
    requires var name := h + [','] + rest;
             Trimmed(name, SPACES) && name !in HARD_EXCLUSIONS && name !in cfg.mapping.Values
    ensures h in Local(Exec(Channel("", [], [], [], 0), cfg, Check(Some([h + [','] + rest]), 1, true, true, true)))
  {
    var c, name := Channel("", [], [], [], 0), h + [','] + rest;
    var e := Check(Some([name]), 1, true, true, true);
    TrimmedIsFixed(name, SPACES);
    NormalizeFixed([name]);
    NormalizeFixed([]);
    CollectFacts([], [name], [], cfg);
    assert name in Added(c, cfg, e);
    ExclusionsAreTrimmed(h);
    FirstPiece(h, rest);
    GainsExactly(c, cfg, e, h);
  }

  lemma FirstPiece(h: string, rest: string)
    requires ',' !in h
    ensures h in Split(h + [','] + rest, ',')
  {
    SplitConcat(h, rest, ',');
    SplitPlain(h, ',');
  }

  /** ... for instance "minimax-m3". */
  lemma CommaBypassExample(cfg: Config)
    requires cfg.mapping == map[] && cfg.autoSync
    ensures "minimax-m3" in Local(Exec(Channel("", [], [], [], 0), cfg, Check(Some(["minimax-m3,x"]), 1, true, true, true)))
  {
    assert "minimax-m3" + [','] + "x" == "minimax-m3,x";
    CommaBypasses(cfg, "minimax-m3", "x");
  }

  /** With a comma an ignored name is added as well: auto-sync on the name "x,rest" adds the ignored x... */
  lemma CommaAddsIgnored(cfg: Config, x: string, rest: string)
    requires cfg.autoSync && IsPlain(x) && Trimmed(x, SPACES) && x != "" && ',' !in x
    requires var name := x + [','] + rest;
             Trimmed(name, SPACES) && name !in HARD_EXCLUSIONS && name !in cfg.mapping.Values
    ensures var c := Channel("", [x], [], [], 0);
            && Suppressed(c, x) && x !in Local(c)
            && x in Local(Exec(c, cfg, Check(Some([x + [','] + rest]), 1, true, true, true)))
  {
    var c, name := Channel("", [x], [], [], 0), x + [','] + rest;
    var e := Check(Some([name]), 1, true, true, true);
    TrimmedIsFixed(name, SPACES);
    TrimmedIsFixed(x, SPACES);
    NormalizeFixed([name]);
    NormalizeFixed([x]);
    NormalizeFixed([]);
    CollectFacts([], [name], [x], cfg);
    assert !RuleHits(x, name, cfg.matches);
    assert x in [x] && name in [name];
    assert name in Added(c, cfg, e);
    FirstPiece(x, rest);
    GainsExactly(c, cfg, e, x);
  }

  /** ... for instance "a" from "a,b". */
  lemma CommaAddsIgnoredExample(cfg: Config)
    requires cfg.mapping == map[] && cfg.autoSync
    ensures "a" in Local(Exec(Channel("", ["a"], [], [], 0), cfg, Check(Some(["a,b"]), 1, true, true, true)))
  {
    assert "a" + [','] + "b" == "a,b";
    assert "a,b"[0] == 'a' && "a,b"[2] == 'b';
    CommaAddsIgnored(cfg, "a", "b");
  }

  /** Every name found missing makes the channel's list one longer. */
  lemma AutoSyncGrows(c: Channel, upstream: seq<string>, cfg: Config)
    ensures var add := Collect(GetModels(c.models), upstream, c.ignored, cfg).add;
            |Merge(Local(c), add)| == |Local(c)| + |add|
  {
    CollectFacts(GetModels(c.models), upstream, c.ignored, cfg);
    LocalIsNormal(c);
    MergeNew(Local(c), Collect(GetModels(c.models), upstream, c.ignored, cfg).add);
  }

  // ---- The row itself --------------------------------------------------------------------------------

  class ChannelRow {
    var models: string
    var ignored: seq<string>
    var detected: seq<string>
    var removed: seq<string>
    var lastCheck: int

    constructor (c: Channel)
      ensures Value() == c
    {
      models, ignored, detected, removed, lastCheck := c.models, c.ignored, c.detected, c.removed, c.lastCheck;
    }

    ghost function Value(): (c: Channel)
      reads this
    {
      Channel(models, ignored, detected, removed, lastCheck)
    }

    method Save(newModels: string, newIgnored: seq<string>, newDetected: seq<string>, newRemoved: seq<string>, now: int)
      modifies this
      ensures Value() == Channel(newModels, newIgnored, newDetected, newRemoved, now)
    {
      models, ignored, detected, removed, lastCheck := newModels, newIgnored, newDetected, newRemoved, now;
    }

    /** `checkAndPersistChannelUpstreamModelUpdates`; `autoAdded` counts the names the auto-sync adds. */
    method CheckAndPersist(cfg: Config, upstream: Option<seq<string>>, now: int, force: bool, allowAuto: bool, saved: bool)
      returns (modelsChanged: bool, autoAdded: int)
      modifies this
      ensures Value() == Exec(old(Value()), cfg, Check(upstream, now, force, allowAuto, saved))
      ensures autoAdded == |Added(old(Value()), cfg, Check(upstream, now, force, allowAuto, true))|
      ensures !saved || (!force && old(lastCheck) > 0 && now - old(lastCheck) < cfg.minInterval) ==> Value() == old(Value())
      ensures modelsChanged <==> saved && autoAdded > 0
    {
      modelsChanged, autoAdded := false, 0;
      if !force && lastCheck > 0 && now - lastCheck < cfg.minInterval {
        return;
      }
      if upstream == None {
        if saved { lastCheck := now; }
        return;
      }
      var p := Collect(GetModels(models), upstream.value, ignored, cfg);
      var newModels, newDetected := models, p.add;
      if allowAuto && cfg.autoSync && p.add != [] {
        var origin := Normalize(GetModels(models));
        var merged := MergeModelNames(origin, p.add);
        AutoSyncGrows(Value(), upstream.value, cfg);
        if |merged| > |origin| {
          newModels := Join(merged, ',');
          autoAdded := |merged| - |origin|;
        }
        newDetected := [];
      }
      if saved {
        modelsChanged := autoAdded > 0;
        Save(newModels, ignored, newDetected, p.remove, now);
      }
    }

    /** `applyChannelUpstreamModelUpdates`. */
    method ApplyUpdates(adds: seq<string>, ignores: seq<string>, removes: seq<string>, now: int, saved: bool, ghost cfg: Config)
      returns (added: seq<string>, gone: seq<string>, remaining: seq<string>, remainingRemove: seq<string>, changed: bool)
      modifies this
      ensures Value() == Exec(old(Value()), cfg, Apply(adds, ignores, removes, now, saved))
      ensures saved ==>
                && added == SelectedAdd(old(Value()), adds) && gone == SelectedRemove(old(Value()), adds, removes)
                && remaining == detected && remainingRemove == removed
                && (forall x :: x in remaining <==> x in Normalize(old(detected)) && x !in added && x !in Normalize(ignores))
                && (forall x :: x in remainingRemove <==>
                      x in Normalize(old(removed)) && !(x in Normalize(removes) && x !in added))
                && changed == (Local(old(Value())) != NextModels(old(Value()), adds, removes))
      ensures !saved ==> added == [] && gone == [] && remaining == [] && remainingRemove == [] && !changed
    {
      var pendingAdd, pendingRemove := Normalize(detected), Normalize(removed);
      added := Intersect(adds, pendingAdd);
      var ignore := Intersect(ignores, pendingAdd);
      gone := Subtract(Intersect(removes, pendingRemove), added);
      var origin := Normalize(GetModels(models));
      var next := ApplySelected(origin, added, gone);
      changed := origin != next;
      var newIgnored := MergeModelNames(ignored, ignore);
      if added != [] {
        newIgnored := Subtract(newIgnored, added);
      }
      remaining := Subtract(pendingAdd, added + ignore);
      remainingRemove := Subtract(pendingRemove, gone);
      if !saved {
        return [], [], [], [], false;
      }
      AppliedLists(Value(), adds, ignores, removes, now);
      NormalizeFixed(remaining);
      NormalizeFixed(remainingRemove);
      Save(if changed then Join(next, ',') else models, newIgnored, remaining, remainingRemove, now);
    }
  }
}
