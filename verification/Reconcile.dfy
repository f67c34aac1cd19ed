/** Reconciling a channel's model list with its upstream: detection of pending changes, the periodic check
    with auto-sync, and the application of selected changes.

    Regular-expression matching is a parameter: `matches(body, name)` is false when the body does not compile. */
module Reconcile {
  import opened Text
  import opened ModelNames
  import opened Wrappers

  /** Names the auto-sync must never add. */
  const HARD_EXCLUSIONS: set<string> := {"minimax-m2.7", "minimax-m3", "comfyui-minimax-h3-r2v"}

  const REGEX_PREFIX: string := "regex:"

  /** The redirect mapping with blank sources and targets removed, and the channel's switches. */
  datatype Config = Config(
    mapping: map<string, string>,
    matches: (string, string) -> bool,
    autoSync: bool,
    minInterval: int)

  /** The stored row: the model list as text and the upstream-update settings. */
  datatype Channel = Channel(
    models: string,
    ignored: seq<string>,
    detected: seq<string>,
    removed: seq<string>,
    lastCheck: int)

  datatype Pending = Pending(add: seq<string>, remove: seq<string>)

  function Local(c: Channel): (names: seq<string>) {
    Normalize(GetModels(c.models))
  }

  predicate IsPlain(name: string) {
    !(REGEX_PREFIX <= name)
  }

  predicate RuleHits(rule: string, name: string, matches: (string, string) -> bool) {
    if IsPlain(rule) then rule == name else matches(TrimSpace(rule[|REGEX_PREFIX|..]), name)
  }

  predicate Ignores(ignored: seq<string>, name: string, matches: (string, string) -> bool) {
    exists rule <- Normalize(ignored) :: RuleHits(rule, name, matches)
  }

  /** An upstream name that is neither excluded, nor local, nor the target of a redirect. */
  predicate IsCandidate(name: string, local: seq<string>, mapping: map<string, string>) {
    && TrimSpace(name) !in HARD_EXCLUSIONS
    && name !in local
    && name !in mapping.Values
  }

  function Collect(local0: seq<string>, upstream0: seq<string>, ignored: seq<string>, cfg: Config): (p: Pending) {
    var local := Normalize(local0);
    var upstream := Normalize(upstream0);
    var add := Select(upstream, x => IsCandidate(x, local, cfg.mapping) && !Ignores(ignored, x, cfg.matches));
    var remove := Select(local, x => x !in cfg.mapping.Keys && x !in upstream);
    Pending(Normalize(add), Normalize(remove))
  }

  /** The row after a check that fetched `upstream` (None: the fetch failed) and whose write succeeded. */
  function Checked(c: Channel, cfg: Config, upstream: Option<seq<string>>, now: int, force: bool, allowAuto: bool)
    : (c': Channel)
  {
    if !force && c.lastCheck > 0 && now - c.lastCheck < cfg.minInterval then c
    else if upstream == None then c.(lastCheck := now)
    else
      var p := Collect(GetModels(c.models), upstream.value, c.ignored, cfg);
      var d := c.(lastCheck := now, removed := p.remove);
      if allowAuto && cfg.autoSync && p.add != [] then
        var merged := Merge(Local(c), p.add);
        d.(detected := [], models := if |merged| > |Local(c)| then Join(merged, ',') else c.models)
      else
        d.(detected := p.add)
  }

  function ApplySelected(origin: seq<string>, add: seq<string>, remove: seq<string>): (r: seq<string>) {
    var add' := Normalize(add);
    var remove' := Subtract(Normalize(remove), add');
    Subtract(Merge(origin, add'), remove')
  }

  function SelectedAdd(c: Channel, adds: seq<string>): (r: seq<string>) {
    Intersect(adds, Normalize(c.detected))
  }

  function SelectedRemove(c: Channel, adds: seq<string>, removes: seq<string>): (r: seq<string>) {
    Subtract(Intersect(removes, Normalize(c.removed)), SelectedAdd(c, adds))
  }

  function NextModels(c: Channel, adds: seq<string>, removes: seq<string>): (r: seq<string>) {
    ApplySelected(Local(c), SelectedAdd(c, adds), SelectedRemove(c, adds, removes))
  }

  /** The row after applying a selection, when the write succeeded. */
  function Applied(c: Channel, adds: seq<string>, ignores: seq<string>, removes: seq<string>, now: int): (c': Channel) {
    var add := SelectedAdd(c, adds);
    var ignore := Intersect(ignores, Normalize(c.detected));
    var remove := SelectedRemove(c, adds, removes);
    var next := NextModels(c, adds, removes);
    var ignored := Merge(c.ignored, ignore);
    Channel(
      if Local(c) != next then Join(next, ',') else c.models,
      if add != [] then Subtract(ignored, add) else ignored,
      Subtract(Normalize(c.detected), add + ignore),
      Subtract(Normalize(c.removed), remove),
      now)
  }

  // ---- What the pieces mean -------------------------------------------------------------------------

  /** Detection, as an independent definition: which names are pending. */
  lemma CollectFacts(local: seq<string>, upstream: seq<string>, ignored: seq<string>, cfg: Config)
    ensures var p := Collect(local, upstream, ignored, cfg);
            && IsNormal(p.add) && IsNormal(p.remove)
            && (forall x :: x in p.add <==> x in Normalize(upstream) && IsCandidate(x, Normalize(local), cfg.mapping)
                                            && !Ignores(ignored, x, cfg.matches))
            && (forall x :: x in p.remove <==> x in Normalize(local) && x !in cfg.mapping.Keys && x !in Normalize(upstream))
  {
    var l, u := Normalize(local), Normalize(upstream);
    NormalizeFacts(local);
    NormalizeFacts(upstream);
    var wanted := x => IsCandidate(x, l, cfg.mapping) && !Ignores(ignored, x, cfg.matches);
    var stale := x => x !in cfg.mapping.Keys && x !in u;
    SelectFacts(u, wanted);
    SelectFacts(l, stale);
    NormalizeFixed(Select(u, wanted));
    NormalizeFixed(Select(l, stale));
  }

  /** What a rule catches: its own text, or what its regular expression matches. */
  lemma RuleMeans(rule: string, name: string, matches: (string, string) -> bool)
    ensures RuleHits(rule, name, matches) ==
              if |rule| >= 6 && rule[..6] == "regex:" then matches(TrimSpace(rule[6..]), name) else rule == name
  {
    assert IsPlain(rule) <==> !(|rule| >= 6 && rule[..6] == "regex:");
  }

  lemma CandidateMeans(name: string, local: seq<string>, mapping: map<string, string>)
    requires TrimSpace(name) == name
    ensures IsCandidate(name, local, mapping) <==>
              && name !in local && name != "minimax-m2.7" && name != "minimax-m3" && name != "comfyui-minimax-h3-r2v"
              && forall source <- mapping :: mapping[source] != name
  {
  }

  lemma IgnoresMeans(ignored: seq<string>, name: string, matches: (string, string) -> bool)
    ensures Ignores(ignored, name, matches) <==>
              !forall rule <- Normalize(ignored) ::
                 if |rule| >= 6 && rule[..6] == "regex:" then !matches(TrimSpace(rule[6..]), name) else rule != name
  {
    forall rule: string ensures RuleHits(rule, name, matches) ==
              if |rule| >= 6 && rule[..6] == "regex:" then matches(TrimSpace(rule[6..]), name) else rule == name {
      RuleMeans(rule, name, matches);
    }
  }

  /** Which names are missing, spelled out: offered, not one of the three hard exclusions, not local, not the target of
      a redirect, equal to no plain ignore rule and matched by no rule "regex:...". */
  lemma CollectMeans(local: seq<string>, upstream: seq<string>, ignored: seq<string>, cfg: Config, x: string)
    ensures x in Collect(local, upstream, ignored, cfg).add <==>
              && x in Normalize(upstream) && x !in Normalize(local)
              && x != "minimax-m2.7" && x != "minimax-m3" && x != "comfyui-minimax-h3-r2v"
              && (forall source <- cfg.mapping :: cfg.mapping[source] != x)
              && (forall rule <- Normalize(ignored) ::
                    if |rule| >= 6 && rule[..6] == "regex:" then !cfg.matches(TrimSpace(rule[6..]), x) else rule != x)
  {
    CollectFacts(local, upstream, ignored, cfg);
    if x in Normalize(upstream) {
      NormalizeFacts(upstream);
      CandidateMeans(x, Normalize(local), cfg.mapping);
      IgnoresMeans(ignored, x, cfg.matches);
    }
  }

  lemma LocalIsNormal(c: Channel)
    ensures IsNormal(Local(c)) && Normalize(Local(c)) == Local(c)
  {
    NormalizeFacts(GetModels(c.models));
    NormalizeFixed(Local(c));
  }

  lemma SelectionFacts(c: Channel, adds: seq<string>, removes: seq<string>)
    ensures var add := SelectedAdd(c, adds); var remove := SelectedRemove(c, adds, removes);
            && IsNormal(add) && IsNormal(remove)
            && (forall x :: x in add <==> x in Normalize(adds) && x in Normalize(c.detected))
            && (forall x :: x in remove <==> x in Normalize(removes) && x in Normalize(c.removed) && x !in add)
  {
    var p, q := Normalize(c.detected), Normalize(c.removed);
    NormalizeFacts(c.detected);
    NormalizeFacts(c.removed);
    NormalizeFixed(p);
    NormalizeFixed(q);
    IntersectFacts(adds, p);
    IntersectFacts(removes, q);
    NormalizeFixed(SelectedAdd(c, adds));
    NormalizeFixed(Intersect(removes, q));
    SubtractFacts(Intersect(removes, q), SelectedAdd(c, adds));
  }

  lemma NextModelsFacts(c: Channel, adds: seq<string>, removes: seq<string>)
    ensures var next := NextModels(c, adds, removes);
            && IsNormal(next)
            && (forall x :: x in next <==> (x in Local(c) || x in SelectedAdd(c, adds)) && x !in SelectedRemove(c, adds, removes))
  {
    var origin, add, remove := Local(c), SelectedAdd(c, adds), SelectedRemove(c, adds, removes);
    LocalIsNormal(c);
    SelectionFacts(c, adds, removes);
    NormalizeFixed(add);
    NormalizeFixed(remove);
    SubtractFacts(remove, add);
    NormalizeFixed(Subtract(remove, add));
    MergeFacts(origin, add);
    NormalizeFixed(Merge(origin, add));
    SubtractFacts(Merge(origin, add), Subtract(remove, add));
  }

  /** Without commas the pieces of a normal list are its members. */
  lemma PlainPieces(names: seq<string>)
    requires IsNormal(names) && forall n <- names :: ',' !in n
    ensures forall x :: IsPieceOf(x, names) <==> x in names
  {
    StoredPieces(names);
    StoredRoundTrip(names);
  }

  /** The names a channel has after an apply are the comma-separated pieces of the intended list. */
  lemma AppliedLocal(c: Channel, adds: seq<string>, ignores: seq<string>, removes: seq<string>, now: int)
    ensures var next := NextModels(c, adds, removes); var c' := Applied(c, adds, ignores, removes, now);
            && (forall x :: x in Local(c') <==> IsPieceOf(x, next))
            && ((forall n <- next :: ',' !in n) ==> Local(c') == next)
  {
    var next := NextModels(c, adds, removes);
    NextModelsFacts(c, adds, removes);
    StoredPieces(next);
    if forall n <- next :: ',' !in n {
      StoredRoundTrip(next);
    }
    if Local(c) == next {
      StoredNamesArePlain(c.models);
      PlainPieces(next);
    }
  }

  /** The removals that were not applied stay pending. */
  lemma AppliedRemovals(c: Channel, adds: seq<string>, ignores: seq<string>, removes: seq<string>, now: int)
    ensures var c' := Applied(c, adds, ignores, removes, now);
            && IsNormal(c'.removed) && c'.lastCheck == now
            && forall x :: x in Normalize(c'.removed) <==>
                 x in Normalize(c.removed) && !(x in Normalize(removes) && x !in SelectedAdd(c, adds))
  {
    var p := Normalize(c.removed);
    var remove := SelectedRemove(c, adds, removes);
    NormalizeFacts(c.removed);
    NormalizeFixed(p);
    SelectionFacts(c, adds, removes);
    NormalizeFixed(remove);
    SubtractFacts(p, remove);
    NormalizeFixed(Subtract(p, remove));
  }

  lemma AppliedLists(c: Channel, adds: seq<string>, ignores: seq<string>, removes: seq<string>, now: int)
    ensures var c' := Applied(c, adds, ignores, removes, now); var add := SelectedAdd(c, adds);
            && (forall x :: x in Normalize(c'.ignored) <==>
                  (x in Normalize(c.ignored) || (x in Normalize(ignores) && x in Normalize(c.detected))) && x !in add)
            && (forall x :: x in Normalize(c'.detected) <==>
                  x in Normalize(c.detected) && x !in add && x !in Normalize(ignores))
            && (forall x :: x in Normalize(c'.removed) <==>
                  x in Normalize(c.removed) && !(x in Normalize(removes) && x !in add))
            && IsNormal(c'.detected) && IsNormal(c'.removed) && c'.lastCheck == now
  {
    AppliedRemovals(c, adds, ignores, removes, now);
    var p := Normalize(c.detected);
    var add := SelectedAdd(c, adds);
    var ignore := Intersect(ignores, p);
    NormalizeFacts(c.detected);
    NormalizeFixed(p);
    SelectionFacts(c, adds, removes);
    IntersectFacts(ignores, p);
    NormalizeFixed(add);
    NormalizeFixed(ignore);
    MergeFacts(c.ignored, ignore);
    NormalizeFixed(Merge(c.ignored, ignore));
    SubtractFacts(Merge(c.ignored, ignore), add);
    NormalizeFixed(Subtract(Merge(c.ignored, ignore), add));
    MergeFacts(add, ignore);
    SubtractFacts(p, add + ignore);
    NormalizeFixed(Subtract(p, add + ignore));
  }

  // ---- Convergence ----------------------------------------------------------------------------------

  function Detected(c: Channel, cfg: Config, upstream: seq<string>, now: int): (c': Channel) {
    Checked(c, cfg, Some(upstream), now, true, false)
  }

  /** Apply everything that is pending. */
  function AppliedAll(c: Channel, now: int): (c': Channel) {
    Applied(c, Normalize(c.detected), [], Normalize(c.removed), now)
  }

  /** The candidate `u` is held back only by ignore rules that applying everything drops. */
  ghost predicate Unmasked(c: Channel, cfg: Config, upstream: seq<string>, u: string) {
    && u in Normalize(upstream) && IsCandidate(u, Local(c), cfg.mapping) && Ignores(c.ignored, u, cfg.matches)
    && !Ignores(Subtract(c.ignored, Collect(GetModels(c.models), upstream, c.ignored, cfg).add), u, cfg.matches)
  }

  /** No pending name contains a comma, and dropping the pending names from the ignore list lets no ignored
      candidate through.  (A pending name can be on the ignore list only if it starts with "regex:".) */
  ghost predicate CanConverge(c: Channel, cfg: Config, upstream: seq<string>) {
    && (forall a <- Collect(GetModels(c.models), upstream, c.ignored, cfg).add :: ',' !in a)
    && (forall u <- Normalize(upstream) :: !Unmasked(c, cfg, upstream, u))
  }

  lemma IgnoresSame(a: seq<string>, b: seq<string>, name: string, matches: (string, string) -> bool)
    requires forall x :: x in Normalize(a) ==> x in Normalize(b)
    ensures Ignores(a, name, matches) ==> Ignores(b, name, matches)
  {
  }

  /** What detect-then-apply-all leaves behind. */
  lemma AfterApplyAll(c: Channel, cfg: Config, upstream: seq<string>, t1: int, t2: int)
    ensures var c1 := Detected(c, cfg, upstream, t1); var c2 := AppliedAll(c1, t2);
            var p := Collect(GetModels(c.models), upstream, c.ignored, cfg);
            var next := NextModels(c1, c1.detected, c1.removed);
            && c1.detected == p.add && c1.removed == p.remove
            && IsNormal(next)
            && (forall x :: x in next <==> (x in Local(c) || x in p.add) && x !in p.remove)
            && (forall x :: x in Local(c2) <==> IsPieceOf(x, next))
            && ((forall n <- next :: ',' !in n) ==> Local(c2) == next)
            && (forall x :: x in Normalize(c2.ignored) <==> x in Normalize(c.ignored) && x !in p.add)
            && c2.detected == [] && c2.removed == []
  {
    var c1 := Detected(c, cfg, upstream, t1);
    CollectFacts(GetModels(c.models), upstream, c.ignored, cfg);
    NormalizeFixed(c1.detected);
    NormalizeFixed(c1.removed);
    SelectionFacts(c1, c1.detected, c1.removed);
    NextModelsFacts(c1, c1.detected, c1.removed);
    AppliedLocal(c1, c1.detected, [], c1.removed, t2);
    AppliedLists(c1, c1.detected, [], c1.removed, t2);
    assert forall x :: x !in Normalize([]) by { NormalizeFacts([]); }
    var c2 := AppliedAll(c1, t2);
    NormalizeFixed(c2.detected);
    NormalizeFixed(c2.removed);
    EmptyOrMember(c2.detected);
    EmptyOrMember(c2.removed);
  }

  lemma ConvergesIf(c: Channel, cfg: Config, upstream: seq<string>, t1: int, t2: int)
    ensures var c2 := AppliedAll(Detected(c, cfg, upstream, t1), t2);
            CanConverge(c, cfg, upstream) ==> Collect(GetModels(c2.models), upstream, c2.ignored, cfg) == Pending([], [])
  {
    if CanConverge(c, cfg, upstream) {
      var c2 := AppliedAll(Detected(c, cfg, upstream, t1), t2);
      var p := Collect(GetModels(c.models), upstream, c.ignored, cfg);
      var q := Collect(GetModels(c2.models), upstream, c2.ignored, cfg);
      AfterApplyAll(c, cfg, upstream, t1, t2);
      CollectFacts(GetModels(c.models), upstream, c.ignored, cfg);
      CollectFacts(GetModels(c2.models), upstream, c2.ignored, cfg);
      StoredNamesArePlain(c.models);
      SubtractFacts(c.ignored, p.add);
      NormalizeFixed(p.add);
      NormalizeFixed(Subtract(c.ignored, p.add));
      forall u ensures u !in q.add {
        assert u in Normalize(upstream) ==> !Unmasked(c, cfg, upstream, u);
        IgnoresSame(Subtract(c.ignored, p.add), c2.ignored, u, cfg.matches);
      }
      EmptyOrMember(q.add);
      EmptyOrMember(q.remove);
    }
  }

  /** A pending name with a comma is stored as its pieces and found missing again. */
  lemma CommaStaysPending(c: Channel, cfg: Config, upstream: seq<string>, t1: int, t2: int, a: string)
    ensures var c2 := AppliedAll(Detected(c, cfg, upstream, t1), t2);
            a in Collect(GetModels(c.models), upstream, c.ignored, cfg).add && ',' in a ==>
              a in Collect(GetModels(c2.models), upstream, c2.ignored, cfg).add
  {
    if a in Collect(GetModels(c.models), upstream, c.ignored, cfg).add && ',' in a {
      var c2 := AppliedAll(Detected(c, cfg, upstream, t1), t2);
      AfterApplyAll(c, cfg, upstream, t1, t2);
      CollectFacts(GetModels(c.models), upstream, c.ignored, cfg);
      CollectFacts(GetModels(c2.models), upstream, c2.ignored, cfg);
      StoredNamesArePlain(c2.models);
      IgnoresSame(c2.ignored, c.ignored, a, cfg.matches);
    }
  }

  /** Such a candidate is found missing the second time, unless a comma already prevents convergence. */
  lemma UnmaskedBecomesPending(c: Channel, cfg: Config, upstream: seq<string>, t1: int, t2: int, u: string)
    ensures var c2 := AppliedAll(Detected(c, cfg, upstream, t1), t2);
            var add := Collect(GetModels(c.models), upstream, c.ignored, cfg).add;
            (forall a <- add :: ',' !in a) && Unmasked(c, cfg, upstream, u) ==>
              u in Collect(GetModels(c2.models), upstream, c2.ignored, cfg).add
  {
    var p := Collect(GetModels(c.models), upstream, c.ignored, cfg);
    if (forall a <- p.add :: ',' !in a) && Unmasked(c, cfg, upstream, u) {
      var c2 := AppliedAll(Detected(c, cfg, upstream, t1), t2);
      AfterApplyAll(c, cfg, upstream, t1, t2);
      CollectFacts(GetModels(c.models), upstream, c.ignored, cfg);
      CollectFacts(GetModels(c2.models), upstream, c2.ignored, cfg);
      StoredNamesArePlain(c.models);
      SubtractFacts(c.ignored, p.add);
      NormalizeFixed(p.add);
      NormalizeFixed(Subtract(c.ignored, p.add));
      IgnoresSame(c2.ignored, Subtract(c.ignored, p.add), u, cfg.matches);
    }
  }

  lemma ConvergesOnlyIf(c: Channel, cfg: Config, upstream: seq<string>, t1: int, t2: int)
    ensures var c2 := AppliedAll(Detected(c, cfg, upstream, t1), t2);
            Collect(GetModels(c2.models), upstream, c2.ignored, cfg).add == [] ==> CanConverge(c, cfg, upstream)
  {
    var add := Collect(GetModels(c.models), upstream, c.ignored, cfg).add;
    if a :| a in add && ',' in a {
      CommaStaysPending(c, cfg, upstream, t1, t2, a);
    } else if u :| Unmasked(c, cfg, upstream, u) {
      UnmaskedBecomesPending(c, cfg, upstream, t1, t2, u);
    }
  }

  /** Convergence, exactly: detecting and applying everything leaves a second detection against the same
      upstream list with nothing to do if and only if `CanConverge` held beforehand. */
  lemma ConvergesIff(c: Channel, cfg: Config, upstream: seq<string>, t1: int, t2: int)
    ensures var c2 := AppliedAll(Detected(c, cfg, upstream, t1), t2);
            Collect(GetModels(c2.models), upstream, c2.ignored, cfg) == Pending([], []) <==> CanConverge(c, cfg, upstream)
  {
    ConvergesIf(c, cfg, upstream, t1, t2);
    ConvergesOnlyIf(c, cfg, upstream, t1, t2);
  }

  /** Upstream lists without commas and without names starting with "regex:" always converge. */
  lemma OrdinaryListsConverge(c: Channel, cfg: Config, upstream: seq<string>)
    requires forall u <- Normalize(upstream) :: ',' !in u && IsPlain(u)
    ensures CanConverge(c, cfg, upstream)
  {
    var p := Collect(GetModels(c.models), upstream, c.ignored, cfg);
    CollectFacts(GetModels(c.models), upstream, c.ignored, cfg);
    SubtractFacts(c.ignored, p.add);
    NormalizeFixed(p.add);
    NormalizeFixed(Subtract(c.ignored, p.add));
    forall u | u in Normalize(upstream) && Ignores(c.ignored, u, cfg.matches)
      ensures Ignores(Subtract(c.ignored, p.add), u, cfg.matches)
    {
      var rule :| rule in Normalize(c.ignored) && RuleHits(rule, u, cfg.matches);
      // a plain rule on the ignore list is never pending
      assert rule in p.add ==> RuleHits(rule, rule, cfg.matches);
      assert rule in Normalize(Subtract(c.ignored, p.add));
    }
  }

  /** Applying everything removes exactly the stale names, in place, and appends the new ones in upstream
      order; a redirect source that was local stays. */
  lemma ApplyAllKeepsOrder(c: Channel, cfg: Config, upstream: seq<string>, t1: int, t2: int)
    requires forall u <- Normalize(upstream) :: ',' !in u
    ensures var c2 := AppliedAll(Detected(c, cfg, upstream, t1), t2);
            var p := Collect(GetModels(c.models), upstream, c.ignored, cfg);
            && Local(c2) == Select(Local(c), x => x !in p.remove) + p.add
            && (forall x <- Local(c) :: x in cfg.mapping.Keys ==> x in Local(c2))
  {
    var c1 := Detected(c, cfg, upstream, t1);
    var p := Collect(GetModels(c.models), upstream, c.ignored, cfg);
    AfterApplyAll(c, cfg, upstream, t1, t2);
    CollectFacts(GetModels(c.models), upstream, c.ignored, cfg);
    StoredNamesArePlain(c.models);
    LocalIsNormal(c);
    var add, remove := SelectedAdd(c1, c1.detected), SelectedRemove(c1, c1.detected, c1.removed);
    SelectedIsPending(c1);
    assert add == p.add && remove == p.remove;
    NormalizeFixed(add);
    NormalizeFixed(remove);
    SubtractNothing(remove, add);
    MergeNew(Local(c), add);
    MergeFacts(Local(c), add);
    NormalizeFixed(Merge(Local(c), add));
    var keep := x => x !in Normalize(remove);
    SelectConcat(Local(c), add, keep);
    SelectAll(add, keep);
    SelectFacts(Local(c), keep);
    SameSelection(Local(c), keep, x => x !in p.remove);
  }

  lemma SelectedIsPending(c1: Channel)
    requires IsNormal(c1.detected) && IsNormal(c1.removed) && forall x <- c1.removed :: x !in c1.detected
    ensures SelectedAdd(c1, c1.detected) == c1.detected
    ensures SelectedRemove(c1, c1.detected, c1.removed) == c1.removed
  {
    NormalizeFixed(c1.detected);
    NormalizeFixed(c1.removed);
    SelectAll(c1.detected, x => x in c1.detected);
    SelectAll(c1.removed, x => x in c1.removed);
    SubtractNothing(c1.removed, c1.detected);
  }

  lemma SubtractNothing(base: seq<string>, gone: seq<string>)
    requires IsNormal(base) && IsNormal(gone) && forall x <- base :: x !in gone
    ensures Subtract(base, gone) == base
  {
    NormalizeFixed(base);
    NormalizeFixed(gone);
    SelectAll(base, x => x !in gone);
  }

  lemma {:induction false} SameSelection(xs: seq<string>, f: string -> bool, g: string -> bool)
    requires forall x <- xs :: f(x) == g(x)
    ensures Select(xs, f) == Select(xs, g)
  {
    if xs != [] {
      assert xs[|xs| - 1] in xs;
      SameSelection(xs[..|xs| - 1], f, g);
    }
  }

  /** A name with a comma that no rule stops defeats convergence... */
  lemma CommaDiverges(cfg: Config, name: string)
    requires Trimmed(name, SPACES) && ',' in name && name !in HARD_EXCLUSIONS && name !in cfg.mapping.Values
    ensures !CanConverge(Channel("", [], [], [], 0), cfg, [name])
  {
    var c := Channel("", [], [], [], 0);
    TrimmedIsFixed(name, SPACES);
    NormalizeFixed([name]);
    NormalizeFixed([]);
    CollectFacts([], [name], [], cfg);
    assert name in Collect([], [name], [], cfg).add;
  }

  /** ... for instance "a,b". */
  lemma CommaExample(cfg: Config)
    requires cfg.mapping == map[]
    ensures !CanConverge(Channel("", [], [], [], 0), cfg, ["a,b"])
  {
    assert "a,b"[1] == ',' && "a,b"[0] == 'a';
    CommaDiverges(cfg, "a,b");
  }

  /** A rule that is itself offered as a model name defeats convergence: adding it drops it from the ignore list,
      and a name that only it ignored comes up the second time. */
  lemma RegexNameUnmasks(cfg: Config, body: string, x: string)
    requires cfg.mapping == map[] && cfg.matches(TrimSpace(body), x) && !cfg.matches(TrimSpace(body), REGEX_PREFIX + body)
    requires Trimmed(REGEX_PREFIX + body, SPACES) && Trimmed(x, SPACES) && x != "" && x != REGEX_PREFIX + body
    requires x !in HARD_EXCLUSIONS
    ensures var rule := REGEX_PREFIX + body; var c := Channel("", [rule], [], [], 0);
            Unmasked(c, cfg, [rule, x], x) && !CanConverge(c, cfg, [rule, x])
  {
    var rule := REGEX_PREFIX + body;
    var c, upstream := Channel("", [rule], [], [], 0), [rule, x];
    TrimmedIsFixed(rule, SPACES);
    TrimmedIsFixed(x, SPACES);
    NormalizeFixed([rule]);
    NormalizeFixed(upstream);
    NormalizeFixed([]);
    assert rule[|REGEX_PREFIX|..] == body;
    assert rule !in HARD_EXCLUSIONS by { assert rule[0] == 'r'; }
    assert RuleHits(rule, x, cfg.matches) && !RuleHits(rule, rule, cfg.matches);
    CollectFacts([], upstream, [rule], cfg);
    var add := Collect([], upstream, [rule], cfg).add;
    assert rule in upstream && x in upstream && rule in [rule];
    assert rule in add;
    SubtractFacts([rule], add);
    NormalizeFacts(add);
    NormalizeFixed(add);
    NormalizeFixed(Subtract([rule], add));
    EmptyOrMember(Subtract([rule], add));
  }
}
