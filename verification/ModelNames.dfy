/** Lists of model names: normalising, merging, subtracting, intersecting, and storing them as text. */
module ModelNames {
  import opened Text

  /** Trim every name and drop the blank ones. */
  function TrimAll(models: seq<string>): (r: seq<string>) {
    if models == [] then []
    else
      var t := TrimSpace(models[0]);
      (if t == "" then [] else [t]) + TrimAll(models[1..])
  }

  /** Keep the first occurrence of every element. */
  function Uniq(xs: seq<string>): (r: seq<string>) {
    if xs == [] then []
    else
      var r := Uniq(xs[..|xs| - 1]);
      var x := xs[|xs| - 1];
      if x in r then r else r + [x]
  }

  function Normalize(models: seq<string>): (r: seq<string>) {
    Uniq(TrimAll(models))
  }

  /** Trimmed, without blanks and without repeats. */
  predicate IsNormal(xs: seq<string>) {
    && NoRepeats(xs)
    && forall x <- xs :: x != "" && TrimSpace(x) == x
  }

  lemma {:induction false} TrimAllMembers(models: seq<string>, x: string)
    ensures x in TrimAll(models) <==> x != "" && exists m :: m in models && TrimSpace(m) == x
  {
    if models != [] {
      TrimAllMembers(models[1..], x);
      assert models == [models[0]] + models[1..];
      if x != "" && TrimSpace(models[0]) == x {
        assert models[0] in models;
      }
    }
  }

  lemma {:induction false} TrimAllTrimmed(models: seq<string>)
    ensures forall x <- TrimAll(models) :: x != "" && TrimSpace(x) == x
  {
    if models != [] {
      TrimAllTrimmed(models[1..]);
      TrimIsTrimmed(models[0], SPACES);
    }
  }

  lemma {:induction false} UniqFacts(xs: seq<string>)
    ensures NoRepeats(Uniq(xs))
    ensures forall x :: x in Uniq(xs) <==> x in xs
  {
    if xs != [] {
      UniqFacts(xs[..|xs| - 1]);
      assert xs == xs[..|xs| - 1] + [xs[|xs| - 1]];
    }
  }

  lemma {:induction false} UniqFixed(xs: seq<string>)
    requires NoRepeats(xs)
    ensures Uniq(xs) == xs
  {
    if xs != [] {
      UniqFixed(xs[..|xs| - 1]);
      assert xs == xs[..|xs| - 1] + [xs[|xs| - 1]];
    }
  }

  /** Normalising yields exactly the non-blank trimmed names, each once. */
  lemma NormalizeFacts(models: seq<string>)
    ensures IsNormal(Normalize(models))
    ensures forall x :: x in Normalize(models) <==> x != "" && exists m :: m in models && TrimSpace(m) == x
  {
    UniqFacts(TrimAll(models));
    forall x ensures x in TrimAll(models) <==> x != "" && exists m :: m in models && TrimSpace(m) == x {
      TrimAllMembers(models, x);
    }
    TrimAllTrimmed(models);
  }

  lemma {:induction false} TrimAllFixed(xs: seq<string>)
    requires forall x <- xs :: x != "" && TrimSpace(x) == x
    ensures TrimAll(xs) == xs
  {
    if xs != [] {
      assert xs == [xs[0]] + xs[1..];
      assert forall x <- xs[1..] :: x in xs;
      TrimAllFixed(xs[1..]);
    }
  }

  /** A normal list is its own normalisation, in particular Normalize is idempotent. */
  lemma NormalizeFixed(xs: seq<string>)
    requires IsNormal(xs)
    ensures Normalize(xs) == xs
  {
    TrimAllFixed(xs);
    UniqFixed(xs);
  }

  lemma {:induction false} TrimAllConcat(a: seq<string>, b: seq<string>)
    ensures TrimAll(a + b) == TrimAll(a) + TrimAll(b)
  {
    if a == [] {
      assert a + b == b;
    } else {
      TrimAllConcat(a[1..], b);
      assert (a + b)[1..] == a[1..] + b;
    }
  }

  /** `lo.Filter`. */
  function Select(xs: seq<string>, keep: string -> bool): (r: seq<string>) {
    if xs == [] then []
    else
      var r := Select(xs[..|xs| - 1], keep);
      if keep(xs[|xs| - 1]) then r + [xs[|xs| - 1]] else r
  }

  lemma {:induction false} SelectFacts(xs: seq<string>, keep: string -> bool)
    ensures forall x :: x in Select(xs, keep) <==> x in xs && keep(x)
    ensures NoRepeats(xs) ==> NoRepeats(Select(xs, keep))
    ensures IsNormal(xs) ==> IsNormal(Select(xs, keep))
  {
    if xs != [] {
      SelectFacts(xs[..|xs| - 1], keep);
      assert xs == xs[..|xs| - 1] + [xs[|xs| - 1]];
    }
  }

  lemma {:induction false} SelectAll(xs: seq<string>, keep: string -> bool)
    requires forall x <- xs :: keep(x)
    ensures Select(xs, keep) == xs
  {
    if xs != [] {
      SelectAll(xs[..|xs| - 1], keep);
      assert xs == xs[..|xs| - 1] + [xs[|xs| - 1]];
    }
  }

  lemma {:induction false} SelectConcat(a: seq<string>, b: seq<string>, keep: string -> bool)
    ensures Select(a + b, keep) == Select(a, keep) + Select(b, keep)
  {
    if b == [] {
      assert a + b == a;
    } else {
      SelectConcat(a, b[..|b| - 1], keep);
      assert (a + b)[..|a + b| - 1] == a + b[..|b| - 1];
    }
  }

  function Merge(base: seq<string>, appended: seq<string>): (r: seq<string>) {
    Normalize(base + appended)
  }

  function Subtract(base: seq<string>, removed: seq<string>): (r: seq<string>) {
    var gone := Normalize(removed);
    Select(Normalize(base), x => x !in gone)
  }

  function Intersect(base: seq<string>, allowed: seq<string>): (r: seq<string>) {
    var allow := Normalize(allowed);
    Select(Normalize(base), x => x in allow)
  }

  lemma MergeFacts(base: seq<string>, appended: seq<string>)
    ensures IsNormal(Merge(base, appended))
    ensures forall x :: x in Merge(base, appended) <==> x in Normalize(base) || x in Normalize(appended)
  {
    NormalizeFacts(base);
    NormalizeFacts(appended);
    NormalizeFacts(base + appended);
  }

  lemma SubtractFacts(base: seq<string>, removed: seq<string>)
    ensures IsNormal(Subtract(base, removed))
    ensures forall x :: x in Subtract(base, removed) <==> x in Normalize(base) && x !in Normalize(removed)
  {
    var gone := Normalize(removed);
    NormalizeFacts(base);
    SelectFacts(Normalize(base), x => x !in gone);
  }

  lemma IntersectFacts(base: seq<string>, allowed: seq<string>)
    ensures IsNormal(Intersect(base, allowed))
    ensures forall x :: x in Intersect(base, allowed) <==> x in Normalize(base) && x in Normalize(allowed)
  {
    var allow := Normalize(allowed);
    NormalizeFacts(base);
    SelectFacts(Normalize(base), x => x in allow);
  }

  lemma UniqSnoc(xs: seq<string>, x: string)
    ensures Uniq(xs + [x]) == if x in Uniq(xs) then Uniq(xs) else Uniq(xs) + [x]
  {
    assert (xs + [x])[..|xs|] == xs;
  }

  lemma MergeStart(base: seq<string>, more: seq<string>)
    ensures Normalize(base) == Uniq(TrimAll(base) + more[..0])
  {
    assert TrimAll(base) + more[..0] == TrimAll(base);
  }

  lemma MergeStep(a: seq<string>, more: seq<string>, i: nat)
    requires i < |more|
    ensures var was := Uniq(a + more[..i]);
            Uniq(a + more[..i + 1]) == if more[i] in was then was else was + [more[i]]
  {
    UniqSnoc(a + more[..i], more[i]);
    assert a + more[..i + 1] == a + more[..i] + [more[i]];
  }

  lemma MergeEnd(base: seq<string>, appended: seq<string>)
    ensures var more := Normalize(appended); Uniq(TrimAll(base) + more[..|more|]) == Merge(base, appended)
  {
    var more := Normalize(appended);
    assert more[..|more|] == more;
    UniqOfUniq(TrimAll(base), TrimAll(appended));
    TrimAllConcat(base, appended);
  }

  /** The merge loop over a set of seen names computes the normalisation of the concatenation. */
  method MergeModelNames(base: seq<string>, appended: seq<string>) returns (merged: seq<string>)
    ensures merged == Merge(base, appended)
  {
    merged := Normalize(base);
    var seen := set x | x in merged;
    var more := Normalize(appended);
    MergeStart(base, more);
    for i := 0 to |more|
      invariant seen == set x | x in merged
      invariant merged == Uniq(TrimAll(base) + more[..i])
    {
      MergeStep(TrimAll(base), more, i);
      if more[i] !in seen {
        seen := seen + {more[i]};
        merged := merged + [more[i]];
      }
    }
    MergeEnd(base, appended);
  }

  lemma {:induction false} UniqOfUniq(a: seq<string>, b: seq<string>)
    ensures Uniq(a + Uniq(b)) == Uniq(a + b)
  {
    if b == [] {
    } else {
      var b0, x := b[..|b| - 1], b[|b| - 1];
      UniqOfUniq(a, b0);
      assert a + b == a + b0 + [x];
      UniqSnoc(a + b0, x);
      UniqFacts(a + b0);
      UniqFacts(b0);
      if x !in Uniq(b0) {
        assert a + Uniq(b) == a + Uniq(b0) + [x];
        UniqSnoc(a + Uniq(b0), x);
      } else {
        assert x in a + b0;
      }
    }
  }

  /** Merging names that are new to a normal list puts them behind it. */
  lemma MergeNew(base: seq<string>, appended: seq<string>)
    requires IsNormal(base) && IsNormal(appended) && forall x <- appended :: x !in base
    ensures Merge(base, appended) == base + appended
  {
    var all := base + appended;
    forall i, j | 0 <= i < j < |all| ensures all[i] != all[j] {
      if i < |base| <= j {
        assert all[j] in appended && all[i] in base;
      }
    }
    NormalizeFixed(base + appended);
  }

  // ---- Storage as comma-separated text --------------------------------------------------------------

  /** `Channel.GetModels`. */
  function GetModels(models: string): (r: seq<string>) {
    if models == "" then [] else Split(Trim(models, {','}), ',')
  }

  lemma {:induction false} TrimLeftKeepsNames(s: string, sep: char)
    ensures TrimAll(Split(TrimLeft(s, {sep}), sep)) == TrimAll(Split(s, sep))
  {
    if s != "" && s[0] == sep {
      TrimLeftKeepsNames(s[1..], sep);
      var rest := Split(s[1..], sep);
      assert Split(s, sep) == [""] + rest;
      assert ([""] + rest)[1..] == rest;
      assert TrimSpace("") == "";
    }
  }

  lemma {:induction false} TrimRightKeepsNames(s: string, sep: char)
    ensures TrimAll(Split(TrimRight(s, {sep}), sep)) == TrimAll(Split(s, sep))
  {
    if s != "" && s[|s| - 1] == sep {
      var front := s[..|s| - 1];
      TrimRightKeepsNames(front, sep);
      SplitConcat(front, "", sep);
      assert s == front + [sep] + "";
      TrimAllConcat(Split(front, sep), [""]);
      assert TrimAll([""]) == [] by { assert TrimSpace("") == ""; assert [""][1..] == []; }
    }
  }

  /** Stray separators at the ends do not change the names. */
  lemma TrimKeepsNames(s: string, sep: char)
    ensures TrimAll(Split(Trim(s, {sep}), sep)) == TrimAll(Split(s, sep))
  {
    TrimLeftKeepsNames(s, sep);
    TrimRightKeepsNames(TrimLeft(s, {sep}), sep);
  }

  /** Stray commas at the ends of the stored text do not change the names it stands for. */
  lemma GetModelsNames(s: string)
    ensures Normalize(GetModels(s)) == Normalize(Split(s, ','))
  {
    TrimKeepsNames(s, ',');
    if s == "" {
      assert TrimAll([""]) == [] by { assert TrimSpace("") == ""; assert [""][1..] == []; }
    }
  }

  /** `x` is one of the names a list stands for once it has been joined with commas and split again. */
  ghost predicate IsPieceOf(x: string, names: seq<string>) {
    x != "" && exists n, p :: n in names && p in Split(n, ',') && TrimSpace(p) == x
  }

  /** Exactly the comma-separated pieces of the stored names come back. */
  lemma StoredPieces(names: seq<string>)
    ensures forall x :: x in Normalize(GetModels(Join(names, ','))) <==> IsPieceOf(x, names)
  {
    GetModelsNames(Join(names, ','));
    if names == [] {
      assert TrimAll([""]) == [] by { assert TrimSpace("") == ""; assert [""][1..] == []; }
      assert Uniq([]) == [];
    } else {
      SplitJoin(names, ',');
      NormalizeFacts(SplitAll(names, ','));
      forall x ensures x in Normalize(SplitAll(names, ',')) <==> IsPieceOf(x, names) {
        if IsPieceOf(x, names) {
          var n, p :| n in names && p in Split(n, ',') && TrimSpace(p) == x;
          SplitAllMembers(names, ',', p);
        } else if x in Normalize(SplitAll(names, ',')) {
          var p :| p in SplitAll(names, ',') && TrimSpace(p) == x;
          SplitAllMembers(names, ',', p);
        }
      }
    }
  }

  /** A normal list of names without commas is stored faithfully. */
  lemma StoredRoundTrip(names: seq<string>)
    requires IsNormal(names) && forall n <- names :: ',' !in n
    ensures Normalize(GetModels(Join(names, ','))) == names
  {
    GetModelsNames(Join(names, ','));
    if names == [] {
      assert TrimAll([""]) == [] by { assert TrimSpace("") == ""; assert [""][1..] == []; }
    } else {
      SplitJoin(names, ',');
      SplitAllPlain(names, ',');
      NormalizeFixed(names);
    }
  }

  /** Names read from storage never contain a comma. */
  lemma StoredNamesArePlain(s: string)
    ensures forall x <- Normalize(GetModels(s)) :: ',' !in x
  {
    NormalizeFacts(GetModels(s));
    forall x | x in Normalize(GetModels(s)) ensures ',' !in x {
      var m :| m in GetModels(s) && TrimSpace(m) == x;
      SplitPieces(Trim(s, {','}), ',');
      TrimIsTrimmed(m, SPACES);
    }
  }
}
