/** Choosing one price per model from the models.dev catalogue, which lists a model under many providers.
    Prices are exact reals. */
module ModelsDev {
  import opened Wrappers
  import opened Text

  const EPSILON: real := 0.000000001

  predicate NearlyEqual(a: real, b: real) {
    if a > b then a - b < EPSILON else b - a < EPSILON
  }

  lemma NearlyEqualIff(a: real, b: real)
    ensures NearlyEqual(a, b) <==> -0.000000001 < a - b < 0.000000001
  {
  }

  /** Near equality is not transitive, so "cheapest up to rounding" needs care. */
  lemma NearlyEqualIsNotTransitive()
    ensures NearlyEqual(0.0, 0.0000000006) && NearlyEqual(0.0000000006, 0.0000000012) && !NearlyEqual(0.0, 0.0000000012)
  {
  }

  datatype Cost = Cost(input: Option<real>, output: Option<real>, cacheRead: Option<real>)

  datatype Candidate = Candidate(provider: string, input: real, output: Option<real>, cacheRead: Option<real>)

  /** The catalogue: per provider, per model, the listed costs. */
  type Catalogue = map<string, map<string, Cost>>

  /** `buildModelsDevCandidate`. */
  function BuildCandidate(provider: string, cost: Cost): (c: Option<Candidate>)
    ensures c.Some? ==> c.value.provider == provider && Some(c.value.input) == cost.input && c.value.input >= 0.0
    ensures c.Some? ==>
              && c.value.output == cost.output
              && c.value.cacheRead == (if cost.cacheRead.Some? && cost.cacheRead.value < 0.0 then None else cost.cacheRead)
    ensures c == None <==>
              || cost.input == None || cost.input.value < 0.0
              || (cost.output.Some? && (cost.output.value < 0.0 || (cost.output.value > 0.0 && cost.input.value == 0.0)))
  {
    if cost.input == None || cost.input.value < 0.0 then None
    else if cost.output.Some? && cost.output.value < 0.0 then None
    else if cost.input.value == 0.0 && cost.output.Some? && cost.output.value > 0.0 then None
    else
      var cache := if cost.cacheRead.Some? && cost.cacheRead.value >= 0.0 then cost.cacheRead else None;
      Some(Candidate(provider, cost.input.value, cost.output, cache))
  }

  /** Go's order on strings. */
  predicate Less(a: string, b: string) {
    if b == "" then false
    else if a == "" then true
    else a[0] < b[0] || (a[0] == b[0] && Less(a[1..], b[1..]))
  }

  lemma {:induction false} LessIsAsymmetric(a: string, b: string)
    ensures !(Less(a, b) && Less(b, a))
  {
    if a != "" && b != "" && a[0] == b[0] {
      LessIsAsymmetric(a[1..], b[1..]);
    }
  }

  lemma {:induction false} LessIsTotal(a: string, b: string)
    ensures Less(a, b) || a == b || Less(b, a)
  {
    if a != "" && b != "" && a[0] == b[0] {
      LessIsTotal(a[1..], b[1..]);
      assert a == [a[0]] + a[1..] && b == [b[0]] + b[1..];
    }
  }

  lemma {:induction false} LessIsTransitive(a: string, b: string, c: string)
    requires Less(a, b) && Less(b, c)
    ensures Less(a, c)
  {
    if a != "" && a[0] == b[0] && b[0] == c[0] {
      LessIsTransitive(a[1..], b[1..], c[1..]);
    }
  }

  /** `shouldReplaceModelsDevCandidate`. */
  predicate ShouldReplace(current: Candidate, next: Candidate) {
    if (current.input > 0.0) != (next.input > 0.0) then next.input > 0.0
    else if next.input > 0.0 && !NearlyEqual(next.input, current.input) then next.input < current.input
    else Less(next.provider, current.provider)
  }

  // ---- The fold -------------------------------------------------------------------------------------------------

  predicate Ascending(names: seq<string>) {
    forall i, j :: 0 <= i < j < |names| ==> Less(names[i], names[j])
  }

  /** `sort.Strings` on the keys of a map. */
  method SortedKeys(keys: set<string>) returns (names: seq<string>)
    ensures Ascending(names)
    ensures forall k :: k in names <==> k in keys
  {
    names := [];
    var todo := keys;
    while todo != {}
      invariant todo <= keys && Ascending(names)
      invariant forall k :: k in names <==> k in keys && k !in todo
      decreases |todo|
    {
      var k :| k in todo;
      names := Insert(names, k);
      todo := todo - {k};
    }
  }

  /** The names before the first one that is not below `k`. */
  function Position(names: seq<string>, k: string): (i: nat)
    ensures i <= |names| && (forall j :: 0 <= j < i ==> Less(names[j], k)) && (i < |names| ==> !Less(names[i], k))
  {
    if names == [] || !Less(names[0], k) then 0 else 1 + Position(names[1..], k)
  }

  lemma RestIsAbove(names: seq<string>, k: string, i: nat)
    requires Ascending(names) && k !in names && i < |names| && !Less(names[i], k)
    ensures forall j :: i <= j < |names| ==> Less(k, names[j])
  {
    LessIsTotal(k, names[i]);
    forall j | i < j < |names| ensures Less(k, names[j]) {
      LessIsTransitive(k, names[i], names[j]);
    }
  }

  lemma InsertedAscends(names: seq<string>, k: string, i: nat)
    requires Ascending(names) && i <= |names|
    requires (forall j :: 0 <= j < i ==> Less(names[j], k)) && forall j :: i <= j < |names| ==> Less(k, names[j])
    ensures Ascending(Inserted(names, i, k))
  {
  }

  method Insert(names: seq<string>, k: string) returns (r: seq<string>)
    requires Ascending(names) && k !in names
    ensures Ascending(r) && forall x :: x in r <==> x in names || x == k
  {
    var i := Position(names, k);
    r := Inserted(names, i, k);
    if i < |names| {
      RestIsAbove(names, k, i);
    }
    InsertedAscends(names, k, i);
    InsertedMembers(names, i, k);
  }

  function CandidateOf(cat: Catalogue, provider: string, model: string): (c: Option<Candidate>)
    ensures c.Some? ==> c.value.provider == provider && c.value.input >= 0.0
  {
    if provider in cat && model in cat[provider] then BuildCandidate(provider, cat[provider][model]) else None
  }

  function Better(current: Option<Candidate>, next: Option<Candidate>): (c: Option<Candidate>) {
    if next == None then current
    else if current == None || ShouldReplace(current.value, next.value) then next
    else current
  }

  /** What one model ends up with after the first `n` providers. */
  function Chosen(cat: Catalogue, providers: seq<string>, n: nat, model: string): (c: Option<Candidate>)
    requires n <= |providers|
  {
    if n == 0 then None
    else Better(Chosen(cat, providers, n - 1, model), CandidateOf(cat, providers[n - 1], model))
  }

  /** The loop over one provider's models. */
  method AddProvider(cat: Catalogue, provider: string, selected: map<string, Candidate>) returns (result: map<string, Candidate>)
    requires provider in cat
    ensures forall m :: Lookup(result, m) == Better(Lookup(selected, m), CandidateOf(cat, provider, m))
  {
    result := selected;
    var names := SortedKeys(cat[provider].Keys);
    for i := 0 to |names|
      invariant forall m :: m in names[..i] ==> Lookup(result, m) == Better(Lookup(selected, m), CandidateOf(cat, provider, m))
      invariant forall m :: m !in names[..i] ==> Lookup(result, m) == Lookup(selected, m)
    {
      var m := names[i];
      assert m !in names[..i] by {
        forall j | 0 <= j < i ensures names[j] != m { LessIsAsymmetric(names[j], m); }
      }
      assert forall x :: x in names[..i + 1] <==> x in names[..i] || x == m;
      var candidate := BuildCandidate(provider, cat[provider][m]);
      if candidate.Some? {
        if m !in result || ShouldReplace(result[m], candidate.value) {
          result := result[m := candidate.value];
        }
      }
    }
    assert names[..|names|] == names;
  }

  /** The fold in `convertModelsDevToRatioData`. */
  method SelectCandidates(cat: Catalogue) returns (selected: map<string, Candidate>, providers: seq<string>)
    ensures Ascending(providers) && forall p :: p in providers <==> p in cat
    ensures forall m :: Lookup(selected, m) == Chosen(cat, providers, |providers|, m)
  {
    providers := SortedKeys(cat.Keys);
    selected := map[];
    for i := 0 to |providers|
      invariant forall m :: Lookup(selected, m) == Chosen(cat, providers, i, m)
    {
      assert providers[i] in cat;
      selected := AddProvider(cat, providers[i], selected);
    }
  }

  // ---- What is chosen -------------------------------------------------------------------------------------------

  /** `best` is the k-th provider's candidate, and no candidate among the first n beats it: with a positive price,
      none is cheaper by EPSILON or more and every earlier one is strictly dearer; with price zero, every candidate
      is free and none comes earlier. */
  ghost predicate IsBest(cat: Catalogue, providers: seq<string>, n: nat, model: string, k: nat, best: Candidate)
    requires n <= |providers|
  {
    && k < n && CandidateOf(cat, providers[k], model) == Some(best)
    && forall i :: 0 <= i < n && CandidateOf(cat, providers[i], model).Some? ==>
         var other := CandidateOf(cat, providers[i], model).value;
         if best.input > 0.0
         then other.input > 0.0 ==> best.input - other.input < EPSILON && (i < k ==> other.input > best.input)
         else other.input == 0.0 && i >= k
  }

  /** One more provider leaves the best candidate best, or takes its place. */
  lemma BestStep(cat: Catalogue, providers: seq<string>, n: nat, model: string, k: nat, best: Candidate)
    requires n < |providers| && Ascending(providers) && IsBest(cat, providers, n, model, k, best)
    ensures var next := CandidateOf(cat, providers[n], model);
            if next.Some? && ShouldReplace(best, next.value) then IsBest(cat, providers, n + 1, model, n, next.value)
            else IsBest(cat, providers, n + 1, model, k, best)
  {
    LessIsAsymmetric(providers[k], providers[n]);
  }

  lemma {:induction false} ChosenIsBest(cat: Catalogue, providers: seq<string>, n: nat, model: string)
    requires n <= |providers| && Ascending(providers)
    ensures Chosen(cat, providers, n, model) == None ==>
              forall i :: 0 <= i < n ==> CandidateOf(cat, providers[i], model) == None
    ensures Chosen(cat, providers, n, model).Some? ==>
              exists k :: IsBest(cat, providers, n, model, k, Chosen(cat, providers, n, model).value)
  {
    if n > 0 {
      ChosenIsBest(cat, providers, n - 1, model);
      var before, next := Chosen(cat, providers, n - 1, model), CandidateOf(cat, providers[n - 1], model);
      if before.Some? {
        var k: nat :| IsBest(cat, providers, n - 1, model, k, before.value);
        BestStep(cat, providers, n - 1, model, k, before.value);
      } else if next.Some? {
        assert IsBest(cat, providers, n, model, n - 1, next.value);
      }
    }
  }

  /** The choice for a model: some candidate is chosen whenever there is one; it has a positive price whenever some
      candidate does; then no positive candidate is cheaper by EPSILON or more, and every positive candidate of an
      alphabetically earlier provider is strictly more expensive. */
  lemma ChoiceIsCheapest(cat: Catalogue, providers: seq<string>, model: string, provider: string)
    requires Ascending(providers) && provider in providers && CandidateOf(cat, provider, model).Some?
    ensures var choice := Chosen(cat, providers, |providers|, model); var other := CandidateOf(cat, provider, model).value;
            && choice.Some? && choice.value.provider in providers
            && CandidateOf(cat, choice.value.provider, model) == choice
            && (other.input > 0.0 ==>
                  && choice.value.input > 0.0
                  && choice.value.input - other.input < 0.000000001
                  && (Less(provider, choice.value.provider) ==> other.input > choice.value.input))
            && (choice.value.input == 0.0 ==> !Less(provider, choice.value.provider))
  {
    ChosenIsBest(cat, providers, |providers|, model);
    var choice := Chosen(cat, providers, |providers|, model);
    var i :| 0 <= i < |providers| && providers[i] == provider;
    assert CandidateOf(cat, providers[i], model).Some?;
    var k: nat :| IsBest(cat, providers, |providers|, model, k, choice.value);
    LessIsAsymmetric(provider, choice.value.provider);
  }
}
