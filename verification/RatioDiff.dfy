/** Comparing local prices with those of several upstream channels (`buildDifferences`): collect an entry for
    every model and field, find the channels that differ anywhere, and prune the rest. */
module RatioDiff {
  import opened Wrappers
  import opened ModelsDev

  /** A decoded JSON scalar. */
  datatype Value = Num(n: real) | Text(s: string) | Flag(b: bool)

  /** field -> model -> value; None is a JSON null. */
  type Table = map<string, map<string, Option<Value>>>

  datatype Channel = Channel(name: string, data: Table)

  /** `DifferenceItem`. */
  datatype Item = Item(current: Option<Value>, upstreams: map<string, Option<Value>>, confidence: map<string, bool>)

  type Differences = map<string, map<string, Item>>

  const FIELDS: seq<string> := [
    "model_ratio", "completion_ratio", "cache_ratio", "create_cache_ratio", "image_ratio", "audio_ratio",
    "audio_completion_ratio", "model_price", "billing_mode", "billing_expr", "billing_mode_by_group",
    "billing_expr_by_group"]

  const SAME: Option<Value> := Some(Text("same"))

  predicate ValuesEqual(a: Option<Value>, b: Option<Value>) {
    if a.Some? && b.Some? && a.value.Num? && b.value.Num? then NearlyEqual(a.value.n, b.value.n) else a == b
  }

  /** Numbers are compared up to 1e-9, everything else exactly. */
  lemma ValuesEqualIff(a: Option<Value>, b: Option<Value>)
    ensures ValuesEqual(a, b) <==>
              || a == b
              || (&& a.Some? && b.Some? && a.value.Num? && b.value.Num?
                  && -0.000000001 < a.value.n - b.value.n < 0.000000001)
  {
  }

  predicate Has(t: Table, field: string, model: string) {
    field in t && model in t[field]
  }

  /** The value, or nil when it is absent or null. */
  function Get(t: Table, field: string, model: string): (v: Option<Value>) {
    if Has(t, field, model) then t[field][model] else None
  }

  /** What the entry shows for a channel: its value, "same", or nil. */
  function Cell(local: Option<Value>, c: Channel, field: string, model: string): (v: Option<Value>) {
    var v := Get(c.data, field, model);
    if Has(c.data, field, model) && ValuesEqual(local, v) then SAME
    else if v == None && local == None then SAME
    else v
  }

  /** The marker stands for a value equal to the local one and for no value on either side, nil for a missing or null
      value against a local one, and anything else is the value itself. */
  lemma CellMeans(local: Option<Value>, c: Channel, field: string, model: string)
    ensures var cell := Cell(local, c, field, model);
            var v := if field in c.data && model in c.data[field] then c.data[field][model] else None;
            && (v == None && local == None ==> cell == SAME)
            && (v == None && local.Some? ==> cell == None)
            && (v.Some? ==> cell == if ValuesEqual(local, v) then SAME else v)
  {
  }

  /** The channel makes the entry differ. */
  predicate Differing(local: Option<Value>, c: Channel, field: string, model: string) {
    || (Has(c.data, field, model) && local.Some? && !ValuesEqual(local, Get(c.data, field, model)))
    || (local == None && Cell(local, c, field, model) != None && Cell(local, c, field, model) != SAME)
  }

  /** A default price pair marks a pricing endpoint as untrustworthy for the model. */
  predicate Trusted(c: Channel, model: string) {
    !(&& Has(c.data, "model_ratio", model) && Has(c.data, "completion_ratio", model)
      && var r := Get(c.data, "model_ratio", model); var q := Get(c.data, "completion_ratio", model);
         r.Some? && q.Some? && r.value.Num? && q.value.Num? && NearlyEqual(r.value.n, 37.5) && NearlyEqual(q.value.n, 1.0))
  }

  /** A channel is not trusted for a model exactly when it lists the default pair 37.5 and 1. */
  lemma UntrustedIff(c: Channel, model: string)
    ensures var r, q := Get(c.data, "model_ratio", model), Get(c.data, "completion_ratio", model);
            !Trusted(c, model) <==>
              && r.Some? && r.value.Num? && -0.000000001 < r.value.n - 37.5 < 0.000000001
              && q.Some? && q.value.Num? && -0.000000001 < q.value.n - 1.0 < 0.000000001
  {
  }

  // ---- One entry ------------------------------------------------------------------------------------------------

  predicate DistinctNames(cs: seq<Channel>) {
    forall i, j :: 0 <= i < j < |cs| ==> cs[i].name != cs[j].name
  }

  /** A later channel of the same name takes the place of an earlier one. */
  predicate LastNamed(cs: seq<Channel>, n: nat, i: nat)
    requires i < n <= |cs|
  {
    forall j :: i < j < n ==> cs[j].name != cs[i].name
  }

  /** The entry of a model and field lists every channel, with what it shows and whether it is trusted. */
  ghost predicate IsItem(it: Item, local: Table, cs: seq<Channel>, field: string, model: string) {
    var l := Get(local, field, model);
    && it.current == l
    && it.upstreams.Keys == it.confidence.Keys
    && (forall n :: n in it.upstreams <==> exists i :: 0 <= i < |cs| && cs[i].name == n)
    && (forall i :: 0 <= i < |cs| && LastNamed(cs, |cs|, i) && cs[i].name in it.upstreams ==>
          && it.upstreams[cs[i].name] == Cell(l, cs[i], field, model)
          && it.confidence[cs[i].name] == Trusted(cs[i], model))
  }

  ghost predicate Included(local: Table, cs: seq<Channel>, field: string, model: string) {
    var l := Get(local, field, model);
    if l.Some? then exists i :: 0 <= i < |cs| && Differing(l, cs[i], field, model)
    else exists i :: 0 <= i < |cs| && Has(cs[i].data, field, model)
  }

  /** What the first `n` channels show. */
  function Shown(cs: seq<Channel>, n: nat, l: Option<Value>, field: string, model: string): (ups: map<string, Option<Value>>)
    requires n <= |cs|
  {
    if n == 0 then map[] else Shown(cs, n - 1, l, field, model)[cs[n - 1].name := Cell(l, cs[n - 1], field, model)]
  }

  function Trust(cs: seq<Channel>, n: nat, model: string): (conf: map<string, bool>)
    requires n <= |cs|
  {
    if n == 0 then map[] else Trust(cs, n - 1, model)[cs[n - 1].name := Trusted(cs[n - 1], model)]
  }

  lemma {:induction false} ShownFacts(cs: seq<Channel>, n: nat, l: Option<Value>, field: string, model: string)
    requires n <= |cs|
    ensures Shown(cs, n, l, field, model).Keys == Trust(cs, n, model).Keys
    ensures forall x :: x in Shown(cs, n, l, field, model) <==> exists i :: 0 <= i < n && cs[i].name == x
  {
    if n > 0 {
      ShownFacts(cs, n - 1, l, field, model);
    }
  }

  lemma {:induction false} ShownAt(cs: seq<Channel>, n: nat, l: Option<Value>, field: string, model: string, i: nat)
    requires i < n <= |cs| && LastNamed(cs, n, i)
    ensures Lookup(Shown(cs, n, l, field, model), cs[i].name) == Some(Cell(l, cs[i], field, model))
    ensures Lookup(Trust(cs, n, model), cs[i].name) == Some(Trusted(cs[i], model))
  {
    if i < n - 1 {
      ShownAt(cs, n - 1, l, field, model, i);
    }
  }

  /** The comparison of one channel's value with the local one. */
  method Compare(l: Option<Value>, c: Channel, field: string, model: string) returns (v: Option<Value>, present: bool, differs: bool)
    ensures v == Cell(l, c, field, model) && present == Has(c.data, field, model) && differs == Differing(l, c, field, model)
  {
    v, present, differs := None, false, false;
    if Has(c.data, field, model) {
      v := c.data[field][model];
      present := true;
      if l != None && !ValuesEqual(l, v) {
        differs := true;
      } else if ValuesEqual(l, v) {
        v := SAME;
      }
    }
    if v == None && l == None { v := SAME; }
    if l == None && v != None && v != SAME { differs := true; }
  }

  method BuildItem(local: Table, cs: seq<Channel>, field: string, model: string) returns (it: Item, shown: bool)
    ensures IsItem(it, local, cs, field, model)
    ensures shown <==> Included(local, cs, field, model)
  {
    var l := Get(local, field, model);
    var ups: map<string, Option<Value>>, conf: map<string, bool> := map[], map[];
    var hasUpstream, hasDifference := false, false;
    for i := 0 to |cs|
      invariant ups == Shown(cs, i, l, field, model) && conf == Trust(cs, i, model)
      invariant hasDifference <==> exists j :: 0 <= j < i && Differing(l, cs[j], field, model)
      invariant hasUpstream <==> exists j :: 0 <= j < i && Has(cs[j].data, field, model)
    {
      var v, present, differs := Compare(l, cs[i], field, model);
      if present { hasUpstream := true; }
      if differs { hasDifference := true; }
      ups, conf := ups[cs[i].name := v], conf[cs[i].name := Trusted(cs[i], model)];
    }
    it := Item(l, ups, conf);
    shown := if l != None then hasDifference else hasUpstream;
    ShownIsItem(local, cs, field, model);
  }

  lemma ShownIsItem(local: Table, cs: seq<Channel>, field: string, model: string)
    ensures var l := Get(local, field, model);
            IsItem(Item(l, Shown(cs, |cs|, l, field, model), Trust(cs, |cs|, model)), local, cs, field, model)
  {
    var l := Get(local, field, model);
    ShownFacts(cs, |cs|, l, field, model);
    forall i | 0 <= i < |cs| && LastNamed(cs, |cs|, i) {
      ShownAt(cs, |cs|, l, field, model, i);
    }
  }

  // ---- All entries ------------------------------------------------------------------------------------------------

  /** The models mentioned anywhere. */
  ghost predicate Mentioned(local: Table, cs: seq<Channel>, model: string) {
    exists field <- FIELDS :: Has(local, field, model) || exists i :: 0 <= i < |cs| && Has(cs[i].data, field, model)
  }

  /** The items of a model are its included fields. */
  ghost predicate AreItems(items: map<string, Item>, local: Table, cs: seq<Channel>, m: string) {
    && (forall f :: f in items <==> f in FIELDS && Included(local, cs, f, m))
    && (forall f <- items :: IsItem(items[f], local, cs, f, m))
  }

  /** A model without included fields has no entry. */
  ghost predicate IsEntry(entry: Option<map<string, Item>>, local: Table, cs: seq<Channel>, m: string) {
    match entry
    case Some(items) => items != map[] && AreItems(items, local, cs, m)
    case None => AreItems(map[], local, cs, m)
  }

  /** The entries before pruning. */
  ghost predicate AreEntries(d: Differences, local: Table, cs: seq<Channel>) {
    && (forall m <- d :: Mentioned(local, cs, m))
    && (forall m :: Mentioned(local, cs, m) ==> IsEntry(Lookup(d, m), local, cs, m))
  }

  method ModelsOf(t: Table) returns (models: set<string>)
    ensures forall m :: m in models <==> exists field <- FIELDS :: Has(t, field, m)
  {
    models := {};
    for i := 0 to |FIELDS|
      invariant forall m :: m in models <==> exists j :: 0 <= j < i && Has(t, FIELDS[j], m)
    {
      if FIELDS[i] in t { models := models + t[FIELDS[i]].Keys; }
    }
    forall m ensures m in models <==> exists field <- FIELDS :: Has(t, field, m) {
      if j :| 0 <= j < |FIELDS| && Has(t, FIELDS[j], m) {
        assert FIELDS[j] in FIELDS;
      }
      if field :| field in FIELDS && Has(t, field, m) {
        var j :| 0 <= j < |FIELDS| && FIELDS[j] == field;
      }
    }
  }

  method AllModels(local: Table, cs: seq<Channel>) returns (models: set<string>)
    ensures forall m :: m in models <==> Mentioned(local, cs, m)
  {
    models := ModelsOf(local);
    for i := 0 to |cs|
      invariant forall m :: m in models <==>
                  exists field <- FIELDS :: Has(local, field, m) || exists j :: 0 <= j < i && Has(cs[j].data, field, m)
    {
      var more := ModelsOf(cs[i].data);
      models := models + more;
    }
  }

  /** The entries of one model. */
  method BuildModel(local: Table, cs: seq<Channel>, m: string) returns (items: map<string, Item>)
    ensures AreItems(items, local, cs, m)
  {
    items := map[];
    for i := 0 to |FIELDS|
      invariant forall f :: f in items <==> f in FIELDS[..i] && Included(local, cs, f, m)
      invariant forall f <- items :: IsItem(items[f], local, cs, f, m)
    {
      var it, shown := BuildItem(local, cs, FIELDS[i], m);
      assert forall f :: f in FIELDS[..i + 1] <==> f in FIELDS[..i] || f == FIELDS[i];
      if shown { items := items[FIELDS[i] := it]; }
    }
    assert FIELDS[..|FIELDS|] == FIELDS;
  }

  method BuildEntries(local: Table, cs: seq<Channel>) returns (d: Differences)
    ensures AreEntries(d, local, cs)
  {
    d := map[];
    var models := AllModels(local, cs);
    var todo := models;
    while todo != {}
      invariant todo <= models
      invariant forall m <- d :: m in models && m !in todo
      invariant forall m :: m in models && m !in todo ==> IsEntry(Lookup(d, m), local, cs, m)
      decreases |todo|
    {
      var m :| m in todo;
      var items := BuildModel(local, cs, m);
      if items != map[] { d := d[m := items]; }
      todo := todo - {m};
    }
  }

  // ---- Pruning ------------------------------------------------------------------------------------------------------

  /** The entry shows a value of the channel that is neither nil nor "same". */
  predicate ShowsDifference(it: Item, n: string) {
    n in it.upstreams && it.upstreams[n] != None && it.upstreams[n] != SAME
  }

  method DifferingInModel(items: map<string, Item>) returns (names: set<string>)
    ensures forall n :: n in names <==> exists f :: f in items && ShowsDifference(items[f], n)
  {
    names := {};
    var todo := items.Keys;
    while todo != {}
      invariant todo <= items.Keys
      invariant forall n :: n in names <==> exists f :: f in items && f !in todo && ShowsDifference(items[f], n)
      decreases |todo|
    {
      var f :| f in todo;
      names := names + (set n | n in items[f].upstreams && ShowsDifference(items[f], n));
      todo := todo - {f};
    }
  }

  /** `channelHasDiff`. */
  method DifferingChannels(d: Differences) returns (names: set<string>)
    ensures forall n :: n in names <==> exists m, f :: m in d && f in d[m] && ShowsDifference(d[m][f], n)
  {
    names := {};
    var todo := d.Keys;
    while todo != {}
      invariant todo <= d.Keys
      invariant forall n :: n in names <==> exists m, f :: m in d && m !in todo && f in d[m] && ShowsDifference(d[m][f], n)
      decreases |todo|
    {
      var m :| m in todo;
      var more := DifferingInModel(d[m]);
      names := names + more;
      todo := todo - {m};
    }
  }

  function Restricted(it: Item, names: set<string>): (r: Item) {
    Item(it.current, map n | n in it.upstreams && n in names :: it.upstreams[n],
         map n | n in it.confidence && n in names :: it.confidence[n])
  }

  /** Some channel that stays shows something other than "same". */
  predicate Keeps(it: Item, names: set<string>) {
    exists n <- it.upstreams :: n in names && it.upstreams[n] != SAME
  }

  ghost predicate ArePruned(r: map<string, Item>, items: map<string, Item>, names: set<string>) {
    && (forall f :: f in r <==> f in items && Keeps(items[f], names))
    && (forall f <- r :: f in items && r[f] == Restricted(items[f], names))
  }

  method PruneModel(items: map<string, Item>, names: set<string>) returns (r: map<string, Item>)
    ensures ArePruned(r, items, names)
  {
    r := map[];
    var todo := items.Keys;
    while todo != {}
      invariant todo <= items.Keys
      invariant forall f :: f in r <==> f in items && f !in todo && Keeps(items[f], names)
      invariant forall f <- r :: f in items && r[f] == Restricted(items[f], names)
      decreases |todo|
    {
      var f :| f in todo;
      if Keeps(items[f], names) { r := r[f := Restricted(items[f], names)]; }
      todo := todo - {f};
    }
  }

  ghost predicate IsPruned(r: Option<map<string, Item>>, items: map<string, Item>, names: set<string>) {
    match r
    case Some(kept) => kept != map[] && ArePruned(kept, items, names)
    case None => ArePruned(map[], items, names)
  }

  method Prune(d: Differences, names: set<string>) returns (r: Differences)
    ensures forall m <- r :: m in d
    ensures forall m <- d :: IsPruned(Lookup(r, m), d[m], names)
  {
    r := map[];
    var todo := d.Keys;
    while todo != {}
      invariant todo <= d.Keys
      invariant forall m <- r :: m in d && m !in todo
      invariant forall m <- d :: m !in todo ==> IsPruned(Lookup(r, m), d[m], names)
      decreases |todo|
    {
      var m :| m in todo;
      var kept := PruneModel(d[m], names);
      if kept != map[] { r := r[m := kept]; }
      todo := todo - {m};
    }
  }

  // ---- What is reported -----------------------------------------------------------------------------------------------

  /** The channel has an entry for the model and field that the local table lacks or that differs from it. */
  predicate RealDifference(local: Table, c: Channel, field: string, model: string) {
    Has(c.data, field, model)
    && (Get(local, field, model) == None || !ValuesEqual(Get(local, field, model), Get(c.data, field, model)))
  }

  ghost predicate SomeDifference(local: Table, cs: seq<Channel>, field: string, model: string) {
    field in FIELDS && exists i :: 0 <= i < |cs| && RealDifference(local, cs[i], field, model)
  }

  /** The channel's cell is a value: neither nil nor the marker. */
  predicate Shows(local: Table, c: Channel, field: string, model: string) {
    var v := Cell(Get(local, field, model), c, field, model);
    v != None && v != SAME
  }

  ghost predicate Visible(local: Table, c: Channel) {
    exists f, m :: f in FIELDS && Shows(local, c, f, m)
  }

  /** Channel `i` survives the pruning: no later channel has its name, and it shows a value somewhere. */
  ghost predicate Survives(local: Table, cs: seq<Channel>, i: nat)
    requires i < |cs|
  {
    LastNamed(cs, |cs|, i) && Visible(local, cs[i])
  }

  /** Some surviving channel's cell is not the marker. */
  ghost predicate Kept(local: Table, cs: seq<Channel>, field: string, model: string) {
    exists i :: 0 <= i < |cs| && Survives(local, cs, i) && Cell(Get(local, field, model), cs[i], field, model) != SAME
  }

  predicate Reported(r: Differences, model: string, field: string) {
    model in r && field in r[model]
  }

  /** A reported entry: the local value, and exactly the surviving channels, each with its cell and confidence. */
  ghost predicate IsReport(it: Item, local: Table, cs: seq<Channel>, field: string, model: string) {
    var l := Get(local, field, model);
    && it.current == l
    && it.upstreams.Keys == it.confidence.Keys
    && (forall n :: n in it.upstreams <==> exists i :: 0 <= i < |cs| && cs[i].name == n && Survives(local, cs, i))
    && (forall i :: 0 <= i < |cs| && Survives(local, cs, i) && cs[i].name in it.upstreams ==>
          && it.upstreams[cs[i].name] == Cell(l, cs[i], field, model)
          && it.confidence[cs[i].name] == Trusted(cs[i], model))
  }

  /** The report, for all inputs: a model and field are reported exactly when some channel differs there and a
      surviving channel's cell is not the marker. */
  ghost predicate IsReportOf(r: Differences, local: Table, cs: seq<Channel>) {
    && (forall m, f :: Reported(r, m, f) <==> SomeDifference(local, cs, f, m) && Kept(local, cs, f, m))
    && (forall m, f :: Reported(r, m, f) ==> IsReport(r[m][f], local, cs, f, m))
  }

  /** The first phase includes exactly the real differences, whatever the values are. */
  lemma IncludedIffRealDifference(local: Table, cs: seq<Channel>, field: string, model: string)
    ensures Included(local, cs, field, model) <==> exists i :: 0 <= i < |cs| && RealDifference(local, cs[i], field, model)
  {
    var l := Get(local, field, model);
    if l.Some? {
      forall i | 0 <= i < |cs| ensures Differing(l, cs[i], field, model) <==> RealDifference(local, cs[i], field, model) { }
    }
  }

  /** Every listed name belongs to a channel that no later one replaces. */
  lemma {:induction false} LastOf(cs: seq<Channel>, n: nat, name: string) returns (i: nat)
    requires n <= |cs| && exists j :: 0 <= j < n && cs[j].name == name
    ensures i < n && cs[i].name == name && LastNamed(cs, n, i)
  {
    if cs[n - 1].name == name {
      i := n - 1;
    } else {
      i := LastOf(cs, n - 1, name);
    }
  }

  lemma ItemShows(it: Item, local: Table, cs: seq<Channel>, field: string, model: string, i: nat)
    requires IsItem(it, local, cs, field, model) && i < |cs| && LastNamed(cs, |cs|, i)
    ensures cs[i].name in it.upstreams
    ensures ShowsDifference(it, cs[i].name) <==> Shows(local, cs[i], field, model)
  {
  }

  /** A real difference has an entry before pruning. */
  lemma DifferenceHasEntry(d: Differences, local: Table, cs: seq<Channel>, field: string, model: string)
    requires AreEntries(d, local, cs) && SomeDifference(local, cs, field, model)
    ensures Reported(d, model, field) && IsItem(d[model][field], local, cs, field, model)
  {
    assert Mentioned(local, cs, model);
    IncludedIffRealDifference(local, cs, field, model);
    assert IsEntry(Lookup(d, model), local, cs, model);
  }

  lemma EntryIsDifference(d: Differences, local: Table, cs: seq<Channel>, field: string, model: string)
    requires AreEntries(d, local, cs) && Reported(d, model, field)
    ensures SomeDifference(local, cs, field, model) && IsItem(d[model][field], local, cs, field, model)
  {
    assert IsEntry(Lookup(d, model), local, cs, model);
    IncludedIffRealDifference(local, cs, field, model);
  }

  /** `names` are the channels the entries show a difference for. */
  ghost predicate AreDiffering(names: set<string>, d: Differences) {
    forall n :: n in names <==> exists m, f :: m in d && f in d[m] && ShowsDifference(d[m][f], n)
  }

  /** The channels that stay are those that survive. */
  lemma NamesSurvive(d: Differences, names: set<string>, local: Table, cs: seq<Channel>, i: nat)
    requires AreEntries(d, local, cs) && AreDiffering(names, d) && i < |cs| && LastNamed(cs, |cs|, i)
    ensures cs[i].name in names <==> Survives(local, cs, i)
  {
    var n := cs[i].name;
    if n in names {
      var m, f :| m in d && f in d[m] && ShowsDifference(d[m][f], n);
      EntryIsDifference(d, local, cs, f, m);
      ItemShows(d[m][f], local, cs, f, m, i);
    }
    if Visible(local, cs[i]) {
      var f, m :| f in FIELDS && Shows(local, cs[i], f, m);
      assert RealDifference(local, cs[i], f, m);
      DifferenceHasEntry(d, local, cs, f, m);
      ItemShows(d[m][f], local, cs, f, m, i);
    }
  }

  lemma KeepsIffKept(d: Differences, names: set<string>, local: Table, cs: seq<Channel>, m: string, f: string)
    requires AreEntries(d, local, cs) && AreDiffering(names, d) && Reported(d, m, f)
    ensures Keeps(d[m][f], names) <==> Kept(local, cs, f, m)
  {
    var it := d[m][f];
    EntryIsDifference(d, local, cs, f, m);
    if Keeps(it, names) {
      var n :| n in it.upstreams && n in names && it.upstreams[n] != SAME;
      var i := LastOf(cs, |cs|, n);
      NamesSurvive(d, names, local, cs, i);
    }
    if i :| 0 <= i < |cs| && Survives(local, cs, i) && Cell(Get(local, f, m), cs[i], f, m) != SAME {
      NamesSurvive(d, names, local, cs, i);
      ItemShows(it, local, cs, f, m, i);
    }
  }

  /** `names` holds exactly the surviving channels. */
  ghost predicate AreSurvivors(names: set<string>, local: Table, cs: seq<Channel>) {
    forall i :: 0 <= i < |cs| && LastNamed(cs, |cs|, i) ==> (cs[i].name in names <==> Survives(local, cs, i))
  }

  lemma RestrictedNames(it: Item, names: set<string>, local: Table, cs: seq<Channel>, f: string, m: string, n: string)
    requires IsItem(it, local, cs, f, m) && AreSurvivors(names, local, cs)
    ensures n in it.upstreams && n in names <==> exists i :: 0 <= i < |cs| && cs[i].name == n && Survives(local, cs, i)
  {
    if n in it.upstreams && n in names {
      var i := LastOf(cs, |cs|, n);
      assert Survives(local, cs, i);
    }
  }

  lemma RestrictedIsReport(it: Item, names: set<string>, local: Table, cs: seq<Channel>, f: string, m: string)
    requires IsItem(it, local, cs, f, m) && AreSurvivors(names, local, cs)
    ensures IsReport(Restricted(it, names), local, cs, f, m)
  {
    forall n ensures n in it.upstreams && n in names <==> exists i :: 0 <= i < |cs| && cs[i].name == n && Survives(local, cs, i) {
      RestrictedNames(it, names, local, cs, f, m, n);
    }
  }

  lemma PrunedIsReport(local: Table, cs: seq<Channel>, d: Differences, names: set<string>, r: Differences)
    requires AreEntries(d, local, cs) && AreDiffering(names, d)
    requires (forall m <- r :: m in d) && forall m <- d :: IsPruned(Lookup(r, m), d[m], names)
    ensures IsReportOf(r, local, cs)
  {
    forall i | 0 <= i < |cs| && LastNamed(cs, |cs|, i) ensures cs[i].name in names <==> Survives(local, cs, i) {
      NamesSurvive(d, names, local, cs, i);
    }
    forall m, f | Reported(r, m, f)
      ensures SomeDifference(local, cs, f, m) && Kept(local, cs, f, m) && IsReport(r[m][f], local, cs, f, m)
    {
      assert IsPruned(Lookup(r, m), d[m], names);
      EntryIsDifference(d, local, cs, f, m);
      KeepsIffKept(d, names, local, cs, m, f);
      RestrictedIsReport(d[m][f], names, local, cs, f, m);
    }
    forall m, f | SomeDifference(local, cs, f, m) && Kept(local, cs, f, m) ensures Reported(r, m, f) {
      DifferenceHasEntry(d, local, cs, f, m);
      KeepsIffKept(d, names, local, cs, m, f);
      assert IsPruned(Lookup(r, m), d[m], names);
    }
  }

  /** `buildDifferences`. */
  method BuildDifferences(local: Table, cs: seq<Channel>) returns (r: Differences)
    ensures IsReportOf(r, local, cs)
    ensures SoundAndComplete(r, local, cs) <==> NothingHidden(local, cs)
    ensures CleanInput(cs) ==> SoundAndComplete(r, local, cs)
  {
    var d := BuildEntries(local, cs);
    var names := DifferingChannels(d);
    r := Prune(d, names);
    PrunedIsReport(local, cs, d, names, r);
    SoundAndCompleteIff(r, local, cs);
    if CleanInput(cs) {
      CleanHidesNothing(local, cs);
    }
  }

  // ---- When nothing is lost ---------------------------------------------------------------------------------------------

  ghost predicate DiffersSomewhere(local: Table, c: Channel) {
    exists f, m :: f in FIELDS && RealDifference(local, c, f, m)
  }

  /** No nulls, and no value that is the marker text "same". */
  ghost predicate Clean(c: Channel) {
    forall f, m :: Has(c.data, f, m) ==> Get(c.data, f, m).Some? && Get(c.data, f, m) != SAME
  }

  ghost predicate CleanInput(cs: seq<Channel>) {
    DistinctNames(cs) && forall i :: 0 <= i < |cs| ==> Clean(cs[i])
  }

  /** Exactly the real differences are reported, each with exactly the channels that differ somewhere. */
  ghost predicate SoundAndComplete(r: Differences, local: Table, cs: seq<Channel>) {
    && (forall m, f :: Reported(r, m, f) <==> SomeDifference(local, cs, f, m))
    && (forall m, f :: Reported(r, m, f) ==>
          && r[m][f].upstreams.Keys == r[m][f].confidence.Keys
          && forall n :: n in r[m][f].upstreams <==>
               exists i :: 0 <= i < |cs| && cs[i].name == n && DiffersSomewhere(local, cs[i]))
  }

  lemma CleanShows(local: Table, c: Channel, field: string, model: string)
    requires Clean(c)
    ensures RealDifference(local, c, field, model) <==> Shows(local, c, field, model)
  {
  }

  lemma CleanSurvives(local: Table, cs: seq<Channel>, i: nat)
    requires CleanInput(cs) && i < |cs|
    ensures Survives(local, cs, i) <==> DiffersSomewhere(local, cs[i])
  {
    if f, m :| f in FIELDS && RealDifference(local, cs[i], f, m) {
      CleanShows(local, cs[i], f, m);
    }
    if f, m :| f in FIELDS && Shows(local, cs[i], f, m) {
      CleanShows(local, cs[i], f, m);
    }
  }

  /** Every difference has a surviving channel whose cell there is not the marker, and every channel that differs
      somewhere survives, itself or under its name. */
  ghost predicate NothingHidden(local: Table, cs: seq<Channel>) {
    && (forall f, m :: SomeDifference(local, cs, f, m) ==> Kept(local, cs, f, m))
    && (forall i :: 0 <= i < |cs| && DiffersSomewhere(local, cs[i]) ==> SurvivesByName(local, cs, cs[i].name))
  }

  ghost predicate SurvivesByName(local: Table, cs: seq<Channel>, n: string) {
    exists i :: 0 <= i < |cs| && cs[i].name == n && Survives(local, cs, i)
  }

  lemma ShownIsReal(local: Table, c: Channel)
    ensures Visible(local, c) ==> DiffersSomewhere(local, c)
  {
    if f, m :| f in FIELDS && Shows(local, c, f, m) {
      assert RealDifference(local, c, f, m);
    }
  }

  /** Exactly when the report is sound and complete, for any values and any names. */
  lemma SoundAndCompleteIff(r: Differences, local: Table, cs: seq<Channel>)
    requires IsReportOf(r, local, cs)
    ensures SoundAndComplete(r, local, cs) <==> NothingHidden(local, cs)
  {
    forall i | 0 <= i < |cs| ensures Survives(local, cs, i) ==> DiffersSomewhere(local, cs[i]) {
      ShownIsReal(local, cs[i]);
    }
    if SoundAndComplete(r, local, cs) {
      forall i | 0 <= i < |cs| && DiffersSomewhere(local, cs[i]) ensures SurvivesByName(local, cs, cs[i].name) {
        var f, m :| f in FIELDS && RealDifference(local, cs[i], f, m);
        assert SomeDifference(local, cs, f, m);
        assert Reported(r, m, f) && cs[i].name in r[m][f].upstreams;
        assert IsReport(r[m][f], local, cs, f, m);
      }
    }
    if NothingHidden(local, cs) {
      forall n ensures SurvivesByName(local, cs, n) <==> exists i :: 0 <= i < |cs| && cs[i].name == n && DiffersSomewhere(local, cs[i]) {
      }
    }
  }

  /** Clean values and distinct names suffice. */
  lemma CleanHidesNothing(local: Table, cs: seq<Channel>)
    requires CleanInput(cs)
    ensures NothingHidden(local, cs)
  {
    forall i | 0 <= i < |cs| && DiffersSomewhere(local, cs[i]) ensures SurvivesByName(local, cs, cs[i].name) {
      CleanSurvives(local, cs, i);
    }
    forall f, m | SomeDifference(local, cs, f, m) ensures Kept(local, cs, f, m) {
      var i :| 0 <= i < |cs| && RealDifference(local, cs[i], f, m);
      CleanShows(local, cs[i], f, m);
      CleanSurvives(local, cs, i);
    }
  }

  function One(field: string, model: string, v: Option<Value>): (t: Table) {
    map[field := map[model := v]]
  }

  /** One channel that has a null where the local table has a price: an entry at first, lost in the end. */
  lemma NullIsLost(r: Differences, v: Value, name: string, field: string, model: string)
    requires field in FIELDS
    requires IsReportOf(r, One(field, model, Some(v)), [Channel(name, One(field, model, None))])
    ensures var cs := [Channel(name, One(field, model, None))];
            SomeDifference(One(field, model, Some(v)), cs, field, model) && !Reported(r, model, field)
  {
    var local, c := One(field, model, Some(v)), Channel(name, One(field, model, None));
    assert RealDifference(local, [c][0], field, model);
    assert !Visible(local, c);
  }

  /** One channel whose price for an unknown model is the marker text: a difference that is not reported. */
  lemma MarkerTextIsLost(r: Differences, name: string, field: string, model: string)
    requires field in FIELDS && IsReportOf(r, map[], [Channel(name, One(field, model, SAME))])
    ensures var cs := [Channel(name, One(field, model, SAME))];
            SomeDifference(map[], cs, field, model) && !Reported(r, model, field)
  {
    var c := Channel(name, One(field, model, SAME));
    assert RealDifference(map[], [c][0], field, model);
    assert !Visible(map[], c);
  }

  /** Two channels of one name, the later without prices: the earlier one's difference is not reported. */
  lemma RepeatedNameIsLost(r: Differences, v: Value, name: string, field: string, model: string)
    requires field in FIELDS && v != Text("same")
    requires IsReportOf(r, map[], [Channel(name, One(field, model, Some(v))), Channel(name, map[])])
    ensures var cs := [Channel(name, One(field, model, Some(v))), Channel(name, map[])];
            Clean(cs[0]) && Clean(cs[1]) && SomeDifference(map[], cs, field, model) && !Reported(r, model, field)
  {
    var cs := [Channel(name, One(field, model, Some(v))), Channel(name, map[])];
    assert RealDifference(map[], cs[0], field, model);
    assert !Visible(map[], cs[1]);
    assert !LastNamed(cs, |cs|, 0);
  }
}
