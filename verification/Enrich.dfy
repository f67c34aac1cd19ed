/** Filling in the derived columns of a page of models in one batch (`enrichModels`), compared with enriching each
    model on its own by scanning the prices. */
module Enrich {
  import opened Wrappers
  import opened Text

  datatype Rule = Exact | Prefix | Contains | Suffix | UnknownRule(code: int)

  datatype Bound = Bound(name: string, kind: int)

  datatype Quota = Quota(n: int)

  datatype Pricing = Pricing(name: string, endpoints: seq<string>, groups: seq<string>, quota: Quota)

  /** The endpoints column: empty, given by the administrator, or an encoded list. */
  datatype Endpoints = Empty | Given(text: string) | Encoded(types: seq<string>)

  datatype Row = Row(
    name: string,
    rule: Rule,
    endpoints: Endpoints,
    channels: seq<Bound>,
    groups: seq<string>,
    quotas: seq<Quota>,
    matched: seq<string>,
    count: int)

  /** The caches for exact names and the channels bound to a model name. */
  datatype Caches = Caches(
    endpointsOf: string -> seq<string>,
    groupsOf: string -> seq<string>,
    quotasOf: string -> seq<Quota>,
    bound: map<string, seq<Bound>>)

  function BoundTo(bound: map<string, seq<Bound>>, name: string): (chs: seq<Bound>) {
    if name in bound then bound[name] else []
  }

  /** `strings.Contains`. */
  predicate HasInside(s: string, part: string) {
    exists i :: 0 <= i <= |s| && part <= s[i..]
  }

  predicate EndsWith(s: string, part: string) {
    |part| <= |s| && s[|s| - |part|..] == part
  }

  predicate Matches(row: Row, p: Pricing) {
    match row.rule
    case Prefix => row.name <= p.name
    case Suffix => EndsWith(p.name, row.name)
    case Contains => HasInside(p.name, row.name)
    case _ => false
  }

  /** The rules in terms of the names. */
  lemma MatchesMeans(row: Row, p: Pricing)
    ensures row.rule.Prefix? ==> (Matches(row, p) <==> exists rest :: p.name == row.name + rest)
    ensures row.rule.Suffix? ==> (Matches(row, p) <==> exists front :: p.name == front + row.name)
    ensures row.rule.Contains? ==> (Matches(row, p) <==> exists front, rest :: p.name == front + row.name + rest)
    ensures row.rule.Exact? || row.rule.UnknownRule? ==> !Matches(row, p)
  {
    var a, n := row.name, p.name;
    match row.rule
    case Prefix =>
      if a <= n { assert n == a + n[|a|..]; }
    case Suffix =>
      if EndsWith(n, a) { assert n == n[..|n| - |a|] + a; }
    case Contains =>
      if i :| 0 <= i <= |n| && a <= n[i..] {
        assert n == n[..i] + a + n[i + |a|..];
      }
      if front, rest :| n == front + a + rest {
        assert n[|front|..] == a + rest;
      }
    case _ =>
  }

  // ---- Channel keys -----------------------------------------------------------------------------------------------

  function Digit(d: int): (c: char)
    requires 0 <= d < 10
  {
    "0123456789"[d]
  }

  function DigitValue(c: char): (d: int) {
    if '0' <= c <= '9' then c as int - '0' as int else 0
  }

  /** `strconv.Itoa` of a non-negative number. */
  function Digits(n: nat): (s: string) {
    if n < 10 then [Digit(n)] else Digits(n / 10) + [Digit(n % 10)]
  }

  function Itoa(n: int): (s: string) {
    if n < 0 then ['-'] + Digits(-n) else Digits(n)
  }

  function ValueOf(s: string): (n: int) {
    if s == "" then 0 else 10 * ValueOf(s[..|s| - 1]) + DigitValue(s[|s| - 1])
  }

  lemma DigitFacts(d: int)
    requires 0 <= d < 10
    ensures DigitValue(Digit(d)) == d && Digit(d) != '_' && Digit(d) != '-'
  {
  }

  lemma {:induction false} DigitsFacts(n: nat)
    ensures Digits(n) != "" && '_' !in Digits(n) && '-' !in Digits(n) && ValueOf(Digits(n)) == n
  {
    if n < 10 {
      DigitFacts(n);
      assert Digits(n)[..0] == "";
    } else {
      DigitsFacts(n / 10);
      DigitFacts(n % 10);
      assert Digits(n)[..|Digits(n)| - 1] == Digits(n / 10);
    }
  }

  lemma ItoaFacts(n: int)
    ensures Itoa(n) != "" && '_' !in Itoa(n)
  {
    DigitsFacts(if n < 0 then -n else n);
  }

  lemma ItoaIsInjective(a: int, b: int)
    requires Itoa(a) == Itoa(b)
    ensures a == b
  {
    DigitsFacts(if a < 0 then -a else a);
    DigitsFacts(if b < 0 then -b else b);
    assert a < 0 <==> Itoa(a)[0] == '-';
    assert b < 0 <==> Itoa(b)[0] == '-';
    if a < 0 {
      assert Itoa(a)[1..] == Digits(-a) && Itoa(b)[1..] == Digits(-b);
    }
  }

  /** The key under which a channel is collected. */
  function KeyOf(ch: Bound): (k: string) {
    ch.name + "_" + Itoa(ch.kind)
  }

  lemma SplitAtLast(a: string, x: string, b: string, y: string)
    requires a + "_" + x == b + "_" + y && '_' !in x && '_' !in y
    ensures a == b && x == y
  {
    var s := a + "_" + x;
    assert s[|a|] == '_' && s[|b|] == '_';
    assert a == s[..|a|] && b == s[..|b|];
    assert x == s[|a| + 1..] && y == s[|b| + 1..];
  }

  /** The key never merges two different channels, even though names may contain underscores and digits. */
  lemma KeyIsInjective(c: Bound, d: Bound)
    requires KeyOf(c) == KeyOf(d)
    ensures c == d
  {
    ItoaFacts(c.kind);
    ItoaFacts(d.kind);
    SplitAtLast(c.name, Itoa(c.kind), d.name, Itoa(d.kind));
    ItoaIsInjective(c.kind, d.kind);
  }

  // ---- Naive enrichment of one model ----------------------------------------------------------------------------

  /** The names of the matching prices, in order. */
  function MatchedNames(row: Row, ps: seq<Pricing>): (names: seq<string>) {
    if ps == [] then []
    else
      var front, p := MatchedNames(row, ps[..|ps| - 1]), ps[|ps| - 1];
      if Matches(row, p) then front + [p.name] else front
  }

  /** One price gives its name if it matches, and longer lists give the names of their parts in order. */
  lemma {:induction false} MatchedNamesSplit(row: Row, ps: seq<Pricing>, qs: seq<Pricing>)
    ensures MatchedNames(row, ps + qs) == MatchedNames(row, ps) + MatchedNames(row, qs)
    ensures |qs| == 1 ==> MatchedNames(row, qs) == if Matches(row, qs[0]) then [qs[0].name] else []
  {
    if qs == [] {
      assert ps + qs == ps;
    } else {
      var n := |qs| - 1;
      MatchedNamesSplit(row, ps, qs[..n]);
      assert (ps + qs)[..|ps + qs| - 1] == ps + qs[..n] && (ps + qs)[|ps + qs| - 1] == qs[n];
    }
  }

  ghost predicate OffersEndpoint(row: Row, ps: seq<Pricing>, e: string) {
    exists i :: 0 <= i < |ps| && Matches(row, ps[i]) && e in ps[i].endpoints
  }

  ghost predicate OffersGroup(row: Row, ps: seq<Pricing>, g: string) {
    exists i :: 0 <= i < |ps| && Matches(row, ps[i]) && g in ps[i].groups
  }

  ghost predicate OffersQuota(row: Row, ps: seq<Pricing>, q: Quota) {
    exists i :: 0 <= i < |ps| && Matches(row, ps[i]) && ps[i].quota == q
  }

  ghost predicate Serves(row: Row, ps: seq<Pricing>, bound: map<string, seq<Bound>>, ch: Bound) {
    exists i :: 0 <= i < |ps| && Matches(row, ps[i]) && ch in BoundTo(bound, ps[i].name)
  }

  predicate Ascending(qs: seq<Quota>) {
    forall i, j :: 0 <= i < j < |qs| ==> qs[i].n < qs[j].n
  }

  /** What a rule model looks like after being enriched by itself: columns nothing matched keep their old value. */
  ghost predicate IsEnrichedByRule(row': Row, row: Row, ps: seq<Pricing>, bound: map<string, seq<Bound>>) {
    var names := MatchedNames(row, ps);
    && row'.name == row.name && row'.rule == row.rule
    && row'.matched == names && row'.count == |names|
    && (if names == [] then row'.groups == row.groups && row'.quotas == row.quotas
        else && (NoRepeats(row'.groups) && forall g :: g in row'.groups <==> OffersGroup(row, ps, g))
             && (Ascending(row'.quotas) && forall q :: q in row'.quotas <==> OffersQuota(row, ps, q)))
    && (if names == [] || !row.endpoints.Empty? then row'.endpoints == row.endpoints
        else && row'.endpoints.Encoded? && NoRepeats(row'.endpoints.types)
             && forall e :: e in row'.endpoints.types <==> OffersEndpoint(row, ps, e))
    && (if exists ch :: Serves(row, ps, bound, ch)
        then NoRepeats(row'.channels) && forall ch :: ch in row'.channels <==> Serves(row, ps, bound, ch)
        else row'.channels == row.channels)
  }

  function EnrichedExactly(row: Row, caches: Caches): (row': Row) {
    row.(endpoints := if row.endpoints.Empty? then Encoded(caches.endpointsOf(row.name)) else row.endpoints,
         channels := BoundTo(caches.bound, row.name),
         groups := caches.groupsOf(row.name),
         quotas := caches.quotasOf(row.name))
  }

  /** An exact model: cached endpoints unless given, its bound channels, cached groups and quota types. */
  ghost predicate IsEnrichedByName(row': Row, row: Row, caches: Caches) {
    && row'.name == row.name && row'.rule == row.rule && row'.matched == row.matched && row'.count == row.count
    && row'.endpoints == (if row.endpoints == Empty then Encoded(caches.endpointsOf(row.name)) else row.endpoints)
    && row'.channels == (if row.name in caches.bound then caches.bound[row.name] else [])
    && row'.groups == caches.groupsOf(row.name) && row'.quotas == caches.quotasOf(row.name)
  }

  /** What a model looks like after being enriched by itself. */
  ghost predicate IsEnriched(row': Option<Row>, row: Option<Row>, ps: seq<Pricing>, caches: Caches) {
    if row == None then row' == None
    else if row.value.rule.Exact? then row'.Some? && IsEnrichedByName(row'.value, row.value, caches)
    else row'.Some? && IsEnrichedByRule(row'.value, row.value, ps, caches.bound)
  }

  // ---- Collecting over all prices -----------------------------------------------------------------------------------

  /** What the price loop has collected for one model. */
  datatype Found = Found(names: seq<string>, endpoints: set<string>, groups: set<string>, quotas: set<Quota>)

  function SetOf(xs: seq<string>): (s: set<string>)
    ensures forall x :: x in s <==> x in xs
  {
    set x | x in xs
  }

  function WithPrice(f: Option<Found>, p: Pricing): (f': Option<Found>) {
    var g := if f.Some? then f.value else Found([], {}, {}, {});
    Some(Found(g.names + [p.name], g.endpoints + SetOf(p.endpoints), g.groups + SetOf(p.groups), g.quotas + {p.quota}))
  }

  function Gathered(row: Row, ps: seq<Pricing>): (f: Option<Found>) {
    if ps == [] then None
    else
      var front, p := Gathered(row, ps[..|ps| - 1]), ps[|ps| - 1];
      if Matches(row, p) then WithPrice(front, p) else front
  }

  ghost predicate IsFound(f: Option<Found>, row: Row, ps: seq<Pricing>) {
    && (f == None <==> MatchedNames(row, ps) == [])
    && (f.Some? ==>
          && f.value.names == MatchedNames(row, ps)
          && (forall e :: e in f.value.endpoints <==> OffersEndpoint(row, ps, e))
          && (forall g :: g in f.value.groups <==> OffersGroup(row, ps, g))
          && (forall q :: q in f.value.quotas <==> OffersQuota(row, ps, q)))
  }

  /** How the offers change with one more price. */
  lemma OffersSnoc(row: Row, ps: seq<Pricing>)
    requires ps != []
    ensures var front, p := ps[..|ps| - 1], ps[|ps| - 1];
            && (forall e :: OffersEndpoint(row, ps, e) <==> OffersEndpoint(row, front, e) || (Matches(row, p) && e in p.endpoints))
            && (forall g :: OffersGroup(row, ps, g) <==> OffersGroup(row, front, g) || (Matches(row, p) && g in p.groups))
            && (forall q :: OffersQuota(row, ps, q) <==> OffersQuota(row, front, q) || (Matches(row, p) && q == p.quota))
  {
    var n := |ps| - 1;
    assert forall i :: 0 <= i < n ==> ps[..n][i] == ps[i];
  }

  lemma NothingOffered(row: Row, ps: seq<Pricing>)
    requires MatchedNames(row, ps) == []
    ensures forall i :: 0 <= i < |ps| ==> !Matches(row, ps[i])
  {
    if ps != [] {
      NothingOffered(row, ps[..|ps| - 1]);
    }
  }

  lemma {:induction false} GatheredIsFound(row: Row, ps: seq<Pricing>)
    ensures IsFound(Gathered(row, ps), row, ps)
  {
    if ps != [] {
      GatheredIsFound(row, ps[..|ps| - 1]);
      OffersSnoc(row, ps);
      if MatchedNames(row, ps[..|ps| - 1]) == [] {
        NothingOffered(row, ps[..|ps| - 1]);
      }
    }
  }

  // ---- The batch ------------------------------------------------------------------------------------------------------

  /** The keys of a map, in the arbitrary order of a range loop. */
  method Listed<T(==)>(s: set<T>) returns (xs: seq<T>)
    ensures NoRepeats(xs) && forall x :: x in xs <==> x in s
  {
    xs := [];
    var todo := s;
    while todo != {}
      invariant todo <= s && NoRepeats(xs) && forall x :: x in xs <==> x in s && x !in todo
      decreases |todo|
    {
      var x :| x in todo;
      xs := xs + [x];
      todo := todo - {x};
    }
  }

  /** How many quota types are below `n`. */
  function Rank(qs: seq<Quota>, n: int): (i: nat)
    ensures i <= |qs| && (forall j :: 0 <= j < i ==> qs[j].n < n) && (i < |qs| ==> qs[i].n >= n)
  {
    if qs == [] || qs[0].n >= n then 0 else 1 + Rank(qs[1..], n)
  }

  lemma InsertedAscends(qs: seq<Quota>, q: Quota)
    requires Ascending(qs) && q !in qs
    ensures Ascending(Inserted(qs, Rank(qs, q.n), q))
  {
    var i := Rank(qs, q.n);
    var r := Inserted(qs, i, q);
    forall j | i <= j < |qs| ensures q.n < qs[j].n {
      assert qs[i] in qs && qs[i] != q;
    }
    forall a, b | 0 <= a < b < |r| ensures r[a].n < r[b].n {
      assert r[a] == if a < i then qs[a] else if a == i then q else qs[a - 1];
      assert r[b] == if b < i then qs[b] else if b == i then q else qs[b - 1];
    }
  }

  /** The keys of the quota set, sorted. */
  method SortedQuotas(s: set<Quota>) returns (qs: seq<Quota>)
    ensures Ascending(qs) && forall q :: q in qs <==> q in s
  {
    qs := [];
    var todo := s;
    while todo != {}
      invariant todo <= s && Ascending(qs) && forall q :: q in qs <==> q in s && q !in todo
      decreases |todo|
    {
      var q :| q in todo;
      InsertedAscends(qs, q);
      InsertedMembers(qs, Rank(qs, q.n), q);
      qs := Inserted(qs, Rank(qs, q.n), q);
      todo := todo - {q};
    }
  }

  /** `GetBoundChannelsByModelsMap`: the bound channels of the given names only. */
  function Query(bound: map<string, seq<Bound>>, names: set<string>): (r: map<string, seq<Bound>>)
    ensures forall n <- names :: BoundTo(r, n) == BoundTo(bound, n)
  {
    map n | n in bound && n in names :: bound[n]
  }

  /** Collected channels sit under their own keys. */
  ghost predicate Keyed(cs: map<string, Bound>) {
    forall k <- cs :: KeyOf(cs[k]) == k
  }

  method AddChannels(cs: map<string, Bound>, chs: seq<Bound>) returns (r: map<string, Bound>)
    requires Keyed(cs)
    ensures Keyed(r) && forall ch :: KeyOf(ch) in r <==> KeyOf(ch) in cs || ch in chs
  {
    r := cs;
    for i := 0 to |chs|
      invariant Keyed(r) && forall ch :: KeyOf(ch) in r <==> KeyOf(ch) in cs || ch in chs[..i]
    {
      r := r[KeyOf(chs[i]) := chs[i]];
      forall ch ensures KeyOf(ch) == KeyOf(chs[i]) <==> ch == chs[i] {
        if KeyOf(ch) == KeyOf(chs[i]) { KeyIsInjective(ch, chs[i]); }
      }
      assert forall ch :: ch in chs[..i + 1] <==> ch in chs[..i] || ch == chs[i];
    }
    assert chs[..|chs|] == chs;
  }

  /** The union of the channels of all matched names. */
  method UniteChannels(names: seq<string>, byModel: map<string, seq<Bound>>) returns (chs: seq<Bound>)
    ensures NoRepeats(chs)
    ensures forall ch :: ch in chs <==> exists i :: 0 <= i < |names| && ch in BoundTo(byModel, names[i])
  {
    var cs: map<string, Bound> := map[];
    for i := 0 to |names|
      invariant Keyed(cs)
      invariant forall ch :: KeyOf(ch) in cs <==> exists j :: 0 <= j < i && ch in BoundTo(byModel, names[j])
    {
      cs := AddChannels(cs, BoundTo(byModel, names[i]));
    }
    var values := set k | k in cs :: cs[k];
    forall ch ensures ch in values <==> KeyOf(ch) in cs {
      if KeyOf(ch) in cs {
        KeyIsInjective(cs[KeyOf(ch)], ch);
      }
    }
    chs := Listed(values);
  }

  lemma {:induction false} NamesAreMatched(row: Row, ps: seq<Pricing>, name: string)
    ensures name in MatchedNames(row, ps) <==> exists i :: 0 <= i < |ps| && Matches(row, ps[i]) && ps[i].name == name
  {
    if ps != [] {
      var n := |ps| - 1;
      NamesAreMatched(row, ps[..n], name);
      assert forall i :: 0 <= i < n ==> ps[..n][i] == ps[i];
    }
  }

  /** Going through the matched names reaches the same channels as going through the matching prices. */
  lemma ServedByName(row: Row, ps: seq<Pricing>, bound: map<string, seq<Bound>>, ch: Bound)
    ensures var names := MatchedNames(row, ps);
            Serves(row, ps, bound, ch) <==> exists i :: 0 <= i < |names| && ch in BoundTo(bound, names[i])
  {
    var names := MatchedNames(row, ps);
    if Serves(row, ps, bound, ch) {
      var i :| 0 <= i < |ps| && Matches(row, ps[i]) && ch in BoundTo(bound, ps[i].name);
      NamesAreMatched(row, ps, ps[i].name);
    }
    if i :| 0 <= i < |names| && ch in BoundTo(bound, names[i]) {
      NamesAreMatched(row, ps, names[i]);
    }
  }

  /** Step 6 for one rule model. */
  method FillRule(row: Row, f: Option<Found>, byModel: map<string, seq<Bound>>,
                  ghost ps: seq<Pricing>, ghost bound: map<string, seq<Bound>>) returns (row': Row)
    requires IsFound(f, row, ps)
    requires forall n <- MatchedNames(row, ps) :: BoundTo(byModel, n) == BoundTo(bound, n)
    ensures IsEnrichedByRule(row', row, ps, bound)
  {
    row' := row;
    var names := [];
    if f.Some? {
      names := f.value.names;
      if row'.endpoints.Empty? {
        var types := Listed(f.value.endpoints);
        row' := row'.(endpoints := Encoded(types));
      }
      var groups := Listed(f.value.groups);
      var quotas := SortedQuotas(f.value.quotas);
      row' := row'.(groups := groups, quotas := quotas);
    }
    var chs := UniteChannels(names, byModel);
    forall ch ensures ch in chs <==> Serves(row, ps, bound, ch) {
      ServedByName(row, ps, bound, ch);
    }
    if chs != [] {
      assert chs[0] in chs;
      row' := row'.(channels := chs);
    }
    row' := row'.(matched := names, count := |names|);
  }

  // ---- Splitting the page -------------------------------------------------------------------------------------------

  predicate IsExact(r: Option<Row>) {
    r.Some? && r.value.rule.Exact?
  }

  predicate IsRule(r: Option<Row>) {
    r.Some? && !r.value.rule.Exact?
  }

  ghost predicate Has(xs: seq<int>, x: int) {
    exists j :: 0 <= j < |xs| && xs[j] == x
  }

  /** Every index listed for a name is an exact model of that name, among the first `n`. */
  ghost predicate GroupIsSound(xs: seq<int>, name: string, rows: seq<Option<Row>>, n: int)
    requires 0 <= n <= |rows|
  {
    forall j :: 0 <= j < |xs| ==> 0 <= xs[j] < n && IsExact(rows[xs[j]]) && rows[xs[j]].value.name == name
  }

  ghost predicate GroupsAreSound(idx: map<string, seq<int>>, rows: seq<Option<Row>>, n: int)
    requires 0 <= n <= |rows|
  {
    forall name <- idx :: GroupIsSound(idx[name], name, rows, n)
  }

  /** Every exact model among the first `n` is listed under its name. */
  ghost predicate GroupsAreComplete(idx: map<string, seq<int>>, rows: seq<Option<Row>>, n: int)
    requires 0 <= n <= |rows|
  {
    forall k :: 0 <= k < n && IsExact(rows[k]) ==> rows[k].value.name in idx && Has(idx[rows[k].value.name], k)
  }

  /** The rule models among the first `n`, in order. */
  ghost predicate InOrder(idx: seq<int>, rows: seq<Option<Row>>, n: int)
    requires 0 <= n <= |rows|
  {
    && (forall j :: 0 <= j < |idx| ==> 0 <= idx[j] < n && IsRule(rows[idx[j]]))
    && (forall i, j :: 0 <= i < j < |idx| ==> idx[i] < idx[j])
    && (forall k :: 0 <= k < n && IsRule(rows[k]) ==> Has(idx, k))
  }

  lemma HasSnoc(xs: seq<int>, x: int)
    ensures forall y :: Has(xs + [x], y) <==> Has(xs, y) || y == x
  {
    var zs := xs + [x];
    assert zs[|xs|] == x;
    forall y | Has(xs, y) ensures Has(zs, y) {
      var j :| 0 <= j < |xs| && xs[j] == y;
      assert zs[j] == y;
    }
  }

  function Append(idx: map<string, seq<int>>, name: string, k: int): (idx': map<string, seq<int>>) {
    idx[name := (if name in idx then idx[name] else []) + [k]]
  }

  lemma GroupOneMore(idx: map<string, seq<int>>, rows: seq<Option<Row>>, n: int)
    requires 0 <= n < |rows| && GroupsAreSound(idx, rows, n) && GroupsAreComplete(idx, rows, n) && IsExact(rows[n])
    ensures var idx' := Append(idx, rows[n].value.name, n);
            GroupsAreSound(idx', rows, n + 1) && GroupsAreComplete(idx', rows, n + 1)
  {
    HasSnoc(if rows[n].value.name in idx then idx[rows[n].value.name] else [], n);
  }

  lemma GroupsSkip(idx: map<string, seq<int>>, rows: seq<Option<Row>>, n: int)
    requires 0 <= n < |rows| && GroupsAreSound(idx, rows, n) && GroupsAreComplete(idx, rows, n) && !IsExact(rows[n])
    ensures GroupsAreSound(idx, rows, n + 1) && GroupsAreComplete(idx, rows, n + 1)
  {
  }

  lemma OrderOneMore(idx: seq<int>, rows: seq<Option<Row>>, n: int)
    requires 0 <= n < |rows| && InOrder(idx, rows, n) && IsRule(rows[n])
    ensures InOrder(idx + [n], rows, n + 1)
  {
    HasSnoc(idx, n);
  }

  method Classify(models: array<Option<Row>>) returns (exactIdx: map<string, seq<int>>, ruleIndices: seq<int>)
    ensures GroupsAreSound(exactIdx, models[..], models.Length)
    ensures GroupsAreComplete(exactIdx, models[..], models.Length)
    ensures InOrder(ruleIndices, models[..], models.Length)
  {
    exactIdx, ruleIndices := map[], [];
    ghost var rows := models[..];
    for i := 0 to models.Length
      invariant GroupsAreSound(exactIdx, rows, i)
      invariant GroupsAreComplete(exactIdx, rows, i)
      invariant InOrder(ruleIndices, rows, i)
    {
      if !IsExact(rows[i]) {
        GroupsSkip(exactIdx, rows, i);
      }
      if models[i].Some? {
        if models[i].value.rule.Exact? {
          GroupOneMore(exactIdx, rows, i);
          exactIdx := Append(exactIdx, models[i].value.name, i);
        } else {
          OrderOneMore(ruleIndices, rows, i);
          ruleIndices := ruleIndices + [i];
        }
      }
    }
  }

  // ---- Exact models ---------------------------------------------------------------------------------------------------

  function ExactSlot(r: Option<Row>, caches: Caches): (r': Option<Row>)
    ensures r' == r || r'.Some?
  {
    if IsExact(r) then Some(EnrichedExactly(r.value, caches)) else r
  }

  /** Step 3 for one name: its models, in place. */
  method FillGroup(models: array<Option<Row>>, name: string, indices: seq<int>, chs: seq<Bound>, caches: Caches)
    requires chs == BoundTo(caches.bound, name)
    requires GroupIsSound(indices, name, models[..], models.Length)
    modifies models
    ensures forall k :: 0 <= k < models.Length ==>
              models[k] == if Has(indices, k) then ExactSlot(old(models[k]), caches) else old(models[k])
  {
    for i := 0 to |indices|
      invariant forall k :: 0 <= k < models.Length ==>
                  models[k] == old(models[k]) || models[k] == ExactSlot(old(models[k]), caches)
      invariant forall j :: 0 <= j < i ==> models[indices[j]] == ExactSlot(old(models[indices[j]]), caches)
      invariant forall k :: 0 <= k < models.Length && !Has(indices, k) ==> models[k] == old(models[k])
    {
      var idx := indices[i];
      assert Has(indices, idx);
      var mm := models[idx].value;
      if mm.endpoints.Empty? {
        mm := mm.(endpoints := Encoded(caches.endpointsOf(mm.name)));
      }
      mm := mm.(channels := chs, groups := caches.groupsOf(mm.name), quotas := caches.quotasOf(mm.name));
      models[idx] := Some(mm);
    }
  }

  /** Step 3: all exact models. */
  method FillExact(models: array<Option<Row>>, exactIdx: map<string, seq<int>>, caches: Caches)
    requires GroupsAreSound(exactIdx, models[..], models.Length)
    requires GroupsAreComplete(exactIdx, models[..], models.Length)
    modifies models
    ensures forall k :: 0 <= k < models.Length ==> models[k] == ExactSlot(old(models[k]), caches)
  {
    var byModel := Query(caches.bound, exactIdx.Keys);
    ghost var rows := models[..];
    var todo := exactIdx.Keys;
    while todo != {}
      invariant todo <= exactIdx.Keys
      invariant forall k :: 0 <= k < models.Length ==>
                  models[k] == if IsExact(rows[k]) && rows[k].value.name !in todo then ExactSlot(rows[k], caches) else rows[k]
      decreases |todo|
    {
      var name :| name in todo;
      assert GroupIsSound(exactIdx[name], name, rows, models.Length);
      FillGroup(models, name, exactIdx[name], BoundTo(byModel, name), caches);
      todo := todo - {name};
    }
  }

  // ---- Rule models ----------------------------------------------------------------------------------------------------

  function Collected(row: Row, f: Option<Found>, p: Pricing): (f': Option<Found>) {
    if Matches(row, p) then WithPrice(f, p) else f
  }

  /** One price against every rule model. */
  method AddPrice(models: array<Option<Row>>, indices: seq<int>, p: Pricing, found: map<int, Found>)
    returns (found': map<int, Found>)
    requires InOrder(indices, models[..], models.Length)
    ensures forall j :: 0 <= j < |indices| ==>
              Lookup(found', indices[j]) == Collected(models[indices[j]].value, Lookup(found, indices[j]), p)
  {
    found' := found;
    for i := 0 to |indices|
      invariant forall j :: 0 <= j < i ==>
                  Lookup(found', indices[j]) == Collected(models[indices[j]].value, Lookup(found, indices[j]), p)
      invariant forall j :: i <= j < |indices| ==> Lookup(found', indices[j]) == Lookup(found, indices[j])
    {
      var idx := indices[i];
      if Matches(models[idx].value, p) {
        found' := found'[idx := WithPrice(Lookup(found', idx), p).value];
      }
    }
  }

  /** Step 4: every price against every rule model. */
  method Gather(models: array<Option<Row>>, indices: seq<int>, ps: seq<Pricing>) returns (found: map<int, Found>)
    requires InOrder(indices, models[..], models.Length)
    ensures forall j :: 0 <= j < |indices| ==> Lookup(found, indices[j]) == Gathered(models[indices[j]].value, ps)
  {
    found := map[];
    for i := 0 to |ps|
      invariant forall j :: 0 <= j < |indices| ==>
                  Lookup(found, indices[j]) == Gathered(models[indices[j]].value, ps[..i])
    {
      found := AddPrice(models, indices, ps[i], found);
      assert ps[..i + 1][..i] == ps[..i] && ps[..i + 1][i] == ps[i];
    }
    assert ps[..|ps|] == ps;
  }

  /** Step 5: all matched names. */
  method AllMatched(found: map<int, Found>) returns (names: set<string>)
    ensures forall k <- found :: forall n <- found[k].names :: n in names
  {
    names := {};
    var todo := found.Values;
    while todo != {}
      invariant forall f <- found.Values :: f in todo || forall n <- f.names :: n in names
      decreases |todo|
    {
      var f :| f in todo;
      names := names + SetOf(f.names);
      todo := todo - {f};
    }
    assert forall k <- found :: found[k] in found.Values;
  }

  /** Step 6: every rule model, in place. */
  method FillRules(models: array<Option<Row>>, indices: seq<int>, found: map<int, Found>,
                   byModel: map<string, seq<Bound>>, ghost ps: seq<Pricing>, ghost bound: map<string, seq<Bound>>)
    requires InOrder(indices, models[..], models.Length)
    requires forall j :: 0 <= j < |indices| ==> Lookup(found, indices[j]) == Gathered(models[indices[j]].value, ps)
    requires forall k <- found :: forall n <- found[k].names :: BoundTo(byModel, n) == BoundTo(bound, n)
    modifies models
    ensures forall k :: 0 <= k < models.Length ==>
              if IsRule(old(models[k])) then
                models[k].Some? && IsEnrichedByRule(models[k].value, old(models[k]).value, ps, bound)
              else models[k] == old(models[k])
  {
    for i := 0 to |indices|
      invariant forall j :: 0 <= j < i ==>
                  && models[indices[j]].Some?
                  && IsEnrichedByRule(models[indices[j]].value, old(models[indices[j]]).value, ps, bound)
      invariant forall j :: i <= j < |indices| ==> models[indices[j]] == old(models[indices[j]])
      invariant forall k :: 0 <= k < models.Length && !IsRule(old(models[k])) ==> models[k] == old(models[k])
    {
      var idx := indices[i];
      var row := models[idx].value;
      GatheredIsFound(row, ps);
      var row' := FillRule(row, Lookup(found, idx), byModel, ps, bound);
      models[idx] := Some(row');
    }
  }

  /** The whole batch gives every model of the page exactly what enriching it alone would. */
  method EnrichModels(models: array<Option<Row>>, ps: seq<Pricing>, caches: Caches)
    modifies models
    ensures forall k :: 0 <= k < models.Length ==> IsEnriched(models[k], old(models[k]), ps, caches)
  {
    if models.Length == 0 {
      return;
    }
    var exactIdx, ruleIndices := Classify(models);
    FillExact(models, exactIdx, caches);
    if |ruleIndices| == 0 {
      return;
    }
    var found := Gather(models, ruleIndices, ps);
    var names := AllMatched(found);
    var byModel := Query(caches.bound, names);
    FillRules(models, ruleIndices, found, byModel, ps, caches.bound);
  }
}
