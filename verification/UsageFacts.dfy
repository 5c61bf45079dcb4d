/** The analytics dataset: rows grouped by date, site, model, API key and currency, from which
    clients recompute any total. */
module UsageFacts {
  import opened Common
  import opened Sorting
  import opened Summation
  import opened Grouping
  import opened Regrouping
  import opened UsageMetrics

  const NUL := "\U{0000}"

  /** Inputs the rows are read with: how a bucket formats as a date, the current names of API
      keys, and upper-casing. */
  datatype Context = Context(format: int -> string, names: map<string, string>, upper: string -> string)

  function NormalizeCurrency(c: Context, value: string): string {
    var v := TrimSpace(value);
    if v == "" then DEFAULT_CURRENCY else c.upper(v)
  }

  datatype Dims = Dims(date: string, site: string, model: string, apiKey: string, currency: string)

  function DimsOf(c: Context): Row -> Dims {
    (r: Row) => Dims(c.format(r.bucketStart), SiteDimension(r).key, ModelDimension(r).key,
                     ApiKeyDimension(c.names, r).key, NormalizeCurrency(c, r.currency))
  }

  /** The grouping key: the five dimensions joined by NUL characters. */
  function JoinKey(d: Dims): string {
    d.date + NUL + (d.site + NUL + (d.model + NUL + (d.apiKey + NUL + d.currency)))
  }

  datatype Fact = Fact(date: string, site: Ref, model: Ref, apiKey: Ref, currency: string, metrics: Metrics)

  function FactDims(f: Fact): Dims {
    Dims(f.date, f.site.key, f.model.key, f.apiKey.key, f.currency)
  }

  function MetricsOf(f: Fact): Metrics {
    f.metrics
  }

  /** Rows are grouped by their joined dimensions into facts. */
  function FactScheme(c: Context): Scheme<Row, Fact, Dims, Metrics> {
    Scheme(DimsOf(c), JoinKey, OfRow, FactDims, MetricsOf, USAGE, FirstFact(c), AddToFact)
  }

  function RowKey(c: Context): Row -> string {
    KeyFor(FactScheme(c))
  }

  function FirstFact(c: Context): Row -> Fact {
    (r: Row) => Fact(c.format(r.bucketStart), SiteDimension(r), ModelDimension(r), ApiKeyDimension(c.names, r),
                     NormalizeCurrency(c, r.currency), ZERO)
  }

  function AddToFact(f: Fact, r: Row): Fact {
    f.(metrics := Plus(f.metrics, OfRow(r)))
  }

  function FactMap(c: Context, rows: seq<Row>): map<string, Fact> {
    Grouped(FactScheme(c), rows)
  }

  /** Date, then the names of site, model and API key. */
  function FactBefore(a: Fact, b: Fact): bool {
    if a.date != b.date then Less(a.date, b.date)
    else if a.site.name != b.site.name then Less(a.site.name, b.site.name)
    else if a.model.name != b.model.name then Less(a.model.name, b.model.name)
    else Less(a.apiKey.name, b.apiKey.name)
  }

  ghost predicate FactsOf(c: Context, rows: seq<Row>, facts: seq<Fact>) {
    exists ks :: Enumerates(FactMap(c, rows), ks) && facts == StableSort(Values(FactMap(c, rows), ks), FactBefore)
  }

  lemma SortedWalkIsFacts(c: Context, rows: seq<Row>, ks: seq<string>)
    requires Enumerates(FactMap(c, rows), ks)
    ensures FactsOf(c, rows, StableSort(Values(FactMap(c, rows), ks), FactBefore))
  {
  }

  method BuildUsageFacts(c: Context, rows: seq<Row>) returns (facts: seq<Fact>)
    ensures FactsOf(c, rows, facts)
  {
    var byKey := GroupRows(FactScheme(c), rows);
    var ks := Walk(byKey);
    SortedWalkIsFacts(c, rows, ks);
    facts := StableSort(Values(byKey, ks), FactBefore);
  }

  // ----- What the grouping holds -----

  const ALL: Row -> bool := Every()

  lemma FactsGrow(c: Context)
    ensures Grows(FactScheme(c))
  {
    forall f: Fact, r: Row ensures GrowsAt(FactScheme(c), f, r) {}
  }

  lemma FactMapGroups(c: Context, rows: seq<Row>)
    ensures GroupsOf(FactScheme(c), rows, FactMap(c, rows))
  {
    FactsGrow(c);
    GroupedIsGroups(FactScheme(c), rows);
  }

  /** There is one group per key of a row, under the dimensions of one of its rows. */
  lemma FactKeys(c: Context, rows: seq<Row>, k: string)
    ensures k in FactMap(c, rows) <==> exists r :: r in rows && RowKey(c)(r) == k
    ensures k in FactMap(c, rows) ==> Remembers(FactScheme(c), rows, k, FactMap(c, rows)[k])
  {
    GroupedKeys(FactScheme(c), rows, k);
    FactMapGroups(c, rows);
  }

  /** Every group holds the sum of its rows. */
  lemma FactsHoldTheirRows(c: Context, rows: seq<Row>, k: string)
    requires k in FactMap(c, rows)
    ensures FactMap(c, rows)[k].metrics == UsageWhere(rows, KeyIs(RowKey(c), k, ALL))
  {
    FactMapGroups(c, rows);
  }

  // ----- Joined keys -----

  predicate NulFree(s: string) {
    forall i :: 0 <= i < |s| ==> s[i] != '\U{0000}'
  }

  /** All dimensions but the model, which stands between NUL-free neighbours. */
  predicate NulFreeDims(d: Dims) {
    NulFree(d.date) && NulFree(d.site) && NulFree(d.apiKey) && NulFree(d.currency)
  }

  /** The first NUL separates what precedes it from what follows. */
  lemma SplitAtNul(a: string, b: string, a': string, b': string)
    requires NulFree(a) && NulFree(a') && a + NUL + b == a' + NUL + b'
    ensures a == a' && b == b'
  {
    var s := a + NUL + b;
    assert s[|a|] == '\U{0000}' && s[|a'|] == '\U{0000}';
    assert forall i :: 0 <= i < |a| ==> s[i] == a[i];
    assert forall i :: 0 <= i < |a'| ==> s[i] == a'[i];
    assert |a| == |a'|;
    assert a == s[..|a|] == a';
    assert b == s[|a| + 1..] == b';
  }

  /** And the last NUL separates what follows it. */
  lemma SplitAtLastNul(a: string, b: string, a': string, b': string)
    requires NulFree(b) && NulFree(b') && a + NUL + b == a' + NUL + b'
    ensures a == a' && b == b'
  {
    var s := a + NUL + b;
    assert s[|a|] == '\U{0000}' && s[|a'|] == '\U{0000}';
    assert forall i :: |a| < i < |s| ==> s[i] == b[i - |a| - 1];
    assert forall i :: |a'| < i < |s| ==> s[i] == b'[i - |a'| - 1];
    assert |a| == |a'|;
    assert a == s[..|a|] == a';
    assert b == s[|a| + 1..] == b';
  }

  lemma JoinIsInjective(d: Dims, e: Dims)
    requires NulFreeDims(d) && NulFreeDims(e) && JoinKey(d) == JoinKey(e)
    ensures d == e
  {
    SplitAtNul(d.date, d.site + NUL + (d.model + NUL + (d.apiKey + NUL + d.currency)),
               e.date, e.site + NUL + (e.model + NUL + (e.apiKey + NUL + e.currency)));
    SplitAtNul(d.site, d.model + NUL + (d.apiKey + NUL + d.currency),
               e.site, e.model + NUL + (e.apiKey + NUL + e.currency));
    var front, front' := d.model + NUL + d.apiKey, e.model + NUL + e.apiKey;
    assert d.model + NUL + (d.apiKey + NUL + d.currency) == front + NUL + d.currency;
    assert e.model + NUL + (e.apiKey + NUL + e.currency) == front' + NUL + e.currency;
    SplitAtLastNul(front, d.currency, front', e.currency);
    SplitAtLastNul(d.model, d.apiKey, e.model, e.apiKey);
  }

  /** No two rows with different dimensions share a grouping key. */
  ghost predicate NoCollision(c: Context, rows: seq<Row>) {
    Unmixed(FactScheme(c), rows)
  }

  lemma NulFreeRowsDoNotCollide(c: Context, rows: seq<Row>)
    requires forall r :: r in rows ==> NulFreeDims(DimsOf(c)(r))
    ensures NoCollision(c, rows)
  {
    forall r, r' | r in rows && r' in rows && RowKey(c)(r) == RowKey(c)(r') ensures DimsOf(c)(r) == DimsOf(c)(r') {
      JoinIsInjective(DimsOf(c)(r), DimsOf(c)(r'));
    }
  }

  // ----- Re-aggregation -----

  lemma FactBeforeIsStrictWeak()
    ensures StrictWeak(FactBefore)
  {
    forall a: Fact, b: Fact, d: Fact
      ensures !FactBefore(a, a)
      ensures FactBefore(a, b) && FactBefore(b, d) ==> FactBefore(a, d)
      ensures !FactBefore(a, b) && !FactBefore(b, d) ==> !FactBefore(a, d)
    {
      WeakField(a.date, b.date, d.date);
      WeakField(a.site.name, b.site.name, d.site.name);
      WeakField(a.model.name, b.model.name, d.model.name);
      WeakField(a.apiKey.name, b.apiKey.name, d.apiKey.name);
    }
  }

  lemma WeakField(a: string, b: string, d: string)
    ensures !Less(a, a)
    ensures Less(a, b) && Less(b, d) ==> Less(a, d)
    ensures !Less(a, b) && !Less(b, d) ==> !Less(a, d)
    ensures a == b || Less(a, b) || Less(b, a)
    ensures b == d || Less(b, d) || Less(d, b)
    ensures a == d || Less(a, d) || Less(d, a)
  {
    LessIrreflexive(a);
    LessIsWeak(a, b, d);
    LessTotal(a, b);
    LessTotal(b, d);
    LessTotal(a, d);
  }

  lemma SortedFactsAgree(c: Context, rows: seq<Row>, values: seq<Fact>, want: Dims -> bool)
    ensures Agrees(FactScheme(c), rows, StableSort(values, FactBefore), want) <==>
            Agrees(FactScheme(c), rows, values, want)
  {
    UsageIsLawful();
    FactBeforeIsStrictWeak();
    SumOfSorted(values, FactBefore, Meets(FactDims, want), MetricsOf, USAGE);
  }

  /** For every condition on date, site, model, API key and currency, selecting facts and summing
      them equals selecting the raw rows and summing those. */
  lemma FactsReaggregate(c: Context, rows: seq<Row>, facts: seq<Fact>, want: Dims -> bool)
    requires FactsOf(c, rows, facts) && NoCollision(c, rows)
    ensures SumWhere(facts, Meets(FactDims, want), MetricsOf, USAGE) == UsageWhere(rows, Meets(DimsOf(c), want))
  {
    var m := FactMap(c, rows);
    var ks :| Enumerates(m, ks) && facts == StableSort(Values(m, ks), FactBefore);
    UsageIsLawful();
    FactMapGroups(c, rows);
    UnmixedAgrees(FactScheme(c), rows, m, ks, want);
    SortedFactsAgree(c, rows, Values(m, ks), want);
  }

  function RequestsIn(m: Metrics): int {
    m.requests
  }

  lemma RequestsAddUp()
    ensures Additive(RequestsIn, USAGE)
  {
    forall a: Metrics, b: Metrics ensures Adds(RequestsIn, USAGE, a, b) {}
  }

  /** And when every row counts at least one request, only then: a fact that mixes rows of
      different dimensions answers some selection wrongly. */
  lemma FactsReaggregateIff(c: Context, rows: seq<Row>, facts: seq<Fact>)
    requires FactsOf(c, rows, facts) && forall r :: r in rows ==> r.requestCount > 0
    ensures (forall want :: Agrees(FactScheme(c), rows, facts, want)) <==> NoCollision(c, rows)
  {
    var m := FactMap(c, rows);
    var ks :| Enumerates(m, ks) && facts == StableSort(Values(m, ks), FactBefore);
    UsageIsLawful();
    FactMapGroups(c, rows);
    forall want ensures Agrees(FactScheme(c), rows, facts, want) <==> Agrees(FactScheme(c), rows, Values(m, ks), want) {
      SortedFactsAgree(c, rows, Values(m, ks), want);
    }
    RequestsAddUp();
    AgreesIffUnmixed(FactScheme(c), rows, m, ks, RequestsIn);
  }

  // ----- A collision -----

  /** A row of one request that has only a site and a model. */
  function PlainRow(site: string, model: string): Row {
    Row(0, site, None, "", "", model, None, "", None, "", None, "", "", "", "",
        1, 1, 0, 0, 0, 0, 0, 0.0, 0, 0, None, 0, 0)
  }

  lemma SharedKeyCollides(c: Context, r: Row, r': Row)
    requires JoinKey(DimsOf(c)(r)) == JoinKey(DimsOf(c)(r')) && DimsOf(c)(r) != DimsOf(c)(r')
    ensures !NoCollision(c, [r, r'])
  {
    assert r in [r, r'] && r' in [r, r'] && KeyFor(FactScheme(c))(r) == KeyFor(FactScheme(c))(r');
  }

  predicate Plain(s: string) {
    s != "" && s != NONE && NoSpace(s)
  }

  lemma PlainDims(c: Context, site: string, model: string)
    requires Plain(site) && Plain(model)
    ensures DimsOf(c)(PlainRow(site, model)) == Dims(c.format(0), site, model, UNKNOWN, NormalizeCurrency(c, ""))
  {
    TrimNoSpace(site);
    TrimNoSpace(model);
  }

  /** The NUL that ends a site key may as well stand inside it. */
  lemma NulMoves(date: string, site: string, x: string, model: string, apiKey: string, currency: string)
    ensures JoinKey(Dims(date, site + NUL + x, model, apiKey, currency)) ==
            JoinKey(Dims(date, site, x + NUL + model, apiKey, currency))
  {
  }

  /** Two rows that share a key under different dimensions make some selection of the facts wrong. */
  lemma CollisionIsSeen(c: Context, r: Row, r': Row, facts: seq<Fact>)
    requires JoinKey(DimsOf(c)(r)) == JoinKey(DimsOf(c)(r')) && DimsOf(c)(r) != DimsOf(c)(r')
    requires r.requestCount > 0 && r'.requestCount > 0 && FactsOf(c, [r, r'], facts)
    ensures exists want :: !Agrees(FactScheme(c), [r, r'], facts, want)
  {
    SharedKeyCollides(c, r, r');
    FactsReaggregateIff(c, [r, r'], facts);
  }

  /** A NUL may move from between site and model into either, so two rows share a key. */
  lemma NulInSiteShares(c: Context, site: string, x: string, model: string)
    requires Plain(site) && Plain(site + NUL + x) && Plain(model) && Plain(x + NUL + model)
    ensures var r, r' := PlainRow(site + NUL + x, model), PlainRow(site, x + NUL + model);
            JoinKey(DimsOf(c)(r)) == JoinKey(DimsOf(c)(r')) && DimsOf(c)(r) != DimsOf(c)(r')
  {
    PlainDims(c, site + NUL + x, model);
    PlainDims(c, site, x + NUL + model);
    NulMoves(c.format(0), site, x, model, UNKNOWN, NormalizeCurrency(c, ""));
    assert |site + NUL + x| > |site|;
  }

  /** So a NUL in a site key can make some selection of the facts wrong. */
  lemma NulInSiteCollides(c: Context, site: string, x: string, model: string, facts: seq<Fact>)
    requires Plain(site) && Plain(site + NUL + x) && Plain(model) && Plain(x + NUL + model)
    requires FactsOf(c, [PlainRow(site + NUL + x, model), PlainRow(site, x + NUL + model)], facts)
    ensures exists want ::
              !Agrees(FactScheme(c), [PlainRow(site + NUL + x, model), PlainRow(site, x + NUL + model)], facts, want)
  {
    NulInSiteShares(c, site, x, model);
    CollisionIsSeen(c, PlainRow(site + NUL + x, model), PlainRow(site, x + NUL + model), facts);
  }

  lemma ExampleIsPlain()
    ensures Plain("s") && Plain("s" + NUL + "x") && Plain("m") && Plain("x" + NUL + "m")
  {
  }

  /** Sites "s<NUL>x" and "s" with models "m" and "x<NUL>m", for example. */
  lemma CollidingExample(c: Context)
    ensures !NoCollision(c, [PlainRow("s" + NUL + "x", "m"), PlainRow("s", "x" + NUL + "m")])
  {
    ExampleIsPlain();
    NulInSiteShares(c, "s", "x", "m");
    SharedKeyCollides(c, PlainRow("s" + NUL + "x", "m"), PlainRow("s", "x" + NUL + "m"));
  }

  // ----- Facts, in detail -----

  function RefsOf(f: Fact): (string, Ref, Ref, Ref, string) {
    (f.date, f.site, f.model, f.apiKey, f.currency)
  }

  /** A fact is described by the first of its rows. */
  lemma FactIsDescribed(c: Context, rows: seq<Row>, k: string)
    requires k in FactMap(c, rows)
    ensures var f := FactMap(c, rows)[k];
            exists i :: FirstWith(rows, RowKey(c), k, i)
                     && f.date == c.format(rows[i].bucketStart) && f.site == SiteDimension(rows[i])
                     && f.model == ModelDimension(rows[i]) && f.apiKey == ApiKeyDimension(c.names, rows[i])
                     && f.currency == NormalizeCurrency(c, rows[i].currency)
  {
    GroupedKeeps(FactScheme(c), rows, k, RefsOf);
    var i :| FirstWith(rows, RowKey(c), k, i) && RefsOf(FactMap(c, rows)[k]) == RefsOf(FirstFact(c)(rows[i]));
  }

  /** The five dimensions of a row, and those a fact is selected by. */
  lemma DimsAreRead(c: Context, r: Row, f: Fact)
    ensures var d := DimsOf(c)(r);
            && d.date == c.format(r.bucketStart) && d.site == SiteDimension(r).key && d.model == ModelDimension(r).key
            && d.apiKey == ApiKeyDimension(c.names, r).key && d.currency == NormalizeCurrency(c, r.currency)
    ensures var d := FactDims(f);
            && d.date == f.date && d.site == f.site.key && d.model == f.model.key && d.apiKey == f.apiKey.key
            && d.currency == f.currency
  {
  }

  /** A blank currency is US dollars, any other its trimmed name in upper case. */
  lemma CurrencyIsRead(c: Context, value: string)
    ensures NormalizeCurrency(c, value) == if TrimSpace(value) == "" then "USD" else c.upper(TrimSpace(value))
  {
  }

  /** Facts come by date, then by the names of site, model and API key. */
  lemma FactsAreOrdered(c: Context, rows: seq<Row>, facts: seq<Fact>, i: nat, j: nat)
    requires FactsOf(c, rows, facts) && i < j < |facts|
    ensures var a, b := facts[i], facts[j];
            || Less(a.date, b.date)
            || (a.date == b.date && Less(a.site.name, b.site.name))
            || (a.date == b.date && a.site.name == b.site.name && Less(a.model.name, b.model.name))
            || (&& a.date == b.date && a.site.name == b.site.name && a.model.name == b.model.name
                && !Less(b.apiKey.name, a.apiKey.name))
  {
    var m := FactMap(c, rows);
    var ks :| Enumerates(m, ks) && facts == StableSort(Values(m, ks), FactBefore);
    FactBeforeIsStrictWeak();
    SortIsOrderedPermutation(Values(m, ks), FactBefore);
    assert !FactBefore(facts[j], facts[i]);
    LessTotal(facts[i].date, facts[j].date);
    LessTotal(facts[i].site.name, facts[j].site.name);
    LessTotal(facts[i].model.name, facts[j].model.name);
  }
}
