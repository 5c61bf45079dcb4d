/** The site by model matrix of the usage report: cells of the ten highest-cost sites and the ten
    highest-cost models. */
module UsageMatrix {
  import opened Common
  import opened Sorting
  import opened Summation
  import opened Grouping
  import opened Regrouping
  import opened UsageMetrics
  import opened UsageFacts
  import opened UsageBreakdowns

  const MATRIX_TOP: nat := 10

  // ----- Highest-cost keys -----

  function AddName(dim: Row -> Ref, m: map<string, string>, r: Row): map<string, string> {
    if dim(r).key in m then m else m[dim(r).key := dim(r).name]
  }

  /** The name in the first row of each key. */
  function FirstNames(dim: Row -> Ref, rows: seq<Row>): map<string, string> {
    if rows == [] then map[] else AddName(dim, FirstNames(dim, rows[..|rows| - 1]), rows[|rows| - 1])
  }

  datatype Entry = Entry(key: string, cost: real, name: string)

  function EntryRank(e: Entry): Rank {
    Rank(e.cost, 0, e.name)
  }

  function EntryMap(costs: map<string, real>, names: map<string, string>): map<string, Entry> {
    map k | k in costs :: Entry(k, costs[k], if k in names then names[k] else "")
  }

  function KeysOf(entries: seq<Entry>): set<string> {
    set e | e in entries :: e.key
  }

  ghost predicate EntryRanking(m: map<string, Entry>, ranking: seq<Entry>) {
    exists ks :: Enumerates(m, ks) && ranking == StableSort(Values(m, ks), ByRank(EntryRank))
  }

  /** `top` holds the keys of the first `limit` entries of some ranking. */
  ghost predicate TopOf(costs: map<string, real>, names: map<string, string>, limit: nat, top: set<string>) {
    exists ranking ::
      && EntryRanking(EntryMap(costs, names), ranking)
      && top == KeysOf(ranking[..CutAt(|ranking|, limit)])
  }

  method TopDimensionKeys(costs: map<string, real>, names: map<string, string>, limit: nat) returns (top: set<string>)
    ensures TopOf(costs, names, limit, top)
  {
    var m := EntryMap(costs, names);
    var ks := Walk(m);
    var entries := StableSort(Values(m, ks), ByRank(EntryRank));
    ghost var ranking := entries;
    if |entries| > limit {
      entries := entries[..limit];
    }
    top := {};
    for i := 0 to |entries|
      invariant top == KeysOf(entries[..i])
    {
      assert entries[..i + 1] == entries[..i] + [entries[i]];
      top := top + {entries[i].key};
    }
    assert entries == ranking[..CutAt(|ranking|, limit)] == entries[..|entries|];
    assert EntryRanking(m, ranking);
  }

  lemma RankedEntries(costs: map<string, real>, names: map<string, string>, ranking: seq<Entry>, e: Entry)
    requires EntryRanking(EntryMap(costs, names), ranking)
    ensures e in ranking <==> e.key in costs && e == EntryMap(costs, names)[e.key]
  {
    var m := EntryMap(costs, names);
    var ks :| Enumerates(m, ks) && ranking == StableSort(Values(m, ks), ByRank(EntryRank));
    RankingIsStrictWeak(EntryRank);
    SortedValues(m, ks, ByRank(EntryRank), e);
  }

  lemma RankingSize(m: map<string, Entry>, ranking: seq<Entry>)
    requires EntryRanking(m, ranking)
    ensures |ranking| == |m|
  {
    var ks :| Enumerates(m, ks) && ranking == StableSort(Values(m, ks), ByRank(EntryRank));
    DistinctSize(ks, m.Keys);
  }

  lemma {:induction false} DistinctSize(ks: seq<string>, keys: set<string>)
    requires Distinct(ks) && forall k :: k in ks <==> k in keys
    ensures |ks| == |keys|
  {
    if ks != [] {
      var init, last := ks[..|ks| - 1], ks[|ks| - 1];
      assert ks == init + [last];
      assert last in ks && last !in init;
      assert forall k :: k in init ==> k in ks;
      DistinctSize(init, keys - {last});
    }
  }

  /** Keys are only left out when there are more than the limit. */
  lemma FewKeysAreAllTop(costs: map<string, real>, names: map<string, string>, limit: nat, top: set<string>)
    requires TopOf(costs, names, limit, top) && |costs| <= limit
    ensures top == costs.Keys
  {
    var m := EntryMap(costs, names);
    var ranking :| EntryRanking(m, ranking) && top == KeysOf(ranking[..CutAt(|ranking|, limit)]);
    RankingSize(m, ranking);
    assert m.Keys == costs.Keys;
    assert ranking[..|ranking|] == ranking;
    forall k ensures k in top <==> k in costs { RankedKeys(costs, names, ranking, k); }
  }

  lemma RankedKeys(costs: map<string, real>, names: map<string, string>, ranking: seq<Entry>, k: string)
    requires EntryRanking(EntryMap(costs, names), ranking)
    ensures k in KeysOf(ranking) <==> k in costs
  {
    if k in costs { RankedEntries(costs, names, ranking, EntryMap(costs, names)[k]); }
    if k in KeysOf(ranking) {
      var e: Entry :| e in ranking && e.key == k;
      RankedEntries(costs, names, ranking, e);
    }
  }

  lemma RankedInOrder(m: map<string, Entry>, ranking: seq<Entry>, i: nat, j: nat)
    requires EntryRanking(m, ranking) && i < j < |ranking|
    ensures !Outranks(EntryRank(ranking[j]), EntryRank(ranking[i]))
  {
    var ks :| Enumerates(m, ks) && ranking == StableSort(Values(m, ks), ByRank(EntryRank));
    RankingIsStrictWeak(EntryRank);
    SortIsOrderedPermutation(Values(m, ks), ByRank(EntryRank));
    assert !ByRank(EntryRank)(ranking[j], ranking[i]);
  }

  /** No key left out costs more than a top one, nor the same under a smaller name. */
  lemma TopKeysOutrank(costs: map<string, real>, names: map<string, string>, limit: nat, top: set<string>, k: string,
                       l: string)
    requires TopOf(costs, names, limit, top) && k in top && l in costs && l !in top
    ensures k in costs
    ensures !Outranks(EntryRank(EntryMap(costs, names)[l]), EntryRank(EntryMap(costs, names)[k]))
  {
    var m := EntryMap(costs, names);
    var ranking :| EntryRanking(m, ranking) && top == KeysOf(ranking[..CutAt(|ranking|, limit)]);
    var n := CutAt(|ranking|, limit);
    var e: Entry :| e in ranking[..n] && e.key == k;
    var i :| 0 <= i < n && ranking[i] == e;
    RankedEntries(costs, names, ranking, e);
    RankedEntries(costs, names, ranking, m[l]);
    var j :| 0 <= j < |ranking| && ranking[j] == m[l];
    assert j >= n;
    RankedInOrder(m, ranking, i, j);
  }

  // ----- Cells -----

  /** What a cell counts. */
  datatype Load = Load(requests: int, totalTokens: int, cost: real)

  function Join(a: Load, b: Load): Load {
    Load(a.requests + b.requests, a.totalTokens + b.totalTokens, a.cost + b.cost)
  }

  const LOADS: Monoid<Load> := Monoid(Load(0, 0, 0.0), Join)

  lemma LoadsAreLawful()
    ensures Lawful(LOADS)
  {
    forall a: Load, b: Load, c: Load ensures Laws(LOADS, a, b, c) {
      assert Join(Join(a, b), c) == Join(a, Join(b, c));
    }
  }

  function LoadOf(m: Metrics): Load {
    Load(m.requests, m.totalTokens, m.cost)
  }

  function RowLoad(r: Row): Load {
    Load(r.requestCount, r.totalTokens, r.estimatedCost)
  }

  lemma {:induction false} LoadOfRows(rows: seq<Row>)
    ensures SumBy(rows, RowLoad, LOADS) == LoadOf(SumBy(rows, OfRow, USAGE))
  {
    if rows != [] {
      LoadOfRows(rows[..|rows| - 1]);
    }
  }

  datatype Cell = Cell(site: Ref, model: Ref, load: Load)

  function CellLoad(c: Cell): Load {
    c.load
  }

  datatype CellDims = CellDims(site: string, model: string)

  function RowCell(r: Row): CellDims {
    CellDims(SiteDimension(r).key, ModelDimension(r).key)
  }

  function DimsIn(c: Cell): CellDims {
    CellDims(c.site.key, c.model.key)
  }

  /** The two keys joined by a NUL character. */
  function JoinCell(d: CellDims): string {
    d.site + NUL + d.model
  }

  /** Rows are grouped by their joined site and model into cells. */
  const CELLS: Scheme<Row, Cell, CellDims, Load> :=
    Scheme(RowCell, JoinCell, RowLoad, DimsIn, CellLoad, LOADS, FirstCell, AddToCell)

  const CELL_KEY: Row -> string := KeyFor(CELLS)

  function FirstCell(r: Row): Cell {
    Cell(SiteDimension(r), ModelDimension(r), Load(0, 0, 0.0))
  }

  function AddToCell(c: Cell, r: Row): Cell {
    c.(load := Join(c.load, RowLoad(r)))
  }

  function Cells(rows: seq<Row>): map<string, Cell> {
    Grouped(CELLS, rows)
  }

  lemma CellsGrow()
    ensures Grows(CELLS)
  {
    forall c: Cell, r: Row ensures GrowsAt(CELLS, c, r) {}
  }

  function Shows(topSites: set<string>, topModels: set<string>): Cell -> bool {
    (c: Cell) => c.site.key in topSites && c.model.key in topModels
  }

  /** Cost, then requests, then the names of site and model. */
  function CellBefore(a: Cell, b: Cell): bool {
    if a.load.cost != b.load.cost then a.load.cost > b.load.cost
    else if a.load.requests != b.load.requests then a.load.requests > b.load.requests
    else if a.site.name != b.site.name then Less(a.site.name, b.site.name)
    else Less(a.model.name, b.model.name)
  }

  lemma CellBeforeIsStrictWeak()
    ensures StrictWeak(CellBefore)
  {
    forall a: Cell, b: Cell, c: Cell
      ensures !CellBefore(a, a)
      ensures CellBefore(a, b) && CellBefore(b, c) ==> CellBefore(a, c)
      ensures !CellBefore(a, b) && !CellBefore(b, c) ==> !CellBefore(a, c)
    {
      WeakField(a.site.name, b.site.name, c.site.name);
      WeakField(a.model.name, b.model.name, c.model.name);
    }
  }

  /** The shown cells, for some walk of the cell map. */
  ghost predicate MatrixOf(rows: seq<Row>, topSites: set<string>, topModels: set<string>, matrix: seq<Cell>) {
    exists ks :: Enumerates(Cells(rows), ks)
              && matrix == StableSort(Filter(Values(Cells(rows), ks), Shows(topSites, topModels)), CellBefore)
  }

  datatype Breakdowns = Breakdowns(site: seq<Item>, model: seq<Item>, apiKey: seq<Item>, matrix: seq<Cell>)

  ghost predicate Breakdown(dim: Row -> Ref, rows: seq<Row>, items: seq<Item>) {
    exists ranking :: AggregateRanking(Aggregates(dim, rows), ranking) && ItemsOf(ranking, items)
  }

  ghost predicate TopSites(rows: seq<Row>, top: set<string>) {
    TopOf(Costs(SiteDimension, rows), FirstNames(SiteDimension, rows), MATRIX_TOP, top)
  }

  ghost predicate TopModels(rows: seq<Row>, top: set<string>) {
    TopOf(Costs(ModelDimension, rows), FirstNames(ModelDimension, rows), MATRIX_TOP, top)
  }

  function ByApiKey(names: map<string, string>): Row -> Ref {
    (r: Row) => ApiKeyDimension(names, r)
  }

  /** The three breakdowns and the matrix of the rows. */
  ghost predicate BreakdownsOf(rows: seq<Row>, names: map<string, string>, b: Breakdowns) {
    && Breakdown(SiteDimension, rows, b.site) && Breakdown(ModelDimension, rows, b.model)
    && Breakdown(ByApiKey(names), rows, b.apiKey)
    && exists topSites, topModels ::
         TopSites(rows, topSites) && TopModels(rows, topModels) && MatrixOf(rows, topSites, topModels, b.matrix)
  }

  /** What the loop over the rows collects. */
  datatype Collected = Collected(
    bySite: map<string, Aggregate>, byModel: map<string, Aggregate>, byApiKey: map<string, Aggregate>,
    cells: map<string, Cell>,
    siteCost: map<string, real>, modelCost: map<string, real>,
    siteName: map<string, string>, modelName: map<string, string>)

  function CollectRow(c: Collected, r: Row, names: map<string, string>): Collected {
    Collected(AddAggregate(SiteDimension, c.bySite, r), AddAggregate(ModelDimension, c.byModel, r),
              AddAggregate(ByApiKey(names), c.byApiKey, r), AddRow(CELLS, c.cells, r),
              AddCost(SiteDimension, c.siteCost, r), AddCost(ModelDimension, c.modelCost, r),
              AddName(SiteDimension, c.siteName, r), AddName(ModelDimension, c.modelName, r))
  }

  ghost predicate CollectedFrom(c: Collected, rows: seq<Row>, names: map<string, string>) {
    && c.bySite == Aggregates(SiteDimension, rows) && c.byModel == Aggregates(ModelDimension, rows)
    && c.byApiKey == Aggregates(ByApiKey(names), rows) && c.cells == Cells(rows)
    && c.siteCost == Costs(SiteDimension, rows) && c.modelCost == Costs(ModelDimension, rows)
    && c.siteName == FirstNames(SiteDimension, rows) && c.modelName == FirstNames(ModelDimension, rows)
  }

  lemma {:induction false} CostsSnoc(dim: Row -> Ref, rows: seq<Row>, r: Row)
    ensures Costs(dim, rows + [r]) == AddCost(dim, Costs(dim, rows), r)
    ensures FirstNames(dim, rows + [r]) == AddName(dim, FirstNames(dim, rows), r)
  {
    assert (rows + [r])[..|rows|] == rows;
  }

  lemma {:induction false} CollectNext(c: Collected, rows: seq<Row>, r: Row, names: map<string, string>)
    requires CollectedFrom(c, rows, names)
    ensures CollectedFrom(CollectRow(c, r, names), rows + [r], names)
  {
    AggregatesSnoc(SiteDimension, rows, r);
    AggregatesSnoc(ModelDimension, rows, r);
    AggregatesSnoc(ByApiKey(names), rows, r);
    GroupedSnoc(CELLS, rows, r);
    CostsSnoc(SiteDimension, rows, r);
    CostsSnoc(ModelDimension, rows, r);
  }

  function Collect(rows: seq<Row>, names: map<string, string>): Collected {
    if rows == [] then Collected(map[], map[], map[], map[], map[], map[], map[], map[])
    else CollectRow(Collect(rows[..|rows| - 1], names), rows[|rows| - 1], names)
  }

  lemma {:induction false} CollectCollects(rows: seq<Row>, names: map<string, string>)
    ensures CollectedFrom(Collect(rows, names), rows, names)
  {
    if rows != [] {
      var init, last := rows[..|rows| - 1], rows[|rows| - 1];
      assert rows == init + [last];
      CollectCollects(init, names);
      CollectNext(Collect(init, names), init, last, names);
    }
  }

  method CollectRows(rows: seq<Row>, names: map<string, string>) returns (c: Collected)
    ensures CollectedFrom(c, rows, names)
  {
    c := Collected(map[], map[], map[], map[], map[], map[], map[], map[]);
    for i := 0 to |rows|
      invariant c == Collect(rows[..i], names)
    {
      assert rows[..i + 1][..i] == rows[..i];
      c := CollectRow(c, rows[i], names);
    }
    assert rows[..|rows|] == rows;
    CollectCollects(rows, names);
  }

  method BuildBreakdowns(rows: seq<Row>, names: map<string, string>) returns (b: Breakdowns)
    ensures BreakdownsOf(rows, names, b)
  {
    var c := CollectRows(rows, names);
    var matrix := BuildMatrix(rows, c.cells, c.siteCost, c.siteName, c.modelCost, c.modelName);
    var site := BreakdownItems(c.bySite);
    var model := BreakdownItems(c.byModel);
    var apiKey := BreakdownItems(c.byApiKey);
    b := Breakdowns(site, model, apiKey, matrix);
    ghost var topSites, topModels :|
      && TopOf(c.siteCost, c.siteName, MATRIX_TOP, topSites) && TopOf(c.modelCost, c.modelName, MATRIX_TOP, topModels)
      && MatrixOf(rows, topSites, topModels, matrix);
    assert TopSites(rows, topSites) && TopModels(rows, topModels) && MatrixOf(rows, topSites, topModels, b.matrix);
  }

  /** Picks the cells of the top sites and models, and orders them. */
  method BuildMatrix(ghost rows: seq<Row>, cells: map<string, Cell>, siteCost: map<string, real>,
                     siteName: map<string, string>,
                     modelCost: map<string, real>, modelName: map<string, string>)
    returns (matrix: seq<Cell>)
    requires cells == Cells(rows)
    ensures exists topSites, topModels ::
              && TopOf(siteCost, siteName, MATRIX_TOP, topSites) && TopOf(modelCost, modelName, MATRIX_TOP, topModels)
              && MatrixOf(rows, topSites, topModels, matrix)
  {
    var sites := TopDimensionKeys(siteCost, siteName, MATRIX_TOP);
    var models := TopDimensionKeys(modelCost, modelName, MATRIX_TOP);
    var ks := Walk(cells);
    matrix := Select(Values(cells, ks), sites, models);
    matrix := StableSort(matrix, CellBefore);
    assert MatrixOf(rows, sites, models, matrix);
  }

  method Select(cells: seq<Cell>, sites: set<string>, models: set<string>) returns (shown: seq<Cell>)
    ensures shown == Filter(cells, Shows(sites, models))
  {
    shown := [];
    for i := 0 to |cells|
      invariant shown == Filter(cells[..i], Shows(sites, models))
    {
      assert cells[..i + 1] == cells[..i] + [cells[i]];
      FilterSnoc(cells[..i], cells[i], Shows(sites, models));
      if cells[i].site.key !in sites || cells[i].model.key !in models { continue; }
      shown := shown + [cells[i]];
    }
    assert cells[..|cells|] == cells;
  }

  // ----- What cells add up to -----

  /** No two rows of different sites or models share a cell. */
  ghost predicate NoSharedCell(rows: seq<Row>) {
    Unmixed(CELLS, rows)
  }

  /** It is enough that site keys hold no NUL; model keys may. */
  lemma NulFreeSitesShareNoCell(rows: seq<Row>)
    requires forall r :: r in rows ==> NulFree(SiteDimension(r).key)
    ensures NoSharedCell(rows)
  {
    forall r, r' | r in rows && r' in rows && CELL_KEY(r) == CELL_KEY(r') ensures RowCell(r) == RowCell(r') {
      SplitAtNul(SiteDimension(r).key, ModelDimension(r).key, SiteDimension(r').key, ModelDimension(r').key);
    }
  }

  lemma CellMapGroups(rows: seq<Row>)
    ensures GroupsOf(CELLS, rows, Cells(rows))
  {
    CellsGrow();
    GroupedIsGroups(CELLS, rows);
  }

  function RequestsOf(l: Load): int {
    l.requests
  }

  lemma LoadRequestsAddUp()
    ensures Additive(RequestsOf, LOADS)
  {
    forall a: Load, b: Load ensures Adds(RequestsOf, LOADS, a, b) {}
  }

  /** The cells, in the order of some walk of the map. */
  ghost predicate CellsOf(rows: seq<Row>, cells: seq<Cell>) {
    exists ks :: Enumerates(Cells(rows), ks) && cells == Values(Cells(rows), ks)
  }

  /** When every row counts at least one request, the cells answer every question about sites and
      models like the rows if and only if no cell is shared. */
  lemma CellsReaggregateIff(rows: seq<Row>, cells: seq<Cell>)
    requires CellsOf(rows, cells) && forall r :: r in rows ==> r.requestCount > 0
    ensures (forall want :: Agrees(CELLS, rows, cells, want)) <==> NoSharedCell(rows)
  {
    var m := Cells(rows);
    var ks :| Enumerates(m, ks) && cells == Values(m, ks);
    LoadsAreLawful();
    LoadRequestsAddUp();
    CellMapGroups(rows);
    forall r | r in rows ensures RequestsOf(CELLS.of(r)) > 0 { assert CELLS.of(r) == RowLoad(r); }
    AgreesIffUnmixed(CELLS, rows, m, ks, RequestsOf);
  }

  /** A NUL in a site key can make two rows share a cell. */
  lemma NulInSiteSharesCell(site: string, x: string, model: string)
    requires Plain(site) && Plain(site + NUL + x) && Plain(model) && Plain(x + NUL + model)
    ensures !NoSharedCell([PlainRow(site + NUL + x, model), PlainRow(site, x + NUL + model)])
  {
    PlainCell(site + NUL + x, model);
    PlainCell(site, x + NUL + model);
    assert (site + NUL + x) + NUL + model == site + NUL + (x + NUL + model);
    assert |site + NUL + x| > |site|;
    SharedKeyShares(PlainRow(site + NUL + x, model), PlainRow(site, x + NUL + model));
  }

  /** Sites "s<NUL>x" and "s" with models "m" and "x<NUL>m", for example, share a cell. */
  lemma SharedCellExample()
    ensures !NoSharedCell([PlainRow("s" + NUL + "x", "m"), PlainRow("s", "x" + NUL + "m")])
  {
    ExampleIsPlain();
    NulInSiteSharesCell("s", "x", "m");
  }

  lemma SharedKeyShares(r: Row, r': Row)
    requires JoinCell(RowCell(r)) == JoinCell(RowCell(r')) && RowCell(r) != RowCell(r')
    ensures !NoSharedCell([r, r'])
  {
    assert r in [r, r'] && r' in [r, r'] && KeyFor(CELLS)(r) == KeyFor(CELLS)(r');
  }

  lemma PlainCell(site: string, model: string)
    requires Plain(site) && Plain(model)
    ensures RowCell(PlainRow(site, model)) == CellDims(site, model)
  {
    TrimNoSpace(site);
    TrimNoSpace(model);
  }

  function OfSite(site: string): Cell -> bool {
    (c: Cell) => c.site.key == site
  }

  function SiteIn(site: string, models: set<string>): CellDims -> bool {
    (d: CellDims) => d.site == site && d.model in models
  }

  lemma ShownOfSite(cells: seq<Cell>, topSites: set<string>, topModels: set<string>, site: string)
    requires site in topSites
    ensures Filter(Filter(cells, Shows(topSites, topModels)), OfSite(site)) ==
            Filter(cells, Meets(DimsIn, SiteIn(site, topModels)))
  {
    forall c | c in cells
      ensures Meets(DimsIn, SiteIn(site, topModels))(c) <==> Shows(topSites, topModels)(c) && OfSite(site)(c)
    {
      assert DimsIn(c) == CellDims(c.site.key, c.model.key);
    }
    FilterTwice(cells, Shows(topSites, topModels), OfSite(site), Meets(DimsIn, SiteIn(site, topModels)));
  }

  /** The cells of a top site add up to the site's rows of the top models. */
  lemma SiteCellsAddUp(rows: seq<Row>, topSites: set<string>, topModels: set<string>, matrix: seq<Cell>, site: string)
    requires NoSharedCell(rows) && MatrixOf(rows, topSites, topModels, matrix) && site in topSites
    ensures SumWhere(matrix, OfSite(site), CellLoad, LOADS) ==
            SumWhere(rows, Meets(RowCell, SiteIn(site, topModels)), RowLoad, LOADS)
  {
    var m := Cells(rows);
    var ks :| Enumerates(m, ks) && matrix == StableSort(Filter(Values(m, ks), Shows(topSites, topModels)), CellBefore);
    LoadsAreLawful();
    CellBeforeIsStrictWeak();
    SumOfSorted(Filter(Values(m, ks), Shows(topSites, topModels)), CellBefore, OfSite(site), CellLoad, LOADS);
    ShownOfSite(Values(m, ks), topSites, topModels, site);
    CellMapGroups(rows);
    UnmixedAgrees(CELLS, rows, m, ks, SiteIn(site, topModels));
  }

  /** With at most ten models, the cells of a top site add up to the site's own aggregate. */
  lemma SiteCellsAreTheSite(rows: seq<Row>, topSites: set<string>, topModels: set<string>, matrix: seq<Cell>,
                            site: string)
    requires NoSharedCell(rows) && MatrixOf(rows, topSites, topModels, matrix) && site in topSites
    requires TopModels(rows, topModels)
    requires |Aggregates(ModelDimension, rows)| <= 10
    ensures SumWhere(matrix, OfSite(site), CellLoad, LOADS) == LoadOf(HeldBy(SiteDimension, rows, site))
  {
    SiteCellsAddUp(rows, topSites, topModels, matrix, site);
    var costs := Costs(ModelDimension, rows);
    forall k ensures k in costs <==> k in Aggregates(ModelDimension, rows) {
      CostsAreAggregated(ModelDimension, rows, k);
    }
    assert costs.Keys == Aggregates(ModelDimension, rows).Keys;
    FewKeysAreAllTop(costs, FirstNames(ModelDimension, rows), MATRIX_TOP, topModels);
    forall r | r in rows ensures ModelDimension(r).key in topModels {
      AggregateKeys(ModelDimension, rows, KeyBy(ModelDimension)(r));
    }
    var ofSite := KeyIs(KeyBy(SiteDimension), site, ALL);
    FilterCongruent(rows, Meets(RowCell, SiteIn(site, topModels)), ofSite);
    LoadOfRows(Filter(rows, ofSite));
    AggregateHolds(SiteDimension, rows, site);
  }

  // ----- The matrix, in numbers -----

  lemma {:induction false} FirstNamesAreFirst(dim: Row -> Ref, rows: seq<Row>, k: string)
    requires k in FirstNames(dim, rows)
    ensures exists i :: FirstWith(rows, KeyBy(dim), k, i) && FirstNames(dim, rows)[k] == dim(rows[i]).name
  {
    var init, last := rows[..|rows| - 1], rows[|rows| - 1];
    assert rows == init + [last];
    CostsSnoc(dim, init, last);
    if k in FirstNames(dim, init) {
      FirstNamesAreFirst(dim, init, k);
      var i :| FirstWith(init, KeyBy(dim), k, i) && FirstNames(dim, init)[k] == dim(init[i]).name;
      assert FirstWith(rows, KeyBy(dim), k, i);
    } else {
      NamedKeys(dim, init, k);
      assert forall j :: 0 <= j < |init| ==> init[j] in init;
      assert FirstWith(rows, KeyBy(dim), k, |init|);
    }
  }

  lemma {:induction false} NamedKeys(dim: Row -> Ref, rows: seq<Row>, k: string)
    ensures k in FirstNames(dim, rows) <==> k in Aggregates(dim, rows)
    ensures k in FirstNames(dim, rows) <==> exists r :: r in rows && KeyBy(dim)(r) == k
  {
    if rows != [] {
      var init, last := rows[..|rows| - 1], rows[|rows| - 1];
      assert rows == init + [last];
      NamedKeys(dim, init, k);
      CostsSnoc(dim, init, last);
      AggregatesSnoc(dim, init, last);
      assert forall r :: r in init ==> r in rows;
      assert last in rows;
    }
  }

  /** Each top key has cost at least as much as each key left out, and on equal cost the name of
      its first row is no later. */
  lemma TopKeysOutspend(dim: Row -> Ref, rows: seq<Row>, limit: nat, top: set<string>, k: string, l: string)
    requires TopOf(Costs(dim, rows), FirstNames(dim, rows), limit, top) && k in top
    requires l in Aggregates(dim, rows) && l !in top
    ensures var a, b := UsageWhere(rows, KeyIs(KeyBy(dim), k, ALL)), UsageWhere(rows, KeyIs(KeyBy(dim), l, ALL));
            || a.cost > b.cost
            || (&& a.cost == b.cost && k in FirstNames(dim, rows) && l in FirstNames(dim, rows)
                && !Less(FirstNames(dim, rows)[l], FirstNames(dim, rows)[k]))
  {
    var costs, names := Costs(dim, rows), FirstNames(dim, rows);
    CostsAreAggregated(dim, rows, l);
    TopKeysOutrank(costs, names, limit, top, k, l);
    CostsAreAggregated(dim, rows, k);
    NamedKeys(dim, rows, k);
    NamedKeys(dim, rows, l);
    AggregateHolds(dim, rows, k);
    AggregateHolds(dim, rows, l);
    NotOutranked(EntryRank(EntryMap(costs, names)[k]), EntryRank(EntryMap(costs, names)[l]));
  }

  lemma {:induction false} KeysOfAreFew(entries: seq<Entry>)
    ensures |KeysOf(entries)| <= |entries|
  {
    if entries != [] {
      var init, last := entries[..|entries| - 1], entries[|entries| - 1];
      KeysOfAreFew(init);
      assert entries == init + [last];
      assert KeysOf(entries) == KeysOf(init) + {last.key};
    }
  }

  /** There are at most ten top sites and ten top models. */
  lemma TopIsTen(rows: seq<Row>, topSites: set<string>, topModels: set<string>)
    requires TopSites(rows, topSites) && TopModels(rows, topModels)
    ensures |topSites| <= 10 && |topModels| <= 10
  {
    TopIsLimited(Costs(SiteDimension, rows), FirstNames(SiteDimension, rows), MATRIX_TOP, topSites);
    TopIsLimited(Costs(ModelDimension, rows), FirstNames(ModelDimension, rows), MATRIX_TOP, topModels);
  }

  lemma TopIsLimited(costs: map<string, real>, names: map<string, string>, limit: nat, top: set<string>)
    requires TopOf(costs, names, limit, top)
    ensures |top| <= limit
  {
    var ranking :| EntryRanking(EntryMap(costs, names), ranking) && top == KeysOf(ranking[..CutAt(|ranking|, limit)]);
    KeysOfAreFew(ranking[..CutAt(|ranking|, limit)]);
  }

  /** The matrix holds exactly the cells of a top site and a top model. */
  lemma MatrixMembers(rows: seq<Row>, topSites: set<string>, topModels: set<string>, matrix: seq<Cell>, c: Cell)
    requires MatrixOf(rows, topSites, topModels, matrix)
    ensures c in matrix <==> HasValue(Cells(rows), c) && c.site.key in topSites && c.model.key in topModels
  {
    var m := Cells(rows);
    var ks :| Enumerates(m, ks) && matrix == StableSort(Filter(Values(m, ks), Shows(topSites, topModels)), CellBefore);
    var shown := Filter(Values(m, ks), Shows(topSites, topModels));
    CellBeforeIsStrictWeak();
    SortIsOrderedPermutation(shown, CellBefore);
    assert c in matrix <==> c in multiset(matrix);
    assert c in shown <==> c in multiset(shown);
    FilterMembers(Values(m, ks), Shows(topSites, topModels));
    ValuesAreOfMap(m, ks, c);
  }

  /** Dearer cells come first, then those of more requests, then by the names of site and model. */
  lemma MatrixIsOrdered(rows: seq<Row>, topSites: set<string>, topModels: set<string>, matrix: seq<Cell>, i: nat,
                        j: nat)
    requires MatrixOf(rows, topSites, topModels, matrix) && i < j < |matrix|
    ensures var a, b := matrix[i], matrix[j];
            || a.load.cost > b.load.cost
            || (a.load.cost == b.load.cost && a.load.requests > b.load.requests)
            || (&& a.load.cost == b.load.cost && a.load.requests == b.load.requests
                && !Less(b.site.name, a.site.name)
                && (a.site.name == b.site.name ==> !Less(b.model.name, a.model.name)))
  {
    var m := Cells(rows);
    var ks :| Enumerates(m, ks) && matrix == StableSort(Filter(Values(m, ks), Shows(topSites, topModels)), CellBefore);
    CellBeforeIsStrictWeak();
    SortIsOrderedPermutation(Filter(Values(m, ks), Shows(topSites, topModels)), CellBefore);
    assert !CellBefore(matrix[j], matrix[i]);
    LessIrreflexive(matrix[i].site.name);
  }

  /** A cell shows requests, tokens and cost of its rows, under the references of the first one. */
  lemma CellIsItsRows(rows: seq<Row>, k: string)
    requires k in Cells(rows)
    ensures var c, u := Cells(rows)[k], UsageWhere(rows, KeyIs(CELL_KEY, k, ALL));
            c.load.requests == u.requests && c.load.totalTokens == u.totalTokens && c.load.cost == u.cost
    ensures exists i :: FirstWith(rows, CELL_KEY, k, i)
                     && Cells(rows)[k].site == SiteDimension(rows[i]) && Cells(rows)[k].model == ModelDimension(rows[i])
  {
    CellsGrow();
    GroupedHolds(CELLS, rows, k);
    LoadOfRows(Filter(rows, KeyIs(CELL_KEY, k, ALL)));
    GroupedKeeps(CELLS, rows, k, RefsOf);
    var i :| FirstWith(rows, CELL_KEY, k, i) && RefsOf(Cells(rows)[k]) == RefsOf(FirstCell(rows[i]));
  }

  function RefsOf(c: Cell): (Ref, Ref) {
    (c.site, c.model)
  }
}
