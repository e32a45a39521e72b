/** The inventory dashboard's table data (`useDashboardData`): the catalog
    maps (variant to owning product, variant to acquisition price), the stock
    tally over every branch's inventory listing (total stock per variant and
    the first branch that carries it), the per-branch listings enriched with
    acquisition prices, one summary row per product, and the statistics URL.
    The listings the hook fetches concurrently are taken as one sequence in
    branch-list order and folded over in that order. A request answered
    with an error status contributes the hook's empty fallback; a request
    that throws aborts the load and is not modelled. */
module Dashboard {
  import opened Options
  import opened Text
  import opened Records

  /** A branch with the inventory listing the server returned for it (empty
      when the request answered with an error status). */
  datatype BranchListing = BranchListing(branch: Branch, items: seq<InventoryItem>)

  /** `SucursalData`: a branch and its inventory as the dashboard shows it. */
  datatype BranchData = BranchData(branch: Branch, inventory: seq<InventoryItem>, loading: bool)

  /** `ProductoFila`: `totalStock`, `valorOriginal`, `valorVenta` and
      `cantidadVariantes` for one product. */
  datatype ProductRow = ProductRow(
    id: int,
    sku: string,
    name: string,
    totalStock: int,
    originalValue: int,
    saleValue: int,
    variantCount: nat)

  /** `m.get(k) ?? 0`. */
  function GetOrZero(m: map<int, int>, k: int): int
  {
    if k in m then m[k] else 0
  }

  // ---------------------------------------------------------------------------
  // Variant to owning product (`productoMap`, `varianteToProductoMap`)

  /** Records `owner` as the product of each variant in turn (`varianteToProductoMap`), a later listing replacing an earlier one. */
  function PutOwner(m: map<int, int>, vs: seq<Variant>, owner: int): map<int, int>
    decreases |vs|
  {
    if vs == [] then m else PutOwner(m[vs[0].id := owner], vs[1..], owner)
  }

  /** The products visited in order, each writing itself as the owner of its variants. */
  function ProductMapFrom(m: map<int, int>, ps: seq<Product>): map<int, int>
    decreases |ps|
  {
    if ps == [] then m else ProductMapFrom(PutOwner(m, ps[0].variants, ps[0].id), ps[1..])
  }

  /** `varianteToProductoMap`. */
  function ProductMap(ps: seq<Product>): map<int, int>
  {
    ProductMapFrom(map[], ps)
  }

  /** Reference: the id of the last product in `ps` that lists variant `v`. */
  function LastOwner(ps: seq<Product>, v: int): Option<int>
  {
    if ps == [] then None
    else if LastOwner(ps[1..], v).Some? then LastOwner(ps[1..], v)
    else if v in VariantIds(ps[0]) then Some(ps[0].id)
    else None
  }

  /** `LastOwner` names the product at the last position that lists `v`,
      and is absent exactly when no product lists it. */
  lemma {:induction false} LastOwnerIsLastListing(ps: seq<Product>, v: int, i: int)
    requires 0 <= i < |ps| && v in VariantIds(ps[i])
    ensures LastOwner(ps, v).Some?
    ensures (forall j :: i < j < |ps| ==> v !in VariantIds(ps[j])) ==> LastOwner(ps, v) == Some(ps[i].id)
  {
    if i > 0 {
      LastOwnerIsLastListing(ps[1..], v, i - 1);
    } else if |ps| > 1 && (forall j :: 0 < j < |ps| ==> v !in VariantIds(ps[j])) {
      LastOwnerAbsent(ps[1..], v);
    }
  }

  lemma {:induction false} LastOwnerAbsent(ps: seq<Product>, v: int)
    requires forall j :: 0 <= j < |ps| ==> v !in VariantIds(ps[j])
    ensures LastOwner(ps, v) == None
  {
    if ps != [] {
      assert v !in VariantIds(ps[0]);
      LastOwnerAbsent(ps[1..], v);
    }
  }

  lemma {:induction false} PutOwnerAt(m: map<int, int>, vs: seq<Variant>, owner: int, v: int)
    ensures Get(PutOwner(m, vs, owner), v) == if v in IdsOf(vs) then Some(owner) else Get(m, v)
    decreases |vs|
  {
    if vs != [] {
      IdsOfCons(vs);
      PutOwnerAt(m[vs[0].id := owner], vs[1..], owner, v);
    }
  }

  lemma {:induction false} ProductMapFromAt(m: map<int, int>, ps: seq<Product>, v: int)
    ensures Get(ProductMapFrom(m, ps), v) == if LastOwner(ps, v).Some? then LastOwner(ps, v) else Get(m, v)
    decreases |ps|
  {
    if ps != [] {
      PutOwnerAt(m, ps[0].variants, ps[0].id, v);
      ProductMapFromAt(PutOwner(m, ps[0].variants, ps[0].id), ps[1..], v);
    }
  }

  /** `varianteToProductoMap` maps each listed variant to the last product
      that lists it (a later product overwrites an earlier one), and holds
      no other variant. */
  lemma ProductMapOwners(ps: seq<Product>, v: int)
    ensures Get(ProductMap(ps), v) == LastOwner(ps, v)
    ensures (v in ProductMap(ps)) <==> exists i :: 0 <= i < |ps| && v in VariantIds(ps[i])
    ensures forall i :: 0 <= i < |ps| && v in VariantIds(ps[i]) &&
                        (forall j :: i < j < |ps| ==> v !in VariantIds(ps[j])) ==>
                        v in ProductMap(ps) && ProductMap(ps)[v] == ps[i].id
  {
    ProductMapFromAt(map[], ps, v);
    forall i | 0 <= i < |ps| && v in VariantIds(ps[i])
      ensures LastOwner(ps, v).Some?
      ensures (forall j :: i < j < |ps| ==> v !in VariantIds(ps[j])) ==> LastOwner(ps, v) == Some(ps[i].id)
    {
      LastOwnerIsLastListing(ps, v, i);
    }
    if !exists i :: 0 <= i < |ps| && v in VariantIds(ps[i]) {
      LastOwnerAbsent(ps, v);
    }
  }

  // ---------------------------------------------------------------------------
  // Variant to acquisition price (`adqMap`)

  /** Every variant of every product, in catalog order. */
  function AllVariants(ps: seq<Product>): seq<Variant>
  {
    if ps == [] then [] else ps[0].variants + AllVariants(ps[1..])
  }

  /** Records each variant's acquisition price in turn, a later listing replacing an earlier one. */
  function PutPrices(m: map<int, int>, vs: seq<Variant>): map<int, int>
    decreases |vs|
  {
    if vs == [] then m else PutPrices(m[vs[0].id := vs[0].acquisitionPrice], vs[1..])
  }

  function AcquisitionMapFrom(m: map<int, int>, ps: seq<Product>): map<int, int>
    decreases |ps|
  {
    if ps == [] then m else AcquisitionMapFrom(PutPrices(m, ps[0].variants), ps[1..])
  }

  /** `adqMap`. */
  function AcquisitionMap(ps: seq<Product>): map<int, int>
  {
    AcquisitionMapFrom(map[], ps)
  }

  /** Reference: the acquisition price of the last variant in `vs` with id `v`. */
  function LastPrice(vs: seq<Variant>, v: int): Option<int>
  {
    if vs == [] then None
    else if LastPrice(vs[1..], v).Some? then LastPrice(vs[1..], v)
    else if vs[0].id == v then Some(vs[0].acquisitionPrice)
    else None
  }

  lemma {:induction false} PutPricesAt(m: map<int, int>, vs: seq<Variant>, v: int)
    ensures Get(PutPrices(m, vs), v) == if LastPrice(vs, v).Some? then LastPrice(vs, v) else Get(m, v)
    decreases |vs|
  {
    if vs != [] {
      PutPricesAt(m[vs[0].id := vs[0].acquisitionPrice], vs[1..], v);
    }
  }

  lemma {:induction false} PutPricesAppend(m: map<int, int>, a: seq<Variant>, b: seq<Variant>)
    ensures PutPrices(m, a + b) == PutPrices(PutPrices(m, a), b)
    decreases |a|
  {
    if a == [] {
      assert a + b == b;
    } else {
      assert (a + b)[0] == a[0] && (a + b)[1..] == a[1..] + b;
      PutPricesAppend(m[a[0].id := a[0].acquisitionPrice], a[1..], b);
    }
  }

  lemma {:induction false} AcquisitionMapFromFlat(m: map<int, int>, ps: seq<Product>)
    ensures AcquisitionMapFrom(m, ps) == PutPrices(m, AllVariants(ps))
    decreases |ps|
  {
    if ps != [] {
      AcquisitionMapFromFlat(PutPrices(m, ps[0].variants), ps[1..]);
      PutPricesAppend(m, ps[0].variants, AllVariants(ps[1..]));
    }
  }

  lemma {:induction false} LastPriceIsLastListing(vs: seq<Variant>, v: int, k: int)
    requires 0 <= k < |vs| && vs[k].id == v
    requires forall j :: k < j < |vs| ==> vs[j].id != v
    ensures LastPrice(vs, v) == Some(vs[k].acquisitionPrice)
  {
    if k > 0 {
      LastPriceIsLastListing(vs[1..], v, k - 1);
    } else {
      LastPriceAbsent(vs[1..], v);
    }
  }

  lemma {:induction false} LastPriceAbsent(vs: seq<Variant>, v: int)
    requires forall j :: 0 <= j < |vs| ==> vs[j].id != v
    ensures LastPrice(vs, v) == None
  {
    if vs != [] {
      LastPriceAbsent(vs[1..], v);
    }
  }

  /** `adqMap` holds, for every variant id in the catalog, the acquisition
      price of the last variant listed with that id, and nothing else. */
  lemma AcquisitionMapPrices(ps: seq<Product>, v: int)
    ensures Get(AcquisitionMap(ps), v) == LastPrice(AllVariants(ps), v)
    ensures v in AcquisitionMap(ps) <==> v in IdsOf(AllVariants(ps))
    ensures forall k :: 0 <= k < |AllVariants(ps)| && AllVariants(ps)[k].id == v &&
                        (forall j :: k < j < |AllVariants(ps)| ==> AllVariants(ps)[j].id != v) ==>
                        v in AcquisitionMap(ps) && AcquisitionMap(ps)[v] == AllVariants(ps)[k].acquisitionPrice
  {
    var all := AllVariants(ps);
    AcquisitionMapFromFlat(map[], ps);
    PutPricesAt(map[], all, v);
    if v in IdsOf(all) {
      var k :| 0 <= k < |all| && all[k].id == v;
      var last := LastIndexOf(all, v, k);
      LastPriceIsLastListing(all, v, last);
    } else {
      LastPriceAbsent(all, v);
    }
    forall k | 0 <= k < |all| && all[k].id == v && (forall j :: k < j < |all| ==> all[j].id != v)
      ensures LastPrice(all, v) == Some(all[k].acquisitionPrice)
    {
      LastPriceIsLastListing(all, v, k);
    }
  }

  /** The last position holding id `v`, at or after a known one. */
  function LastIndexOf(vs: seq<Variant>, v: int, k: int): (last: int)
    requires 0 <= k < |vs| && vs[k].id == v
    ensures k <= last < |vs| && vs[last].id == v
    ensures forall j :: last < j < |vs| ==> vs[j].id != v
    decreases |vs| - k
  {
    if exists j :: k < j < |vs| && vs[j].id == v then
      var j :| k < j < |vs| && vs[j].id == v;
      LastIndexOf(vs, v, j)
    else k
  }

  // ---------------------------------------------------------------------------
  // Stock tally (`stockMap`, `vsMap`)

  /** The two maps the listings are folded into: total stock per variant and
      the name of the first branch seen carrying it. */
  datatype Tally = Tally(stock: map<int, int>, firstBranch: map<int, string>)

  /** An item's stock as the tally counts it: a stock that is not a number counts as 0. */
  function StockValue(item: InventoryItem): int
  {
    match item.stock
    case Some(n) => n
    case None => 0
  }

  /** One item of a branch's listing: its stock is added to its variant's
      total, and the branch is recorded if the variant has no branch yet. */
  function AddItem(t: Tally, branchName: string, item: InventoryItem): Tally
  {
    var v := item.variantId;
    Tally(t.stock[v := GetOrZero(t.stock, v) + StockValue(item)],
          if v in t.firstBranch then t.firstBranch else t.firstBranch[v := branchName])
  }

  function AddListing(t: Tally, branchName: string, items: seq<InventoryItem>): Tally
    decreases |items|
  {
    if items == [] then t else AddListing(AddItem(t, branchName, items[0]), branchName, items[1..])
  }

  function TallyFrom(t: Tally, bs: seq<BranchListing>): Tally
    decreases |bs|
  {
    if bs == [] then t else TallyFrom(AddListing(t, bs[0].branch.name, bs[0].items), bs[1..])
  }

  function Tallied(bs: seq<BranchListing>): Tally
  {
    TallyFrom(Tally(map[], map[]), bs)
  }

  /** `stockMap`. */
  function StockMap(bs: seq<BranchListing>): map<int, int>
  {
    Tallied(bs).stock
  }

  /** `vsMap` (`varianteSucursalMap`). */
  function FirstBranchMap(bs: seq<BranchListing>): map<int, string>
  {
    Tallied(bs).firstBranch
  }

  /** Reference: the listing holds an item of variant `v`. */
  predicate Carries(items: seq<InventoryItem>, v: int)
  {
    exists j :: 0 <= j < |items| && items[j].variantId == v
  }

  /** Reference: the summed stock of variant `v`'s items in one listing. */
  function StockIn(items: seq<InventoryItem>, v: int): int
  {
    if items == [] then 0
    else (if items[0].variantId == v then StockValue(items[0]) else 0) + StockIn(items[1..], v)
  }

  /** Reference: the summed stock of variant `v` over every branch. */
  function TotalStock(bs: seq<BranchListing>, v: int): int
  {
    if bs == [] then 0 else StockIn(bs[0].items, v) + TotalStock(bs[1..], v)
  }

  /** Reference: the name of the first branch whose listing carries `v`. */
  function FirstBranchName(bs: seq<BranchListing>, v: int): Option<string>
  {
    if bs == [] then None
    else if Carries(bs[0].items, v) then Some(bs[0].branch.name)
    else FirstBranchName(bs[1..], v)
  }

  lemma CarriesCons(items: seq<InventoryItem>, v: int)
    requires items != []
    ensures Carries(items, v) <==> items[0].variantId == v || Carries(items[1..], v)
  {
  }

  lemma {:induction false} AddListingAt(t: Tally, name: string, items: seq<InventoryItem>, v: int)
    ensures Get(AddListing(t, name, items).stock, v) ==
            if Carries(items, v) then Some(GetOrZero(t.stock, v) + StockIn(items, v)) else Get(t.stock, v)
    ensures Get(AddListing(t, name, items).firstBranch, v) ==
            if v in t.firstBranch || !Carries(items, v) then Get(t.firstBranch, v) else Some(name)
    decreases |items|
  {
    if items != [] {
      CarriesCons(items, v);
      AddListingAt(AddItem(t, name, items[0]), name, items[1..], v);
      if !Carries(items[1..], v) {
        StockInAbsent(items[1..], v);
      }
    }
  }

  lemma {:induction false} TallyFromAt(t: Tally, bs: seq<BranchListing>, v: int)
    ensures Get(TallyFrom(t, bs).stock, v) ==
            if FirstBranchName(bs, v).Some? then Some(GetOrZero(t.stock, v) + TotalStock(bs, v)) else Get(t.stock, v)
    ensures Get(TallyFrom(t, bs).firstBranch, v) ==
            if v in t.firstBranch then Get(t.firstBranch, v) else FirstBranchName(bs, v)
    decreases |bs|
  {
    if bs != [] {
      var t' := AddListing(t, bs[0].branch.name, bs[0].items);
      AddListingAt(t, bs[0].branch.name, bs[0].items, v);
      TallyFromAt(t', bs[1..], v);
      if !Carries(bs[0].items, v) {
        StockInAbsent(bs[0].items, v);
      }
      if FirstBranchName(bs[1..], v).None? {
        TotalStockAbsent(bs[1..], v);
      }
    }
  }

  lemma {:induction false} StockInAbsent(items: seq<InventoryItem>, v: int)
    requires !Carries(items, v)
    ensures StockIn(items, v) == 0
  {
    if items != [] {
      CarriesCons(items, v);
      StockInAbsent(items[1..], v);
    }
  }

  lemma {:induction false} TotalStockAbsent(bs: seq<BranchListing>, v: int)
    requires FirstBranchName(bs, v).None?
    ensures TotalStock(bs, v) == 0
  {
    if bs != [] {
      StockInAbsent(bs[0].items, v);
      TotalStockAbsent(bs[1..], v);
    }
  }

  /** `stockMap[v]` is the stock of `v` summed over every item of every
      branch listing (non-numeric stock counting 0); a variant no listing
      carries has no entry. */
  lemma StockMapTotals(bs: seq<BranchListing>, v: int)
    ensures Get(StockMap(bs), v) == if FirstBranchName(bs, v).Some? then Some(TotalStock(bs, v)) else None
    ensures GetOrZero(StockMap(bs), v) == TotalStock(bs, v)
  {
    TallyFromAt(Tally(map[], map[]), bs, v);
    if FirstBranchName(bs, v).None? {
      TotalStockAbsent(bs, v);
    }
  }

  /** `vsMap[v]` is the name of the first branch, in list order, whose
      listing carries `v`. */
  lemma FirstBranchMapNames(bs: seq<BranchListing>, v: int)
    ensures Get(FirstBranchMap(bs), v) == FirstBranchName(bs, v)
  {
    TallyFromAt(Tally(map[], map[]), bs, v);
  }

  lemma {:induction false} FirstBranchNameAppend(bs: seq<BranchListing>, more: seq<BranchListing>, v: int)
    ensures FirstBranchName(bs + more, v) ==
            if FirstBranchName(bs, v).Some? then FirstBranchName(bs, v) else FirstBranchName(more, v)
  {
    if bs == [] {
      assert bs + more == more;
    } else {
      assert (bs + more)[0] == bs[0] && (bs + more)[1..] == bs[1..] + more;
      FirstBranchNameAppend(bs[1..], more, v);
    }
  }

  /** Later branches never overwrite `vsMap`: listings appended after a
      branch that carries `v` leave its entry unchanged. */
  lemma FirstBranchNeverOverwritten(bs: seq<BranchListing>, more: seq<BranchListing>, v: int)
    requires v in FirstBranchMap(bs)
    ensures v in FirstBranchMap(bs + more)
    ensures FirstBranchMap(bs + more)[v] == FirstBranchMap(bs)[v]
  {
    FirstBranchMapNames(bs, v);
    FirstBranchMapNames(bs + more, v);
    FirstBranchNameAppend(bs, more, v);
  }

  // ---------------------------------------------------------------------------
  // Listings with acquisition prices (`inv`)

  /** Each item of a branch listing, with its acquisition price replaced by
      the catalog map's entry for its variant (undefined when the map has
      none). */
  function Enrich(items: seq<InventoryItem>, acquisition: map<int, int>): (r: seq<InventoryItem>)
    ensures |r| == |items|
    ensures forall i :: 0 <= i < |r| ==> r[i].(acquisitionPrice := items[i].acquisitionPrice) == items[i]
    ensures forall i :: 0 <= i < |r| ==> r[i].acquisitionPrice == Get(acquisition, items[i].variantId)
  {
    seq(|items|, i requires 0 <= i < |items| =>
      items[i].(acquisitionPrice := Get(acquisition, items[i].variantId)))
  }

  /** `inventariosPorSucursal`: every branch, in order, with its enriched listing. */
  function BranchDataOf(bs: seq<BranchListing>, acquisition: map<int, int>): (r: seq<BranchData>)
    ensures |r| == |bs|
    ensures forall i :: 0 <= i < |r| ==> r[i].branch == bs[i].branch && !r[i].loading
    ensures forall i :: 0 <= i < |r| ==> r[i].inventory == Enrich(bs[i].items, acquisition)
  {
    seq(|bs|, i requires 0 <= i < |bs| => BranchData(bs[i].branch, Enrich(bs[i].items, acquisition), false))
  }

  /** An enriched item carries the catalog's acquisition price of its
      variant (that of the last variant listed with its id), or none when
      the catalog does not list the variant. Every other field is as the
      server sent it. */
  lemma EnrichedPriceIsCatalogPrice(ps: seq<Product>, items: seq<InventoryItem>, i: int)
    requires 0 <= i < |items|
    ensures Enrich(items, AcquisitionMap(ps))[i].acquisitionPrice == LastPrice(AllVariants(ps), items[i].variantId)
    ensures Enrich(items, AcquisitionMap(ps))[i].(acquisitionPrice := items[i].acquisitionPrice) == items[i]
  {
    AcquisitionMapPrices(ps, items[i].variantId);
  }

  // ---------------------------------------------------------------------------
  // Product rows (`filas`)

  /** A product's `totalStock`: the tallied stock of each of its variants,
      summed, a variant absent from the tally counting 0. */
  function SumStock(vs: seq<Variant>, stock: map<int, int>): int
  {
    if vs == [] then 0 else GetOrZero(stock, vs[0].id) + SumStock(vs[1..], stock)
  }

  /** The summed acquisition prices of the variants. */
  function SumAcquisition(vs: seq<Variant>): int
  {
    if vs == [] then 0 else vs[0].acquisitionPrice + SumAcquisition(vs[1..])
  }

  /** The summed label prices of the variants. */
  function SumLabel(vs: seq<Variant>): int
  {
    if vs == [] then 0 else vs[0].labelPrice + SumLabel(vs[1..])
  }

  function RowOf(p: Product, stock: map<int, int>): ProductRow
  {
    ProductRow(p.id, p.sku, p.name, SumStock(p.variants, stock),
               SumAcquisition(p.variants), SumLabel(p.variants), |p.variants|)
  }

  /** One row per product, in product order, carrying the product's id, SKU
      and name, its number of variants, and the summed acquisition
      (`valorOriginal`) and label (`valorVenta`) prices of its variants. */
  function Rows(ps: seq<Product>, stock: map<int, int>): (r: seq<ProductRow>)
    ensures |r| == |ps|
    ensures forall i :: 0 <= i < |r| ==>
              && r[i].id == ps[i].id && r[i].sku == ps[i].sku && r[i].name == ps[i].name
              && r[i].variantCount == |ps[i].variants|
    ensures forall i :: 0 <= i < |r| ==>
              r[i].originalValue == SumAcquisition(ps[i].variants) && r[i].saleValue == SumLabel(ps[i].variants)
  {
    seq(|ps|, i requires 0 <= i < |ps| => RowOf(ps[i], stock))
  }

  /** The rows' `valorOriginal` values, summed. */
  function RowsOriginalValue(rows: seq<ProductRow>): int
  {
    if rows == [] then 0 else rows[0].originalValue + RowsOriginalValue(rows[1..])
  }

  /** The rows' `valorVenta` values, summed. */
  function RowsSaleValue(rows: seq<ProductRow>): int
  {
    if rows == [] then 0 else rows[0].saleValue + RowsSaleValue(rows[1..])
  }

  lemma {:induction false} SumsAppend(a: seq<Variant>, b: seq<Variant>)
    ensures SumAcquisition(a + b) == SumAcquisition(a) + SumAcquisition(b)
    ensures SumLabel(a + b) == SumLabel(a) + SumLabel(b)
  {
    if a == [] {
      assert a + b == b;
    } else {
      assert (a + b)[1..] == a[1..] + b;
      SumsAppend(a[1..], b);
    }
  }

  /** Summed over the table, the rows' values are the whole catalog's
      acquisition and label prices: every variant of every product is
      counted once, in no row but its product's. */
  lemma {:induction false} RowValuesCoverCatalog(ps: seq<Product>, stock: map<int, int>)
    ensures RowsOriginalValue(Rows(ps, stock)) == SumAcquisition(AllVariants(ps))
    ensures RowsSaleValue(Rows(ps, stock)) == SumLabel(AllVariants(ps))
  {
    if ps != [] {
      var r := Rows(ps, stock);
      assert r[1..] == Rows(ps[1..], stock);
      RowValuesCoverCatalog(ps[1..], stock);
      SumsAppend(ps[0].variants, AllVariants(ps[1..]));
    }
  }

  /** Reference: the stock of each variant of the list, summed over every branch. */
  function VariantsTotal(vs: seq<Variant>, bs: seq<BranchListing>): int
  {
    if vs == [] then 0 else TotalStock(bs, vs[0].id) + VariantsTotal(vs[1..], bs)
  }

  lemma {:induction false} SumStockIsTotal(vs: seq<Variant>, bs: seq<BranchListing>)
    ensures SumStock(vs, StockMap(bs)) == VariantsTotal(vs, bs)
  {
    if vs != [] {
      StockMapTotals(bs, vs[0].id);
      SumStockIsTotal(vs[1..], bs);
    }
  }

  /** A row's `totalStock` is its variants' stock summed over every branch
      listing; a product none of whose variants any listing carries has 0. */
  lemma RowStockIsBranchTotal(ps: seq<Product>, bs: seq<BranchListing>, i: int)
    requires 0 <= i < |ps|
    ensures Rows(ps, StockMap(bs))[i].totalStock == VariantsTotal(ps[i].variants, bs)
    ensures (forall k :: 0 <= k < |ps[i].variants| ==> FirstBranchName(bs, ps[i].variants[k].id).None?) ==>
              Rows(ps, StockMap(bs))[i].totalStock == 0
  {
    SumStockIsTotal(ps[i].variants, bs);
    if forall k :: 0 <= k < |ps[i].variants| ==> FirstBranchName(bs, ps[i].variants[k].id).None? {
      UnstockedTotalZero(ps[i].variants, bs);
    }
  }

  lemma {:induction false} UnstockedTotalZero(vs: seq<Variant>, bs: seq<BranchListing>)
    requires forall k :: 0 <= k < |vs| ==> FirstBranchName(bs, vs[k].id).None?
    ensures VariantsTotal(vs, bs) == 0
  {
    if vs != [] {
      TotalStockAbsent(bs, vs[0].id);
      UnstockedTotalZero(vs[1..], bs);
    }
  }

  lemma {:induction false} SumsBounded(vs: seq<Variant>)
    requires forall k :: 0 <= k < |vs| ==> 0 <= vs[k].acquisitionPrice <= vs[k].labelPrice
    ensures 0 <= SumAcquisition(vs) <= SumLabel(vs)
  {
    if vs != [] {
      SumsBounded(vs[1..]);
    }
  }

  /** When each variant's label price is at least its acquisition price (and
      that is not negative), a row's `valorOriginal` is at most its `valorVenta`. */
  lemma RowValuesOrdered(ps: seq<Product>, stock: map<int, int>, i: int)
    requires 0 <= i < |ps|
    requires forall k :: 0 <= k < |ps[i].variants| ==>
               0 <= ps[i].variants[k].acquisitionPrice <= ps[i].variants[k].labelPrice
    ensures 0 <= Rows(ps, stock)[i].originalValue <= Rows(ps, stock)[i].saleValue
  {
    SumsBounded(ps[i].variants);
  }

  // ---------------------------------------------------------------------------
  // The whole table (`fetchTodo`) and the statistics URL (`fetchStats`)

  datatype Table = Table(
    rows: seq<ProductRow>,
    branches: seq<BranchData>,
    firstBranch: map<int, string>,
    owners: map<int, int>)

  /** `fetchTodo`: the catalog `ps` and the listings `bs` (one per branch,
      in branch-list order) turned into the dashboard's state. */
  function LoadTable(ps: seq<Product>, bs: seq<BranchListing>): (r: Table)
    ensures |r.rows| == |ps| && |r.branches| == |bs|
    ensures forall i :: 0 <= i < |ps| ==> r.rows[i].id == ps[i].id
    ensures forall i :: 0 <= i < |bs| ==> r.branches[i].branch == bs[i].branch
  {
    Table(Rows(ps, StockMap(bs)), BranchDataOf(bs, AcquisitionMap(ps)), FirstBranchMap(bs), ProductMap(ps))
  }

  /** What the loaded table holds: each variant's owner is the last product
      listing it, its branch is the first branch carrying it, each row's
      stock is its variants' stock over every branch, each listed item
      carries the catalog's acquisition price of its variant, and the rows'
      values add up to the whole catalog's prices. */
  lemma LoadTableContents(ps: seq<Product>, bs: seq<BranchListing>, v: int)
    ensures Get(LoadTable(ps, bs).owners, v) == LastOwner(ps, v)
    ensures Get(LoadTable(ps, bs).firstBranch, v) == FirstBranchName(bs, v)
    ensures forall i :: 0 <= i < |ps| ==> LoadTable(ps, bs).rows[i].totalStock == VariantsTotal(ps[i].variants, bs)
    ensures forall i, j :: 0 <= i < |bs| && 0 <= j < |bs[i].items| ==>
              LoadTable(ps, bs).branches[i].inventory[j].acquisitionPrice == LastPrice(AllVariants(ps), bs[i].items[j].variantId)
    ensures RowsOriginalValue(LoadTable(ps, bs).rows) == SumAcquisition(AllVariants(ps))
    ensures RowsSaleValue(LoadTable(ps, bs).rows) == SumLabel(AllVariants(ps))
  {
    RowValuesCoverCatalog(ps, StockMap(bs));
    ProductMapOwners(ps, v);
    FirstBranchMapNames(bs, v);
    forall i | 0 <= i < |ps|
      ensures Rows(ps, StockMap(bs))[i].totalStock == VariantsTotal(ps[i].variants, bs)
    {
      RowStockIsBranchTotal(ps, bs, i);
    }
    forall i, j | 0 <= i < |bs| && 0 <= j < |bs[i].items|
      ensures Enrich(bs[i].items, AcquisitionMap(ps))[j].acquisitionPrice == LastPrice(AllVariants(ps), bs[i].items[j].variantId)
    {
      EnrichedPriceIsCatalogPrice(ps, bs[i].items, j);
    }
  }

  const StatsPath := "/api/dashboard/stats"

  /** The URL `fetchStats` requests. The historic period asks for the bare
      path; any other period adds a date range, whose two ISO timestamps
      (computed from the clock) are parameters here. */
  function StatsUrl(period: string, from: string, to: string): (url: string)
    ensures period == "historico" <==> url == StatsPath
    ensures period != "historico" ==> StartsWith(url, StatsPath + "?fecha_inicio=")
  {
    if period == "historico" then StatsPath
    else StatsPath + "?fecha_inicio=" + from + "&fecha_fin=" + to
  }
}
