/** The product information dialog (`useProductoInfo`): for one product, the
    stock it holds in each branch, summed over all of its variants, keeping
    only the branches where that total is positive, in branch-list order.
    The branch inventory requests are issued one after another; their
    answers are a parameter here, a request answered with an error status
    being `Failed`. A request that throws aborts the load and is not
    modelled. */
module ProductInfo {
  import opened Options
  import opened Text
  import opened Seqs
  import opened Records

  /** The answer to one branch's inventory request. */
  datatype BranchResponse = Fetched(branch: Branch, items: seq<InventoryItem>) | Failed(branch: Branch)

  /** `InventarioInfo`: a branch name and the product's stock there. */
  datatype StockInfo = StockInfo(branchName: string, stock: int)

  /** The hook's state: the product shown (`null` as `None`) and its per-branch stock. */
  datatype InfoState = InfoState(product: Option<Product>, info: seq<StockInfo>)

  const Cleared := InfoState(None, [])

  // ---------------------------------------------------------------------------
  // One branch's total

  /** Whether an item belongs to one of the product's variants. */
  function OfVariants(ids: set<int>): InventoryItem -> bool
  {
    (item: InventoryItem) => item.variantId in ids
  }

  /** The items' stock figures added to `acc`, left to right; a
      stock that is not a number turns the sum into NaN. */
  function AddStocks(acc: Option<int>, items: seq<InventoryItem>): Option<int>
    decreases |items|
  {
    if items == [] then acc else AddStocks(NumAdd(acc, items[0].stock), items[1..])
  }

  /** `stockTotal`: the stock of the items whose variant is one of `ids`,
      summed from 0 (NaN when one of them is not a number). */
  function BranchTotal(items: seq<InventoryItem>, ids: set<int>): Option<int>
  {
    AddStocks(Some(0), Filter(items, OfVariants(ids)))
  }

  /** Reference: every stock in the list reads as a number. */
  predicate AllNumeric(items: seq<InventoryItem>)
  {
    forall i :: 0 <= i < |items| ==> items[i].stock.Some?
  }

  /** Reference: the sum of the list's stock figures, all of which are numbers. */
  function StockSum(items: seq<InventoryItem>): int
    requires AllNumeric(items)
  {
    if items == [] then 0 else items[0].stock.value + StockSum(items[1..])
  }

  lemma {:induction false} AddStocksSum(acc: Option<int>, items: seq<InventoryItem>)
    ensures AddStocks(acc, items) == if acc.Some? && AllNumeric(items) then Some(acc.value + StockSum(items)) else None
    decreases |items|
  {
    if items != [] {
      AddStocksSum(NumAdd(acc, items[0].stock), items[1..]);
      if AllNumeric(items[1..]) && items[0].stock.Some? {
        assert AllNumeric(items) by {
          forall i | 1 <= i < |items| ensures items[i].stock.Some? {
            assert items[i] == items[1..][i - 1];
          }
        }
      }
      if !AllNumeric(items[1..]) {
        var i :| 0 <= i < |items[1..]| && items[1..][i].stock.None?;
        assert items[i + 1].stock.None?;
      }
    }
  }

  /** A branch's total is the sum of the stock of the product's items there
      when all of them read as numbers, and NaN otherwise. */
  lemma BranchTotalIsSum(items: seq<InventoryItem>, ids: set<int>)
    ensures var matching := Filter(items, OfVariants(ids));
            BranchTotal(items, ids) == if AllNumeric(matching) then Some(StockSum(matching)) else None
  {
    AddStocksSum(Some(0), Filter(items, OfVariants(ids)));
  }

  /** An item of a variant outside the product does not change a branch's total. */
  lemma OtherVariantIgnored(items: seq<InventoryItem>, ids: set<int>, j: int)
    requires 0 <= j < |items| && items[j].variantId !in ids
    ensures BranchTotal(items[..j] + items[j + 1..], ids) == BranchTotal(items, ids)
  {
    DropRejected(items, j, OfVariants(ids));
  }

  lemma {:induction false} IdsOfAppendKnown(vs: seq<Variant>, x: Variant)
    requires x.id in IdsOf(vs)
    ensures IdsOf(vs + [x]) == IdsOf(vs)
  {
    forall v | v in IdsOf(vs + [x]) ensures v in IdsOf(vs) {
      var k :| 0 <= k < |vs + [x]| && (vs + [x])[k].id == v;
      if k < |vs| {
        assert vs[k].id == v;
      }
    }
    forall v | v in IdsOf(vs) ensures v in IdsOf(vs + [x]) {
      var k :| 0 <= k < |vs| && vs[k].id == v;
      assert (vs + [x])[k].id == v;
    }
  }

  /** The product's variant ids form a set: listing a variant id a second
      time leaves every branch's total as it was. */
  lemma DuplicateVariantCountedOnce(p: Product, k: int, items: seq<InventoryItem>)
    requires 0 <= k < |p.variants|
    ensures var q := p.(variants := p.variants + [p.variants[k]]);
            VariantIds(q) == VariantIds(p) && BranchTotal(items, VariantIds(q)) == BranchTotal(items, VariantIds(p))
  {
    IdsOfAppendKnown(p.variants, p.variants[k]);
  }

  // ---------------------------------------------------------------------------
  // The per-branch list

  /** A branch is reported when it answered and the product's total
      there is a positive number. */
  predicate Kept(r: BranchResponse, ids: set<int>)
  {
    r.Fetched? && NumLt(Some(0), BranchTotal(r.items, ids))
  }

  function KeptBy(ids: set<int>): BranchResponse -> bool
  {
    (r: BranchResponse) => Kept(r, ids)
  }

  /** The entry pushed for a kept branch. */
  function EntryOf(r: BranchResponse, ids: set<int>): (e: StockInfo)
    requires Kept(r, ids)
    ensures e.branchName == r.branch.name && e.stock > 0
  {
    StockInfo(r.branch.name, BranchTotal(r.items, ids).value)
  }

  /** Reference: the kept responses, in order, each turned into its entry. */
  function Summary(rs: seq<BranchResponse>, ids: set<int>): (info: seq<StockInfo>)
    ensures |info| <= |rs|
    ensures forall i :: 0 <= i < |info| ==> info[i].stock > 0
  {
    var kept := Filter(rs, KeptBy(ids));
    seq(|kept|, i requires 0 <= i < |kept| => EntryOf(kept[i], ids))
  }

  /** The loop of `fetchDatos`: every branch in order, pushing an entry for
      each one whose request succeeded and whose total is positive. */
  method Summarize(rs: seq<BranchResponse>, ids: set<int>) returns (info: seq<StockInfo>)
    ensures info == Summary(rs, ids)
  {
    info := [];
    var i := 0;
    while i < |rs|
      invariant 0 <= i <= |rs|
      invariant info == Summary(rs[..i], ids)
    {
      assert rs[..i + 1] == rs[..i] + [rs[i]];
      FilterAppend(rs[..i], [rs[i]], KeptBy(ids));
      if rs[i].Fetched? {
        var total := BranchTotal(rs[i].items, ids);
        if NumLt(Some(0), total) {
          info := info + [StockInfo(rs[i].branch.name, total.value)];
        }
      }
      i := i + 1;
    }
    assert rs[..i] == rs;
  }

  /** The branches reported are the kept ones, in the order of the branch list. */
  lemma {:induction false} SummaryFollowsBranchOrder(rs: seq<BranchResponse>, ids: set<int>)
    ensures var kept := Filter(rs, KeptBy(ids));
            IsSubsequence(kept, rs) &&
            |Summary(rs, ids)| == |kept| &&
            forall i :: 0 <= i < |kept| ==> Summary(rs, ids)[i] == StockInfo(kept[i].branch.name, BranchTotal(kept[i].items, ids).value)
  {
    FilterIsSubsequence(rs, KeptBy(ids));
  }

  /** A branch whose request is answered with an error status is skipped,
      not reported with stock 0. */
  lemma FailedBranchSkipped(rs: seq<BranchResponse>, ids: set<int>, j: int)
    requires 0 <= j < |rs| && rs[j].Failed?
    ensures Summary(rs[..j] + rs[j + 1..], ids) == Summary(rs, ids)
  {
    DropRejected(rs, j, KeptBy(ids));
  }

  /** A branch answered and is reported exactly when its total is positive. */
  lemma {:induction false} ReportedIffPositive(rs: seq<BranchResponse>, ids: set<int>, r: BranchResponse)
    requires r in rs
    ensures r in Filter(rs, KeptBy(ids)) <==> r.Fetched? && NumLt(Some(0), BranchTotal(r.items, ids))
  {
    FilterMembers(rs, KeptBy(ids), r);
  }

  // ---------------------------------------------------------------------------
  // Loading and the effect

  /** `fetchDatos` once its requests have been answered: `product` is `None`
      when the product request was answered with an error status,
      `responses` is `None` when the branch list request was, and otherwise
      holds one answer per branch. */
  function Load(s: InfoState, product: Option<Product>, responses: Option<seq<BranchResponse>>): (r: InfoState)
    ensures product.None? ==> r == s
    ensures product.Some? ==> r.product == product
    ensures product.Some? && responses.None? ==> r.info == s.info
    ensures product.Some? && responses.Some? ==>
              r.info == Summary(responses.value, VariantIds(product.value))
  {
    match product
    case None => s
    case Some(p) =>
      match responses
      case None => s.(product := Some(p))
      case Some(rs) => InfoState(Some(p), Summary(rs, VariantIds(p)))
  }

  /** The effect on `open` and `productoId`: with the dialog open and a
      non-zero id the data is loaded; otherwise product and list are cleared. */
  function Effect(s: InfoState, open: bool, productId: Option<int>,
                  product: Option<Product>, responses: Option<seq<BranchResponse>>): (r: InfoState)
    ensures !open || productId == None || productId == Some(0) ==> r == Cleared
    ensures open && productId.Some? && productId.value != 0 ==> r == Load(s, product, responses)
  {
    if open && productId.Some? && productId.value != 0 then Load(s, product, responses) else Cleared
  }
}
