/** The sale-registration form of the point-of-sale screen (`useVentaForm`):
    the form state, the branch inventory it offers, the search over it, the
    derived total, the field-update rules, the validator, and the
    submit/close guards. The hook's React state becomes the immutable
    `FormState`; each handler becomes a function from state to state. Data
    the hook fetches arrive as parameters. */
module SaleForm {
  import opened Options
  import opened Text
  import opened Seqs
  import opened Records

  /** The form's fields (`VentaFormData`): `sucursal_id`, `id_variante`,
      `cantidad`, `precio_venta_final` and `id_motivo`. */
  datatype Field = BranchField | VariantField | QuantityField | PriceField | MotiveField

  /** The form's values, all kept as the text the inputs hold. */
  datatype FormData = FormData(
    branchId: string,
    variantId: string,
    quantity: string,
    salePrice: string,
    motiveId: string)

  /** `FORM_INITIAL`: every field empty. */
  const FormInitial := FormData("", "", "", "", "")

  /** A transaction motive (`MotivoTransaccion`). */
  datatype Motive = Motive(id: int, description: string)

  /** `VentaFormErrors`: a message per field that failed validation. */
  type Errors = map<Field, string>

  /** Everything the hook keeps in React state. The filtered inventory and
      the total are derived from it (`Filtered`, `Total`). */
  datatype FormState = FormState(
    form: FormData,
    errors: Errors,
    submitting: bool,
    branches: seq<Branch>,
    motives: seq<Motive>,
    inventory: seq<InventoryItem>,
    search: string,
    selected: Option<InventoryItem>)

  /** The state before the dialog is first opened. */
  const InitialState := FormState(FormInitial, map[], false, [], [], [], "", None)

  function FieldValue(f: FormData, name: Field): string
  {
    match name
    case BranchField => f.branchId
    case VariantField => f.variantId
    case QuantityField => f.quantity
    case PriceField => f.salePrice
    case MotiveField => f.motiveId
  }

  /** `{ ...prev, [name]: value }`. */
  function WithField(f: FormData, name: Field, value: string): (r: FormData)
    ensures forall k :: FieldValue(r, k) == if k == name then value else FieldValue(f, k)
  {
    match name
    case BranchField => f.(branchId := value)
    case VariantField => f.(variantId := value)
    case QuantityField => f.(quantity := value)
    case PriceField => f.(salePrice := value)
    case MotiveField => f.(motiveId := value)
  }

  /** The id of the first motive as text, or "" when there is none. */
  function FirstMotiveId(motives: seq<Motive>): string
  {
    if |motives| > 0 then IntToString(motives[0].id) else ""
  }

  /** The preselected motive reads back as the first motive's id. */
  lemma FirstMotiveReadsBack(motives: seq<Motive>)
    requires motives != []
    ensures ToNumber(FirstMotiveId(motives)) == Some(motives[0].id)
  {
    NumberOfString(motives[0].id);
  }

  // ---------------------------------------------------------------------------
  // Opening the dialog

  /** The effect that runs when the dialog opens: it stores the branches and
      motives the server returned (empty lists when a request failed) and,
      when there is a motive, preselects the first one. */
  function Open(s: FormState, branches: seq<Branch>, motives: seq<Motive>): (r: FormState)
    ensures r.branches == branches && r.motives == motives
    ensures motives != [] ==> ToNumber(r.form.motiveId) == Some(motives[0].id)
    ensures forall k :: k != MotiveField ==> FieldValue(r.form, k) == FieldValue(s.form, k)
    ensures motives == [] ==> r.form == s.form
    ensures r.(branches := s.branches, motives := s.motives, form := s.form) == s
  {
    if |motives| > 0 then
      FirstMotiveReadsBack(motives);
      s.(branches := branches, motives := motives, form := s.form.(motiveId := FirstMotiveId(motives)))
    else s.(branches := branches, motives := motives)
  }

  // ---------------------------------------------------------------------------
  // Branch inventory and search

  /** `item.stock_actual > 0`; a non-numeric stock is not positive. */
  predicate InStock(item: InventoryItem)
  {
    NumLt(Some(0), item.stock)
  }

  /** `fetchInventario`: no branch means no inventory; otherwise the branch
      listing the server returned (empty when the request failed) narrowed
      to the items with positive stock. */
  function BranchInventory(branchId: string, fetched: seq<InventoryItem>): (r: seq<InventoryItem>)
    ensures branchId == "" ==> r == []
    ensures |r| <= |fetched|
    ensures forall i :: 0 <= i < |r| ==> InStock(r[i])
  {
    if branchId == "" then [] else Filter(fetched, InStock)
  }

  /** For a chosen branch the inventory is exactly the in-stock items of the
      listing: in their original order, each as often as it was listed. */
  lemma BranchInventoryIsInStockItems(branchId: string, fetched: seq<InventoryItem>)
    requires branchId != ""
    ensures IsSubsequence(BranchInventory(branchId, fetched), fetched)
    ensures forall x :: multiset(BranchInventory(branchId, fetched))[x] ==
                        if InStock(x) then multiset(fetched)[x] else 0
  {
    FilterIsSubsequence(fetched, InStock);
    FilterCountsAll(fetched, InStock);
  }

  /** The search test: the lower-cased product name or SKU contains the
      lower-cased query. The query itself is not trimmed. */
  predicate Matches(item: InventoryItem, query: string)
  {
    Includes(Lower(item.productName), Lower(query)) ||
    Includes(Lower(item.productSku), Lower(query))
  }

  /** The search effect: a query that trims to nothing shows the whole
      inventory; any other query shows only matching items. */
  function SearchFilter(items: seq<InventoryItem>, query: string): (r: seq<InventoryItem>)
    ensures IsBlank(query) ==> r == items
    ensures |r| <= |items|
    ensures forall i :: 0 <= i < |r| ==> IsBlank(query) || Matches(r[i], query)
  {
    if IsBlank(query) then items else Filter(items, (x: InventoryItem) => Matches(x, query))
  }

  /** For a query that is not blank the result is exactly the matching
      items: in their original order, each as often as it was listed. */
  lemma SearchFilterIsMatchingItems(items: seq<InventoryItem>, query: string)
    requires !IsBlank(query)
    ensures IsSubsequence(SearchFilter(items, query), items)
    ensures forall x :: multiset(SearchFilter(items, query))[x] ==
                        if Matches(x, query) then multiset(items)[x] else 0
  {
    var p := (x: InventoryItem) => Matches(x, query);
    assert SearchFilter(items, query) == Filter(items, p);
    FilterIsSubsequence(items, p);
    FilterCountsAll(items, p);
  }

  /** `filteredInventario`: what the search effect settles on. */
  function Filtered(s: FormState): seq<InventoryItem>
  {
    SearchFilter(s.inventory, s.search)
  }

  /** `setSearchProducto`. */
  function SetSearch(s: FormState, query: string): (r: FormState)
    ensures r.search == query
    ensures r.(search := s.search) == s
  {
    s.(search := query)
  }

  // ---------------------------------------------------------------------------
  // Total

  /** The total effect: quantity times price when the quantity reads as a
      positive number and the price as a non-negative one, otherwise none. */
  function Total(f: FormData): (r: Option<int>)
    ensures r.Some? ==> r.value >= 0
    ensures r.Some? ==> ToNumber(f.quantity).Some? && ToNumber(f.quantity).value > 0
  {
    var qty := ToNumber(f.quantity);
    var price := ToNumber(f.salePrice);
    if NumLt(Some(0), qty) && NumLe(Some(0), price) then Some(qty.value * price.value) else None
  }

  // ---------------------------------------------------------------------------
  // Field updates

  /** `handleChange`: the field's error is cleared. A new branch clears the
      variant, quantity and price, the selection and the search, and loads
      that branch's inventory (`fetched` is what the server returned); any
      other field just takes the new value. */
  function HandleChange(s: FormState, name: Field, value: string, fetched: seq<InventoryItem>): (r: FormState)
    ensures r.errors == s.errors - {name}
    ensures name == BranchField ==>
              && r.form == FormData(value, "", "", "", s.form.motiveId)
              && r.selected == None
              && r.search == ""
              && r.inventory == BranchInventory(value, fetched)
              && r.submitting == s.submitting
              && r.branches == s.branches
              && r.motives == s.motives
    ensures name != BranchField ==>
              && (forall k :: FieldValue(r.form, k) == if k == name then value else FieldValue(s.form, k))
              && r.(form := s.form, errors := s.errors) == s
  {
    var errors := s.errors - {name};
    if name == BranchField then
      s.(form := s.form.(branchId := value, variantId := "", quantity := "", salePrice := ""),
         errors := errors,
         selected := None,
         search := "",
         inventory := BranchInventory(value, fetched))
    else
      s.(form := WithField(s.form, name, value), errors := errors)
  }

  /** `handleSelectProduct`: the item becomes the selection, its variant id
      fills the variant field and its sale price becomes the price, both
      written as text; only the variant error is cleared. */
  function SelectProduct(s: FormState, item: InventoryItem): (r: FormState)
    ensures r.selected == Some(item)
    ensures r.form.variantId != ""
    ensures ToNumber(r.form.variantId) == Some(item.variantId)
    ensures ToNumber(r.form.salePrice) == Some(item.salePrice)
    ensures r.form.branchId == s.form.branchId
    ensures r.form.quantity == s.form.quantity
    ensures r.form.motiveId == s.form.motiveId
    ensures r.errors == s.errors - {VariantField}
    ensures r.(form := s.form, errors := s.errors, selected := s.selected) == s
  {
    NumberOfString(item.variantId);
    NumberOfString(item.salePrice);
    s.(selected := Some(item),
       form := s.form.(variantId := IntToString(item.variantId), salePrice := IntToString(item.salePrice)),
       errors := s.errors - {VariantField})
  }

  // ---------------------------------------------------------------------------
  // Validation

  const BranchRequired := "Selecciona una sucursal"
  const VariantRequired := "Selecciona un producto"
  const QuantityInvalid := "Ingresa una cantidad válida"
  const PriceInvalid := "Ingresa un precio válido"

  function StockShortMessage(available: int): string
  {
    "Stock insuficiente. Disponible: " + IntToString(available)
  }

  /** The quantity check: empty, or reads as a number that is not positive.
      A quantity that does not read as a number passes it. */
  predicate QuantityRejected(quantity: string)
  {
    quantity == "" || NumLe(ToNumber(quantity), Some(0))
  }

  /** The price check: empty, or reads as a negative number. */
  predicate PriceRejected(price: string)
  {
    price == "" || NumLt(ToNumber(price), Some(0))
  }

  /** The stock check: a product is selected and the quantity exceeds its stock. */
  predicate ExceedsStock(quantity: string, selected: Option<InventoryItem>)
  {
    selected.Some? && NumLt(selected.value.stock, ToNumber(quantity))
  }

  /** `validate`: the errors it records. Each check writes only its own
      field; the stock check, which runs last, overrides the quantity
      message. */
  function Validate(f: FormData, selected: Option<InventoryItem>): (errors: Errors)
    ensures errors.Keys <= {BranchField, VariantField, QuantityField, PriceField}
    ensures BranchField in errors <==> f.branchId == ""
    ensures VariantField in errors <==> f.variantId == ""
    ensures QuantityField in errors <==> QuantityRejected(f.quantity) || ExceedsStock(f.quantity, selected)
    ensures PriceField in errors <==> PriceRejected(f.salePrice)
    ensures BranchField in errors ==> errors[BranchField] == BranchRequired
    ensures VariantField in errors ==> errors[VariantField] == VariantRequired
    ensures PriceField in errors ==> errors[PriceField] == PriceInvalid
    ensures ExceedsStock(f.quantity, selected) ==>
              errors[QuantityField] == StockShortMessage(selected.value.stock.value)
    ensures QuantityRejected(f.quantity) && !ExceedsStock(f.quantity, selected) ==>
              errors[QuantityField] == QuantityInvalid
  {
    var e0: Errors := map[];
    var e1 := if f.branchId == "" then e0[BranchField := BranchRequired] else e0;
    var e2 := if f.variantId == "" then e1[VariantField := VariantRequired] else e1;
    var e3 := if QuantityRejected(f.quantity) then e2[QuantityField := QuantityInvalid] else e2;
    var e4 := if PriceRejected(f.salePrice) then e3[PriceField := PriceInvalid] else e3;
    if ExceedsStock(f.quantity, selected) then
      e4[QuantityField := StockShortMessage(selected.value.stock.value)]
    else e4
  }

  /** `validate()`'s result: no field has an error. */
  predicate IsValid(f: FormData, selected: Option<InventoryItem>)
  {
    |Validate(f, selected).Keys| == 0
  }

  /** The form is valid exactly when none of the five checks fails. */
  lemma ValidIffNoCheckFails(f: FormData, selected: Option<InventoryItem>)
    ensures IsValid(f, selected) <==>
              && f.branchId != ""
              && f.variantId != ""
              && !QuantityRejected(f.quantity)
              && !PriceRejected(f.salePrice)
              && !ExceedsStock(f.quantity, selected)
  {
  }

  // ---------------------------------------------------------------------------
  // Reset, submit and close

  /** `reset`: the form returns to `FORM_INITIAL` with the first motive
      preselected; errors, selection, inventory and search are cleared. */
  function Reset(s: FormState): (r: FormState)
    ensures forall k :: k != MotiveField ==> FieldValue(r.form, k) == ""
    ensures s.motives != [] ==> ToNumber(r.form.motiveId) == Some(s.motives[0].id)
    ensures s.motives == [] ==> r.form.motiveId == ""
    ensures r.errors == map[] && r.selected == None
    ensures r.inventory == [] && r.search == ""
    ensures Total(r.form) == None
    ensures r.submitting == s.submitting && r.branches == s.branches && r.motives == s.motives
  {
    ResetFormFacts(s.motives);
    s.(form := ResetForm(s.motives),
       errors := map[],
       selected := None,
       inventory := [],
       search := "")
  }

  /** `{ ...FORM_INITIAL, id_motivo: primerMotivo }`. */
  function ResetForm(motives: seq<Motive>): FormData
  {
    FormInitial.(motiveId := FirstMotiveId(motives))
  }

  lemma ResetFormFacts(motives: seq<Motive>)
    ensures forall k :: k != MotiveField ==> FieldValue(ResetForm(motives), k) == ""
    ensures motives != [] ==> ToNumber(ResetForm(motives).motiveId) == Some(motives[0].id)
    ensures motives == [] ==> ResetForm(motives).motiveId == ""
    ensures Total(ResetForm(motives)) == None
  {
    if motives != [] {
      FirstMotiveReadsBack(motives);
    }
    assert ToNumber("") == Some(0);
  }

  /** The request body `handleSubmit` posts: every field read with `Number`
      (a field that is not a number is sent as NaN, i.e. `None`). */
  datatype SaleRequest = SaleRequest(
    variantId: Option<int>,
    branchId: Option<int>,
    motiveId: Option<int>,
    quantity: Option<int>,
    salePrice: Option<int>)

  function RequestOf(f: FormData): SaleRequest
  {
    SaleRequest(ToNumber(f.variantId), ToNumber(f.branchId), ToNumber(f.motiveId),
                ToNumber(f.quantity), ToNumber(f.salePrice))
  }

  /** The state after a submit attempt and the request it sends, if any. */
  datatype SubmitStep = SubmitStep(state: FormState, request: Option<SaleRequest>)

  /** `handleSubmit` up to the request: validation records its errors; an
      invalid form sends nothing and changes nothing else; a valid one is
      marked as submitting and its request is sent. */
  function Submit(s: FormState): (r: SubmitStep)
    ensures r.state.errors == Validate(s.form, s.selected)
    ensures r.request.Some? <==> IsValid(s.form, s.selected)
    ensures r.request.None? ==> r.state == s.(errors := Validate(s.form, s.selected))
    ensures r.request.Some? ==>
              && r.request.value == RequestOf(s.form)
              && r.state.submitting
              && r.state.errors == map[]
              && r.state.(submitting := s.submitting, errors := s.errors) == s
  {
    var errors := Validate(s.form, s.selected);
    if |errors.Keys| == 0 then
      assert errors == map[];
      SubmitStep(s.(errors := errors, submitting := true), Some(RequestOf(s.form)))
    else
      SubmitStep(s.(errors := errors), None)
  }

  /** The rest of `handleSubmit` once the server has answered: an accepted
      sale resets the form and closes the dialog; a rejected one keeps the
      form as it was. Either way submitting ends. The result's second
      component tells whether the dialog was closed. */
  function FinishSubmit(s: FormState, accepted: bool): (r: (FormState, bool))
    ensures !r.0.submitting
    ensures r.1 == accepted
    ensures accepted ==> r.0 == Reset(s).(submitting := false)
    ensures !accepted ==> r.0 == s.(submitting := false)
  {
    if accepted then (Reset(s).(submitting := false), true) else (s.(submitting := false), false)
  }

  /** `handleClose`: ignored while a sale is being submitted; otherwise the
      form is reset and the dialog closed. The second component tells
      whether the dialog was closed. */
  function Close(s: FormState): (r: (FormState, bool))
    ensures r.1 <==> !s.submitting
    ensures s.submitting ==> r.0 == s
    ensures !s.submitting ==> r.0 == Reset(s)
  {
    if s.submitting then (s, false) else (Reset(s), true)
  }

  // ---------------------------------------------------------------------------
  // Properties relating several operations

  /** Reading "0": a quantity of zero is rejected, a price of zero is accepted. */
  lemma ZeroQuantityRejectedZeroPriceAccepted(f: FormData, selected: Option<InventoryItem>)
    ensures f.quantity == "0" ==> QuantityField in Validate(f, selected)
    ensures f.salePrice == "0" ==> PriceField !in Validate(f, selected)
  {
    NumberOfString(0);
    assert IntToString(0) == "0";
  }

  /** A quantity that is not a number passes every quantity check: as
      written, the validator accepts it. */
  lemma NonNumericQuantityAccepted(item: InventoryItem)
    requires item.stock == Some(5)
    ensures IsValid(FormData("1", "7", "abc", "10", "1"), Some(item))
  {
  }

  /** With a branch chosen, selecting an item and entering a quantity within
      its stock makes the form valid, gives total quantity times the item's
      price, and sends a request carrying the item's variant and price. */
  lemma SelectedSaleIsValid(s: FormState, item: InventoryItem, q: int)
    requires s.form.branchId != ""
    requires item.stock.Some? && 0 < q <= item.stock.value
    requires item.salePrice >= 0
    ensures var s2 := HandleChange(SelectProduct(s, item), QuantityField, IntToString(q), []);
            && IsValid(s2.form, s2.selected)
            && Total(s2.form) == Some(q * item.salePrice)
            && Submit(s2).request ==
               Some(SaleRequest(Some(item.variantId), ToNumber(s.form.branchId),
                                ToNumber(s.form.motiveId), Some(q), Some(item.salePrice)))
  {
    var s2 := HandleChange(SelectProduct(s, item), QuantityField, IntToString(q), []);
    NumberOfString(q);
    assert FieldValue(s2.form, QuantityField) == IntToString(q);
    ValidIffNoCheckFails(s2.form, s2.selected);
  }

  /** A quantity above the selected item's stock is rejected with the
      insufficient-stock message naming the available quantity. */
  lemma OverStockRejected(s: FormState, item: InventoryItem, q: int)
    requires item.stock.Some? && q > item.stock.value
    ensures var s2 := HandleChange(SelectProduct(s, item), QuantityField, IntToString(q), []);
            && !IsValid(s2.form, s2.selected)
            && QuantityField in Validate(s2.form, s2.selected)
            && Validate(s2.form, s2.selected)[QuantityField] == StockShortMessage(item.stock.value)
  {
    var s1 := SelectProduct(s, item);
    var s2 := HandleChange(s1, QuantityField, IntToString(q), []);
    assert s2.selected == Some(item);
    assert FieldValue(s2.form, QuantityField) == IntToString(q);
    NumberOfString(q);
    assert ExceedsStock(s2.form.quantity, s2.selected);
    ValidIffNoCheckFails(s2.form, s2.selected);
  }

  /** Changing the branch leaves no sale to submit: the total is gone and the
      variant, quantity and price are all reported missing. */
  lemma BranchChangeClearsSale(s: FormState, value: string, fetched: seq<InventoryItem>)
    ensures var r := HandleChange(s, BranchField, value, fetched);
            && Total(r.form) == None
            && VariantField in Validate(r.form, r.selected)
            && QuantityField in Validate(r.form, r.selected)
            && PriceField in Validate(r.form, r.selected)
            && r.form.motiveId == s.form.motiveId
  {
  }

  /** The typed amounts determine the total: quantity times price when the
      quantity is positive and the price non-negative, none otherwise. */
  lemma TotalOfTypedAmounts(f: FormData, q: int, p: int)
    requires f.quantity == IntToString(q) && f.salePrice == IntToString(p)
    ensures Total(f) == if q > 0 && p >= 0 then Some(q * p) else None
  {
    NumberOfString(q);
    NumberOfString(p);
  }

  /** An empty price reads as 0, so a positive quantity with no price yet
      totals 0; an empty quantity never has a total. */
  lemma TotalWithEmptyFields(f: FormData, q: int)
    ensures f.quantity == IntToString(q) && q > 0 && f.salePrice == "" ==> Total(f) == Some(0)
    ensures f.quantity == "" ==> Total(f) == None
  {
    NumberOfString(q);
  }

  /** Resetting gives the form the dialog had right after opening with the
      same motives. */
  lemma ResetMatchesOpenedForm(s: FormState, branches: seq<Branch>)
    ensures Reset(s).form == Open(InitialState, branches, s.motives).form
  {
  }

  /** Resetting twice is the same as resetting once. */
  lemma ResetIdempotent(s: FormState)
    ensures Reset(Reset(s)) == Reset(s)
  {
  }

  /** The query is matched untrimmed: a leading space makes " ab" miss an
      item named "ab" although the trimmed query would match. */
  lemma UntrimmedQuery(item: InventoryItem)
    requires item.productName == "ab" && item.productSku == "ab"
    ensures SearchFilter([item], " ab") == []
    ensures SearchFilter([item], "ab") == [item]
  {
    assert Lower(" ab") == " ab";
    assert Lower("ab") == "ab";
    assert !IsWhiteSpace('a');
    assert !IsBlank(" ab") by {
      BlankIffAllWhiteSpace(" ab");
      assert !AllWhiteSpace(" ab") by { assert !IsWhiteSpace(" ab"[1]); }
    }
    assert !IsBlank("ab") by {
      BlankIffAllWhiteSpace("ab");
      assert !AllWhiteSpace("ab") by { assert !IsWhiteSpace("ab"[0]); }
    }
    assert !Includes("ab", " ab") by {
      IncludesAtPosition("ab", " ab");
    }
    assert StartsWith("ab", "ab");
    assert Matches(item, "ab");
    assert !Matches(item, " ab");
    FilterCounts([item], (x: InventoryItem) => Matches(x, " ab"), item);
    assert Filter([item], (x: InventoryItem) => Matches(x, "ab")) == [item];
  }
}
