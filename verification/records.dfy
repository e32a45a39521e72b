/** The shapes of the records the hooks receive from the server: branches,
    branch inventory rows and catalog products with their variants. Numbers
    are integers (prices in cents); a stock figure the server sends may fail
    to read as a number, which is recorded as `None`. */
module Records {
  import opened Options

  /** A branch (`Sucursal`, `id_sucursal`, `nombre_lugar`, `ubicacion`). */
  datatype Branch = Branch(id: int, name: string, location: string)

  /** One row of a branch's inventory listing (`InventarioItem`). */
  datatype InventoryItem = InventoryItem(
    inventoryId: int,                 // id_inventario
    variantId: int,                   // id_variante
    branchId: int,                    // id_sucursal
    stock: Option<int>,               // stock_actual; None when not a number
    productSku: string,               // sku_producto
    productName: string,              // nombre_producto
    barcode: string,                  // codigo_barras
    model: Option<string>,            // modelo
    color: Option<string>,            // color
    salePrice: int,                   // precio_venta
    acquisitionPrice: Option<int>,    // precio_adquisicion, optional
    totalValue: int                   // valor_total
  )

  /** A product variant (`Variante` / `VarianteDetalle`). */
  datatype Variant = Variant(
    id: int,                          // id_variante
    barcode: string,                  // codigo_barras
    model: Option<string>,            // modelo
    color: Option<string>,            // color
    acquisitionPrice: int,            // precio_adquisicion
    labelPrice: int                   // precio_venta_etiqueta
  )

  /** A master product with its variants (`Producto` / `ProductoCompleto`). */
  datatype Product = Product(id: int, sku: string, name: string, variants: seq<Variant>)

  /** The ids of a list of variants, as a set. */
  function IdsOf(vs: seq<Variant>): (ids: set<int>)
    ensures forall k :: 0 <= k < |vs| ==> vs[k].id in ids
    ensures forall v :: v in ids ==> exists k :: 0 <= k < |vs| && vs[k].id == v
  {
    set k | 0 <= k < |vs| :: vs[k].id
  }

  /** The ids of a product's variants, as a set. */
  function VariantIds(p: Product): set<int>
  {
    IdsOf(p.variants)
  }

  lemma IdsOfCons(vs: seq<Variant>)
    requires vs != []
    ensures IdsOf(vs) == {vs[0].id} + IdsOf(vs[1..])
  {
  }
}
