/**
 * The domain objects: clients, products, order items and orders. Products
 * and items are objects in the heap; an item refers to the very product the
 * catalogue holds, so an order's amounts follow the product's current price.
 */
module Dominio {
  import opened Outcomes
  import opened JavaText
  import opened Platform
  import opened Pagos
  import opened Comprobante

  /** A client; the suite never changes a client it keys a map with. */
  class Cliente {
    const cedula: string
    const nombre: string
    const telefono: string
    const email: string

    constructor (cedula: string, nombre: string, telefono: string, email: string)
      ensures this.cedula == cedula && this.nombre == nombre
      ensures this.telefono == telefono && this.email == email
    {
      this.cedula := cedula;
      this.nombre := nombre;
      this.telefono := telefono;
      this.email := email;
    }
  }

  // ---------------------------------------------------------------------
  // Producto
  // ---------------------------------------------------------------------

  /** A product's six fields as they stand at one moment. */
  datatype Ficha = Ficha(codigo: string, nombre: string, categoria: string, precio: real, stockMin: int, stockActual: int)

  /**
   * The checks of the Producto constructor, in their order: a price that is
   * not positive first, then a negative minimum or current stock.
   */
  function ValidarProducto(precio: real, stockMin: int, stockActual: int): (r: Outcome)
    ensures r.Pass? <==> precio > 0.0 && stockMin >= 0 && stockActual >= 0
    ensures precio <= 0.0 ==> r == Fail(PrecioInvalido)
    ensures precio > 0.0 && r.Fail? ==> r == Fail(StockNegativo)
  {
    if precio <= 0.0 then Fail(PrecioInvalido)
    else if stockMin < 0 || stockActual < 0 then Fail(StockNegativo)
    else Pass
  }

  class Producto {
    const codigo: string
    const nombre: string
    const categoria: string
    var precio: real
    const stockMin: int
    /** Also what the rest of the suite calls getStock / setStock. */
    var stockActual: int

    /** The invariant the constructor establishes and both setters keep. */
    ghost predicate Valid()
      reads this
    {
      precio > 0.0 && stockMin >= 0 && stockActual >= 0
    }

    function Datos(): Ficha
      reads this
    {
      Ficha(codigo, nombre, categoria, precio, stockMin, stockActual)
    }

    constructor (codigo: string, nombre: string, categoria: string, precio: real, stockMin: int, stockActual: int)
      requires ValidarProducto(precio, stockMin, stockActual).Pass?
      ensures Valid()
      ensures Datos() == Ficha(codigo, nombre, categoria, precio, stockMin, stockActual)
    {
      this.codigo := codigo;
      this.nombre := nombre;
      this.categoria := categoria;
      this.precio := precio;
      this.stockMin := stockMin;
      this.stockActual := stockActual;
    }

    /** `new Producto(...)`, with its two exceptions as failures. */
    static method Crear(codigo: string, nombre: string, categoria: string, precio: real, stockMin: int, stockActual: int)
      returns (r: Result<Producto>)
      ensures r.Failure? <==> ValidarProducto(precio, stockMin, stockActual).Fail?
      ensures r.Failure? ==> r.error == ValidarProducto(precio, stockMin, stockActual).error
      ensures r.Success? ==> fresh(r.value) && r.value.Valid()
      ensures r.Success? ==> r.value.Datos() == Ficha(codigo, nombre, categoria, precio, stockMin, stockActual)
    {
      var v := ValidarProducto(precio, stockMin, stockActual);
      if v.Fail? {
        return Failure(v.error);
      }
      var p := new Producto(codigo, nombre, categoria, precio, stockMin, stockActual);
      return Success(p);
    }

    /** setPrecio: a price that is not positive is refused and the old one kept. */
    method SetPrecio(precio: real) returns (r: Outcome)
      requires Valid()
      modifies this`precio
      ensures Valid()
      ensures precio <= 0.0 ==> r == Fail(PrecioInvalido) && this.precio == old(this.precio)
      ensures precio > 0.0 ==> r == Pass && this.precio == precio
    {
      if precio <= 0.0 {
        return Fail(PrecioInvalido);
      }
      this.precio := precio;
      return Pass;
    }

    /** setStockActual: a negative stock is refused and the old one kept. */
    method SetStockActual(stockActual: int) returns (r: Outcome)
      requires Valid()
      modifies this`stockActual
      ensures Valid()
      ensures stockActual < 0 ==> r == Fail(StockNegativo) && this.stockActual == old(this.stockActual)
      ensures stockActual >= 0 ==> r == Pass && this.stockActual == stockActual
    {
      if stockActual < 0 {
        return Fail(StockNegativo);
      }
      this.stockActual := stockActual;
      return Pass;
    }

    /** The six values the CSV line holds, in their order and as Java renders them. */
    function CamposCsv(rt: Runtime): seq<string>
      reads this
    {
      [codigo, nombre, categoria, rt.doubleText(precio), IntToString(stockMin), IntToString(stockActual)]
    }

    /** toString(): the CSV form. */
    function ToCsv(rt: Runtime): string
      reads this
    {
      codigo + "," + nombre + "," + categoria + "," + rt.doubleText(precio) + "," +
      IntToString(stockMin) + "," + IntToString(stockActual)
    }
  }

  /** The CSV form is the six fields joined by commas, in that order. */
  lemma ToCsvEsJoin(p: Producto, rt: Runtime)
    ensures p.ToCsv(rt) == Join(p.CamposCsv(rt), ",")
  {
    JoinSeis(p.codigo, p.nombre, p.categoria, rt.doubleText(p.precio), IntToString(p.stockMin), IntToString(p.stockActual), ",");
  }

  /** Six parts joined: each followed by the separator, but the last. */
  lemma JoinSeis(a: string, b: string, c: string, d: string, e: string, f: string, sep: string)
    ensures Join([a, b, c, d, e, f], sep) == a + sep + b + sep + c + sep + d + sep + e + sep + f
  {
    var j5 := Join([e, f], sep);
    assert j5 == e + sep + f by { JoinCons(e, [f], sep); }
    var j4 := Join([d, e, f], sep);
    assert j4 == d + sep + j5 by { JoinCons(d, [e, f], sep); }
    var j3 := Join([c, d, e, f], sep);
    assert j3 == c + sep + j4 by { JoinCons(c, [d, e, f], sep); }
    var j2 := Join([b, c, d, e, f], sep);
    assert j2 == b + sep + j3 by { JoinCons(b, [c, d, e, f], sep); }
    assert Join([a, b, c, d, e, f], sep) == a + sep + j2 by { JoinCons(a, [b, c, d, e, f], sep); }
  }

  /** The text fields hold no comma, so the CSV line splits back into its six fields. */
  predicate SinComas(p: Producto, rt: Runtime)
    reads p
  {
    ',' !in p.codigo && ',' !in p.nombre && ',' !in p.categoria && ',' !in rt.doubleText(p.precio)
  }

  /** Splitting the CSV form on commas (String.split) gives exactly the six fields back. */
  lemma ToCsvCampos(p: Producto, rt: Runtime)
    requires SinComas(p, rt)
    ensures JavaSplit(p.ToCsv(rt)) == p.CamposCsv(rt)
    ensures |JavaSplit(p.ToCsv(rt))| == 6
  {
    ToCsvEsJoin(p, rt);
    JavaSplitOfJoin(p.CamposCsv(rt));
  }

  // ---------------------------------------------------------------------
  // ItemOrden
  // ---------------------------------------------------------------------

  class ItemOrden {
    /** The catalogue's own product object, not a copy. */
    const producto: Producto
    var cantidad: int

    ghost predicate Valid()
      reads this
    {
      cantidad > 0
    }

    constructor (producto: Producto, cantidad: int)
      requires cantidad > 0
      ensures Valid() && this.producto == producto && this.cantidad == cantidad
    {
      this.producto := producto;
      this.cantidad := cantidad;
    }

    /** `new ItemOrden(producto, cantidad)`: a null product, then a quantity that is not positive, is refused. */
    static method Crear(producto: Producto?, cantidad: int) returns (r: Result<ItemOrden>)
      ensures producto == null ==> r == Failure(ArgumentoInvalido(ProductoNulo))
      ensures producto != null && cantidad <= 0 ==> r == Failure(ArgumentoInvalido(CantidadNoPositiva))
      ensures r.Success? <==> producto != null && cantidad > 0
      ensures r.Success? ==> fresh(r.value) && r.value.Valid()
      ensures r.Success? ==> r.value.producto == producto && r.value.cantidad == cantidad
    {
      if producto == null {
        return Failure(ArgumentoInvalido(ProductoNulo));
      }
      if cantidad <= 0 {
        return Failure(ArgumentoInvalido(CantidadNoPositiva));
      }
      var item := new ItemOrden(producto, cantidad);
      return Success(item);
    }

    /** setCantidad: a quantity that is not positive is refused and the old one kept. */
    method SetCantidad(cantidad: int) returns (r: Outcome)
      requires Valid()
      modifies this`cantidad
      ensures Valid()
      ensures cantidad <= 0 ==> r == Fail(ArgumentoInvalido(CantidadNoPositiva)) && this.cantidad == old(this.cantidad)
      ensures cantidad > 0 ==> r == Pass && this.cantidad == cantidad
    {
      if cantidad <= 0 {
        return Fail(ArgumentoInvalido(CantidadNoPositiva));
      }
      this.cantidad := cantidad;
      return Pass;
    }

    /** getTotal(): the product's current price times the quantity. */
    function GetTotal(): (t: real)
      reads this, producto
      ensures Valid() && producto.Valid() ==> t > 0.0
    {
      producto.precio * cantidad as real
    }
  }

  /** A new price for the product shows in the item's total at once: the item holds no copy of the price. */
  method PrecioVivo(item: ItemOrden, nuevo: real) returns (r: Outcome)
    requires item.producto.Valid()
    modifies item.producto`precio
    ensures nuevo > 0.0 ==> r == Pass && item.GetTotal() == nuevo * item.cantidad as real
    ensures nuevo <= 0.0 ==> r.Fail? && item.GetTotal() == old(item.GetTotal())
  {
    r := item.producto.SetPrecio(nuevo);
  }

  // ---------------------------------------------------------------------
  // Orden
  // ---------------------------------------------------------------------

  /** The product objects the items refer to. */
  ghost function Productos(items: seq<ItemOrden>): set<Producto> {
    set i | 0 <= i < |items| :: items[i].producto
  }

  /** The sum of the items' totals, each at its product's current price. */
  function SumaTotales(items: seq<ItemOrden>): real
    reads items, Productos(items)
  {
    if items == [] then 0.0
    else
      var n := |items| - 1;
      assert Productos(items[..n]) <= Productos(items) by {
        forall p | p in Productos(items[..n]) ensures p in Productos(items) {
          var i :| 0 <= i < n && items[..n][i].producto == p;
          assert items[i].producto == p;
        }
      }
      SumaTotales(items[..n]) + items[n].GetTotal()
  }

  /** Every item has a positive quantity and every product is valid. */
  ghost predicate ItemsValidos(items: seq<ItemOrden>)
    reads items, Productos(items)
  {
    forall i :: 0 <= i < |items| ==> items[i].Valid() && items[i].producto.Valid()
  }

  /** Valid items add up to a positive subtotal, unless there are none. */
  lemma {:induction false} SumaTotalesPositiva(items: seq<ItemOrden>)
    ensures items == [] ==> SumaTotales(items) == 0.0
    ensures ItemsValidos(items) && items != [] ==> SumaTotales(items) > 0.0
    decreases |items|
  {
    if items != [] && ItemsValidos(items) {
      var n := |items| - 1;
      assert ItemsValidos(items[..n]) by {
        forall i | 0 <= i < n ensures items[..n][i].Valid() && items[..n][i].producto.Valid() {
          assert items[..n][i] == items[i];
        }
      }
      SumaTotalesPositiva(items[..n]);
      assert items[n].Valid() && items[n].producto.Valid();
    }
  }

  /** The amount after the discount (a percentage) and with the tax (a rate). */
  function ConDescuentoEImpuesto(subtotal: real, descuento: real, impuesto: real): real {
    subtotal * (1.0 - descuento / 100.0) * (1.0 + impuesto)
  }

  /** Price 100, quantity 2, discount 10 and tax 0.13 make 203.40. */
  lemma TotalEjemplo()
    ensures ConDescuentoEImpuesto(100.0 * 2 as real, 10.0, 0.13) == 203.4
  {
  }

  /**
   * With a positive subtotal and a tax that is not negative, the total is
   * positive exactly when the discount is below 100%; a 100% discount makes it 0.
   */
  lemma SignoDelTotal(subtotal: real, descuento: real, impuesto: real)
    requires subtotal > 0.0 && impuesto >= 0.0
    ensures ConDescuentoEImpuesto(subtotal, descuento, impuesto) > 0.0 <==> descuento < 100.0
    ensures descuento == 100.0 ==> ConDescuentoEImpuesto(subtotal, descuento, impuesto) == 0.0
  {
    SignoProducto(subtotal, descuento, impuesto);
  }

  lemma SignoProducto(subtotal: real, descuento: real, impuesto: real)
    ensures subtotal > 0.0 && impuesto >= 0.0 ==>
      (ConDescuentoEImpuesto(subtotal, descuento, impuesto) > 0.0 <==> descuento < 100.0)
  {
    if subtotal > 0.0 && impuesto >= 0.0 {
    var f := 1.0 - descuento / 100.0;
    var g := 1.0 + impuesto;
    assert g > 0.0;
    assert f > 0.0 <==> descuento < 100.0;
    assert subtotal * f > 0.0 <==> f > 0.0 by {
      if f > 0.0 { assert subtotal * f > 0.0; }
      else { assert subtotal * f <= 0.0; }
    }
    assert (subtotal * f) * g > 0.0 <==> subtotal * f > 0.0 by {
      if subtotal * f > 0.0 { assert (subtotal * f) * g > 0.0; }
      else { assert (subtotal * f) * g <= 0.0; }
    }
    }
  }

  /** The invoice line of one item. */
  function LineaItem(item: ItemOrden, rt: Runtime): string
    reads item, item.producto
  {
    "- " + item.producto.nombre + " x" + IntToString(item.cantidad) +
    " = $" + rt.format2(item.GetTotal()) + "\n"
  }

  /** The item lines, in the items' order. */
  function LineasItems(items: seq<ItemOrden>, rt: Runtime): string
    reads items, Productos(items)
  {
    if items == [] then ""
    else
      var n := |items| - 1;
      assert Productos(items[..n]) <= Productos(items) by {
        forall p | p in Productos(items[..n]) ensures p in Productos(items) {
          var i :| 0 <= i < n && items[..n][i].producto == p;
          assert items[i].producto == p;
        }
      }
      LineasItems(items[..n], rt) + LineaItem(items[n], rt)
  }

  /** One more item adds its own line after the lines of those before it. */
  lemma LineasItemsPaso(texto: string, items: seq<ItemOrden>, k: nat, rt: Runtime)
    requires k < |items|
    ensures texto + LineasItems(items[..k + 1], rt) == texto + LineasItems(items[..k], rt) + LineaItem(items[k], rt)
  {
    assert items[..k + 1][..k] == items[..k];
  }

  /** The loop of generarFactura over the items: each item's line appended in order. */
  method AnexarLineas(factura: string, items: seq<ItemOrden>, rt: Runtime) returns (r: string)
    ensures r == factura + LineasItems(items, rt)
  {
    r := factura;
    for k := 0 to |items|
      invariant r == factura + LineasItems(items[..k], rt)
    {
      var item := items[k];
      // p.getPrecio() * item.getCantidad() is the item's total
      var linea := "- " + item.producto.nombre + " x" + IntToString(item.cantidad) +
        " = $" + rt.format2(item.GetTotal()) + "\n";
      assert linea == LineaItem(item, rt);
      LineasItemsPaso(factura, items, k, rt);
      r := r + linea;
    }
    assert items[..|items|] == items;
  }

  /** The text in front of the integrity code on the invoice's last line. */
  const PrefijoControl: string := "Código de control: "

  /** How many characters the control line takes: the prefix, 64 hex digits and the newline. */
  const LargoLineaControl: nat := |PrefijoControl| + 64 + 1

  function LineaControl(cuerpo: string, rt: Runtime): (l: string)
    ensures |l| == LargoLineaControl
  {
    PrefijoControl + CodigoControl(cuerpo, ClaveFactura, rt) + "\n"
  }

  /** An invoice whose last line is the integrity code of everything before it. */
  predicate ControlValido(factura: string, rt: Runtime) {
    |factura| >= LargoLineaControl &&
    var corte := |factura| - LargoLineaControl;
    factura[corte..] == LineaControl(factura[..corte], rt)
  }

  /** The invoice text without its control line. */
  function CuerpoDe(factura: string): string
    requires |factura| >= LargoLineaControl
  {
    factura[..|factura| - LargoLineaControl]
  }

  class Orden {
    const id: string
    const cliente: Cliente
    var items: seq<ItemOrden>
    /** A percentage. */
    var descuento: real
    const metodoPago: EstrategiaPago
    /** A rate (0.13 is 13%). */
    var impuesto: real

    ghost predicate Valid()
      reads this, items, Productos(items)
    {
      descuento >= 0.0 && impuesto >= 0.0 && ItemsValidos(items)
    }

    /** A new order: no items, no discount, 13% tax. */
    constructor (id: string, cliente: Cliente, metodoPago: EstrategiaPago)
      ensures this.id == id && this.cliente == cliente && this.metodoPago == metodoPago
      ensures items == [] && descuento == 0.0 && impuesto == 0.13
      ensures Valid()
    {
      this.id := id;
      this.cliente := cliente;
      this.items := [];
      this.metodoPago := metodoPago;
      this.descuento := 0.0;
      this.impuesto := 0.13;
    }

    /**
     * agregarItem: refused when the product's stock is below the quantity
     * (checked for this item alone), then when the quantity is not positive;
     * otherwise one new item is appended at the end.
     */
    method AgregarItem(producto: Producto, cantidad: int) returns (r: Outcome)
      requires Valid() && producto.Valid()
      modifies this`items
      ensures Valid()
      ensures producto.stockActual < cantidad ==> r == Fail(StockInsuficiente) && items == old(items)
      ensures producto.stockActual >= cantidad && cantidad <= 0 ==>
        r == Fail(ArgumentoInvalido(CantidadNoPositiva)) && items == old(items)
      ensures r.Pass? <==> producto.stockActual >= cantidad && cantidad > 0
      ensures r.Pass? ==> |items| == |old(items)| + 1 && items[..|old(items)|] == old(items)
      ensures r.Pass? ==> fresh(items[|items| - 1]) && items[|items| - 1].producto == producto
      ensures r.Pass? ==> items[|items| - 1].cantidad == cantidad
    {
      if producto.stockActual < cantidad {
        return Fail(StockInsuficiente);
      }
      var item := ItemOrden.Crear(producto, cantidad);
      if item.Failure? {
        return Fail(item.error);
      }
      var nuevo := item.value;
      items := items + [nuevo];
      assert items[..|items| - 1] == old(items);
      assert ItemsValidos(items) by {
        forall i | 0 <= i < |items| ensures items[i].Valid() && items[i].producto.Valid() {
          if i < |items| - 1 { assert items[i] == old(items)[i]; }
        }
      }
      return Pass;
    }

    /** calcularSubtotal(): the sum of price times quantity over the items. */
    function CalcularSubtotal(): (s: real)
      reads this, items, Productos(items)
      ensures Valid() ==> (s > 0.0 <==> items != []) && s >= 0.0
    {
      SumaTotalesPositiva(items);
      SumaTotales(items)
    }

    /** calcularTotal(): the subtotal with the discount taken off and the tax added. */
    function CalcularTotal(): (t: real)
      reads this, items, Productos(items)
      ensures Valid() ==> (t > 0.0 <==> items != [] && descuento < 100.0)
    {
      var s := CalcularSubtotal();
      SignoProducto(s, descuento, impuesto);
      ConDescuentoEImpuesto(s, descuento, impuesto)
    }

    /**
     * procesarPago(): an amount that is not positive is refused, then a
     * strategy that declines; otherwise the answer is `true` (never `false`).
     */
    function ProcesarPago(draw: real): (r: Result<bool>)
      reads this, items, Productos(items)
      ensures r.Success? ==> r.value
      ensures r.Failure? ==> r.error.PagoInvalido? && r.error.motivo != NoProcesado
      ensures CalcularTotal() <= 0.0 ==> r == Failure(PagoInvalido(MontoNoPositivo))
      ensures CalcularTotal() > 0.0 && !metodoPago.ProcesarPago(CalcularTotal(), draw) ==>
        r == Failure(PagoInvalido(Rechazado(metodoPago.GetMetodo())))
      ensures r.Success? <==> CalcularTotal() > 0.0 && metodoPago.ProcesarPago(CalcularTotal(), draw)
    {
      var monto := CalcularTotal();
      if monto <= 0.0 then Failure(PagoInvalido(MontoNoPositivo))
      else if !metodoPago.ProcesarPago(monto, draw) then Failure(PagoInvalido(Rechazado(metodoPago.GetMetodo())))
      else Success(true)
    }

    /** The invoice lines above the item lines. */
    function Encabezado(): string
      reads this
    {
      "=== FACTURA ===\n" + "ID: " + id + "\n" + "Cliente: " + cliente.nombre + "\n" + "Items:\n"
    }

    /** The invoice lines below the item lines. */
    function Resumen(rt: Runtime): string
      reads this, items, Productos(items)
    {
      "Subtotal: $" + rt.format2(CalcularSubtotal()) + "\n" +
      "Descuento: " + rt.doubleText(descuento) + "%\n" +
      "Impuesto: " + rt.format2(impuesto * 100.0) + "%\n" +
      "Total: $" + rt.format2(CalcularTotal()) + "\n" +
      "Método de pago: " + metodoPago.GetMetodo() + "\n"
    }

    /** The text the integrity code is computed over. */
    function CuerpoFactura(rt: Runtime): string
      reads this, items, Productos(items)
    {
      Encabezado() + LineasItems(items, rt) + Resumen(rt)
    }

    /** The whole invoice: the body, then the control line. */
    function Factura(rt: Runtime): string
      reads this, items, Productos(items)
    {
      var c := CuerpoFactura(rt);
      c + LineaControl(c, rt)
    }

    /**
     * generarFactura, up to the file write: the body built line by line, the
     * integrity code over that body, and the control line appended last.
     */
    method GenerarFactura(rt: Runtime) returns (factura: string)
      ensures factura == Factura(rt)
    {
      factura := "=== FACTURA ===\n";
      factura := factura + "ID: " + id + "\n";
      factura := factura + "Cliente: " + cliente.nombre + "\n";
      factura := factura + "Items:\n";
      assert factura == Encabezado();
      factura := AnexarLineas(factura, items, rt);
      var resumen := "Subtotal: $" + rt.format2(CalcularSubtotal()) + "\n";
      resumen := resumen + "Descuento: " + rt.doubleText(descuento) + "%\n";
      resumen := resumen + "Impuesto: " + rt.format2(impuesto * 100.0) + "%\n";
      resumen := resumen + "Total: $" + rt.format2(CalcularTotal()) + "\n";
      resumen := resumen + "Método de pago: " + metodoPago.GetMetodo() + "\n";
      assert resumen == Resumen(rt);
      factura := factura + resumen;
      var contenido := factura;
      assert contenido == CuerpoFactura(rt);
      ghost var esperada := Factura(rt);
      assert esperada == contenido + LineaControl(contenido, rt);
      // generarHMAC under the invoice key: GenerarHmac yields this code for
      // every key but the empty one, and the invoice key is not empty
      var codigoControl := CodigoControl(contenido, ClaveFactura, rt);
      factura := factura + (PrefijoControl + codigoControl + "\n");
      assert factura == esperada;
    }

    /** getItems(): a new list holding the same items; writing to it leaves the order alone. */
    method GetItems() returns (copia: array<ItemOrden>)
      ensures fresh(copia) && copia[..] == items
    {
      copia := new ItemOrden[|items|](k requires 0 <= k < |items| reads this => items[k]);
    }

    /** setDescuento: a negative percentage is refused; there is no upper bound here. */
    method SetDescuento(descuento: real) returns (r: Outcome)
      requires Valid()
      modifies this`descuento
      ensures Valid()
      ensures descuento < 0.0 ==> r == Fail(ArgumentoInvalido(DescuentoNegativo)) && this.descuento == old(this.descuento)
      ensures descuento >= 0.0 ==> r == Pass && this.descuento == descuento
    {
      if descuento < 0.0 {
        return Fail(ArgumentoInvalido(DescuentoNegativo));
      }
      this.descuento := descuento;
      return Pass;
    }

    /** setImpuesto: a negative rate is refused. */
    method SetImpuesto(impuesto: real) returns (r: Outcome)
      requires Valid()
      modifies this`impuesto
      ensures Valid()
      ensures impuesto < 0.0 ==> r == Fail(ArgumentoInvalido(ImpuestoNegativo)) && this.impuesto == old(this.impuesto)
      ensures impuesto >= 0.0 ==> r == Pass && this.impuesto == impuesto
    {
      if impuesto < 0.0 {
        return Fail(ArgumentoInvalido(ImpuestoNegativo));
      }
      this.impuesto := impuesto;
      return Pass;
    }
  }

  /** Adding an item adds its price times its quantity to the subtotal. */
  lemma SubtotalTrasAgregar(items: seq<ItemOrden>, nuevo: ItemOrden)
    ensures SumaTotales(items + [nuevo]) == SumaTotales(items) + nuevo.producto.precio * nuevo.cantidad as real
  {
    assert (items + [nuevo])[..|items|] == items;
  }

  /** The invoice of a valid order verifies: its last line is the code of the body above it. */
  lemma FacturaVerificable(o: Orden, rt: Runtime)
    ensures ControlValido(o.Factura(rt), rt)
    ensures CuerpoDe(o.Factura(rt)) == o.CuerpoFactura(rt)
    ensures |o.Factura(rt)| == |o.CuerpoFactura(rt)| + LargoLineaControl
  {
    var c := o.CuerpoFactura(rt);
    var f := o.Factura(rt);
    assert f[..|c|] == c && f[|c|..] == LineaControl(c, rt);
  }
}
