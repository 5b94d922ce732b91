/**
 * GestionOrdenes: the order workflow on top of the catalogue. It creates
 * orders, adds items found by code, applies discounts, and finalises an
 * order: payment first, then the stock of every item's product reduced
 * through the shared product objects, then the invoice.
 */
module Ordenes {
  import opened Outcomes
  import opened JavaText
  import opened Platform
  import opened Pagos
  import opened FabricaPagos
  import opened Dominio
  import opened Catalogos

  /** What the items ask for: each item's product and quantity, in order. */
  function Pedidos(items: seq<ItemOrden>): (r: seq<(Producto, int)>)
    reads items
    ensures |r| == |items|
    ensures forall i :: 0 <= i < |items| ==> r[i].0 == items[i].producto && r[i].1 == items[i].cantidad
  {
    seq(|items|, i requires 0 <= i < |items| reads items => (items[i].producto, items[i].cantidad))
  }

  /** How many units of `p` the pairs ask for, summed over every pair that refers to it. */
  function CantidadPedida(pedidos: seq<(Producto, int)>, p: Producto): int
  {
    if pedidos == [] then 0
    else
      var n := |pedidos| - 1;
      CantidadPedida(pedidos[..n], p) + (if pedidos[n].0 == p then pedidos[n].1 else 0)
  }

  /** Positive quantities ask for a positive amount of exactly the products they refer to. */
  lemma {:induction false} CantidadPedidaPositiva(pedidos: seq<(Producto, int)>, p: Producto)
    requires forall i :: 0 <= i < |pedidos| ==> pedidos[i].1 > 0
    ensures CantidadPedida(pedidos, p) >= 0
    ensures CantidadPedida(pedidos, p) > 0 <==> exists i :: 0 <= i < |pedidos| && pedidos[i].0 == p
    decreases |pedidos|
  {
    if pedidos != [] {
      var n := |pedidos| - 1;
      CantidadPedidaPositiva(pedidos[..n], p);
      if exists i :: 0 <= i < n && pedidos[..n][i].0 == p {
        var i :| 0 <= i < n && pedidos[..n][i].0 == p;
        assert pedidos[i].0 == p;
      }
      if i :| 0 <= i < |pedidos| && pedidos[i].0 == p {
        if i < n { assert pedidos[..n][i].0 == p; }
      }
    }
  }

  /** The items of a valid order ask for a positive amount of exactly the products they refer to. */
  lemma PedidoDeOrden(items: seq<ItemOrden>, p: Producto)
    requires ItemsValidos(items)
    ensures CantidadPedida(Pedidos(items), p) >= 0
    ensures CantidadPedida(Pedidos(items), p) > 0 <==> p in Productos(items)
  {
    var ps := Pedidos(items);
    CantidadPedidaPositiva(ps, p);
    if p in Productos(items) {
      var i :| 0 <= i < |items| && items[i].producto == p;
      assert ps[i].0 == p;
    }
  }

  /** One more pair adds its quantity to its own product's count and to no other's. */
  lemma CantidadPedidaPaso(pedidos: seq<(Producto, int)>, k: nat, p: Producto)
    requires k < |pedidos|
    ensures CantidadPedida(pedidos[..k + 1], p) ==
      CantidadPedida(pedidos[..k], p) + (if pedidos[k].0 == p then pedidos[k].1 else 0)
  {
    assert pedidos[..k + 1][..k] == pedidos[..k];
  }

  /** A prefix of the pairs asks for no more of a product than all of them do, the quantities being positive. */
  lemma {:induction false} CantidadPedidaPrefijo(pedidos: seq<(Producto, int)>, k: nat, p: Producto)
    requires k <= |pedidos| && forall i :: 0 <= i < |pedidos| ==> pedidos[i].1 > 0
    ensures CantidadPedida(pedidos[..k], p) <= CantidadPedida(pedidos, p)
    decreases |pedidos| - k
  {
    if k < |pedidos| {
      CantidadPedidaPrefijo(pedidos, k + 1, p);
      CantidadPedidaPaso(pedidos, k, p);
    } else {
      assert pedidos[..k] == pedidos;
    }
  }

  /**
   * Some item's product has fewer units than the whole order asks of it, so
   * finalizarOrden's loop drives that product's stock below zero.
   */
  ghost predicate FaltaStock(items: seq<ItemOrden>)
    reads items, Productos(items)
  {
    Excede(Existencias(items), Pedidos(items))
  }

  /** The current stock of each item's product. */
  function Existencias(items: seq<ItemOrden>): (r: seq<int>)
    reads Productos(items)
    ensures |r| == |items| && forall i :: 0 <= i < |items| ==> r[i] == items[i].producto.stockActual
  {
    seq(|items|, i requires 0 <= i < |items| reads Productos(items) => items[i].producto.stockActual)
  }

  /** Some pair asks, over the whole list, for more of its product than the stock at its position. */
  ghost predicate Excede(stocks: seq<int>, pedidos: seq<(Producto, int)>)
  {
    exists i :: 0 <= i < |pedidos| && i < |stocks| && stocks[i] < CantidadPedida(pedidos, pedidos[i].0)
  }

  /** A pair whose quantity the stock left after the earlier pairs cannot cover is asked for beyond its stock. */
  lemma ExcedeEn(stocks: seq<int>, pedidos: seq<(Producto, int)>, k: nat)
    requires k < |pedidos| && k < |stocks| && forall i :: 0 <= i < |pedidos| ==> pedidos[i].1 > 0
    requires stocks[k] - CantidadPedida(pedidos[..k], pedidos[k].0) < pedidos[k].1
    ensures Excede(stocks, pedidos)
  {
    CantidadPedidaPaso(pedidos, k, pedidos[k].0);
    CantidadPedidaPrefijo(pedidos, k + 1, pedidos[k].0);
  }

  /** Some item's product has a code the catalogue list `s` lacks, so editarProducto refuses it. */
  ghost predicate FaltaCodigo(s: seq<Producto>, items: seq<ItemOrden>)
    reads items
  {
    exists i :: 0 <= i < |items| && !HayCodigo(s, items[i].producto.codigo)
  }

  /** Every item's product has a code the list `s` holds. */
  ghost predicate CodigosPresentes(s: seq<Producto>, items: seq<ItemOrden>)
    decreases |items|
  {
    items == [] || (CodigosPresentes(s, items[..|items| - 1]) && HayCodigo(s, items[|items| - 1].producto.codigo))
  }

  /** A present code for the next item extends the prefix whose codes are all present. */
  lemma CodigosPresentesPaso(s: seq<Producto>, items: seq<ItemOrden>, k: nat)
    requires k < |items| && CodigosPresentes(s, items[..k]) && HayCodigo(s, items[k].producto.codigo)
    ensures CodigosPresentes(s, items[..k + 1])
  {
    assert items[..k + 1][..k] == items[..k];
  }

  /** With every code present, no item's code is missing. */
  lemma {:induction false} SinFaltaCodigo(s: seq<Producto>, items: seq<ItemOrden>)
    requires CodigosPresentes(s, items)
    ensures !FaltaCodigo(s, items)
    decreases |items|
  {
    if items != [] {
      var n := |items| - 1;
      SinFaltaCodigo(s, items[..n]);
      forall i | 0 <= i < |items| ensures HayCodigo(s, items[i].producto.codigo) {
        if i < n {
          assert items[..n][i] == items[i];
        }
      }
    }
  }

  /** Lists with the same codes at the same positions hold the same codes. */
  lemma MismosCodigosHay(a: seq<Producto>, b: seq<Producto>, codigo: string)
    requires MismosCodigos(a, b)
    ensures HayCodigo(a, codigo) <==> HayCodigo(b, codigo)
  {
    if HayCodigo(a, codigo) {
      var i :| 0 <= i < |a| && a[i].codigo == codigo;
      assert b[i].codigo == codigo;
    }
    if HayCodigo(b, codigo) {
      var i :| 0 <= i < |b| && b[i].codigo == codigo;
      assert a[i].codigo == codigo;
    }
  }

  /** The catalogue list after editarProducto has been called with each item's product in turn. */
  function Ediciones(s: seq<Producto>, items: seq<ItemOrden>): (r: seq<Producto>)
    ensures |r| == |s|
  {
    if items == [] then s
    else
      var n := |items| - 1;
      Reemplazar(Ediciones(s, items[..n]), items[n].producto)
  }

  /** The edits keep every code of the catalogue at its position. */
  lemma {:induction false} EdicionesCodigos(s: seq<Producto>, items: seq<ItemOrden>)
    ensures MismosCodigos(s, Ediciones(s, items))
    decreases |items|
  {
    if items != [] {
      var n := |items| - 1;
      var e := Ediciones(s, items[..n]);
      EdicionesCodigos(s, items[..n]);
      ReemplazarEfecto(e, items[n].producto);
    }
  }

  lemma EdicionesPaso(s: seq<Producto>, items: seq<ItemOrden>, k: nat)
    requires k < |items|
    ensures Ediciones(s, items[..k + 1]) == Reemplazar(Ediciones(s, items[..k]), items[k].producto)
  {
    assert items[..k + 1][..k] == items[..k];
  }

  /** The edits keep the codes of the catalogue unique. */
  lemma {:induction false} EdicionesUnicas(s: seq<Producto>, items: seq<ItemOrden>)
    requires CodigosUnicos(s)
    ensures CodigosUnicos(Ediciones(s, items))
    decreases |items|
  {
    if items != [] {
      var n := |items| - 1;
      EdicionesUnicas(s, items[..n]);
      UnicosTrasReemplazar(Ediciones(s, items[..n]), items[n].producto);
    }
  }

  /**
   * A product that is already the first with its code in the list is
   * replaced by itself, so editing with the catalogue's own objects changes nothing.
   */
  lemma {:induction false} EdicionesPropias(s: seq<Producto>, items: seq<ItemOrden>)
    requires CodigosUnicos(s)
    requires forall i :: 0 <= i < |items| ==> items[i].producto in s
    ensures Ediciones(s, items) == s
    decreases |items|
  {
    if items != [] {
      var n := |items| - 1;
      var front := items[..n];
      assert forall i :: 0 <= i < n ==> front[i].producto in s by {
        forall i | 0 <= i < n ensures front[i].producto in s {
          assert front[i] == items[i];
        }
      }
      EdicionesPropias(s, front);
      EdicionPropia(s, items);
    }
  }

  /** The last edit, once the earlier ones changed nothing, is a product replaced by itself. */
  lemma EdicionPropia(s: seq<Producto>, items: seq<ItemOrden>)
    requires CodigosUnicos(s) && items != [] && items[|items| - 1].producto in s
    requires Ediciones(s, items[..|items| - 1]) == s
    ensures Ediciones(s, items) == s
  {
    ReemplazarPropio(s, items[|items| - 1].producto);
  }

  /**
   * Choosing a 100% discount is accepted, but it brings the total of a
   * non-empty order to 0, so the payment fails with the non-positive amount error.
   */
  lemma DescuentoTotalSinPago(orden: Orden, draw: real)
    requires orden.Valid() && orden.items != [] && orden.descuento == 100.0
    ensures orden.CalcularTotal() == 0.0
    ensures orden.ProcesarPago(draw) == Failure(PagoInvalido(MontoNoPositivo))
  {
    SumaTotalesPositiva(orden.items);
    SignoDelTotal(orden.CalcularSubtotal(), orden.descuento, orden.impuesto);
  }

  class GestionOrdenes {
    const catalogo: Catalogo

    constructor (catalogo: Catalogo)
      ensures this.catalogo == catalogo
    {
      this.catalogo := catalogo;
    }

    /**
     * crearOrden: an ID that is blank after trim is refused, then the
     * factory's error for a bad method string; otherwise a new empty order.
     */
    method CrearOrden(id: string, cliente: Cliente, metodoPagoStr: Option<string>) returns (r: Result<Orden>)
      ensures IsBlank(id) ==> r == Failure(ArgumentoInvalido(IdVacio))
      ensures !IsBlank(id) && CrearPago(metodoPagoStr).Failure? ==> r == Failure(CrearPago(metodoPagoStr).error)
      ensures r.Success? <==> !IsBlank(id) && CrearPago(metodoPagoStr).Success?
      ensures r.Success? ==> fresh(r.value) && r.value.Valid()
      ensures r.Success? ==> r.value.id == id && r.value.cliente == cliente && r.value.metodoPago == CrearPago(metodoPagoStr).value
      ensures r.Success? ==> r.value.items == [] && r.value.descuento == 0.0 && r.value.impuesto == 0.13
    {
      if IsBlank(id) {
        return Failure(ArgumentoInvalido(IdVacio));
      }
      var metodoPago := CrearPago(metodoPagoStr);
      if metodoPago.Failure? {
        return Failure(metodoPago.error);
      }
      var orden := new Orden(id, cliente, metodoPago.value);
      return Success(orden);
    }

    /**
     * agregarItemAOrden: a quantity that is not positive is refused before
     * the catalogue is asked, then a code the catalogue does not know; the
     * rest is the order's own agregarItem with the catalogue's product object.
     */
    method AgregarItemAOrden(orden: Orden, codigoProducto: string, cantidad: int) returns (r: Outcome)
      requires orden.Valid() && catalogo.Valid()
      modifies orden`items
      ensures orden.Valid()
      ensures cantidad <= 0 ==> r == Fail(ArgumentoInvalido(CantidadNoPositiva)) && orden.items == old(orden.items)
      ensures cantidad > 0 && !HayCodigo(catalogo.productos, codigoProducto) ==>
        r == Fail(ArgumentoInvalido(ProductoInexistente)) && orden.items == old(orden.items)
      ensures cantidad > 0 && HayCodigo(catalogo.productos, codigoProducto) ==>
        var p := catalogo.ObtenerPorCodigo(codigoProducto).value;
        && (p.stockActual < cantidad ==> r == Fail(StockInsuficiente) && orden.items == old(orden.items))
        && (p.stockActual >= cantidad ==>
              && r == Pass && |orden.items| == |old(orden.items)| + 1
              && orden.items[..|old(orden.items)|] == old(orden.items)
              && orden.items[|orden.items| - 1].producto == p
              && orden.items[|orden.items| - 1].cantidad == cantidad)
    {
      if cantidad <= 0 {
        return Fail(ArgumentoInvalido(CantidadNoPositiva));
      }
      var producto := catalogo.ObtenerPorCodigo(codigoProducto);
      if producto.None? {
        return Fail(ArgumentoInvalido(ProductoInexistente));
      }
      var p := producto.value;
      assert p.Valid() by {
        var i :| 0 <= i < |catalogo.productos| && catalogo.productos[i] == p && ConCodigoAntes(catalogo.productos, i, codigoProducto);
      }
      r := orden.AgregarItem(p, cantidad);
    }

    /** aplicarDescuento: a percentage outside [0, 100] is refused and the order kept. */
    method AplicarDescuento(orden: Orden, porcentaje: real) returns (r: Outcome)
      requires orden.Valid()
      modifies orden`descuento
      ensures orden.Valid()
      ensures porcentaje < 0.0 || porcentaje > 100.0 ==>
        r == Fail(ArgumentoInvalido(DescuentoFueraDeRango)) && orden.descuento == old(orden.descuento)
      ensures 0.0 <= porcentaje <= 100.0 ==> r == Pass && orden.descuento == porcentaje
    {
      if porcentaje < 0.0 || porcentaje > 100.0 {
        return Fail(ArgumentoInvalido(DescuentoFueraDeRango));
      }
      r := orden.SetDescuento(porcentaje);
    }

    /** procesarPago: the order's own payment, so success is always `true`. */
    function ProcesarPago(orden: Orden, draw: real): (r: Result<bool>)
      reads orden, orden.items, Productos(orden.items)
      ensures r.Success? ==> r.value
      ensures r.Success? <==> orden.CalcularTotal() > 0.0 && orden.metodoPago.ProcesarPago(orden.CalcularTotal(), draw)
      ensures r.Failure? ==> r.error.PagoInvalido? && r.error.motivo != NoProcesado
    {
      orden.ProcesarPago(draw)
    }

    /** Every item's product has lost, since the old state, the units the order asks for it. */
    twostate predicate StockDescontado(orden: Orden)
      reads orden, orden.items, Productos(orden.items)
    {
      orden.items == old(orden.items) &&
      forall i :: 0 <= i < |orden.items| ==>
        orden.items[i].producto.stockActual ==
        old(orden.items[i].producto.stockActual) - CantidadPedida(Pedidos(orden.items), orden.items[i].producto)
    }

    /**
     * One turn of step 3 of finalizarOrden: the item's product loses the
     * item's quantity (setStock refuses a negative result, before anything
     * changes), then the product is handed to editarProducto, which refuses
     * a code the catalogue lacks. `its` are the order's items: each of them
     * stays valid, and only those with this item's product change stock.
     */
    method DescontarItem(item: ItemOrden, ghost its: seq<ItemOrden>) returns (r: Outcome)
      requires catalogo.Valid() && ItemsValidos(its) && item in its
      modifies catalogo`productos, item.producto`stockActual
      ensures catalogo.Valid() && ItemsValidos(its)
      ensures r.Fail? ==> r.error == StockNegativo || r.error == ProductoNoEncontrado
      ensures old(item.producto.stockActual) < item.cantidad ==>
        r == Fail(StockNegativo) && unchanged(item.producto) && catalogo.productos == old(catalogo.productos)
      ensures r == Fail(ProductoNoEncontrado) <==>
        old(item.producto.stockActual) >= item.cantidad && !old(HayCodigo(catalogo.productos, item.producto.codigo))
      ensures r.Pass? <==>
        old(item.producto.stockActual) >= item.cantidad && old(HayCodigo(catalogo.productos, item.producto.codigo))
      ensures r.Pass? ==> item.producto.stockActual == old(item.producto.stockActual) - item.cantidad
      ensures r.Pass? ==> forall i :: 0 <= i < |its| ==>
        its[i].producto.stockActual ==
        old(its[i].producto.stockActual) - (if its[i].producto == item.producto then item.cantidad else 0)
      ensures r.Pass? ==> catalogo.productos == Reemplazar(old(catalogo.productos), item.producto)
    {
      var p := item.producto;
      var s := p.SetStockActual(p.stockActual - item.cantidad);
      if s.Fail? {
        return Fail(s.error);
      }
      assert catalogo.Valid() by {
        forall i | 0 <= i < |catalogo.productos| ensures catalogo.productos[i].Valid() {
          assert old(catalogo.productos[i].Valid());
        }
      }
      r := catalogo.EditarProducto(p);
    }

    /**
     * The turn above on the k-th item, in the loop's own accounting: before
     * it, each product has lost what the first k items ask of it, from the
     * stock `stocks` it had when the loop began, and the catalogue list is
     * `inicial` with the first k products edited in. A turn that passes
     * extends both to k + 1; one that fails names the reason.
     */
    method DescontarTurno(its: seq<ItemOrden>, k: nat, ghost stocks: seq<int>, ghost pedidos: seq<(Producto, int)>,
                          ghost inicial: seq<Producto>) returns (r: Outcome)
      requires k < |its| && |stocks| == |its| && pedidos == Pedidos(its)
      requires ItemsValidos(its) && catalogo.Valid()
      requires forall i :: 0 <= i < |its| ==>
        its[i].producto.stockActual == stocks[i] - CantidadPedida(pedidos[..k], its[i].producto)
      requires catalogo.productos == Ediciones(inicial, its[..k]) && CodigosPresentes(inicial, its[..k])
      modifies catalogo`productos, Productos(its)`stockActual
      ensures ItemsValidos(its) && catalogo.Valid()
      ensures r.Fail? ==> r.error == StockNegativo || r.error == ProductoNoEncontrado
      ensures r == Fail(StockNegativo) ==> Excede(stocks, pedidos)
      ensures r == Fail(ProductoNoEncontrado) ==> !HayCodigo(inicial, its[k].producto.codigo)
      ensures r.Pass? ==> forall i :: 0 <= i < |its| ==>
        its[i].producto.stockActual == stocks[i] - CantidadPedida(pedidos[..k + 1], its[i].producto)
      ensures r.Pass? ==> catalogo.productos == Ediciones(inicial, its[..k + 1]) && CodigosPresentes(inicial, its[..k + 1])
    {
      var item := its[k];
      assert forall i :: 0 <= i < |pedidos| ==> pedidos[i].1 > 0 by {
        forall i | 0 <= i < |pedidos| ensures pedidos[i].1 > 0 {
          assert its[i].Valid();
        }
      }
      EdicionesCodigos(inicial, its[..k]);
      MismosCodigosHay(inicial, catalogo.productos, item.producto.codigo);
      r := DescontarItem(item, its);
      if r.Fail? {
        if r == Fail(StockNegativo) {
          ExcedeEn(stocks, pedidos, k);
        }
        return;
      }
      CodigosPresentesPaso(inicial, its, k);
      forall i | 0 <= i < |its|
        ensures its[i].producto.stockActual == stocks[i] - CantidadPedida(pedidos[..k + 1], its[i].producto)
      {
        CantidadPedidaPaso(pedidos, k, its[i].producto);
      }
      EdicionesPaso(inicial, its, k);
    }

    /**
     * Step 3 of finalizarOrden: for each item of the copy, in order, the
     * turn above. The first refusal ends the loop.
     */
    method DescontarStock(orden: Orden, lista: seq<ItemOrden>) returns (r: Outcome)
      requires orden.Valid() && catalogo.Valid() && lista == orden.items
      modifies catalogo`productos, Productos(orden.items)`stockActual
      ensures orden.Valid() && catalogo.Valid()
      ensures r.Fail? ==> r.error == StockNegativo || r.error == ProductoNoEncontrado
      ensures r == Fail(StockNegativo) ==> old(FaltaStock(orden.items))
      ensures r == Fail(ProductoNoEncontrado) ==> old(FaltaCodigo(catalogo.productos, orden.items))
      ensures r.Pass? <==> !old(FaltaStock(orden.items)) && !old(FaltaCodigo(catalogo.productos, orden.items))
      ensures r.Pass? ==> StockDescontado(orden)
      ensures r.Pass? ==> catalogo.productos == Ediciones(old(catalogo.productos), orden.items)
    {
      ghost var its := orden.items;
      ghost var pedidos := Pedidos(its);
      ghost var inicial := catalogo.productos;
      ghost var stocks := Existencias(its);
      for k := 0 to |lista|
        invariant lista == its
        invariant ItemsValidos(its) && catalogo.Valid()
        invariant forall i :: 0 <= i < |its| ==>
          its[i].producto.stockActual == stocks[i] - CantidadPedida(pedidos[..k], its[i].producto)
        invariant catalogo.productos == Ediciones(inicial, its[..k]) && CodigosPresentes(inicial, its[..k])
      {
        r := DescontarTurno(lista, k, stocks, pedidos, inicial);
        if r.Fail? {
          return;
        }
      }
      assert pedidos[..|lista|] == pedidos && its[..|lista|] == its;
      SinFaltaCodigo(inicial, its);
      assert !Excede(stocks, pedidos) by {
        forall i | 0 <= i < |its| ensures stocks[i] >= CantidadPedida(pedidos, pedidos[i].0) {
          assert its[i].producto.Valid();
        }
      }
      return Pass;
    }

    /**
     * Steps 3 and 4 of finalizarOrden, once the payment has gone through:
     * the stock loop over the copy of the items, then the invoice text.
     */
    method DescontarYFacturar(orden: Orden, rt: Runtime) returns (r: Result<string>)
      requires orden.Valid() && catalogo.Valid()
      modifies catalogo`productos, Productos(orden.items)`stockActual
      ensures orden.Valid() && catalogo.Valid()
      ensures r.Failure? ==> r.error == StockNegativo || r.error == ProductoNoEncontrado
      ensures r == Failure(StockNegativo) ==> old(FaltaStock(orden.items))
      ensures r == Failure(ProductoNoEncontrado) ==> old(FaltaCodigo(catalogo.productos, orden.items))
      ensures r.Success? <==> !old(FaltaStock(orden.items)) && !old(FaltaCodigo(catalogo.productos, orden.items))
      ensures r.Success? ==> StockDescontado(orden)
      ensures r.Success? ==> catalogo.productos == Ediciones(old(catalogo.productos), orden.items)
      ensures r.Success? ==> r.value == orden.Factura(rt)
    {
      // getItems() hands out a copy; the copy is the list's value at this point
      var lista := orden.items;
      var descuento := DescontarStock(orden, lista);
      if descuento.Fail? {
        return Failure(descuento.error);
      }
      // generarFactura(), which Orden.GenerarFactura is proved to compute
      return Success(orden.Factura(rt));
    }

    /**
     * The first of finalizarOrden's checks that refuses the order, in the
     * order they are made: the route, then an order without items, then the
     * payment. None when the order goes on to the stock loop.
     */
    function Rechazo(orden: Orden, rutaFactura: Option<string>, draw: real): (e: Option<Error>)
      reads orden, orden.items, Productos(orden.items)
      ensures e.None? <==>
        rutaFactura.Some? && !IsBlank(rutaFactura.value) && orden.items != [] && ProcesarPago(orden, draw).Success?
      ensures rutaFactura.None? || IsBlank(rutaFactura.value) ==> e == Some(ArgumentoInvalido(RutaVacia))
      ensures rutaFactura.Some? && !IsBlank(rutaFactura.value) && orden.items == [] ==> e == Some(EstadoInvalido)
      ensures e.Some? && e.value.PagoInvalido? ==> ProcesarPago(orden, draw) == Failure(e.value)
      ensures e.Some? ==> e.value != PagoInvalido(NoProcesado)
    {
      if rutaFactura.None? || IsBlank(rutaFactura.value) then Some(ArgumentoInvalido(RutaVacia))
      else if orden.items == [] then Some(EstadoInvalido)
      else
        match ProcesarPago(orden, draw)
        case Failure(err) => Some(err)
        case Success(_) => None
    }

    /** Nothing the finalisation may touch has changed. */
    twostate predicate SinCambios(orden: Orden)
      reads this, catalogo, orden, orden.items, Productos(orden.items)
    {
      catalogo.productos == old(catalogo.productos) && orden.items == old(orden.items) &&
      forall i :: 0 <= i < |orden.items| ==>
        orden.items[i].producto.stockActual == old(orden.items[i].producto.stockActual)
    }

    /**
     * finalizarOrden, up to the file write. The route is checked (absent or
     * blank), then that the order has items, then the payment; each of these
     * failures leaves stock and catalogue untouched. Then every item lowers
     * its product's stock by its quantity and hands the product to
     * editarProducto; a negative stock or an unknown code stops the loop
     * where it is. Last the invoice text.
     */
    method FinalizarOrden(orden: Orden, rutaFactura: Option<string>, draw: real, rt: Runtime) returns (r: Result<string>)
      requires orden.Valid() && catalogo.Valid()
      modifies catalogo`productos, Productos(orden.items)`stockActual
      ensures orden.Valid() && catalogo.Valid()
      ensures old(Rechazo(orden, rutaFactura, draw)).Some? ==>
        r == Failure(old(Rechazo(orden, rutaFactura, draw)).value) && SinCambios(orden)
      ensures old(Rechazo(orden, rutaFactura, draw)).None? && r.Failure? ==>
        r.error == StockNegativo || r.error == ProductoNoEncontrado
      ensures old(Rechazo(orden, rutaFactura, draw)).None? && r == Failure(StockNegativo) ==>
        old(FaltaStock(orden.items))
      ensures old(Rechazo(orden, rutaFactura, draw)).None? && r == Failure(ProductoNoEncontrado) ==>
        old(FaltaCodigo(catalogo.productos, orden.items))
      ensures old(Rechazo(orden, rutaFactura, draw)).None? ==>
        (r.Success? <==> !old(FaltaStock(orden.items)) && !old(FaltaCodigo(catalogo.productos, orden.items)))
      ensures r.Success? ==> old(Rechazo(orden, rutaFactura, draw)).None?
      ensures r.Success? ==> StockDescontado(orden)
      ensures r.Success? ==> catalogo.productos == Ediciones(old(catalogo.productos), orden.items)
      ensures r.Success? ==> r.value == orden.Factura(rt)
    {
      if rutaFactura.None? || IsBlank(rutaFactura.value) {
        return Failure(ArgumentoInvalido(RutaVacia));
      }
      // getItems() is a copy of the list, so its emptiness is the list's own
      if |orden.items| == 0 {
        return Failure(EstadoInvalido);
      }
      var pago := ProcesarPago(orden, draw);
      if pago.Failure? {
        return Failure(pago.error);
      }
      if !pago.value {
        return Failure(PagoInvalido(NoProcesado));
      }
      r := DescontarYFacturar(orden, rt);
    }
  }
}
