# PuraVida MiPyME Suite — a verified model of the business core

This Dafny project models the business logic of the PuraVida MiPyME Suite,
a Java desktop suite for a small business: product catalogue, inventory,
sales orders, payments, invoices and a metrics dashboard. It covers six
parts of the code:

- **Order engine** (`dominio.dfy`, `gestion_ordenes.dfy`). `Producto`,
  `ItemOrden`, `Orden` and the `GestionOrdenes` orchestrator are classes in
  the heap.
  - An item holds a *reference* to the catalogue's own `Producto` object.
    Subtotals therefore use the product's current price, and finalising an
    order lowers the stock of the very objects the catalogue lists.
  - The invoice body is built line by line and sealed with an integrity code.
- **Payments** (`pagos.dfy`, `fabrica_pagos.dfy`). There are three
  stateless strategies: cash, card with a ceiling of 5000, and bank
  transfer driven by a random draw. The factory maps a trimmed,
  lower-cased name to one of them.
- **Invoice integrity code** (`comprobante.dfy`). HMAC-SHA256 is an
  abstract 32-byte function. The hand-written lower-case hex encoder is
  modelled as the loop it is, and proved to round-trip.
- **Catalogue and inventory** (`catalogo.dfy`, `inventario.dfy`,
  `repositorio_mapa.dfy`, `producto_repositorio.dfy`). This part holds:
  - list- and map-based add, edit and delete, with their duplicate and
    not-found rules;
  - searches and sorted views;
  - the line-by-line CSV import with its report.
- **CSV reading and writing** (`registros.dfy`, `repositorio_csv.dfy`,
  `producto_repositorio.dfy`). This covers the header check, the parsing
  and validation of one line, and the "skip blank lines, the first
  non-blank line is the header" reading loop. Both readers are proved to
  read back exactly what the writers write.
- **Dashboard and JSON** (`analisis.dfy`, `json.dfy`). The dashboard
  aggregates revenue per product and orders per client. It then lists the
  top five products, the frequent clients and the critical stock. The JSON
  serialiser is a bracketed join.

The supporting modules are:

- `outcomes.dfy`: `Option`, `Result`, `Outcome` and the exception taxonomy;
- `platform.dfy`: the platform functions kept abstract;
- `java_text.dfy`: `trim`, `toLowerCase` and `toUpperCase` (up to U+00FF
  and a few characters beyond), `equalsIgnoreCase`, `split`, `startsWith`,
  `contains`, integer printing and the UTF-16 code units of a string;
- `streams.dfy`: `filter`, `anyMatch`, `findFirst`, `limit` and a stable
  sort.

Prices and amounts are exact `real`s. `String.format("%.2f")`,
`Double.toString`, `Double.parseDouble`, `Integer.parseInt`, UTF-8
encoding and HMAC-SHA256 are uninterpreted fields of a `Runtime` value
passed in as a parameter. The `Math.random()` draw of the transfer
strategy is an explicit `draw` parameter. A backing file is an optional
sequence of lines: `None` means that the file does not exist.

Behaviour of the code worth noting:

- An `ItemOrden` captures no unit price. It refers to the live product,
  so a later price change changes the item's total (`Dominio.PrecioVivo`).
- The stock check happens inside `Orden.agregarItem`
  (domain/Orden.java:50), not only in the orchestrator. Only there is a
  non-positive quantity refused: `new ItemOrden` refuses it when stock
  allows.
- `Orden.setDescuento` rejects only negative values, so a discount above
  100 is stored. Only `GestionOrdenes.aplicarDescuento` enforces the range
  [0, 100].
- A declined payment is an exception (`PagoInvalidoException`), not a
  returned status.
- The code calls `getStock`/`setStock` and a four-argument `Producto`
  constructor, but `Producto.java` does not define them. `getStock` and
  `setStock` are read as `stockActual` and `setStockActual`. The readers
  that use the four-argument constructor produce `Registro` values
  (code, name, price, stock) with only the checks `parsearLinea` makes.

## Model

| member | source | states |
|---|---|---|
| Dominio.ValidarProducto | PuraVidaMiPyMESuite/src/domain/Producto.java:22-24 | passes iff price > 0 and both stocks ≥ 0; a bad price is reported before a bad stock |
| Dominio.Producto.constructor | PuraVidaMiPyMESuite/src/domain/Producto.java:22-31 | a product built from validated arguments holds exactly those six fields and satisfies the price/stock invariant |
| Dominio.Producto.Crear | PuraVidaMiPyMESuite/src/domain/Producto.java:22-31 | `new Producto(...)`: fails iff the price is ≤ 0 (PrecioInvalido) or a stock is negative (StockNegativo), price checked first; otherwise a fresh valid product holding exactly the six arguments |
| Dominio.Producto.SetPrecio | PuraVidaMiPyMESuite/src/domain/Producto.java:51-54 | a price ≤ 0 is refused with PrecioInvalido and the price kept; otherwise the price is replaced; price > 0 stays invariant |
| Dominio.Producto.SetStockActual | PuraVidaMiPyMESuite/src/domain/Producto.java:56-59 | a negative stock is refused with StockNegativo and the stock kept; otherwise replaced; stock ≥ 0 stays invariant |
| Dominio.ToCsvEsJoin | PuraVidaMiPyMESuite/src/domain/Producto.java:63-65 | toString is the six fields codigo, nombre, categoria, precio, stockMin, stockActual joined by commas in that order |
| Dominio.ToCsvCampos | PuraVidaMiPyMESuite/src/domain/Producto.java:63-65 | when no field contains a comma, splitting toString on commas gives back exactly the six fields |
| Dominio.Cliente.constructor | PuraVidaMiPyMESuite/src/domain/Cliente.java:17-22 | a client holds the cedula, name, phone and e-mail it was given |
| Dominio.ItemOrden.constructor | PuraVidaMiPyMESuite/src/domain/ItemOrden.java:22-23 | an item refers to the given product and holds the given quantity, which must be positive; it is the success path of `Dominio.ItemOrden.Crear`, which makes the two refusals |
| Dominio.ItemOrden.Crear | PuraVidaMiPyMESuite/src/domain/ItemOrden.java:15-24 | a null product is refused with ProductoNulo, then a quantity ≤ 0 with CantidadNoPositiva; it succeeds iff the product is non-null and the quantity positive, giving a fresh valid item on exactly that product and quantity |
| Dominio.ItemOrden.SetCantidad | PuraVidaMiPyMESuite/src/domain/ItemOrden.java:36-41 | a quantity ≤ 0 is refused and the quantity kept; otherwise replaced; quantity > 0 stays invariant |
| Dominio.ItemOrden.GetTotal | PuraVidaMiPyMESuite/src/domain/ItemOrden.java:44-46 | the total of a valid item with a valid product is positive |
| Dominio.PrecioVivo | PuraVidaMiPyMESuite/src/domain/ItemOrden.java:44-46 | changing the product's price changes the item's total to new price × quantity; a refused price leaves the total as it was |
| Dominio.Orden.constructor | PuraVidaMiPyMESuite/src/domain/Orden.java:37-44 | a new order has the given id, client and method, no items, discount 0 and tax 0.13 |
| Dominio.Orden.AgregarItem | PuraVidaMiPyMESuite/src/domain/Orden.java:49-57 | stock < quantity fails with StockInsufficient and keeps the items; a non-positive quantity fails and keeps them; otherwise exactly one fresh item for that product and quantity is appended and the earlier items are kept |
| Dominio.Orden.CalcularSubtotal | PuraVidaMiPyMESuite/src/domain/Orden.java:62-66 | for a valid order the subtotal is ≥ 0, and > 0 iff the order has items |
| Dominio.SubtotalTrasAgregar | PuraVidaMiPyMESuite/src/domain/Orden.java:62-66 | the subtotal is additive over items: appending an item adds its current price × quantity |
| Dominio.SumaTotalesPositiva | PuraVidaMiPyMESuite/src/domain/Orden.java:62-66 | the sum over no items is 0; over valid, non-empty items it is positive |
| Dominio.Orden.CalcularTotal | PuraVidaMiPyMESuite/src/domain/Orden.java:71-76 | for a valid order the total is > 0 iff there are items and the discount is below 100 |
| Dominio.TotalEjemplo | PuraVidaMiPyMESuite/src/domain/Orden.java:71-76 | price 100, quantity 2, discount 10, tax 0.13 gives a total of exactly 203.4 |
| Dominio.SignoDelTotal | PuraVidaMiPyMESuite/src/domain/Orden.java:71-76 | with a positive subtotal and non-negative tax, the total is positive iff the discount is below 100, and exactly 0 at 100 |
| Dominio.Orden.ProcesarPago | PuraVidaMiPyMESuite/src/domain/Orden.java:83-93 | total ≤ 0 fails with MontoNoPositivo; a declining strategy fails with Rechazado naming the method; otherwise the result is true; a success is never false; it reads the order and changes nothing |
| Dominio.AnexarLineas | PuraVidaMiPyMESuite/src/domain/Orden.java:106-112 | the item loop appends one line per item, in item order, to the text built so far |
| Dominio.LineaControl | PuraVidaMiPyMESuite/src/domain/Orden.java:120-122 | the control line has a fixed length (its label, 64 hex digits and a newline) |
| Dominio.Orden.GenerarFactura | PuraVidaMiPyMESuite/src/domain/Orden.java:100-122 | the invoice text built is the header, ID, client, items, subtotal, discount, tax, total and method lines followed by the control line |
| Dominio.FacturaVerificable | PuraVidaMiPyMESuite/src/domain/Orden.java:119-122 | the last line of every invoice is the HMAC line computed over exactly the body before it, so recomputing the code over the body reproduces it |
| Dominio.Orden.GetItems | PuraVidaMiPyMESuite/src/domain/Orden.java:137-139 | the result is a fresh container holding the items in order, so writing to it cannot change the order |
| Dominio.Orden.SetDescuento | PuraVidaMiPyMESuite/src/domain/Orden.java:145-150 | a negative discount is refused and the discount kept; any other value, even above 100, is stored |
| Dominio.Orden.SetImpuesto | PuraVidaMiPyMESuite/src/domain/Orden.java:156-161 | a negative tax is refused and the tax kept; any other value is stored |
| Pagos.EstrategiaPago.GetMetodo | PuraVidaMiPyMESuite/src/data/PagoTarjeta.java:23-25 | the names are "Efectivo", "Tarjeta" and "Transferencia" |
| Pagos.EstrategiaPago.ProcesarPago | PuraVidaMiPyMESuite/src/data/PagoTarjeta.java:13-20 | cash always accepts; card accepts iff amount ≤ 5000; transfer accepts iff the draw is > 0.1 |
| Pagos.EfectivoSiempreAcepta | PuraVidaMiPyMESuite/src/data/PagoEfectivo.java:13-16 | cash accepts every amount whatever the draw |
| Pagos.TarjetaLimite | PuraVidaMiPyMESuite/src/data/PagoTarjeta.java:14-19 | 5000 is authorised, 5000.01 and every amount above 5000 declined |
| Pagos.TransferenciaPorSorteo | PuraVidaMiPyMESuite/src/data/PagoTransferencia.java:15 | for a draw in [0, 1) the transfer is declined iff the draw is ≤ 0.1 |
| Pagos.DecisionesIndependientes | PuraVidaMiPyMESuite/src/data/PagoTransferencia.java:13-16 | cash and card ignore the draw; transfer ignores the amount |
| Pagos.MetodosDistintos | PuraVidaMiPyMESuite/src/data/PagoEfectivo.java:19-21 | two strategies report the same name iff they are the same strategy |
| FabricaPagos.Elegida | PuraVidaMiPyMESuite/src/application/FabricaPagos.java:23-30 | exactly the words efectivo, tarjeta and transferencia select a strategy, each the one whose lower-cased display name it is |
| FabricaPagos.CrearPago | PuraVidaMiPyMESuite/src/application/FabricaPagos.java:18-32 | null or blank fails with TipoVacio; it succeeds iff the trimmed lower-cased name is efectivo, tarjeta or transferencia, returning the strategy of that name; any other name fails with TipoDesconocido carrying the text given |
| FabricaPagos.BlankNormalizado | PuraVidaMiPyMESuite/src/application/FabricaPagos.java:19-21 | a blank input normalises to the empty string, which names no strategy |
| FabricaPagos.ElegirPorNombre | PuraVidaMiPyMESuite/src/application/FabricaPagos.java:23-26 | an input that normalises to a strategy's lower-cased name yields that strategy |
| FabricaPagos.CrearPagoDeMetodo | PuraVidaMiPyMESuite/src/application/FabricaPagos.java:23-26 | feeding a strategy's own display name to the factory yields that strategy |
| FabricaPagos.MetodoMinusculaInyectivo | PuraVidaMiPyMESuite/src/application/FabricaPagos.java:23-26 | the lower-cased names of the three strategies are distinct |
| FabricaPagos.NormalizadoEstable | PuraVidaMiPyMESuite/src/application/FabricaPagos.java:23 | normalisation is idempotent and preserves blankness |
| FabricaPagos.CrearPagoIgnoraFormato | PuraVidaMiPyMESuite/src/application/FabricaPagos.java:23 | the factory gives the same result on an input and on its normalised form |
| FabricaPagos.TarjetaConEspacios | PuraVidaMiPyMESuite/src/application/FabricaPagos.java:23-25 | " TARJETA " and "tarjeta" both yield the card strategy |
| FabricaPagos.PaypalRechazado | PuraVidaMiPyMESuite/src/application/FabricaPagos.java:27-30 | "paypal" fails with TipoDesconocido("paypal") |
| JavaText.TrimLower | PuraVidaMiPyMESuite/src/application/FabricaPagos.java:23 | trimming and lower-casing commute |
| JavaText.JavaSplitLower | PuraVidaMiPyMESuite/src/infrastructure/RepositorioCSV.java:108-113 | splitting at commas and lower-casing commute: the split of the lower-cased text is the lower-cased split, field by field |
| Comprobante.Unsigned | PuraVidaMiPyMESuite/src/infrastructure/ComprobanteGenerator.java:25 | 0xff & b is b for non-negative bytes and b + 256 for negative ones, always below 256 |
| Comprobante.ToHexString | PuraVidaMiPyMESuite/src/infrastructure/ComprobanteGenerator.java:25 | Integer.toHexString gives a non-empty string of lower-case hex digits |
| Comprobante.HexStringOfByte | PuraVidaMiPyMESuite/src/infrastructure/ComprobanteGenerator.java:25-29 | for a value below 16 it is one digit; otherwise it is the high and the low digit |
| Comprobante.PaddedByte | PuraVidaMiPyMESuite/src/infrastructure/ComprobanteGenerator.java:26-29 | every byte contributes exactly two characters, the first '0' when the value is below 16 |
| Comprobante.HexEncoding | PuraVidaMiPyMESuite/src/infrastructure/ComprobanteGenerator.java:23-31 | the encoding has twice as many characters as there are bytes, all in [0-9a-f] |
| Comprobante.HexEncodingPairs | PuraVidaMiPyMESuite/src/infrastructure/ComprobanteGenerator.java:24-30 | characters 2i and 2i+1 are the high and low digits of byte i |
| Comprobante.DecodeHexEncoding | PuraVidaMiPyMESuite/src/infrastructure/ComprobanteGenerator.java:23-31 | decoding the hex gives back exactly the bytes encoded |
| Comprobante.ByteRoundTrip | PuraVidaMiPyMESuite/src/infrastructure/ComprobanteGenerator.java:25 | a signed byte is recovered from its two nibbles |
| Comprobante.CodigoControl | PuraVidaMiPyMESuite/src/infrastructure/ComprobanteGenerator.java:16-32 | the code is 64 lower-case hex characters |
| Comprobante.GenerarHmac | PuraVidaMiPyMESuite/src/infrastructure/ComprobanteGenerator.java:16-32 | an empty key is refused with IllegalArgumentException, because SecretKeySpec gets no key bytes; any other key gives the code: 64 characters whose decoding is the HMAC of the UTF-8 key and message, so the same message and key give the same code |
| Catalogos.Catalogo.constructor | PuraVidaMiPyMESuite/src/application/Catalogo.java:23-28 | the catalogue starts with the products read from its repository |
| Catalogos.Catalogo.ExisteProducto | PuraVidaMiPyMESuite/src/application/Catalogo.java:160-162 | true iff some product has the code |
| Catalogos.Catalogo.ObtenerPorCodigo | PuraVidaMiPyMESuite/src/application/Catalogo.java:167-172 | present iff some product has the code; then it is the first such element of the list itself, not a copy |
| Catalogos.Catalogo.AgregarProducto | PuraVidaMiPyMESuite/src/application/Catalogo.java:33-40 | an existing code fails with ProductoDuplicado and keeps the list; otherwise the product is appended at the end |
| Catalogos.UnicosTrasAgregar | PuraVidaMiPyMESuite/src/application/Catalogo.java:33-37 | appending a product whose code is absent keeps codes unique |
| Catalogos.Catalogo.EditarProducto | PuraVidaMiPyMESuite/src/application/Catalogo.java:45-55 | succeeds iff the code is present, and then replaces the first product with that code in place; otherwise fails with ProductoNoEncontrado and keeps the list |
| Catalogos.ReemplazarEfecto | PuraVidaMiPyMESuite/src/application/Catalogo.java:46-48 | the replacement keeps the length and the code at every index; only an element with the product's code can change, and only into the product; an absent code changes nothing |
| Catalogos.ReemplazarPropio | PuraVidaMiPyMESuite/src/application/Catalogo.java:46-48 | with unique codes, re-editing a product already in the list changes nothing |
| Catalogos.UnicosTrasReemplazar | PuraVidaMiPyMESuite/src/application/Catalogo.java:45-48 | editing keeps codes unique |
| Catalogos.Catalogo.EliminarProducto | PuraVidaMiPyMESuite/src/application/Catalogo.java:60-66 | the list becomes the products whose code differs, in order |
| Catalogos.EliminarQuitaCodigo | PuraVidaMiPyMESuite/src/application/Catalogo.java:60-66 | afterwards no product has the code, every other product is kept, and an absent code changes nothing |
| Catalogos.UnicosTrasEliminar | PuraVidaMiPyMESuite/src/application/Catalogo.java:61 | removing the products with a code keeps the remaining codes unique |
| Catalogos.Catalogo.BuscarPorNombre | PuraVidaMiPyMESuite/src/application/Catalogo.java:71-75 | exactly the products whose lower-cased name contains the lower-cased query, in list order |
| JavaText.MinusculasLatinas | PuraVidaMiPyMESuite/src/application/Catalogo.java:73 | accented capitals lower-case as Java does: "PIÑA" becomes "piña", so a search for "piña" finds "PIÑA" |
| Catalogos.Catalogo.OrdenarPorPrecioAsc | PuraVidaMiPyMESuite/src/application/Catalogo.java:80-84 | a permutation of the list, ascending by price; products of equal price keep their list order (Stream.sorted is stable) |
| Catalogos.Catalogo.OrdenarPorStockDesc | PuraVidaMiPyMESuite/src/application/Catalogo.java:89-93 | a permutation of the list, descending by stock; products of equal stock keep their list order |
| Catalogos.Catalogo.TieneDuplicados | PuraVidaMiPyMESuite/src/application/Catalogo.java:98-106 | true iff two distinct positions share a code |
| Catalogos.Catalogo.GetProductos | PuraVidaMiPyMESuite/src/application/Catalogo.java:153-155 | a fresh container holding the products in order |
| Streams.FindFirst | PuraVidaMiPyMESuite/src/application/Catalogo.java:168-171 | the first element that satisfies the predicate, or none when no element does |
| Streams.SortBy | PuraVidaMiPyMESuite/src/application/Catalogo.java:80-84 | a sorted stream is a permutation of its input, ordered by the comparator's key |
| Streams.InsertByEstable | PuraVidaMiPyMESuite/src/application/Catalogo.java:82 | inserting an element into a sorted sequence puts it before every element whose key ties with its own, and leaves every other tie class as it was |
| Streams.SortByEstable | PuraVidaMiPyMESuite/src/application/Catalogo.java:82 | the sort is stable: the elements of each class of equal keys come out in the order they went in |
| Streams.SortByEstableTodos | PuraVidaMiPyMESuite/src/application/Catalogo.java:82 | the same, for every tie class at once |
| Streams.Filter | PuraVidaMiPyMESuite/src/application/Catalogo.java:71-75 | a filtered stream keeps exactly the elements that satisfy the predicate, with their multiplicities, in order |
| Streams.Limit | PuraVidaMiPyMESuite/src/application/AnalisisService.java:46 | limit(n) keeps the first min(n, length) elements, in order |
| Ordenes.GestionOrdenes.constructor | PuraVidaMiPyMESuite/src/application/GestionOrdenes.java:34-37 | the orchestrator works on the catalogue it is given |
| Ordenes.GestionOrdenes.CrearOrden | PuraVidaMiPyMESuite/src/application/GestionOrdenes.java:48-57 | a blank id fails with IdVacio; a factory failure propagates; otherwise a fresh valid order with that id, client and strategy, no items, discount 0 and tax 0.13 |
| Ordenes.GestionOrdenes.AgregarItemAOrden | PuraVidaMiPyMESuite/src/application/GestionOrdenes.java:68-81 | a quantity ≤ 0 fails before any lookup; an unknown code fails with ProductoInexistente; otherwise the catalogue's own product object is added under Orden.agregarItem's stock rule; a failure leaves the items unchanged |
| Ordenes.GestionOrdenes.AplicarDescuento | PuraVidaMiPyMESuite/src/application/GestionOrdenes.java:90-95 | a percentage outside [0, 100] fails and keeps the discount; otherwise it is stored |
| Ordenes.DescuentoTotalSinPago | PuraVidaMiPyMESuite/src/application/GestionOrdenes.java:90-94 | a 100% discount is accepted, but it makes the total 0, so payment fails with MontoNoPositivo |
| Ordenes.GestionOrdenes.ProcesarPago | PuraVidaMiPyMESuite/src/application/GestionOrdenes.java:104-106 | succeeds, with true, iff the total is positive and the strategy accepts; it never fails with "no pudo procesarse", so that branch of finalizarOrden is dead |
| Ordenes.GestionOrdenes.Rechazo | PuraVidaMiPyMESuite/src/application/GestionOrdenes.java:115-129 | a null or blank route is refused first, then an empty order, then a payment failure; there is no refusal iff the route is given, the order has items and the payment succeeds |
| Ordenes.Pedidos | PuraVidaMiPyMESuite/src/application/GestionOrdenes.java:132-134 | the items' (product, quantity) pairs, in item order |
| Ordenes.CantidadPedidaPositiva | PuraVidaMiPyMESuite/src/application/GestionOrdenes.java:132-136 | with positive quantities, the summed quantity for a product is ≥ 0, and > 0 iff some item refers to it |
| Ordenes.PedidoDeOrden | PuraVidaMiPyMESuite/src/application/GestionOrdenes.java:132-136 | for the items of a valid order, the summed quantity for a product is > 0 iff the product occurs in the order |
| Ordenes.GestionOrdenes.DescontarItem | PuraVidaMiPyMESuite/src/application/GestionOrdenes.java:133-135 | one iteration: a quantity above the stock fails with StockNegativo and changes nothing; otherwise the product's stock drops by the quantity, and the turn succeeds iff the catalogue holds the product's code (else ProductoNoEncontrado); on success the catalogue entry is replaced by the product |
| Ordenes.ExcedeEn | PuraVidaMiPyMESuite/src/application/GestionOrdenes.java:132-134 | an item whose quantity the stock left at its turn cannot cover belongs to a product that the whole order asks more of than its starting stock |
| Ordenes.GestionOrdenes.DescontarTurno | PuraVidaMiPyMESuite/src/application/GestionOrdenes.java:132-136 | one iteration in the loop's accounting: a pass extends "stock = starting stock minus what the first k items ask" and "catalogue = the first k edits, all codes present" to k + 1; StockNegativo means some product is asked for beyond its starting stock; ProductoNoEncontrado means this item's code is missing from the starting catalogue |
| Ordenes.GestionOrdenes.DescontarStock | PuraVidaMiPyMESuite/src/application/GestionOrdenes.java:132-136 | succeeds iff every product's starting stock covers the summed quantities of the order's items that refer to it and every item's code is in the catalogue; StockNegativo implies some product was asked for beyond its stock, ProductoNoEncontrado that some code was missing; on success every product's stock is its old stock minus those summed quantities, and the catalogue has had each item's product replaced in turn |
| Ordenes.EdicionesCodigos | PuraVidaMiPyMESuite/src/application/GestionOrdenes.java:135 | the successive editarProducto calls keep the catalogue's codes in place |
| Ordenes.EdicionesUnicas | PuraVidaMiPyMESuite/src/application/GestionOrdenes.java:135 | the successive editarProducto calls keep codes unique |
| Ordenes.EdicionesPropias | PuraVidaMiPyMESuite/src/application/GestionOrdenes.java:135 | when every item's product is itself in a catalogue with unique codes, the edits leave the list as it was |
| Ordenes.GestionOrdenes.DescontarYFacturar | PuraVidaMiPyMESuite/src/application/GestionOrdenes.java:132-139 | succeeds iff the stock loop does (stock covers every product's summed quantities and every code is catalogued), with the same reading of each failure; then the invoice text is built from the updated order |
| Ordenes.GestionOrdenes.FinalizarOrden | PuraVidaMiPyMESuite/src/application/GestionOrdenes.java:115-140 | a refused route, empty order or failed payment is reported and changes no stock, catalogue or items; otherwise stock is lowered per item as above and the invoice text returned; once those checks pass, it succeeds iff every product's stock covers what the whole order asks of it and every item's code is catalogued; StockNegativo implies a product was asked for beyond its stock, ProductoNoEncontrado that a code was missing |
| RepositoriosMapa.ProductoRepositorioCsv.constructor | PuraVidaMiPyMESuite/src/infrastructure/ProductoRepositorioCSV.java:16-18 | the map starts empty |
| RepositoriosMapa.ProductoRepositorioCsv.BuscarPorCodigo | PuraVidaMiPyMESuite/src/infrastructure/ProductoRepositorioCSV.java:57-59 | present iff the code is a key; then the product under that code |
| RepositoriosMapa.ProductoRepositorioCsv.Agregar | PuraVidaMiPyMESuite/src/infrastructure/ProductoRepositorioCSV.java:61-66 | an existing key fails with ProductoDuplicado and keeps the map; otherwise the map gains that key with p |
| RepositoriosMapa.ProductoRepositorioCsv.Actualizar | PuraVidaMiPyMESuite/src/infrastructure/ProductoRepositorioCSV.java:68-70 | upsert: the code maps to p, every other key unchanged |
| RepositoriosMapa.ProductoRepositorioCsv.Eliminar | PuraVidaMiPyMESuite/src/infrastructure/ProductoRepositorioCSV.java:72-74 | the key is removed, a no-op when absent |
| RepositoriosMapa.ProductoRepositorioCsv.GetProductos | PuraVidaMiPyMESuite/src/infrastructure/ProductoRepositorioCSV.java:53-55 | each mapped product exactly once, as many as there are keys |
| RepositoriosMapa.FichaDeCampos | PuraVidaMiPyMESuite/src/infrastructure/ProductoRepositorioCSV.java:28-37 | from six fields: the first of precio, stockMin, stockActual (in that order) that will not parse fails with FormatoNumerico carrying that field's text; it succeeds iff the numbers parse and pass Producto's validation; the product takes the fields untrimmed |
| RepositoriosMapa.ProductoRepositorioCsv.LeerLinea | PuraVidaMiPyMESuite/src/infrastructure/ProductoRepositorioCSV.java:26-39 | one line: blank or "codigo,"-prefixed lines and lines without exactly six fields are skipped; a valid line is put under its code; an exception stops the load |
| RepositoriosMapa.ProductoRepositorioCsv.CargarLineas | PuraVidaMiPyMESuite/src/infrastructure/ProductoRepositorioCSV.java:25-40 | the loop's result and map are those of the line-by-line specification |
| RepositoriosMapa.ProductoRepositorioCsv.Cargar | PuraVidaMiPyMESuite/src/infrastructure/ProductoRepositorioCSV.java:20-42 | a missing file changes nothing; otherwise the map is the line-by-line load of the file |
| RepositoriosMapa.FallaPersiste | PuraVidaMiPyMESuite/src/infrastructure/ProductoRepositorioCSV.java:23-41 | after the first failing line nothing further is loaded |
| RepositoriosMapa.PonerUltimo | PuraVidaMiPyMESuite/src/infrastructure/ProductoRepositorioCSV.java:38 | a later line with the same code overwrites an earlier one |
| RepositoriosMapa.PonerClaves | PuraVidaMiPyMESuite/src/infrastructure/ProductoRepositorioCSV.java:38 | the keys after loading are the old keys plus the codes loaded |
| RepositoriosMapa.ProductoRepositorioCsv.GuardarTodos | PuraVidaMiPyMESuite/src/infrastructure/ProductoRepositorioCSV.java:44-51 | the file becomes the six-column header followed by one toString line per product, in order |
| RepositoriosMapa.ArchivoFichas | PuraVidaMiPyMESuite/src/infrastructure/ProductoRepositorioCSV.java:44-51 | one more line than products: the header first, then line i + 1 is product i's CSV line |
| RepositoriosMapa.ToCsvEsLinea | PuraVidaMiPyMESuite/src/infrastructure/ProductoRepositorioCSV.java:48 | the line written is Producto.toString |
| RepositoriosMapa.LineaLegible | PuraVidaMiPyMESuite/src/infrastructure/ProductoRepositorioCSV.java:26-37 | a written line of a product with comma-free text and parse-stable numbers is not skipped, has six fields and reads back as that product |
| RepositoriosMapa.CodigoLlamadoCodigo | PuraVidaMiPyMESuite/src/infrastructure/ProductoRepositorioCSV.java:26 | a product whose code is "codigo" is written but skipped on loading, as if it were the header |
| RepositoriosMapa.CargarLoGuardado | PuraVidaMiPyMESuite/src/infrastructure/ProductoRepositorioCSV.java:20-42 | loading what guardarTodos wrote, for products with comma-free text and parse-stable numbers, succeeds and puts every saved product under its code, a later one winning |
| Inventarios.GestionInventario.constructor | PuraVidaMiPyMESuite/src/application/GestionInventario.java:23-25 | the list starts empty over the given repository |
| Inventarios.GestionInventario.CargarDatos | PuraVidaMiPyMESuite/src/application/GestionInventario.java:27-31 | the repository loads its file; on success the list becomes its products, each code once, agreeing with the map |
| Inventarios.GestionInventario.Refrescar | PuraVidaMiPyMESuite/src/application/GestionInventario.java:29-30 | the list is replaced by the repository's products, agreeing with the map |
| Inventarios.GestionInventario.ListarTodos | PuraVidaMiPyMESuite/src/application/GestionInventario.java:33-35 | a fresh container holding the list in order |
| Inventarios.GestionInventario.Guardar | PuraVidaMiPyMESuite/src/application/GestionInventario.java:87-93 | the file becomes the six-column CSV of the list; nothing else changes |
| Inventarios.GestionInventario.AgregarProducto | PuraVidaMiPyMESuite/src/application/GestionInventario.java:37-41 | a code already in the map fails with ProductoDuplicado before list, map or file change; otherwise the product is added to map and list and the file rewritten; list/map agreement is kept |
| Inventarios.CoherentesTrasAlta | PuraVidaMiPyMESuite/src/application/GestionInventario.java:37-41 | adding a new code to both map and list keeps them in agreement |
| Inventarios.GestionInventario.ActualizarProducto | PuraVidaMiPyMESuite/src/application/GestionInventario.java:43-48 | the map is upserted; the list is unchanged, since indexOf finds the product only when this very object is listed and then sets it in its own place; the file is rewritten; agreement survives iff the object is listed |
| Inventarios.CoherentesTrasActualizar | PuraVidaMiPyMESuite/src/application/GestionInventario.java:43-48 | after an upsert of the map alone, list and map agree iff the product object is in the list |
| Inventarios.GestionInventario.EliminarProducto | PuraVidaMiPyMESuite/src/application/GestionInventario.java:50-54 | the code leaves the map, every product with it leaves the list, the file is rewritten, agreement is kept |
| Inventarios.CoherentesTrasEliminar | PuraVidaMiPyMESuite/src/application/GestionInventario.java:50-54 | removing a code from both map and list keeps them in agreement |
| Inventarios.GestionInventario.Buscar | PuraVidaMiPyMESuite/src/application/GestionInventario.java:56-61 | exactly the products whose lower-cased name or code contains the lower-cased text, in order |
| Inventarios.GestionInventario.FiltrarPorCategoria | PuraVidaMiPyMESuite/src/application/GestionInventario.java:63-67 | exactly the products of that category, in order |
| Inventarios.GestionInventario.OrdenarPorPrecioDesc | PuraVidaMiPyMESuite/src/application/GestionInventario.java:69-73 | a permutation of the list, descending by price; products of equal price keep their list order |
| Inventarios.GestionInventario.OrdenarPorNombreAsc | PuraVidaMiPyMESuite/src/application/GestionInventario.java:75-79 | a permutation of the list, ascending by name in String.compareTo order, which compares UTF-16 code units; products of equal name keep their list order |
| Streams.LexOrder | PuraVidaMiPyMESuite/src/application/GestionInventario.java:77 | String.compareTo's order on code units is total and transitive, so sorting by name is well defined |
| Inventarios.SuplementarioAntes | PuraVidaMiPyMESuite/src/application/GestionInventario.java:77 | code units decide, not code points: a name starting with U+1F600 (high surrogate U+D83D) sorts before one starting with U+FFFD |
| JavaText.Utf16Char | PuraVidaMiPyMESuite/src/application/GestionInventario.java:77 | a character below U+10000 is one code unit, itself; any other is a high surrogate followed by a low one |
| JavaText.Utf16RoundTrip | PuraVidaMiPyMESuite/src/application/GestionInventario.java:77 | decoding a string's UTF-16 code units gives back the string, so the name order loses nothing of the name |
| Inventarios.GestionInventario.OrdenarPorStockAsc | PuraVidaMiPyMESuite/src/application/GestionInventario.java:81-85 | a permutation of the list, ascending by stock; products of equal stock keep their list order |
| Inventarios.Clasificar | PuraVidaMiPyMESuite/src/application/GestionInventario.java:108-137 | a line is skipped iff blank or "codigo,"-prefixed; otherwise a field count other than six is an error (Campos incompletos); six fields that parse and validate give a new or updated product, updated iff its code is already in the map; every other line is an error, and it is the very error the product's construction raised (for a number that will not parse, the field's text) |
| Inventarios.ClasificarFicha | PuraVidaMiPyMESuite/src/application/GestionInventario.java:111-133 | a valid six-field line is Actualizado when its code is known and Nuevo otherwise |
| Inventarios.GestionInventario.ImportarLinea | PuraVidaMiPyMESuite/src/application/GestionInventario.java:108-137 | one line: the outcome is its classification, and map and list change as that outcome says, keeping them in agreement |
| Inventarios.GestionInventario.Incorporar | PuraVidaMiPyMESuite/src/application/GestionInventario.java:122-133 | a parsed product replaces (known code) or is added (new code) in map and list |
| Inventarios.GestionInventario.ReemplazarImportado | PuraVidaMiPyMESuite/src/application/GestionInventario.java:122-127 | known code: map upserted, every listed product with the code removed and the new one appended |
| Inventarios.CoherentesTrasReemplazo | PuraVidaMiPyMESuite/src/application/GestionInventario.java:123-125 | removing all products with the code and appending the new one keeps list and map in agreement |
| Inventarios.GestionInventario.AltaImportada | PuraVidaMiPyMESuite/src/application/GestionInventario.java:128-132 | new code: added to map and appended to list |
| Inventarios.Anotar | PuraVidaMiPyMESuite/src/application/GestionInventario.java:126-136 | a line's report text and the one counter it bumps follow its outcome |
| Inventarios.GestionInventario.ImportarLineas | PuraVidaMiPyMESuite/src/application/GestionInventario.java:106-138 | the read loop's map, list, report lines and three counters are those of the line-by-line specification; list/map agreement is kept |
| Inventarios.GestionInventario.ImportarDesdeCSV | PuraVidaMiPyMESuite/src/application/GestionInventario.java:96-156 | an unreadable file yields the title, the read error and a zero summary and changes nothing; otherwise the report is title, per-line entries and the summary of the three counts, and the file is rewritten |
| Inventarios.ImportarEntradas | PuraVidaMiPyMESuite/src/application/GestionInventario.java:105-108 | one report entry per line that is not skipped, numbered with its 1-based line number, in increasing order |
| Inventarios.Recuento | PuraVidaMiPyMESuite/src/application/GestionInventario.java:101-136 | the three counters altas, actualizaciones and errores add up to the number of report entries, so every entry is counted exactly once |
| Inventarios.ImportarFichas | PuraVidaMiPyMESuite/src/application/GestionInventario.java:122-133 | the map after import is the old map with every successful line's product put in order |
| Inventarios.ImportarCoherente | PuraVidaMiPyMESuite/src/application/GestionInventario.java:122-131 | importing keeps list and map in agreement |
| Inventarios.ImportarLoGuardado | PuraVidaMiPyMESuite/src/application/GestionInventario.java:106-138 | importing a file saved by guardarTodos reports no errors and puts every saved product in the map |
| Registros.DeCampos | PuraVidaMiPyMESuite/src/infrastructure/RepositorioCSV.java:124-142 | with the first four fields trimmed: none iff a number fails to parse, the code is empty, the price is negative or the stock negative; otherwise the record of those values |
| Registros.DeCamposAdmite | PuraVidaMiPyMESuite/src/infrastructure/RepositorioCSV.java:124-142 | four fields with a non-empty trimmed code, a non-negative price and a non-negative stock that parse are accepted as the record of those trimmed values |
| Registros.PrecioCeroAdmitido | PuraVidaMiPyMESuite/src/infrastructure/RepositorioCSV.java:133-136 | a price of 0 passes the line check |
| Registros.CamposDeVuelta | PuraVidaMiPyMESuite/src/infrastructure/RepositorioCSV.java:124-142 | the fields written for a readable record parse back to the record |
| Registros.Archivo | PuraVidaMiPyMESuite/src/infrastructure/RepositorioCSV.java:92-101 | the header line then exactly one line per product in list order |
| Registros.Escribir | PuraVidaMiPyMESuite/src/infrastructure/RepositorioCSV.java:87-102 | the file becomes exactly those lines |
| Registros.PrimeraNoBlanca | PuraVidaMiPyMESuite/src/infrastructure/RepositorioCSV.java:51-60 | the header is the first non-blank line, or none if all lines are blank |
| Registros.Recorrer | PuraVidaMiPyMESuite/src/infrastructure/RepositorioCSV.java:51-67 | the loop skips blank lines, takes the first non-blank line as header and keeps each parsed product of the later lines, in order |
| Registros.NadaAntesDeCabecera | PuraVidaMiPyMESuite/src/infrastructure/RepositorioCSV.java:52-60 | nothing is read up to and including the header |
| Registros.PrimeraEsCabecera | PuraVidaMiPyMESuite/src/infrastructure/RepositorioCSV.java:92 | the first non-blank line of a written file is the header |
| Registros.LeerLoEscrito | PuraVidaMiPyMESuite/src/infrastructure/RepositorioCSV.java:51-67 | reading a written file with a parser that reads every written line back gives back the records |
| RepositoriosCsv.CabeceraValida | PuraVidaMiPyMESuite/src/infrastructure/RepositorioCSV.java:107-114 | the header this class writes passes validarCabecera |
| RepositoriosCsv.ValidarCabecera | PuraVidaMiPyMESuite/src/infrastructure/RepositorioCSV.java:107-114 | the check ignores case: any line whose trimmed, lower-cased text is "codigo,nombre,precio,stock" passes, e.g. "CODIGO,Nombre,precio,STOCK" |
| RepositoriosCsv.CabeceraMinusculas | PuraVidaMiPyMESuite/src/infrastructure/RepositorioCSV.java:108-113 | a line that lower-cases to the column names splits into four names, each equal to its column ignoring case and surrounding blanks |
| RepositoriosCsv.NombresValidos | PuraVidaMiPyMESuite/src/infrastructure/RepositorioCSV.java:107-114 | four comma-free names joined by commas pass when each, trimmed, equals its column under equalsIgnoreCase |
| RepositoriosCsv.CabeceraSinCaso | PuraVidaMiPyMESuite/src/infrastructure/RepositorioCSV.java:110-113 | "codigo,nombre,precio,ſtock" passes: equalsIgnoreCase matches 'ſ' (U+017F) with 's' through their common capital 'S' |
| JavaText.LowerChar | PuraVidaMiPyMESuite/src/application/GestionInventario.java:58-59 | Character.toLowerCase: a Latin-1 capital goes 32 code points up, the Kelvin sign to 'k', the Angstrom sign to 'å', other characters up to U+00FF stay; the result is never a capital |
| JavaText.UpperChar | PuraVidaMiPyMESuite/src/infrastructure/RepositorioCSV.java:110-113 | Character.toUpperCase: a small Latin-1 letter goes to the capital that lower-cases back to it, a capital stays, 'ı' goes to 'I' and 'ſ' to 'S'; other characters up to U+00FF stay |
| JavaText.LowerSinCaso | PuraVidaMiPyMESuite/src/infrastructure/RepositorioCSV.java:110-113 | two characters with the same small letter match under equalsIgnoreCase's per-character test |
| JavaText.MinusculasSinCaso | PuraVidaMiPyMESuite/src/infrastructure/RepositorioCSV.java:110-113 | strings that lower-case alike are equal ignoring case |
| JavaText.SinCasoNoEsMinusculas | PuraVidaMiPyMESuite/src/infrastructure/RepositorioCSV.java:110-113 | the converse fails: "ſtock" equals "stock" and "ı" equals "I" ignoring case, yet they lower-case differently; the Kelvin sign equals "k" |
| RepositoriosCsv.ColumnasValidas | PuraVidaMiPyMESuite/src/infrastructure/RepositorioCSV.java:107-114 | any line that trims to "codigo,nombre,precio,stock" passes |
| RepositoriosCsv.CamposDeLaLinea | PuraVidaMiPyMESuite/src/infrastructure/RepositorioCSV.java:118-127 | fewer than four fields gives none; otherwise only the first four fields count, extra fields ignored |
| RepositoriosCsv.ParsearLinea | PuraVidaMiPyMESuite/src/infrastructure/RepositorioCSV.java:116-151 | fewer than four comma-separated fields (trailing empty ones dropped) give null; otherwise the record is read from the first four fields alone, any further field ignored |
| RepositoriosCsv.LineaDeVuelta | PuraVidaMiPyMESuite/src/infrastructure/RepositorioCSV.java:116-151 | the line written for a readable record parses back to it |
| RepositoriosCsv.RepositorioCsv.constructor | PuraVidaMiPyMESuite/src/infrastructure/RepositorioCSV.java:27-28 | the repository works on the given file |
| RepositoriosCsv.RepositorioCsv.CrearArchivoInicial | PuraVidaMiPyMESuite/src/infrastructure/RepositorioCSV.java:153-165 | the file becomes the header line alone |
| RepositoriosCsv.RepositorioCsv.LeerProductos | PuraVidaMiPyMESuite/src/infrastructure/RepositorioCSV.java:37-70 | a missing file is created with the header and gives no products; otherwise the products of the reading loop, a warning iff the first non-blank line is not a valid header, and the file unchanged |
| RepositoriosCsv.RepositorioCsv.GuardarProductos | PuraVidaMiPyMESuite/src/infrastructure/RepositorioCSV.java:78-103 | the file becomes the header and one line per product |
| RepositoriosCsv.LeerLoGuardado | PuraVidaMiPyMESuite/src/infrastructure/RepositorioCSV.java:37-70 | reading what guardarProductos wrote gives back the products, with no header warning |
| ProductoRepositorios.ProductoRepositorio.constructor | PuraVidaMiPyMESuite/src/infrastructure/ProductoRepositorio.java:19-20 | the repository works on the given file |
| ProductoRepositorios.CuartoCampoConElResto | PuraVidaMiPyMESuite/src/infrastructure/ProductoRepositorio.java:80-89 | with more than four comma fields, the fourth field is the whole rest of the line, commas included, and it is what is parsed as the stock |
| ProductoRepositorios.LineaDeVuelta | PuraVidaMiPyMESuite/src/infrastructure/ProductoRepositorio.java:78-113 | the line written for a readable record parses back to it |
| ProductoRepositorios.ParsearLinea | PuraVidaMiPyMESuite/src/infrastructure/ProductoRepositorio.java:78-113 | a line with fewer than three commas gives null; otherwise the record is read from the first three fields and a fourth that is the rest of the line, commas included |
| ProductoRepositorios.ProductoRepositorio.GuardarProductos | PuraVidaMiPyMESuite/src/infrastructure/ProductoRepositorio.java:25-44 | the file becomes the header and one line per product |
| ProductoRepositorios.ProductoRepositorio.LeerProductos | PuraVidaMiPyMESuite/src/infrastructure/ProductoRepositorio.java:50-73 | a missing file gives no products; otherwise blank lines and the first non-blank line are skipped, unchecked, and every later line that parses gives its record, in order |
| ProductoRepositorios.LeerLoGuardado | PuraVidaMiPyMESuite/src/infrastructure/ProductoRepositorio.java:50-73 | reading what guardarProductos wrote gives back the products |
| ProductoRepositorios.ProductoRepositorio.BuscarPorCodigo | PuraVidaMiPyMESuite/src/infrastructure/ProductoRepositorio.java:118-123 | present iff some product read has the code; then the first such one |
| ProductoRepositorios.ProductoRepositorio.AgregarProducto | PuraVidaMiPyMESuite/src/infrastructure/ProductoRepositorio.java:128-135 | a duplicate code fails with CodigoRepetido and writes nothing; otherwise the product is appended and the file rewritten |
| ProductoRepositorios.UnicosTrasAgregar | PuraVidaMiPyMESuite/src/infrastructure/ProductoRepositorio.java:128-134 | appending an absent code keeps codes unique |
| ProductoRepositorios.ReemplazarPrimero | PuraVidaMiPyMESuite/src/infrastructure/ProductoRepositorio.java:142-149 | the loop reports whether the code occurs and replaces only its first occurrence |
| ProductoRepositorios.SustituirEfecto | PuraVidaMiPyMESuite/src/infrastructure/ProductoRepositorio.java:143-149 | the replacement keeps length and codes; the only changed index is the first one with the code, and it becomes the product |
| ProductoRepositorios.ProductoRepositorio.ActualizarProducto | PuraVidaMiPyMESuite/src/infrastructure/ProductoRepositorio.java:140-154 | succeeds iff the code occurs, rewriting with the first match replaced; otherwise fails with ProductoInexistente and writes nothing |
| ProductoRepositorios.ProductoRepositorio.EliminarProducto | PuraVidaMiPyMESuite/src/infrastructure/ProductoRepositorio.java:159-167 | succeeds iff the code occurs, rewriting without every match; otherwise fails and writes nothing |
| ProductoRepositorios.EliminarQuitaCodigo | PuraVidaMiPyMESuite/src/infrastructure/ProductoRepositorio.java:161 | afterwards no record has the code and every other record is kept |
| JavaText.JavaSplitOfJoin | PuraVidaMiPyMESuite/src/infrastructure/ProductoRepositorioCSV.java:27 | String.split(",") on two or more comma-free fields joined by commas, the last non-empty, gives the fields back |
| Analisis.VentasDeItems | PuraVidaMiPyMESuite/src/application/AnalisisService.java:40-42 | one (product, getTotal) sale per item, in order |
| Analisis.IngresoConcat | PuraVidaMiPyMESuite/src/application/AnalisisService.java:38-43 | a product's revenue over two runs of sales is the sum of its revenues over each |
| Analisis.IngresoSumaDeOrdenes | PuraVidaMiPyMESuite/src/application/AnalisisService.java:38-43 | the revenue `merge` accumulates for a product over all the orders' items is the sum, order by order, of what each order's items bring for it |
| Analisis.IngresoAusente | PuraVidaMiPyMESuite/src/application/AnalisisService.java:38-43 | a product that was never sold has revenue 0 |
| Analisis.Distintos | PuraVidaMiPyMESuite/src/application/AnalisisService.java:38-43 | the map's keys in first-seen order: no repeats, and exactly the elements of the input |
| Analisis.AcumularIngresos | PuraVidaMiPyMESuite/src/application/AnalisisService.java:38-43 | the merge loop's map has exactly the products sold as keys, each mapped to the sum of getTotal over all items referring to it across all orders |
| Analisis.Fusion | PuraVidaMiPyMESuite/src/application/AnalisisService.java:40 | merging a sale adds its total to the product's entry, or puts it as a new entry; every other entry is kept |
| Analisis.AcumularOrden | PuraVidaMiPyMESuite/src/application/AnalisisService.java:40-42 | merging one more order's items keeps the map equal to the revenue of the orders so far, its keys the products sold in first-sale order |
| Analisis.TopCorrecto | PuraVidaMiPyMESuite/src/application/AnalisisService.java:44-47 | the top list has min(5, number of products sold) distinct products, all sold, in non-increasing revenue, and no product left out earns more than one listed |
| Analisis.RankingIngresos | PuraVidaMiPyMESuite/src/application/AnalisisService.java:38-46 | sorting the merged map by value, descending, and keeping five gives the top list; the map's values for those products are their revenues |
| Analisis.TopDelMapa | PuraVidaMiPyMESuite/src/application/AnalisisService.java:44-47 | sorting the accumulated map's keys by their value, descending, and keeping five is the reference top list, and the values shown are the products' revenues |
| Analisis.SeccionTop | PuraVidaMiPyMESuite/src/application/AnalisisService.java:37-47 | the section's lines are "• name: $revenue" for the top products, in order |
| Analisis.LineasDelRanking | PuraVidaMiPyMESuite/src/application/AnalisisService.java:46 | appending one line per ranked product, with the revenue the map holds for it, gives that product's "• name: $revenue" line in ranking order |
| Analisis.Clientes | PuraVidaMiPyMESuite/src/application/AnalisisService.java:52-53 | one client per order, in order |
| Analisis.ComprasPositivas | PuraVidaMiPyMESuite/src/application/AnalisisService.java:51-54 | a client's count is positive iff the client placed an order |
| Analisis.ComprasSuman | PuraVidaMiPyMESuite/src/application/AnalisisService.java:51-54 | the counts over the distinct clients add up to the number of orders |
| Analisis.ContarCompras | PuraVidaMiPyMESuite/src/application/AnalisisService.java:51-54 | the merge loop's map has exactly the ordering clients as keys, each mapped to its number of orders |
| Analisis.FrecuentesCorrecto | PuraVidaMiPyMESuite/src/application/AnalisisService.java:55-58 | a client is listed iff it has at least 3 orders, each once, in non-increasing count |
| Analisis.FrecuentesDelMapa | PuraVidaMiPyMESuite/src/application/AnalisisService.java:55-58 | filtering the counted map's keys for at least 3 orders and sorting by count, descending, is the reference list of frequent clients, and the counts shown are their numbers of orders |
| Analisis.SeccionClientes | PuraVidaMiPyMESuite/src/application/AnalisisService.java:50-58 | the section's lines are "• name: n compras" for the frequent clients, in order |
| Analisis.Criticos | PuraVidaMiPyMESuite/src/application/AnalisisService.java:62-63 | exactly the products with stock below 5, in catalogue order |
| Analisis.SeccionCriticos | PuraVidaMiPyMESuite/src/application/AnalisisService.java:61-64 | the section's lines are "• name (code): stock" for the critical products, in order |
| Analisis.GenerarDashboard | PuraVidaMiPyMESuite/src/application/AnalisisService.java:32-67 | the dashboard is the title, then the top-products, frequent-clients and critical-stock sections, each under its heading, in that order |
| Analisis.Tablero | PuraVidaMiPyMESuite/src/application/AnalisisService.java:32-67 | the dashboard starts with the title and the top-products heading; with no orders the top-products and frequent-clients sections are empty; with no product under the critical stock it ends with the bare critical-stock heading |
| Analisis.SeccionesVacias | PuraVidaMiPyMESuite/src/application/AnalisisService.java:38-66 | no orders rank no product and no client; no product under stock 5 makes no product critical |
| Analisis.Ensamblar | PuraVidaMiPyMESuite/src/application/AnalisisService.java:33-66 | the text opens with the title and the top-products heading; empty top and client sections leave the three headings back to back; an empty critical section leaves the critical heading last |
| Json.EntradasProductos | PuraVidaMiPyMESuite/src/infrastructure/JsonManualSerializer.java:20-23 | one entry per product, in list order |
| Json.EntradaProducto | PuraVidaMiPyMESuite/src/infrastructure/JsonManualSerializer.java:21-23 | a product's object opens with its code as the first key and closes with a brace; it fits on one line when no field holds a line break |
| Json.ObjetoProducto | PuraVidaMiPyMESuite/src/infrastructure/JsonManualSerializer.java:21-23 | the object text opens with the code as the first key and closes with a brace; it holds no line break when none of the four value texts does |
| Json.ProductosToJson | PuraVidaMiPyMESuite/src/infrastructure/JsonManualSerializer.java:19-25 | starts with "[\n" and ends with "\n]"; an empty list is "[\n\n]"; with single-line entries, its lines are "[", the entries each followed by "," except the last, and "]" |
| Json.LineasProductos | PuraVidaMiPyMESuite/src/infrastructure/JsonManualSerializer.java:19-25 | the same line structure, stated for the joined product entries |
| Json.EntradasClientes | PuraVidaMiPyMESuite/src/infrastructure/JsonManualSerializer.java:32-35 | one entry per client, in list order |
| Json.EntradaCliente | PuraVidaMiPyMESuite/src/infrastructure/JsonManualSerializer.java:33-35 | a client's object opens with its name as the first key and closes with a brace; it fits on one line when no field holds a line break |
| Json.ClientesToJson | PuraVidaMiPyMESuite/src/infrastructure/JsonManualSerializer.java:31-37 | the same bracketing and line structure for clients |
| Json.LineasClientes | PuraVidaMiPyMESuite/src/infrastructure/JsonManualSerializer.java:31-37 | the same line structure, stated for the joined client entries |
| Json.SinCedula | PuraVidaMiPyMESuite/src/infrastructure/JsonManualSerializer.java:31-37 | two client lists that agree on name, phone and e-mail serialise identically, so the cedula never reaches the output |
| Json.ArregloForma | PuraVidaMiPyMESuite/src/infrastructure/JsonManualSerializer.java:24 | joining with prefix "[\n", separator ",\n" and suffix "\n]" gives a text with that prefix and suffix, "[\n\n]" when empty |
| Json.LineasDelArreglo | PuraVidaMiPyMESuite/src/infrastructure/JsonManualSerializer.java:24 | with entries free of newlines, the lines of the join are "[", each entry with its separating comma, and "]" |

## Left out

- File and console I/O are not modelled directly. A file is a `Fichero` object
  holding an optional sequence of lines, and the writers replace it. The
  following are not modelled:
  - directory creation;
  - `IOException` from the disk;
  - the invoice write at domain/Orden.java:124;
  - the report file written at application/GestionInventario.java:149-153;
  - the `System.out`/`System.err` messages.
- HMAC-SHA256 and UTF-8 encoding are abstract (`Runtime.hmacSha256`,
  `Runtime.utf8`). That the code detects tampering is a cryptographic
  assumption and is not proved.
- Java `double` arithmetic, `String.format("%.2f")`, `Double.toString`,
  `Double.parseDouble` and `Integer.parseInt` are abstract or exact:
  - amounts are exact reals, so rounding is not modelled;
  - the parsers return `None` where Java throws `NumberFormatException`;
  - a `real` holds no NaN or infinity. `Double.parseDouble` accepts
    "NaN" and "Infinity", and NaN passes both `precio < 0`
    (infrastructure/RepositorioCSV.java:133) and `precio <= 0`
    (domain/Producto.java:23), so Java keeps such a line or product.
    The model's `Runtime.parseDouble` yields only finite values;
  - the JSON `%d` of the stock uses the integer printer.
- Dominio.Orden.CalcularSubtotal: states the sign of the subtotal. Its
  value as the sum of current price × quantity is stated by
  `Dominio.SubtotalTrasAgregar` on the item sums, not in the function's
  own contract.
- Analisis.AcumularIngresos: revenue is stated as the sum of `getTotal`
  over the items. The further equality with price × units sold per
  product is not stated.
- `HashMap` iteration order is refined to first-seen order. Java leaves
  the order unspecified, and only the relative order of entries with
  equal values depends on it. The dashboard sorts with a stable insertion
  sort. The model also computes the dashboard's three sections in a
  different order (clients, critical stock, top products) and
  concatenates them in the source's order. Nothing is mutated, so the
  result is the same.
- The fields of `AnalisisService` are passed to `GenerarDashboard` as
  parameters. The `clientes` field is never read by `generarDashboard`
  and is not modelled.
- The following are not part of this model:
  - `AnalisisService.crearTareaRecalcularFidelizacion` and
    `FidelizacionWorker`: `SwingWorker` background jobs;
  - the Swing panels and `Main`;
  - client persistence (`ClienteRepositorio`, `ClienteService`,
    `CifradorAES`).
- Dominio.Cliente.constructor: a client's fields are constants. The
  setters of Cliente.java are outside the modelled core and are not
  modelled.
- Observers (`Catalogo.agregarObservador`, `notificarCambio`) are not
  modelled. They have no effect on the catalogue's state.
- `Catalogo`'s `cargarDesdeCSV` and `guardarEnCSV` are not modelled. The
  constructor takes the loaded products as its argument. The calls to the
  CSV repository swallow every error, so they cannot change the
  catalogue's list.
- Catalogos.Catalogo.BuscarPorNombre: lower-casing follows
  `Character.toLowerCase` on Basic Latin and Latin-1 Supplement ('A'..'Z'
  and 'À'..'Þ' except '×') and on the Kelvin and Angstrom signs only.
  Other capitals above U+00FF (Greek,
  Cyrillic, 'Ł', ...) are left as they are, and the locale-dependent and
  length-changing mappings of `String.toLowerCase` (the Turkish dotted
  'İ') are not captured, so a search relying on them is not modelled.
- Inventarios.GestionInventario.Buscar: the same Latin-1 lower-casing as
  `Catalogos.Catalogo.BuscarPorNombre`; case mapping above U+00FF is not
  captured.
- JavaText.LowerChar: written out for 'A'..'Z', 'À'..'Þ' except '×', and
  the Kelvin and Angstrom signs. Every other character is returned
  unchanged, which for capitals above U+00FF (Greek, Cyrillic, 'Ł', 'İ',
  ...) differs from `Character.toLowerCase`.
- JavaText.UpperChar: written out for the small letters up to U+00FF,
  dotless i and long s. Every other character is returned unchanged,
  which for small letters above U+00FF differs from
  `Character.toUpperCase`.
- JavaText.ToLower: covers the same characters, as above. The payment
  factory compares the lower-cased input with ASCII names, and of the
  characters `String.toLowerCase` turns into ASCII letters the model has
  all: 'A'..'Z' and the Kelvin sign.
- RepositoriosCsv.ValidarCabecera: `equalsIgnoreCase` is modelled by its
  per-character test through `Character.toUpperCase` and `toLowerCase`,
  which are written out up to U+00FF and for dotless i, long s and the
  Kelvin and Angstrom signs. A header name that matches its column only
  through another mapping (`Character.toLowerCase` takes the dotted capital
  'İ', U+0130, to 'i') passes in Java and fails in the model, which then
  reports a warning Java does not print.
- Inventarios.GestionInventario.OrdenarPorNombreAsc: names are compared
  by UTF-16 code unit as `compareTo` does, but a Java `String` may hold an
  unpaired surrogate, which a Dafny string cannot; such names are not
  modelled.
- Inventarios.GestionInventario.ImportarDesdeCSV: the text of each caught
  exception's message is the parameter `mensaje`, applied to the error.
  The error itself is exact, and a NumberFormatException carries the field
  that would not parse (`FormatoNumerico`). The JVM's wording around that
  field ("For input string: ...") is not spelled out.
- Null references are modelled only where the core tests for them. The
  null check of `new ItemOrden` is `Dominio.ItemOrden.Crear`, which takes
  a `Producto?`; the nullable method string of `crearPago` and the
  nullable route of `finalizarOrden` are `Option` values. Elsewhere a null
  order, client, id, catalogue or factory cannot be expressed, so the
  `Objects.requireNonNull` calls of `GestionOrdenes` have no counterpart.
- Dominio.ItemOrden.constructor: requires a non-null product and a
  positive quantity. Both refusals are made by `Dominio.ItemOrden.Crear`,
  which `Dominio.Orden.AgregarItem` calls.
- Ordenes.GestionOrdenes.FinalizarOrden: returns the invoice text instead
  of writing it to the route.
- Pagos.EstrategiaPago.ProcesarPago: the transfer's draw is a parameter.
  That `Math.random()` yields a value in [0, 1) with a 90% chance above
  0.1 is a probabilistic fact, not a proved one.
