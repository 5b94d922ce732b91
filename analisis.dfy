/**
 * AnalisisService.generarDashboard: the text dashboard of the operations.
 * Revenue per product is merged item by item into a map, orders per client
 * likewise; the five best-selling products, the clients with three orders
 * or more and the products whose stock is below five are then listed under
 * their headings. Both maps are keyed by the objects themselves (neither
 * Producto nor Cliente defines equals), and an item's total is taken at
 * its product's current price. The stock the critical section reads
 * (getStock) is the product's stockActual.
 */
module Analisis {
  import opened JavaText
  import opened Platform
  import opened Streams
  import opened Dominio

  // ---------------------------------------------------------------------
  // Sales: each item of each order, as (product, total)
  // ---------------------------------------------------------------------

  /** The items and the product objects a sequence of items leads to. */
  ghost function Objetos(items: seq<ItemOrden>): set<object> {
    (set i | 0 <= i < |items| :: items[i] as object) + (set i | 0 <= i < |items| :: items[i].producto as object)
  }

  /** Everything a reading of the orders' sales looks at beyond the orders: their items and products. */
  ghost function Alcance(ordenes: seq<Orden>): set<object>
    reads set o | o in ordenes
  {
    set o, x | o in ordenes && x in Objetos(o.items) :: x
  }

  lemma AlcancePrefijo(ordenes: seq<Orden>, n: nat)
    requires n <= |ordenes|
    ensures Alcance(ordenes[..n]) <= Alcance(ordenes)
    ensures n < |ordenes| ==> Objetos(ordenes[n].items) <= Alcance(ordenes)
  {
    assert forall o :: o in ordenes[..n] ==> o in ordenes;
    if n < |ordenes| {
      assert ordenes[n] in ordenes;
    }
  }

  /** The sales of one order's items, in order: each item's product and its total. */
  function VentasDeItems(items: seq<ItemOrden>): (v: seq<(Producto, real)>)
    reads Objetos(items)
    ensures |v| == |items|
    decreases |items|
  {
    if items == [] then []
    else
      var n := |items| - 1;
      assert items[n] as object in Objetos(items) && items[n].producto as object in Objetos(items);
      assert Objetos(items[..n]) <= Objetos(items);
      VentasDeItems(items[..n]) + [(items[n].producto, items[n].GetTotal())]
  }

  /** Every item of every order, in order, with its total at its product's current price. */
  function Ventas(ordenes: seq<Orden>): (v: seq<(Producto, real)>)
    reads set o | o in ordenes
    reads Alcance(ordenes)
    decreases |ordenes|
  {
    if ordenes == [] then []
    else
      var n := |ordenes| - 1;
      AlcancePrefijo(ordenes, n);
      Ventas(ordenes[..n]) + VentasDeItems(ordenes[n].items)
  }

  lemma VentasSnoc(ordenes: seq<Orden>, k: nat)
    requires k < |ordenes|
    ensures Ventas(ordenes[..k + 1]) == Ventas(ordenes[..k]) + VentasDeItems(ordenes[k].items)
  {
    assert ordenes[..k + 1][..k] == ordenes[..k];
  }

  /** Sale `k` of an order is its item `k`'s product and total. */
  lemma {:induction false} VentaDelItem(items: seq<ItemOrden>, k: nat)
    requires k < |items|
    ensures VentasDeItems(items)[k] == (items[k].producto, items[k].GetTotal())
    decreases |items|
  {
    if k < |items| - 1 {
      var n := |items| - 1;
      assert items[..n][k] == items[k];
      VentaDelItem(items[..n], k);
    }
  }

  // ---------------------------------------------------------------------
  // Revenue per product
  // ---------------------------------------------------------------------

  /** The revenue of `p`: the totals of the sales of `p`, added up. */
  function Ingreso(ventas: seq<(Producto, real)>, p: Producto): real
    decreases |ventas|
  {
    if ventas == [] then 0.0
    else
      var n := |ventas| - 1;
      Ingreso(ventas[..n], p) + if ventas[n].0 == p then ventas[n].1 else 0.0
  }

  /** `e -> e.getValue()` of the revenue entries, for the sales as a whole. */
  function IngresoDe(ventas: seq<(Producto, real)>): Producto -> real {
    (p: Producto) => Ingreso(ventas, p)
  }

  lemma IngresoSnoc(ventas: seq<(Producto, real)>, x: (Producto, real), p: Producto)
    ensures Ingreso(ventas + [x], p) == Ingreso(ventas, p) + if x.0 == p then x.1 else 0.0
  {
    assert (ventas + [x])[..|ventas|] == ventas;
  }

  /** Revenue adds up over consecutive stretches of sales. */
  lemma {:induction false} IngresoConcat(a: seq<(Producto, real)>, b: seq<(Producto, real)>, p: Producto)
    ensures Ingreso(a + b, p) == Ingreso(a, p) + Ingreso(b, p)
    decreases |b|
  {
    if b == [] {
      assert a + b == a;
    } else {
      var n := |b| - 1;
      assert a + b == (a + b[..n]) + [b[n]];
      assert b == b[..n] + [b[n]];
      IngresoSnoc(a + b[..n], b[n], p);
      IngresoSnoc(b[..n], b[n], p);
      IngresoConcat(a, b[..n], p);
    }
  }

  /** The revenue of `p` order by order: what each order's items bring, added up over the orders. */
  function IngresoPorOrdenes(ordenes: seq<Orden>, p: Producto): real
    reads set o | o in ordenes
    reads Alcance(ordenes)
    decreases |ordenes|
  {
    if ordenes == [] then 0.0
    else
      var n := |ordenes| - 1;
      AlcancePrefijo(ordenes, n);
      IngresoPorOrdenes(ordenes[..n], p) + Ingreso(VentasDeItems(ordenes[n].items), p)
  }

  /** The revenue merged over all the items is the sum of the orders' own revenues. */
  lemma {:induction false} IngresoSumaDeOrdenes(ordenes: seq<Orden>, p: Producto)
    ensures Ingreso(Ventas(ordenes), p) == IngresoPorOrdenes(ordenes, p)
    decreases |ordenes|
  {
    if ordenes != [] {
      var n := |ordenes| - 1;
      IngresoSumaDeOrdenes(ordenes[..n], p);
      IngresoConcat(Ventas(ordenes[..n]), VentasDeItems(ordenes[n].items), p);
    }
  }

  // ---------------------------------------------------------------------
  // Keys in the order they were first put
  // ---------------------------------------------------------------------

  ghost predicate SinRepetidos<T>(s: seq<T>) {
    forall i, j :: 0 <= i < j < |s| ==> s[i] != s[j]
  }

  /** The distinct elements of `s`, each where it first occurs. */
  function Distintos<T(==)>(s: seq<T>): (r: seq<T>)
    ensures SinRepetidos(r)
    ensures forall x :: x in r ==> x in s
    ensures forall x :: x in s ==> x in r
    decreases |s|
  {
    if s == [] then []
    else
      var n := |s| - 1;
      var f := Distintos(s[..n]);
      assert s == s[..n] + [s[n]];
      if s[n] in f then f else f + [s[n]]
  }

  lemma DistintosSnoc<T>(s: seq<T>, x: T)
    ensures Distintos(s + [x]) == if x in Distintos(s) then Distintos(s) else Distintos(s) + [x]
  {
    assert (s + [x])[..|s|] == s;
  }

  /** In a sequence without repetitions each element occurs at most once. */
  lemma {:induction false} UnaVez<T>(s: seq<T>, x: T)
    requires SinRepetidos(s)
    ensures multiset(s)[x] <= 1
    decreases |s|
  {
    if s != [] {
      assert s == [s[0]] + s[1..];
      assert s[0] !in s[1..];
      UnaVez(s[1..], x);
    }
  }

  /** A permutation of a sequence without repetitions has none either. */
  lemma PermutacionSinRepetidos<T>(s: seq<T>, r: seq<T>)
    requires SinRepetidos(s) && multiset(r) == multiset(s)
    ensures SinRepetidos(r)
  {
    forall i, j | 0 <= i < j < |r| ensures r[i] != r[j] {
      UnaVez(s, r[i]);
      assert r == r[..i] + [r[i]] + r[i + 1..j] + [r[j]] + r[j + 1..];
      assert multiset(r)[r[i]] >= multiset([r[i]])[r[i]] + multiset([r[j]])[r[i]];
    }
  }

  /** The product of each sale, in order. */
  function ProductosVendidos(ventas: seq<(Producto, real)>): (ps: seq<Producto>)
    ensures |ps| == |ventas| && forall k :: 0 <= k < |ventas| ==> ps[k] == ventas[k].0
  {
    seq(|ventas|, k requires 0 <= k < |ventas| => ventas[k].0)
  }

  /** The products sold, each once, in the order of their first sale. */
  function Vendidos(ventas: seq<(Producto, real)>): seq<Producto> {
    Distintos(ProductosVendidos(ventas))
  }

  lemma VendidosSnoc(ventas: seq<(Producto, real)>, x: (Producto, real))
    ensures Vendidos(ventas + [x]) == if x.0 in Vendidos(ventas) then Vendidos(ventas) else Vendidos(ventas) + [x.0]
  {
    assert ProductosVendidos(ventas + [x]) == ProductosVendidos(ventas) + [x.0];
    DistintosSnoc(ProductosVendidos(ventas), x.0);
  }

  /** A product never sold has no revenue. */
  lemma {:induction false} IngresoAusente(ventas: seq<(Producto, real)>, p: Producto)
    requires p !in Vendidos(ventas)
    ensures Ingreso(ventas, p) == 0.0
    decreases |ventas|
  {
    if ventas != [] {
      var n := |ventas| - 1;
      assert ventas == ventas[..n] + [ventas[n]];
      VendidosSnoc(ventas[..n], ventas[n]);
      IngresoSnoc(ventas[..n], ventas[n], p);
      IngresoAusente(ventas[..n], p);
    }
  }

  /**
   * `ingresos` and `claves` after merging `ventas`: the keys, in the order
   * they were first put, are the products sold, and each maps to its revenue.
   */
  ghost predicate Acumulado(ingresos: map<Producto, real>, claves: seq<Producto>, ventas: seq<(Producto, real)>) {
    && claves == Vendidos(ventas)
    && (forall p :: p in ingresos ==> p in claves)
    && (forall p :: p in claves ==> p in ingresos)
    && (forall p :: p in ingresos ==> ingresos[p] == Ingreso(ventas, p))
  }

  /** `ingresos.merge(p, total, Double::sum)` keeps the map in step with one more sale. */
  lemma AcumuladoPresente(ingresos: map<Producto, real>, claves: seq<Producto>, ventas: seq<(Producto, real)>, x: (Producto, real))
    requires Acumulado(ingresos, claves, ventas) && x.0 in ingresos
    ensures Acumulado(Fusion(ingresos, x), claves, ventas + [x])
  {
    VendidosSnoc(ventas, x);
    forall p {
      IngresoSnoc(ventas, x, p);
    }
  }

  lemma AcumuladoNuevo(ingresos: map<Producto, real>, claves: seq<Producto>, ventas: seq<(Producto, real)>, x: (Producto, real))
    requires Acumulado(ingresos, claves, ventas) && x.0 !in ingresos
    ensures Acumulado(Fusion(ingresos, x), claves + [x.0], ventas + [x])
  {
    VendidosSnoc(ventas, x);
    forall p {
      IngresoSnoc(ventas, x, p);
    }
    IngresoAusente(ventas, x.0);
  }

  /** `ingresos.merge(p, total, Double::sum)`: the total added to the product's entry, or put as a new one. */
  function Fusion(ingresos: map<Producto, real>, x: (Producto, real)): (r: map<Producto, real>)
    ensures r.Keys == ingresos.Keys + {x.0}
    ensures r[x.0] == (if x.0 in ingresos then ingresos[x.0] else 0.0) + x.1
    ensures forall p :: p in ingresos && p != x.0 ==> r[p] == ingresos[p]
  {
    if x.0 in ingresos then ingresos[x.0 := ingresos[x.0] + x.1] else ingresos[x.0 := x.1]
  }

  /** One merge keeps the map in step with one more sale; a new key goes in last. */
  lemma AcumuladoPaso(ingresos: map<Producto, real>, claves: seq<Producto>, antes: seq<(Producto, real)>, vs: seq<(Producto, real)>, j: nat)
    requires j < |vs| && Acumulado(ingresos, claves, antes + vs[..j])
    ensures Acumulado(Fusion(ingresos, vs[j]), if vs[j].0 in ingresos then claves else claves + [vs[j].0], antes + vs[..j + 1])
  {
    var h := antes + vs[..j];
    assert antes + vs[..j + 1] == h + [vs[j]];
    if vs[j].0 in ingresos {
      AcumuladoPresente(ingresos, claves, h, vs[j]);
    } else {
      AcumuladoNuevo(ingresos, claves, h, vs[j]);
    }
  }

  /**
   * The first loop of generarDashboard: every item of every order (a copy
   * of each order's list) merged into the revenue map. `claves` is the
   * order in which the keys went in.
   */
  method AcumularIngresos(ordenes: seq<Orden>) returns (ingresos: map<Producto, real>, claves: seq<Producto>)
    ensures claves == Vendidos(Ventas(ordenes))
    ensures forall p :: p in ingresos <==> p in claves
    ensures forall p :: p in ingresos ==> ingresos[p] == Ingreso(Ventas(ordenes), p)
  {
    ingresos, claves := map[], [];
    assert ordenes[..0] == [];
    for i := 0 to |ordenes|
      invariant Acumulado(ingresos, claves, Ventas(ordenes[..i]))
    {
      ingresos, claves := AcumularOrden(ordenes, i, ingresos, claves);
    }
    assert ordenes[..|ordenes|] == ordenes;
  }

  /** The inner loop for order `i`: its items merged one by one, `ingresos.merge(p, total, Double::sum)`. */
  method AcumularOrden(ordenes: seq<Orden>, i: nat, ingresos: map<Producto, real>, claves: seq<Producto>)
    returns (m: map<Producto, real>, c: seq<Producto>)
    requires i < |ordenes| && Acumulado(ingresos, claves, Ventas(ordenes[..i]))
    ensures Acumulado(m, c, Ventas(ordenes[..i + 1]))
  {
    m, c := ingresos, claves;
    var items := ordenes[i].items;
    ghost var vs := VentasDeItems(items);
    ghost var despues := Ventas(ordenes[..i + 1]);
    ghost var antes := Ventas(ordenes[..i]);
    assert despues == antes + vs by {
      VentasSnoc(ordenes, i);
    }
    assert antes + vs[..0] == antes;
    for j := 0 to |items|
      invariant vs == VentasDeItems(items) && despues == Ventas(ordenes[..i + 1])
      invariant Acumulado(m, c, antes + vs[..j])
    {
      var item := items[j];
      var venta := (item.producto, item.GetTotal());
      VentaDelItem(items, j);
      AcumuladoPaso(m, c, antes, vs, j);
      if venta.0 !in m {
        c := c + [venta.0];
      }
      m := Fusion(m, venta);
    }
    assert antes + vs[..|items|] == despues;
  }

  // ---------------------------------------------------------------------
  // Orders per client
  // ---------------------------------------------------------------------

  /** The client of each order, in order. */
  function Clientes(ordenes: seq<Orden>): (r: seq<Cliente>)
    ensures |r| == |ordenes| && forall i :: 0 <= i < |ordenes| ==> r[i] == ordenes[i].cliente
  {
    seq(|ordenes|, i requires 0 <= i < |ordenes| => ordenes[i].cliente)
  }

  /** How many times `c` occurs: the orders of the client. */
  function Compras(clientes: seq<Cliente>, c: Cliente): nat
    decreases |clientes|
  {
    if clientes == [] then 0
    else
      var n := |clientes| - 1;
      Compras(clientes[..n], c) + if clientes[n] == c then 1 else 0
  }

  lemma ComprasSnoc(clientes: seq<Cliente>, x: Cliente, c: Cliente)
    ensures Compras(clientes + [x], c) == Compras(clientes, c) + if x == c then 1 else 0
  {
    assert (clientes + [x])[..|clientes|] == clientes;
  }

  /** `e -> e.getValue()` of the purchase entries. */
  function ComprasDe(clientes: seq<Cliente>): Cliente -> int {
    (c: Cliente) => Compras(clientes, c)
  }

  /** A client has orders exactly when it is the client of one. */
  lemma {:induction false} ComprasPositivas(clientes: seq<Cliente>, c: Cliente)
    ensures Compras(clientes, c) > 0 <==> c in clientes
    decreases |clientes|
  {
    if clientes != [] {
      var n := |clientes| - 1;
      assert clientes == clientes[..n] + [clientes[n]];
      ComprasPositivas(clientes[..n], c);
    }
  }

  /** The purchase counts of `ks`, added up. */
  function SumaCompras(ks: seq<Cliente>, clientes: seq<Cliente>): int
    decreases |ks|
  {
    if ks == [] then 0 else SumaCompras(ks[..|ks| - 1], clientes) + Compras(clientes, ks[|ks| - 1])
  }

  lemma SumaComprasSnoc(ks: seq<Cliente>, c: Cliente, clientes: seq<Cliente>)
    ensures SumaCompras(ks + [c], clientes) == SumaCompras(ks, clientes) + Compras(clientes, c)
  {
    assert (ks + [c])[..|ks|] == ks;
  }

  /** One more order by `c` adds one to a sum over distinct clients that includes `c`, and nothing otherwise. */
  lemma {:induction false} SumaComprasPaso(ks: seq<Cliente>, front: seq<Cliente>, c: Cliente)
    requires SinRepetidos(ks)
    ensures SumaCompras(ks, front + [c]) == SumaCompras(ks, front) + if c in ks then 1 else 0
    decreases |ks|
  {
    if ks != [] {
      var n := |ks| - 1;
      assert ks == ks[..n] + [ks[n]];
      assert ks[n] !in ks[..n];
      SumaComprasPaso(ks[..n], front, c);
      ComprasSnoc(front, c, ks[n]);
    }
  }

  /** Every order is counted once: the purchase counts of all the clients add up to the number of orders. */
  lemma {:induction false} ComprasSuman(clientes: seq<Cliente>)
    ensures SumaCompras(Distintos(clientes), clientes) == |clientes|
    decreases |clientes|
  {
    if clientes != [] {
      var n := |clientes| - 1;
      var front, c := clientes[..n], clientes[n];
      assert clientes == front + [c];
      ComprasSuman(front);
      DistintosSnoc(front, c);
      var d := Distintos(front);
      SumaComprasPaso(d, front, c);
      if c !in d {
        SumaComprasSnoc(d, c, clientes);
        ComprasPositivas(front, c);
        ComprasSnoc(front, c, c);
      }
    }
  }

  /** `compras` and `claves` after counting the clients: the clients in order of first order, each with its count. */
  ghost predicate Contado(compras: map<Cliente, int>, claves: seq<Cliente>, clientes: seq<Cliente>) {
    && claves == Distintos(clientes)
    && (forall c :: c in compras ==> c in claves)
    && (forall c :: c in claves ==> c in compras)
    && (forall c :: c in compras ==> compras[c] == Compras(clientes, c))
  }

  /** `compras.merge(cliente, 1, Integer::sum)` keeps the map in step with one more order. */
  lemma ContadoPaso(compras: map<Cliente, int>, claves: seq<Cliente>, clientes: seq<Cliente>, c: Cliente)
    requires Contado(compras, claves, clientes)
    ensures c in compras ==> Contado(compras[c := compras[c] + 1], claves, clientes + [c])
    ensures c !in compras ==> Contado(compras[c := 1], claves + [c], clientes + [c])
  {
    if c in compras {
      ContadoPresente(compras, claves, clientes, c);
    } else {
      ContadoNuevo(compras, claves, clientes, c);
    }
  }

  lemma ContadoPresente(compras: map<Cliente, int>, claves: seq<Cliente>, clientes: seq<Cliente>, c: Cliente)
    requires Contado(compras, claves, clientes) && c in compras
    ensures Contado(compras[c := compras[c] + 1], claves, clientes + [c])
  {
    DistintosSnoc(clientes, c);
    assert c in Distintos(clientes);
    forall x {
      ComprasSnoc(clientes, c, x);
    }
  }

  lemma ContadoNuevo(compras: map<Cliente, int>, claves: seq<Cliente>, clientes: seq<Cliente>, c: Cliente)
    requires Contado(compras, claves, clientes) && c !in compras
    ensures Contado(compras[c := 1], claves + [c], clientes + [c])
  {
    DistintosSnoc(clientes, c);
    forall x {
      ComprasSnoc(clientes, c, x);
    }
    ComprasPositivas(clientes, c);
  }

  /** The second loop of generarDashboard: one purchase counted for the client of every order. */
  method ContarCompras(ordenes: seq<Orden>) returns (compras: map<Cliente, int>, claves: seq<Cliente>)
    ensures claves == Distintos(Clientes(ordenes))
    ensures forall c :: c in compras <==> c in claves
    ensures forall c :: c in compras ==> compras[c] == Compras(Clientes(ordenes), c)
  {
    compras, claves := map[], [];
    assert Clientes(ordenes[..0]) == [];
    for i := 0 to |ordenes|
      invariant Contado(compras, claves, Clientes(ordenes[..i]))
    {
      var c := ordenes[i].cliente;
      ContadoPaso(compras, claves, Clientes(ordenes[..i]), c);
      assert Clientes(ordenes[..i + 1]) == Clientes(ordenes[..i]) + [c];
      if c in compras {
        compras := compras[c := compras[c] + 1];
      } else {
        compras := compras[c := 1];
        claves := claves + [c];
      }
    }
    assert ordenes[..|ordenes|] == ordenes;
  }

  // ---------------------------------------------------------------------
  // The three listings
  // ---------------------------------------------------------------------

  /** How many products the first section lists at most. */
  const MaxTop: nat := 5

  /** The fewest orders a client needs to be listed as frequent. */
  const MinCompras: int := 3

  /** Products with a stock below this are critical. */
  const StockCritico: int := 5

  /** The revenue entries sorted by value, highest first, and cut to five. */
  function Top(ventas: seq<(Producto, real)>): seq<Producto> {
    NumericOrders();
    Limit(SortBy(Vendidos(ventas), IngresoDe(ventas), RealDesc), MaxTop)
  }

  /** A prefix of a sorted permutation of `s` is sorted and ranks no element of `s` it leaves out above one it keeps. */
  lemma PrefijoDeOrdenado<T>(s: seq<T>, r: seq<T>, top: seq<T>, key: T -> real)
    requires multiset(r) == multiset(s) && SortedBy(r, key, RealDesc)
    requires |top| <= |r| && top == r[..|top|]
    ensures forall p :: p in top ==> p in s
    ensures forall p, t :: p in s && p !in top && t in top ==> key(p) <= key(t)
  {
    forall p | p in top ensures p in s {
      assert p in multiset(r);
    }
    forall p, t | p in s && p !in top && t in top ensures key(p) <= key(t) {
      assert p in multiset(r);
      var a :| 0 <= a < |r| && r[a] == p;
      var b :| 0 <= b < |top| && top[b] == t;
      assert RealDesc(key(r[b]), key(r[a]));
    }
  }

  /**
   * The first section lists the five best-selling products (all of them
   * when fewer were sold), each once, highest revenue first; no product
   * left out sold more than one listed.
   */
  lemma TopCorrecto(ventas: seq<(Producto, real)>)
    ensures |Top(ventas)| == if |Vendidos(ventas)| < MaxTop then |Vendidos(ventas)| else MaxTop
    ensures SinRepetidos(Top(ventas))
    ensures forall i, j :: 0 <= i < j < |Top(ventas)| ==> Ingreso(ventas, Top(ventas)[i]) >= Ingreso(ventas, Top(ventas)[j])
    ensures forall p :: p in Top(ventas) ==> p in Vendidos(ventas)
    ensures forall p, t :: p in Vendidos(ventas) && p !in Top(ventas) && t in Top(ventas) ==> Ingreso(ventas, p) <= Ingreso(ventas, t)
  {
    NumericOrders();
    var key := IngresoDe(ventas);
    var s := Vendidos(ventas);
    var r := SortBy(s, key, RealDesc);
    SortByLength(s, key, RealDesc);
    var top := Limit(r, MaxTop);
    assert top == Top(ventas);
    PermutacionSinRepetidos(s, r);
    PrefijoDeOrdenado(s, r, top, key);
    forall i, j | 0 <= i < j < |top| ensures Ingreso(ventas, top[i]) >= Ingreso(ventas, top[j]) {
      assert RealDesc(key(r[i]), key(r[j]));
    }
    forall p, t | p in s && p !in top && t in top ensures Ingreso(ventas, p) <= Ingreso(ventas, t) {
      assert key(p) <= key(t);
    }
  }

  /** `e -> e.getValue() >= 3`. */
  function EsFrecuente(compras: Cliente -> int): Cliente -> bool {
    (c: Cliente) => compras(c) >= MinCompras
  }

  /** The purchase entries with three orders or more, sorted by count, highest first. */
  function Frecuentes(clientes: seq<Cliente>): seq<Cliente> {
    NumericOrders();
    SortBy(Filter(Distintos(clientes), EsFrecuente(ComprasDe(clientes))), ComprasDe(clientes), IntDesc)
  }

  /** The elements of a filtered and sorted sequence are those of the original that pass the filter. */
  lemma MiembroFiltradoOrdenado<T, K(!new)>(s: seq<T>, f: T -> bool, key: T -> K, le: (K, K) -> bool, x: T)
    requires TotalPreorder(le)
    ensures x in SortBy(Filter(s, f), key, le) <==> x in s && f(x)
  {
    var r := SortBy(Filter(s, f), key, le);
    assert x in r <==> x in multiset(r);
    FilterMember(s, f, x);
  }

  /** The second section lists exactly the clients with three orders or more, each once, most orders first. */
  lemma FrecuentesCorrecto(clientes: seq<Cliente>)
    ensures forall c :: c in Frecuentes(clientes) ==> Compras(clientes, c) >= MinCompras
    ensures forall c :: Compras(clientes, c) >= MinCompras ==> c in Frecuentes(clientes)
    ensures SinRepetidos(Frecuentes(clientes))
    ensures forall i, j :: 0 <= i < j < |Frecuentes(clientes)| ==>
      Compras(clientes, Frecuentes(clientes)[i]) >= Compras(clientes, Frecuentes(clientes)[j])
  {
    NumericOrders();
    var d := Distintos(clientes);
    var key := ComprasDe(clientes);
    var es := EsFrecuente(key);
    var f := Filter(d, es);
    var r := SortBy(f, key, IntDesc);
    assert r == Frecuentes(clientes);
    forall c | c in r ensures Compras(clientes, c) >= MinCompras {
      MiembroFiltradoOrdenado(d, es, key, IntDesc, c);
    }
    forall c | Compras(clientes, c) >= MinCompras ensures c in r {
      ComprasPositivas(clientes, c);
      MiembroFiltradoOrdenado(d, es, key, IntDesc, c);
    }
    FilterDistinct(d, es, (c: Cliente) => c);
    PermutacionSinRepetidos(f, r);
    forall i, j | 0 <= i < j < |r| ensures Compras(clientes, r[i]) >= Compras(clientes, r[j]) {
      assert IntDesc(key(r[i]), key(r[j]));
    }
  }

  /** The products whose stock is below five, in list order. */
  function Criticos(productos: seq<Producto>): (r: seq<Producto>)
    reads productos
    ensures forall p :: p in r ==> p in productos && p.stockActual < StockCritico
    ensures forall p :: p in productos && p.stockActual < StockCritico ==> p in r
    ensures IsSubsequence(r, productos)
    decreases |productos|
  {
    if productos == [] then []
    else
      var n := |productos| - 1;
      var front, p := productos[..n], productos[n];
      assert productos == front + [p];
      var r := Criticos(front);
      SubsecuenciaSnoc(r, front, p);
      if p.stockActual < StockCritico then r + [p] else r
  }

  /** A subsequence stays one when the sequence grows, and when both grow by the same element. */
  lemma {:induction false} SubsecuenciaSnoc<T>(r: seq<T>, s: seq<T>, x: T)
    requires IsSubsequence(r, s)
    ensures IsSubsequence(r, s + [x]) && IsSubsequence(r + [x], s + [x])
    decreases |s|
  {
    if s == [] {
      assert r == [];
      assert [x][1..] == [];
      assert r + [x] == [x] == s + [x];
    } else {
      assert (s + [x])[1..] == s[1..] + [x];
      if r != [] && r[0] == s[0] && IsSubsequence(r[1..], s[1..]) {
        SubsecuenciaSnoc(r[1..], s[1..], x);
        assert (r + [x])[1..] == r[1..] + [x];
      } else {
        SubsecuenciaSnoc(r, s[1..], x);
      }
    }
  }

  // ---------------------------------------------------------------------
  // The text
  // ---------------------------------------------------------------------

  const Titulo: string := "=== DASHBOARD DE OPERACIONES ===\n\n"
  const EncabezadoTop: string := "TOP 5 PRODUCTOS POR INGRESOS\n"
  const EncabezadoClientes: string := "\nCLIENTES FRECUENTES\n"
  const EncabezadoCriticos: string := "\nEXISTENCIAS CRÍTICAS (stock < 5)\n"

  function LineaTop(p: Producto, ingreso: real, rt: Runtime): string {
    "• " + p.nombre + ": $" + rt.format2(ingreso) + "\n"
  }

  function LineasTop(top: seq<Producto>, ventas: seq<(Producto, real)>, rt: Runtime): string
    decreases |top|
  {
    if top == [] then ""
    else LineasTop(top[..|top| - 1], ventas, rt) + LineaTop(top[|top| - 1], Ingreso(ventas, top[|top| - 1]), rt)
  }

  lemma LineasTopSnoc(top: seq<Producto>, k: nat, ventas: seq<(Producto, real)>, rt: Runtime)
    requires k < |top|
    ensures LineasTop(top[..k + 1], ventas, rt) == LineasTop(top[..k], ventas, rt) + LineaTop(top[k], Ingreso(ventas, top[k]), rt)
  {
    assert top[..k + 1][..k] == top[..k];
  }

  function LineaCliente(c: Cliente, compras: int): string {
    "• " + c.nombre + ": " + IntToString(compras) + " compras\n"
  }

  function LineasClientes(frecuentes: seq<Cliente>, clientes: seq<Cliente>): string
    decreases |frecuentes|
  {
    if frecuentes == [] then ""
    else
      var n := |frecuentes| - 1;
      LineasClientes(frecuentes[..n], clientes) + LineaCliente(frecuentes[n], Compras(clientes, frecuentes[n]))
  }

  function LineaCritico(p: Producto): string
    reads p
  {
    "• " + p.nombre + " (" + p.codigo + "): " + IntToString(p.stockActual) + "\n"
  }

  function LineasCriticos(criticos: seq<Producto>): string
    reads set p | p in criticos
    decreases |criticos|
  {
    if criticos == [] then ""
    else LineasCriticos(criticos[..|criticos| - 1]) + LineaCritico(criticos[|criticos| - 1])
  }

  /**
   * The dashboard: the title, then the three sections, each under its
   * heading, in this order. Without orders the first two sections are
   * empty; without a product under the critical stock the last one is.
   */
  function Tablero(productos: seq<Producto>, ordenes: seq<Orden>, rt: Runtime): (r: string)
    reads productos
    reads set o | o in ordenes
    reads Alcance(ordenes)
    ensures StartsWith(r, Titulo + EncabezadoTop)
    ensures ordenes == [] ==>
      r == Titulo + EncabezadoTop + EncabezadoClientes + EncabezadoCriticos + LineasCriticos(Criticos(productos))
    ensures (forall p :: p in productos ==> p.stockActual >= StockCritico) ==>
      |r| >= |EncabezadoCriticos| && r[|r| - |EncabezadoCriticos|..] == EncabezadoCriticos
  {
    SeccionesVacias(productos, ordenes);
    var ventas := Ventas(ordenes);
    var clientes := Clientes(ordenes);
    Ensamblar(LineasTop(Top(ventas), ventas, rt), LineasClientes(Frecuentes(clientes), clientes),
              LineasCriticos(Criticos(productos)))
  }

  /** The title and the three section bodies, each under its heading. */
  function Ensamblar(top: string, clientes: string, criticos: string): (r: string)
    ensures StartsWith(r, Titulo + EncabezadoTop)
    ensures top == "" && clientes == "" ==>
      r == Titulo + EncabezadoTop + EncabezadoClientes + EncabezadoCriticos + criticos
    ensures criticos == "" ==> |r| >= |EncabezadoCriticos| && r[|r| - |EncabezadoCriticos|..] == EncabezadoCriticos
  {
    var cabeza := Titulo + EncabezadoTop;
    var medio := top + EncabezadoClientes + clientes;
    var cola := EncabezadoCriticos + criticos;
    assert (cabeza + medio + cola)[..|cabeza|] == cabeza;
    assert (cabeza + medio + cola)[|cabeza + medio|..] == cola;
    cabeza + medio + cola
  }

  /** Without orders nothing is ranked; without a product under the critical stock nothing is critical. */
  lemma SeccionesVacias(productos: seq<Producto>, ordenes: seq<Orden>)
    ensures ordenes == [] ==> Top(Ventas(ordenes)) == [] && Frecuentes(Clientes(ordenes)) == []
    ensures (forall p :: p in productos ==> p.stockActual >= StockCritico) ==> Criticos(productos) == []
  {
    if ordenes == [] {
      assert Ventas(ordenes) == [];
      assert Vendidos([]) == [];
      assert Clientes(ordenes) == [];
    }
    if forall p :: p in productos ==> p.stockActual >= StockCritico {
      var c := Criticos(productos);
      if c != [] {
        assert c[0] in c;
      }
    }
  }

  /**
   * Sorting the revenue map's keys by the value each maps to, and cutting
   * to five, gives the five best-selling products; each of them is a key
   * mapped to its revenue.
   */
  lemma TopDelMapa(ingresos: map<Producto, real>, claves: seq<Producto>, ventas: seq<(Producto, real)>, monto: Producto -> real)
    requires Acumulado(ingresos, claves, ventas)
    requires forall p :: monto(p) == if p in ingresos then ingresos[p] else 0.0
    ensures Limit(SortBy(claves, monto, RealDesc), MaxTop) == Top(ventas)
    ensures forall p :: p in Top(ventas) ==> p in ingresos && ingresos[p] == Ingreso(ventas, p)
  {
    NumericOrders();
    forall p | p in claves ensures monto(p) == IngresoDe(ventas)(p) {
    }
    SortByAgree(claves, monto, IngresoDe(ventas), RealDesc);
    TopCorrecto(ventas);
  }

  /**
   * The revenue map built, and its entries sorted by value, highest first,
   * and cut to five: the five best-selling products, each with the revenue
   * the map holds for it.
   */
  method RankingIngresos(ordenes: seq<Orden>) returns (top: seq<Producto>, ingresos: map<Producto, real>)
    ensures top == Top(Ventas(ordenes))
    ensures forall p :: p in top ==> p in ingresos && ingresos[p] == Ingreso(Ventas(ordenes), p)
  {
    var productosVendidos;
    ingresos, productosVendidos := AcumularIngresos(ordenes);
    ghost var ventas := Ventas(ordenes);
    var monto: Producto -> real := (p: Producto) => if p in ingresos then ingresos[p] else 0.0;
    assert TotalPreorder(RealDesc) by {
      NumericOrders();
    }
    top := Limit(SortBy(productosVendidos, monto, RealDesc), MaxTop);
    TopDelMapa(ingresos, productosVendidos, ventas, monto);
  }

  /** The first section's lines: one per best-selling product, with the revenue the map holds for it. */
  method SeccionTop(ordenes: seq<Orden>, rt: Runtime) returns (lineas: string)
    ensures lineas == LineasTop(Top(Ventas(ordenes)), Ventas(ordenes), rt)
  {
    var top, ingresos := RankingIngresos(ordenes);
    ghost var ventas := Ventas(ordenes);
    lineas := LineasDelRanking(top, ingresos, ordenes, ventas, rt);
  }

  /** One line per ranked product, in ranking order, with the revenue the map holds for it. */
  method LineasDelRanking(top: seq<Producto>, ingresos: map<Producto, real>, ghost ordenes: seq<Orden>,
                          ghost ventas: seq<(Producto, real)>, rt: Runtime)
    returns (lineas: string)
    requires ventas == Ventas(ordenes)
    requires forall p :: p in top ==> p in ingresos && ingresos[p] == Ingreso(ventas, p)
    ensures ventas == Ventas(ordenes)
    ensures lineas == LineasTop(top, ventas, rt)
  {
    lineas := "";
    for k := 0 to |top|
      invariant ventas == Ventas(ordenes)
      invariant lineas == LineasTop(top[..k], ventas, rt)
    {
      LineasTopSnoc(top, k, ventas, rt);
      assert top[k] in top;
      lineas := lineas + LineaTop(top[k], ingresos[top[k]], rt);
    }
    assert top[..|top|] == top;
  }

  /**
   * Keeping the purchase map's keys whose count is three or more, and
   * sorting them by count, gives the frequent clients; each of them is a
   * key mapped to its number of orders.
   */
  lemma FrecuentesDelMapa(compras: map<Cliente, int>, claves: seq<Cliente>, clientes: seq<Cliente>, cuenta: Cliente -> int)
    requires Contado(compras, claves, clientes)
    requires forall c :: cuenta(c) == if c in compras then compras[c] else 0
    ensures SortBy(Filter(claves, EsFrecuente(cuenta)), cuenta, IntDesc) == Frecuentes(clientes)
    ensures forall c :: c in Frecuentes(clientes) ==> c in compras && compras[c] == Compras(clientes, c)
  {
    NumericOrders();
    forall c | c in claves ensures EsFrecuente(cuenta)(c) == EsFrecuente(ComprasDe(clientes))(c) {
    }
    FilterAgree(claves, EsFrecuente(cuenta), EsFrecuente(ComprasDe(clientes)));
    var elegidos := Filter(claves, EsFrecuente(cuenta));
    forall c | c in elegidos ensures cuenta(c) == ComprasDe(clientes)(c) {
      FilterMember(claves, EsFrecuente(cuenta), c);
    }
    SortByAgree(elegidos, cuenta, ComprasDe(clientes), IntDesc);
    FrecuentesCorrecto(clientes);
    forall c | c in Frecuentes(clientes) ensures c in compras {
      ComprasPositivas(clientes, c);
    }
  }

  /** The second section's lines: the purchase entries filtered and ranked, one line each. */
  method SeccionClientes(ordenes: seq<Orden>) returns (lineas: string)
    ensures lineas == LineasClientes(Frecuentes(Clientes(ordenes)), Clientes(ordenes))
  {
    var compras, clientes := ContarCompras(ordenes);
    ghost var todos := Clientes(ordenes);
    var cuenta: Cliente -> int := (c: Cliente) => if c in compras then compras[c] else 0;
    assert TotalPreorder(IntDesc) by {
      NumericOrders();
    }
    var frecuentes := SortBy(Filter(clientes, EsFrecuente(cuenta)), cuenta, IntDesc);
    assert frecuentes == Frecuentes(todos) && forall c :: c in frecuentes ==> c in compras && compras[c] == Compras(todos, c) by {
      FrecuentesDelMapa(compras, clientes, todos, cuenta);
    }
    lineas := EscribirClientes(frecuentes, compras, todos);
  }

  /** One line per frequent client, with the count the purchase map holds for it. */
  method EscribirClientes(frecuentes: seq<Cliente>, compras: map<Cliente, int>, ghost clientes: seq<Cliente>) returns (lineas: string)
    requires forall c :: c in frecuentes ==> c in compras && compras[c] == Compras(clientes, c)
    ensures lineas == LineasClientes(frecuentes, clientes)
  {
    lineas := "";
    for k := 0 to |frecuentes|
      invariant lineas == LineasClientes(frecuentes[..k], clientes)
    {
      assert frecuentes[..k + 1][..k] == frecuentes[..k];
      lineas := lineas + ("• " + frecuentes[k].nombre + ": " + IntToString(compras[frecuentes[k]]) + " compras\n");
    }
    assert frecuentes[..|frecuentes|] == frecuentes;
  }

  /** The third section's lines: one per product whose stock is below five, in list order. */
  method SeccionCriticos(productos: seq<Producto>) returns (lineas: string)
    ensures lineas == LineasCriticos(Criticos(productos))
  {
    lineas := "";
    assert productos[..0] == [];
    for k := 0 to |productos|
      invariant lineas == LineasCriticos(Criticos(productos[..k]))
    {
      var p := productos[k];
      assert productos[..k + 1] == productos[..k] + [p];
      assert productos[..k + 1][..k] == productos[..k];
      if p.stockActual < StockCritico {
        var c := Criticos(productos[..k]);
        assert (c + [p])[..|c|] == c;
        lineas := lineas + ("• " + p.nombre + " (" + p.codigo + "): " + IntToString(p.stockActual) + "\n");
      }
    }
    assert productos[..|productos|] == productos;
  }

  /**
   * generarDashboard: the title and the three sections under their
   * headings. No section changes any object, so the one that reads the
   * orders' items is computed last.
   */
  method GenerarDashboard(productos: seq<Producto>, ordenes: seq<Orden>, rt: Runtime) returns (texto: string)
    ensures texto == Tablero(productos, ordenes, rt)
  {
    var clientes := SeccionClientes(ordenes);
    var criticos := SeccionCriticos(productos);
    var top := SeccionTop(ordenes, rt);
    texto := Ensamblar(top, clientes, criticos);
  }
}
