/**
 * Catalogo: the in-memory product list of the catalogue screen, with its
 * add / edit / delete rules, its searches, its sorted views and its lookups.
 * The list holds the product objects themselves, so the product an order
 * looks up here is the very object whose stock finalisation changes.
 */
module Catalogos {
  import opened Outcomes
  import opened JavaText
  import opened Streams
  import opened Dominio

  /** `p -> p.getCodigo().equals(codigo)`. */
  function MismoCodigo(codigo: string): (f: Producto -> bool)
  {
    (p: Producto) => p.codigo == codigo
  }

  /** `p -> !p.getCodigo().equals(codigo)`: what removeIf keeps. */
  function OtroCodigo(codigo: string): (f: Producto -> bool)
  {
    (p: Producto) => p.codigo != codigo
  }

  /** Some product of `s` has the code. */
  ghost predicate HayCodigo(s: seq<Producto>, codigo: string) {
    exists i :: 0 <= i < |s| && s[i].codigo == codigo
  }

  /** No product before position `i` has the code. */
  ghost predicate ConCodigoAntes(s: seq<Producto>, i: nat, codigo: string)
    requires i <= |s|
  {
    forall j :: 0 <= j < i ==> s[j].codigo != codigo
  }

  /** No two positions of `s` hold products with the same code. */
  ghost predicate CodigosUnicos(s: seq<Producto>) {
    forall i, j :: 0 <= i < j < |s| ==> s[i].codigo != s[j].codigo
  }

  /** The two sequences hold products with the same codes at every position. */
  ghost predicate MismosCodigos(a: seq<Producto>, b: seq<Producto>) {
    |a| == |b| && forall i :: 0 <= i < |a| ==> a[i].codigo == b[i].codigo
  }

  /**
   * What editarProducto does to the list: the first product with the code of
   * `p` is replaced by `p` at its position; without one, nothing changes.
   */
  function Reemplazar(s: seq<Producto>, p: Producto): (r: seq<Producto>)
    ensures |r| == |s|
  {
    match FirstIndex(s, MismoCodigo(p.codigo))
    case None => s
    case Some(i) => s[i := p]
  }

  /**
   * The replacement keeps every code in place, puts `p` in the list when its
   * code is there, changes only a position holding that code, and changes
   * nothing when the code is absent.
   */
  lemma ReemplazarEfecto(s: seq<Producto>, p: Producto)
    ensures MismosCodigos(s, Reemplazar(s, p))
    ensures HayCodigo(s, p.codigo) ==> p in Reemplazar(s, p)
    ensures !HayCodigo(s, p.codigo) ==> Reemplazar(s, p) == s
    ensures forall i :: 0 <= i < |s| ==>
      Reemplazar(s, p)[i] == s[i] || (Reemplazar(s, p)[i] == p && s[i].codigo == p.codigo)
  {
    var f := FirstIndex(s, MismoCodigo(p.codigo));
    if HayCodigo(s, p.codigo) {
      var k :| 0 <= k < |s| && s[k].codigo == p.codigo;
      assert MismoCodigo(p.codigo)(s[k]);
    }
  }

  /** A product that is already the first with its code is replaced by itself. */
  lemma ReemplazarPropio(s: seq<Producto>, p: Producto)
    requires CodigosUnicos(s) && p in s
    ensures Reemplazar(s, p) == s
  {
    var k :| 0 <= k < |s| && s[k] == p;
    var f := FirstIndex(s, MismoCodigo(p.codigo));
    assert MismoCodigo(p.codigo)(s[k]);
    assert f.Some?;
    assert s[f.value].codigo == s[k].codigo;
    assert f.value == k;
    assert s[k := p] == s;
  }

  /** Appending a product whose code is not taken keeps the codes unique. */
  lemma UnicosTrasAgregar(s: seq<Producto>, p: Producto)
    requires CodigosUnicos(s) && !HayCodigo(s, p.codigo)
    ensures CodigosUnicos(s + [p])
  {
    var r := s + [p];
    forall i, j | 0 <= i < j < |r| ensures r[i].codigo != r[j].codigo {
      if j == |s| {
        assert r[i] == s[i];
      } else {
        assert r[i] == s[i] && r[j] == s[j];
      }
    }
  }

  /** Replacing products by ones with the same codes keeps the codes unique. */
  lemma UnicosTrasReemplazar(s: seq<Producto>, p: Producto)
    requires CodigosUnicos(s)
    ensures CodigosUnicos(Reemplazar(s, p))
  {
    var r := Reemplazar(s, p);
    ReemplazarEfecto(s, p);
    forall i, j | 0 <= i < j < |r| ensures r[i].codigo != r[j].codigo {
      assert r[i].codigo == s[i].codigo && r[j].codigo == s[j].codigo;
    }
  }

  /** removeIf leaves no product with the code and keeps every other one, in order. */
  lemma EliminarQuitaCodigo(s: seq<Producto>, codigo: string)
    ensures !HayCodigo(Filter(s, OtroCodigo(codigo)), codigo)
    ensures forall i :: 0 <= i < |s| && s[i].codigo != codigo ==> s[i] in Filter(s, OtroCodigo(codigo))
    ensures !HayCodigo(s, codigo) ==> Filter(s, OtroCodigo(codigo)) == s
  {
    var r := Filter(s, OtroCodigo(codigo));
    forall i | 0 <= i < |r| ensures r[i].codigo != codigo {
      assert OtroCodigo(codigo)(r[i]);
    }
    forall i | 0 <= i < |s| && s[i].codigo != codigo ensures s[i] in r {
      FilterMember(s, OtroCodigo(codigo), s[i]);
    }
    if !HayCodigo(s, codigo) {
      FilterAll(s, OtroCodigo(codigo));
    }
  }

  /** removeIf keeps the codes unique: what is left is a subsequence. */
  lemma UnicosTrasEliminar(s: seq<Producto>, codigo: string)
    requires CodigosUnicos(s)
    ensures CodigosUnicos(Filter(s, OtroCodigo(codigo)))
  {
    FilterDistinct(s, OtroCodigo(codigo), (p: Producto) => p.codigo);
  }

  /** The sort key of the price sorts: each product's price, read once before sorting. */
  function Precios(s: seq<Producto>): (Producto -> real)
    reads s
  {
    var precios := map p | p in s :: p.precio;
    (p: Producto) => if p in precios then precios[p] else 0.0
  }

  /** The sort key of the stock sorts: each product's stock, read once before sorting. */
  function Stocks(s: seq<Producto>): (Producto -> int)
    reads s
  {
    var stocks := map p | p in s :: p.stockActual;
    (p: Producto) => if p in stocks then stocks[p] else 0
  }

  /** Sorting by a snapshot of the prices orders the products by their prices. */
  lemma OrdenPorPrecio(s: seq<Producto>, r: seq<Producto>, key: Producto -> real, le: (real, real) -> bool)
    requires forall p :: p in s ==> key(p) == p.precio
    requires multiset(r) == multiset(s) && SortedBy(r, key, le)
    ensures forall i, j :: 0 <= i < j < |r| ==> le(r[i].precio, r[j].precio)
  {
    forall i, j | 0 <= i < j < |r| ensures le(r[i].precio, r[j].precio) {
      assert r[i] in multiset(s) && r[j] in multiset(s);
    }
  }

  /** Sorting by a snapshot of the stocks orders the products by their stocks. */
  lemma OrdenPorStock(s: seq<Producto>, r: seq<Producto>, key: Producto -> int, le: (int, int) -> bool)
    requires forall p :: p in s ==> key(p) == p.stockActual
    requires multiset(r) == multiset(s) && SortedBy(r, key, le)
    ensures forall i, j :: 0 <= i < j < |r| ==> le(r[i].stockActual, r[j].stockActual)
  {
    forall i, j | 0 <= i < j < |r| ensures le(r[i].stockActual, r[j].stockActual) {
      assert r[i] in multiset(s) && r[j] in multiset(s);
    }
  }

  class Catalogo {
    var productos: seq<Producto>

    /** Every product in the catalogue satisfies its own invariant. */
    ghost predicate Valid()
      reads this, productos
    {
      forall i :: 0 <= i < |productos| ==> productos[i].Valid()
    }

    /** A catalogue holding the list the repository read. */
    constructor (productos: seq<Producto>)
      requires forall i :: 0 <= i < |productos| ==> productos[i].Valid()
      ensures Valid() && this.productos == productos
    {
      this.productos := productos;
    }

    /** existeProducto: some product has the code. */
    function ExisteProducto(codigo: string): (b: bool)
      reads this
      ensures b <==> HayCodigo(productos, codigo)
    {
      AnyMatchExists(productos, MismoCodigo(codigo));
      AnyMatch(productos, MismoCodigo(codigo))
    }

    /** obtenerPorCodigo: the first product with the code, the live object, or null. */
    function ObtenerPorCodigo(codigo: string): (r: Option<Producto>)
      reads this
      ensures r.Some? <==> HayCodigo(productos, codigo)
      ensures r.Some? ==> r.value.codigo == codigo
      ensures r.Some? ==> exists i :: 0 <= i < |productos| && productos[i] == r.value && ConCodigoAntes(productos, i, codigo)
    {
      var r := FindFirst(productos, MismoCodigo(codigo));
      if r.Some? then
        var i := FirstIndex(productos, MismoCodigo(codigo)).value;
        assert productos[i] == r.value && forall j :: 0 <= j < i ==> !MismoCodigo(codigo)(productos[j]);
        r
      else
        r
    }

    /** agregarProducto: a taken code is refused and the list kept; otherwise the product goes last. */
    method AgregarProducto(producto: Producto) returns (r: Outcome)
      requires Valid() && producto.Valid()
      modifies this`productos
      ensures Valid()
      ensures old(HayCodigo(productos, producto.codigo)) ==> r == Fail(ProductoDuplicado) && productos == old(productos)
      ensures !old(HayCodigo(productos, producto.codigo)) ==> r == Pass && productos == old(productos) + [producto]
    {
      if ExisteProducto(producto.codigo) {
        return Fail(ProductoDuplicado);
      }
      productos := productos + [producto];
      return Pass;
    }

    /**
     * editarProducto: the first product with the same code is replaced at its
     * position; without one, ProductoNoEncontrado and nothing changes.
     */
    method EditarProducto(producto: Producto) returns (r: Outcome)
      requires Valid() && producto.Valid()
      modifies this`productos
      ensures Valid()
      ensures r.Pass? <==> old(HayCodigo(productos, producto.codigo))
      ensures r.Fail? ==> r.error == ProductoNoEncontrado && productos == old(productos)
      ensures r.Pass? ==> productos == Reemplazar(old(productos), producto)
    {
      for i := 0 to |productos|
        invariant productos == old(productos)
        invariant forall j :: 0 <= j < i ==> productos[j].codigo != producto.codigo
      {
        if productos[i].codigo == producto.codigo {
          ghost var antes := productos;
          productos := productos[i := producto];
          assert FirstIndex(antes, MismoCodigo(producto.codigo)) == Some(i);
          return Pass;
        }
      }
      return Fail(ProductoNoEncontrado);
    }

    /** eliminarProducto: every product with the code is removed (removeIf); others stay in order. */
    method EliminarProducto(codigo: string)
      requires Valid()
      modifies this`productos
      ensures Valid()
      ensures productos == Filter(old(productos), OtroCodigo(codigo))
    {
      productos := Filter(productos, OtroCodigo(codigo));
      assert Valid() by {
        forall i | 0 <= i < |productos| ensures productos[i].Valid() {
          assert productos[i] in multiset(old(productos));
        }
      }
    }

    /** buscarPorNombre: the products whose lower-cased name contains the lower-cased text, in order. */
    function BuscarPorNombre(nombre: string): (r: seq<Producto>)
      reads this
      ensures forall i :: 0 <= i < |r| ==> Contains(ToLower(r[i].nombre), ToLower(nombre))
      ensures forall i :: 0 <= i < |productos| ==>
        (productos[i] in r <==> Contains(ToLower(productos[i].nombre), ToLower(nombre)))
      ensures IsSubsequence(r, productos)
    {
      var q := ToLower(nombre);
      var f := (p: Producto) => Contains(ToLower(p.nombre), q);
      var r := Filter(productos, f);
      assert forall i :: 0 <= i < |productos| ==> (productos[i] in r <==> f(productos[i])) by {
        forall i | 0 <= i < |productos| ensures productos[i] in r <==> f(productos[i]) {
          FilterMember(productos, f, productos[i]);
        }
      }
      r
    }

    /** ordenarPorPrecioAsc: the same products, cheapest first; the catalogue is left as it is. */
    function OrdenarPorPrecioAsc(): (r: seq<Producto>)
      reads this, productos
      ensures multiset(r) == multiset(productos)
      ensures forall i, j :: 0 <= i < j < |r| ==> r[i].precio <= r[j].precio
      ensures forall v ::  // ties keep the list's order
        Filter(r, Empatados(Precios(productos), RealAsc, v)) == Filter(productos, Empatados(Precios(productos), RealAsc, v))
    {
      var key := Precios(productos);
      NumericOrders();
      var r := SortBy(productos, key, RealAsc);
      OrdenPorPrecio(productos, r, key, RealAsc);
      SortByEstableTodos(productos, key, RealAsc);
      r
    }

    /** ordenarPorStockDesc: the same products, largest stock first. */
    function OrdenarPorStockDesc(): (r: seq<Producto>)
      reads this, productos
      ensures multiset(r) == multiset(productos)
      ensures forall i, j :: 0 <= i < j < |r| ==> r[i].stockActual >= r[j].stockActual
      ensures forall v ::  // ties keep the list's order
        Filter(r, Empatados(Stocks(productos), IntDesc, v)) == Filter(productos, Empatados(Stocks(productos), IntDesc, v))
    {
      var key := Stocks(productos);
      NumericOrders();
      var r := SortBy(productos, key, IntDesc);
      OrdenPorStock(productos, r, key, IntDesc);
      SortByEstableTodos(productos, key, IntDesc);
      r
    }

    /** tieneDuplicados: true as soon as a code is met a second time. */
    method TieneDuplicados() returns (b: bool)
      ensures b <==> !CodigosUnicos(productos)
    {
      var codigos: set<string> := {};
      for k := 0 to |productos|
        invariant codigos == set i | 0 <= i < k :: productos[i].codigo
        invariant CodigosUnicos(productos[..k])
      {
        var c := productos[k].codigo;
        if c in codigos {
          var i :| 0 <= i < k && productos[i].codigo == c;
          assert productos[i].codigo == productos[k].codigo;
          return true;
        }
        assert CodigosUnicos(productos[..k + 1]) by {
          forall i, j | 0 <= i < j <= k ensures productos[i].codigo != productos[j].codigo {
            if j < k {
              assert productos[..k][i] == productos[i] && productos[..k][j] == productos[j];
            }
          }
        }
        codigos := codigos + {c};
      }
      assert productos[..|productos|] == productos;
      return false;
    }

    /** getProductos: a new list with the same products; writing to it leaves the catalogue alone. */
    method GetProductos() returns (copia: array<Producto>)
      ensures fresh(copia) && copia[..] == productos
    {
      copia := new Producto[|productos|](k requires 0 <= k < |productos| reads this => productos[k]);
    }
  }
}
