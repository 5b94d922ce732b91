/**
 * ProductoRepositorioCSV: the inventory's products in a map keyed by code,
 * loaded from and saved to the six-column file data/productos.csv in the
 * form Producto.toString writes.
 */
module RepositoriosMapa {
  import opened Outcomes
  import opened JavaText
  import opened Platform
  import opened Dominio
  import opened Registros

  /** The header guardarTodos writes first: "codigo,nombre,categoria,precio,stockMin,stockActual". */
  const CabeceraSeis: string := "codigo,nombre,categoria," + "precio,stockMin,stockActual"

  /** The lines cargar and importarDesdeCSV pass over: blank ones and any starting with "codigo,". */
  predicate Omitida(linea: string) {
    IsBlank(linea) || StartsWith(linea, "codigo,")
  }

  /**
   * `new Producto(campos[0], campos[1], campos[2], parseDouble(campos[3]),
   * parseInt(campos[4]), parseInt(campos[5]))`: the three numbers parsed
   * left to right, the first failure a NumberFormatException carrying the
   * field that would not parse, then the constructor's checks. Nothing is
   * trimmed.
   */
  function FichaDeCampos(campos: seq<string>, rt: Runtime): (r: Result<Ficha>)
    requires |campos| == 6
    ensures rt.parseDouble(campos[3]).None? ==> r == Failure(FormatoNumerico(campos[3]))
    ensures rt.parseDouble(campos[3]).Some? && rt.parseInt(campos[4]).None? ==> r == Failure(FormatoNumerico(campos[4]))
    ensures rt.parseDouble(campos[3]).Some? && rt.parseInt(campos[4]).Some? && rt.parseInt(campos[5]).None? ==>
      r == Failure(FormatoNumerico(campos[5]))
    ensures r.Success? <==>
      && rt.parseDouble(campos[3]).Some? && rt.parseInt(campos[4]).Some? && rt.parseInt(campos[5]).Some?
      && ValidarProducto(rt.parseDouble(campos[3]).value, rt.parseInt(campos[4]).value, rt.parseInt(campos[5]).value).Pass?
    ensures r.Success? ==> r.value.codigo == campos[0] && r.value.nombre == campos[1] && r.value.categoria == campos[2]
    ensures r.Success? ==> Some(r.value.precio) == rt.parseDouble(campos[3])
    ensures r.Success? ==> Some(r.value.stockMin) == rt.parseInt(campos[4]) && Some(r.value.stockActual) == rt.parseInt(campos[5])
    ensures r.Success? ==> ValidarProducto(r.value.precio, r.value.stockMin, r.value.stockActual).Pass?
  {
    match rt.parseDouble(campos[3])
    case None => Failure(FormatoNumerico(campos[3]))
    case Some(precio) =>
      match rt.parseInt(campos[4])
      case None => Failure(FormatoNumerico(campos[4]))
      case Some(stockMin) =>
        match rt.parseInt(campos[5])
        case None => Failure(FormatoNumerico(campos[5]))
        case Some(stockActual) =>
          var v := ValidarProducto(precio, stockMin, stockActual);
          if v.Fail? then Failure(v.error)
          else Success(Ficha(campos[0], campos[1], campos[2], precio, stockMin, stockActual))
  }

  /** Where a load stands: the first error met, if any, and the products by code so far. */
  datatype Carga = Carga(resultado: Outcome, fichas: map<string, Ficha>)

  /** One line of cargar: skipped lines and lines without six fields change nothing. */
  function Paso(fichas: map<string, Ficha>, linea: string, rt: Runtime): Carga {
    if Omitida(linea) then Carga(Pass, fichas)
    else
      var campos := JavaSplit(linea);
      if |campos| != 6 then Carga(Pass, fichas)
      else match FichaDeCampos(campos, rt)
        case Failure(e) => Carga(Fail(e), fichas)
        case Success(f) => Carga(Pass, fichas[f.codigo := f])
  }

  /** cargar over the lines, from `fichas`: line after line until the first error, which ends it. */
  function Cargadas(fichas: map<string, Ficha>, lineas: seq<string>, rt: Runtime): Carga
    decreases |lineas|
  {
    if lineas == [] then Carga(Pass, fichas)
    else
      var antes := Cargadas(fichas, lineas[..|lineas| - 1], rt);
      if antes.resultado.Fail? then antes else Paso(antes.fichas, lineas[|lineas| - 1], rt)
  }

  /** After an error-free prefix, the next line is one more step. */
  lemma CargadasPaso(fichas: map<string, Ficha>, lineas: seq<string>, i: nat, rt: Runtime)
    requires i < |lineas| && Cargadas(fichas, lineas[..i], rt).resultado.Pass?
    ensures Cargadas(fichas, lineas[..i + 1], rt) == Paso(Cargadas(fichas, lineas[..i], rt).fichas, lineas[i], rt)
  {
    assert lineas[..i + 1][..i] == lineas[..i];
  }

  /** After an error-free load, one more line is one more step. */
  lemma CargadasSnoc(fichas: map<string, Ficha>, lineas: seq<string>, l: string, rt: Runtime)
    requires Cargadas(fichas, lineas, rt).resultado.Pass?
    ensures Cargadas(fichas, lineas + [l], rt) == Paso(Cargadas(fichas, lineas, rt).fichas, l, rt)
  {
    assert (lineas + [l])[..|lineas|] == lineas;
  }

  /** An error ends the load: the lines after it are not read. */
  lemma {:induction false} FallaPersiste(fichas: map<string, Ficha>, lineas: seq<string>, k: nat, rt: Runtime)
    requires k <= |lineas| && Cargadas(fichas, lineas[..k], rt).resultado.Fail?
    ensures Cargadas(fichas, lineas, rt) == Cargadas(fichas, lineas[..k], rt)
    decreases |lineas|
  {
    if k < |lineas| {
      var front := lineas[..|lineas| - 1];
      assert front[..k] == lineas[..k];
      FallaPersiste(fichas, front, k, rt);
    } else {
      assert lineas[..k] == lineas;
    }
  }

  /** The products put one after the other into the map, each under its code: a later one wins. */
  function Poner(fichas: map<string, Ficha>, fs: seq<Ficha>): map<string, Ficha>
    decreases |fs|
  {
    if fs == [] then fichas else Poner(fichas, fs[..|fs| - 1])[fs[|fs| - 1].codigo := fs[|fs| - 1]]
  }

  /** The map holds the keys it had and the codes put. */
  lemma {:induction false} PonerClaves(fichas: map<string, Ficha>, fs: seq<Ficha>)
    ensures Poner(fichas, fs).Keys == fichas.Keys + set f | f in fs :: f.codigo
    decreases |fs|
  {
    if fs != [] {
      var front, f := fs[..|fs| - 1], fs[|fs| - 1];
      PonerClaves(fichas, front);
      assert fs == front + [f];
      assert (set g | g in fs :: g.codigo) == (set g | g in front :: g.codigo) + {f.codigo};
    }
  }

  /** A code put maps to the last product put with it. */
  lemma {:induction false} PonerUltimo(fichas: map<string, Ficha>, fs: seq<Ficha>, i: nat)
    requires i < |fs| && forall j :: i < j < |fs| ==> fs[j].codigo != fs[i].codigo
    ensures fs[i].codigo in Poner(fichas, fs) && Poner(fichas, fs)[fs[i].codigo] == fs[i]
    decreases |fs|
  {
    if i < |fs| - 1 {
      var front := fs[..|fs| - 1];
      assert front[i] == fs[i];
      assert forall j :: i < j < |front| ==> front[j] == fs[j];
      PonerUltimo(fichas, front, i);
    }
  }

  /** A code never put keeps what it had. */
  lemma {:induction false} PonerOtros(fichas: map<string, Ficha>, fs: seq<Ficha>, c: string)
    requires c in fichas && forall j :: 0 <= j < |fs| ==> fs[j].codigo != c
    ensures c in Poner(fichas, fs) && Poner(fichas, fs)[c] == fichas[c]
    decreases |fs|
  {
    if fs != [] {
      var front := fs[..|fs| - 1];
      assert forall j :: 0 <= j < |front| ==> front[j] == fs[j];
      PonerOtros(fichas, front, c);
    }
  }

  // ---------------------------------------------------------------------
  // The six-column line
  // ---------------------------------------------------------------------

  /** The six values of a product as toString writes them. */
  function CamposFicha(f: Ficha, rt: Runtime): seq<string> {
    [f.codigo, f.nombre, f.categoria, rt.doubleText(f.precio), IntToString(f.stockMin), IntToString(f.stockActual)]
  }

  function LineaFicha(f: Ficha, rt: Runtime): string {
    Join(CamposFicha(f, rt), ",")
  }

  /** Producto.toString is the line of the product's current values. */
  lemma ToCsvEsLinea(p: Producto, rt: Runtime)
    ensures p.ToCsv(rt) == LineaFicha(p.Datos(), rt)
  {
    ToCsvEsJoin(p, rt);
    assert p.CamposCsv(rt) == CamposFicha(p.Datos(), rt);
  }

  /** What guardarTodos writes: the six-column header, then one line per product, in list order. */
  function ArchivoFichas(fs: seq<Ficha>, rt: Runtime): (lineas: seq<string>)
    ensures |lineas| == |fs| + 1 && lineas[0] == CabeceraSeis
    ensures forall i :: 0 <= i < |fs| ==> lineas[i + 1] == LineaFicha(fs[i], rt)
  {
    [CabeceraSeis] + seq(|fs|, i requires 0 <= i < |fs| => LineaFicha(fs[i], rt))
  }

  lemma ArchivoFichasSnoc(fs: seq<Ficha>, f: Ficha, rt: Runtime)
    ensures ArchivoFichas(fs + [f], rt) == ArchivoFichas(fs, rt) + [LineaFicha(f, rt)]
  {
    var a, b := ArchivoFichas(fs + [f], rt), ArchivoFichas(fs, rt) + [LineaFicha(f, rt)];
    assert |a| == |b|;
    forall i | 0 <= i < |a| ensures a[i] == b[i] {
      if 0 < i <= |fs| {
        assert (fs + [f])[i - 1] == fs[i - 1];
      }
    }
  }

  /**
   * A product whose line loads back as itself: text fields free of commas,
   * numbers that parse back from their text, values the constructor
   * accepts, and a code other than "codigo".
   */
  ghost predicate FichaLegible(f: Ficha, rt: Runtime) {
    && ',' !in f.codigo && ',' !in f.nombre && ',' !in f.categoria && ',' !in rt.doubleText(f.precio)
    && f.codigo != "codigo"
    && rt.parseDouble(rt.doubleText(f.precio)) == Some(f.precio)
    && rt.parseInt(IntToString(f.stockMin)) == Some(f.stockMin)
    && rt.parseInt(IntToString(f.stockActual)) == Some(f.stockActual)
    && ValidarProducto(f.precio, f.stockMin, f.stockActual).Pass?
  }

  lemma CamposFichaSimples(f: Ficha, rt: Runtime)
    requires FichaLegible(f, rt)
    ensures |CamposFicha(f, rt)| == 6 && CamposFicha(f, rt)[5] != ""
    ensures forall i :: 0 <= i < 6 ==> ',' !in CamposFicha(f, rt)[i]
  {
    var c := CamposFicha(f, rt);
    assert c[0] == f.codigo;
    assert c[1] == f.nombre;
    assert c[2] == f.categoria;
    assert c[3] == rt.doubleText(f.precio);
    assert c[4] == IntToString(f.stockMin);
    assert c[5] == IntToString(f.stockActual);
  }

  /** Six fields that parse and pass the checks give the product they describe. */
  lemma FichaAdmite(campos: seq<string>, f: Ficha, rt: Runtime)
    requires |campos| == 6 && campos[0] == f.codigo && campos[1] == f.nombre && campos[2] == f.categoria
    requires rt.parseDouble(campos[3]) == Some(f.precio)
    requires rt.parseInt(campos[4]) == Some(f.stockMin) && rt.parseInt(campos[5]) == Some(f.stockActual)
    requires ValidarProducto(f.precio, f.stockMin, f.stockActual).Pass?
    ensures FichaDeCampos(campos, rt) == Success(f)
  {
  }

  /** The line starts with the code and a comma. */
  lemma LineaEmpieza(f: Ficha, rt: Runtime)
    ensures |LineaFicha(f, rt)| > |f.codigo| && LineaFicha(f, rt)[..|f.codigo|] == f.codigo
    ensures LineaFicha(f, rt)[|f.codigo|] == ','
  {
    var c := CamposFicha(f, rt);
    JoinCons(c[0], c[1..], ",");
    assert c[0] == f.codigo;
  }

  /**
   * A line whose first comma closes `codigo` starts with a prefix ending in
   * its only comma exactly when that prefix is `codigo` and the comma.
   */
  lemma CodigoAntesDeComa(l: string, codigo: string, p: string)
    requires |l| > |codigo| && l[..|codigo|] == codigo && l[|codigo|] == ',' && ',' !in codigo
    requires |p| >= 1 && p[|p| - 1] == ',' && ',' !in p[..|p| - 1]
    ensures StartsWith(l, p) ==> codigo == p[..|p| - 1]
  {
    var n, m := |codigo|, |p| - 1;
    assert forall j :: 0 <= j < n ==> l[j] == codigo[j] && l[j] != ',';
    assert forall j :: 0 <= j < m ==> p[j] == p[..m][j] && p[j] != ',';
    if StartsWith(l, p) {
      assert forall j :: 0 <= j <= m ==> l[j] == p[j];
      assert n == m;
      assert codigo == l[..n] == p[..m];
    }
  }

  /** Joining `p` and `q` gives a text that starts with `p`. */
  lemma EmpiezaCon(p: string, q: string)
    ensures StartsWith(p + q, p)
  {
    assert (p + q)[..|p|] == p;
  }

  /** A comma-free code other than "codigo" does not make its line look like the header. */
  lemma NoEsCabecera(f: Ficha, rt: Runtime)
    requires ',' !in f.codigo && f.codigo != "codigo"
    ensures !Omitida(LineaFicha(f, rt))
  {
    LineaEmpieza(f, rt);
    NoComoCabecera(LineaFicha(f, rt), f.codigo);
  }

  lemma NoComoCabecera(l: string, codigo: string)
    requires |l| > |codigo| && l[..|codigo|] == codigo && l[|codigo|] == ','
    requires ',' !in codigo && codigo != "codigo"
    ensures !Omitida(l)
  {
    assert !IsBlank(l) by {
      assert !IsSpace(l[|codigo|]);
      NoBlancoSiHay(l, |codigo|);
    }
    assert !StartsWith(l, "codigo,") by {
      NoEmpiezaComoCabecera(l, codigo);
    }
  }

  lemma NoEmpiezaComoCabecera(l: string, codigo: string)
    requires |l| > |codigo| && l[..|codigo|] == codigo && l[|codigo|] == ','
    requires ',' !in codigo && codigo != "codigo"
    ensures !StartsWith(l, "codigo,")
  {
    var p := "codigo,";
    assert |p| == 7 && p[6] == ',' && p[..6] == "codigo";
    CodigoAntesDeComa(l, codigo, p);
  }

  /** The line of a readable product is not passed over and splits into six fields that build that product. */
  lemma LineaLegible(f: Ficha, rt: Runtime)
    requires FichaLegible(f, rt)
    ensures !Omitida(LineaFicha(f, rt)) && |JavaSplit(LineaFicha(f, rt))| == 6
    ensures FichaDeCampos(JavaSplit(LineaFicha(f, rt)), rt) == Success(f)
  {
    NoEsCabecera(f, rt);
    CamposFichaSimples(f, rt);
    var c := CamposFicha(f, rt);
    JavaSplitOfJoin(c);
    assert c[0] == f.codigo && c[1] == f.nombre && c[2] == f.categoria;
    assert c[3] == rt.doubleText(f.precio) && c[4] == IntToString(f.stockMin) && c[5] == IntToString(f.stockActual);
    FichaAdmite(c, f, rt);
  }

  /** A line that is not passed over and builds a product from six fields puts it under its code. */
  lemma PasoDeFicha(fichas: map<string, Ficha>, linea: string, f: Ficha, rt: Runtime)
    requires !Omitida(linea) && |JavaSplit(linea)| == 6 && FichaDeCampos(JavaSplit(linea), rt) == Success(f)
    ensures Paso(fichas, linea, rt) == Carga(Pass, fichas[f.codigo := f])
  {
  }

  /** The line of a readable product puts that product under its code. */
  lemma PasoLegible(fichas: map<string, Ficha>, f: Ficha, rt: Runtime)
    requires FichaLegible(f, rt)
    ensures Paso(fichas, LineaFicha(f, rt), rt) == Carga(Pass, fichas[f.codigo := f])
  {
    LineaLegible(f, rt);
    PasoDeFicha(fichas, LineaFicha(f, rt), f, rt);
  }

  /** The header line is passed over. */
  lemma CabeceraSeisOmitida()
    ensures Omitida(CabeceraSeis)
  {
    assert CabeceraSeis[..7] == "codigo,";
  }

  /**
   * Loading what guardarTodos wrote puts every product into the map under
   * its code, in list order, so a later product with a code wins; no error.
   */
  lemma {:induction false} CargarLoGuardado(fichas: map<string, Ficha>, fs: seq<Ficha>, rt: Runtime)
    requires forall i :: 0 <= i < |fs| ==> FichaLegible(fs[i], rt)
    ensures Cargadas(fichas, ArchivoFichas(fs, rt), rt) == Carga(Pass, Poner(fichas, fs))
    decreases |fs|
  {
    if fs == [] {
      CargarSoloCabecera(fichas, rt);
    } else {
      CargarLoGuardado(fichas, fs[..|fs| - 1], rt);
      CargarUnaMas(fichas, fs, rt);
    }
  }

  lemma CargarSoloCabecera(fichas: map<string, Ficha>, rt: Runtime)
    ensures Cargadas(fichas, ArchivoFichas([], rt), rt) == Carga(Pass, fichas)
  {
    var a := ArchivoFichas([], rt);
    assert a == [] + [CabeceraSeis];
    CabeceraSeisOmitida();
    CargadasSnoc(fichas, [], CabeceraSeis, rt);
  }

  lemma CargarUnaMas(fichas: map<string, Ficha>, fs: seq<Ficha>, rt: Runtime)
    requires fs != [] && FichaLegible(fs[|fs| - 1], rt)
    requires Cargadas(fichas, ArchivoFichas(fs[..|fs| - 1], rt), rt) == Carga(Pass, Poner(fichas, fs[..|fs| - 1]))
    ensures Cargadas(fichas, ArchivoFichas(fs, rt), rt) == Carga(Pass, Poner(fichas, fs))
  {
    var front, f := fs[..|fs| - 1], fs[|fs| - 1];
    var a, l := ArchivoFichas(front, rt), LineaFicha(f, rt);
    var m := Poner(fichas, front);
    assert ArchivoFichas(fs, rt) == a + [l] by {
      assert fs == front + [f];
      ArchivoFichasSnoc(front, f, rt);
    }
    assert Poner(fichas, fs) == m[f.codigo := f];
    CargadasLegible(fichas, a, f, rt);
  }

  /** After an error-free load, the line of a readable product puts it under its code. */
  lemma CargadasLegible(fichas: map<string, Ficha>, a: seq<string>, f: Ficha, rt: Runtime)
    requires Cargadas(fichas, a, rt).resultado.Pass? && FichaLegible(f, rt)
    ensures Cargadas(fichas, a + [LineaFicha(f, rt)], rt) == Carga(Pass, Cargadas(fichas, a, rt).fichas[f.codigo := f])
  {
    CargadasSnoc(fichas, a, LineaFicha(f, rt), rt);
    PasoLegible(Cargadas(fichas, a, rt).fichas, f, rt);
  }

  /** A product coded "codigo" is written like any other but its line is passed over on loading. */
  lemma CodigoLlamadoCodigo(fichas: map<string, Ficha>, f: Ficha, rt: Runtime)
    requires f.codigo == "codigo"
    ensures Paso(fichas, LineaFicha(f, rt), rt) == Carga(Pass, fichas)
  {
    LineaEmpieza(f, rt);
    var l := LineaFicha(f, rt);
    assert l[..7] == "codigo" + ",";
  }

  // ---------------------------------------------------------------------
  // The repository
  // ---------------------------------------------------------------------

  /** The values of a map of products, by code. */
  function FichasDe(m: map<string, Producto>): map<string, Ficha>
    reads m.Values
  {
    map c | c in m :: m[c].Datos()
  }

  /** The current values of a list of products, in order. */
  function ListaFichas(ps: seq<Producto>): (fs: seq<Ficha>)
    reads ps
    ensures |fs| == |ps| && forall i :: 0 <= i < |ps| ==> fs[i] == ps[i].Datos()
  {
    seq(|ps|, i requires 0 <= i < |ps| reads ps => ps[i].Datos())
  }

  /** Putting a product into the map puts its values under the code. */
  lemma FichasDePoner(m: map<string, Producto>, c: string, p: Producto)
    ensures FichasDe(m[c := p]) == FichasDe(m)[c := p.Datos()]
  {
  }

  /** Removing a code from the map removes it from the values. */
  lemma FichasDeQuitar(m: map<string, Producto>, c: string)
    ensures FichasDe(m - {c}) == FichasDe(m) - {c}
  {
  }

  lemma ListaFichasSnoc(ps: seq<Producto>, p: Producto)
    ensures ListaFichas(ps + [p]) == ListaFichas(ps) + [p.Datos()]
  {
  }

  class ProductoRepositorioCsv {
    const fichero: Fichero
    var productosPorCodigo: map<string, Producto>

    /** Every product is valid and stored under its own code. */
    ghost predicate Valid()
      reads this, productosPorCodigo.Values
    {
      forall c :: c in productosPorCodigo ==> productosPorCodigo[c].Valid() && productosPorCodigo[c].codigo == c
    }

    function Fichas(): map<string, Ficha>
      reads this, productosPorCodigo.Values
    {
      FichasDe(productosPorCodigo)
    }

    constructor (fichero: Fichero)
      ensures this.fichero == fichero && productosPorCodigo == map[] && Valid()
    {
      this.fichero := fichero;
      productosPorCodigo := map[];
    }

    /** buscarPorCodigo: the product mapped to the code, or null; it carries that code. */
    function BuscarPorCodigo(codigo: string): (r: Option<Producto>)
      reads this, productosPorCodigo.Values
      ensures r.Some? <==> codigo in productosPorCodigo
      ensures Valid() && r.Some? ==> r.value.codigo == codigo && r.value.Valid()
    {
      if codigo in productosPorCodigo then Some(productosPorCodigo[codigo]) else None
    }

    /** agregar: a code already present is ProductoDuplicado and the map is kept; otherwise it gains the product. */
    method Agregar(p: Producto) returns (r: Outcome)
      requires Valid() && p.Valid()
      modifies this`productosPorCodigo
      ensures Valid()
      ensures old(p.codigo in productosPorCodigo) ==> r == Fail(ProductoDuplicado) && productosPorCodigo == old(productosPorCodigo)
      ensures !old(p.codigo in productosPorCodigo) ==> r == Pass && productosPorCodigo == old(productosPorCodigo)[p.codigo := p]
      ensures !old(p.codigo in productosPorCodigo) ==> Fichas() == old(Fichas())[p.codigo := p.Datos()]
    {
      if p.codigo in productosPorCodigo {
        return Fail(ProductoDuplicado);
      }
      FichasDePoner(productosPorCodigo, p.codigo, p);
      productosPorCodigo := productosPorCodigo[p.codigo := p];
      return Pass;
    }

    /** actualizar: the code sent to the product whether it was there or not; other keys kept. */
    method Actualizar(p: Producto)
      requires Valid() && p.Valid()
      modifies this`productosPorCodigo
      ensures Valid()
      ensures productosPorCodigo == old(productosPorCodigo)[p.codigo := p]
      ensures Fichas() == old(Fichas())[p.codigo := p.Datos()]
    {
      FichasDePoner(productosPorCodigo, p.codigo, p);
      productosPorCodigo := productosPorCodigo[p.codigo := p];
    }

    /** eliminar: the code removed; nothing happens when it is absent. */
    method Eliminar(codigo: string)
      requires Valid()
      modifies this`productosPorCodigo
      ensures Valid()
      ensures productosPorCodigo == old(productosPorCodigo) - {codigo}
      ensures Fichas() == old(Fichas()) - {codigo}
    {
      FichasDeQuitar(productosPorCodigo, codigo);
      productosPorCodigo := productosPorCodigo - {codigo};
    }

    /**
     * getProductos: the map's values, each once, in an order the map does
     * not fix (each step takes any code not yet taken).
     */
    method GetProductos() returns (r: seq<Producto>)
      requires Valid()
      ensures |r| == |productosPorCodigo.Keys|
      ensures forall i :: 0 <= i < |r| ==> r[i].codigo in productosPorCodigo && productosPorCodigo[r[i].codigo] == r[i]
      ensures forall c :: c in productosPorCodigo ==> productosPorCodigo[c] in r
      ensures forall i, j :: 0 <= i < j < |r| ==> r[i].codigo != r[j].codigo
    {
      var resto := productosPorCodigo.Keys;
      r := [];
      while resto != {}
        invariant resto <= productosPorCodigo.Keys
        invariant |r| + |resto| == |productosPorCodigo.Keys|
        invariant forall i :: 0 <= i < |r| ==>
          r[i].codigo in productosPorCodigo && productosPorCodigo[r[i].codigo] == r[i] && r[i].codigo !in resto
        invariant forall c :: c in productosPorCodigo && c !in resto ==> productosPorCodigo[c] in r
        invariant forall i, j :: 0 <= i < j < |r| ==> r[i].codigo != r[j].codigo
        decreases |resto|
      {
        var c :| c in resto;
        r := r + [productosPorCodigo[c]];
        resto := resto - {c};
      }
    }

    /**
     * cargar: nothing when the file is missing; otherwise each line in turn,
     * passing over skipped lines and lines without six fields, putting each
     * product under its code, and stopping at the first line whose numbers
     * do not parse or whose values the constructor refuses.
     */
    method Cargar(rt: Runtime) returns (o: Outcome)
      requires Valid()
      modifies this`productosPorCodigo
      ensures Valid()
      ensures fichero.lineas.None? ==> o == Pass && productosPorCodigo == old(productosPorCodigo)
      ensures fichero.lineas.Some? ==> Carga(o, Fichas()) == Cargadas(old(Fichas()), fichero.lineas.value, rt)
    {
      if fichero.lineas.None? {
        return Pass;
      }
      o := CargarLineas(fichero.lineas.value, rt);
    }

    /** The loop of cargar over the lines of the file. */
    method CargarLineas(lineas: seq<string>, rt: Runtime) returns (o: Outcome)
      requires Valid()
      modifies this`productosPorCodigo
      ensures Valid()
      ensures Carga(o, Fichas()) == Cargadas(old(Fichas()), lineas, rt)
    {
      ghost var inicio := Fichas();
      o := Pass;
      var i := 0;
      while i < |lineas|
        invariant 0 <= i <= |lineas|
        invariant Valid()
        invariant o == Pass && Carga(o, Fichas()) == Cargadas(inicio, lineas[..i], rt)
      {
        CargadasPaso(inicio, lineas, i, rt);
        o := LeerLinea(lineas[i], rt);
        if o.Fail? {
          FallaPersiste(inicio, lineas, i + 1, rt);
          return;
        }
        i := i + 1;
      }
      assert lineas[..i] == lineas;
    }

    /** One pass of the loop of cargar: the line passed over, or its product put under its code, or the error. */
    method LeerLinea(linea: string, rt: Runtime) returns (o: Outcome)
      requires Valid()
      modifies this`productosPorCodigo
      ensures Valid()
      ensures Carga(o, Fichas()) == Paso(old(Fichas()), linea, rt)
    {
      if Omitida(linea) {
        return Pass;
      }
      var campos := JavaSplit(linea);
      if |campos| != 6 {
        return Pass;
      }
      var f := FichaDeCampos(campos, rt);
      if f.Failure? {
        return Fail(f.error);
      }
      Poner1(f.value, rt);
      return Pass;
    }

    /** `productosPorCodigo.put(codigo, new Producto(...))` for the values of one line. */
    method Poner1(f: Ficha, rt: Runtime)
      requires Valid() && ValidarProducto(f.precio, f.stockMin, f.stockActual).Pass?
      modifies this`productosPorCodigo
      ensures Valid()
      ensures Fichas() == old(Fichas())[f.codigo := f]
    {
      var p := new Producto(f.codigo, f.nombre, f.categoria, f.precio, f.stockMin, f.stockActual);
      productosPorCodigo := productosPorCodigo[f.codigo := p];
    }

    /** guardarTodos: the six-column header, then each product's toString, in list order. */
    method GuardarTodos(productos: seq<Producto>, rt: Runtime)
      modifies fichero
      ensures fichero.lineas == Some(ArchivoFichas(ListaFichas(productos), rt))
    {
      ghost var fs := ListaFichas(productos);
      var lineas := [CabeceraSeis];
      for i := 0 to |productos|
        invariant lineas == ArchivoFichas(fs[..i], rt)
      {
        assert fs[..i + 1] == fs[..i] + [fs[i]];
        ArchivoFichasSnoc(fs[..i], fs[i], rt);
        ToCsvEsLinea(productos[i], rt);
        lineas := lineas + [productos[i].ToCsv(rt)];
      }
      assert fs[..|productos|] == fs;
      fichero.lineas := Some(lineas);
    }
  }
}
