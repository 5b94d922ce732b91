/**
 * ProductoRepositorio: the same four-column file, read with split(",", 4)
 * and no header check, and the read-modify-write operations on it: every
 * change reads the whole file, changes the list and writes it all back.
 */
module ProductoRepositorios {
  import opened Outcomes
  import opened JavaText
  import opened Platform
  import opened Streams
  import opened Registros

  /**
   * parsearLinea: the line split into at most four fields, the last one
   * holding the rest of the line; fewer than four give null.
   */
  function ParsearLinea(linea: string, rt: Runtime): (r: Option<Registro>)
    ensures |Fields(linea, ',')| < 4 ==> r == None
    ensures |Fields(linea, ',')| >= 4 ==>
      var f := Fields(linea, ',');
      r == DeCampos(f[..3] + [Join(f[3..], ",")], rt)
  {
    var campos := SplitLimit(linea, 4);
    var f := Fields(linea, ',');
    if |campos| < 4 then None
    else
      assert |f| == 4 ==> f == f[..3] + [Join(f[3..], ",")] by {
        if |f| == 4 { assert f[3..] == [f[3]]; }
      }
      DeCampos(campos, rt)
  }

  function Lector(rt: Runtime): string -> Option<Registro> {
    (linea: string) => ParsearLinea(linea, rt)
  }

  /** What leerProductos returns: nothing for a missing file, otherwise the records it reads. */
  function Contenido(lineas: Option<seq<string>>, rt: Runtime): seq<Registro> {
    match lineas
    case None => []
    case Some(l) => Leidos(l, Lector(rt))
  }

  /** The line written for a readable record parses back to that record. */
  lemma LineaDeVuelta(r: Registro, rt: Runtime)
    requires Legible(r, rt)
    ensures ParsearLinea(Linea(r, rt), rt) == Some(r)
  {
    CamposSinComas(r, rt);
    FieldsOfJoin(CamposDe(r, rt), ',');
    CamposDeVuelta(r, rt);
  }

  /**
   * On a line of more than four comma-free fields the fourth field is the
   * rest of the line, commas included, so the stock is read from all of it.
   */
  lemma CuartoCampoConElResto(c: seq<string>, rt: Runtime)
    requires |c| > 4
    requires forall i :: 0 <= i < |c| ==> ',' !in c[i]
    ensures SplitLimit(Join(c, ","), 4) == c[..3] + [Join(c[3..], ",")]
    ensures ParsearLinea(Join(c, ","), rt) == DeCampos(c[..3] + [Join(c[3..], ",")], rt)
    ensures ',' in Join(c[3..], ",")
  {
    FieldsOfJoin(c, ',');
    JoinHasSep(c[3..]);
  }

  /** Saving readable records and reading the file back gives the same records in the same order. */
  lemma LeerLoGuardado(rs: seq<Registro>, rt: Runtime)
    requires forall i :: 0 <= i < |rs| ==> Legible(rs[i], rt)
    ensures Contenido(Some(Archivo(rs, rt)), rt) == rs
  {
    forall i | 0 <= i < |rs| ensures !IsBlank(Linea(rs[i], rt)) && Lector(rt)(Linea(rs[i], rt)) == Some(rs[i]) {
      LineaNoBlanca(rs[i], rt);
      LineaDeVuelta(rs[i], rt);
    }
    LeerLoEscrito(rs, Lector(rt), rt);
  }

  // ---------------------------------------------------------------------
  // Records by code
  // ---------------------------------------------------------------------

  /** `p -> p.getCodigo().equals(codigo)` on records. */
  function DeCodigo(codigo: string): (f: Registro -> bool) {
    (r: Registro) => r.codigo == codigo
  }

  /** What removeIf keeps: the records with another code. */
  function OtroCodigo(codigo: string): (f: Registro -> bool) {
    (r: Registro) => r.codigo != codigo
  }

  ghost predicate HayCodigo(rs: seq<Registro>, codigo: string) {
    exists i :: 0 <= i < |rs| && rs[i].codigo == codigo
  }

  ghost predicate CodigosUnicos(rs: seq<Registro>) {
    forall i, j :: 0 <= i < j < |rs| ==> rs[i].codigo != rs[j].codigo
  }

  /** The update loop's effect: the first record with the code of `r` replaced by `r`. */
  function Sustituir(rs: seq<Registro>, r: Registro): seq<Registro> {
    match FirstIndex(rs, DeCodigo(r.codigo))
    case None => rs
    case Some(i) => rs[i := r]
  }

  /**
   * The replacement keeps every code in its place, puts `r` in the list
   * when its code is there, changes only the first position holding that
   * code, and changes nothing when the code is absent.
   */
  lemma SustituirEfecto(rs: seq<Registro>, r: Registro)
    ensures |Sustituir(rs, r)| == |rs|
    ensures forall i :: 0 <= i < |rs| ==> Sustituir(rs, r)[i].codigo == rs[i].codigo
    ensures HayCodigo(rs, r.codigo) ==> r in Sustituir(rs, r)
    ensures !HayCodigo(rs, r.codigo) ==> Sustituir(rs, r) == rs
    ensures forall i :: 0 <= i < |rs| && Sustituir(rs, r)[i] != rs[i] ==>
      Sustituir(rs, r)[i] == r && forall j :: 0 <= j < i ==> rs[j].codigo != r.codigo
  {
    if HayCodigo(rs, r.codigo) {
      var k :| 0 <= k < |rs| && rs[k].codigo == r.codigo;
      assert DeCodigo(r.codigo)(rs[k]);
    }
  }

  /** Appending a record whose code is not taken keeps the codes unique. */
  lemma UnicosTrasAgregar(rs: seq<Registro>, r: Registro)
    requires CodigosUnicos(rs) && !HayCodigo(rs, r.codigo)
    ensures CodigosUnicos(rs + [r])
  {
    var t := rs + [r];
    forall i, j | 0 <= i < j < |t| ensures t[i].codigo != t[j].codigo {
      assert t[i] == rs[i];
      if j < |rs| {
        assert t[j] == rs[j];
      }
    }
  }

  /** removeIf leaves no record with the code and keeps every other one. */
  lemma EliminarQuitaCodigo(rs: seq<Registro>, codigo: string)
    ensures !HayCodigo(Filter(rs, OtroCodigo(codigo)), codigo)
    ensures forall i :: 0 <= i < |rs| && rs[i].codigo != codigo ==> rs[i] in Filter(rs, OtroCodigo(codigo))
  {
    var t := Filter(rs, OtroCodigo(codigo));
    forall i | 0 <= i < |t| ensures t[i].codigo != codigo {
      assert OtroCodigo(codigo)(t[i]);
    }
    forall i | 0 <= i < |rs| && rs[i].codigo != codigo ensures rs[i] in t {
      FilterMember(rs, OtroCodigo(codigo), rs[i]);
    }
  }

  /**
   * The loop of actualizarProducto: the list scanned from the front, the
   * first record with the code of `r` set to `r`, and the scan stopped.
   */
  method ReemplazarPrimero(productos: seq<Registro>, r: Registro) returns (nuevos: seq<Registro>, encontrado: bool)
    ensures encontrado <==> HayCodigo(productos, r.codigo)
    ensures nuevos == Sustituir(productos, r)
  {
    nuevos := productos;
    encontrado := false;
    var i := 0;
    while i < |nuevos|
      invariant 0 <= i <= |nuevos| && nuevos == productos
      invariant forall j :: 0 <= j < i ==> productos[j].codigo != r.codigo
    {
      if nuevos[i].codigo == r.codigo {
        assert DeCodigo(r.codigo)(productos[i]);
        assert FirstIndex(productos, DeCodigo(r.codigo)) == Some(i);
        nuevos := nuevos[i := r];
        encontrado := true;
        break;
      }
      i := i + 1;
    }
  }

  class ProductoRepositorio {
    const fichero: Fichero

    constructor (fichero: Fichero)
      ensures this.fichero == fichero
    {
      this.fichero := fichero;
    }

    /** guardarProductos: the file overwritten with the header and one line per record. */
    method GuardarProductos(productos: seq<Registro>, rt: Runtime)
      modifies fichero
      ensures fichero.lineas == Some(Archivo(productos, rt))
    {
      Escribir(fichero, productos, rt);
    }

    /** leerProductos: an empty list for a missing file (which is not created), otherwise the records read. */
    method LeerProductos(rt: Runtime) returns (productos: seq<Registro>)
      ensures productos == Contenido(fichero.lineas, rt)
    {
      if fichero.lineas.None? {
        return [];
      }
      var cabecera;
      productos, cabecera := Recorrer(fichero.lineas.value, Lector(rt));
    }

    /** buscarPorCodigo: the first record read with the code, or null. */
    method BuscarPorCodigo(codigo: string, rt: Runtime) returns (r: Option<Registro>)
      ensures r.Some? <==> HayCodigo(Contenido(fichero.lineas, rt), codigo)
      ensures r.Some? ==> r.value.codigo == codigo
      ensures r.Some? ==> exists i :: (0 <= i < |Contenido(fichero.lineas, rt)| &&
        Contenido(fichero.lineas, rt)[i] == r.value &&
        forall j :: 0 <= j < i ==> Contenido(fichero.lineas, rt)[j].codigo != codigo)
    {
      var productos := LeerProductos(rt);
      r := FindFirst(productos, DeCodigo(codigo));
      if HayCodigo(productos, codigo) {
        var k :| 0 <= k < |productos| && productos[k].codigo == codigo;
        assert DeCodigo(codigo)(productos[k]);
      }
      if r.Some? {
        var i := FirstIndex(productos, DeCodigo(codigo)).value;
        assert productos[i] == r.value;
      }
    }

    /**
     * agregarProducto: a code already in the file is refused and nothing is
     * written; otherwise the file is rewritten with the record last.
     */
    method AgregarProducto(producto: Registro, rt: Runtime) returns (o: Outcome)
      modifies fichero
      ensures HayCodigo(old(Contenido(fichero.lineas, rt)), producto.codigo) ==>
        o == Fail(ArgumentoInvalido(CodigoRepetido)) && fichero.lineas == old(fichero.lineas)
      ensures !HayCodigo(old(Contenido(fichero.lineas, rt)), producto.codigo) ==>
        o == Pass && fichero.lineas == Some(Archivo(old(Contenido(fichero.lineas, rt)) + [producto], rt))
    {
      var productos := LeerProductos(rt);
      AnyMatchExists(productos, DeCodigo(producto.codigo));
      if AnyMatch(productos, DeCodigo(producto.codigo)) {
        return Fail(ArgumentoInvalido(CodigoRepetido));
      }
      productos := productos + [producto];
      GuardarProductos(productos, rt);
      return Pass;
    }

    /**
     * actualizarProducto: the first record with the code is replaced at its
     * position and the file rewritten; without one, nothing is written.
     */
    method ActualizarProducto(producto: Registro, rt: Runtime) returns (o: Outcome)
      modifies fichero
      ensures o.Pass? <==> HayCodigo(old(Contenido(fichero.lineas, rt)), producto.codigo)
      ensures o.Fail? ==> o == Fail(ArgumentoInvalido(ProductoInexistente)) && fichero.lineas == old(fichero.lineas)
      ensures o.Pass? ==> fichero.lineas == Some(Archivo(Sustituir(old(Contenido(fichero.lineas, rt)), producto), rt))
    {
      var productos := LeerProductos(rt);
      var encontrado;
      productos, encontrado := ReemplazarPrimero(productos, producto);
      if !encontrado {
        return Fail(ArgumentoInvalido(ProductoInexistente));
      }
      GuardarProductos(productos, rt);
      return Pass;
    }

    /**
     * eliminarProducto: every record with the code removed and the file
     * rewritten; when none had it, nothing is written.
     */
    method EliminarProducto(codigo: string, rt: Runtime) returns (o: Outcome)
      modifies fichero
      ensures o.Pass? <==> HayCodigo(old(Contenido(fichero.lineas, rt)), codigo)
      ensures o.Fail? ==> o == Fail(ArgumentoInvalido(ProductoInexistente)) && fichero.lineas == old(fichero.lineas)
      ensures o.Pass? ==> fichero.lineas == Some(Archivo(Filter(old(Contenido(fichero.lineas, rt)), OtroCodigo(codigo)), rt))
    {
      var productos := LeerProductos(rt);
      AnyMatchExists(productos, DeCodigo(codigo));
      var eliminado := AnyMatch(productos, DeCodigo(codigo));
      productos := Filter(productos, OtroCodigo(codigo));
      if !eliminado {
        return Fail(ArgumentoInvalido(ProductoInexistente));
      }
      GuardarProductos(productos, rt);
      return Pass;
    }
  }
}
