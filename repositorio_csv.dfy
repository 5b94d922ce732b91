/**
 * RepositorioCSV: reads and writes the four-column inventory file. A line
 * is split at every comma; the header is checked only to print a warning;
 * a missing file is created holding just the header.
 */
module RepositoriosCsv {
  import opened Outcomes
  import opened JavaText
  import opened Platform
  import opened Registros

  /**
   * validarCabecera: the trimmed line splits into exactly four names, each
   * equal, once trimmed and ignoring case, to the column in its position.
   * Case does not matter: "CODIGO,Nombre,precio,STOCK" passes.
   */
  predicate ValidarCabecera(linea: string)
    ensures ToLower(Trim(linea)) == Join(Columnas, ",") ==> ValidarCabecera(linea)
  {
    CabeceraMinusculas(linea);
    var h := JavaSplit(Trim(linea));
    |h| == 4 && forall i :: 0 <= i < 4 ==> EqualsIgnoreCase(Trim(h[i]), Columnas[i])
  }

  /** A line that lower-cases to the column names has four names, each the column ignoring case. */
  lemma CabeceraMinusculas(linea: string)
    ensures ToLower(Trim(linea)) == Join(Columnas, ",") ==>
      var h := JavaSplit(Trim(linea));
      |h| == 4 && forall i :: 0 <= i < 4 ==> EqualsIgnoreCase(Trim(h[i]), Columnas[i])
  {
    var t := Trim(linea);
    if ToLower(t) == Join(Columnas, ",") {
      ColumnasSimples();
      JavaSplitOfJoin(Columnas);
      JavaSplitLower(t);
      var h := JavaSplit(t);
      forall i | 0 <= i < 4 ensures EqualsIgnoreCase(Trim(h[i]), Columnas[i]) {
        assert ToLower(h[i]) == Columnas[i];
        TrimLower(h[i]);
        ToLowerIdempotent(h[i]);
        assert ToLower(Trim(h[i])) == ToLower(Columnas[i]);
        MinusculasSinCaso(Trim(h[i]), Columnas[i]);
      }
    }
  }

  /** Four comma-free names, joined with commas, pass when each matches its column ignoring case. */
  lemma NombresValidos(h: seq<string>)
    requires |h| == 4 && forall i :: 0 <= i < 4 ==> ',' !in h[i]
    requires h[3] != "" && Recortado(Join(h, ","))
    requires forall i :: 0 <= i < 4 ==> EqualsIgnoreCase(Trim(h[i]), Columnas[i])
    ensures ValidarCabecera(Join(h, ","))
  {
    TrimRecortado(Join(h, ","));
    JavaSplitOfJoin(h);
  }

  /**
   * Case is ignored the way equalsIgnoreCase ignores it, through capitals:
   * a long s (U+017F) in place of the 's' of "stock" passes, although it
   * does not lower-case to 's'.
   */
  lemma CabeceraSinCaso()
    ensures ValidarCabecera(Join(["codigo", "nombre", "precio", "\U{17F}tock"], ","))
  {
    var h := ["codigo", "nombre", "precio", "\U{17F}tock"];
    NombresSinCaso(h);
    JoinRecortado(h);
    NombresValidos(h);
  }

  /** The four names of CabeceraSinCaso, each its column ignoring case. */
  lemma NombresSinCaso(h: seq<string>)
    requires h == ["codigo", "nombre", "precio", "\U{17F}tock"]
    ensures forall i :: 0 <= i < 4 ==> ',' !in h[i] && EqualsIgnoreCase(Trim(h[i]), Columnas[i])
    ensures h[3] != "" && !IsSpace(h[0][0]) && !IsSpace(h[3][|h[3]| - 1])
  {
    ColumnasSimples();
    assert Recortado(h[3]) by {
      assert h[3][0] == '\U{17F}' && h[3][|h[3]| - 1] == 'k';
    }
    TrimRecortado(h[3]);
    SinCasoNoEsMinusculas();
    forall i | 0 <= i < 3 ensures EqualsIgnoreCase(Trim(h[i]), Columnas[i]) {
      assert h[i] == Columnas[i];
      MinusculasSinCaso(h[i], h[i]);
    }
  }

  /** Four names joined by commas have no blank at either end when the first starts and the last ends with none. */
  lemma JoinRecortado(h: seq<string>)
    requires |h| == 4 && h[0] != "" && h[3] != ""
    requires !IsSpace(h[0][0]) && !IsSpace(h[3][|h[3]| - 1])
    ensures Recortado(Join(h, ","))
  {
    JoinCuatro(h, ",");
    var linea := Join(h, ",");
    assert linea[0] == h[0][0] && linea[|linea| - 1] == h[3][|h[3]| - 1];
  }

  /** The header the writers put first passes the check. */
  lemma CabeceraValida()
    ensures ValidarCabecera(Cabecera)
  {
    assert Recortado(Cabecera) by {
      assert Cabecera[0] == 'c' && Cabecera[|Cabecera| - 1] == 'k';
    }
    TrimRecortado(Cabecera);
    CabeceraColumnas();
    ColumnasValidas(Cabecera);
  }

  /** Any line that trims to the column names separated by commas passes the check. */
  lemma ColumnasValidas(linea: string)
    requires Trim(linea) == Join(Columnas, ",")
    ensures ValidarCabecera(linea)
  {
    ColumnasSimples();
    JavaSplitOfJoin(Columnas);
  }

  /** The warning is printed when the first line that is not blank fails the check. */
  predicate Advierte(lineas: seq<string>) {
    match PrimeraNoBlanca(lineas)
    case None => false
    case Some(h) => !ValidarCabecera(h)
  }

  /**
   * parsearLinea: the line split at every comma (trailing empty fields
   * dropped); fewer than four fields give null, further fields are ignored.
   */
  function ParsearLinea(linea: string, rt: Runtime): (r: Option<Registro>)
    ensures |JavaSplit(linea)| < 4 ==> r == None
    ensures |JavaSplit(linea)| >= 4 ==> r == DeCampos(JavaSplit(linea)[..4], rt)
  {
    var campos := JavaSplit(linea);
    if |campos| < 4 then None
    else
      assert campos[..4][0] == campos[0] && campos[..4][1] == campos[1];
      assert campos[..4][2] == campos[2] && campos[..4][3] == campos[3];
      DeCampos(campos, rt)
  }

  function Lector(rt: Runtime): string -> Option<Registro> {
    (linea: string) => ParsearLinea(linea, rt)
  }

  /**
   * A line made of comma-free fields, the last one not empty: with fewer
   * than four fields it is refused, otherwise only the first four count.
   */
  lemma CamposDeLaLinea(c: seq<string>, rt: Runtime)
    requires |c| >= 2 && c[|c| - 1] != ""
    requires forall i :: 0 <= i < |c| ==> ',' !in c[i]
    ensures |c| < 4 ==> ParsearLinea(Join(c, ","), rt) == None
    ensures |c| >= 4 ==> ParsearLinea(Join(c, ","), rt) == DeCampos(c[..4], rt)
  {
    JavaSplitOfJoin(c);
    if |c| >= 4 {
      var d := c[..4];
      assert d[0] == c[0] && d[1] == c[1] && d[2] == c[2] && d[3] == c[3];
    }
  }

  /** The line written for a readable record parses back to that record. */
  lemma LineaDeVuelta(r: Registro, rt: Runtime)
    requires Legible(r, rt)
    ensures ParsearLinea(Linea(r, rt), rt) == Some(r)
  {
    CamposSinComas(r, rt);
    JavaSplitOfJoin(CamposDe(r, rt));
    CamposDeVuelta(r, rt);
  }

  /**
   * Saving readable records and reading the file back gives the same
   * records in the same order, and no warning: the header is the standard one.
   */
  lemma LeerLoGuardado(rs: seq<Registro>, rt: Runtime)
    requires forall i :: 0 <= i < |rs| ==> Legible(rs[i], rt)
    ensures Leidos(Archivo(rs, rt), Lector(rt)) == rs
    ensures !Advierte(Archivo(rs, rt))
  {
    forall i | 0 <= i < |rs| ensures !IsBlank(Linea(rs[i], rt)) && Lector(rt)(Linea(rs[i], rt)) == Some(rs[i]) {
      LineaNoBlanca(rs[i], rt);
      LineaDeVuelta(rs[i], rt);
    }
    LeerLoEscrito(rs, Lector(rt), rt);
    PrimeraEsCabecera(rs, rt);
    CabeceraValida();
  }

  class RepositorioCsv {
    const fichero: Fichero

    constructor (fichero: Fichero)
      ensures this.fichero == fichero
    {
      this.fichero := fichero;
    }

    /** crearArchivoInicial: a new file holding only the header. */
    method CrearArchivoInicial()
      modifies fichero
      ensures fichero.lineas == Some([Cabecera])
    {
      fichero.lineas := Some([Cabecera]);
    }

    /**
     * leerProductos: a missing file is created with the header and nothing
     * is read; otherwise the file is left as it is and its records are read,
     * with the warning when the header is not the standard one.
     */
    method LeerProductos(rt: Runtime) returns (productos: seq<Registro>, advertencia: bool)
      modifies fichero
      ensures old(fichero.lineas).None? ==> fichero.lineas == Some([Cabecera]) && productos == [] && !advertencia
      ensures old(fichero.lineas).Some? ==> fichero.lineas == old(fichero.lineas)
      ensures old(fichero.lineas).Some? ==>
        productos == Leidos(fichero.lineas.value, Lector(rt)) && advertencia == Advierte(fichero.lineas.value)
    {
      if fichero.lineas.None? {
        CrearArchivoInicial();
        return [], false;
      }
      var cabecera;
      productos, cabecera := Recorrer(fichero.lineas.value, Lector(rt));
      advertencia := cabecera.Some? && !ValidarCabecera(cabecera.value);
    }

    /** guardarProductos: the file overwritten with the header and one line per record. */
    method GuardarProductos(productos: seq<Registro>, rt: Runtime)
      modifies fichero
      ensures fichero.lineas == Some(Archivo(productos, rt))
    {
      Escribir(fichero, productos, rt);
    }
  }
}
