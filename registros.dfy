/**
 * The four-column inventory file (codigo,nombre,precio,stock) that
 * RepositorioCSV and ProductoRepositorio both read and write: the record
 * a line holds, the checks a line must pass, the line a record is written
 * as, and the reading discipline both readers share (blank lines skipped,
 * the first remaining line taken as the header).
 */
module Registros {
  import opened Outcomes
  import opened JavaText
  import opened Platform

  /**
   * What `new Producto(codigo, nombre, precio, stock)` builds from a line.
   * That four-argument constructor is not part of this model; the readers
   * reach it only after their own checks, so it is taken to accept what
   * they pass it.
   */
  datatype Registro = Registro(codigo: string, nombre: string, precio: real, stock: int)

  /** The column names, in file order. */
  const Columnas: seq<string> := ["codigo", "nombre", "precio", "stock"]

  /** The header line both writers start the file with. */
  const Cabecera: string := "codigo,nombre,precio,stock"

  /** Each column name is free of commas and of surrounding blanks. */
  lemma ColumnasSimples()
    ensures forall i :: 0 <= i < 4 ==> ',' !in Columnas[i] && Trim(Columnas[i]) == Columnas[i]
  {
    assert Columnas == ["codigo", "nombre", "precio", "stock"];
    TrimRecortado("codigo");
    TrimRecortado("nombre");
    TrimRecortado("precio");
    TrimRecortado("stock");
  }

  /** The header is the column names separated by commas. */
  lemma CabeceraColumnas()
    ensures Cabecera == Join(Columnas, ",")
  {
    JoinCons(Columnas[0], Columnas[1..], ",");
    JoinCons(Columnas[1], Columnas[2..], ",");
    JoinCons(Columnas[2], Columnas[3..], ",");
  }

  /**
   * A text file: its lines as Files.readAllLines gives them, or None while
   * it does not exist. RepositorioCSV and ProductoRepositorio share
   * data/inventario.csv; ProductoRepositorioCSV keeps data/productos.csv.
   */
  class Fichero {
    var lineas: Option<seq<string>>

    constructor (lineas: Option<seq<string>>)
      ensures this.lineas == lineas
    {
      this.lineas := lineas;
    }
  }

  /**
   * The first four fields of a line turned into a record: code and name
   * trimmed, price and stock parsed after trimming, and then the three
   * checks. Any failure gives null.
   */
  function DeCampos(campos: seq<string>, rt: Runtime): (r: Option<Registro>)
    requires |campos| >= 4
    ensures r.None? <==>
      || rt.parseDouble(Trim(campos[2])).None?
      || rt.parseInt(Trim(campos[3])).None?
      || Trim(campos[0]) == []
      || rt.parseDouble(Trim(campos[2])).value < 0.0
      || rt.parseInt(Trim(campos[3])).value < 0
    ensures r.Some? ==> r.value.codigo == Trim(campos[0]) && r.value.nombre == Trim(campos[1])
    ensures r.Some? ==> Some(r.value.precio) == rt.parseDouble(Trim(campos[2])) && r.value.precio >= 0.0
    ensures r.Some? ==> Some(r.value.stock) == rt.parseInt(Trim(campos[3])) && r.value.stock >= 0
  {
    var codigo := Trim(campos[0]);
    var nombre := Trim(campos[1]);
    match rt.parseDouble(Trim(campos[2]))
    case None => None
    case Some(precio) =>
      match rt.parseInt(Trim(campos[3]))
      case None => None
      case Some(stock) =>
        if codigo == [] then None
        else if precio < 0.0 then None
        else if stock < 0 then None
        else Some(Registro(codigo, nombre, precio, stock))
  }

  /** Fields that pass every check give the record of the trimmed code and name and the parsed numbers. */
  lemma DeCamposAdmite(campos: seq<string>, precio: real, stock: int, rt: Runtime)
    requires |campos| >= 4 && Trim(campos[0]) != [] && precio >= 0.0 && stock >= 0
    requires rt.parseDouble(Trim(campos[2])) == Some(precio) && rt.parseInt(Trim(campos[3])) == Some(stock)
    ensures DeCampos(campos, rt) == Some(Registro(Trim(campos[0]), Trim(campos[1]), precio, stock))
  {
  }

  /** A price of zero passes the checks: only a negative one is refused. */
  lemma PrecioCeroAdmitido(campos: seq<string>, stock: int, rt: Runtime)
    requires |campos| >= 4 && Trim(campos[0]) != [] && stock >= 0
    requires rt.parseDouble(Trim(campos[2])) == Some(0.0) && rt.parseInt(Trim(campos[3])) == Some(stock)
    ensures DeCampos(campos, rt).Some? && DeCampos(campos, rt).value.precio == 0.0
  {
    DeCamposAdmite(campos, 0.0, stock, rt);
  }

  /** The four fields a record is written as, in their order. */
  function CamposDe(r: Registro, rt: Runtime): seq<string> {
    [r.codigo, r.nombre, rt.format2(r.precio), IntToString(r.stock)]
  }

  /** printf("%s,%s,%.2f,%d%n", codigo, nombre, precio, stock) without the line break: the fields joined by commas. */
  function Linea(r: Registro, rt: Runtime): string {
    Join(CamposDe(r, rt), ",")
  }

  /** The lines guardarProductos writes: the header, then one line per record, in list order. */
  function Archivo(rs: seq<Registro>, rt: Runtime): (lineas: seq<string>)
    ensures |lineas| == |rs| + 1 && lineas[0] == Cabecera
    ensures forall i :: 0 <= i < |rs| ==> lineas[i + 1] == Linea(rs[i], rt)
  {
    [Cabecera] + seq(|rs|, i requires 0 <= i < |rs| => Linea(rs[i], rt))
  }

  lemma ArchivoSnoc(rs: seq<Registro>, r: Registro, rt: Runtime)
    ensures Archivo(rs + [r], rt) == Archivo(rs, rt) + [Linea(r, rt)]
  {
    var a, b := Archivo(rs + [r], rt), Archivo(rs, rt) + [Linea(r, rt)];
    assert |a| == |b|;
    forall i | 0 <= i < |a| ensures a[i] == b[i] {
      if 0 < i <= |rs| {
        assert (rs + [r])[i - 1] == rs[i - 1];
      }
    }
  }

  /**
   * A record survives being written and read back when its text reads back
   * as itself: code and name free of commas and of surrounding blanks, a
   * code that is not empty, and a price and a stock that parse back to
   * their own values (the price has at most two decimals and the locale
   * writes no comma).
   */
  ghost predicate Legible(r: Registro, rt: Runtime) {
    && ',' !in r.codigo && ',' !in r.nombre && ',' !in rt.format2(r.precio)
    && r.codigo != [] && Recortado(r.codigo) && Recortado(r.nombre) && Recortado(rt.format2(r.precio))
    && rt.parseDouble(rt.format2(r.precio)) == Some(r.precio) && r.precio >= 0.0
    && rt.parseInt(IntToString(r.stock)) == Some(r.stock) && r.stock >= 0
  }

  /** A readable record's fields pass DeCampos and give the record back. */
  lemma CamposDeVuelta(r: Registro, rt: Runtime)
    requires Legible(r, rt)
    ensures DeCampos(CamposDe(r, rt), rt) == Some(r)
  {
    var s := IntToString(r.stock);
    DeTextos(r.codigo, r.nombre, rt.format2(r.precio), s, r.precio, r.stock, rt);
  }

  lemma DeTextos(codigo: string, nombre: string, precioTexto: string, stockTexto: string, precio: real, stock: int, rt: Runtime)
    requires codigo != [] && Recortado(codigo) && Recortado(nombre)
    requires Recortado(precioTexto) && rt.parseDouble(precioTexto) == Some(precio) && precio >= 0.0
    requires Recortado(stockTexto) && rt.parseInt(stockTexto) == Some(stock) && stock >= 0
    ensures DeCampos([codigo, nombre, precioTexto, stockTexto], rt) == Some(Registro(codigo, nombre, precio, stock))
  {
    var c := [codigo, nombre, precioTexto, stockTexto];
    assert c[0] == codigo && c[1] == nombre && c[2] == precioTexto && c[3] == stockTexto;
    TrimRecortado(codigo);
    TrimRecortado(nombre);
    TrimRecortado(precioTexto);
    TrimRecortado(stockTexto);
    DeCamposAdmite(c, precio, stock, rt);
  }

  /** A readable record's fields hold no comma and the last one is not empty. */
  lemma CamposSinComas(r: Registro, rt: Runtime)
    requires Legible(r, rt)
    ensures |CamposDe(r, rt)| == 4 && CamposDe(r, rt)[3] != ""
    ensures forall i :: 0 <= i < 4 ==> ',' !in CamposDe(r, rt)[i]
  {
    var c := CamposDe(r, rt);
    assert c[0] == r.codigo;
    assert c[1] == r.nombre;
    assert c[2] == rt.format2(r.precio);
    assert c[3] == IntToString(r.stock);
  }

  /** The line of a readable record is not blank: it starts with the code. */
  lemma LineaNoBlanca(r: Registro, rt: Runtime)
    requires Legible(r, rt)
    ensures !IsBlank(Linea(r, rt))
  {
    var c := CamposDe(r, rt);
    var l := Linea(r, rt);
    assert c[0] == r.codigo;
    assert l == c[0] + "," + Join(c[1..], ",");
    assert l[0] == r.codigo[0];
    NoBlancoPorInicio(l);
  }

  lemma CabeceraNoBlanca()
    ensures !IsBlank(Cabecera)
  {
    assert Cabecera[0] == 'c';
    NoBlancoPorInicio(Cabecera);
  }

  // ---------------------------------------------------------------------
  // The reading discipline
  // ---------------------------------------------------------------------

  /** Every line is blank: the header has not been met yet. */
  predicate SinCabecera(lineas: seq<string>) {
    forall i :: 0 <= i < |lineas| ==> IsBlank(lineas[i])
  }

  /**
   * What the reading loop keeps from the lines: blank lines skipped, the
   * first line that is not blank taken as the header and dropped, every
   * later line parsed and kept when it parses, in file order.
   */
  function Leidos(lineas: seq<string>, parse: string -> Option<Registro>): (rs: seq<Registro>)
    ensures |rs| <= |lineas|
  {
    if lineas == [] then []
    else
      var front, l := lineas[..|lineas| - 1], lineas[|lineas| - 1];
      if IsBlank(l) || SinCabecera(front) then Leidos(front, parse)
      else match parse(l)
        case None => Leidos(front, parse)
        case Some(r) => Leidos(front, parse) + [r]
  }

  lemma SinCabeceraSnoc(lineas: seq<string>, l: string)
    ensures SinCabecera(lineas + [l]) <==> SinCabecera(lineas) && IsBlank(l)
  {
    var t := lineas + [l];
    if SinCabecera(t) {
      forall i | 0 <= i < |lineas| ensures IsBlank(lineas[i]) {
        assert t[i] == lineas[i];
      }
      assert t[|lineas|] == l;
    }
    if SinCabecera(lineas) && IsBlank(l) {
      forall i | 0 <= i < |t| ensures IsBlank(t[i]) {
        if i < |lineas| {
          assert t[i] == lineas[i];
        } else {
          assert t[i] == l;
        }
      }
    }
  }

  /** The first line that is not blank: the one a reader takes as the header. */
  function PrimeraNoBlanca(lineas: seq<string>): (h: Option<string>)
    ensures h.None? <==> SinCabecera(lineas)
    ensures h.Some? ==>
      (!IsBlank(h.value) && exists i :: 0 <= i < |lineas| && lineas[i] == h.value && SinCabecera(lineas[..i]))
  {
    if lineas == [] then None
    else
      var front, l := lineas[..|lineas| - 1], lineas[|lineas| - 1];
      assert lineas == front + [l];
      SinCabeceraSnoc(front, l);
      if !SinCabecera(front) then
        var h := PrimeraNoBlanca(front);
        PrimeraEnElFrente(lineas, front, h);
        h
      else if IsBlank(l) then None
      else
        assert lineas[..|lineas| - 1] == front;
        Some(l)
  }

  lemma PrimeraEnElFrente(lineas: seq<string>, front: seq<string>, h: Option<string>)
    requires |front| <= |lineas| && front == lineas[..|front|]
    requires h.Some? ==> exists i :: 0 <= i < |front| && front[i] == h.value && SinCabecera(front[..i])
    ensures h.Some? ==> exists i :: 0 <= i < |lineas| && lineas[i] == h.value && SinCabecera(lineas[..i])
  {
    if h.Some? {
      var i :| 0 <= i < |front| && front[i] == h.value && SinCabecera(front[..i]);
      assert lineas[..i] == front[..i];
    }
  }

  /**
   * The reading loop both readers share: blank lines skipped, the first
   * other line kept aside as the header, each later line parsed and its
   * record kept when there is one.
   */
  method Recorrer(lineas: seq<string>, parse: string -> Option<Registro>) returns (rs: seq<Registro>, cabecera: Option<string>)
    ensures rs == Leidos(lineas, parse)
    ensures cabecera == PrimeraNoBlanca(lineas)
  {
    rs := [];
    cabecera := None;
    var esPrimeraLinea := true;
    for i := 0 to |lineas|
      invariant esPrimeraLinea <==> SinCabecera(lineas[..i])
      invariant cabecera == PrimeraNoBlanca(lineas[..i])
      invariant rs == Leidos(lineas[..i], parse)
    {
      var linea := lineas[i];
      LecturaPaso(lineas, i, parse);
      if IsBlank(linea) {
        continue;
      }
      if esPrimeraLinea {
        esPrimeraLinea := false;
        cabecera := Some(linea);
        continue;
      }
      var r := parse(linea);
      if r.Some? {
        rs := rs + [r.value];
      }
    }
    assert lineas[..|lineas|] == lineas;
  }

  /** One more line: how the three things the reading loop tracks change. */
  lemma LecturaSnoc(lineas: seq<string>, l: string, parse: string -> Option<Registro>)
    ensures SinCabecera(lineas + [l]) <==> SinCabecera(lineas) && IsBlank(l)
    ensures PrimeraNoBlanca(lineas + [l]) ==
      if !SinCabecera(lineas) then PrimeraNoBlanca(lineas) else if IsBlank(l) then None else Some(l)
    ensures Leidos(lineas + [l], parse) ==
      if IsBlank(l) || SinCabecera(lineas) || parse(l).None? then Leidos(lineas, parse)
      else Leidos(lineas, parse) + [parse(l).value]
  {
    assert (lineas + [l])[..|lineas|] == lineas;
    SinCabeceraSnoc(lineas, l);
  }

  lemma LecturaPaso(lineas: seq<string>, i: nat, parse: string -> Option<Registro>)
    requires i < |lineas|
    ensures SinCabecera(lineas[..i + 1]) <==> SinCabecera(lineas[..i]) && IsBlank(lineas[i])
    ensures PrimeraNoBlanca(lineas[..i + 1]) ==
      if !SinCabecera(lineas[..i]) then PrimeraNoBlanca(lineas[..i]) else if IsBlank(lineas[i]) then None else Some(lineas[i])
    ensures Leidos(lineas[..i + 1], parse) ==
      if IsBlank(lineas[i]) || SinCabecera(lineas[..i]) || parse(lineas[i]).None? then Leidos(lineas[..i], parse)
      else Leidos(lineas[..i], parse) + [parse(lineas[i]).value]
  {
    assert lineas[..i + 1] == lineas[..i] + [lineas[i]];
    LecturaSnoc(lineas[..i], lineas[i], parse);
  }

  /** guardarProductos: the header, then each record's line, the file overwritten. */
  method Escribir(fichero: Fichero, rs: seq<Registro>, rt: Runtime)
    modifies fichero
    ensures fichero.lineas == Some(Archivo(rs, rt))
  {
    var lineas := [Cabecera];
    for i := 0 to |rs|
      invariant lineas == Archivo(rs[..i], rt)
    {
      assert rs[..i + 1] == rs[..i] + [rs[i]];
      ArchivoSnoc(rs[..i], rs[i], rt);
      lineas := lineas + [Linea(rs[i], rt)];
    }
    assert rs[..|rs|] == rs;
    fichero.lineas := Some(lineas);
  }

  /** A written file's first line that is not blank is its header. */
  lemma PrimeraEsCabecera(rs: seq<Registro>, rt: Runtime)
    ensures PrimeraNoBlanca(Archivo(rs, rt)) == Some(Cabecera)
  {
    var a := Archivo(rs, rt);
    CabeceraNoBlanca();
    var h := PrimeraNoBlanca(a);
    assert !SinCabecera(a) by {
      assert !IsBlank(a[0]);
    }
    forall j | 0 < j <= |a| ensures !SinCabecera(a[..j]) {
      assert a[..j][0] == a[0];
    }
    var i :| 0 <= i < |a| && a[i] == h.value && SinCabecera(a[..i]);
  }

  /** Before the header nothing is read, whatever the lines hold. */
  lemma {:induction false} NadaAntesDeCabecera(lineas: seq<string>, parse: string -> Option<Registro>, h: string)
    requires SinCabecera(lineas)
    ensures Leidos(lineas, parse) == []
    ensures !IsBlank(h) ==> Leidos(lineas + [h], parse) == []
    decreases |lineas|
  {
    if lineas != [] {
      NadaAntesDeCabecera(lineas[..|lineas| - 1], parse, h);
    }
    assert (lineas + [h])[..|lineas|] == lineas;
  }

  /** One more line after the header adds its record, if any, at the end. */
  lemma LeidosSnoc(lineas: seq<string>, l: string, parse: string -> Option<Registro>)
    requires !SinCabecera(lineas) && !IsBlank(l)
    ensures Leidos(lineas + [l], parse) == Leidos(lineas, parse) + (if parse(l).Some? then [parse(l).value] else [])
  {
    assert (lineas + [l])[..|lineas|] == lineas;
  }

  /**
   * Writing records and reading the file back gives the same records, in
   * the same order, when each record's line parses back to it.
   */
  lemma {:induction false} LeerLoEscrito(rs: seq<Registro>, parse: string -> Option<Registro>, rt: Runtime)
    requires forall i :: 0 <= i < |rs| ==> !IsBlank(Linea(rs[i], rt)) && parse(Linea(rs[i], rt)) == Some(rs[i])
    ensures Leidos(Archivo(rs, rt), parse) == rs
    decreases |rs|
  {
    if rs == [] {
      assert Archivo(rs, rt) == [Cabecera];
      CabeceraNoBlanca();
      NadaAntesDeCabecera([], parse, Cabecera);
      assert [] + [Cabecera] == [Cabecera];
    } else {
      LeerLoEscrito(rs[..|rs| - 1], parse, rt);
      LeerLoEscritoPaso(rs, parse, rt);
    }
  }

  /** The step of LeerLoEscrito: one more record written is one more record read. */
  lemma LeerLoEscritoPaso(rs: seq<Registro>, parse: string -> Option<Registro>, rt: Runtime)
    requires rs != [] && Leidos(Archivo(rs[..|rs| - 1], rt), parse) == rs[..|rs| - 1]
    requires !IsBlank(Linea(rs[|rs| - 1], rt)) && parse(Linea(rs[|rs| - 1], rt)) == Some(rs[|rs| - 1])
    ensures Leidos(Archivo(rs, rt), parse) == rs
  {
    var front, r := rs[..|rs| - 1], rs[|rs| - 1];
    var a, l := Archivo(front, rt), Linea(r, rt);
    assert Archivo(rs, rt) == a + [l] by {
      assert rs == front + [r];
      ArchivoSnoc(front, r, rt);
    }
    assert !SinCabecera(a) by {
      CabeceraNoBlanca();
      assert a[0] == Cabecera;
    }
    LeidoUnoMas(a, l, parse, front, r);
    assert front + [r] == rs;
  }

  lemma LeidoUnoMas(a: seq<string>, l: string, parse: string -> Option<Registro>, front: seq<Registro>, r: Registro)
    requires !SinCabecera(a) && !IsBlank(l)
    requires Leidos(a, parse) == front && parse(l) == Some(r)
    ensures Leidos(a + [l], parse) == front + [r]
  {
    LeidosSnoc(a, l, parse);
  }
}
