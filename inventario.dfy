/**
 * GestionInventario: the inventory screen's service. It keeps the product
 * list the screen shows next to the repository's map by code, writes the
 * list back to the products file after every change, and imports products
 * from another CSV file with a line-by-line report.
 */
module Inventarios {
  import opened Outcomes
  import opened JavaText
  import opened Platform
  import opened Streams
  import opened Dominio
  import opened Catalogos
  import opened RepositoriosMapa

  // ---------------------------------------------------------------------
  // importarDesdeCSV, line by line
  // ---------------------------------------------------------------------

  /** What one imported line comes to: a new product, a replaced one, or a caught exception. */
  datatype Resultado = Nuevo(ficha: Ficha) | Actualizado(ficha: Ficha) | Fallido(error: Error)

  /** A line of the report: the number of the line in the file (every line counts, from 1) and what it came to. */
  datatype Entrada = Entrada(numero: nat, resultado: Resultado)

  /** Where an import stands: the report's entries, the repository's products by code and the list's products. */
  datatype Importe = Importe(entradas: seq<Entrada>, fichas: map<string, Ficha>, lista: seq<Ficha>)

  function CodigoFicha(f: Ficha): string {
    f.codigo
  }

  function CodigoProducto(p: Producto): string {
    p.codigo
  }

  /** `p -> !p.getCodigo().equals(codigo)` on product values. */
  function OtraFicha(codigo: string): (f: Ficha -> bool) {
    (f: Ficha) => f.codigo != codigo
  }

  /**
   * One line: skipped when blank or starting with "codigo,"; a field count
   * other than six is "Campos incompletos"; then the product is built (its
   * number and constructor errors caught) and is new or a replacement
   * according to whether the repository already has its code.
   */
  function Clasificar(fichas: map<string, Ficha>, linea: string, rt: Runtime): (r: Option<Resultado>)
    ensures r.None? <==> Omitida(linea)
    ensures r.Some? && |JavaSplit(linea)| != 6 ==> r.value == Fallido(ArgumentoInvalido(CamposIncompletos))
    ensures r.Some? && !r.value.Fallido? ==>
      |JavaSplit(linea)| == 6 && FichaDeCampos(JavaSplit(linea), rt) == Success(r.value.ficha)
    ensures r.Some? && |JavaSplit(linea)| == 6 && FichaDeCampos(JavaSplit(linea), rt).Success? ==> !r.value.Fallido?
    ensures r.Some? && |JavaSplit(linea)| == 6 && FichaDeCampos(JavaSplit(linea), rt).Failure? ==>
      r.value == Fallido(FichaDeCampos(JavaSplit(linea), rt).error)
    ensures r.Some? && !r.value.Fallido? ==> (r.value.Actualizado? <==> r.value.ficha.codigo in fichas)
  {
    if Omitida(linea) then None
    else
      var campos := JavaSplit(linea);
      if |campos| != 6 then Some(Fallido(ArgumentoInvalido(CamposIncompletos)))
      else match FichaDeCampos(campos, rt)
        case Failure(e) => Some(Fallido(e))
        case Success(f) => if f.codigo in fichas then Some(Actualizado(f)) else Some(Nuevo(f))
  }

  /** A line that builds a product from six fields is imported as that product. */
  lemma ClasificarFicha(fichas: map<string, Ficha>, linea: string, f: Ficha, rt: Runtime)
    requires !Omitida(linea) && |JavaSplit(linea)| == 6 && FichaDeCampos(JavaSplit(linea), rt) == Success(f)
    ensures Clasificar(fichas, linea, rt) == Some(if f.codigo in fichas then Actualizado(f) else Nuevo(f))
  {
  }

  /** The report after one line: an entry for it unless it was skipped. */
  function Registrar(e: seq<Entrada>, numero: nat, r: Option<Resultado>): seq<Entrada> {
    if r.Some? then e + [Entrada(numero, r.value)] else e
  }

  /** The repository after one line: `actualizar` and `agregar` both put the product under its code. */
  function FichasTras(fichas: map<string, Ficha>, r: Option<Resultado>): map<string, Ficha> {
    if r.Some? && !r.value.Fallido? then fichas[r.value.ficha.codigo := r.value.ficha] else fichas
  }

  /** The list after one line: a replacement first drops every product with the code; both add at the end. */
  function ListaTras(lista: seq<Ficha>, r: Option<Resultado>): seq<Ficha> {
    match r
    case Some(Nuevo(f)) => lista + [f]
    case Some(Actualizado(f)) => Filter(lista, OtraFicha(f.codigo)) + [f]
    case _ => lista
  }

  /** The list after an update or an addition of `f`. */
  lemma ListaTrasCasos(lista: seq<Ficha>, f: Ficha)
    ensures ListaTras(lista, Some(Actualizado(f))) == Filter(lista, OtraFicha(f.codigo)) + [f]
    ensures ListaTras(lista, Some(Nuevo(f))) == lista + [f]
  {
  }

  /** The import after the line numbered `numero`. */
  function Avanzar(imp: Importe, numero: nat, linea: string, rt: Runtime): Importe {
    var r := Clasificar(imp.fichas, linea, rt);
    Importe(Registrar(imp.entradas, numero, r), FichasTras(imp.fichas, r), ListaTras(imp.lista, r))
  }

  /** The lines read in order from the repository's and the list's products. */
  function Importar(fichas: map<string, Ficha>, lista: seq<Ficha>, lineas: seq<string>, rt: Runtime): Importe
    decreases |lineas|
  {
    if lineas == [] then Importe([], fichas, lista)
    else Avanzar(Importar(fichas, lista, lineas[..|lineas| - 1], rt), |lineas|, lineas[|lineas| - 1], rt)
  }

  lemma ImportarSnoc(fichas: map<string, Ficha>, lista: seq<Ficha>, lineas: seq<string>, i: nat, rt: Runtime)
    requires i < |lineas|
    ensures Importar(fichas, lista, lineas[..i + 1], rt) == Avanzar(Importar(fichas, lista, lineas[..i], rt), i + 1, lineas[i], rt)
  {
    assert lineas[..i + 1][..i] == lineas[..i];
  }

  /** How many lines `omitida` does not skip. */
  function NoOmitidas(lineas: seq<string>, omitida: string -> bool): nat
    decreases |lineas|
  {
    if lineas == [] then 0
    else NoOmitidas(lineas[..|lineas| - 1], omitida) + if omitida(lineas[|lineas| - 1]) then 0 else 1
  }

  /** The line numbers the entries carry. */
  function Numeros(e: seq<Entrada>): set<nat> {
    set k | 0 <= k < |e| :: e[k].numero
  }

  /** The numbers, counted from 1, of the lines `omitida` does not skip. */
  function Leidas(lineas: seq<string>, omitida: string -> bool): set<nat> {
    set i | 0 <= i < |lineas| && !omitida(lineas[i]) :: i + 1
  }

  /**
   * The entries of a report on `lineas`: one for every line not skipped
   * and for no other, in file order, each carrying the number of its line.
   */
  ghost predicate EntradasDe(e: seq<Entrada>, lineas: seq<string>, omitida: string -> bool) {
    && |e| == NoOmitidas(lineas, omitida)
    && (forall k, l :: 0 <= k < l < |e| ==> e[k].numero < e[l].numero)
    && Numeros(e) == Leidas(lineas, omitida)
  }

  lemma LeidasSnoc(lineas: seq<string>, linea: string, omitida: string -> bool)
    ensures Leidas(lineas + [linea], omitida) == Leidas(lineas, omitida) + if omitida(linea) then {} else {|lineas| + 1}
  {
    var l := lineas + [linea];
    assert forall i :: 0 <= i < |lineas| ==> l[i] == lineas[i];
    assert l[|lineas|] == linea;
  }

  lemma NumerosSnoc(e: seq<Entrada>, x: Entrada)
    ensures Numeros(e + [x]) == Numeros(e) + {x.numero}
  {
    var t := e + [x];
    assert forall k :: 0 <= k < |e| ==> t[k] == e[k];
    assert t[|e|] == x;
  }

  /** One more line, registered under the next number unless skipped, extends the entries of the report. */
  lemma EntradasPaso(e: seq<Entrada>, lineas: seq<string>, linea: string, r: Option<Resultado>, omitida: string -> bool)
    requires EntradasDe(e, lineas, omitida) && (r.None? <==> omitida(linea))
    ensures EntradasDe(Registrar(e, |lineas| + 1, r), lineas + [linea], omitida)
  {
    var l := lineas + [linea];
    assert l[..|lineas|] == lineas;
    LeidasSnoc(lineas, linea, omitida);
    if r.Some? {
      var x := Entrada(|lineas| + 1, r.value);
      NumerosSnoc(e, x);
      var t := e + [x];
      forall k | 0 <= k < |e| ensures t[k].numero < x.numero {
        assert e[k].numero in Leidas(lineas, omitida);
      }
    }
  }

  /** The report of an import has one entry for every line not skipped, in order (importarDesdeCSV's `continue`). */
  lemma {:induction false} ImportarEntradas(fichas: map<string, Ficha>, lista: seq<Ficha>, lineas: seq<string>, rt: Runtime)
    ensures EntradasDe(Importar(fichas, lista, lineas, rt).entradas, lineas, Omitida)
    decreases |lineas|
  {
    if lineas != [] {
      ImportarEntradas(fichas, lista, lineas[..|lineas| - 1], rt);
      EntradasUltima(fichas, lista, lineas, rt);
    }
  }

  /** The step of ImportarEntradas, for the last line. */
  lemma EntradasUltima(fichas: map<string, Ficha>, lista: seq<Ficha>, lineas: seq<string>, rt: Runtime)
    requires lineas != [] && EntradasDe(Importar(fichas, lista, lineas[..|lineas| - 1], rt).entradas, lineas[..|lineas| - 1], Omitida)
    ensures EntradasDe(Importar(fichas, lista, lineas, rt).entradas, lineas, Omitida)
  {
    var front, ultima := lineas[..|lineas| - 1], lineas[|lineas| - 1];
    var a := Importar(fichas, lista, front, rt);
    var r := Clasificar(a.fichas, ultima, rt);
    assert r.None? <==> Omitida(ultima);
    EntradasPaso(a.entradas, front, ultima, r, Omitida);
    assert Importar(fichas, lista, lineas, rt).entradas == Registrar(a.entradas, |front| + 1, r);
    SplitLast(lineas);
  }

  /** How many entries are new products, replacements and errors. */
  function Altas(e: seq<Entrada>): nat
    decreases |e|
  {
    if e == [] then 0 else Altas(e[..|e| - 1]) + if e[|e| - 1].resultado.Nuevo? then 1 else 0
  }

  function Actualizaciones(e: seq<Entrada>): nat
    decreases |e|
  {
    if e == [] then 0 else Actualizaciones(e[..|e| - 1]) + if e[|e| - 1].resultado.Actualizado? then 1 else 0
  }

  function Errores(e: seq<Entrada>): nat
    decreases |e|
  {
    if e == [] then 0 else Errores(e[..|e| - 1]) + if e[|e| - 1].resultado.Fallido? then 1 else 0
  }

  /** The three counters of the summary add up to the entries, hence to the lines not skipped. */
  lemma {:induction false} Recuento(e: seq<Entrada>)
    ensures Altas(e) + Actualizaciones(e) + Errores(e) == |e|
    decreases |e|
  {
    if e != [] {
      Recuento(e[..|e| - 1]);
    }
  }

  /** The products that went into the repository, in line order. */
  function Exitos(e: seq<Entrada>): (fs: seq<Ficha>)
    ensures |fs| == Altas(e) + Actualizaciones(e)
    decreases |e|
  {
    if e == [] then []
    else Exitos(e[..|e| - 1]) + if e[|e| - 1].resultado.Fallido? then [] else [e[|e| - 1].resultado.ficha]
  }

  /** One line puts into the repository exactly the product its entry records. */
  lemma ExitosPaso(fichas: map<string, Ficha>, e: seq<Entrada>, numero: nat, r: Option<Resultado>)
    ensures FichasTras(Poner(fichas, Exitos(e)), r) == Poner(fichas, Exitos(Registrar(e, numero, r)))
  {
    if r.Some? {
      var x := Entrada(numero, r.value);
      var e2 := e + [x];
      assert e2[..|e2| - 1] == e;
      if r.value.Fallido? {
        assert Exitos(e2) == Exitos(e);
      } else {
        var fs := Exitos(e) + [r.value.ficha];
        assert Exitos(e2) == fs;
        assert fs[..|fs| - 1] == Exitos(e);
      }
    }
  }

  /** The repository ends up with every imported product put under its code, in line order: the last one with a code wins. */
  lemma {:induction false} ImportarFichas(fichas: map<string, Ficha>, lista: seq<Ficha>, lineas: seq<string>, rt: Runtime)
    ensures Importar(fichas, lista, lineas, rt).fichas == Poner(fichas, Exitos(Importar(fichas, lista, lineas, rt).entradas))
    decreases |lineas|
  {
    if lineas != [] {
      var front := lineas[..|lineas| - 1];
      ImportarFichas(fichas, lista, front, rt);
      var a := Importar(fichas, lista, front, rt);
      ExitosPaso(fichas, a.entradas, |lineas|, Clasificar(a.fichas, lineas[|lineas| - 1], rt));
    }
  }

  // ---------------------------------------------------------------------
  // The list and the repository
  // ---------------------------------------------------------------------

  /** No two elements of the list have the same code. */
  ghost predicate Distintas<T>(l: seq<T>, clave: T -> string) {
    forall i, j :: 0 <= i < j < |l| ==> clave(l[i]) != clave(l[j])
  }

  /** Each element of the list is what the map has under its code. */
  ghost predicate Registradas<T>(m: map<string, T>, l: seq<T>, clave: T -> string) {
    forall i :: 0 <= i < |l| ==> clave(l[i]) in m && m[clave(l[i])] == l[i]
  }

  /** Every code of the map is in the list. */
  ghost predicate Cubiertas<T>(m: map<string, T>, l: seq<T>, clave: T -> string) {
    forall c :: c in m ==> exists i :: 0 <= i < |l| && clave(l[i]) == c
  }

  /** The list and the map agree: every code once in the list, which holds exactly what the map holds. */
  ghost predicate Coherentes<T>(m: map<string, T>, l: seq<T>, clave: T -> string) {
    Distintas(l, clave) && Registradas(m, l, clave) && Cubiertas(m, l, clave)
  }

  /** The removeIf of a code on the list: the elements kept are those with another code. */
  ghost predicate Descarta<T>(l: seq<T>, f: T -> bool, clave: T -> string, c: string) {
    forall y :: y in l ==> (f(y) <==> clave(y) != c)
  }

  /** Appending an element whose code the list does not have keeps the codes distinct. */
  lemma DistintasTrasAnadir<T>(l: seq<T>, x: T, clave: T -> string)
    requires Distintas(l, clave) && forall i :: 0 <= i < |l| ==> clave(l[i]) != clave(x)
    ensures Distintas(l + [x], clave)
  {
    var t := l + [x];
    forall i, j | 0 <= i < j < |t| ensures clave(t[i]) != clave(t[j]) {
      assert t[i] == l[i];
      if j < |l| {
        assert t[j] == l[j];
      }
    }
  }

  /** Adding an element whose code the map does not have, to both, keeps them in agreement (agregar, then add). */
  lemma CoherentesTrasAlta<T>(m: map<string, T>, l: seq<T>, x: T, clave: T -> string)
    requires Coherentes(m, l, clave) && clave(x) !in m
    ensures Coherentes(m[clave(x) := x], l + [x], clave)
  {
    var t, n := l + [x], m[clave(x) := x];
    DistintasTrasAnadir(l, x, clave);
    forall i | 0 <= i < |t| ensures clave(t[i]) in n && n[clave(t[i])] == t[i] {
      if i < |l| {
        assert t[i] == l[i];
      }
    }
    forall c | c in n ensures exists i :: 0 <= i < |t| && clave(t[i]) == c {
      if c == clave(x) {
        assert clave(t[|l|]) == c;
      } else {
        var i :| 0 <= i < |l| && clave(l[i]) == c;
        assert t[i] == l[i];
      }
    }
  }

  /** Removing a code from both keeps them in agreement (eliminar, then removeIf). */
  lemma CoherentesTrasEliminar<T>(m: map<string, T>, l: seq<T>, c: string, clave: T -> string, f: T -> bool)
    requires Coherentes(m, l, clave) && Descarta(l, f, clave, c)
    ensures Coherentes(m - {c}, Filter(l, f), clave)
  {
    FilterDistinct(l, f, clave);
    RegistradasTrasEliminar(m, l, c, clave, f);
    CubiertasTrasEliminar(m, l, c, clave, f);
  }

  lemma RegistradasTrasEliminar<T>(m: map<string, T>, l: seq<T>, c: string, clave: T -> string, f: T -> bool)
    requires Registradas(m, l, clave) && Descarta(l, f, clave, c)
    ensures Registradas(m - {c}, Filter(l, f), clave)
  {
    var t := Filter(l, f);
    forall i | 0 <= i < |t| ensures clave(t[i]) in m - {c} && (m - {c})[clave(t[i])] == t[i] {
      FilterMember(l, f, t[i]);
      var j :| 0 <= j < |l| && l[j] == t[i];
      assert clave(l[j]) in m && m[clave(l[j])] == l[j];
    }
  }

  lemma CubiertasTrasEliminar<T>(m: map<string, T>, l: seq<T>, c: string, clave: T -> string, f: T -> bool)
    requires Cubiertas(m, l, clave) && Descarta(l, f, clave, c)
    ensures Cubiertas(m - {c}, Filter(l, f), clave)
  {
    var t := Filter(l, f);
    forall d | d in m - {c} ensures exists i :: 0 <= i < |t| && clave(t[i]) == d {
      assert d in m && d != c;
      var i :| 0 <= i < |l| && clave(l[i]) == d;
      FilterMember(l, f, l[i]);
      var k :| 0 <= k < |t| && t[k] == l[i];
    }
  }

  /** Replacing by code in both keeps them in agreement (actualizar, then removeIf and add). */
  lemma CoherentesTrasReemplazo<T>(m: map<string, T>, l: seq<T>, x: T, clave: T -> string, f: T -> bool)
    requires Coherentes(m, l, clave) && Descarta(l, f, clave, clave(x))
    ensures Coherentes(m[clave(x) := x], Filter(l, f) + [x], clave)
  {
    CoherentesTrasEliminar(m, l, clave(x), clave, f);
    var t := Filter(l, f);
    assert forall i :: 0 <= i < |t| ==> clave(t[i]) != clave(x) by {
      assert forall i :: 0 <= i < |t| ==> f(t[i]) && t[i] in multiset(l);
    }
    CoherentesTrasAlta(m - {clave(x)}, t, x, clave);
    QuitarYPoner(m, clave(x), x);
  }

  lemma QuitarYPoner<T>(m: map<string, T>, c: string, x: T)
    ensures (m - {c})[c := x] == m[c := x]
  {
  }

  /**
   * Putting an element under its code in the map alone (actualizar, with
   * the list unchanged) keeps the agreement exactly when it was listed.
   */
  lemma CoherentesTrasActualizar<T>(m: map<string, T>, l: seq<T>, x: T, clave: T -> string)
    requires Coherentes(m, l, clave)
    ensures Coherentes(m[clave(x) := x], l, clave) <==> x in l
  {
    if x in l {
      var i :| 0 <= i < |l| && l[i] == x;
      assert m[clave(x) := x] == m;
    }
    if Coherentes(m[clave(x) := x], l, clave) {
      assert clave(x) in m[clave(x) := x];
      var i :| 0 <= i < |l| && clave(l[i]) == clave(x);
      assert m[clave(x) := x][clave(l[i])] == l[i];
    }
  }

  /** An import that starts with the list and the repository in agreement leaves them in agreement. */
  lemma {:induction false} ImportarCoherente(fichas: map<string, Ficha>, lista: seq<Ficha>, lineas: seq<string>, rt: Runtime)
    requires Coherentes(fichas, lista, CodigoFicha)
    ensures Coherentes(Importar(fichas, lista, lineas, rt).fichas, Importar(fichas, lista, lineas, rt).lista, CodigoFicha)
    decreases |lineas|
  {
    if lineas != [] {
      var front := lineas[..|lineas| - 1];
      ImportarCoherente(fichas, lista, front, rt);
      var a := Importar(fichas, lista, front, rt);
      var r := Clasificar(a.fichas, lineas[|lineas| - 1], rt);
      if r.Some? && r.value.Actualizado? {
        CoherentesTrasReemplazo(a.fichas, a.lista, r.value.ficha, CodigoFicha, OtraFicha(r.value.ficha.codigo));
      } else if r.Some? && r.value.Nuevo? {
        CoherentesTrasAlta(a.fichas, a.lista, r.value.ficha, CodigoFicha);
      }
    }
  }

  /** The line of a product imported as that product adds no error and puts the product under its code. */
  lemma AvanzarFicha(imp: Importe, numero: nat, linea: string, f: Ficha, rt: Runtime)
    requires Clasificar(imp.fichas, linea, rt) == Some(if f.codigo in imp.fichas then Actualizado(f) else Nuevo(f))
    ensures Errores(Avanzar(imp, numero, linea, rt).entradas) == Errores(imp.entradas)
    ensures Avanzar(imp, numero, linea, rt).fichas == imp.fichas[f.codigo := f]
  {
    var e := Avanzar(imp, numero, linea, rt).entradas;
    assert e[..|e| - 1] == imp.entradas;
  }

  /** The line guardarTodos writes for a readable product is imported as that product. */
  lemma AvanzarLegible(imp: Importe, numero: nat, f: Ficha, rt: Runtime)
    requires FichaLegible(f, rt)
    ensures Errores(Avanzar(imp, numero, LineaFicha(f, rt), rt).entradas) == Errores(imp.entradas)
    ensures Avanzar(imp, numero, LineaFicha(f, rt), rt).fichas == imp.fichas[f.codigo := f]
  {
    LineaLegible(f, rt);
    ClasificarFicha(imp.fichas, LineaFicha(f, rt), f, rt);
    AvanzarFicha(imp, numero, LineaFicha(f, rt), f, rt);
  }

  /** The header line alone imports nothing. */
  lemma ImportarCabecera(fichas: map<string, Ficha>, lista: seq<Ficha>, rt: Runtime)
    ensures Importar(fichas, lista, [CabeceraSeis], rt) == Importe([], fichas, lista)
  {
    CabeceraSeisOmitida();
    assert [CabeceraSeis][..0] == [];
  }

  /** Importing a file saved by guardarTodos gives no errors and puts every product saved. */
  lemma {:induction false} ImportarLoGuardado(fichas: map<string, Ficha>, lista: seq<Ficha>, fs: seq<Ficha>, rt: Runtime)
    requires forall i :: 0 <= i < |fs| ==> FichaLegible(fs[i], rt)
    ensures Errores(Importar(fichas, lista, ArchivoFichas(fs, rt), rt).entradas) == 0
    ensures Importar(fichas, lista, ArchivoFichas(fs, rt), rt).fichas == Poner(fichas, fs)
    decreases |fs|
  {
    if fs == [] {
      assert ArchivoFichas(fs, rt) == [CabeceraSeis];
      ImportarCabecera(fichas, lista, rt);
    } else {
      ImportarLoGuardado(fichas, lista, fs[..|fs| - 1], rt);
      LoGuardadoPaso(fichas, lista, fs, rt);
    }
  }

  /** The step of ImportarLoGuardado: one more product saved is one more product imported. */
  lemma LoGuardadoPaso(fichas: map<string, Ficha>, lista: seq<Ficha>, fs: seq<Ficha>, rt: Runtime)
    requires fs != [] && FichaLegible(fs[|fs| - 1], rt)
    requires Errores(Importar(fichas, lista, ArchivoFichas(fs[..|fs| - 1], rt), rt).entradas) == 0
    requires Importar(fichas, lista, ArchivoFichas(fs[..|fs| - 1], rt), rt).fichas == Poner(fichas, fs[..|fs| - 1])
    ensures Errores(Importar(fichas, lista, ArchivoFichas(fs, rt), rt).entradas) == 0
    ensures Importar(fichas, lista, ArchivoFichas(fs, rt), rt).fichas == Poner(fichas, fs)
  {
    var front, f := fs[..|fs| - 1], fs[|fs| - 1];
    SplitLast(fs);
    ArchivoFichasSnoc(front, f, rt);
    var a, a0 := ArchivoFichas(fs, rt), ArchivoFichas(front, rt);
    assert a[..|a| - 1] == a0 && a[|a| - 1] == LineaFicha(f, rt);
    var antes := Importar(fichas, lista, a0, rt);
    assert Importar(fichas, lista, a, rt) == Avanzar(antes, |a|, LineaFicha(f, rt), rt);
    AvanzarLegible(antes, |a|, f, rt);
  }

  // ---------------------------------------------------------------------
  // The report
  // ---------------------------------------------------------------------

  /** The report's two heading lines. */
  const TituloReporte: string := "REPORTE DE IMPORTACIÓN\n" + "**********************\n"

  /** One report line; `mensaje` stands for e.getMessage() of a caught exception. */
  function LineaReporte(e: Entrada, mensaje: Error -> string): string {
    "Línea " + IntToString(e.numero) +
    match e.resultado
    case Actualizado(f) => ": Actualizado - " + f.codigo + "\n"
    case Nuevo(f) => ": Nuevo - " + f.codigo + "\n"
    case Fallido(err) => ": ERROR - " + mensaje(err) + "\n"
  }

  function LineasReporte(e: seq<Entrada>, mensaje: Error -> string): string
    decreases |e|
  {
    if e == [] then "" else LineasReporte(e[..|e| - 1], mensaje) + LineaReporte(e[|e| - 1], mensaje)
  }

  /** The closing summary. */
  function Resumen(altas: nat, actualizaciones: nat, errores: nat): string {
    "\nResumen: Altas=" + IntToString(altas) + ", Actualizaciones=" + IntToString(actualizaciones) +
    ", Errores=" + IntToString(errores)
  }

  /** The whole report of a file that could be read. */
  function Reporte(e: seq<Entrada>, mensaje: Error -> string): string {
    TituloReporte + LineasReporte(e, mensaje) + Resumen(Altas(e), Actualizaciones(e), Errores(e))
  }

  /** One more entry adds one line to the report and one to the matching counter. */
  lemma EntradaSnoc(e: seq<Entrada>, x: Entrada, mensaje: Error -> string)
    ensures LineasReporte(e + [x], mensaje) == LineasReporte(e, mensaje) + LineaReporte(x, mensaje)
    ensures Altas(e + [x]) == Altas(e) + if x.resultado.Nuevo? then 1 else 0
    ensures Actualizaciones(e + [x]) == Actualizaciones(e) + if x.resultado.Actualizado? then 1 else 0
    ensures Errores(e + [x]) == Errores(e) + if x.resultado.Fallido? then 1 else 0
  {
    assert (e + [x])[..|e|] == e;
  }

  /**
   * The bookkeeping of one line in importarDesdeCSV's loop: a line not
   * skipped adds its report line and one to the counter of its kind.
   */
  method Anotar(ghost e: seq<Entrada>, numero: nat, r: Option<Resultado>, mensaje: Error -> string,
                reporte: string, altas: nat, actualizaciones: nat, errores: nat)
    returns (reporte': string, altas': nat, actualizaciones': nat, errores': nat)
    requires reporte == LineasReporte(e, mensaje)
    requires altas == Altas(e) && actualizaciones == Actualizaciones(e) && errores == Errores(e)
    ensures reporte' == LineasReporte(Registrar(e, numero, r), mensaje)
    ensures altas' == Altas(Registrar(e, numero, r)) && actualizaciones' == Actualizaciones(Registrar(e, numero, r))
    ensures errores' == Errores(Registrar(e, numero, r))
  {
    reporte', altas', actualizaciones', errores' := reporte, altas, actualizaciones, errores;
    if r.Some? {
      var entrada := Entrada(numero, r.value);
      EntradaSnoc(e, entrada, mensaje);
      match r.value {
        case Nuevo(_) => altas' := altas + 1;
        case Actualizado(_) => actualizaciones' := actualizaciones + 1;
        case Fallido(_) => errores' := errores + 1;
      }
      reporte' := reporte + LineaReporte(entrada, mensaje);
    }
  }

  // ---------------------------------------------------------------------
  // The service
  // ---------------------------------------------------------------------

  /** `stream().filter(...)` of buscar: the lower-cased name or code contains the lower-cased text. */
  predicate Coincide(p: Producto, texto: string) {
    Contains(ToLower(p.nombre), ToLower(texto)) || Contains(ToLower(p.codigo), ToLower(texto))
  }

  class GestionInventario {
    const repositorio: ProductoRepositorioCsv
    var productos: seq<Producto>

    /** The repository keeps its invariant and every listed product is valid. */
    ghost predicate Valid()
      reads this, repositorio, repositorio.productosPorCodigo.Values, productos
    {
      repositorio.Valid() && forall i :: 0 <= i < |productos| ==> productos[i].Valid()
    }

    /** The list and the repository's map hold the same objects, each code once. */
    ghost predicate Coherente()
      reads this, repositorio
    {
      Coherentes(repositorio.productosPorCodigo, productos, CodigoProducto)
    }

    constructor (repositorio: ProductoRepositorioCsv)
      requires repositorio.Valid()
      ensures this.repositorio == repositorio && productos == [] && Valid()
    {
      this.repositorio := repositorio;
      productos := [];
    }

    /**
     * cargarDatos: the repository loads the file; when that raises, the list
     * is kept; otherwise the list becomes the repository's products, each once.
     */
    method CargarDatos(rt: Runtime) returns (o: Outcome)
      requires Valid()
      modifies this`productos, repositorio`productosPorCodigo
      ensures Valid()
      ensures repositorio.fichero.lineas.None? ==> o == Pass && repositorio.productosPorCodigo == old(repositorio.productosPorCodigo)
      ensures repositorio.fichero.lineas.Some? ==>
        Carga(o, repositorio.Fichas()) == Cargadas(old(repositorio.Fichas()), repositorio.fichero.lineas.value, rt)
      ensures o.Fail? ==> productos == old(productos)
      ensures o.Pass? ==> Coherente() && |productos| == |repositorio.productosPorCodigo.Keys|
    {
      o := repositorio.Cargar(rt);
      if o.Fail? {
        return;
      }
      Refrescar();
    }

    /** `productos.clear(); productos.addAll(repositorio.getProductos())`. */
    method Refrescar()
      requires Valid()
      modifies this`productos
      ensures Valid() && Coherente() && |productos| == |repositorio.productosPorCodigo.Keys|
    {
      productos := repositorio.GetProductos();
      var m := repositorio.productosPorCodigo;
      forall c | c in m ensures exists i :: 0 <= i < |productos| && CodigoProducto(productos[i]) == c {
        var i :| 0 <= i < |productos| && productos[i] == m[c];
      }
    }

    /** listarTodos: a new list with the same products. */
    method ListarTodos() returns (copia: array<Producto>)
      ensures fresh(copia) && copia[..] == productos
    {
      copia := new Producto[|productos|](k requires 0 <= k < |productos| reads this => productos[k]);
    }

    /** guardar: the list written to the products file. */
    method Guardar(rt: Runtime)
      requires Valid()
      modifies repositorio.fichero
      ensures Valid()
      ensures repositorio.Fichas() == old(repositorio.Fichas()) && ListaFichas(productos) == old(ListaFichas(productos))
      ensures old(Coherente()) ==> Coherente()
      ensures repositorio.fichero.lineas == Some(ArchivoFichas(ListaFichas(productos), rt))
    {
      repositorio.GuardarTodos(productos, rt);
    }

    /**
     * agregarProducto: a code the repository has raises ProductoDuplicado
     * before anything changes; otherwise the product goes into the map and
     * at the end of the list, and the list is saved.
     */
    method AgregarProducto(producto: Producto, rt: Runtime) returns (o: Outcome)
      requires Valid() && producto.Valid()
      modifies this`productos, repositorio`productosPorCodigo, repositorio.fichero
      ensures Valid()
      ensures old(producto.codigo in repositorio.productosPorCodigo) ==>
        o == Fail(ProductoDuplicado) && productos == old(productos) &&
        repositorio.productosPorCodigo == old(repositorio.productosPorCodigo) &&
        repositorio.fichero.lineas == old(repositorio.fichero.lineas)
      ensures !old(producto.codigo in repositorio.productosPorCodigo) ==>
        o == Pass && productos == old(productos) + [producto] &&
        repositorio.productosPorCodigo == old(repositorio.productosPorCodigo)[producto.codigo := producto] &&
        repositorio.fichero.lineas == Some(ArchivoFichas(ListaFichas(productos), rt))
      ensures old(Coherente()) ==> Coherente()
    {
      ghost var coherente, m0 := Coherente(), repositorio.productosPorCodigo;
      o := repositorio.Agregar(producto);
      if o.Fail? {
        return;
      }
      if coherente {
        CoherentesTrasAlta(m0, productos, producto, CodigoProducto);
      }
      Anadir(producto, rt);
    }

    /** `productos.add(producto); guardar();` */
    method Anadir(producto: Producto, rt: Runtime)
      requires Valid() && producto.Valid()
      modifies this`productos, repositorio.fichero
      ensures Valid() && productos == old(productos) + [producto]
      ensures repositorio.fichero.lineas == Some(ArchivoFichas(ListaFichas(productos), rt))
    {
      productos := productos + [producto];
      Guardar(rt);
    }

    /**
     * actualizarProducto: the map gets the product under its code; indexOf
     * finds the object only when it is already listed, where setting it
     * changes nothing, so the list is kept as it was; the list is saved.
     * List and map stay in agreement exactly when the object was listed.
     */
    method ActualizarProducto(producto: Producto, rt: Runtime)
      requires Valid() && producto.Valid()
      modifies this`productos, repositorio`productosPorCodigo, repositorio.fichero
      ensures Valid()
      ensures repositorio.productosPorCodigo == old(repositorio.productosPorCodigo)[producto.codigo := producto]
      ensures productos == old(productos)
      ensures repositorio.fichero.lineas == Some(ArchivoFichas(ListaFichas(productos), rt))
      ensures old(Coherente()) ==> (Coherente() <==> producto in productos)
    {
      ghost var coherente, m0 := Coherente(), repositorio.productosPorCodigo;
      repositorio.Actualizar(producto);
      if coherente {
        CoherentesTrasActualizar(m0, productos, producto, CodigoProducto);
      }
      Reponer(producto, rt);
    }

    /** `int index = productos.indexOf(producto); if (index >= 0) productos.set(index, producto); guardar();` */
    method Reponer(producto: Producto, rt: Runtime)
      requires Valid()
      modifies this`productos, repositorio.fichero
      ensures Valid() && productos == old(productos)
      ensures repositorio.fichero.lineas == Some(ArchivoFichas(ListaFichas(productos), rt))
    {
      var indice := FirstIndex(productos, (q: Producto) => q == producto);
      if indice.Some? {
        assert productos[indice.value := producto] == productos;
        productos := productos[indice.value := producto];
      }
      Guardar(rt);
    }

    /** eliminarProducto: the code removed from the map, every product with it from the list; the list is saved. */
    method EliminarProducto(codigo: string, rt: Runtime)
      requires Valid()
      modifies this`productos, repositorio`productosPorCodigo, repositorio.fichero
      ensures Valid()
      ensures repositorio.productosPorCodigo == old(repositorio.productosPorCodigo) - {codigo}
      ensures productos == Filter(old(productos), OtroCodigo(codigo))
      ensures repositorio.fichero.lineas == Some(ArchivoFichas(ListaFichas(productos), rt))
      ensures old(Coherente()) ==> Coherente()
    {
      ghost var coherente, m0 := Coherente(), repositorio.productosPorCodigo;
      repositorio.Eliminar(codigo);
      if coherente {
        CoherentesTrasEliminar(m0, productos, codigo, CodigoProducto, OtroCodigo(codigo));
      }
      Quitar(codigo, rt);
    }

    /** `productos.removeIf(p -> p.getCodigo().equals(codigo)); guardar();` */
    method Quitar(codigo: string, rt: Runtime)
      requires Valid()
      modifies this`productos, repositorio.fichero
      ensures Valid() && productos == Filter(old(productos), OtroCodigo(codigo))
      ensures repositorio.fichero.lineas == Some(ArchivoFichas(ListaFichas(productos), rt))
    {
      var resto := Filter(productos, OtroCodigo(codigo));
      forall i | 0 <= i < |resto| ensures resto[i] in productos {
        FilterMember(productos, OtroCodigo(codigo), resto[i]);
      }
      productos := resto;
      Guardar(rt);
    }

    /** buscar: the listed products whose name or code contains the text, ignoring case, in list order. */
    function Buscar(texto: string): (r: seq<Producto>)
      reads this
      ensures forall i :: 0 <= i < |r| ==> Coincide(r[i], texto)
      ensures forall i :: 0 <= i < |productos| ==> (productos[i] in r <==> Coincide(productos[i], texto))
      ensures IsSubsequence(r, productos)
    {
      var f := (p: Producto) => Coincide(p, texto);
      var r := Filter(productos, f);
      assert forall i :: 0 <= i < |productos| ==> (productos[i] in r <==> f(productos[i])) by {
        forall i | 0 <= i < |productos| ensures productos[i] in r <==> f(productos[i]) {
          FilterMember(productos, f, productos[i]);
        }
      }
      r
    }

    /** filtrarPorCategoria: the listed products of exactly that category, in list order. */
    function FiltrarPorCategoria(categoria: string): (r: seq<Producto>)
      reads this
      ensures forall i :: 0 <= i < |r| ==> r[i].categoria == categoria
      ensures forall i :: 0 <= i < |productos| ==> (productos[i] in r <==> productos[i].categoria == categoria)
      ensures IsSubsequence(r, productos)
    {
      var f := (p: Producto) => p.categoria == categoria;
      var r := Filter(productos, f);
      assert forall i :: 0 <= i < |productos| ==> (productos[i] in r <==> f(productos[i])) by {
        forall i | 0 <= i < |productos| ensures productos[i] in r <==> f(productos[i]) {
          FilterMember(productos, f, productos[i]);
        }
      }
      r
    }

    /** ordenarPorPrecioDesc: the same products, dearest first. */
    function OrdenarPorPrecioDesc(): (r: seq<Producto>)
      reads this, productos
      ensures multiset(r) == multiset(productos)
      ensures forall i, j :: 0 <= i < j < |r| ==> r[i].precio >= r[j].precio
      ensures forall v ::  // ties keep the list's order
        Filter(r, Empatados(Precios(productos), RealDesc, v)) == Filter(productos, Empatados(Precios(productos), RealDesc, v))
    {
      var key := Precios(productos);
      NumericOrders();
      var r := SortBy(productos, key, RealDesc);
      OrdenPorPrecio(productos, r, key, RealDesc);
      SortByEstableTodos(productos, key, RealDesc);
      r
    }

    /** ordenarPorNombreAsc: the same products, by name in String.compareTo order. */
    function OrdenarPorNombreAsc(): (r: seq<Producto>)
      reads this
      ensures multiset(r) == multiset(productos)
      ensures forall i, j :: 0 <= i < j < |r| ==> LexLe(Utf16(r[i].nombre), Utf16(r[j].nombre))
      ensures forall v ::  // ties keep the list's order
        Filter(r, Empatados(CodigoNombre, LexLe, v)) == Filter(productos, Empatados(CodigoNombre, LexLe, v))
    {
      var r := PorNombre(productos);
      LexOrder();
      SortByEstableTodos(productos, CodigoNombre, LexLe);
      assert forall i, j :: 0 <= i < j < |r| ==> LexLe(CodigoNombre(r[i]), CodigoNombre(r[j]));
      r
    }

    /** ordenarPorStockAsc: the same products, smallest stock first. */
    function OrdenarPorStockAsc(): (r: seq<Producto>)
      reads this, productos
      ensures multiset(r) == multiset(productos)
      ensures forall i, j :: 0 <= i < j < |r| ==> r[i].stockActual <= r[j].stockActual
      ensures forall v ::  // ties keep the list's order
        Filter(r, Empatados(Stocks(productos), IntAsc, v)) == Filter(productos, Empatados(Stocks(productos), IntAsc, v))
    {
      var key := Stocks(productos);
      NumericOrders();
      var r := SortBy(productos, key, IntAsc);
      OrdenPorStock(productos, r, key, IntAsc);
      SortByEstableTodos(productos, key, IntAsc);
      r
    }

    /**
     * importarDesdeCSV: a file that cannot be opened gives the heading, the
     * read error and a summary of zeros, and changes nothing; otherwise the
     * lines are imported in order, the list is saved, and the report lists
     * every line not skipped and ends with the three counters.
     */
    method ImportarDesdeCSV(archivo: Option<seq<string>>, mensaje: Error -> string, lectura: string, rt: Runtime)
      returns (reporte: string)
      requires Valid()
      modifies this`productos, repositorio`productosPorCodigo, repositorio.fichero
      ensures Valid()
      ensures archivo.None? ==>
        productos == old(productos) && repositorio.productosPorCodigo == old(repositorio.productosPorCodigo) &&
        repositorio.fichero.lineas == old(repositorio.fichero.lineas) &&
        reporte == TituloReporte + "Error de lectura: " + lectura + Resumen(0, 0, 0)
      ensures archivo.Some? ==>
        var imp := Importar(old(repositorio.Fichas()), old(ListaFichas(productos)), archivo.value, rt);
        && repositorio.Fichas() == imp.fichas && ListaFichas(productos) == imp.lista
        && repositorio.fichero.lineas == Some(ArchivoFichas(ListaFichas(productos), rt))
        && reporte == Reporte(imp.entradas, mensaje)
      ensures old(Coherente()) ==> Coherente()
    {
      reporte := TituloReporte;
      if archivo.None? {
        reporte := reporte + "Error de lectura: " + lectura + Resumen(0, 0, 0);
        return;
      }
      var lineas, altas, actualizaciones, errores := ImportarLineas(archivo.value, mensaje, rt);
      Guardar(rt);
      reporte := reporte + lineas + Resumen(altas, actualizaciones, errores);
    }

    /** The read loop of importarDesdeCSV: the lines imported in order, the report lines and the three counters. */
    method ImportarLineas(lineas: seq<string>, mensaje: Error -> string, rt: Runtime)
      returns (reporte: string, altas: nat, actualizaciones: nat, errores: nat)
      requires Valid()
      modifies this`productos, repositorio`productosPorCodigo
      ensures Valid()
      ensures old(Coherente()) ==> Coherente()
      ensures var imp := Importar(old(repositorio.Fichas()), old(ListaFichas(productos)), lineas, rt);
        && repositorio.Fichas() == imp.fichas && ListaFichas(productos) == imp.lista
        && reporte == LineasReporte(imp.entradas, mensaje)
        && altas == Altas(imp.entradas) && actualizaciones == Actualizaciones(imp.entradas)
        && errores == Errores(imp.entradas)
    {
      ghost var coherente, fichas0, lista0 := Coherente(), repositorio.Fichas(), ListaFichas(productos);
      ghost var imp := Importe([], fichas0, lista0);
      reporte, altas, actualizaciones, errores := "", 0, 0, 0;
      var i := 0;
      while i < |lineas|
        invariant 0 <= i <= |lineas| && Valid()
        invariant coherente ==> Coherente()
        invariant imp == Importar(fichas0, lista0, lineas[..i], rt)
        invariant repositorio.Fichas() == imp.fichas && ListaFichas(productos) == imp.lista
        invariant reporte == LineasReporte(imp.entradas, mensaje)
        invariant altas == Altas(imp.entradas) && actualizaciones == Actualizaciones(imp.entradas)
        invariant errores == Errores(imp.entradas)
      {
        ImportarSnoc(fichas0, lista0, lineas, i, rt);
        reporte, altas, actualizaciones, errores := ImportarNumerada(imp, i + 1, lineas[i], mensaje, rt, reporte, altas, actualizaciones, errores);
        imp := Avanzar(imp, i + 1, lineas[i], rt);
        i := i + 1;
      }
      assert lineas[..i] == lineas;
    }

    /** One pass of the read loop: the line imported and noted in the report under its number. */
    method ImportarNumerada(ghost imp: Importe, numero: nat, linea: string, mensaje: Error -> string, rt: Runtime,
                            reporte: string, altas: nat, actualizaciones: nat, errores: nat)
      returns (reporte': string, altas': nat, actualizaciones': nat, errores': nat)
      requires Valid() && repositorio.Fichas() == imp.fichas && ListaFichas(productos) == imp.lista
      requires reporte == LineasReporte(imp.entradas, mensaje)
      requires altas == Altas(imp.entradas) && actualizaciones == Actualizaciones(imp.entradas)
      requires errores == Errores(imp.entradas)
      modifies this`productos, repositorio`productosPorCodigo
      ensures Valid()
      ensures old(Coherente()) ==> Coherente()
      ensures var sig := Avanzar(imp, numero, linea, rt);
        && repositorio.Fichas() == sig.fichas && ListaFichas(productos) == sig.lista
        && reporte' == LineasReporte(sig.entradas, mensaje)
        && altas' == Altas(sig.entradas) && actualizaciones' == Actualizaciones(sig.entradas)
        && errores' == Errores(sig.entradas)
    {
      var r := ImportarLinea(linea, rt);
      reporte', altas', actualizaciones', errores' := Anotar(imp.entradas, numero, r, mensaje, reporte, altas, actualizaciones, errores);
    }

    /**
     * One line of importarDesdeCSV: skipped, caught as an error, or a new
     * product put into the map and added to the list, or (its code already
     * in the repository) put into the map, every listed product with the
     * code removed and the new one added.
     */
    method ImportarLinea(linea: string, rt: Runtime) returns (r: Option<Resultado>)
      requires Valid()
      modifies this`productos, repositorio`productosPorCodigo
      ensures Valid()
      ensures r == Clasificar(old(repositorio.Fichas()), linea, rt)
      ensures repositorio.Fichas() == FichasTras(old(repositorio.Fichas()), r)
      ensures ListaFichas(productos) == ListaTras(old(ListaFichas(productos)), r)
      ensures old(Coherente()) ==> Coherente()
    {
      r := Clasificar(repositorio.Fichas(), linea, rt);
      if r.None? || r.value.Fallido? {
        return;
      }
      var resultado := Incorporar(r.value.ficha);
    }

    /** A product built from a line: the update branch when the repository has its code, the new-product branch otherwise. */
    method Incorporar(v: Ficha) returns (r: Resultado)
      requires Valid() && ValidarProducto(v.precio, v.stockMin, v.stockActual).Pass?
      modifies this`productos, repositorio`productosPorCodigo
      ensures Valid()
      ensures r == if v.codigo in old(repositorio.Fichas()) then Actualizado(v) else Nuevo(v)
      ensures repositorio.Fichas() == old(repositorio.Fichas())[v.codigo := v]
      ensures ListaFichas(productos) == ListaTras(old(ListaFichas(productos)), Some(r))
      ensures old(Coherente()) ==> Coherente()
    {
      ghost var l0 := ListaFichas(productos);
      ListaTrasCasos(l0, v);
      assert v.codigo in repositorio.Fichas() <==> v.codigo in repositorio.productosPorCodigo;
      var nuevo := new Producto(v.codigo, v.nombre, v.categoria, v.precio, v.stockMin, v.stockActual);
      assert nuevo.Datos() == v;
      assert ListaFichas(productos) == l0;
      if repositorio.BuscarPorCodigo(v.codigo).Some? {
        ReemplazarImportado(nuevo);
        r := Actualizado(v);
      } else {
        AltaImportada(nuevo);
        r := Nuevo(v);
      }
    }

    /** The update branch: `repositorio.actualizar(nuevo); productos.removeIf(...); productos.add(nuevo);` */
    method ReemplazarImportado(nuevo: Producto)
      requires Valid() && nuevo.Valid()
      modifies this`productos, repositorio`productosPorCodigo
      ensures Valid()
      ensures repositorio.Fichas() == old(repositorio.Fichas())[nuevo.codigo := nuevo.Datos()]
      ensures ListaFichas(productos) == Filter(old(ListaFichas(productos)), OtraFicha(nuevo.codigo)) + [nuevo.Datos()]
      ensures old(Coherente()) ==> Coherente()
    {
      ghost var coherente, m0, l0 := Coherente(), repositorio.productosPorCodigo, ListaFichas(productos);
      repositorio.Actualizar(nuevo);
      assert ListaFichas(productos) == l0;
      if coherente {
        CoherentesTrasReemplazo(m0, productos, nuevo, CodigoProducto, OtroCodigo(nuevo.codigo));
      }
      Sustituir(nuevo);
    }

    /** `productos.removeIf(p -> p.getCodigo().equals(codigo)); productos.add(nuevo);` */
    method Sustituir(nuevo: Producto)
      requires Valid() && nuevo.Valid()
      modifies this`productos
      ensures Valid() && productos == Filter(old(productos), OtroCodigo(nuevo.codigo)) + [nuevo]
      ensures ListaFichas(productos) == Filter(old(ListaFichas(productos)), OtraFicha(nuevo.codigo)) + [nuevo.Datos()]
    {
      var resto := Filter(productos, OtroCodigo(nuevo.codigo));
      var lista := resto + [nuevo];
      forall i | 0 <= i < |lista| ensures lista[i].Valid() {
        if i < |resto| {
          FilterMember(productos, OtroCodigo(nuevo.codigo), resto[i]);
        }
      }
      ListaFichasFiltrar(productos, nuevo.codigo);
      ListaFichasSnoc(resto, nuevo);
      productos := lista;
    }

    /** The new-product branch: `repositorio.agregar(nuevo); productos.add(nuevo);` (the code is not in the map). */
    method AltaImportada(nuevo: Producto)
      requires Valid() && nuevo.Valid() && nuevo.codigo !in repositorio.productosPorCodigo
      modifies this`productos, repositorio`productosPorCodigo
      ensures Valid()
      ensures repositorio.Fichas() == old(repositorio.Fichas())[nuevo.codigo := nuevo.Datos()]
      ensures ListaFichas(productos) == old(ListaFichas(productos)) + [nuevo.Datos()]
      ensures old(Coherente()) ==> Coherente()
    {
      ghost var coherente, m0, l0 := Coherente(), repositorio.productosPorCodigo, ListaFichas(productos);
      var alta := repositorio.Agregar(nuevo);
      assert ListaFichas(productos) == l0;
      if coherente {
        CoherentesTrasAlta(m0, productos, nuevo, CodigoProducto);
      }
      Anexar(nuevo);
    }

    /** `productos.add(nuevo);` */
    method Anexar(nuevo: Producto)
      requires Valid() && nuevo.Valid()
      modifies this`productos
      ensures Valid() && productos == old(productos) + [nuevo]
      ensures ListaFichas(productos) == old(ListaFichas(productos)) + [nuevo.Datos()]
    {
      ListaFichasSnoc(productos, nuevo);
      productos := productos + [nuevo];
    }
  }

  /** The product's name as the UTF-16 code units String.compareTo compares, the key of ordenarPorNombreAsc. */
  function CodigoNombre(p: Producto): seq<int> {
    Utf16(p.nombre)
  }

  /**
   * Names are compared by code unit, not by character: a name starting with
   * an emoji (high surrogate U+D83D) sorts before one starting with U+FFFD,
   * although the emoji's code point is the larger.
   */
  lemma SuplementarioAntes()
    ensures LexLe(Utf16("\U{1F600}"), Utf16("\U{FFFD}"))
    ensures !LexLe(Utf16("\U{FFFD}"), Utf16("\U{1F600}"))
    ensures '\U{1F600}' > '\U{FFFD}'
  {
    assert Utf16("\U{1F600}")[0] == 0xD83D;
    assert Utf16("\U{FFFD}") == [0xFFFD];
  }

  /** The stable sort by name that ordenarPorNombreAsc applies. */
  function PorNombre(ps: seq<Producto>): (r: seq<Producto>)
    ensures multiset(r) == multiset(ps)
    ensures SortedBy(r, CodigoNombre, LexLe)
  {
    LexOrder();
    SortBy(ps, CodigoNombre, LexLe)
  }

  /** The values of the list after removeIf are the list's values with that code filtered out. */
  lemma {:induction false} ListaFichasFiltrar(ps: seq<Producto>, codigo: string)
    ensures ListaFichas(Filter(ps, OtroCodigo(codigo))) == Filter(ListaFichas(ps), OtraFicha(codigo))
    decreases |ps|
  {
    if ps != [] {
      var f, g := OtroCodigo(codigo), OtraFicha(codigo);
      var p, cola := ps[0], ps[1..];
      ListaFichasFiltrar(cola, codigo);
      var l := ListaFichas(ps);
      assert l[0] == p.Datos() && l[1..] == ListaFichas(cola);
      if f(p) {
        assert Filter(ps, f) == [p] + Filter(cola, f);
        assert Filter(l, g) == [p.Datos()] + Filter(ListaFichas(cola), g);
        ListaFichasCons(p, Filter(cola, f));
      } else {
        assert Filter(ps, f) == Filter(cola, f);
        assert Filter(l, g) == Filter(ListaFichas(cola), g);
      }
    }
  }

  lemma ListaFichasCons(p: Producto, ps: seq<Producto>)
    ensures ListaFichas([p] + ps) == [p.Datos()] + ListaFichas(ps)
  {
  }
}
