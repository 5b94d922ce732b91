/**
 * JsonManualSerializer: products and clients written out by hand as a JSON
 * array, one object per line. The text fields are copied as they are, with
 * no escaping.
 */
module Json {
  import opened JavaText
  import opened Platform
  import opened Dominio

  /** Collectors.joining(",\n", "[\n", "\n]") over the entries. */
  function Arreglo(entradas: seq<string>): string {
    "[\n" + Join(entradas, ",\n") + "\n]"
  }

  /** The entries, each but the last followed by the comma that separates it from the next. */
  function ConComas(entradas: seq<string>): (r: seq<string>)
    ensures |r| == |entradas|
  {
    if |entradas| <= 1 then entradas else [entradas[0] + ","] + ConComas(entradas[1..])
  }

  /** The lines of the array: the opening bracket, one line per entry, the closing bracket. */
  function Renglones(entradas: seq<string>): (r: seq<string>)
    ensures |r| == if entradas == [] then 3 else |entradas| + 2
  {
    if entradas == [] then ["[", "", "]"] else ["["] + ConComas(entradas) + ["]"]
  }

  /** The array always opens with "[\n" and closes with "\n]"; no entries give "[\n\n]". */
  lemma ArregloForma(entradas: seq<string>)
    ensures StartsWith(Arreglo(entradas), "[\n")
    ensures |Arreglo(entradas)| >= 4 && Arreglo(entradas)[|Arreglo(entradas)| - 2..] == "\n]"
    ensures entradas == [] ==> Arreglo(entradas) == "[\n\n]"
  {
  }

  lemma {:induction false} JoinConComas(entradas: seq<string>)
    requires entradas != []
    ensures Join(entradas, ",\n") == Join(ConComas(entradas), "\n")
    decreases |entradas|
  {
    if |entradas| > 1 {
      var rest := entradas[1..];
      JoinConComas(rest);
      assert entradas == [entradas[0]] + rest;
      JoinCons(entradas[0], rest, ",\n");
      JoinCons(entradas[0] + ",", ConComas(rest), "\n");
    }
  }

  /** The array is its lines joined by line breaks. */
  lemma ArregloEsRenglones(entradas: seq<string>)
    ensures Arreglo(entradas) == Join(Renglones(entradas), "\n")
  {
    if entradas == [] {
      VacioEsRenglones();
    } else {
      var c := ConComas(entradas);
      JoinConComas(entradas);
      Enmarcado(c);
    }
  }

  lemma VacioEsRenglones()
    ensures Join(["[", "", "]"], "\n") == "[\n\n]"
  {
    JoinCons("", ["]"], "\n");
    JoinCons("[", ["", "]"], "\n");
  }

  /** Lines between the two bracket lines: the brackets, line breaks and the joined lines. */
  lemma Enmarcado(c: seq<string>)
    requires c != []
    ensures Join(["["] + c + ["]"], "\n") == "[\n" + Join(c, "\n") + "\n]"
  {
    JoinAppend(["["], c, "\n");
    JoinAppend(["["] + c, ["]"], "\n");
    assert Join(["["], "\n") == "[" && Join(["]"], "\n") == "]";
  }

  /** A line break inside an entry would split it: without one, ConComas adds none. */
  lemma SinSaltos(entradas: seq<string>)
    requires forall i :: 0 <= i < |entradas| ==> '\n' !in entradas[i]
    ensures forall i :: 0 <= i < |Renglones(entradas)| ==> '\n' !in Renglones(entradas)[i]
  {
    ConComasSinSaltos(entradas);
  }

  lemma {:induction false} ConComasSinSaltos(entradas: seq<string>)
    requires forall i :: 0 <= i < |entradas| ==> '\n' !in entradas[i]
    ensures forall i :: 0 <= i < |entradas| ==> '\n' !in ConComas(entradas)[i]
    decreases |entradas|
  {
    if |entradas| > 1 {
      ConComasSinSaltos(entradas[1..]);
      assert '\n' !in entradas[0];
    }
  }

  /**
   * Read back line by line, the array gives its brackets and the entries in
   * list order, one line each, commas between them.
   */
  lemma LineasDelArreglo(entradas: seq<string>)
    requires forall i :: 0 <= i < |entradas| ==> '\n' !in entradas[i]
    ensures Fields(Arreglo(entradas), '\n') == Renglones(entradas)
  {
    ArregloEsRenglones(entradas);
    SinSaltos(entradas);
    FieldsOfJoin(Renglones(entradas), '\n');
  }

  /** The comma-separated list of entries reads back as one line per entry. */
  lemma {:induction false} ConComasDeVuelta(entradas: seq<string>, i: nat)
    requires i < |entradas|
    ensures ConComas(entradas)[i] == if i == |entradas| - 1 then entradas[i] else entradas[i] + ","
    decreases |entradas|
  {
    if |entradas| > 1 && i > 0 {
      ConComasDeVuelta(entradas[1..], i - 1);
    }
  }

  // ---------------------------------------------------------------------
  // Products
  // ---------------------------------------------------------------------

  /** The object written for a product: codigo, nombre, precio (two decimals) and stock, in that order. */
  function EntradaProducto(p: Producto, rt: Runtime): (r: string)
    reads p
    ensures StartsWith(r, "  {\"codigo\": \"" + p.codigo + "\"") && r[|r| - 1] == '}'
    ensures UnaLinea(p, rt) ==> '\n' !in r
  {
    IntToStringDigits(p.stockActual);
    ObjetoProducto(p.codigo, p.nombre, rt.format2(p.precio), IntToString(p.stockActual))
  }

  /** The product object from the texts of its four values. */
  function ObjetoProducto(codigo: string, nombre: string, precio: string, stock: string): (r: string)
    ensures StartsWith(r, "  {\"codigo\": \"" + codigo + "\"") && r[|r| - 1] == '}'
    ensures '\n' !in codigo && '\n' !in nombre && '\n' !in precio && '\n' !in stock ==> '\n' !in r
  {
    var cabeza := "  {\"codigo\": \"" + codigo + "\"";
    var r := cabeza + ", \"nombre\": \"" + nombre + "\", \"precio\": " + precio + ", \"stock\": " + stock + "}";
    assert r[..|cabeza|] == cabeza;
    r
  }

  function EntradasProductos(productos: seq<Producto>, rt: Runtime): (r: seq<string>)
    reads productos
    ensures |r| == |productos|
    ensures forall i :: 0 <= i < |productos| ==> r[i] == EntradaProducto(productos[i], rt)
  {
    seq(|productos|, i requires 0 <= i < |productos| reads productos => EntradaProducto(productos[i], rt))
  }

  /** No line break in a product's text fields or in its formatted price. */
  predicate UnaLinea(p: Producto, rt: Runtime)
    reads p
  {
    '\n' !in p.codigo && '\n' !in p.nombre && '\n' !in rt.format2(p.precio)
  }

  /**
   * productosToJson: the bracketed array, whose lines (when no field holds a
   * line break) are the products' objects in list order.
   */
  function ProductosToJson(productos: seq<Producto>, rt: Runtime): (r: string)
    reads set p | p in productos
    ensures StartsWith(r, "[\n") && |r| >= 4 && r[|r| - 2..] == "\n]"
    ensures productos == [] ==> r == "[\n\n]"
    ensures (forall i :: 0 <= i < |productos| ==> UnaLinea(productos[i], rt)) ==>
      Fields(r, '\n') == Renglones(EntradasProductos(productos, rt))
  {
    var e := EntradasProductos(productos, rt);
    ArregloForma(e);
    LineasProductos(productos, rt);
    Arreglo(e)
  }

  lemma LineasProductos(productos: seq<Producto>, rt: Runtime)
    ensures (forall i :: 0 <= i < |productos| ==> UnaLinea(productos[i], rt)) ==>
      Fields(Arreglo(EntradasProductos(productos, rt)), '\n') == Renglones(EntradasProductos(productos, rt))
  {
    var e := EntradasProductos(productos, rt);
    if forall i :: 0 <= i < |productos| ==> UnaLinea(productos[i], rt) {
      assert forall i :: 0 <= i < |e| ==> '\n' !in e[i];
      LineasDelArreglo(e);
    }
  }

  /** The decimal text of an int is digits and at most a minus sign. */
  lemma IntToStringDigits(n: int)
    ensures '\n' !in IntToString(n)
  {
    var r := IntToString(n);
    if n < 0 {
      assert r == "-" + NatToString(-n);
      assert forall i :: 1 <= i < |r| ==> r[i] == NatToString(-n)[i - 1];
    }
  }

  // ---------------------------------------------------------------------
  // Clients
  // ---------------------------------------------------------------------

  /** The object written for a client: nombre, telefono and email, in that order. */
  function EntradaCliente(c: Cliente): (r: string)
    ensures StartsWith(r, "  {\"nombre\": \"" + c.nombre + "\"") && r[|r| - 1] == '}'
    ensures UnaLineaCliente(c) ==> '\n' !in r
  {
    "  {\"nombre\": \"" + c.nombre + "\", \"telefono\": \"" + c.telefono + "\", \"email\": \"" + c.email + "\"}"
  }

  function EntradasClientes(clientes: seq<Cliente>): (r: seq<string>)
    ensures |r| == |clientes|
    ensures forall i :: 0 <= i < |clientes| ==> r[i] == EntradaCliente(clientes[i])
  {
    seq(|clientes|, i requires 0 <= i < |clientes| => EntradaCliente(clientes[i]))
  }

  /** No line break in a client's exported fields. */
  predicate UnaLineaCliente(c: Cliente) {
    '\n' !in c.nombre && '\n' !in c.telefono && '\n' !in c.email
  }

  /** clientesToJson: the bracketed array of the clients' objects, in list order. */
  function ClientesToJson(clientes: seq<Cliente>): (r: string)
    ensures StartsWith(r, "[\n") && |r| >= 4 && r[|r| - 2..] == "\n]"
    ensures clientes == [] ==> r == "[\n\n]"
    ensures (forall i :: 0 <= i < |clientes| ==> UnaLineaCliente(clientes[i])) ==>
      Fields(r, '\n') == Renglones(EntradasClientes(clientes))
  {
    var e := EntradasClientes(clientes);
    ArregloForma(e);
    LineasClientes(clientes);
    Arreglo(e)
  }

  lemma LineasClientes(clientes: seq<Cliente>)
    ensures (forall i :: 0 <= i < |clientes| ==> UnaLineaCliente(clientes[i])) ==>
      Fields(Arreglo(EntradasClientes(clientes)), '\n') == Renglones(EntradasClientes(clientes))
  {
    var e := EntradasClientes(clientes);
    if forall i :: 0 <= i < |clientes| ==> UnaLineaCliente(clientes[i]) {
      assert forall i :: 0 <= i < |e| ==> '\n' !in e[i];
      LineasDelArreglo(e);
    }
  }

  /**
   * The cedula never reaches the output: clients that agree on nombre,
   * telefono and email serialise identically, whatever their cedulas.
   */
  lemma {:induction false} SinCedula(a: seq<Cliente>, b: seq<Cliente>)
    requires |a| == |b|
    requires forall i :: 0 <= i < |a| ==>
      a[i].nombre == b[i].nombre && a[i].telefono == b[i].telefono && a[i].email == b[i].email
    ensures ClientesToJson(a) == ClientesToJson(b)
  {
    assert EntradasClientes(a) == EntradasClientes(b);
  }
}
