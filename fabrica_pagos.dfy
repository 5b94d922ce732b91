/**
 * FabricaPagos.crearPago: the payment strategy named by a method string,
 * compared after lower-casing and trimming. A null argument is `None`.
 */
module FabricaPagos {
  import opened Outcomes
  import opened JavaText
  import opened Pagos

  /** The normalised form the factory switches on: `tipo.toLowerCase().trim()`. */
  function Normalizado(tipo: string): string {
    Trim(ToLower(tipo))
  }

  /** The three words the factory switches on. */
  predicate Conocido(n: string) {
    n == "efectivo" || n == "tarjeta" || n == "transferencia"
  }

  /** The method names, lower-cased, are the three words the factory accepts. */
  lemma NombresEnMinuscula()
    ensures ToLower("Efectivo") == "efectivo"
    ensures ToLower("Tarjeta") == "tarjeta"
    ensures ToLower("Transferencia") == "transferencia"
    ensures ToLower("tarjeta") == "tarjeta"
  {
    assert LowerChar('E') == 'e';
    assert LowerChar('T') == 't';
  }

  /** The switch on the normalised text: the strategy each of the three words names, and nothing else. */
  function Elegida(n: string): (r: Option<EstrategiaPago>)
    ensures r.Some? <==> Conocido(n)
    ensures r.Some? ==> ToLower(r.value.GetMetodo()) == n
  {
    NombresEnMinuscula();
    if n == "efectivo" then Some(PagoEfectivo)
    else if n == "tarjeta" then Some(PagoTarjeta)
    else if n == "transferencia" then Some(PagoTransferencia)
    else None
  }

  /** Each strategy's lower-cased name selects that strategy. */
  lemma ElegidaDeNombre(e: EstrategiaPago)
    ensures Elegida(ToLower(e.GetMetodo())) == Some(e)
  {
    NombresEnMinuscula();
  }

  function CrearPago(tipo: Option<string>): (r: Result<EstrategiaPago>)
    ensures (tipo.None? || IsBlank(tipo.value)) ==> r == Failure(PagoInvalido(TipoVacio))
    ensures r.Success? <==> tipo.Some? && Conocido(Normalizado(tipo.value))
    ensures r.Success? ==> ToLower(r.value.GetMetodo()) == Normalizado(tipo.value)
    ensures r.Failure? && tipo.Some? && !IsBlank(tipo.value) ==>
      r.error == PagoInvalido(TipoDesconocido(tipo.value))
  {
    if tipo.None? then
      Failure(PagoInvalido(TipoVacio))
    else if IsBlank(tipo.value) then
      BlankNormalizado(tipo.value);
      Failure(PagoInvalido(TipoVacio))
    else
      match Elegida(Normalizado(tipo.value))
      case Some(e) => Success(e)
      case None => Failure(PagoInvalido(TipoDesconocido(tipo.value)))
  }

  lemma BlankNormalizado(s: string)
    requires IsBlank(s)
    ensures Normalizado(s) == [] && !Conocido(Normalizado(s))
  {
    TrimLower(s);
    assert ToLower(Trim(s)) == [];
  }

  /** A string whose normalised form is not empty is not blank. */
  lemma NoVacioNoBlanco(s: string)
    requires Normalizado(s) != []
    ensures !IsBlank(s)
  {
    TrimLower(s);
  }

  /** A string whose normalised form is a strategy's lower-cased name selects that strategy. */
  lemma ElegirPorNombre(s: string, e: EstrategiaPago)
    requires Normalizado(s) == ToLower(e.GetMetodo())
    ensures CrearPago(Some(s)) == Success(e)
  {
    assert Normalizado(s) != [];
    NoVacioNoBlanco(s);
    ElegidaDeNombre(e);
  }

  /** Normalising is idempotent and keeps blankness. */
  lemma NormalizadoEstable(s: string)
    ensures Normalizado(Normalizado(s)) == Normalizado(s)
    ensures IsBlank(Normalizado(s)) <==> IsBlank(s)
  {
    var n := Normalizado(s);
    TrimLower(ToLower(s));
    ToLowerIdempotent(s);
    TrimIdempotent(ToLower(s));
    BlankLower(s);
  }

  /**
   * Case and surrounding whitespace do not matter: a string selects the same
   * strategy as its normalised form, and is refused exactly when that is.
   */
  lemma CrearPagoIgnoraFormato(s: string)
    ensures CrearPago(Some(s)).Success? <==> CrearPago(Some(Normalizado(s))).Success?
    ensures CrearPago(Some(s)).Success? ==> CrearPago(Some(s)) == CrearPago(Some(Normalizado(s)))
    ensures IsBlank(s) <==> CrearPago(Some(Normalizado(s))) == Failure(PagoInvalido(TipoVacio))
  {
    var n := Normalizado(s);
    NormalizadoEstable(s);
    if IsBlank(s) {
      assert IsBlank(n);
    } else {
      assert !IsBlank(n) && Normalizado(n) == n;
      CrearPagoElegida(s);
      CrearPagoElegida(n);
    }
  }

  /** Past the blank check, the factory is the switch on the normalised text. */
  lemma CrearPagoElegida(t: string)
    requires !IsBlank(t)
    ensures CrearPago(Some(t)) ==
      if Elegida(Normalizado(t)).Some? then Success(Elegida(Normalizado(t)).value)
      else Failure(PagoInvalido(TipoDesconocido(t)))
  {
  }

  lemma MetodoMinusculaInyectivo(a: EstrategiaPago, b: EstrategiaPago)
    requires ToLower(a.GetMetodo()) == ToLower(b.GetMetodo())
    ensures a == b
  {
    ElegidaDeNombre(a);
    ElegidaDeNombre(b);
  }

  /** With upper case and padding, " TARJETA " selects the card strategy, like "tarjeta". */
  lemma TarjetaConEspacios()
    ensures CrearPago(Some(" TARJETA ")) == Success(PagoTarjeta)
    ensures CrearPago(Some("tarjeta")) == Success(PagoTarjeta)
  {
    TarjetaNormalizada();
    TarjetaMinuscula();
    ElegirPorNombre(" TARJETA ", PagoTarjeta);
    ElegirPorNombre("tarjeta", PagoTarjeta);
  }

  lemma TarjetaMinuscula()
    ensures !IsBlank("tarjeta") && Normalizado("tarjeta") == "tarjeta" == ToLower(PagoTarjeta.GetMetodo())
  {
    NombresEnMinuscula();
  }

  lemma TarjetaNormalizada()
    ensures !IsBlank(" TARJETA ") && Normalizado(" TARJETA ") == ToLower(PagoTarjeta.GetMetodo())
  {
    NombresEnMinuscula();
    MayusculasTarjeta();
    assert " TARJETA " == " " + "TARJETA" + " ";
    TrimPadded("TARJETA");
    ToLowerPadded("TARJETA");
    TrimPadded("tarjeta");
  }

  lemma MayusculasTarjeta()
    ensures ToLower("TARJETA") == "tarjeta"
  {
    assert LowerChar('T') == 't' && LowerChar('A') == 'a' && LowerChar('R') == 'r';
    assert LowerChar('J') == 'j' && LowerChar('E') == 'e';
  }

  /** Any word outside the three is refused and reported as given. */
  lemma PaypalRechazado()
    ensures CrearPago(Some("paypal")) == Failure(PagoInvalido(TipoDesconocido("paypal")))
  {
    PaypalNormalizado();
    CrearPagoElegida("paypal");
  }

  lemma PaypalNormalizado()
    ensures !IsBlank("paypal") && Normalizado("paypal") == "paypal" && Elegida("paypal") == None
  {
    PaypalMinuscula();
    PaypalRecortado();
    assert !Conocido("paypal") by {
      assert "paypal"[0] == 'p';
    }
  }

  lemma PaypalMinuscula()
    ensures ToLower("paypal") == "paypal"
  {
    var w := "paypal";
    assert forall i :: 0 <= i < |w| ==> LowerChar(w[i]) == w[i];
  }

  lemma PaypalRecortado()
    ensures Trim("paypal") == "paypal" && !IsBlank("paypal")
  {
  }

  /** The method name a strategy reports selects that same strategy. */
  lemma CrearPagoDeMetodo(e: EstrategiaPago)
    ensures CrearPago(Some(e.GetMetodo())) == Success(e)
  {
    NombresEnMinuscula();
    var n := e.GetMetodo();
    assert n[0] != ' ' && n[|n| - 1] != ' ';
    assert Trim(ToLower(n)) == ToLower(n);
    ElegirPorNombre(n, e);
  }
}
