/**
 * The three payment strategies behind the EstrategiaPago interface
 * (procesarPago(double): boolean and getMetodo(): String). None of them keeps
 * state, so each is a constructor of one datatype. The random draw of the
 * transfer strategy (Math.random(), in [0, 1)) is passed in as `draw`.
 */
module Pagos {

  /** The card strategy declines every amount above this ceiling. */
  const LimiteTarjeta: real := 5000.0

  /** The transfer strategy succeeds when the draw is above this value (a 90% success rate). */
  const UmbralTransferencia: real := 0.1

  datatype EstrategiaPago = PagoEfectivo | PagoTarjeta | PagoTransferencia
  {
    /** getMetodo(): the display name of the method. */
    function GetMetodo(): (m: string)
      ensures m != []
      ensures PagoEfectivo? ==> m == "Efectivo"
      ensures PagoTarjeta? ==> m == "Tarjeta"
      ensures PagoTransferencia? ==> m == "Transferencia"
    {
      match this
      case PagoEfectivo => "Efectivo"
      case PagoTarjeta => "Tarjeta"
      case PagoTransferencia => "Transferencia"
    }

    /**
     * procesarPago(monto): whether the payment of `monto` went through. Cash
     * always does, a card when the amount is at most the ceiling, a transfer
     * when the draw is above the threshold, whatever the amount.
     */
    function ProcesarPago(monto: real, draw: real): (ok: bool)
      ensures PagoEfectivo? ==> ok
      ensures PagoTarjeta? ==> (ok <==> monto <= LimiteTarjeta)
      ensures PagoTransferencia? ==> (ok <==> draw > UmbralTransferencia)
    {
      match this
      case PagoEfectivo => true
      case PagoTarjeta => !(monto > LimiteTarjeta)
      case PagoTransferencia => draw > UmbralTransferencia
    }
  }

  /** Cash is accepted for every amount and every draw. */
  lemma EfectivoSiempreAcepta(monto: real, draw: real)
    ensures PagoEfectivo.ProcesarPago(monto, draw)
  {
  }

  /** The card ceiling is inclusive: exactly 5000 is authorised, anything above is declined. */
  lemma TarjetaLimite()
    ensures PagoTarjeta.ProcesarPago(5000.0, 0.0)
    ensures !PagoTarjeta.ProcesarPago(5000.01, 0.0)
    ensures forall monto: real, draw: real :: monto > 5000.0 ==> !PagoTarjeta.ProcesarPago(monto, draw)
  {
  }

  /** The card and cash decisions never look at the draw; the transfer decision never looks at the amount. */
  lemma DecisionesIndependientes(e: EstrategiaPago, m1: real, m2: real, d1: real, d2: real)
    ensures !e.PagoTransferencia? ==> e.ProcesarPago(m1, d1) == e.ProcesarPago(m1, d2)
    ensures e.PagoTransferencia? ==> e.ProcesarPago(m1, d1) == e.ProcesarPago(m2, d1)
  {
  }

  /** A transfer with a draw in [0, 0.1] is declined (a `false`, not an error); one above 0.1 succeeds. */
  lemma TransferenciaPorSorteo(monto: real, draw: real)
    requires 0.0 <= draw < 1.0
    ensures !PagoTransferencia.ProcesarPago(monto, draw) <==> draw <= 0.1
  {
  }

  /** Different strategies report different method names. */
  lemma MetodosDistintos(a: EstrategiaPago, b: EstrategiaPago)
    ensures a.GetMetodo() == b.GetMetodo() <==> a == b
  {
  }
}
