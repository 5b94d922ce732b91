/**
 * Result types that replace Java's null returns and exceptions, and the
 * exception taxonomy of the suite as one datatype.
 */
module Outcomes {

  /** A value that may be absent: Java's nullable reference. */
  datatype Option<+T> = None | Some(value: T)

  /** A computation that either yields a value or raises an error. */
  datatype Result<+T> = Success(value: T) | Failure(error: Error)

  /** A computation with no value (a Java `void` method) that may raise an error. */
  datatype Outcome = Pass | Fail(error: Error)

  /** Why a payment was refused (all raised as PagoInvalidoException). */
  datatype MotivoPago =
    | TipoVacio            // method string null or blank
    | TipoDesconocido(tipo: string)  // not one of efectivo / tarjeta / transferencia; the text as given
    | MontoNoPositivo      // order total <= 0
    | Rechazado(metodo: string)  // the strategy declined
    | NoProcesado          // GestionOrdenes' own "pago no pudo procesarse"

  /** Why an argument was refused (all raised as IllegalArgumentException). */
  datatype MotivoArgumento =
    | IdVacio
    | ProductoNulo
    | CantidadNoPositiva
    | ProductoInexistente
    | DescuentoFueraDeRango
    | DescuentoNegativo
    | ImpuestoNegativo
    | RutaVacia
    | CamposIncompletos
    | CodigoRepetido
    | ClaveVacia             // SecretKeySpec given no key bytes

  /** The exceptions the modelled code raises. */
  datatype Error =
    | PagoInvalido(motivo: MotivoPago)        // PagoInvalidoException
    | ArgumentoInvalido(causa: MotivoArgumento) // IllegalArgumentException
    | EstadoInvalido                           // IllegalStateException: order without items
    | StockInsuficiente                        // StockInsuficienteException
    | ProductoDuplicado                        // ProductoDuplicadoException
    | ProductoNoEncontrado                     // ProductoNoEncontradoException
    | PrecioInvalido                           // Producto.PrecioInvalidoException
    | StockNegativo                            // Producto.StockNegativoException
    | FormatoNumerico(texto: string)           // NumberFormatException on the text given
}
