/** Values shared by every component: the two enumerations of the database
    schema, the invoice row, and the usual Option and Result. */
module EcfTypes {

  datatype Option<+T> = None | Some(value: T)

  datatype Result<+T, +E> = Ok(value: T) | Err(error: E)

  datatype EcfType = E31 | E32 | E33 | E34 | E41 | E43 | E44 | E45 | E46 | E47

  datatype InvoiceStatus =
    | DRAFT
    | QUEUED
    | PROCESSING
    | SENT
    | ACCEPTED
    | REJECTED
    | CONDITIONAL
    | VOIDED
    | CONTINGENCY
    | ERROR

  /** The columns of an invoice row that the pipeline reads or writes. */
  datatype Invoice = Invoice(
    ecfType: EcfType,
    encf: string,
    status: InvoiceStatus,
    trackId: Option<string>,
    referenceEncf: Option<string>,
    isRfce: bool,
    hasXml: bool,
    usageReverted: bool,
    idempotencyKey: Option<string>,
    createdAt: int)

  function Max(a: int, b: int): int {
    if a >= b then a else b
  }

  function Min(a: int, b: int): int {
    if a <= b then a else b
  }
}
