/** The record shapes of `types.ts`. */
module Types {
  import opened Wrappers

  /** `VehicleAlert`: one speeding event after normalisation. */
  datatype Alert = Alert(
    placa: string,
    velocidad: int,
    fechaHora: string,
    operador: string,
    localidad: string,
    contrato: string)

  /** `StatItem`: a group name and how many alerts fall in it. */
  datatype StatItem = StatItem(name: string, count: nat)

  /** One entry of the contract service's `data` array; a key the JSON
      object lacks is `None`. */
  datatype ContractData = ContractData(placa: Option<string>, contrato: Option<string>)

  /** A point in time as a JavaScript `Date` holds it: milliseconds since the
      epoch, or NaN for an invalid date. */
  datatype TimeValue = Time(ms: int) | NaN

  /** A cell of a worksheet row as `sheet_to_json` delivers it. */
  datatype Cell =
    | Text(s: string)
    | Number(x: real)
    | Bool(b: bool)
    | Stamp(t: TimeValue)

  /** JavaScript truthiness of a cell: the empty string, 0 and `false` are
      falsy; a `Date` object is always truthy. */
  predicate Truthy(c: Cell) {
    match c
    case Text(s) => s != []
    case Number(x) => x != 0.0
    case Bool(b) => b
    case Stamp(_) => true
  }

  /** A worksheet row: header name to cell; an absent key is `undefined`. */
  type FagorRow = map<string, Cell>

  /** A parsed pipe-delimited row: header name to field text. */
  type ColtrackRow = map<string, string>

  const NotAvailable := "N/A"
  const InvalidDate := "Invalid Date"
  const Unassigned := "No Asignado"
}
