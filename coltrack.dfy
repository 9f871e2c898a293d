/** The Coltrack loader (App.tsx:160-176): every row of the pipe-delimited
    report, already split into header to field text, becomes at most one
    speeding alert. Rows without a plate or slower than 50 km/h are
    dropped. */
module Coltrack {
  import opened Wrappers
  import opened Text
  import opened Types
  import ContractService
  import Seqs

  const PlateKey := "Nombre"
  const SpeedKey := "kph"
  const TimeKey := "Hora Reporte"
  const FirstNameKey := "Nombre Conductor"
  const LastNameKey := "Apellido"
  const LatitudeKey := "Lat"
  const LongitudeKey := "Lon"

  /** The speed from which an alert is kept. */
  const MinimumSpeed := 50

  /** `row[k] || ''`: the field's text, empty when the column is missing. */
  function Field(row: ColtrackRow, k: string): (v: string)
    ensures k in row ==> v == row[k]
    ensures k !in row ==> v == []
  {
    if k in row then row[k] else []
  }

  /** `parseInt(kph, 10) || 0`: NaN (no digits) reads as 0. */
  function SpeedValue(kph: string): (v: int)
    ensures ParseInt(kph).None? ==> v == 0
    ensures ParseInt(kph).Some? ==> v == ParseInt(kph).value
  {
    match ParseInt(kph)
    case None => 0
    case Some(n) => n
  }

  /** `${first || ''} ${last || ''}`.trim() || 'N/A'. */
  function OperatorOf(row: ColtrackRow): (operador: string)
    ensures operador != []
    ensures operador == NotAvailable || operador == Trim(Field(row, FirstNameKey) + " " + Field(row, LastNameKey))
    ensures Trim(Field(row, FirstNameKey) + " " + Field(row, LastNameKey)) == [] ==> operador == NotAvailable
  {
    var name := Trim(Field(row, FirstNameKey) + " " + Field(row, LastNameKey));
    if name == [] then NotAvailable else name
  }

  /** `(Lat && Lon) ? `${Lat.trim()}, ${Lon.trim()}` : 'N/A'`. */
  function LocationOf(row: ColtrackRow): (localidad: string)
    ensures localidad != []
    ensures Field(row, LatitudeKey) == [] || Field(row, LongitudeKey) == [] ==> localidad == NotAvailable
  {
    var lat := Field(row, LatitudeKey);
    var lon := Field(row, LongitudeKey);
    if lat != [] && lon != [] then Trim(lat) + ", " + Trim(lon) else NotAvailable
  }

  /** `if (!placa || velocidad < 50) return null`, negated: the rows the
      loader keeps. */
  predicate Passes(row: ColtrackRow) {
    NormalizePlate(Field(row, PlateKey)) != [] && SpeedValue(Field(row, SpeedKey)) >= MinimumSpeed
  }

  /** The alert object the loader builds for a row it keeps. */
  function AlertOf(row: ColtrackRow, directory: ContractService.Directory): (a: Alert)
    ensures a.placa == NormalizePlate(Field(row, PlateKey)) && a.velocidad == SpeedValue(Field(row, SpeedKey))
  {
    var placa := NormalizePlate(Field(row, PlateKey));
    var fechaHora := if Field(row, TimeKey) != [] then Field(row, TimeKey) else NotAvailable;
    Alert(placa, SpeedValue(Field(row, SpeedKey)), fechaHora, OperatorOf(row), LocationOf(row),
          ContractService.Resolve(directory, placa))
  }

  /** The alert of one row, `None` for the rows the loader discards. */
  function RowAlert(row: ColtrackRow, directory: ContractService.Directory): (r: Option<Alert>)
    ensures r.Some? <==> NormalizePlate(Field(row, PlateKey)) != [] && SpeedValue(Field(row, SpeedKey)) >= MinimumSpeed
  {
    if Passes(row) then Some(AlertOf(row, directory)) else None
  }

  /** `.map(...).filter(a => a !== null)`. */
  function Batch(rows: seq<ColtrackRow>, directory: ContractService.Directory): (alerts: seq<Alert>)
    ensures |alerts| <= |rows|
  {
    if rows == [] then []
    else
      match RowAlert(rows[0], directory)
      case Some(a) => [a] + Batch(rows[1..], directory)
      case None => Batch(rows[1..], directory)
  }

  // ---------------------------------------------------------------------
  // Properties

  /** A row whose speed field holds no digits is always dropped. */
  lemma NonNumericSpeedDropped(row: ColtrackRow, directory: ContractService.Directory)
    requires ParseInt(Field(row, SpeedKey)).None?
    ensures RowAlert(row, directory).None?
  {
  }

  /** A speed written as a plain number is read back as that number. */
  lemma SpeedOfNumber(n: int)
    ensures SpeedValue(IntString(n)) == n
  {
    IntStringRoundTrip(n);
  }

  /** A kept row has a non-empty, normalised plate and a speed of at
      least 50. */
  lemma KeptRow(row: ColtrackRow, directory: ContractService.Directory)
    requires RowAlert(row, directory).Some?
    ensures var a := RowAlert(row, directory).value;
            a.placa != [] && NormalizePlate(a.placa) == a.placa && a.velocidad >= MinimumSpeed
  {
    NormalizePlateIdempotent(Field(row, PlateKey));
  }

  /** A kept row's report time is copied verbatim (`'N/A'` when empty), and
      its contract is the directory's entry for the plate or `'No Asignado'`. */
  lemma KeptFields(row: ColtrackRow, directory: ContractService.Directory)
    requires RowAlert(row, directory).Some?
    ensures var a := RowAlert(row, directory).value;
            (Field(row, TimeKey) != [] ==> a.fechaHora == Field(row, TimeKey))
            && (Field(row, TimeKey) == [] ==> a.fechaHora == NotAvailable)
            && (a.placa in directory && directory[a.placa] != [] ==> a.contrato == directory[a.placa])
            && (a.placa !in directory || directory[a.placa] == [] ==> a.contrato == Unassigned)
            && a.operador == OperatorOf(row) && a.localidad == LocationOf(row)
  {
  }

  /** The alert of each of `rows`, in order. */
  function AlertsOf(rows: seq<ColtrackRow>, directory: ContractService.Directory): seq<Alert> {
    if rows == [] then [] else [AlertOf(rows[0], directory)] + AlertsOf(rows[1..], directory)
  }

  /** The batch is the rows that pass the gate, in row order, each turned
      into its alert: no passing row is lost and none is reordered. */
  lemma {:induction false} BatchIsPassingRows(rows: seq<ColtrackRow>, directory: ContractService.Directory)
    ensures Batch(rows, directory) == AlertsOf(Seqs.Filter(rows, Passes), directory)
  {
    if rows != [] {
      BatchIsPassingRows(rows[1..], directory);
      var rest := Seqs.Filter(rows[1..], Passes);
      if Passes(rows[0]) {
        assert Seqs.Filter(rows, Passes) == [rows[0]] + rest;
        assert ([rows[0]] + rest)[1..] == rest;
      } else {
        assert Seqs.Filter(rows, Passes) == rest;
      }
    }
  }

  /** Every alert of a batch is the alert of one of the rows. */
  lemma {:induction false} BatchFromRows(rows: seq<ColtrackRow>, directory: ContractService.Directory)
    ensures forall a :: a in Batch(rows, directory) ==> exists r :: r in rows && RowAlert(r, directory) == Some(a)
  {
    if rows != [] {
      BatchFromRows(rows[1..], directory);
      forall a | a in Batch(rows, directory)
        ensures exists r :: r in rows && RowAlert(r, directory) == Some(a)
      {
        if a !in Batch(rows[1..], directory) {
          assert RowAlert(rows[0], directory) == Some(a);
        } else {
          var r :| r in rows[1..] && RowAlert(r, directory) == Some(a);
          assert r in rows;
        }
      }
    }
  }

  /** Every alert of a batch has a non-empty, normalised plate and a speed
      of at least 50. */
  lemma BatchAlerts(rows: seq<ColtrackRow>, directory: ContractService.Directory)
    ensures forall a :: a in Batch(rows, directory) ==>
              a.placa != [] && NormalizePlate(a.placa) == a.placa && a.velocidad >= MinimumSpeed
  {
    BatchFromRows(rows, directory);
    forall a | a in Batch(rows, directory)
      ensures a.placa != [] && NormalizePlate(a.placa) == a.placa && a.velocidad >= MinimumSpeed
    {
      var r :| r in rows && RowAlert(r, directory) == Some(a);
      KeptRow(r, directory);
    }
  }

  /** Every alert of a batch passed the 50 km/h gate. */
  lemma BatchSpeeds(rows: seq<ColtrackRow>, directory: ContractService.Directory)
    ensures forall a :: a in Batch(rows, directory) ==> a.velocidad >= MinimumSpeed
  {
    BatchAlerts(rows, directory);
  }

  /** The location is `'N/A'` exactly when latitude or longitude is missing
      or empty; otherwise it is the two trimmed coordinates around `", "`. */
  lemma LocationAvailable(row: ColtrackRow)
    ensures LocationOf(row) == NotAvailable <==> Field(row, LatitudeKey) == [] || Field(row, LongitudeKey) == []
    ensures Field(row, LatitudeKey) != [] && Field(row, LongitudeKey) != [] ==>
              LocationOf(row) == Trim(Field(row, LatitudeKey)) + ", " + Trim(Field(row, LongitudeKey))
  {
    var lat := Trim(Field(row, LatitudeKey));
    var lon := Trim(Field(row, LongitudeKey));
    if Field(row, LatitudeKey) != [] && Field(row, LongitudeKey) != [] {
      var loc := lat + ", " + lon;
      assert loc[|lat|] == ',';
      assert ',' !in NotAvailable;
    }
  }

  /** The operator never has surrounding white space, and a driver with
      neither first nor last name is `'N/A'`. */
  lemma OperatorTrimmed(row: ColtrackRow)
    ensures var o := OperatorOf(row); !IsSpace(o[0]) && !IsSpace(o[|o| - 1])
    ensures Field(row, FirstNameKey) == [] && Field(row, LastNameKey) == [] ==> OperatorOf(row) == NotAvailable
  {
    if Field(row, FirstNameKey) == [] && Field(row, LastNameKey) == [] {
      var t := Trim([] + " " + []);
      assert [] + " " + [] == " ";
      assert |t| <= 1;
    }
  }
}
