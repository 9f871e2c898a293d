/** The Fagor workbook loader (App.tsx:76-151): every worksheet row becomes
    at most one speeding alert. The speed comes out of the free-text
    description, the timestamp out of whichever date column is filled in,
    and rows slower than 50 km/h are dropped. */
module Fagor {
  import opened Wrappers
  import opened Text
  import opened Types
  import opened Seqs
  import SpeedPatterns
  import DatePattern
  import ContractService

  /** The calendar parts `XLSX.SSF.parse_date_code` decodes from a serial
      number; `m` is 1-based. */
  datatype SerialDate = SerialDate(y: int, m: int, d: int, hh: int, mm: int, ss: int)

  /** What the loader takes from its host rather than computing itself. */
  datatype Platform = Platform(
    /** `String(n)` for a number cell. */
    numberText: real -> string,
    /** `String(d)` for a date cell. */
    stampText: TimeValue -> string,
    /** `XLSX.SSF.parse_date_code(n)`; `None` is its `null`. */
    decodeSerial: real -> Option<SerialDate>,
    /** `new Date(year, month0, day, hour, minute, second)` in local time. */
    localTime: DatePattern.DateFields -> TimeValue,
    /** `new Date(string)`. */
    parseLoose: string -> TimeValue,
    /** `toLocaleString('es-CO', ...)` with its first comma removed, for a
        valid time in milliseconds. */
    render: int -> string)

  /** The column aliases the loader consults, in the order it tries them. */
  const PlateKeys: seq<string> := ["Matr\U{00ED}cula", "placa", "Placa"]
  const DescriptionKeys: seq<string> := ["Descripcion", "descripcion"]
  const DateKeys: seq<string> := ["FECHA_Hora", "Fecha_Hora", "FECHA HORA"]
  const OperatorKey := "Operador"
  const LocationKey := "Localidad"

  /** The speed from which an alert is kept. */
  const MinimumSpeed := 50

  // ---------------------------------------------------------------------
  // Cells

  /** `row[k]` is present and truthy. */
  predicate FilledAt(row: FagorRow, k: string) {
    k in row && Truthy(row[k])
  }

  /** `row[k1] || row[k2] || ...` as far as the loader uses it: the first
      truthy cell among the aliases, `None` when all are falsy or absent. */
  function FirstTruthy(row: FagorRow, keys: seq<string>): (r: Option<Cell>)
    ensures r.Some? ==> exists i :: 0 <= i < |keys| && FilledAt(row, keys[i]) && row[keys[i]] == r.value
                                    && forall j :: 0 <= j < i ==> !FilledAt(row, keys[j])
    ensures r.None? <==> forall i :: 0 <= i < |keys| ==> !FilledAt(row, keys[i])
  {
    if keys == [] then None
    else if FilledAt(row, keys[0]) then Some(row[keys[0]])
    else
      var r := FirstTruthy(row, keys[1..]);
      assert forall i :: 1 <= i < |keys| ==> keys[i] == keys[1..][i - 1];
      assert r.Some? ==> exists i :: 0 <= i < |keys| && FilledAt(row, keys[i]) && row[keys[i]] == r.value
                                    && forall j :: 0 <= j < i ==> !FilledAt(row, keys[j]) by {
        if r.Some? {
          var i :| 0 <= i < |keys[1..]| && FilledAt(row, keys[1..][i]) && row[keys[1..][i]] == r.value
                   && forall j :: 0 <= j < i ==> !FilledAt(row, keys[1..][j]);
          assert forall j :: 0 <= j < i + 1 ==> !FilledAt(row, keys[j]) by {
            forall j | 0 <= j < i + 1 ensures !FilledAt(row, keys[j]) {
              if j > 0 {
                assert keys[j] == keys[1..][j - 1];
              }
            }
          }
        }
      }
      r
  }

  /** `String(cell)`: text as it is, booleans as their words, numbers and
      dates as the host renders them. */
  function CellText(c: Cell, host: Platform): (t: string)
    ensures c.Text? ==> t == c.s
    ensures c.Bool? ==> t == (if c.b then "true" else "false")
    ensures c.Number? ==> t == host.numberText(c.x)
    ensures c.Stamp? ==> t == host.stampText(c.t)
  {
    match c
    case Text(s) => s
    case Number(x) => host.numberText(x)
    case Bool(b) => if b then "true" else "false"
    case Stamp(t) => host.stampText(t)
  }

  /** `String(cell || '')`. */
  function TextOr(c: Option<Cell>, fallback: string, host: Platform): string {
    match c
    case None => fallback
    case Some(cell) => CellText(cell, host)
  }

  // ---------------------------------------------------------------------
  // The fields of one row

  /** `String(row[k] || 'N/A')` for the operator and location columns. */
  function OptionalText(row: FagorRow, k: string, host: Platform): (r: string)
    ensures !FilledAt(row, k) ==> r == NotAvailable
  {
    if FilledAt(row, k) then CellText(row[k], host) else NotAvailable
  }

  /** The plate: first filled alias, trimmed and upper-cased; empty when no
      alias is filled. */
  function PlateOf(row: FagorRow, host: Platform): (placa: string)
    ensures FirstTruthy(row, PlateKeys).None? ==> placa == []
    ensures placa == [] || (!IsSpace(placa[0]) && !IsSpace(placa[|placa| - 1]))
  {
    NormalizePlate(TextOr(FirstTruthy(row, PlateKeys), "", host))
  }

  /** The plate is the first filled alias as text, trimmed and upper-cased:
      normalising it again changes nothing and it holds no lower-case letter. */
  lemma PlateNormalised(row: FagorRow, host: Platform)
    ensures FirstTruthy(row, PlateKeys).Some? ==>
      PlateOf(row, host) == NormalizePlate(CellText(FirstTruthy(row, PlateKeys).value, host))
    ensures NormalizePlate(PlateOf(row, host)) == PlateOf(row, host)
    ensures forall i :: 0 <= i < |PlateOf(row, host)| ==> !('a' <= PlateOf(row, host)[i] <= 'z')
  {
    NormalizePlateIdempotent(TextOr(FirstTruthy(row, PlateKeys), "", host));
  }

  /** The description text the speed is read from: the first filled
      description alias as text, empty when none is filled. */
  function DescriptionOf(row: FagorRow, host: Platform): (d: string)
    ensures FirstTruthy(row, DescriptionKeys).None? ==> d == []
    ensures FirstTruthy(row, DescriptionKeys).Some? ==>
      d == CellText(FirstTruthy(row, DescriptionKeys).value, host)
  {
    TextOr(FirstTruthy(row, DescriptionKeys), "", host)
  }

  /** The speed: the first speed pattern, else the second, else 0. */
  function SpeedOf(row: FagorRow, host: Platform): (speed: nat)
    ensures speed != 0 ==>
              (exists i, j, d :: SpeedPatterns.CurrentAllowedAt(DescriptionOf(row, host), i, j, d))
              || (exists i, d :: SpeedPatterns.VehicleAt(DescriptionOf(row, host), i, d))
  {
    SpeedPatterns.ExtractSpeed(DescriptionOf(row, host))
  }

  /** The `Date` the loader builds from a truthy date cell (App.tsx:98-123);
      `None` is the `null` it keeps when no branch applies. */
  function DateObject(raw: Cell, host: Platform): (dateObj: Option<TimeValue>)
    ensures raw.Text? ==> dateObj.Some?
    ensures raw.Text? && DatePattern.StrictDate(raw.s).Some? ==>
              dateObj == Some(host.localTime(DatePattern.StrictDate(raw.s).value))
    ensures raw.Stamp? ==> dateObj == Some(raw.t)
    ensures raw.Bool? ==> dateObj.None?
  {
    match raw
    case Number(x) =>
      (match host.decodeSerial(x)
       case None => None
       case Some(p) => Some(host.localTime(DatePattern.DateFields(p.y, p.m - 1, p.d, p.hh, p.mm, p.ss))))
    case Text(s) =>
      (match DatePattern.StrictDate(s)
       case Some(f) => Some(host.localTime(f))
       case None => Some(host.parseLoose(s)))
    case Stamp(t) => Some(t)
    case Bool(_) => None
  }

  /** The timestamp text of a row: `'N/A'` without a truthy date cell, the
      rendering of a valid date, `'Invalid Date'` otherwise. */
  function TimestampOf(row: FagorRow, host: Platform): (fechaHora: string)
    ensures FirstTruthy(row, DateKeys).None? ==> fechaHora == NotAvailable
    ensures FirstTruthy(row, DateKeys).Some? && DateObject(FirstTruthy(row, DateKeys).value, host).None? ==>
              fechaHora == InvalidDate
  {
    match FirstTruthy(row, DateKeys)
    case None => NotAvailable
    case Some(raw) =>
      match DateObject(raw, host)
      case Some(Time(ms)) => host.render(ms)
      case _ => InvalidDate
  }

  /** The alert a row maps to before the speed gate: `None` when no speed
      could be read (or it read as 0). */
  function RowAlert(row: FagorRow, directory: ContractService.Directory, host: Platform): (r: Option<Alert>)
    ensures r.Some? <==> SpeedOf(row, host) != 0
    ensures r.Some? ==> r.value.placa == PlateOf(row, host) && r.value.velocidad == SpeedOf(row, host)
                        && r.value.fechaHora == TimestampOf(row, host)
                        && r.value.contrato == ContractService.Resolve(directory, PlateOf(row, host))
  {
    var speed := SpeedOf(row, host);
    if speed == 0 then None
    else
      var placa := PlateOf(row, host);
      Some(Alert(
        placa,
        speed,
        TimestampOf(row, host),
        OptionalText(row, OperatorKey, host),
        OptionalText(row, LocationKey, host),
        ContractService.Resolve(directory, placa)))
  }

  /** `.map(...).filter(a => a !== null && a.velocidad >= 50)`. */
  function Batch(rows: seq<FagorRow>, directory: ContractService.Directory, host: Platform): (alerts: seq<Alert>)
    ensures |alerts| <= |rows|
    ensures forall i :: 0 <= i < |alerts| ==> alerts[i].velocidad >= MinimumSpeed
  {
    if rows == [] then []
    else
      var rest := Batch(rows[1..], directory, host);
      var first := RowAlert(rows[0], directory, host);
      if first.Some? && first.value.velocidad >= MinimumSpeed then
        FastPrepended(first.value, rest);
        [first.value] + rest
      else rest
  }

  lemma FastPrepended(a: Alert, rest: seq<Alert>)
    requires a.velocidad >= MinimumSpeed
    requires forall i :: 0 <= i < |rest| ==> rest[i].velocidad >= MinimumSpeed
    ensures forall i :: 0 <= i < |rest| + 1 ==> ([a] + rest)[i].velocidad >= MinimumSpeed
  {
  }

  // ---------------------------------------------------------------------
  // The loader, step by step

  /** App.tsx:80-90: `speed` starts at 0 and takes the first pattern's
      digits, else the second's. */
  method ReadSpeed(speedText: string) returns (speed: nat)
    ensures speed == SpeedPatterns.ExtractSpeed(speedText)
  {
    speed := 0;
    var first := SpeedPatterns.MatchCurrentAllowed(speedText);
    var second := SpeedPatterns.MatchVehicle(speedText);
    if first.Some? {
      speed := DigitsValue(first.value);
    } else if second.Some? {
      speed := DigitsValue(second.value);
    }
  }

  /** App.tsx:94-138: `fechaHora` starts as `'Invalid Date'`, becomes
      `'N/A'` without a date cell, and the rendering of `dateObj` when that
      ends up a valid date. */
  method ReadTimestamp(row: FagorRow, host: Platform) returns (fechaHora: string)
    ensures fechaHora == TimestampOf(row, host)
  {
    var dateRaw := FirstTruthy(row, DateKeys);
    fechaHora := InvalidDate;
    if dateRaw.Some? {
      var dateObj := ReadDateObject(dateRaw.value, host);
      if dateObj.Some? && dateObj.value.Time? {
        fechaHora := host.render(dateObj.value.ms);
      }
    } else {
      fechaHora := NotAvailable;
    }
  }

  /** App.tsx:97-134: `dateObj` from a number (Excel serial date), a text
      (strict pattern first, then the loose parser) or a date cell. */
  method ReadDateObject(raw: Cell, host: Platform) returns (dateObj: Option<TimeValue>)
    ensures dateObj == DateObject(raw, host)
  {
    dateObj := None;
    match raw {
      case Number(x) =>
        var parsed := host.decodeSerial(x);
        if parsed.Some? {
          var p := parsed.value;
          dateObj := Some(host.localTime(DatePattern.DateFields(p.y, p.m - 1, p.d, p.hh, p.mm, p.ss)));
        }
      case Text(s) =>
        var parts := DatePattern.StrictDate(s);
        if parts.Some? {
          dateObj := Some(host.localTime(parts.value));
        } else {
          dateObj := Some(host.parseLoose(s));
        }
      case Stamp(t) =>
        dateObj := Some(t);
      case Bool(_) =>
    }
  }

  /** The `.map` callback of App.tsx:77-148. */
  method MapRow(row: FagorRow, directory: ContractService.Directory, host: Platform)
    returns (alert: Option<Alert>)
    ensures alert == RowAlert(row, directory, host)
  {
    var placa := NormalizePlate(TextOr(FirstTruthy(row, PlateKeys), "", host));
    var speedText := TextOr(FirstTruthy(row, DescriptionKeys), "", host);
    var speed := ReadSpeed(speedText);
    if speed == 0 {
      return None;
    }
    var fechaHora := ReadTimestamp(row, host);
    var operador := OptionalText(row, OperatorKey, host);
    var localidad := OptionalText(row, LocationKey, host);
    alert := Some(Alert(placa, speed, fechaHora, operador, localidad, ContractService.Resolve(directory, placa)));
  }

  /** `processFagorFile` after `sheet_to_json`: map every row, keep the
      alerts of 50 km/h or more, in row order. */
  method ProcessRows(rows: seq<FagorRow>, directory: ContractService.Directory, host: Platform)
    returns (alerts: seq<Alert>)
    ensures alerts == Batch(rows, directory, host)
  {
    alerts := [];
    var i := |rows|;
    while i > 0
      invariant 0 <= i <= |rows|
      invariant alerts == Batch(rows[i..], directory, host)
    {
      i := i - 1;
      assert rows[i..][1..] == rows[i + 1..];
      var a := MapRow(rows[i], directory, host);
      if a.Some? && a.value.velocidad >= MinimumSpeed {
        alerts := [a.value] + alerts;
      }
    }
  }

  // ---------------------------------------------------------------------
  // Properties

  /** Every kept alert comes from some row and travels at 50 km/h or more. */
  lemma {:induction false} BatchFromRows(rows: seq<FagorRow>, directory: ContractService.Directory, host: Platform)
    ensures |Batch(rows, directory, host)| <= |rows|
    ensures forall a :: a in Batch(rows, directory, host) ==>
              a.velocidad >= MinimumSpeed && exists r :: r in rows && RowAlert(r, directory, host) == Some(a)
  {
    if rows != [] {
      BatchFromRows(rows[1..], directory, host);
      forall a | a in Batch(rows[1..], directory, host)
        ensures exists r :: r in rows && RowAlert(r, directory, host) == Some(a)
      {
        var r :| r in rows[1..] && RowAlert(r, directory, host) == Some(a);
        assert r in rows;
      }
    }
  }

  /** A row yields an alert exactly when its description gives a speed of
      50 or more; the batch keeps such rows, in order. */
  lemma {:induction false} BatchKeepsFastRows(rows: seq<FagorRow>, directory: ContractService.Directory, host: Platform)
    ensures Batch(rows, directory, host) ==
              Seqs.Filter(Completed(rows, directory, host), (a: Alert) => a.velocidad >= MinimumSpeed)
  {
    if rows != [] {
      BatchKeepsFastRows(rows[1..], directory, host);
    }
  }

  /** Every row that yields an alert at all, with its alert. */
  function Completed(rows: seq<FagorRow>, directory: ContractService.Directory, host: Platform): (r: seq<Alert>)
    ensures |r| <= |rows|
  {
    if rows == [] then []
    else
      match RowAlert(rows[0], directory, host)
      case Some(a) => [a] + Completed(rows[1..], directory, host)
      case None => Completed(rows[1..], directory, host)
  }

  /** The speed of an alert is the one the description gives, never 0. */
  lemma AlertSpeed(row: FagorRow, directory: ContractService.Directory, host: Platform)
    ensures RowAlert(row, directory, host).Some? <==> SpeedOf(row, host) != 0
    ensures RowAlert(row, directory, host).Some? ==>
              RowAlert(row, directory, host).value.velocidad == SpeedOf(row, host)
  {
  }

  /** A renderer that never produces one of the two sentinel texts. */
  ghost predicate RendersDates(host: Platform) {
    forall ms :: host.render(ms) != NotAvailable && host.render(ms) != InvalidDate
  }

  /** `fechaHora` is `'N/A'` exactly when no date column is filled in, and
      `'Invalid Date'` exactly when one is but yields no valid time. */
  lemma TimestampSentinels(row: FagorRow, host: Platform)
    requires RendersDates(host)
    ensures TimestampOf(row, host) == NotAvailable <==> forall i :: 0 <= i < |DateKeys| ==> !FilledAt(row, DateKeys[i])
    ensures TimestampOf(row, host) == InvalidDate <==>
              FirstTruthy(row, DateKeys).Some? &&
              match DateObject(FirstTruthy(row, DateKeys).value, host)
              case Some(Time(_)) => false
              case _ => true
  {
    match FirstTruthy(row, DateKeys)
    case None =>
    case Some(raw) =>
      match DateObject(raw, host)
      case Some(Time(ms)) => assert host.render(ms) != NotAvailable && host.render(ms) != InvalidDate;
      case _ =>
  }

  /** A text date written `DD/MM/YYYY HH:MM:SS` is handed to `new Date` day
      first. */
  lemma DayFirstTimestamp(row: FagorRow, host: Platform, f: DatePattern.DateFields)
    requires 0 <= f.day < 100 && 0 <= f.month + 1 < 100 && 0 <= f.year < 10000
    requires 0 <= f.hour < 100 && 0 <= f.minute < 100 && 0 <= f.second < 100
    requires FirstTruthy(row, DateKeys) == Some(Text(DatePattern.FormatDateTime(f)))
    ensures DateObject(FirstTruthy(row, DateKeys).value, host) == Some(host.localTime(f))
  {
    DatePattern.DateTimeRoundTrip(f);
  }

  /** The plate is trimmed and upper-cased but may be empty: a row with a
      speed and no plate column still yields an alert with plate `""`. */
  lemma EmptyPlateKept(row: FagorRow, directory: ContractService.Directory, host: Platform)
    requires forall i :: 0 <= i < |PlateKeys| ==> !FilledAt(row, PlateKeys[i])
    requires SpeedOf(row, host) >= MinimumSpeed
    ensures RowAlert(row, directory, host).Some?
    ensures RowAlert(row, directory, host).value.placa == []
    ensures Batch([row], directory, host) == [RowAlert(row, directory, host).value]
  {
    assert PlateOf(row, host) == [] by {
      assert FirstTruthy(row, PlateKeys) == None;
      assert NormalizePlate([]) == [];
    }
    RowAlertFields(row, directory, host);
    BatchOfOne(row, directory, host);
  }

  /** A row with a speed maps to an alert carrying that row's plate and speed. */
  lemma RowAlertFields(row: FagorRow, directory: ContractService.Directory, host: Platform)
    requires SpeedOf(row, host) != 0
    ensures RowAlert(row, directory, host).Some?
    ensures RowAlert(row, directory, host).value.placa == PlateOf(row, host)
    ensures RowAlert(row, directory, host).value.velocidad == SpeedOf(row, host)
  {
  }

  /** The batch of one row is its alert when that alert passes the gate. */
  lemma BatchOfOne(row: FagorRow, directory: ContractService.Directory, host: Platform)
    requires RowAlert(row, directory, host).Some?
    requires RowAlert(row, directory, host).value.velocidad >= MinimumSpeed
    ensures Batch([row], directory, host) == [RowAlert(row, directory, host).value]
  {
    assert [row][1..] == [];
    assert Batch([row][1..], directory, host) == [];
  }

  /** The contract is the directory's entry for the normalised plate, or
      `'No Asignado'`. */
  lemma ContractOfAlert(row: FagorRow, directory: ContractService.Directory, host: Platform)
    requires RowAlert(row, directory, host).Some?
    ensures var a := RowAlert(row, directory, host).value;
            (a.placa in directory && directory[a.placa] != [] && a.contrato == directory[a.placa])
            || ((a.placa !in directory || directory[a.placa] == []) && a.contrato == Unassigned)
  {
  }
}
