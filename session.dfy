/** The application's session state (App.tsx:18-231): the two alert
    batches, one per provider, the contract directory, the three filters
    and the error line; and the views derived from them, the combined and
    the filtered list and the CSV export. */
module Session {
  import opened Wrappers
  import opened Types
  import ContractService
  import Fagor
  import Coltrack
  import AlertFilter
  import CsvExport
  import Stats
  import Seqs

  /** The `name` of the filter input that changed. */
  datatype FilterField = PlateFilter | OperatorFilter | ContractFilter

  /** `{ ...prev, [name]: value }`. */
  function WithFilter(f: AlertFilter.Filters, field: FilterField, value: string): (g: AlertFilter.Filters)
    ensures field == PlateFilter ==> g == f.(placa := value)
    ensures field == OperatorFilter ==> g == f.(operador := value)
    ensures field == ContractFilter ==> g == f.(contrato := value)
  {
    match field
    case PlateFilter => f.(placa := value)
    case OperatorFilter => f.(operador := value)
    case ContractFilter => f.(contrato := value)
  }

  /** Replacing either batch by a gated one keeps every alert gated. */
  lemma GatedBatches(kept: seq<Alert>, batch: seq<Alert>)
    requires forall a :: a in kept ==> a.velocidad >= 50
    requires forall a :: a in batch ==> a.velocidad >= 50
    ensures forall a :: a in kept + batch ==> a.velocidad >= 50
    ensures forall a :: a in batch + kept ==> a.velocidad >= 50
  {
  }

  /** The Coltrack loader's batch, with the gate every alert of it passed. */
  method GatedColtrack(rows: seq<ColtrackRow>, directory: ContractService.Directory) returns (alerts: seq<Alert>)
    ensures alerts == Coltrack.Batch(rows, directory)
    ensures forall a :: a in alerts ==> a.velocidad >= 50
  {
    alerts := Coltrack.Batch(rows, directory);
    Coltrack.BatchSpeeds(rows, directory);
  }

  class App {
    var fagorAlerts: seq<Alert>
    var coltrackAlerts: seq<Alert>
    var contractMap: ContractService.Directory
    var filters: AlertFilter.Filters
    var error: Option<string>

    /** Every alert held passed a loader's 50 km/h gate. */
    ghost predicate Valid()
      reads this
    {
      forall a :: a in fagorAlerts + coltrackAlerts ==> a.velocidad >= 50
    }

    /** The initial state: no alerts, no contracts, empty filters. */
    constructor()
      ensures fagorAlerts == [] && coltrackAlerts == [] && contractMap == map[]
      ensures filters == AlertFilter.NoFilters && error == None
      ensures Valid()
    {
      fagorAlerts := [];
      coltrackAlerts := [];
      contractMap := map[];
      filters := AlertFilter.NoFilters;
      error := None;
    }

    /** `loadContracts` (App.tsx:35-46): the directory on success, the
        service's message otherwise. */
    method LoadContracts(reply: Result<ContractService.Directory, string>)
      modifies this
      requires Valid()
      ensures reply.Success? ==> contractMap == reply.value && error == old(error)
      ensures reply.Failure? ==> contractMap == old(contractMap) && error == Some(reply.error)
      ensures fagorAlerts == old(fagorAlerts) && coltrackAlerts == old(coltrackAlerts) && filters == old(filters)
      ensures Valid()
    {
      match reply {
        case Success(directory) =>
          contractMap := directory;
        case Failure(message) =>
          error := Some(message);
      }
    }

    /** `handleFagorFileProcess` then `processFagorFile`: the error is
        cleared and the Fagor batch replaced by the rows' alerts; the
        Coltrack batch is untouched. */
    method LoadFagor(rows: seq<FagorRow>, host: Fagor.Platform)
      modifies this
      requires Valid()
      ensures fagorAlerts == Fagor.Batch(rows, old(contractMap), host)
      ensures coltrackAlerts == old(coltrackAlerts)
      ensures contractMap == old(contractMap) && filters == old(filters) && error == None
      ensures Valid()
    {
      error := None;
      var alerts := Fagor.ProcessRows(rows, contractMap, host);
      Fagor.BatchFromRows(rows, contractMap, host);
      GatedBatches(coltrackAlerts, alerts);
      fagorAlerts := alerts;
    }

    /** `handleColtrackFileProcess` then `processColtrackFile`: the error
        is cleared and the Coltrack batch replaced; the Fagor batch is
        untouched. */
    method LoadColtrack(rows: seq<ColtrackRow>)
      modifies this
      requires Valid()
      ensures coltrackAlerts == Coltrack.Batch(rows, old(contractMap))
      ensures fagorAlerts == old(fagorAlerts)
      ensures contractMap == old(contractMap) && filters == old(filters) && error == None
      ensures Valid()
    {
      error := None;
      var alerts := GatedColtrack(rows, contractMap);
      GatedBatches(fagorAlerts, alerts);
      coltrackAlerts := alerts;
    }

    /** `handleClearAllData`: both batches emptied, nothing else changed. */
    method ClearAllData()
      modifies this
      ensures fagorAlerts == [] && coltrackAlerts == []
      ensures contractMap == old(contractMap) && filters == old(filters) && error == old(error)
      ensures Valid()
    {
      fagorAlerts := [];
      coltrackAlerts := [];
    }

    /** `handleFilterChange`: one filter set, the other two kept. */
    method SetFilter(field: FilterField, value: string)
      modifies this
      requires Valid()
      ensures filters == WithFilter(old(filters), field, value)
      ensures fagorAlerts == old(fagorAlerts) && coltrackAlerts == old(coltrackAlerts)
      ensures contractMap == old(contractMap) && error == old(error)
      ensures Valid()
    {
      filters := WithFilter(filters, field, value);
    }

    /** `handleClearFilters`. */
    method ClearFilters()
      modifies this
      requires Valid()
      ensures filters == AlertFilter.NoFilters
      ensures fagorAlerts == old(fagorAlerts) && coltrackAlerts == old(coltrackAlerts)
      ensures contractMap == old(contractMap) && error == old(error)
      ensures Valid()
    {
      filters := AlertFilter.NoFilters;
    }

    /** `combinedAlerts`: the Fagor batch, then the Coltrack batch. */
    function Combined(): (all: seq<Alert>)
      reads this
      ensures |all| == |fagorAlerts| + |coltrackAlerts|
      ensures all[..|fagorAlerts|] == fagorAlerts && all[|fagorAlerts|..] == coltrackAlerts
    {
      fagorAlerts + coltrackAlerts
    }

    /** `filteredAlerts`. */
    function Filtered(): (view: seq<Alert>)
      reads this
      ensures Seqs.IsSubsequence(view, Combined())
      ensures forall a :: a in view <==> a in Combined() && AlertFilter.Matches(filters, a)
    {
      AlertFilter.FilterAlerts(Combined(), filters)
    }

    /** `handleExportCSV` up to the download: the document of the filtered
        alerts, or the no-data message. */
    function Export(): (r: Result<string, string>)
      reads this
      ensures r.Failure? <==> Filtered() == []
      ensures r.Failure? ==> r.error == CsvExport.NoData
      ensures r.Success? ==> r.value == CsvExport.Document(Filtered())
    {
      CsvExport.ExportCsv(Filtered())
    }
  }

  // ---------------------------------------------------------------------
  // Properties of the session

  /** With the filters cleared, the report shows every alert of both
      batches, Fagor first. */
  lemma ClearedFiltersShowAll(app: App)
    requires app.filters == AlertFilter.NoFilters
    ensures app.Filtered() == app.fagorAlerts + app.coltrackAlerts
  {
    AlertFilter.NoFiltersKeepAll(app.Combined());
  }

  /** In a session whose alerts all came through the loaders, the high and
      medium counters of any filtered view add up to its size. */
  lemma FilteredBandsCover(app: App)
    requires app.Valid()
    ensures Stats.HighSpeedCount(app.Filtered()) + Stats.MediumSpeedCount(app.Filtered()) == |app.Filtered()|
  {
    Stats.SpeedBandsCover(app.Filtered());
  }

  /** The export is refused exactly when the filtered view is empty, and
      otherwise reads back as the header plus one record per shown alert. */
  lemma ExportOfSession(app: App)
    ensures app.Export().Failure? <==> app.Filtered() == []
    ensures app.Export().Success? ==>
              CsvExport.ReadDocument(app.Export().value) == [CsvExport.Headers] + CsvExport.AllCells(app.Filtered())
  {
    CsvExport.DocumentRoundTrip(app.Filtered());
  }
}
