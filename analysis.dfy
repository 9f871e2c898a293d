/** The analysis panel (components/AIAnalysis.tsx:22-97): the data summary
    handed to the text-generation service and the handler that asks for
    the analysis. The service itself is not modelled; its answer is a
    parameter. */
module Analysis {
  import opened Wrappers
  import opened Types
  import Stats

  /** How many entries each ranking of the summary keeps. */
  const TopN := 5

  const NoDataMessage := "No hay datos suficientes para generar un an\U{00E1}lisis."
  const ServiceErrorMessage :=
    "Ocurri\U{00F3} un error al contactar el servicio de IA. Por favor, int\U{00E9}ntelo de nuevo m\U{00E1}s tarde."

  datatype Summary = Summary(
    totalAlerts: nat,
    highSpeedCount: nat,
    mediumSpeedCount: nat,
    uniqueVehicles: nat,
    topPlates: seq<StatItem>,
    topContracts: seq<StatItem>,
    topOperators: seq<StatItem>)

  /** `dataSummary`: nothing for no alerts; otherwise the totals, the
      counters and three top-5 rankings. */
  function DataSummary(alerts: seq<Alert>): (r: Option<Summary>)
    ensures r.None? <==> alerts == []
    ensures r.Some? ==> r.value.totalAlerts == |alerts|
    ensures r.Some? ==> r.value.highSpeedCount == Stats.HighSpeedCount(alerts)
                        && r.value.mediumSpeedCount == Stats.MediumSpeedCount(alerts)
                        && r.value.uniqueVehicles == Stats.UniqueVehicles(alerts)
    ensures r.Some? ==> r.value.topPlates == Stats.TopStats(alerts, Stats.Plate, TopN)
                        && r.value.topContracts == Stats.TopStats(alerts, Stats.Contract, TopN)
                        && r.value.topOperators == Stats.TopStats(alerts, Stats.Operator, TopN)
    ensures r.Some? ==> 1 <= r.value.uniqueVehicles <= |alerts|
    ensures r.Some? ==> r.value.highSpeedCount + r.value.mediumSpeedCount <= |alerts|
    ensures r.Some? ==> 1 <= |r.value.topPlates| <= TopN
    ensures r.Some? ==> 1 <= |r.value.topContracts| <= TopN
    ensures r.Some? ==> 1 <= |r.value.topOperators| <= TopN
  {
    if |alerts| == 0 then None
    else
      Stats.UniqueVehiclesCount(alerts);
      Stats.SpeedBandsBounded(alerts);
      Stats.TopStatsLength(alerts, Stats.Plate, TopN);
      Stats.TopStatsLength(alerts, Stats.Contract, TopN);
      Stats.TopStatsLength(alerts, Stats.Operator, TopN);
      Stats.SomeKey(alerts, Stats.Plate);
      Stats.SomeKey(alerts, Stats.Contract);
      Stats.SomeKey(alerts, Stats.Operator);
      Some(Summary(
        |alerts|,
        Stats.HighSpeedCount(alerts),
        Stats.MediumSpeedCount(alerts),
        Stats.UniqueVehicles(alerts),
        Stats.TopStats(alerts, Stats.Plate, TopN),
        Stats.TopStats(alerts, Stats.Contract, TopN),
        Stats.TopStats(alerts, Stats.Operator, TopN)))
  }

  /** For alerts that all passed a loader's 50 km/h gate, the summary's
      high and medium counts add up to the total. */
  lemma SummaryBandsCover(alerts: seq<Alert>)
    requires alerts != []
    requires forall a :: a in alerts ==> a.velocidad >= 50
    ensures var s := DataSummary(alerts).value;
            s.highSpeedCount + s.mediumSpeedCount == s.totalAlerts
  {
    Stats.SpeedBandsCover(alerts);
  }

  /** The panel's state: the error and result shown, the loading flag, and
      the summaries sent to the service so far. */
  class Panel {
    var error: Option<string>
    var result: Option<string>
    var loading: bool
    var requests: seq<Summary>

    constructor()
      ensures error == None && result == None && !loading && requests == []
    {
      error := None;
      result := None;
      loading := false;
      requests := [];
    }

    /** `handleGenerateAnalysis`, with the service's answer (`reply`) as a
        parameter: with no summary only the error is set and nothing is
        sent; otherwise the summary is sent once and the answer shown, or
        the generic service error. */
    method GenerateAnalysis(alerts: seq<Alert>, reply: Result<string, string>)
      modifies this
      ensures alerts == [] ==>
                error == Some(NoDataMessage) && requests == old(requests)
                && result == old(result) && loading == old(loading)
      ensures alerts != [] ==>
                requests == old(requests) + [DataSummary(alerts).value] && !loading
                && (reply.Success? ==> result == Some(reply.value) && error == None)
                && (reply.Failure? ==> result == None && error == Some(ServiceErrorMessage))
    {
      var summary := DataSummary(alerts);
      if summary.None? {
        error := Some(NoDataMessage);
        return;
      }
      Ask(summary.value, reply);
    }

    /** The request itself (AIAnalysis.tsx:50-96): loading while the
        summary is sent, then the answer or the generic error. */
    method Ask(summary: Summary, reply: Result<string, string>)
      modifies this
      ensures requests == old(requests) + [summary] && !loading
      ensures reply.Success? ==> result == Some(reply.value) && error == None
      ensures reply.Failure? ==> result == None && error == Some(ServiceErrorMessage)
    {
      loading := true;
      error := None;
      result := None;
      requests := requests + [summary];
      match reply {
        case Success(text) =>
          result := Some(text);
        case Failure(_) =>
          error := Some(ServiceErrorMessage);
      }
      loading := false;
    }
  }
}
