/**
 * From the settlement table to the served forecast (forecaster/emos_forecast.py): what a later replay can reconstruct
 * of a scheduled serve, the same-day one included, down to its recalibration.
 */
module ServedForecast {
  import opened Wrappers
  import opened RealSums
  import opened Emos
  import opened Replay
  import opened Recalibration
  import opened Settlement

  /** The archives a serve or a replay reads: member forecasts, and scored rolling-origin rows. */
  datatype Archives = Archives(dates: seq<int>, nwp: Archive, rolledDates: seq<int>, rolling: Rolling)

  ghost predicate Listed(archives: Archives) {
    Indexes(archives.dates, archives.nwp) && DatesOf(archives.rolledDates, archives.rolling)
  }

  /** What both archives hold of the days before the serve is the same. */
  ghost predicate SameBefore(day: int, archives: Archives, archives': Archives) {
    && PreferredVersion(archives.rolling) == PreferredVersion(archives'.rolling)
    && (forall d :: d < day ==>
          && (d in archives.nwp <==> d in archives'.nwp)
          && (d in archives.nwp ==> archives.nwp[d] == archives'.nwp[d]))
    && (forall version, d :: d < day ==> SameRolled(archives.rolling, archives'.rolling, (version, d)))
  }

  predicate SameRolled(rolling: Rolling, rolling': Rolling, key: (Version, int)) {
    (key in rolling <==> key in rolling') && (key in rolling ==> rolling[key] == rolling'[key])
  }

  function WindowFor(archives: Archives, truth: Truth, serveDate: int): seq<Scored> {
    Window(archives.rolledDates, archives.rolling, truth, serveDate)
  }

  /** The forecast as it leaves a serve that recalibrates by default. */
  function Delivered(raw: Option<Forecast>, rows: seq<Scored>, stderr: real, root: real): Option<Forecast> {
    match raw
    case None => None
    case Some(forecast) => Some(Recalibrated(forecast, ServeCorrection(rows, stderr, root)))
  }

  lemma ArchivesAgreeThrough(day: int, seen: Truth, after: Truth, archives: Archives, archives': Archives, target: int,
          lag: nat)
    requires SameBefore(day, archives, archives') && day == target - lag && VisibleAtServe(seen, after, target, lag)
    ensures AgreeThrough(target - (lag + 1), after, archives.nwp, after, archives'.nwp)
    ensures AgreeBefore(day, archives.rolling, seen, archives'.rolling, after)
  {
    forall version, d | d < day ensures SameRolled(archives.rolling, archives'.rolling, (version, d)) {
    }
  }

  /** The window a serve corrects itself by is the window a later replay finds. */
  lemma WindowIsReplayable(archives: Archives, seen: Truth, archives': Archives, after: Truth, target: int, lag: nat)
    requires Listed(archives) && Listed(archives') && SameBefore(target - lag, archives, archives')
    requires VisibleAtServe(seen, after, target, lag)
    ensures WindowFor(archives, seen, target - lag) == WindowFor(archives', after, target - lag)
  {
    ArchivesAgreeThrough(target - lag, seen, after, archives, archives', target, lag);
    NoFutureInWindow(archives.rolledDates, archives.rolling, seen, archives'.rolledDates, archives'.rolling, after,
                     target - lag);
  }

  /** Both corrections are estimated from one window, so their standard errors are one number. */
  lemma SameDelivery(raw: Option<Forecast>, rows: seq<Scored>, stderr: real, root: real, stderr': real, root': real)
    requires IsStandardError(rows, stderr) && IsStandardError(rows, stderr')
    ensures Delivered(raw, rows, stderr, root) == Delivered(raw, rows, stderr', root')
  {
    hide IsRoot, SampleVariance;
    if |rows| > 0 {
      OneRoot(stderr, stderr', SampleVariance(Errors(rows)) / |rows| as real);
    }
  }

  /**
   * From the table to the forecast. A scheduled serve made `lag` station days before its target, the same-day serve at
   * lag 0 included, delivers exactly what a replay delivers later from the later table and the later archives: the
   * replay of the members it knew, rescaled for the horizon and recalibrated from its own trailing window. It needs
   * only that no settlement, member forecast or rolling-origin row of a day before the serve was changed in between.
   */
  lemma DeliveredForecastIsReplayed(writes: seq<Write>, later: seq<Write>, offsets: Offsets, station: string, now: int,
          archives: Archives, archives': Archives, target: int, live: Day, lag: nat, stationScale: real,
          mode: WeightMode, seen: Truth, after: Truth, stderr: real, root: real, stderr': real, root': real)
    requires ServedAt(writes, offsets, station, now, target - lag) && TruthKept(writes, later, station, target - lag)
    requires Listed(archives) && Listed(archives') && SameBefore(target - lag, archives, archives')
    requires target in archives'.dates
    requires seen == LoadTruth(AfterWrites(map[], writes), station)
    requires after == LoadTruth(AfterWrites(AfterWrites(map[], writes), later), station)
    requires IsStandardError(WindowFor(archives, seen, target - lag), stderr)
    requires IsStandardError(WindowFor(archives', after, target - lag), stderr')
    ensures var serve, day := ScheduledServe(target, live, lag, stationScale, mode), target - lag;
            var served := ServeLive(day, archives.dates, seen, archives.nwp, serve);
            var replayed := ReplayOfServe(archives'.dates, after, archives'.nwp, serve, lag);
            Delivered(served, WindowFor(archives, seen, day), stderr, root)
            == Delivered(replayed, WindowFor(archives', after, day), stderr', root')
  {
    hide ServeLive, ReplayOfServe, WindowFor, Delivered, LoadTruth, AfterWrites, VisibleAtServe, ServedAt, TruthKept,
         SameBefore, Indexes, AgreeThrough, DatesOf, IsStandardError;
    var serve, day := ScheduledServe(target, live, lag, stationScale, mode), target - lag;
    TruthSeenIsTruthKept(writes, later, offsets, station, now, target, lag);
    ArchivesAgreeThrough(day, seen, after, archives, archives', target, lag);
    WindowIsReplayable(archives, seen, archives', after, target, lag);
    ServeIsReplayOverLaterArchive(day, archives.dates, seen, archives.nwp, archives'.dates, after, archives'.nwp,
                                  serve, lag);
    SameDelivery(ServeLive(day, archives.dates, seen, archives.nwp, serve), WindowFor(archives, seen, day),
                 stderr, root, stderr', root');
  }

  /** Which serves are rescaled: the same-day one alone. */
  lemma OnlySameDayIsRescaled(target: int, live: Day, lag: nat, stationScale: real, mode: WeightMode)
    ensures var serve := ScheduledServe(target, live, lag, stationScale, mode);
            HorizonScale(serve.storedLead, serve.lead, stationScale) != 1.0 <==> lag == 0 && stationScale < 1.0
  {
  }
}
