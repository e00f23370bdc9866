/** The dashboard's data logic (App.tsx): the load cycle that reads history
    and latest record and decides whether to refresh, and the refresh cycle
    fetch text -> parse -> classify -> save -> reload. Every external call is
    answered by a value in a "world" parameter, so each cycle is a function
    from (state, world) to (new state, calls made). */
module App {
  import opened Wrappers
  import opened Types
  import TrendLogic
  import Staleness
  import Store
  import Collaborators
  import Ordering

  const LoadFallback := "Failed to load history"
  const UpdateFallback := "Failed to update water data"

  /** The component's state variables. */
  datatype AppState = AppState(
    history: seq<WaterRecord>,
    latest: Option<WaterRecord>,
    isLoading: bool,
    isUpdating: bool,
    error: Option<string>)

  /** The state before the first load. */
  const Initial := AppState([], None, false, false, None)

  /** A call to a collaborator, in the order a full refresh makes them. */
  datatype Call =
    | FetchText
    | ParseText(text: string)
    | SaveRecord(record: WaterRecord)
    | FetchHistory
    | FetchLatest

  /** Position of each call in a full refresh. */
  function Step(c: Call): nat {
    match c
    case FetchText => 0
    case ParseText(_) => 1
    case SaveRecord(_) => 2
    case FetchHistory => 3
    case FetchLatest => 4
  }

  /** The calls of `trace` are the steps `first`, `first + 1`, ... in order:
      none repeated, none skipped, none out of turn. */
  predicate InOrder(trace: seq<Call>, first: nat) {
    forall i :: 0 <= i < |trace| ==> Step(trace[i]) == first + i
  }

  /** The message the dashboard shows for a caught error: its `.message`,
      or `fallback` when that is empty. */
  function ErrorText(f: Fault, fallback: string): (m: string)
    requires fallback != ""
    ensures m != ""
    ensures f.Message() != "" ==> m == f.Message()
    ensures f.Message() == "" ==> m == fallback
  {
    if f.Message() == "" then fallback else f.Message()
  }

  /** What a load learns from outside: the database, the error (if any) each
      query is answered with, and the clock. */
  datatype LoadWorld = LoadWorld(
    client: Store.Client,
    historyFault: Option<StoreError>,
    latestFault: Option<StoreError>,
    now: int)

  /** The state after a load, the calls it made, and whether it asked for a refresh. */
  datatype LoadResult = LoadResult(state: AppState, trace: seq<Call>, autoRefresh: bool)

  /** loadData: clear the error, read the history, then the latest record,
      and decide on an automatic refresh. A failure keeps whatever was already
      replaced and records the message. */
  function Load(s: AppState, w: LoadWorld): (r: LoadResult)
    ensures !r.state.isLoading && r.state.isUpdating == s.isUpdating
    ensures 1 <= |r.trace| <= 2 && InOrder(r.trace, 3)
    ensures r.state.error.None? <==>
      Store.FetchWaterHistory(w.client, w.historyFault).Success?
      && Store.FetchLatestRecord(w.client, w.latestFault).Success?
    ensures r.state.error.Some? ==> r.state.error.value != ""
    ensures var h := Store.FetchWaterHistory(w.client, w.historyFault);
      && (h.Failure? ==> |r.trace| == 1 && r.state.error == Some(ErrorText(h.error, LoadFallback)))
      && (h.Success? ==> |r.trace| == 2)
    ensures var h := Store.FetchWaterHistory(w.client, w.historyFault);
      var l := Store.FetchLatestRecord(w.client, w.latestFault);
      (h.Success? && l.Failure?) ==> r.state.error == Some(ErrorText(l.error, LoadFallback))
    ensures r.state.history ==
      (if Store.FetchWaterHistory(w.client, w.historyFault).Success?
       then Store.FetchWaterHistory(w.client, w.historyFault).value else s.history)
    ensures r.state.latest == (if r.state.error.None? then Store.FetchLatestRecord(w.client, w.latestFault).value else s.latest)
    ensures r.autoRefresh <==> r.state.error.None? && Staleness.NeedsAutoRefresh(r.state.latest, w.now)
  {
    var started := s.(isLoading := true, error := None);
    match Store.FetchWaterHistory(w.client, w.historyFault)
    case Failure(f) =>
      LoadResult(started.(error := Some(ErrorText(f, LoadFallback)), isLoading := false), [FetchHistory], false)
    case Success(history) =>
      var withHistory := started.(history := history);
      match Store.FetchLatestRecord(w.client, w.latestFault)
      case Failure(f) =>
        LoadResult(withHistory.(error := Some(ErrorText(f, LoadFallback)), isLoading := false),
                   [FetchHistory, FetchLatest], false)
      case Success(latest) =>
        LoadResult(withHistory.(latest := latest, isLoading := false),
                   [FetchHistory, FetchLatest], Staleness.NeedsAutoRefresh(latest, w.now))
  }

  /** What a refresh learns from outside: the database, the scraped text or
      transport error, the parser's reading (None when it fails), the error
      each store request is answered with, the values the database assigns
      on insert, and the clock. */
  datatype RefreshWorld = RefreshWorld(
    client: Store.Client,
    text: Result<string, string>,
    parsed: Option<ExtractedWaterData>,
    saveFault: Option<StoreError>,
    stamp: Store.Stamp,
    historyFault: Option<StoreError>,
    latestFault: Option<StoreError>,
    now: int)

  /** The state after a refresh, the database after it, the calls made, and
      whether the reload at its end asked for another refresh. */
  datatype RefreshResult = RefreshResult(state: AppState, client: Store.Client, trace: seq<Call>, autoRefresh: bool)

  /** The outcome of a refresh that failed before reloading. */
  function Abort(s: AppState, f: Fault, client: Store.Client, trace: seq<Call>): RefreshResult {
    RefreshResult(s.(error := Some(ErrorText(f, UpdateFallback)), isUpdating := false), client, trace, false)
  }

  /** Step 5 of a refresh, after a successful save: reload through `loadData`
      (which catches its own errors) and lower the flag. */
  function Reload(started: AppState, client: Store.Client, upToSave: seq<Call>, w: RefreshWorld): (r: RefreshResult)
    requires |upToSave| == 3 && InOrder(upToSave, 0)
    ensures !r.state.isUpdating && r.client == client
    ensures 4 <= |r.trace| <= 5 && InOrder(r.trace, 0)
    ensures forall i :: 0 <= i < 3 ==> r.trace[i] == upToSave[i]
    ensures var h := Store.FetchWaterHistory(client, w.historyFault);
      var l := Store.FetchLatestRecord(client, w.latestFault);
      && !r.state.isLoading
      && r.state.history == (if h.Success? then h.value else started.history)
      && r.state.latest == (if h.Success? && l.Success? then l.value else started.latest)
      && (r.state.error.None? <==> h.Success? && l.Success?)
      && (r.autoRefresh <==> r.state.error.None? && Staleness.NeedsAutoRefresh(r.state.latest, w.now))
  {
    var reload := Load(started, LoadWorld(client, w.historyFault, w.latestFault, w.now));
    RefreshResult(reload.state.(isUpdating := false), client, upToSave + reload.trace, reload.autoRefresh)
  }

  /** handleUpdateData: does nothing while a refresh is in progress; otherwise
      raises the flag, clears the error, runs the steps in order until one
      fails, and lowers the flag on every path. */
  function Refresh(s: AppState, w: RefreshWorld): (r: RefreshResult)
    ensures s.isUpdating ==> r == RefreshResult(s, w.client, [], false)
    ensures !s.isUpdating ==> !r.state.isUpdating && 1 <= |r.trace| <= 5
    ensures InOrder(r.trace, 0)
    ensures forall i :: 0 <= i < |r.trace| && r.trace[i].ParseText? ==> w.text == Success(r.trace[i].text)
    ensures forall i :: 0 <= i < |r.trace| && r.trace[i].SaveRecord? ==>
      w.text.Success? && w.parsed.Some? && r.trace[i].record == TrendLogic.AssembleRecord(w.parsed.value)
    ensures |r.trace| > 3 ==> w.client.Configured? && w.saveFault.None?
    ensures r.client != w.client ==> |r.trace| > 3
    ensures !s.isUpdating && |r.trace| <= 3 ==>
      && r.state.history == s.history && r.state.latest == s.latest
      && r.state.error.Some? && r.state.isLoading == s.isLoading
      && r.client == w.client && !r.autoRefresh
    ensures !s.isUpdating && w.text.Success? ==> |r.trace| >= 2
    ensures !s.isUpdating && w.text.Success? && w.parsed.Some? ==> |r.trace| >= 3
    ensures !s.isUpdating && w.text.Success? && w.parsed.Some? && w.client.Configured? && w.saveFault.None? ==>
      && |r.trace| >= 4
      && r.client == Store.Configured(w.client.table + [Store.Stored(TrendLogic.AssembleRecord(w.parsed.value), w.stamp)])
  {
    if s.isUpdating then RefreshResult(s, w.client, [], false)
    else
      var started := s.(isUpdating := true, error := None);
      match Collaborators.FetchRawText(w.text)
      case Failure(f) => Abort(started, f, w.client, [FetchText])
      case Success(text) =>
        match Collaborators.ParseWaterData(w.parsed)
        case Failure(f) => Abort(started, f, w.client, [FetchText, ParseText(text)])
        case Success(reading) =>
          var record := TrendLogic.AssembleRecord(reading);
          var upToSave := [FetchText, ParseText(text), SaveRecord(record)];
          match Store.SaveWaterRecord(w.client, record, w.saveFault, w.stamp)
          case Failure(f) => Abort(started, f, w.client, upToSave)
          case Success(client) => Reload(started, client, upToSave, w)
  }

  /** The error a failed refresh shows names the step that failed: the
      transport's message (or the fallback when it has none), the parser's
      fixed message, or the store's message. A failed reload after a
      successful save shows the load's message, while the new row stays in
      the table. */
  lemma RefreshErrorMessages(s: AppState, w: RefreshWorld)
    requires !s.isUpdating
    ensures w.text.Failure? ==>
      Refresh(s, w).state.error == Some(if w.text.error == "" then UpdateFallback else w.text.error)
    ensures w.text.Success? && w.parsed.None? ==>
      Refresh(s, w).state.error == Some(Collaborators.ParseFailedMessage)
    ensures w.text.Success? && w.parsed.Some? && w.client.Unconfigured? ==>
      Refresh(s, w).state.error == Some(Store.CredentialsMissingMessage)
    ensures (w.text.Success? && w.parsed.Some? && w.client.Configured?
             && w.saveFault.Some? && Store.IsAccessDenied(w.saveFault.value)) ==>
      Refresh(s, w).state.error == Some(Store.WriteDeniedMessage)
    ensures (w.text.Success? && w.parsed.Some? && w.client.Configured?
             && w.saveFault.Some? && !Store.IsAccessDenied(w.saveFault.value)) ==>
      Refresh(s, w).state.error == Some(ErrorText(Rethrown(w.saveFault.value), UpdateFallback))
    ensures w.text.Success? && w.parsed.Some? && w.client.Configured? && w.saveFault.None? ==>
      var saved := Store.Configured(w.client.table + [Store.Stored(TrendLogic.AssembleRecord(w.parsed.value), w.stamp)]);
      && Refresh(s, w).client == saved
      && (Store.FetchWaterHistory(saved, w.historyFault).Failure? ==>
            Refresh(s, w).state.error
              == Some(ErrorText(Store.FetchWaterHistory(saved, w.historyFault).error, LoadFallback)))
      && (Store.FetchWaterHistory(saved, w.historyFault).Success?
          && Store.FetchLatestRecord(saved, w.latestFault).Failure? ==>
            Refresh(s, w).state.error
              == Some(ErrorText(Store.FetchLatestRecord(saved, w.latestFault).error, LoadFallback)))
  {
  }

  /** A refresh in which every call succeeds leaves no error, appends exactly
      the assembled reading to the table, and shows it in the reloaded history. */
  lemma SuccessfulRefreshShowsReading(s: AppState, w: RefreshWorld)
    requires !s.isUpdating && w.client.Configured?
    requires w.text.Success? && w.parsed.Some?
    requires w.saveFault.None? && w.historyFault.None? && w.latestFault.None?
    ensures var r := Refresh(s, w);
      var row := Store.Stored(TrendLogic.AssembleRecord(w.parsed.value), w.stamp);
      && |r.trace| == 5
      && r.state.error.None? && !r.state.isLoading && !r.state.isUpdating
      && r.client == Store.Configured(w.client.table + [row])
      && row in r.state.history
      && r.state.latest.Some?
  {
    var row := Store.Stored(TrendLogic.AssembleRecord(w.parsed.value), w.stamp);
    Store.AppendedRowIsRead(w.client.table, row);
  }

  /** When the database stamps the new reading later than every reading
      already stored, the dashboard's latest record after the refresh is that
      reading, and a further refresh is requested only if the stamp is more
      than a day before the clock. */
  lemma NewestInsertBecomesLatest(s: AppState, w: RefreshWorld)
    requires !s.isUpdating && w.client.Configured?
    requires w.text.Success? && w.parsed.Some?
    requires w.saveFault.None? && w.historyFault.None? && w.latestFault.None?
    requires forall k :: 0 <= k < |w.client.table| ==>
      w.client.table[k].createdAt.Some? && w.client.table[k].createdAt.value < w.stamp.createdAt
    ensures Refresh(s, w).state.latest == Some(Store.Stored(TrendLogic.AssembleRecord(w.parsed.value), w.stamp))
    ensures Refresh(s, w).autoRefresh <==> w.now - w.stamp.createdAt > Staleness.DayMs
  {
    var row := Store.Stored(TrendLogic.AssembleRecord(w.parsed.value), w.stamp);
    var table := w.client.table + [row];
    Store.NewestRowIsLatest(w.client.table, row);
  }

  /** The flag is released, so the refresh after a completed one runs. */
  lemma NextRefreshProceeds(s: AppState, w: RefreshWorld, next: RefreshWorld)
    requires !s.isUpdating
    ensures var again := Refresh(Refresh(s, w).state, next);
      |again.trace| > 0 && again.trace[0] == FetchText
  {
  }

  /** Without credentials a refresh never writes and never reloads. */
  lemma UnconfiguredRefreshNeverWrites(s: AppState, w: RefreshWorld)
    requires w.client.Unconfigured?
    ensures Refresh(s, w).client == Store.Unconfigured
    ensures |Refresh(s, w).trace| <= 3
  {
  }

  /** The first load against an empty or unconfigured store asks for a
      refresh; so does one whose latest-record query is refused by row-level
      security, because that refusal reads as "no data". */
  lemma FirstLoadOfEmptyStoreRequestsRefresh(w: LoadWorld)
    requires w.historyFault.None?
    requires
      || w.client.Unconfigured?
      || (w.client.Configured? && w.client.table == [] && w.latestFault.None?)
      || (w.client.Configured? && w.latestFault.Some? && Store.IsAccessDenied(w.latestFault.value))
    ensures Load(Initial, w).autoRefresh
    ensures Load(Initial, w).state.latest.None?
  {
  }
}
