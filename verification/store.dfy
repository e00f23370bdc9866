/** The datastore adapter (services/supabaseClient.ts). The database is a
    table of rows behind a client that exists only when credentials are
    configured; each request is given the error the database answers it with,
    if any, so every outcome the adapter distinguishes can be reached. */
module Store {
  import opened Wrappers
  import opened Types
  import Text
  import Ordering

  /** The client: absent when URL or key is missing, otherwise connected to
      the current contents of the `water_levels` table. */
  datatype Client = Unconfigured | Configured(table: seq<WaterRecord>)

  /** The values the database fills in on insert: the next id and the time of insertion. */
  datatype Stamp = Stamp(id: int, createdAt: int)

  const DeniedCode := "42501"
  const DeniedPhrase := "row-level security"
  const ReadDeniedMessage :=
    "Supabase Access Denied: Please create an RLS policy or disable RLS in your table settings."
  const WriteDeniedMessage :=
    "Supabase Write Error: RLS Policy violation. Please run 'create policy ...' in Supabase SQL Editor."
  const CredentialsMissingMessage := "Supabase credentials missing. Cannot save data."

  /** The error is a row-level-security refusal: recognised by its Postgres
      code or by the phrase anywhere in its message. */
  function IsAccessDenied(e: StoreError): (r: bool)
    ensures r <==> e.code == DeniedCode || exists i :: Text.OccursAt(e.message, DeniedPhrase, i)
  {
    Text.ContainsIff(e.message, DeniedPhrase);
    e.code == DeniedCode || Text.Contains(e.message, DeniedPhrase)
  }

  /** All readings, oldest first. */
  function FetchWaterHistory(client: Client, fault: Option<StoreError>): (r: Result<seq<WaterRecord>, Fault>)
    ensures client.Unconfigured? ==> r == Success([])
    ensures client.Configured? && fault.Some? && IsAccessDenied(fault.value) ==>
      r == Failure(Raised(ReadDeniedMessage))
    ensures client.Configured? && fault.Some? && !IsAccessDenied(fault.value) ==>
      r == Failure(Rethrown(fault.value))
    ensures client.Configured? && fault.None? ==>
      r.Success? && Ordering.Sorted(r.value, true) && multiset(r.value) == multiset(client.table)
  {
    match client
    case Unconfigured => Success([])
    case Configured(table) =>
      match fault
      case Some(e) => if IsAccessDenied(e) then Failure(Raised(ReadDeniedMessage)) else Failure(Rethrown(e))
      case None => Success(Ordering.Sort(table, true))
  }

  /** The most recent reading, or None. An access-denied refusal also yields
      None, so that the dashboard can still render. */
  function FetchLatestRecord(client: Client, fault: Option<StoreError>): (r: Result<Option<WaterRecord>, Fault>)
    ensures client.Unconfigured? ==> r == Success(None)
    ensures client.Configured? && fault.Some? && IsAccessDenied(fault.value) ==> r == Success(None)
    ensures client.Configured? && fault.Some? && !IsAccessDenied(fault.value) ==>
      r == Failure(Rethrown(fault.value))
    ensures client.Configured? && fault.None? ==>
      && r.Success?
      && (r.value.None? <==> |client.table| == 0)
      && (r.value.Some? ==>
            && r.value.value in client.table
            && forall row :: row in client.table ==> Ordering.Precedes(r.value.value, row, false))
  {
    match client
    case Unconfigured => Success(None)
    case Configured(table) =>
      match fault
      case Some(e) => if IsAccessDenied(e) then Success(None) else Failure(Rethrown(e))
      case None =>
        var newestFirst := Ordering.Sort(table, false);
        assert |newestFirst| == |multiset(newestFirst)| == |table|;
        if |newestFirst| > 0 then
          assert newestFirst[0] in multiset(table);
          assert forall row :: row in table ==> row in multiset(newestFirst);
          Success(Some(newestFirst[0]))
        else Success(None)
  }

  /** The row the database stores for `record`: the record's own id and
      timestamp when it has them, the database's defaults otherwise. */
  function Stored(record: WaterRecord, stamp: Stamp): (row: WaterRecord)
    ensures row.id.Some? && row.createdAt.Some?
    ensures row.waterLevel == record.waterLevel && row.change24h == record.change24h
    ensures row.trend == record.trend
    ensures record.createdAt.None? ==> row.createdAt == Some(stamp.createdAt)
  {
    record.(
      id := if record.id.Some? then record.id else Some(stamp.id),
      createdAt := if record.createdAt.Some? then record.createdAt else Some(stamp.createdAt))
  }

  /** Inserts one record. Success carries no value for the caller; the
      returned client is the database after the insert. */
  function SaveWaterRecord(client: Client, record: WaterRecord, fault: Option<StoreError>, stamp: Stamp): (r: Result<Client, Fault>)
    ensures client.Unconfigured? ==> r == Failure(Raised(CredentialsMissingMessage))
    ensures client.Configured? && fault.Some? && IsAccessDenied(fault.value) ==>
      r == Failure(Raised(WriteDeniedMessage))
    ensures client.Configured? && fault.Some? && !IsAccessDenied(fault.value) ==>
      r == Failure(Rethrown(fault.value))
    ensures client.Configured? && fault.None? ==>
      r.Success? && r.value.Configured? && r.value.table == client.table + [Stored(record, stamp)]
  {
    match client
    case Unconfigured => Failure(Raised(CredentialsMissingMessage))
    case Configured(table) =>
      match fault
      case Some(e) => if IsAccessDenied(e) then Failure(Raised(WriteDeniedMessage)) else Failure(Rethrown(e))
      case None => Success(Configured(table + [Stored(record, stamp)]))
  }

  /** The latest record and the last row of the history agree on the
      timestamp whenever both are read from the same non-empty table. */
  lemma LatestMatchesEndOfHistory(table: seq<WaterRecord>)
    requires |table| > 0
    ensures FetchLatestRecord(Configured(table), None).value.Some?
    ensures FetchWaterHistory(Configured(table), None).value[|table| - 1].createdAt
         == FetchLatestRecord(Configured(table), None).value.value.createdAt
  {
    var history := FetchWaterHistory(Configured(table), None).value;
    var latest := FetchLatestRecord(Configured(table), None).value.value;
    assert |history| == |multiset(history)| == |table|;
    var last := history[|history| - 1];
    assert last in multiset(table);
    assert Ordering.AscNoLater(last, latest);
    assert latest in multiset(history);
    Ordering.LastIsLatest(history, latest);
    Ordering.AscNoLaterAntisymmetric(latest, last);
  }

  /** A row stamped later than every row already in the table is what the
      latest-record query returns once it is appended. */
  lemma NewestRowIsLatest(table: seq<WaterRecord>, row: WaterRecord)
    requires row.createdAt.Some?
    requires forall k :: 0 <= k < |table| ==>
      table[k].createdAt.Some? && table[k].createdAt.value < row.createdAt.value
    ensures FetchLatestRecord(Configured(table + [row]), None) == Success(Some(row))
  {
    var all := table + [row];
    var latest := FetchLatestRecord(Configured(all), None).value.value;
    assert row in all;
    assert forall k :: 0 <= k < |table| ==> !Ordering.AscNoLater(row, table[k]);
    assert latest in all;
  }

  /** After a row is appended, the history read contains it and the
      latest-record read finds a record. */
  lemma AppendedRowIsRead(table: seq<WaterRecord>, row: WaterRecord)
    ensures row in FetchWaterHistory(Configured(table + [row]), None).value
    ensures FetchLatestRecord(Configured(table + [row]), None).value.Some?
  {
    assert row in multiset(table + [row]);
  }
}
