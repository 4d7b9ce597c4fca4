/** The client list filter of `ClientsPage` (App.tsx): all clients, or only those
    with no service for more than 30, 60 or 90 days. */
module Clients {
  import opened Model
  import Seqs
  import Sorting

  /** The select box: `'all'` or a number of days (`parseInt(filter)`). */
  datatype ClientFilter = AllClients | NoServiceFor(days: int)

  /** `r => r.clientId === clientId` */
  function OfClient(clientId: string): ServiceRecord -> bool {
    (r: ServiceRecord) => r.clientId == clientId
  }

  function DateOf(r: ServiceRecord): int {
    r.date
  }

  /** The client's records, newest first (`filter` then `sort` by date descending). */
  function ClientRecords(records: seq<ServiceRecord>, clientId: string): (r: seq<ServiceRecord>)
    ensures multiset(r) == multiset(Seqs.Filter(records, OfClient(clientId)))
    ensures Sorting.SortedDesc(r, DateOf)
  {
    Sorting.SortDesc(Seqs.Filter(records, OfClient(clientId)), DateOf)
  }

  /** `(now - last) / (1000 * 3600 * 24)`: a fractional number of days. */
  function DaysSince(now: int, date: int): (r: real)
    ensures r > 0.0 <==> now > date
    ensures r == 0.0 <==> now == date
  {
    (now - date) as real / (DAY_MS as real)
  }

  /** The body of the `data.clients.filter(...)` callback. */
  predicate IsStale(client: Client, records: seq<ServiceRecord>, days: int, now: int)
    ensures ClientRecords(records, client.id) == [] ==> IsStale(client, records, days, now)
    ensures ClientRecords(records, client.id) != [] ==>
              (IsStale(client, records, days, now) <==> now - ClientRecords(records, client.id)[0].date > days * DAY_MS)
  {
    var clientRecords := ClientRecords(records, client.id);
    if |clientRecords| == 0 then true
    else
      DaysSinceExceeds(now, clientRecords[0].date, days);
      DaysSince(now, clientRecords[0].date) > days as real
  }

  function StaleFilter(records: seq<ServiceRecord>, days: int, now: int): Client -> bool {
    (c: Client) => IsStale(c, records, days, now)
  }

  /** `filteredClients` */
  function FilteredClients(clients: seq<Client>, records: seq<ServiceRecord>,
                           filter: ClientFilter, now: int): (r: seq<Client>)
    ensures filter == AllClients ==> r == clients
    ensures Seqs.IsSubsequence(r, clients)
    ensures filter.NoServiceFor? ==>
              (forall i :: 0 <= i < |r| ==> IsStale(r[i], records, filter.days, now))
              && (forall i :: 0 <= i < |clients| && IsStale(clients[i], records, filter.days, now) ==> clients[i] in r)
    ensures filter.NoServiceFor? ==>
              forall c :: multiset(r)[c] == if IsStale(c, records, filter.days, now) then multiset(clients)[c] else 0
  {
    match filter
    case AllClients => Seqs.SubsequenceOfItself(clients); clients
    case NoServiceFor(days) =>
      Seqs.FilterIsSubsequence(clients, StaleFilter(records, days, now));
      Seqs.FilterMultiplicity(clients, StaleFilter(records, days, now));
      Seqs.Filter(clients, StaleFilter(records, days, now))
  }

  /** Reference definition: the latest date among the client's records, if it has any. */
  function LastServiceDate(records: seq<ServiceRecord>, clientId: string): (d: Option<int>)
    ensures d.None? <==> forall i :: 0 <= i < |records| ==> records[i].clientId != clientId
    ensures d.Some? ==> (exists i :: 0 <= i < |records| && records[i].clientId == clientId && records[i].date == d.value)
                        && forall i :: 0 <= i < |records| && records[i].clientId == clientId ==> records[i].date <= d.value
  {
    if records == [] then None
    else
      var rest := LastServiceDate(records[1..], clientId);
      TailIndices(records);
      if rest.Some? then
        WitnessInTail(records, clientId, rest.value);
        if records[0].clientId == clientId && records[0].date >= rest.value then Some(records[0].date)
        else rest
      else if records[0].clientId == clientId then Some(records[0].date)
      else None
  }

  lemma TailIndices(records: seq<ServiceRecord>)
    requires records != []
    ensures forall i :: 1 <= i < |records| ==> records[i] == records[1..][i - 1]
  {
  }

  lemma WitnessInTail(records: seq<ServiceRecord>, clientId: string, d: int)
    requires records != []
    requires exists k :: 0 <= k < |records[1..]| && records[1..][k].clientId == clientId && records[1..][k].date == d
    ensures exists i :: 0 <= i < |records| && records[i].clientId == clientId && records[i].date == d
  {
    var k :| 0 <= k < |records[1..]| && records[1..][k].clientId == clientId && records[1..][k].date == d;
    assert records[k + 1] == records[1..][k];
  }

  /** The client's records exist exactly when it has a last service date. */
  lemma ClientRecordsEmptyIff(records: seq<ServiceRecord>, clientId: string)
    ensures |ClientRecords(records, clientId)| == 0 <==> LastServiceDate(records, clientId).None?
  {
    var mine := Seqs.Filter(records, OfClient(clientId));
    var cr := ClientRecords(records, clientId);
    assert |cr| == |mine| by {
      assert |multiset(cr)| == |multiset(mine)|;
    }
    if |mine| > 0 {
      Seqs.InFilter(records, OfClient(clientId), mine[0]);
      var g :| 0 <= g < |records| && records[g] == mine[0];
    }
    assert LastServiceDate(records, clientId).Some? ==> |mine| > 0 by {
      if LastServiceDate(records, clientId).Some? {
        var k :| 0 <= k < |records| && records[k].clientId == clientId;
        Seqs.InFilter(records, OfClient(clientId), records[k]);
      }
    }
  }

  /** The head of the newest-first list is one of the client's records ... */
  lemma NewestIsClientRecord(records: seq<ServiceRecord>, clientId: string)
    requires |ClientRecords(records, clientId)| > 0
    ensures ClientRecords(records, clientId)[0] in records
    ensures ClientRecords(records, clientId)[0].clientId == clientId
  {
    var mine := Seqs.Filter(records, OfClient(clientId));
    var cr := ClientRecords(records, clientId);
    assert cr[0] in multiset(mine);
    Seqs.InFilter(records, OfClient(clientId), cr[0]);
  }

  /** ... and no record of the client is newer. */
  lemma NoRecordNewerThanNewest(records: seq<ServiceRecord>, clientId: string, x: ServiceRecord)
    requires x in records && x.clientId == clientId
    ensures |ClientRecords(records, clientId)| > 0
    ensures x.date <= ClientRecords(records, clientId)[0].date
  {
    var mine := Seqs.Filter(records, OfClient(clientId));
    Seqs.InFilter(records, OfClient(clientId), x);
    Sorting.HeadIsLargest(mine, DateOf);
    var j :| 0 <= j < |mine| && mine[j] == x;
  }

  /** No record of the client is later than its last service date. */
  lemma AtMostLastService(records: seq<ServiceRecord>, clientId: string, x: ServiceRecord)
    requires x in records && x.clientId == clientId
    ensures LastServiceDate(records, clientId).Some?
    ensures x.date <= LastServiceDate(records, clientId).value
  {
    var g :| 0 <= g < |records| && records[g] == x;
  }

  /** The head of the newest-first list carries the client's last service date. */
  lemma NewestRecordIsLastService(records: seq<ServiceRecord>, clientId: string)
    requires |ClientRecords(records, clientId)| > 0
    ensures LastServiceDate(records, clientId).Some?
    ensures ClientRecords(records, clientId)[0].date == LastServiceDate(records, clientId).value
  {
    var newest := ClientRecords(records, clientId)[0];
    NewestIsClientRecord(records, clientId);
    AtMostLastService(records, clientId, newest);
    var last := LastServiceDate(records, clientId).value;
    var k :| 0 <= k < |records| && records[k].clientId == clientId && records[k].date == last;
    NoRecordNewerThanNewest(records, clientId, records[k]);
  }

  /** Strictly more than `days` days: the fractional age compared with `>`, which is
      the same as the age in milliseconds exceeding `days` whole days. */
  lemma DaysSinceExceeds(now: int, date: int, days: int)
    ensures DaysSince(now, date) > days as real <==> now - date > days * DAY_MS
  {
    var x := (now - date) as real;
    assert (days * DAY_MS) as real == (days as real) * 86400000.0;
    assert x / 86400000.0 > days as real <==> x > (days as real) * 86400000.0;
  }

  /** With a day threshold a client is listed iff it has never been serviced, or its
      last service lies strictly more than that many days before `now`. */
  lemma StaleIff(clients: seq<Client>, records: seq<ServiceRecord>, days: int, now: int, c: Client)
    requires c in clients
    ensures c in FilteredClients(clients, records, NoServiceFor(days), now) <==>
              match LastServiceDate(records, c.id)
              case None => true
              case Some(last) => now - last > days * DAY_MS
  {
    ClientRecordsEmptyIff(records, c.id);
    var last := LastServiceDate(records, c.id);
    if last.Some? {
      NewestRecordIsLastService(records, c.id);
      DaysSinceExceeds(now, last.value, days);
    }
    var r := FilteredClients(clients, records, NoServiceFor(days), now);
    var k :| 0 <= k < |clients| && clients[k] == c;
    if c in r {
      var j :| 0 <= j < |r| && r[j] == c;
    }
  }

  /** A client never serviced is listed under every day threshold, whatever `now` is. */
  lemma NeverServicedIsListed(clients: seq<Client>, records: seq<ServiceRecord>, days: int, now: int, c: Client)
    requires c in clients
    requires forall i :: 0 <= i < |records| ==> records[i].clientId != c.id
    ensures c in FilteredClients(clients, records, NoServiceFor(days), now)
  {
    StaleIff(clients, records, days, now, c);
  }
}
