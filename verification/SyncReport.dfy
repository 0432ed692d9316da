/**
 The SDK's full sync (sdk/go/sync.go): people first, then clients, and a report of both.
 */
module SyncReport {
  import opened BulkSync
  import opened Sequences

  datatype Totals = Totals(created: int, updated: int, failed: int)

  datatype Report = Report(contacts: Totals, companies: Totals, contactIssues: seq<Row>, companyIssues: seq<Row>,
                           unknownMembers: map<string, seq<string>>)

  const NOTHING := Totals(0, 0, 0)

  function TotalsOf(b: Bulk): Totals {
    Totals(b.created, b.updated, b.rejectedA + b.rejectedB)
  }

  /** The rows that were not saved, in order. */
  function Issues(rows: seq<Row>): (issues: seq<Row>)
    ensures forall r :: r in issues <==> r in rows && !Saved(r)
  {
    if rows == [] then []
    else
      var last := rows[|rows| - 1];
      Issues(rows[..|rows| - 1]) + (if Saved(last) then [] else [last])
  }

  /** `companies[r.Index]` can be read for every row it is read for. */
  predicate InRange(rows: seq<Row>, n: nat) {
    forall p :: 0 <= p < |rows| && rows[p].unknownMembers != [] ==> 0 <= rows[p].index < n
  }

  ghost predicate HasUnknown(rows: seq<Row>, companies: seq<string>, id: string)
    requires InRange(rows, |companies|)
  {
    exists p :: 0 <= p < |rows| && rows[p].unknownMembers != [] && companies[rows[p].index] == id
  }

  lemma {:induction false} UnknownSnoc(rows: seq<Row>, companies: seq<string>, id: string)
    requires rows != [] && InRange(rows, |companies|)
    ensures var init, last := rows[..|rows| - 1], rows[|rows| - 1];
            HasUnknown(rows, companies, id) <==>
              HasUnknown(init, companies, id) || (last.unknownMembers != [] && companies[last.index] == id)
  {
    var init := rows[..|rows| - 1];
    if HasUnknown(init, companies, id) {
      var p :| 0 <= p < |init| && init[p].unknownMembers != [] && companies[init[p].index] == id;
      assert rows[p] == init[p];
    }
  }

  /** Unknown members by company; of two rows of one company the later one stands. */
  function Unknown(rows: seq<Row>, companies: seq<string>): (m: map<string, seq<string>>)
    requires InRange(rows, |companies|)
    ensures forall id :: id in m <==> HasUnknown(rows, companies, id)
  {
    if rows == [] then map[]
    else
      var last := rows[|rows| - 1];
      var m := Unknown(rows[..|rows| - 1], companies);
      assert forall id :: HasUnknown(rows, companies, id) <==>
                            HasUnknown(rows[..|rows| - 1], companies, id)
                            || (last.unknownMembers != [] && companies[last.index] == id) by {
        forall id {
          UnknownSnoc(rows, companies, id);
        }
      }
      if last.unknownMembers == [] then m else m[companies[last.index] := last.unknownMembers]
  }

  /** Local indices of a company answer lie in its batch: what reading `companies[r.Index]` relies on. */
  ghost predicate LocalIndices(input: seq<string>, limit: nat, replies: nat -> Reply) {
    forall i :: 0 <= i ==> LocalAt(input, limit, replies, i)
  }

  ghost predicate LocalAt(input: seq<string>, limit: nat, replies: nat -> Reply, i: nat) {
    replies(i).Answer? && Start(limit, i) <= |input| ==> InRange(replies(i).part.results, |Batch(input, limit, i)|)
  }

  lemma {:induction false} TotalInRange(input: seq<string>, limit: nat, replies: nat -> Reply, k: nat)
    requires limit >= 1 && LocalIndices(input, limit, replies) && Start(limit, k) < |input| + limit
    requires forall i :: 0 <= i < k ==> replies(i).Answer?
    ensures InRange(Total(replies, limit, k).results, |input|)
  {
    if k > 0 {
      var j := k - 1;
      TotalInRange(input, limit, replies, j);
      assert LocalAt(input, limit, replies, j);
    }
  }

  lemma {:induction false} IssuesSnoc(rows: seq<Row>, r: Row)
    ensures Issues(rows + [r]) == Issues(rows) + (if Saved(r) then [] else [r])
  {
    assert (rows + [r])[..|rows|] == rows;
  }

  lemma {:induction false} UnknownMore(rows: seq<Row>, r: Row, companies: seq<string>)
    ensures InRange(rows + [r], |companies|) <==>
              InRange(rows, |companies|) && (r.unknownMembers != [] ==> 0 <= r.index < |companies|)
    ensures InRange(rows + [r], |companies|) ==>
              Unknown(rows + [r], companies)
              == if r.unknownMembers == [] then Unknown(rows, companies)
                 else Unknown(rows, companies)[companies[r.index] := r.unknownMembers]
  {
    hide HasUnknown;
    var all := rows + [r];
    assert all[..|rows|] == rows && all[|rows|] == r;
    if InRange(all, |companies|) {
      forall p | 0 <= p < |rows| && rows[p].unknownMembers != [] ensures 0 <= rows[p].index < |companies| {
        assert all[p] == rows[p];
      }
    }
  }

  lemma {:induction false} OutOfRangeStays(rows: seq<Row>, i: nat, n: nat)
    requires i < |rows| && rows[i].unknownMembers != [] && !(0 <= rows[i].index < n)
    ensures !InRange(rows, n)
  {
  }

  method CollectIssues(rows: seq<Row>) returns (issues: seq<Row>)
    ensures issues == Issues(rows)
  {
    hide Issues;
    issues := [];
    EmptyIssues(rows[..0]);
    for i := 0 to |rows|
      invariant issues == Issues(rows[..i])
    {
      assert rows[..i + 1] == rows[..i] + [rows[i]];
      IssuesSnoc(rows[..i], rows[i]);
      if rows[i].status != "created" && rows[i].status != "updated" {
        issues := issues + [rows[i]];
      }
    }
    assert rows[..|rows|] == rows;
  }

  /** Reading a company out of range panics. */
  method CollectUnknown(rows: seq<Row>, companies: seq<string>) returns (m: map<string, seq<string>>, panicked: bool)
    ensures panicked <==> !InRange(rows, |companies|)
    ensures !panicked ==> m == Unknown(rows, companies)
  {
    hide InRange, Unknown;
    m := map[];
    NoRows(rows[..0], companies);
    for i := 0 to |rows|
      invariant InRange(rows[..i], |companies|) && m == Unknown(rows[..i], companies)
    {
      assert rows[..i + 1] == rows[..i] + [rows[i]];
      UnknownMore(rows[..i], rows[i], companies);
      if |rows[i].unknownMembers| > 0 {
        if rows[i].index < 0 || rows[i].index >= |companies| {
          OutOfRangeStays(rows, i, |companies|);
          return m, true;
        }
        m := m[companies[rows[i].index] := rows[i].unknownMembers];
      }
    }
    assert rows[..|rows|] == rows;
    panicked := false;
  }

  // ── the report ─────────────────────────────────────────────────────────────

  datatype SyncError = NoError | ContactsFailed | CompaniesFailed | IndexPanic

  /** A sync's return: the report, which a panic does not deliver, and the error. */
  datatype Synced = Synced(rep: Report, err: SyncError)

  function Contacts(contacts: seq<string>, people: nat -> Reply): (c: Call) {
    Upserted(contacts, MAX_CONTACTS, people)
  }

  function Companies(companies: seq<string>, clients: nat -> Reply): (c: Call) {
    Upserted(companies, MAX_COMPANIES, clients)
  }

  const EMPTY_REPORT := Report(NOTHING, NOTHING, [], [], map[])

  /** The report once the people are in. */
  function Half(people: Bulk): Report {
    EMPTY_REPORT.(contacts := TotalsOf(people), contactIssues := Issues(people.results))
  }

  /** And once the clients are. */
  function Full(half: Report, clients: Bulk, companies: seq<string>): Report
    requires InRange(clients.results, |companies|)
  {
    half.(companies := TotalsOf(clients), companyIssues := Issues(clients.results),
          unknownMembers := Unknown(clients.results, companies))
  }

  /** What the sync comes to, from the two bulk calls. */
  function Result(companies: seq<string>, people: Call, clients: Call): Synced {
    if people.failed then Synced(EMPTY_REPORT, ContactsFailed)
    else if clients.failed then Synced(Half(people.total), CompaniesFailed)
    else if !InRange(clients.total.results, |companies|) then Synced(Half(people.total), IndexPanic)
    else Synced(Full(Half(people.total), clients.total, companies), NoError)
  }

  predicate IsEmpty(b: Bulk) {
    b.created == b.updated == b.rejectedA == b.rejectedB == 0 && |b.results| == 0
  }

  lemma {:induction false} NothingToSend(input: seq<string>, limit: nat, replies: nat -> Reply)
    requires limit >= 1 && |input| == 0
    ensures var c := Upserted(input, limit, replies); !c.failed && IsEmpty(c.total)
  {
  }

  lemma {:induction false} EmptyIssues(rows: seq<Row>)
    requires |rows| == 0
    ensures Issues(rows) == []
  {
  }

  lemma {:induction false} NoRows(rows: seq<Row>, companies: seq<string>)
    requires |rows| == 0
    ensures Issues(rows) == [] && InRange(rows, |companies|) && Unknown(rows, companies) == map[]
  {
  }

  /** People first, then clients; a side without rows is not sent at all. */
  method Sync(contacts: seq<string>, companies: seq<string>, people: nat -> Reply, clients: nat -> Reply)
    returns (rep: Report, err: SyncError)
    ensures Synced(rep, err) == Result(companies, Contacts(contacts, people), Companies(companies, clients))
  {
    hide Total, Issues, Unknown, InRange, Upserted, Half, Full, Contacts, Companies, IsEmpty, Flatten, FirstBatches;
    ghost var c, d := Contacts(contacts, people), Companies(companies, clients);
    TwoCalls(contacts, companies, people, clients);
    if IsEmpty(c.total) {
      EmptyHalf(c.total, companies);
    }
    if IsEmpty(d.total) {
      EmptyFull(Half(c.total), d.total, companies);
    }
    HalfOfCompanies(c.total);
    rep, err := EMPTY_REPORT, NoError;
    if |contacts| > 0 {
      var res, failed, _ := BulkUpsert(contacts, MAX_CONTACTS, people);
      if failed {
        return rep, ContactsFailed;
      }
      var issues := CollectIssues(res.results);
      rep := rep.(contacts := Totals(res.created, res.updated, res.rejectedA + res.rejectedB), contactIssues := issues);
      HalfIs(rep, res, issues);
    }
    if |companies| > 0 {
      var res, failed, _ := BulkUpsert(companies, MAX_COMPANIES, clients);
      if failed {
        return rep, CompaniesFailed;
      }
      var issues := CollectIssues(res.results);
      var unknown, panicked := CollectUnknown(res.results, companies);
      if panicked {
        return rep, IndexPanic;
      }
      FullIs(rep, res, companies);
      rep := rep.(companies := Totals(res.created, res.updated, res.rejectedA + res.rejectedB), companyIssues := issues,
                  unknownMembers := unknown);
    }
  }

  lemma {:induction false} EmptyHalf(people: Bulk, companies: seq<string>)
    requires IsEmpty(people)
    ensures Half(people) == EMPTY_REPORT
  {
    hide Issues, Unknown;
    NoRows(people.results, companies);
  }

  lemma {:induction false} EmptyFull(half: Report, clients: Bulk, companies: seq<string>)
    requires IsEmpty(clients)
    ensures InRange(clients.results, |companies|)
    ensures half.companies == NOTHING && |half.companyIssues| == 0 && half.unknownMembers == map[] ==>
              Full(half, clients, companies) == half
  {
    hide Issues, Unknown;
    NoRows(clients.results, companies);
  }

  lemma {:induction false} HalfIs(rep: Report, b: Bulk, issues: seq<Row>)
    requires issues == Issues(b.results)
    ensures rep == EMPTY_REPORT.(contacts := Totals(b.created, b.updated, b.rejectedA + b.rejectedB),
                                 contactIssues := issues)
            ==> rep == Half(b)
  {
    hide Issues;
  }

  lemma {:induction false} HalfOfCompanies(people: Bulk)
    ensures var half := Half(people);
            half.companies == NOTHING && |half.companyIssues| == 0 && half.unknownMembers == map[]
  {
    hide Issues;
  }

  lemma {:induction false} FullIs(half: Report, b: Bulk, companies: seq<string>)
    requires InRange(b.results, |companies|)
    ensures Full(half, b, companies)
            == half.(companies := Totals(b.created, b.updated, b.rejectedA + b.rejectedB),
                companyIssues := Issues(b.results),
                     unknownMembers := Unknown(b.results, companies))
  {
    hide Issues, Unknown, InRange;
  }

  lemma {:induction false} TwoCalls(contacts: seq<string>, companies: seq<string>, people: nat -> Reply,
                                    clients: nat -> Reply)
    ensures Contacts(contacts, people) == Upserted(contacts, 1000, people)
    ensures Companies(companies, clients) == Upserted(companies, 200, clients)
    ensures contacts == [] ==> !Contacts(contacts, people).failed && IsEmpty(Contacts(contacts, people).total)
    ensures companies == [] ==> !Companies(companies, clients).failed && IsEmpty(Companies(companies, clients).total)
    ensures MAX_CONTACTS >= 1 && MAX_COMPANIES >= 1
  {
    hide Start, DoneFrom, Total, Upserted;
    if |contacts| == 0 {
      NothingToSend(contacts, MAX_CONTACTS, people);
    }
    if |companies| == 0 {
      NothingToSend(companies, MAX_COMPANIES, clients);
    }
  }

  /** Issues come in the order of their rows. */
  lemma {:induction false} IssuesInOrder(a: seq<Row>, r: Row, b: seq<Row>)
    ensures Issues(a + [r] + b)
            == Issues(a) + (if r.status == "created" || r.status == "updated" then [] else [r]) + Issues(b)
    decreases |b|
  {
    hide Issues;
    IssuesSnoc(a, r);
    if b == [] {
      assert a + [r] + b == a + [r];
      EmptyIssues(b);
    } else {
      var init, last := b[..|b| - 1], b[|b| - 1];
      assert a + [r] + b == (a + [r] + init) + [last] && b == init + [last];
      IssuesInOrder(a, r, init);
      IssuesSnoc(a + [r] + init, last);
      IssuesSnoc(init, last);
      IssueLast(Issues(a), if Saved(r) then [] else [r], Issues(init), if Saved(last) then [] else [last]);
    }
  }

  lemma {:induction false} IssueLast(a: seq<Row>, b: seq<Row>, c: seq<Row>, d: seq<Row>)
    ensures a + b + (c + d) == (a + b + c) + d
  {
  }

  /**
   What a sync that neither failed nor panicked reports: for each side the counters of its answers, failed
   being both kinds that were not saved, and the rows that were not, and which members of which companies
   were unknown; and what it reports when a side failed: nothing of that side or of one after it.
   */
  lemma {:induction false} WhatIsReported(contacts: seq<string>, companies: seq<string>, people: nat -> Reply,
                                          clients: nat -> Reply)
    ensures var c, d := Contacts(contacts, people).total, Companies(companies, clients).total;
            var r := Result(companies, Contacts(contacts, people), Companies(companies, clients));
            var nothing := Totals(0, 0, 0);
            && (r.err.ContactsFailed? ==> r.rep == Report(nothing, nothing, [], [], map[]))
            && (!r.err.ContactsFailed? ==>
                  && r.rep.contacts == Totals(c.created, c.updated, c.rejectedA + c.rejectedB)
                  && r.rep.contactIssues == Issues(c.results))
            && (r.err.CompaniesFailed? || r.err.IndexPanic? ==>
                  r.rep.companies == nothing && r.rep.companyIssues == [] && r.rep.unknownMembers == map[])
            && (r.err.NoError? ==>
                  && r.rep.companies == Totals(d.created, d.updated, d.rejectedA + d.rejectedB)
                  && r.rep.companyIssues == Issues(d.results)
                  && InRange(d.results, |companies|) && r.rep.unknownMembers == Unknown(d.results, companies))
  {
    hide Upserted, Issues, Unknown, InRange;
  }

  /** The later of two rows of one company names its unknown members. */
  lemma {:induction false} LaterUnknownStands(rows: seq<Row>, r: Row, companies: seq<string>)
    requires InRange(rows, |companies|) && 0 <= r.index < |companies| && r.unknownMembers != []
    ensures InRange(rows + [r], |companies|)
    ensures Unknown(rows + [r], companies) == Unknown(rows, companies)[companies[r.index] := r.unknownMembers]
  {
    UnknownMore(rows, r, companies);
  }

  // ── exactly when it fails, panics or hides saved rows ──────────────────────

  ghost predicate SomeBatchFails(input: seq<string>, limit: nat, replies: nat -> Reply) {
    exists k: nat :: Start(limit, k) < |input| && replies(k).Failed?
  }

  /**
   Exactly when a sync returns an error, and which; and exactly when it panics: when there are
   companies, neither side failed, and their answers name members of one that was not sent.
   */
  lemma {:induction false} WhenSyncFails(contacts: seq<string>, companies: seq<string>, people: nat -> Reply,
                                         clients: nat -> Reply)
    ensures var r := Result(companies, Contacts(contacts, people), Companies(companies, clients));
            && (r.err.ContactsFailed? <==> SomeBatchFails(contacts, MAX_CONTACTS, people))
            && (r.err.CompaniesFailed? <==> !SomeBatchFails(contacts, MAX_CONTACTS, people)
                                            && SomeBatchFails(companies, MAX_COMPANIES, clients))
            && (r.err.IndexPanic? <==> companies != [] && !SomeBatchFails(contacts, MAX_CONTACTS, people)
                                       && !SomeBatchFails(companies, MAX_COMPANIES, clients)
                                       && !InRange(Companies(companies, clients).total.results, |companies|))
  {
    hide Start, Upserted, Issues, Unknown, InRange, DoneFrom, Total;
    WhenUpsertFails(contacts, MAX_CONTACTS, people);
    WhenUpsertFails(companies, MAX_COMPANIES, clients);
    TwoCalls(contacts, companies, people, clients);
    hide Contacts, Companies;
    if companies == [] {
      NoRows(Companies(companies, clients).total.results, companies);
    }
  }

  /** Indices that lie in their own batch never panic. */
  lemma {:induction false} LocalIndicesAreSafe(contacts: seq<string>, companies: seq<string>, people: nat -> Reply,
                                               clients: nat -> Reply)
    requires LocalIndices(companies, MAX_COMPANIES, clients)
    ensures !Result(companies, Contacts(contacts, people), Companies(companies, clients)).err.IndexPanic?
  {
    var c := Companies(companies, clients);
    if !c.failed {
      DoneIsIn(companies, MAX_COMPANIES, clients);
      TotalInRange(companies, MAX_COMPANIES, clients, c.done);
    }
    hide Start, Upserted, Issues, Unknown, InRange;
  }

  lemma {:induction false} DoneIsIn(input: seq<string>, limit: nat, replies: nat -> Reply)
    requires limit >= 1
    ensures Start(limit, Upserted(input, limit, replies).done) < |input| + limit
  {
  }

  ghost predicate HasSaved(rows: seq<Row>) {
    exists p :: 0 <= p < |rows| && Saved(rows[p])
  }

  /** How many rows the server saved in the first k batches. */
  ghost function SavedRows(replies: nat -> Reply, k: nat): nat
    requires forall i :: 0 <= i < k ==> replies(i).Answer?
  {
    if k == 0 then 0 else SavedRows(replies, k - 1) + Count(replies(k - 1).part.results, Saved)
  }

  lemma {:induction false} SavedRowsInTotal(replies: nat -> Reply, limit: nat, k: nat)
    requires forall i :: 0 <= i < k ==> replies(i).Answer?
    ensures Count(Total(replies, limit, k).results, Saved) == SavedRows(replies, k)
    ensures SavedRows(replies, k) > 0 <==> exists i :: 0 <= i < k && HasSaved(replies(i).part.results)
  {
    hide HasSaved, Total, Count, Shifted, Start, Saved;
    if k > 0 {
      SavedRowsInTotal(replies, limit, k - 1);
      TotalStep(replies, limit, k - 1);
      var rows := replies(k - 1).part.results;
      SavedShifted(Total(replies, limit, k - 1).results, rows, Start(limit, k - 1));
      CountSaved(rows);
    } else {
      NothingSaved(replies, limit);
    }
  }

  lemma {:induction false} NothingSaved(replies: nat -> Reply, limit: nat)
    ensures Count(Total(replies, limit, 0).results, Saved) == 0
  {
  }

  lemma {:induction false} SavedShifted(x: seq<Row>, rows: seq<Row>, start: int)
    ensures Count(x + Shifted(rows, start), Saved) == Count(x, Saved) + Count(rows, Saved)
  {
    hide Count, Shifted;
    CountShifted(x, rows, start, Saved);
  }

  lemma {:induction false} CountSaved(rows: seq<Row>)
    ensures Count(rows, Saved) > 0 <==> HasSaved(rows)
  {
    CountZero(rows, Saved);
  }

  /** Every batch the server answers it answers honestly. */
  ghost predicate HonestServer(input: seq<string>, limit: nat, replies: nat -> Reply, a: string, c: string) {
    forall i: nat :: Start(limit, i) < |input| && replies(i).Answer? ==> HonestAt(input, limit, replies, i, a, c)
  }

  /** It saves a row in some batch, and has answered every one up to that. */
  ghost predicate SavesSome(input: seq<string>, limit: nat, replies: nat -> Reply) {
    exists k: nat :: Start(limit, k) < |input| && (forall i :: 0 <= i <= k ==> replies(i).Answer?)
                     && HasSaved(replies(k).part.results)
  }

  lemma {:induction false} SavesSomeIsDone(input: seq<string>, limit: nat, replies: nat -> Reply)
    requires limit >= 1
    ensures var c := Upserted(input, limit, replies);
            SavesSome(input, limit, replies) <==> exists i :: 0 <= i < c.done && HasSaved(replies(i).part.results)
  {
    hide HasSaved, Total, Start;
    var done := Upserted(input, limit, replies).done;
    UpsertedDone(input, limit, replies);
    if SavesSome(input, limit, replies) {
      var k: nat :| Start(limit, k) < |input| && (forall i :: 0 <= i <= k ==> replies(i).Answer?)
                    && HasSaved(replies(k).part.results);
      if done <= k {
        StartMono(limit, done, k);
      }
    }
  }

  /** What one call's report would count, under an honest server. */
  lemma {:induction false} CallCounts(input: seq<string>, limit: nat, replies: nat -> Reply, a: string, c: string)
    requires limit >= 1 && HonestServer(input, limit, replies, a, c)
    requires a != "created" && a != "updated" && c != "created" && c != "updated"
    ensures var call := Upserted(input, limit, replies);
            && call.total.created + call.total.updated == SavedRows(replies, call.done)
            && (SavedRows(replies, call.done) > 0 <==> SavesSome(input, limit, replies))
  {
    hide Total, Start, HasSaved, Tallied, Numbered, HonestAt, DoneFrom;
    var call := Upserted(input, limit, replies);
    UpsertedDone(input, limit, replies);
    TotalIsOneRowEach(input, limit, replies, call.done, a, c);
    SavedAreCounted(call.total, a, c);
    SavedRowsInTotal(replies, limit, call.done);
    SavesSomeIsDone(input, limit, replies);
  }

  lemma {:induction false} UpsertedDone(input: seq<string>, limit: nat, replies: nat -> Reply)
    requires limit >= 1
    ensures var done := Upserted(input, limit, replies).done;
            Start(limit, done) < |input| + limit && forall i :: 0 <= i < done ==> Start(limit, i) < |input|
  {
    hide Start, Total;
  }

  /**
   Exactly when the report leaves out rows an honest server saved: when it failed a later request of
   the same call after it had saved a row in one before. (`a` to `d` are the other two statuses of the
   rows of each call.)
   */
  lemma {:induction false} WhenSavedRowsAreHidden(contacts: seq<string>, companies: seq<string>, people: nat -> Reply,
                                                  clients: nat -> Reply, a: string, b: string, c: string, d: string)
    requires {"created", "updated"} !! {a, b, c, d}
    requires HonestServer(contacts, MAX_CONTACTS, people, a, b) && HonestServer(companies, MAX_COMPANIES, clients, c, d)
    ensures var r := Result(companies, Contacts(contacts, people), Companies(companies, clients));
            && (r.rep.contacts.created + r.rep.contacts.updated != SavedRows(people, Contacts(contacts, people).done)
                <==> SomeBatchFails(contacts, MAX_CONTACTS, people) && SavesSome(contacts, MAX_CONTACTS, people))
            && (!SomeBatchFails(contacts, MAX_CONTACTS, people) && !r.err.IndexPanic? ==>
                  (r.rep.companies.created + r.rep.companies.updated
                   != SavedRows(clients, Companies(companies, clients).done)
                   <==> SomeBatchFails(companies, MAX_COMPANIES, clients)
                        && SavesSome(companies, MAX_COMPANIES, clients)))
  {
    hide Start, Issues, Unknown, InRange, Total, SavedRows, SavesSome, HonestServer, DoneFrom;
    assert a in {a, b, c, d} && b in {a, b, c, d} && c in {a, b, c, d} && d in {a, b, c, d};
    CallCounts(contacts, MAX_CONTACTS, people, a, b);
    CallCounts(companies, MAX_COMPANIES, clients, c, d);
    WhenUpsertFails(contacts, MAX_CONTACTS, people);
    WhenUpsertFails(companies, MAX_COMPANIES, clients);
    hide Upserted;
  }

  lemma {:induction false} SavedAreCounted(b: Bulk, x: string, y: string)
    requires Tallied(b, x, y)
    ensures b.created + b.updated == Count(b.results, Saved)
  {
    CountSplit(b.results, Saved, (r: Row) => r.status == "created", (r: Row) => r.status == "updated");
  }

  // ── an input for each ──────────────────────────────────────────────────────

  function CreatedRows(n: nat): seq<Row> {
    seq(n, i requires 0 <= i < n => Row(i, "created", []))
  }

  lemma {:induction false} AllCounted(rows: seq<Row>, p: Row -> bool, yes: bool)
    requires forall i :: 0 <= i < |rows| ==> p(rows[i]) == yes
    ensures Count(rows, p) == if yes then |rows| else 0
  {
    if rows != [] {
      AllCounted(rows[..|rows| - 1], p, yes);
    }
  }

  lemma {:induction false} HonestRows(n: nat, x: string, y: string)
    requires x != "created" && y != "created"
    ensures Honest(Bulk(n, 0, 0, 0, CreatedRows(n)), n, x, y)
  {
    var rows := CreatedRows(n);
    AllCounted(rows, (r: Row) => r.status == "created", true);
    AllCounted(rows, (r: Row) => r.status == "updated", false);
    AllCounted(rows, (r: Row) => r.status == x, false);
    AllCounted(rows, (r: Row) => r.status == y, false);
    forall g | 0 <= g < n ensures HasIndex(rows, g) {
      assert rows[g].index == g;
    }
  }

  /** Answers the first batch honestly, every row created, and fails the next request. */
  function FailsSecond(limit: nat): nat -> Reply {
    (k: nat) => if k == 0 then Answer(Bulk(limit, 0, 0, 0, CreatedRows(limit))) else Failed
  }

  lemma {:induction false} OneBatchDone(input: seq<string>, limit: nat)
    requires limit >= 1 && limit < |input| <= limit + limit
    ensures var c := Upserted(input, limit, FailsSecond(limit)); c.failed && c.done == 1 && c.total.created == limit
  {
    var replies := FailsSecond(limit);
    assert Start(limit, 0) == 0 && Start(limit, 1) == limit;
    DoneStep(input, limit, replies, 0);
    DoneStep(input, limit, replies, 1);
    TotalStep(replies, limit, 0);
    assert Total(replies, limit, 0) == EMPTY;
  }

  /** With one contact more than a request takes, an honest server that fails the second request has
      saved a thousand people of whom the report says nothing. */
  lemma {:induction false} SavedPeopleHidden(contacts: seq<string>, companies: seq<string>, clients: nat -> Reply)
    requires |contacts| == MAX_CONTACTS + 1
    ensures var people := FailsSecond(MAX_CONTACTS);
            && Honest(people(0).part, MAX_CONTACTS, "conflict", "invalid")
            && Contacts(contacts, people).total.created == MAX_CONTACTS
            && Result(companies, Contacts(contacts, people), Companies(companies, clients))
               == Synced(EMPTY_REPORT, ContactsFailed)
  {
    hide Start, DoneFrom, Total, CreatedRows;
    OneBatchDone(contacts, MAX_CONTACTS);
    HonestRows(MAX_CONTACTS, "conflict", "invalid");
    hide Upserted;
  }

  /** Answers every request with one row, of index 1, that names a member. */
  function NamesNext(): nat -> Reply {
    (k: nat) => Answer(Bulk(1, 0, 0, 0, [Row(1, "created", ["bob"])]))
  }

  /** With one company the sync panics on it. */
  lemma {:induction false} Panics()
    ensures Result(["acme"], Contacts([], (k: nat) => Failed), Companies(["acme"], NamesNext())).err.IndexPanic?
  {
    hide Start, Upserted, Unknown, Issues, Contacts, Companies, IsEmpty, InRange;
    OneAnswer(["acme"], MAX_COMPANIES, NamesNext());
    TwoCalls([], ["acme"], (k: nat) => Failed, NamesNext());
    NextIsOut();
  }

  lemma {:induction false} NextIsOut()
    ensures NamesNext()(0).Answer? && !InRange(NamesNext()(0).part.results, 1)
  {
    assert [Row(1, "created", ["bob"])][0].unknownMembers != [];
  }

  lemma {:induction false} OneAnswer(input: seq<string>, limit: nat, replies: nat -> Reply)
    requires 1 <= |input| <= limit && replies(0).Answer?
    ensures var c := Upserted(input, limit, replies); !c.failed && c.total.results == replies(0).part.results
  {
    assert Start(limit, 0) == 0 && Start(limit, 1) == limit;
    DoneStep(input, limit, replies, 0);
    DoneStep(input, limit, replies, 1);
    TotalStep(replies, limit, 0);
    assert Total(replies, limit, 0) == EMPTY;
    var rows := replies(0).part.results;
    assert Shifted(rows, 0) == rows;
    assert [] + rows == rows;
  }

  lemma {:induction false} IssuesCount(rows: seq<Row>, a: string, c: string)
    requires a != c && a != "created" && a != "updated" && c != "created" && c != "updated"
    requires forall p :: 0 <= p < |rows| ==> Saved(rows[p]) || rows[p].status == a || rows[p].status == c
    ensures |Issues(rows)| == Count(rows, (r: Row) => r.status == a) + Count(rows, (r: Row) => r.status == c)
  {
    if rows != [] {
      IssuesCount(rows[..|rows| - 1], a, c);
    }
  }

  /** Under an honest server the report's failures are exactly the issues it lists. */
  lemma {:induction false} FailedIsIssues(b: Bulk, a: string, c: string)
    requires a != c && a != "created" && a != "updated" && c != "created" && c != "updated"
    requires Tallied(b, a, c)
    ensures TotalsOf(b).failed == |Issues(b.results)|
  {
    IssuesCount(b.results, a, c);
  }
}
