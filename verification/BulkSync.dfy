/**
 The SDK's bulk calls (sdk/go/contacts.go, sdk/go/companies.go). An input row is represented by its
 external id; the server's reply to batch i is the environment's answer `replies(i)`.
 */
module BulkSync {
  import opened Sequences

  const MAX_CONTACTS: nat := 1000
  const MAX_COMPANIES: nat := 200

  datatype Row = Row(index: int, status: string, unknownMembers: seq<string>)

  /** A bulk answer, or the running total of several: rejectedA and rejectedB are conflicts and
      invalid rows for contacts, invalid rows and errors for companies. */
  datatype Bulk = Bulk(created: int, updated: int, rejectedA: int, rejectedB: int, results: seq<Row>)

  datatype Reply = Failed | Answer(part: Bulk)

  const EMPTY := Bulk(0, 0, 0, 0, [])

  function Min(a: int, b: int): int { if a <= b then a else b }

  // ── the loop ───────────────────────────────────────────────────────────────

  /** Where batch k begins. */
  function Start(limit: nat, k: nat): nat {
    if k == 0 then 0 else Start(limit, k - 1) + limit
  }

  function Batch(input: seq<string>, limit: nat, k: nat): seq<string>
    requires Start(limit, k) <= |input|
  {
    input[Start(limit, k)..Min(Start(limit, k) + limit, |input|)]
  }

  ghost predicate IsBatch(input: seq<string>, limit: nat, k: nat, batch: seq<string>) {
    Start(limit, k) <= |input| && batch == Batch(input, limit, k)
  }

  /** The rows of an answer, numbered in the whole input. */
  function Shifted(rows: seq<Row>, start: int): (shifted: seq<Row>)
    ensures |shifted| == |rows|
    ensures forall p :: 0 <= p < |rows| ==> shifted[p] == rows[p].(index := rows[p].index + start)
  {
    seq(|rows|, p requires 0 <= p < |rows| => rows[p].(index := rows[p].index + start))
  }

  function Plus(total: Bulk, part: Bulk, start: int): Bulk {
    Bulk(total.created + part.created, total.updated + part.updated,
         total.rejectedA + part.rejectedA, total.rejectedB + part.rejectedB,
         total.results + Shifted(part.results, start))
  }

  /** What the first k answers add up to. */
  function Total(replies: nat -> Reply, limit: nat, k: nat): Bulk
    requires forall i :: 0 <= i < k ==> replies(i).Answer?
  {
    if k == 0 then EMPTY
    else Plus(Total(replies, limit, k - 1), replies(k - 1).part, Start(limit, k - 1))
  }

  lemma {:induction false} TotalStep(replies: nat -> Reply, limit: nat, k: nat)
    requires forall i :: 0 <= i < k + 1 ==> replies(i).Answer?
    ensures Total(replies, limit, k + 1) == Plus(Total(replies, limit, k), replies(k).part, Start(limit, k))
  {
  }

  ghost predicate Sized(limit: nat, sent: seq<seq<string>>) {
    forall b :: b in sent ==> 1 <= |b| <= limit
  }

  ghost predicate InPlace(input: seq<string>, limit: nat, sent: seq<seq<string>>) {
    forall i :: 0 <= i < |sent| ==> IsBatch(input, limit, i, sent[i])
  }

  /** The first batches of `input`, in order, each of 1 to `limit` rows, with nothing skipped. */
  ghost predicate FirstBatches(input: seq<string>, limit: nat, sent: seq<seq<string>>) {
    && Sized(limit, sent)
    && InPlace(input, limit, sent)
    && Flatten(sent) == input[..Min(Start(limit, |sent|), |input|)]
  }

  lemma {:induction false} NextBatch(input: seq<string>, limit: nat, sent: seq<seq<string>>)
    requires limit >= 1 && FirstBatches(input, limit, sent) && Start(limit, |sent|) < |input|
    ensures FirstBatches(input, limit, sent + [Batch(input, limit, |sent|)])
  {
    var batch := Batch(input, limit, |sent|);
    assert IsBatch(input, limit, |sent|, batch);
    NextSlice(input, limit, sent);
    SizedSnoc(limit, sent, batch);
    InPlaceSnoc(input, limit, sent, batch);
    hide IsBatch, Flatten, Start, Min, Batch, Sized, InPlace;
  }

  lemma {:induction false} SizedSnoc(limit: nat, sent: seq<seq<string>>, batch: seq<string>)
    requires Sized(limit, sent) && 1 <= |batch| <= limit
    ensures Sized(limit, sent + [batch])
  {
  }

  lemma {:induction false} InPlaceSnoc(input: seq<string>, limit: nat, sent: seq<seq<string>>, batch: seq<string>)
    requires InPlace(input, limit, sent) && IsBatch(input, limit, |sent|, batch)
    ensures InPlace(input, limit, sent + [batch])
  {
    hide IsBatch;
  }

  lemma {:induction false} NextSlice(input: seq<string>, limit: nat, sent: seq<seq<string>>)
    requires limit >= 1 && Start(limit, |sent|) < |input|
    requires Flatten(sent) == input[..Min(Start(limit, |sent|), |input|)]
    ensures Flatten(sent + [Batch(input, limit, |sent|)]) == input[..Min(Start(limit, |sent| + 1), |input|)]
    ensures 1 <= |Batch(input, limit, |sent|)| <= limit
  {
    hide Flatten, Start;
    StartStep(limit, |sent|);
    FlattenSnoc(sent, Batch(input, limit, |sent|));
    Adjoin(input, Start(limit, |sent|), Min(Start(limit, |sent|) + limit, |input|));
  }

  lemma {:induction false} StartStep(limit: nat, k: nat)
    ensures Start(limit, k + 1) == Start(limit, k) + limit
  {
  }

  lemma {:induction false} Adjoin(input: seq<string>, mid: nat, end: nat)
    requires mid <= end <= |input|
    ensures input[..mid] + input[mid..end] == input[..end]
  {
  }

  /** How many batches are answered, from batch k on, before one fails or none is left. */
  function DoneFrom(input: seq<string>, limit: nat, replies: nat -> Reply, k: nat): (done: nat)
    requires limit >= 1 && Start(limit, k) < |input| + limit
    ensures k <= done && Start(limit, done) < |input| + limit
    ensures forall i :: k <= i < done ==> replies(i).Answer? && Start(limit, i) < |input|
    ensures Start(limit, done) >= |input| || replies(done).Failed?
    decreases |input| + limit - Start(limit, k)
  {
    if Start(limit, k) >= |input| || replies(k).Failed? then k else DoneFrom(input, limit, replies, k + 1)
  }

  /** What a bulk call returns: the completed prefix, and whether a request after it failed. */
  datatype Call = Call(total: Bulk, failed: bool, done: nat)

  function Upserted(input: seq<string>, limit: nat, replies: nat -> Reply): (c: Call)
    requires limit >= 1
    ensures forall i :: 0 <= i < c.done ==> replies(i).Answer?
    ensures c.total == Total(replies, limit, c.done)
    ensures c.failed <==> Start(limit, c.done) < |input|
  {
    var done := DoneFrom(input, limit, replies, 0);
    Call(Total(replies, limit, done), Start(limit, done) < |input|, done)
  }

  /** A bulk call fails if and only if the reply to some batch it needs is a failure. */
  lemma {:induction false} WhenUpsertFails(input: seq<string>, limit: nat, replies: nat -> Reply)
    requires limit >= 1
    ensures Upserted(input, limit, replies).failed <==> exists k: nat :: Start(limit, k) < |input| && replies(k).Failed?
  {
    var done := Upserted(input, limit, replies).done;
    if exists k: nat :: Start(limit, k) < |input| && replies(k).Failed? {
      var k: nat :| Start(limit, k) < |input| && replies(k).Failed?;
      if done < k {
        StartMono(limit, done, k);
      }
    }
  }

  lemma {:induction false} StartMono(limit: nat, j: nat, k: nat)
    requires j <= k
    ensures Start(limit, j) <= Start(limit, k)
  {
    if j < k {
      StartMono(limit, j, k - 1);
    }
  }

  /** `BulkUpsertContacts` and `BulkUpsertCompanies`, which differ in `limit` only. */
  method BulkUpsert(input: seq<string>, limit: nat, replies: nat -> Reply)
    returns (total: Bulk, failed: bool, sent: seq<seq<string>>)
    requires limit >= 1
    ensures var c := Upserted(input, limit, replies);
            && total == c.total && failed == c.failed && |sent| == c.done + (if failed then 1 else 0)
    ensures FirstBatches(input, limit, sent)
    ensures !failed ==> Flatten(sent) == input
  {
    hide FirstBatches, Total, Plus, DoneFrom, Flatten;
    total, failed, sent := EMPTY, false, [];
    var start := 0;
    ghost var done := 0;
    NothingSent(input, limit, replies);
    while start < |input|
      invariant start == Start(limit, done) < |input| + limit
      invariant |sent| == done && FirstBatches(input, limit, sent)
      invariant forall i :: 0 <= i < done ==> replies(i).Answer?
      invariant total == Total(replies, limit, done)
      invariant DoneFrom(input, limit, replies, 0) == DoneFrom(input, limit, replies, done)
      decreases |input| - start
    {
      var end := Min(start + limit, |input|);
      NextBatch(input, limit, sent);
      DoneStep(input, limit, replies, done);
      var reply := replies(|sent|);
      sent := sent + [input[start..end]];
      if reply.Failed? {
        failed := true;
        return;
      }
      TotalStep(replies, limit, done);
      total := Plus(total, reply.part, start);
      done := done + 1;
      start := start + limit;
    }
    DoneStep(input, limit, replies, done);
    AllSent(input, limit, sent);
  }

  lemma {:induction false} DoneStep(input: seq<string>, limit: nat, replies: nat -> Reply, k: nat)
    requires limit >= 1 && Start(limit, k) < |input| + limit
    ensures Start(limit, k) < |input| && replies(k).Answer? ==>
              Start(limit, k + 1) < |input| + limit
              && DoneFrom(input, limit, replies, k) == DoneFrom(input, limit, replies, k + 1)
    ensures Start(limit, k) >= |input| || replies(k).Failed? ==> DoneFrom(input, limit, replies, k) == k
  {
  }

  lemma {:induction false} NothingSent(input: seq<string>, limit: nat, replies: nat -> Reply)
    ensures FirstBatches(input, limit, []) && Total(replies, limit, 0) == EMPTY
  {
  }

  lemma {:induction false} AllSent(input: seq<string>, limit: nat, sent: seq<seq<string>>)
    requires FirstBatches(input, limit, sent) && Start(limit, |sent|) >= |input|
    ensures Flatten(sent) == input
  {
  }

  // ── what a well-behaved server makes of it ─────────────────────────────────

  /** One row for every index of lo..hi, in any order. */
  ghost predicate Numbered(rows: seq<Row>, lo: int, hi: int) {
    && |rows| == hi - lo
    && (forall p :: 0 <= p < |rows| ==> lo <= rows[p].index < hi)
    && (forall p, q :: 0 <= p < q < |rows| ==> rows[p].index != rows[q].index)
    && (forall g :: lo <= g < hi ==> HasIndex(rows, g))
  }

  ghost predicate HasIndex(rows: seq<Row>, g: int) {
    exists p :: 0 <= p < |rows| && rows[p].index == g
  }

  predicate Saved(r: Row) { r.status == "created" || r.status == "updated" }

  /** The counters are the numbers of rows with those statuses, and there is no other status. */
  ghost predicate Tallied(b: Bulk, a: string, c: string) {
    && b.created == Count(b.results, (r: Row) => r.status == "created")
    && b.updated == Count(b.results, (r: Row) => r.status == "updated")
    && b.rejectedA == Count(b.results, (r: Row) => r.status == a)
    && b.rejectedB == Count(b.results, (r: Row) => r.status == c)
    && (forall p :: 0 <= p < |b.results| ==>
        Saved(b.results[p]) || b.results[p].status == a || b.results[p].status == c)
  }

  ghost predicate Honest(part: Bulk, n: nat, a: string, c: string) {
    Numbered(part.results, 0, n) && Tallied(part, a, c)
  }

  /** The server answered batch i, honestly. */
  ghost predicate HonestAt(input: seq<string>, limit: nat, replies: nat -> Reply, i: nat, a: string, c: string) {
    replies(i).Answer? && Start(limit, i) <= |input| && Honest(replies(i).part, |Batch(input, limit, i)|, a, c)
  }

  lemma {:induction false} NumberedAppend(x: seq<Row>, y: seq<Row>, lo: int, mid: int, hi: int)
    requires Numbered(x, lo, mid) && Numbered(y, mid, hi)
    ensures Numbered(x + y, lo, hi)
  {
    forall g | lo <= g < hi ensures HasIndex(x + y, g) {
      if g < mid {
        assert HasIndex(x, g);
        var p :| 0 <= p < |x| && x[p].index == g;
        assert (x + y)[p].index == g;
      } else {
        assert HasIndex(y, g);
        var p :| 0 <= p < |y| && y[p].index == g;
        assert (x + y)[|x| + p].index == g;
      }
    }
  }

  lemma {:induction false} NumberedShifted(rows: seq<Row>, n: nat, start: int)
    requires Numbered(rows, 0, n)
    ensures Numbered(Shifted(rows, start), start, start + n)
  {
    var s := Shifted(rows, start);
    forall g | start <= g < start + n ensures HasIndex(s, g) {
      assert HasIndex(rows, g - start);
      var p :| 0 <= p < |rows| && rows[p].index == g - start;
      assert s[p].index == g;
    }
  }

  /** Renumbering rows changes no count of their statuses. */
  lemma {:induction false} CountShifted(x: seq<Row>, rows: seq<Row>, start: int, p: Row -> bool)
    requires forall r: Row, i :: p(r.(index := i)) == p(r)
    ensures Count(x + Shifted(rows, start), p) == Count(x, p) + Count(rows, p)
    decreases |rows|
  {
    hide Shifted;
    if rows == [] {
      assert x + Shifted(rows, start) == x;
    } else {
      var n := |rows| - 1;
      var before, last := Shifted(rows[..n], start), rows[n].(index := rows[n].index + start);
      ShiftedSnoc(rows, start);
      assert x + (before + [last]) == (x + before) + [last];
      CountShifted(x, rows[..n], start, p);
      CountSnoc(x + before, last, p);
    }
  }

  lemma {:induction false} ShiftedSnoc(rows: seq<Row>, start: int)
    requires rows != []
    ensures var n := |rows| - 1;
            Shifted(rows, start) == Shifted(rows[..n], start) + [rows[n].(index := rows[n].index + start)]
  {
  }

  lemma {:induction false} TalliedPlus(total: Bulk, part: Bulk, start: int, a: string, c: string)
    requires Tallied(total, a, c) && Tallied(part, a, c)
    ensures Tallied(Plus(total, part, start), a, c)
  {
    CountShifted(total.results, part.results, start, (r: Row) => r.status == "created");
    CountShifted(total.results, part.results, start, (r: Row) => r.status == "updated");
    CountShifted(total.results, part.results, start, (r: Row) => r.status == a);
    CountShifted(total.results, part.results, start, (r: Row) => r.status == c);
  }

  /**
   When the server answers one row per input row, numbered within its batch, with matching counts,
   the total of the completed batches has exactly one row for every input row it covers, under its
   index in the whole input, and its counters are the numbers of rows with each status.
   */
  lemma {:induction false} TotalIsOneRowEach(input: seq<string>, limit: nat, replies: nat -> Reply, k: nat, a: string,
                                             c: string)
    requires limit >= 1 && Start(limit, k) < |input| + limit
    requires forall i :: 0 <= i < k ==> HonestAt(input, limit, replies, i, a, c)
    ensures forall i :: 0 <= i < k ==> replies(i).Answer?
    ensures Numbered(Total(replies, limit, k).results, 0, Min(Start(limit, k), |input|))
    ensures Tallied(Total(replies, limit, k), a, c)
  {
    hide Tallied, Numbered, Shifted, Total, Batch;
    if k > 0 {
      var j := k - 1;
      TotalIsOneRowEach(input, limit, replies, j, a, c);
      assert HonestAt(input, limit, replies, j, a, c);
      OneMoreAnswer(input, limit, Total(replies, limit, j), replies(j).part, j, a, c);
      TotalStep(replies, limit, j);
    } else {
      NothingNumbered(replies, limit, a, c);
    }
  }

  lemma {:induction false} NothingNumbered(replies: nat -> Reply, limit: nat, a: string, c: string)
    ensures Total(replies, limit, 0) == EMPTY && Numbered([], 0, 0) && Tallied(EMPTY, a, c)
  {
  }

  lemma {:induction false} OneMoreAnswer(input: seq<string>, limit: nat, before: Bulk, part: Bulk, j: nat, a: string,
                                         c: string)
    requires Start(limit, j) <= |input| && Honest(part, |Batch(input, limit, j)|, a, c)
    requires Numbered(before.results, 0, Start(limit, j)) && Tallied(before, a, c)
    ensures Numbered(Plus(before, part, Start(limit, j)).results, 0, Min(Start(limit, j) + limit, |input|))
    ensures Tallied(Plus(before, part, Start(limit, j)), a, c)
  {
    hide Tallied, Numbered, Shifted;
    var start, n := Start(limit, j), |Batch(input, limit, j)|;
    NumberedShifted(part.results, n, start);
    NumberedAppend(before.results, Shifted(part.results, start), 0, start, start + n);
    TalliedPlus(before, part, start, a, c);
  }
}
