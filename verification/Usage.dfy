/** The gateway's usage counters. Counts are mathematical integers; times are integers,
    with 0 for Go's zero time. */
module Usage {
  import opened Text
  import opened Sums

  datatype Detail = Detail(input: int, output: int, reasoning: int, cached: int, cacheRead: int, cacheCreation: int,
    total: int)

  datatype Record = Record(provider: string, model: string, alias: string, requestedAt: int, failed: bool,
    detail: Detail)

  /** A record that counts: the model it is booked under and when it was used. */
  datatype Entry = Entry(model: string, at: int, failed: bool, detail: Detail)

  function FirstNonEmpty(a: string, b: string): string { if TrimSpace(a) != "" then TrimSpace(a) else TrimSpace(b) }

  predicate Accepted(r: Record) {
    EqualFold(TrimSpace(r.provider), "cursor") && TrimSpace(FirstNonEmpty(r.model, r.alias)) != ""
  }

  function EntryOf(r: Record, now: int): Entry {
    Entry(TrimSpace(FirstNonEmpty(r.model, r.alias)), if r.requestedAt == 0
        then now else r.requestedAt, r.failed, r.detail)
  }

  /** normalizedTotalTokens */
  function NormalizedTotal(d: Detail): int {
    if d.total > 0 then d.total
    else
      var sum := d.input + d.output + d.reasoning;
      if sum > 0 then sum else d.cacheRead + d.cacheCreation + d.cached
  }

  // ---------------------------------------------------------------- counters

  datatype Tally = Tally(requests: int, failures: int, input: int, output: int, reasoning: int,
                         cached: int, cacheRead: int, cacheCreation: int, total: int)

  const ZERO: Tally := Tally(0, 0, 0, 0, 0, 0, 0, 0, 0)

  function Plus(a: Tally, b: Tally): Tally {
    Tally(a.requests + b.requests, a.failures + b.failures, a.input + b.input, a.output + b.output,
          a.reasoning + b.reasoning, a.cached + b.cached, a.cacheRead + b.cacheRead,
          a.cacheCreation + b.cacheCreation, a.total + b.total)
  }

  function One(e: Entry): Tally {
    var d := e.detail;
    Tally(1, if e.failed then 1 else 0, d.input, d.output, d.reasoning, d.cached, d.cacheRead, d.cacheCreation,
          NormalizedTotal(d))
  }

  // The nine quantities a tally holds, one by one.
  function Requests(e: Entry): int { One(e).requests }
  function Failures(e: Entry): int { One(e).failures }
  function Input(e: Entry): int { One(e).input }
  function Output(e: Entry): int { One(e).output }
  function Reasoning(e: Entry): int { One(e).reasoning }
  function Cached(e: Entry): int { One(e).cached }
  function CacheRead(e: Entry): int { One(e).cacheRead }
  function CacheCreation(e: Entry): int { One(e).cacheCreation }
  function Total(e: Entry): int { One(e).total }

  /** All nine sums. */
  function Sum(es: seq<Entry>): Tally {
    Tally(SumBy(Requests, es), SumBy(Failures, es), SumBy(Input, es), SumBy(Output, es), SumBy(Reasoning, es),
          SumBy(Cached, es), SumBy(CacheRead, es), SumBy(CacheCreation, es), SumBy(Total, es))
  }

  datatype Row = Row(tally: Tally, last: int)

  datatype Ledger = Ledger(started: int, rows: map<string, Row>)

  /** RecordUsage, for an accepted record. */
  function Book(l: Ledger, e: Entry): Ledger {
    var started := if l.started == 0 || e.at < l.started then e.at else l.started;
    Ledger(started, l.rows[e.model := BookRow(l.rows, e)])
  }

  function BookRow(rows: map<string, Row>, e: Entry): Row {
    var row := if e.model in rows then rows[e.model] else Row(ZERO, 0);
    var last := if row.last == 0 || e.at > row.last then e.at else row.last;
    Row(Plus(row.tally, One(e)), last)
  }

  function BookAll(es: seq<Entry>): Ledger {
    if es == [] then Ledger(0, map[]) else Book(BookAll(es[..|es| - 1]), es[|es| - 1])
  }

  // ---------------------------------------------------------------- what the ledger says

  ghost predicate Timed(es: seq<Entry>) { forall e :: e in es ==> e.at != 0 }

  function ByModel(m: string): Entry -> bool { (e: Entry) => e.model == m }

  /** The entries booked under one model. */
  function Only(es: seq<Entry>, m: string): seq<Entry> { Select(ByModel(m), es) }

  ghost predicate IsEarliest(es: seq<Entry>, t: int) {
    (exists e :: e in es && e.at == t) && forall e :: e in es ==> t <= e.at
  }

  ghost predicate IsLatest(es: seq<Entry>, t: int) {
    (exists e :: e in es && e.at == t) && forall e :: e in es ==> e.at <= t
  }

  ghost predicate Uses(es: seq<Entry>, m: string) { exists e :: e in es && e.model == m }

  /** A row holds the sums over its model's entries and the latest of them. */
  ghost predicate RowMeans(es: seq<Entry>, m: string, row: Row) {
    row.tally == Sum(Only(es, m)) && IsLatest(Only(es, m), row.last) && row.last != 0
  }

  ghost predicate RowsMean(es: seq<Entry>, rows: map<string, Row>) {
    && (forall m :: m in rows <==> Uses(es, m))
    && (forall m :: m in rows ==> RowMeans(es, m, rows[m]))
  }

  ghost predicate StartMeans(es: seq<Entry>, started: int) {
    if es == [] then started == 0 else IsEarliest(es, started) && started != 0
  }

  lemma LatestSnoc(es: seq<Entry>, e: Entry, t: int)
    requires IsLatest(es, t)
    ensures IsLatest(es + [e], if e.at > t then e.at else t)
  {
    var x :| x in es && x.at == t;
    assert x in es + [e] && e in es + [e];
  }

  lemma StartSnoc(es: seq<Entry>, e: Entry, t: int)
    requires StartMeans(es, t) && e.at != 0
    ensures StartMeans(es + [e], if t == 0 || e.at < t then e.at else t)
  {
    assert e in es + [e];
    if es != [] {
      var x :| x in es && x.at == t;
      assert x in es + [e];
    }
  }

  lemma SumSnoc(es: seq<Entry>, e: Entry)
    ensures Sum(es + [e]) == Plus(Sum(es), One(e))
  {
    SumBySnoc(Requests, es, e);
    SumBySnoc(Failures, es, e);
    SumBySnoc(Input, es, e);
    SumBySnoc(Output, es, e);
    SumBySnoc(Reasoning, es, e);
    SumBySnoc(Cached, es, e);
    SumBySnoc(CacheRead, es, e);
    SumBySnoc(CacheCreation, es, e);
    SumBySnoc(Total, es, e);
  }

  lemma UsesSnoc(es: seq<Entry>, e: Entry, m: string)
    ensures Uses(es + [e], m) <==> Uses(es, m) || e.model == m
  {
    if Uses(es, m) { var x :| x in es && x.model == m; assert x in es + [e]; }
    if e.model == m { assert e in es + [e]; }
  }

  lemma UnusedIsEmpty(es: seq<Entry>, m: string)
    requires !Uses(es, m)
    ensures Only(es, m) == []
  {
    SelectNone(ByModel(m), es);
  }

  /** The row an entry is booked in. */
  lemma BookedRow(es: seq<Entry>, e: Entry, rows: map<string, Row>)
    requires RowsMean(es, rows) && e.at != 0
    ensures RowMeans(es + [e], e.model, BookRow(rows, e))
  {
    SelectSnoc(ByModel(e.model), es, e);
    SumSnoc(Only(es, e.model), e);
    if e.model in rows {
      LatestSnoc(Only(es, e.model), e, rows[e.model].last);
    } else {
      UnusedIsEmpty(es, e.model);
      LatestOfOne(e);
    }
  }

  lemma LatestOfOne(e: Entry)
    ensures IsLatest([] + [e], e.at) && Sum([]) == ZERO
  {
    assert e in [] + [e];
  }

  lemma BookMeans(es: seq<Entry>, e: Entry, rows: map<string, Row>)
    requires RowsMean(es, rows) && e.at != 0
    ensures RowsMean(es + [e], rows[e.model := BookRow(rows, e)])
  {
    var rows' := rows[e.model := BookRow(rows, e)];
    forall m ensures m in rows' <==> Uses(es + [e], m) { UsesSnoc(es, e, m); }
    BookedRow(es, e, rows);
    forall m | m in rows' && m != e.model ensures RowMeans(es + [e], m, rows'[m]) {
      SelectSnoc(ByModel(m), es, e);
    }
  }

  /** For every sequence of records: a row per model that was used, holding the sums over
      its records and its latest use; and the earliest use of all. */
  lemma {:induction false} BookAllMeans(es: seq<Entry>)
    requires Timed(es)
    ensures RowsMean(es, BookAll(es).rows) && StartMeans(es, BookAll(es).started)
  {
    if es != [] {
      var front, e := es[..|es| - 1], es[|es| - 1];
      assert es == front + [e];
      BookAllMeans(front);
      BookMeans(front, e, BookAll(front).rows);
      StartSnoc(front, e, BookAll(front).started);
    }
  }

  // ---------------------------------------------------------------- order does not matter

  lemma SumPermutes(a: seq<Entry>, b: seq<Entry>)
    requires multiset(a) == multiset(b)
    ensures Sum(a) == Sum(b)
  {
    SumByPermutes(Requests, a, b);
    SumByPermutes(Failures, a, b);
    SumByPermutes(Input, a, b);
    SumByPermutes(Output, a, b);
    SumByPermutes(Reasoning, a, b);
    SumByPermutes(Cached, a, b);
    SumByPermutes(CacheRead, a, b);
    SumByPermutes(CacheCreation, a, b);
    SumByPermutes(Total, a, b);
  }

  lemma LatestIsUnique(a: seq<Entry>, b: seq<Entry>, t: int, u: int)
    requires multiset(a) == multiset(b) && IsLatest(a, t) && IsLatest(b, u)
    ensures t == u
  {
    SameMembers(a, b);
    var x :| x in a && x.at == t;
    var y :| y in b && y.at == u;
    assert x in b && y in a;
  }

  lemma StartIsUnique(a: seq<Entry>, b: seq<Entry>, t: int, u: int)
    requires multiset(a) == multiset(b) && StartMeans(a, t) && StartMeans(b, u)
    ensures t == u
  {
    SameMembers(a, b);
    assert a == [] <==> b == [] by { assert |multiset(a)| == |multiset(b)|; }
    if a != [] {
      var x :| x in a && x.at == t;
      assert x in b;
      var y :| y in b && y.at == u;
      assert y in a;
    }
  }

  lemma SameRow(a: seq<Entry>, b: seq<Entry>, m: string, ra: Row, rb: Row)
    requires multiset(a) == multiset(b) && RowMeans(a, m, ra) && RowMeans(b, m, rb)
    ensures ra == rb
  {
    SelectPermutes(ByModel(m), a, b);
    SumPermutes(Only(a, m), Only(b, m));
    LatestIsUnique(Only(a, m), Only(b, m), ra.last, rb.last);
  }

  lemma SameUses(a: seq<Entry>, b: seq<Entry>, m: string)
    requires multiset(a) == multiset(b)
    ensures Uses(a, m) <==> Uses(b, m)
  {
    SameMembers(a, b);
    if Uses(a, m) { var x :| x in a && x.model == m; assert x in b; }
    if Uses(b, m) { var x :| x in b && x.model == m; assert x in a; }
  }

  lemma SameRows(a: seq<Entry>, b: seq<Entry>, ra: map<string, Row>, rb: map<string, Row>)
    requires multiset(a) == multiset(b) && RowsMean(a, ra) && RowsMean(b, rb)
    ensures ra == rb
  {
    forall m ensures SameEntry(ra, rb, m) { SameRowAt(a, b, ra, rb, m); }
    SameMaps(ra, rb);
  }

  ghost predicate SameEntry(ra: map<string, Row>, rb: map<string, Row>, m: string) {
    (m in ra <==> m in rb) && (m in ra && m in rb ==> ra[m] == rb[m])
  }

  lemma SameRowAt(a: seq<Entry>, b: seq<Entry>, ra: map<string, Row>, rb: map<string, Row>, m: string)
    requires multiset(a) == multiset(b) && RowsMean(a, ra) && RowsMean(b, rb)
    ensures SameEntry(ra, rb, m)
  {
    SameUses(a, b, m);
    if m in ra && m in rb { SameRow(a, b, m, ra[m], rb[m]); }
  }

  lemma SameMaps(ra: map<string, Row>, rb: map<string, Row>)
    requires forall m :: SameEntry(ra, rb, m)
    ensures ra == rb
  {
    forall m ensures m in ra <==> m in rb { assert SameEntry(ra, rb, m); }
    forall m | m in ra ensures ra[m] == rb[m] { assert SameEntry(ra, rb, m); }
  }

  /** Recording the same records in another order gives the same ledger. */
  lemma OrderDoesNotMatter(a: seq<Entry>, b: seq<Entry>)
    requires Timed(a) && multiset(a) == multiset(b)
    ensures BookAll(a) == BookAll(b)
  {
    SameMembers(a, b);
    BookAllMeans(a);
    BookAllMeans(b);
    SameRows(a, b, BookAll(a).rows, BookAll(b).rows);
    StartIsUnique(a, b, BookAll(a).started, BookAll(b).started);
  }

  lemma {:induction false} FailuresWithinRequests(es: seq<Entry>)
    ensures 0 <= SumBy(Failures, es) <= SumBy(Requests, es) == |es|
  {
    if es != [] { FailuresWithinRequests(es[..|es| - 1]); }
  }

  // ---------------------------------------------------------------- in terms of the records' own fields

  /** A total given with the record counts as it is; without one, input, output and reasoning
      do; and the cache's tokens only when those are nothing. */
  lemma TotalByCases(d: Detail)
    ensures d.total > 0 ==> NormalizedTotal(d) == d.total
    ensures d.total <= 0 && d.input + d.output + d.reasoning > 0 ==>
              NormalizedTotal(d) == d.input + d.output + d.reasoning
    ensures d.total <= 0 && d.input + d.output + d.reasoning <= 0 ==>
              NormalizedTotal(d) == d.cacheRead + d.cacheCreation + d.cached
  {}

  /** The tally adds up the records, field by field. */
  ghost predicate AddsUp(t: Tally, es: seq<Entry>) {
    && t.requests == |es|
    && t.failures == |Select((e: Entry) => e.failed, es)|
    && t.input == SumBy((e: Entry) => e.detail.input, es)
    && t.output == SumBy((e: Entry) => e.detail.output, es)
    && t.reasoning == SumBy((e: Entry) => e.detail.reasoning, es)
    && t.cached == SumBy((e: Entry) => e.detail.cached, es)
    && t.cacheRead == SumBy((e: Entry) => e.detail.cacheRead, es)
    && t.cacheCreation == SumBy((e: Entry) => e.detail.cacheCreation, es)
    && t.total == SumBy((e: Entry) => NormalizedTotal(e.detail), es)
  }

  lemma {:induction false} FailuresCounted(es: seq<Entry>)
    ensures SumBy(Failures, es) == |Select((e: Entry) => e.failed, es)|
  {
    if es != [] { FailuresCounted(es[..|es| - 1]); }
  }

  lemma SumAddsUp(es: seq<Entry>)
    ensures AddsUp(Sum(es), es)
  {
    FailuresWithinRequests(es);
    FailuresCounted(es);
    SumAlike(Input, (e: Entry) => e.detail.input, es);
    SumAlike(Output, (e: Entry) => e.detail.output, es);
    SumAlike(Reasoning, (e: Entry) => e.detail.reasoning, es);
    SumAlike(Cached, (e: Entry) => e.detail.cached, es);
    SumAlike(CacheRead, (e: Entry) => e.detail.cacheRead, es);
    SumAlike(CacheCreation, (e: Entry) => e.detail.cacheCreation, es);
    SumAlike(Total, (e: Entry) => NormalizedTotal(e.detail), es);
  }

  lemma {:induction false} SumAlike(f: Entry -> int, g: Entry -> int, es: seq<Entry>)
    requires forall e :: f(e) == g(e)
    ensures SumBy(f, es) == SumBy(g, es)
  {
    if es != [] { SumAlike(f, g, es[..|es| - 1]); }
  }

  /** Which records count, and as what: those of the provider that name a model or an alias,
      under the first of these that is not blank, at their own time or else the clock's. */
  lemma EntryExactly(r: Record, now: int)
    ensures Accepted(r) <==>
            EqualFold(TrimSpace(r.provider), "cursor") && (TrimSpace(r.model) != "" || TrimSpace(r.alias) != "")
    ensures var e := EntryOf(r, now);
            && e.model == (if TrimSpace(r.model) != "" then TrimSpace(r.model) else TrimSpace(r.alias))
            && e.at == (if r.requestedAt != 0 then r.requestedAt else now)
            && e.failed == r.failed && e.detail == r.detail
  {
    TrimSpaceTrims(r.model);
    TrimSpaceTrims(TrimSpace(r.model));
    TrimSpaceTrims(r.alias);
    TrimSpaceTrims(TrimSpace(r.alias));
  }

  // ---------------------------------------------------------------- the snapshot

  datatype ModelRow = ModelRow(model: string, row: Row)

  function InModels(ms: set<string>): Entry -> bool { (e: Entry) => e.model in ms }

  /** The entries booked under one of several models. */
  function Among(es: seq<Entry>, ms: set<string>): seq<Entry> { Select(InModels(ms), es) }

  lemma AmongMoreBy(f: Entry -> int, es: seq<Entry>, ms: set<string>, m: string)
    requires m !in ms
    ensures SumBy(f, Among(es, ms + {m})) == SumBy(f, Among(es, ms)) + SumBy(f, Only(es, m))
  {
    SumBySplit(f, InModels(ms), ByModel(m), InModels(ms + {m}), es);
  }

  lemma AmongMore(es: seq<Entry>, ms: set<string>, m: string)
    requires m !in ms
    ensures Sum(Among(es, ms + {m})) == Plus(Sum(Among(es, ms)), Sum(Only(es, m)))
  {
    AmongMoreBy(Requests, es, ms, m);
    AmongMoreBy(Failures, es, ms, m);
    AmongMoreBy(Input, es, ms, m);
    AmongMoreBy(Output, es, ms, m);
    AmongMoreBy(Reasoning, es, ms, m);
    AmongMoreBy(Cached, es, ms, m);
    AmongMoreBy(CacheRead, es, ms, m);
    AmongMoreBy(CacheCreation, es, ms, m);
    AmongMoreBy(Total, es, ms, m);
  }

  /** Most recently used first, then by folded name. */
  predicate Before(a: ModelRow, b: ModelRow) {
    a.row.last > b.row.last || (a.row.last == b.row.last && Less(Lower(a.model), Lower(b.model)))
  }

  ghost predicate InOrder(rows: seq<ModelRow>) { forall i, j :: 0 <= i < j < |rows| ==> !Before(rows[j], rows[i]) }

  function InsertRow(r: ModelRow, rows: seq<ModelRow>): seq<ModelRow> {
    if rows == [] then [r] else if Before(r, rows[0]) then [r] + rows else [rows[0]] + InsertRow(r, rows[1..])
  }

  lemma NotBeforeTrans(a: ModelRow, b: ModelRow, c: ModelRow)
    requires Before(a, b) && !Before(c, b)
    ensures !Before(c, a)
  {
    LessTotal(Lower(a.model), Lower(b.model));
    LessTotal(Lower(b.model), Lower(c.model));
    if Less(Lower(a.model), Lower(b.model)) && Less(Lower(c.model), Lower(a.model)) {
      LessTrans(Lower(c.model), Lower(a.model), Lower(b.model));
    }
  }

  lemma {:induction false} InsertRowKeeps(r: ModelRow, rows: seq<ModelRow>)
    ensures multiset(InsertRow(r, rows)) == multiset(rows) + multiset{r}
  {
    if rows != [] {
      InsertRowKeeps(r, rows[1..]);
      assert rows == [rows[0]] + rows[1..];
    }
  }

  /** Putting a row in front of a list none of whose rows comes before it. */
  lemma InFront(r: ModelRow, rows: seq<ModelRow>)
    requires InOrder(rows) && forall x :: x in rows ==> !Before(x, r)
    ensures InOrder([r] + rows)
  {}

  lemma NoneBefore(r: ModelRow, rows: seq<ModelRow>)
    requires InOrder(rows) && rows != [] && Before(r, rows[0])
    ensures forall x :: x in rows ==> !Before(x, r)
  {
    forall x | x in rows ensures !Before(x, r) {
      if x == rows[0] {
        LessTotal(Lower(r.model), Lower(x.model));
      } else {
        NotBeforeTrans(r, rows[0], x);
      }
    }
  }

  lemma {:induction false} InsertRowInOrder(r: ModelRow, rows: seq<ModelRow>)
    requires InOrder(rows)
    ensures InOrder(InsertRow(r, rows)) && multiset(InsertRow(r, rows)) == multiset(rows) + multiset{r}
  {
    InsertRowKeeps(r, rows);
    if rows != [] {
      if Before(r, rows[0]) {
        NoneBefore(r, rows);
        InFront(r, rows);
      } else {
        InsertRowInOrder(r, rows[1..]);
        var rest := InsertRow(r, rows[1..]);
        forall x | x in rest ensures !Before(x, rows[0]) {
          assert x in multiset(rest);
          if x != r { assert x in rows[1..]; }
        }
        InFront(rows[0], rest);
      }
    }
  }

  function SumRows(rows: seq<ModelRow>): Tally {
    if rows == [] then ZERO else Plus(rows[0].row.tally, SumRows(rows[1..]))
  }

  lemma {:induction false} SumRowsInsert(r: ModelRow, rows: seq<ModelRow>)
    ensures SumRows(InsertRow(r, rows)) == Plus(SumRows(rows), r.row.tally)
  {
    if rows != [] && !Before(r, rows[0]) { SumRowsInsert(r, rows[1..]); }
  }

  datatype Snapshot = Snapshot(observedSince: int, totals: Tally, models: seq<ModelRow>)

  /** The usage fields of Service, with the accepted records since the last shutdown as
      history. */
  class Counters {
    var ledger: Ledger
    ghost var entries: seq<Entry>

    ghost predicate Valid()
      reads this
    {
      Timed(entries) && ledger == BookAll(entries)
    }

    constructor ()
      ensures Valid() && entries == []
    {
      ledger, entries := Ledger(0, map[]), [];
    }

    method RecordUsage(r: Record, now: int)
      requires Valid() && now != 0
      modifies this
      ensures Valid() && entries == if Accepted(r) then old(entries) + [EntryOf(r, now)] else old(entries)
    {
      if !EqualFold(TrimSpace(r.provider), "cursor") { return; }
      var model := TrimSpace(FirstNonEmpty(r.model, r.alias));
      if model == "" { return; }
      ghost var was := entries;
      entries := entries + [EntryOf(r, now)];
      assert entries[..|was|] == was;
      ledger := Book(ledger, EntryOf(r, now));
    }

    method ShutDown()
      modifies this
      ensures Valid() && entries == []
    {
      ledger, entries := Ledger(0, map[]), [];
    }

    /** GatewayUsage: one row per model, most recently used first; the totals are at once
        the sum of the rows and the sum over every accepted record. */
    method GatewayUsage() returns (s: Snapshot)
      requires Valid()
      ensures s.totals == SumRows(s.models) == Sum(entries)
      ensures InOrder(s.models)
      ensures RowsListed(ledger.rows, s.models)
      ensures RowsMean(entries, ledger.rows)
      ensures StartMeans(entries, s.observedSince)
      ensures 0 <= s.totals.failures <= s.totals.requests == |entries|
      ensures AddsUp(s.totals, entries)
      ensures forall i :: 0 <= i < |s.models| ==> AddsUp(s.models[i].row.tally, Only(entries, s.models[i].model))
      ensures forall i, j :: 0 <= i < j < |s.models| ==> Later(s.models[i], s.models[j])
    {
      BookAllMeans(entries);
      FailuresWithinRequests(entries);
      SumAddsUp(entries);
      var totals, models := Accumulate(ledger.rows, entries);
      s := Snapshot(ledger.started, totals, models);
      forall i | 0 <= i < |models| ensures AddsUp(models[i].row.tally, Only(entries, models[i].model)) {
        assert models[i] in models;
        SumAddsUp(Only(entries, models[i].model));
      }
      OrderMeans(models);
    }
  }

  /** Used more recently, or at the same time and not after in the alphabet. */
  predicate Later(a: ModelRow, b: ModelRow) {
    a.row.last > b.row.last || (a.row.last == b.row.last && !Less(Lower(b.model), Lower(a.model)))
  }

  lemma OrderMeans(rows: seq<ModelRow>)
    requires InOrder(rows)
    ensures forall i, j :: 0 <= i < j < |rows| ==> Later(rows[i], rows[j])
  {}

  /** The listing holds each row of the map exactly once. */
  ghost predicate RowsListed(rows: map<string, Row>, models: seq<ModelRow>) {
    && |models| == |rows|
    && forall r :: r in models <==> r.model in rows && r.row == rows[r.model]
  }

  /** What the loop has gathered from the models gone through. */
  ghost predicate Gathered(rows: map<string, Row>, es: seq<Entry>, done: set<string>, totals: Tally,
      models: seq<ModelRow>) {
    && totals == SumRows(models) && totals == Sum(Among(es, done))
    && Listed(rows, done, models)
  }

  ghost predicate Listed(rows: map<string, Row>, done: set<string>, models: seq<ModelRow>) {
    && done <= rows.Keys
    && InOrder(models) && |models| == |done|
    && forall r :: r in models <==> r.model in done && r.row == rows[r.model]
  }

  lemma ListMore(rows: map<string, Row>, done: set<string>, models: seq<ModelRow>, k: string)
    requires Listed(rows, done, models) && k in rows && k !in done
    ensures Listed(rows, done + {k}, InsertRow(ModelRow(k, rows[k]), models))
  {
    var r := ModelRow(k, rows[k]);
    InsertRowInOrder(r, models);
    InsertRowMembers(r, models);
  }

  lemma GatherMore(rows: map<string, Row>, es: seq<Entry>, done: set<string>, totals: Tally, models: seq<ModelRow>,
      k: string)
    requires RowsMean(es, rows) && Gathered(rows, es, done, totals, models) && k in rows && k !in done
    ensures Gathered(rows, es, done + {k}, Plus(totals, rows[k].tally), InsertRow(ModelRow(k, rows[k]), models))
  {
    assert RowMeans(es, k, rows[k]);
    AmongMore(es, done, k);
    SumRowsInsert(ModelRow(k, rows[k]), models);
    ListMore(rows, done, models, k);
  }

  lemma GatheredNone(rows: map<string, Row>, es: seq<Entry>)
    ensures Gathered(rows, es, {}, ZERO, [])
  {
    SelectNone(InModels({}), es);
  }

  lemma GatheredAll(rows: map<string, Row>, es: seq<Entry>, totals: Tally, models: seq<ModelRow>)
    requires RowsMean(es, rows) && Gathered(rows, es, rows.Keys, totals, models)
    ensures totals == Sum(es) && RowsListed(rows, models)
  {
    forall e | e in es ensures e.model in rows.Keys { assert Uses(es, e.model); }
    SelectAll(InModels(rows.Keys), es);
  }

  lemma Crossed(keys: set<string>, rest: set<string>, k: string)
    requires rest <= keys
    ensures k in rest ==> keys - (rest - {k}) == keys - rest + {k} && k !in keys - rest
    ensures rest == {} ==> keys - rest == keys
  {}

  /** The loop of GatewayUsage, over the rows in any order. */
  method Accumulate(rows: map<string, Row>, ghost es: seq<Entry>) returns (totals: Tally, models: seq<ModelRow>)
    requires RowsMean(es, rows)
    ensures totals == SumRows(models) == Sum(es)
    ensures InOrder(models) && RowsListed(rows, models)
  {
    GatheredNone(rows, es);
    totals, models := ZERO, [];
    var rest := rows.Keys;
    ghost var done: set<string> := {};
    while rest != {}
      invariant rest <= rows.Keys && done == rows.Keys - rest
      invariant Gathered(rows, es, done, totals, models)
    {
      var k :| k in rest;
      Crossed(rows.Keys, rest, k);
      GatherMore(rows, es, done, totals, models, k);
      models := InsertRow(ModelRow(k, rows[k]), models);
      totals := Plus(totals, rows[k].tally);
      rest, done := rest - {k}, done + {k};
    }
    Crossed(rows.Keys, rest, "");
    GatheredAll(rows, es, totals, models);
  }

  lemma InsertRowMembers(r: ModelRow, rows: seq<ModelRow>)
    requires multiset(InsertRow(r, rows)) == multiset(rows) + multiset{r}
    ensures forall m :: m in InsertRow(r, rows) <==> m in rows || m == r
    ensures |InsertRow(r, rows)| == |rows| + 1
  {
    var out := InsertRow(r, rows);
    assert |multiset(out)| == |multiset(rows)| + 1;
    forall m ensures m in out <==> m in rows || m == r {
      assert m in out <==> m in multiset(out);
    }
  }
}
