/** `_save_counts` of main.py: the per-window counters of a timeline are
    merged into one counter, whose entries are then listed by descending
    count. Writing the list to `words.tab` is left out. */
module Counts {
  import opened Message
  import opened Timeline

  /** One output row: a word and its total count. */
  type Row = (string, nat)

  // ---------------------------------------------------------------------
  // Merging the window counters

  /** `counter.update(d)` for a counter `d`: the counts of shared words add up. */
  function Merge(c: map<string, nat>, d: map<string, nat>): (r: map<string, nat>)
    ensures r.Keys == c.Keys + d.Keys
    ensures forall w :: Get(r, w) == Get(c, w) + Get(d, w)
  {
    map w | w in c.Keys + d.Keys :: Get(c, w) + Get(d, w)
  }

  /** The count of `w` summed over the windows. */
  function WordTotal(tl: seq<Window>, w: string): nat {
    if tl == [] then 0 else WordTotal(tl[..|tl| - 1], w) + Get(tl[|tl| - 1].counts, w)
  }

  /** `w` has an entry in the counter of some window. */
  predicate Counted(tl: seq<Window>, w: string) {
    exists k :: 0 <= k < |tl| && w in tl[k].counts
  }

  /** Merging the counter of window i extends the totals from the first i
      windows to the first i + 1. */
  lemma MergeStep(total: map<string, nat>, tl: seq<Window>, i: nat)
    requires i < |tl|
    requires forall w :: Get(total, w) == WordTotal(tl[..i], w)
    requires forall w :: w in total <==> Counted(tl[..i], w)
    ensures forall w :: Get(Merge(total, tl[i].counts), w) == WordTotal(tl[..i + 1], w)
    ensures forall w :: w in Merge(total, tl[i].counts) <==> Counted(tl[..i + 1], w)
  {
    assert tl[..i + 1][..i] == tl[..i];
    forall w ensures Counted(tl[..i + 1], w) <==> w in total || w in tl[i].counts {
      if Counted(tl[..i + 1], w) {
        var k :| 0 <= k < i + 1 && w in tl[..i + 1][k].counts;
        if k < i {
          assert tl[..i][k] == tl[..i + 1][k];
        }
      }
      if w in total {
        var k :| 0 <= k < i && w in tl[..i][k].counts;
        assert tl[..i + 1][k] == tl[..i][k];
      }
      if w in tl[i].counts {
        assert tl[..i + 1][i] == tl[i];
      }
    }
  }

  /** The merging loop of `_save_counts`. */
  method MergeCounts(tl: seq<Window>) returns (total: map<string, nat>)
    ensures forall w :: Get(total, w) == WordTotal(tl, w)
    ensures forall w :: w in total <==> Counted(tl, w)
  {
    total := map[];
    for i := 0 to |tl|
      invariant forall w :: Get(total, w) == WordTotal(tl[..i], w)
      invariant forall w :: w in total <==> Counted(tl[..i], w)
    {
      MergeStep(total, tl, i);
      total := Merge(total, tl[i].counts);
    }
    assert tl[..|tl|] == tl;
  }

  /** An empty counter, as a gap window carries, changes no total. */
  lemma MergeEmpty(c: map<string, nat>)
    ensures Merge(c, map[]) == c
  {
    assert forall w :: w in c ==> Merge(c, map[])[w] == c[w];
  }

  /** Merging is order-independent: counters can be added up in any order. */
  lemma MergeCommutes(c: map<string, nat>, d: map<string, nat>)
    ensures Merge(c, d) == Merge(d, c)
  {
  }

  // ---------------------------------------------------------------------
  // The saved total of a word is the number of messages using it

  /** The number of windows whose boundary the timestamp belongs to. */
  function Hits(tl: seq<Window>, ts: int, first: int, window: int): nat {
    if tl == [] then 0
    else Hits(tl[..|tl| - 1], ts, first, window) + (if Belongs(ts, tl[|tl| - 1].boundary, first, window) then 1 else 0)
  }

  /** Per-window message counts for `w`, summed over the windows. */
  function SumHolding(tl: seq<Window>, ms: seq<Message>, w: string, first: int, window: int): nat {
    if tl == [] then 0
    else SumHolding(tl[..|tl| - 1], ms, w, first, window) + Holding(Bucket(ms, tl[|tl| - 1].boundary, first, window), w)
  }

  lemma {:induction false} WordTotalIsSumHolding(tl: seq<Window>, ms: seq<Message>, w: string, first: int, window: int)
    requires Agrees(tl, ms, first, window)
    ensures WordTotal(tl, w) == SumHolding(tl, ms, w, first, window)
  {
    if tl != [] {
      var n := |tl| - 1;
      assert Agrees(tl[..n], ms, first, window) by {
        forall k | 0 <= k < n ensures tl[..n][k] == tl[k] { }
      }
      WordTotalIsSumHolding(tl[..n], ms, w, first, window);
      TallyCountsMessages(Bucket(ms, tl[n].boundary, first, window), w);
    }
  }

  lemma HoldingSnoc(ms: seq<Message>, m: Message, w: string)
    ensures Holding(ms + [m], w) == Holding(ms, w) + (if w in m.Words() then 1 else 0)
  {
    assert (ms + [m])[..|ms|] == ms;
  }

  lemma {:induction false} SumHoldingSnoc(tl: seq<Window>, ms: seq<Message>, m: Message, w: string, first: int, window: int)
    ensures SumHolding(tl, ms + [m], w, first, window)
      == SumHolding(tl, ms, w, first, window) + (if w in m.Words() then Hits(tl, m.timestamp, first, window) else 0)
  {
    if tl != [] {
      var n := |tl| - 1;
      SumHoldingSnoc(tl[..n], ms, m, w, first, window);
      BucketSnoc(ms, m, tl[n].boundary, first, window);
      var b := Bucket(ms, tl[n].boundary, first, window);
      if Belongs(m.timestamp, tl[n].boundary, first, window) {
        HoldingSnoc(b, m, w);
        assert Holding(Bucket(ms + [m], tl[n].boundary, first, window), w)
          == Holding(b, w) + (if w in m.Words() then 1 else 0);
      } else {
        assert Bucket(ms + [m], tl[n].boundary, first, window) == b;
      }
    }
  }

  lemma {:induction false} SumHoldingNone(tl: seq<Window>, w: string, first: int, window: int)
    ensures SumHolding(tl, [], w, first, window) == 0
  {
    if tl != [] {
      SumHoldingNone(tl[..|tl| - 1], w, first, window);
    }
  }

  lemma {:induction false} HitsNone(tl: seq<Window>, ts: int, first: int, window: int)
    requires forall k :: 0 <= k < |tl| ==> tl[k].boundary < ts
    ensures Hits(tl, ts, first, window) == 0
  {
    if tl != [] {
      HitsNone(tl[..|tl| - 1], ts, first, window);
    }
  }

  /** A grid of windows catches every timestamp up to its last boundary exactly once. */
  lemma {:induction false} HitsOnce(tl: seq<Window>, ts: int, first: int, window: int)
    requires window > 0 && tl != [] && Grid(tl, first, window)
    requires ts <= tl[|tl| - 1].boundary
    ensures Hits(tl, ts, first, window) == 1
  {
    var n := |tl| - 1;
    if n == 0 {
      assert Belongs(ts, tl[0].boundary, first, window);
    } else {
      var init := tl[..n];
      assert Grid(init, first, window);
      GridSpacing(tl, first, window, 0, n);
      if ts <= init[n - 1].boundary {
        HitsOnce(init, ts, first, window);
      } else {
        forall k | 0 <= k < n ensures init[k].boundary < ts {
          if k < n - 1 {
            GridSpacing(tl, first, window, k, n - 1);
          }
        }
        HitsNone(init, ts, first, window);
      }
    }
  }

  lemma {:induction false} SumHoldingCovers(tl: seq<Window>, ms: seq<Message>, w: string, first: int, window: int)
    requires window > 0 && tl != [] && Grid(tl, first, window)
    requires forall j :: 0 <= j < |ms| ==> ms[j].timestamp <= tl[|tl| - 1].boundary
    ensures SumHolding(tl, ms, w, first, window) == Holding(ms, w)
  {
    if ms == [] {
      SumHoldingNone(tl, w, first, window);
    } else {
      var n := |ms| - 1;
      assert ms == ms[..n] + [ms[n]];
      SumHoldingCovers(tl, ms[..n], w, first, window);
      SumHoldingSnoc(tl, ms[..n], ms[n], w, first, window);
      HitsOnce(tl, ms[n].timestamp, first, window);
      HoldingSnoc(ms[..n], ms[n], w);
    }
  }

  /** On a timeline that covers its messages, the merged count of a word is the
      number of messages whose word set contains it. */
  lemma TotalIsMessageCount(tl: seq<Window>, ms: seq<Message>, w: string, first: int, window: int)
    requires window > 0 && tl != [] && Grid(tl, first, window)
    requires Agrees(tl, ms, first, window)
    requires forall j :: 0 <= j < |ms| ==> ms[j].timestamp <= tl[|tl| - 1].boundary
    ensures WordTotal(tl, w) == Holding(ms, w)
  {
    WordTotalIsSumHolding(tl, ms, w, first, window);
    SumHoldingCovers(tl, ms, w, first, window);
  }

  // ---------------------------------------------------------------------
  // Ranking

  /** Counts never increase down the list. */
  predicate Descending(rows: seq<Row>) {
    forall i, j :: 0 <= i < j < |rows| ==> rows[i].1 >= rows[j].1
  }

  /** Each word is listed at most once. */
  predicate Distinct(rows: seq<Row>) {
    forall i, j :: 0 <= i < j < |rows| ==> rows[i].0 != rows[j].0
  }

  predicate Listed(rows: seq<Row>, w: string) {
    exists i :: 0 <= i < |rows| && rows[i].0 == w
  }

  lemma DescendingCons(row: Row, rows: seq<Row>)
    requires Descending(rows)
    requires forall j :: 0 <= j < |rows| ==> row.1 >= rows[j].1
    ensures Descending([row] + rows)
  {
    var r := [row] + rows;
    forall i, j | 0 <= i < j < |r| ensures r[i].1 >= r[j].1 {
      assert r[j] == rows[j - 1];
      if i > 0 {
        assert r[i] == rows[i - 1];
      }
    }
  }

  lemma DescendingTail(rows: seq<Row>)
    requires Descending(rows) && rows != []
    ensures Descending(rows[1..])
    ensures forall j :: 0 <= j < |rows[1..]| ==> rows[0].1 >= rows[1..][j].1
  {
  }

  /** A bound on every row of `src` and on `row` bounds every row of a list
      holding exactly those. */
  lemma BoundedAbove(x: Row, rest: seq<Row>, src: seq<Row>, row: Row)
    requires multiset(rest) == multiset(src) + multiset{row}
    requires forall j :: 0 <= j < |src| ==> x.1 >= src[j].1
    requires x.1 >= row.1
    ensures forall j :: 0 <= j < |rest| ==> x.1 >= rest[j].1
  {
    forall j | 0 <= j < |rest| ensures x.1 >= rest[j].1 {
      assert rest[j] in multiset(rest);
      if rest[j] != row {
        assert rest[j] in multiset(src);
        var k :| 0 <= k < |src| && src[k] == rest[j];
      }
    }
  }

  /** Insertion of a row after every row with an equal or larger count. */
  function InsertDesc(rows: seq<Row>, row: Row): (r: seq<Row>)
    requires Descending(rows)
    ensures Descending(r)
    ensures multiset(r) == multiset(rows) + multiset{row}
    ensures |r| == |rows| + 1
  {
    if rows == [] then [row]
    else if rows[0].1 < row.1 then
      DescendingCons(row, rows);
      [row] + rows
    else
      DescendingTail(rows);
      var rest := InsertDesc(rows[1..], row);
      BoundedAbove(rows[0], rest, rows[1..], row);
      DescendingCons(rows[0], rest);
      assert rows == [rows[0]] + rows[1..];
      assert multiset([rows[0]] + rest) == multiset{rows[0]} + multiset(rest);
      [rows[0]] + rest
  }

  lemma {:induction false} InsertDistinct(rows: seq<Row>, row: Row)
    requires Descending(rows) && Distinct(rows) && !Listed(rows, row.0)
    ensures Distinct(InsertDesc(rows, row))
  {
    if rows != [] && rows[0].1 >= row.1 {
      var tail := rows[1..];
      assert Descending(tail) && Distinct(tail);
      forall i | 0 <= i < |tail| ensures tail[i].0 != row.0 {
        assert tail[i] == rows[i + 1];
      }
      InsertDistinct(tail, row);
      var rest := InsertDesc(tail, row);
      forall j | 0 <= j < |rest| ensures rows[0].0 != rest[j].0 {
        assert rest[j] in multiset(rest);
        if rest[j] != row {
          assert rest[j] in tail;
        } else {
          assert rows[0].0 != row.0;
        }
      }
    } else if rows != [] {
      assert [row] + rows == InsertDesc(rows, row);
    }
  }

  /** What the ranking loop knows: the listed rows are the counter entries
      outside `rest`, each once, with their counts, by descending count. */
  predicate Ranked(total: map<string, nat>, rows: seq<Row>, rest: set<string>) {
    && rest <= total.Keys
    && Descending(rows) && Distinct(rows)
    && |rows| + |rest| == |total|
    && (forall i :: 0 <= i < |rows| ==> rows[i].0 in total && rows[i].0 !in rest && rows[i].1 == total[rows[i].0])
    && (forall w :: w in total && w !in rest ==> Listed(rows, w))
  }

  /** Every row of the longer list is a counter entry outside the smaller rest. */
  lemma RankStepRows(total: map<string, nat>, rows: seq<Row>, rest: set<string>, w: string, r: seq<Row>)
    requires w in total && multiset(r) == multiset(rows) + multiset{(w, total[w])}
    requires forall i :: 0 <= i < |rows| ==> rows[i].0 in total && rows[i].0 !in rest && rows[i].1 == total[rows[i].0]
    ensures forall i :: 0 <= i < |r| ==> r[i].0 in total && r[i].0 !in rest - {w} && r[i].1 == total[r[i].0]
  {
    forall i | 0 <= i < |r| ensures r[i].0 in total && r[i].0 !in rest - {w} && r[i].1 == total[r[i].0] {
      assert r[i] in multiset(r);
      if r[i] != (w, total[w]) {
        assert r[i] in multiset(rows);
        var k :| 0 <= k < |rows| && rows[k] == r[i];
      }
    }
  }

  /** Every entry outside the smaller rest is listed in the longer list. */
  lemma RankStepListed(total: map<string, nat>, rows: seq<Row>, rest: set<string>, w: string, r: seq<Row>)
    requires w in total && multiset(r) == multiset(rows) + multiset{(w, total[w])}
    requires forall v :: v in total && v !in rest ==> Listed(rows, v)
    ensures forall v :: v in total && v !in rest - {w} ==> Listed(r, v)
  {
    forall v | v in total && v !in rest - {w} ensures Listed(r, v) {
      var p;
      if v == w {
        p := (w, total[w]);
      } else {
        var i :| 0 <= i < |rows| && rows[i].0 == v;
        p := rows[i];
      }
      assert p in multiset(r);
      var k :| 0 <= k < |r| && r[k] == p;
    }
  }

  /** Listing one more entry keeps the ranking consistent. */
  lemma RankStep(total: map<string, nat>, rows: seq<Row>, rest: set<string>, w: string)
    requires Ranked(total, rows, rest) && w in rest
    ensures Ranked(total, InsertDesc(rows, (w, total[w])), rest - {w})
  {
    InsertDistinct(rows, (w, total[w]));
    var r := InsertDesc(rows, (w, total[w]));
    RankStepRows(total, rows, rest, w, r);
    RankStepListed(total, rows, rest, w, r);
  }

  /** `sorted(counter.items(), key=itemgetter(1), reverse=True)`: every entry
      of the counter once, with its count, by descending count. */
  method RankWords(total: map<string, nat>) returns (rows: seq<Row>)
    ensures Descending(rows) && Distinct(rows)
    ensures |rows| == |total|
    ensures forall i :: 0 <= i < |rows| ==> rows[i].0 in total && rows[i].1 == total[rows[i].0]
    ensures forall w :: w in total ==> Listed(rows, w)
  {
    rows := [];
    var rest := total.Keys;
    while rest != {}
      invariant Ranked(total, rows, rest)
      decreases |rest|
    {
      var w :| w in rest;
      RankStep(total, rows, rest, w);
      rows, rest := InsertDesc(rows, (w, total[w])), rest - {w};
    }
  }

  /** `_save_counts` without the file: the rows written to `words.tab`. */
  method SaveCounts(tl: seq<Window>) returns (rows: seq<Row>)
    requires tl != []
    ensures Descending(rows) && Distinct(rows)
    ensures forall i :: 0 <= i < |rows| ==> rows[i].1 == WordTotal(tl, rows[i].0)
    ensures forall w :: Listed(rows, w) <==> Counted(tl, w)
  {
    var total := MergeCounts(tl);
    rows := RankWords(total);
  }
}
