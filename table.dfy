/** The table report (find_report.py lines 433-470): across the whole input
    it counts each variant key, collects the keys each sample shows and the
    ratio each sample last gave each key; at the end it writes a matrix with
    one column per key, sorted by decreasing count, and one row per sample. */
module TableOut {
  import opened PyText

  /** `float(ratio)` as the matrix uses it: whether it is false (zero) and
      how `str` prints it. */
  datatype Ratio = Ratio(isZero: bool, shown: string)

  /** A variant key: the variant name with its query, and the region with
      its edit. */
  type Key = (string, string)

  /** One accepted record: its sample, its key and its ratio. */
  datatype Entry = Entry(sample: string, key: Key, ratio: Ratio)

  /** Line 434: the variant name gets "/" and the query unless it already
      holds a "/". */
  function VarName(variant0: string, query: string): (r: string)
    ensures Contains(r, "/")
    ensures Contains(variant0, "/") ==> r == variant0
    ensures !Contains(variant0, "/") ==> r == variant0 + "/" + query
  {
    if Contains(variant0, "/") then variant0
    else
      assert OccursAt(variant0 + "/" + query, "/", |variant0|);
      variant0 + "/" + query
  }

  /** Line 435: the region, followed by ":" and the edit when there is one. */
  function RegionMod(region: string, mod: string): string {
    if mod != "" then region + ":" + mod else region
  }

  /** Line 436. */
  function TableKey(variant0: string, query: string, region: string, mod: string): Key {
    (VarName(variant0, query), RegionMod(region, mod))
  }

  // ---------------------------------------------------------------------------
  // What the three dictionaries hold after a sequence of records

  /** The number of records with key `k`. */
  function Count(h: seq<Entry>, k: Key): nat
    decreases |h|
  {
    if |h| == 0 then 0 else Count(h[..|h| - 1], k) + (if h[|h| - 1].key == k then 1 else 0)
  }

  /** One more occurrence of `k`, starting from zero for a new key. */
  function Bump(m: map<Key, nat>, k: Key): (r: map<Key, nat>)
    ensures r.Keys == m.Keys + {k}
    ensures r[k] == (if k in m then m[k] else 0) + 1
    ensures forall k' :: k' in m && k' != k ==> r[k'] == m[k']
  {
    m[k := (if k in m then m[k] else 0) + 1]
  }

  /** `variants` (lines 437-439). */
  function CountMap(h: seq<Entry>): map<Key, nat>
    decreases |h|
  {
    if |h| == 0 then map[] else Bump(CountMap(h[..|h| - 1]), h[|h| - 1].key)
  }

  /** `samples` (lines 441-443). */
  function SampleMap(h: seq<Entry>): map<string, set<Key>>
    decreases |h|
  {
    if |h| == 0 then map[]
    else
      var m := SampleMap(h[..|h| - 1]);
      var e := h[|h| - 1];
      m[e.sample := (if e.sample in m then m[e.sample] else {}) + {e.key}]
  }

  /** `data` (lines 445-447). */
  function DataMap(h: seq<Entry>): map<string, map<Key, Ratio>>
    decreases |h|
  {
    if |h| == 0 then map[]
    else
      var m := DataMap(h[..|h| - 1]);
      var e := h[|h| - 1];
      m[e.sample := (if e.sample in m then m[e.sample] else map[])[e.key := e.ratio]]
  }

  /** Each count is the number of records with that key, and the keys
      counted are exactly the keys of some record. */
  lemma {:induction false} CountMapCounts(h: seq<Entry>, k: Key)
    ensures k in CountMap(h) <==> Count(h, k) > 0
    ensures k in CountMap(h) ==> CountMap(h)[k] == Count(h, k)
    decreases |h|
  {
    if |h| > 0 {
      CountMapCounts(h[..|h| - 1], k);
    }
  }

  /** A key has a positive count exactly when some record carries it. */
  lemma {:induction false} CountPositive(h: seq<Entry>, k: Key)
    ensures Count(h, k) > 0 <==> exists i :: 0 <= i < |h| && h[i].key == k
    decreases |h|
  {
    if |h| > 0 {
      var front := h[..|h| - 1];
      CountPositive(front, k);
      assert forall i :: 0 <= i < |front| ==> front[i] == h[i];
    }
  }

  /** A sample lists a key exactly when some record pairs them. */
  lemma {:induction false} SampleMapHas(h: seq<Entry>, s: string, k: Key)
    ensures s in SampleMap(h) <==> exists i :: 0 <= i < |h| && h[i].sample == s
    ensures s in SampleMap(h) && k in SampleMap(h)[s] <==>
              exists i :: 0 <= i < |h| && h[i].sample == s && h[i].key == k
    decreases |h|
  {
    if |h| > 0 {
      var front := h[..|h| - 1];
      SampleMapHas(front, s, k);
      assert forall i :: 0 <= i < |front| ==> front[i] == h[i];
      assert h[|h| - 1] == h[|h| - 1];
    }
  }

  /** `data` has a ratio for exactly the keys `samples` lists: the cell
      lookup `data[s][v]` of line 464 never fails. */
  lemma {:induction false} DataMapShape(h: seq<Entry>)
    ensures DataMap(h).Keys == SampleMap(h).Keys
    ensures forall s :: s in SampleMap(h) ==> DataMap(h)[s].Keys == SampleMap(h)[s]
    decreases |h|
  {
    if |h| > 0 {
      DataMapShape(h[..|h| - 1]);
    }
  }

  /** The stored ratio is the one of the last record with that sample and key. */
  lemma {:induction false} DataMapLast(h: seq<Entry>, i: nat)
    requires i < |h|
    requires forall j :: i < j < |h| ==> h[j].sample != h[i].sample || h[j].key != h[i].key
    ensures h[i].sample in DataMap(h) && h[i].key in DataMap(h)[h[i].sample]
    ensures DataMap(h)[h[i].sample][h[i].key] == h[i].ratio
    decreases |h|
  {
    if i < |h| - 1 {
      var front := h[..|h| - 1];
      assert front[i] == h[i];
      forall j | i < j < |front| ensures front[j].sample != front[i].sample || front[j].key != front[i].key {
        assert front[j] == h[j];
      }
      DataMapLast(front, i);
    }
  }

  // ---------------------------------------------------------------------------
  // The matrix (lines 449-470)

  /** Line 454: Reference and Fusion columns are headed by the variant
      name, the others by the region. */
  function HeaderCell(k: Key): string {
    var base := Split(k.0, "/")[0];
    if base == "Reference" || base == "Fusion" then k.0 else k.1
  }

  function HeaderCells(order: seq<Key>): (r: seq<string>)
    ensures |r| == |order|
  {
    seq(|order|, i requires 0 <= i < |order| => HeaderCell(order[i]))
  }

  /** Lines 463-469: "." when the sample lacks the key, or when the key name
      does not mention Reference and the ratio is zero; the ratio otherwise. */
  function Cell(sv: set<Key>, dv: map<Key, Ratio>, k: Key): string
    requires sv <= dv.Keys
  {
    if k in sv then
      if !Contains(k.0, "Reference") && dv[k].isZero then "." else dv[k].shown
    else "."
  }

  function Cells(sv: set<Key>, dv: map<Key, Ratio>, order: seq<Key>): (r: seq<string>)
    requires sv <= dv.Keys
    ensures |r| == |order|
  {
    seq(|order|, i requires 0 <= i < |order| => Cell(sv, dv, order[i]))
  }

  /** A cell shows the stored ratio exactly in the cases the source prints it. */
  lemma CellCases(sv: set<Key>, dv: map<Key, Ratio>, k: Key)
    requires sv <= dv.Keys
    ensures k !in sv ==> Cell(sv, dv, k) == "."
    ensures k in sv && !Contains(k.0, "Reference") && dv[k].isZero ==> Cell(sv, dv, k) == "."
    ensures k in sv && (Contains(k.0, "Reference") || !dv[k].isZero) ==> Cell(sv, dv, k) == dv[k].shown
  {
  }

  /** A row as the source writes it: the first cell, then a tab and a cell
      for each further column. */
  function Row(first: string, cells: seq<string>): string
    decreases |cells|
  {
    if |cells| == 0 then first else Row(first, cells[..|cells| - 1]) + "\t" + cells[|cells| - 1]
  }

  /** Writing cell by cell is the tab-join of the cells. */
  lemma {:induction false} RowIsJoin(first: string, cells: seq<string>)
    ensures Row(first, cells) == Join([first] + cells, "\t")
    decreases |cells|
  {
    if |cells| > 0 {
      var front := cells[..|cells| - 1];
      RowIsJoin(first, front);
      assert [first] + cells == ([first] + front) + [cells[|cells| - 1]];
      JoinSnoc([first] + front, "\t", cells[|cells| - 1]);
    }
  }

  /** A row of tab-free cells splits into its first cell and one cell per column. */
  lemma RowFields(first: string, cells: seq<string>)
    requires TabFree(first) && AllTabFree(cells)
    ensures Split(Row(first, cells), "\t") == [first] + cells
    ensures |Split(Row(first, cells), "\t")| == 1 + |cells|
  {
    RowIsJoin(first, cells);
    SplitJoin([first] + cells, "\t");
  }

  /** `order` lists every key of `counts` once, by non-increasing count. */
  predicate SortedKeys(order: seq<Key>, counts: map<Key, nat>) {
    && (forall i :: 0 <= i < |order| ==> order[i] in counts)
    && (forall k :: k in counts ==> k in order)
    && (forall i, j :: 0 <= i < j < |order| ==> order[i] != order[j])
    && (forall i, j :: 0 <= i < j < |order| ==> counts[order[i]] >= counts[order[j]])
  }

  /** `order` lists every element of `names` once. */
  predicate Enumerates(order: seq<string>, names: set<string>) {
    && (forall i :: 0 <= i < |order| ==> order[i] in names)
    && (forall s :: s in names ==> s in order)
    && (forall i, j :: 0 <= i < j < |order| ==> order[i] != order[j])
  }

  /** A key of `rest` with the largest count. */
  method MaxKey(rest: set<Key>, counts: map<Key, nat>) returns (m: Key)
    requires rest != {} && rest <= counts.Keys
    ensures m in rest
    ensures forall k :: k in rest ==> counts[k] <= counts[m]
  {
    m :| m in rest;
    var todo := rest - {m};
    while todo != {}
      invariant todo <= rest && m in rest
      invariant forall k :: k in rest && k !in todo ==> counts[k] <= counts[m]
      decreases |todo|
    {
      var k :| k in todo;
      if counts[k] > counts[m] {
        m := k;
      }
      todo := todo - {k};
    }
  }

  /** Line 450: `sorted(variants, key=variants.get, reverse=True)`; the
      order among keys of equal count is not modelled. */
  method SortByCount(counts: map<Key, nat>) returns (order: seq<Key>)
    ensures SortedKeys(order, counts)
  {
    order := [];
    var rest := counts.Keys;
    while rest != {}
      invariant rest <= counts.Keys
      invariant forall i :: 0 <= i < |order| ==> order[i] in counts && order[i] !in rest
      invariant forall k :: k in counts ==> k in rest || k in order
      invariant forall i, j :: 0 <= i < j < |order| ==> order[i] != order[j]
      invariant forall i, j :: 0 <= i < j < |order| ==> counts[order[i]] >= counts[order[j]]
      invariant forall i, k :: 0 <= i < |order| && k in rest ==> counts[order[i]] >= counts[k]
      decreases |rest|
    {
      var m := MaxKey(rest, counts);
      order := order + [m];
      rest := rest - {m};
    }
  }

  /** Line 453-458: the header row. */
  method HeaderRow(order: seq<Key>) returns (line: string)
    ensures line == Row("Sample", HeaderCells(order))
  {
    line := "Sample";
    var i := 0;
    while i < |order|
      invariant 0 <= i <= |order|
      invariant line == Row("Sample", HeaderCells(order[..i]))
    {
      assert HeaderCells(order[..i + 1])[..i] == HeaderCells(order[..i]);
      line := line + "\t" + HeaderCell(order[i]);
      i := i + 1;
    }
    assert order[..i] == order;
  }

  /** Lines 461-470: one sample's row. */
  method SampleRow(s: string, sv: set<Key>, dv: map<Key, Ratio>, order: seq<Key>) returns (line: string)
    requires sv <= dv.Keys
    ensures line == Row(s, Cells(sv, dv, order))
  {
    line := s;
    var i := 0;
    while i < |order|
      invariant 0 <= i <= |order|
      invariant line == Row(s, Cells(sv, dv, order[..i]))
    {
      assert Cells(sv, dv, order[..i + 1])[..i] == Cells(sv, dv, order[..i]);
      var v := order[i];
      var cell := ".";
      if v in sv {
        if !Contains(v.0, "Reference") && dv[v].isZero {
          cell := ".";
        } else {
          cell := dv[v].shown;
        }
      }
      line := line + "\t" + cell;
      i := i + 1;
    }
    assert order[..i] == order;
  }

  /** Lines 460-470: a row for each sample, in an order of the set's choosing. */
  method SampleRows(samples: map<string, set<Key>>, data: map<string, map<Key, Ratio>>, order: seq<Key>)
    returns (rows: seq<string>, rowSamples: seq<string>)
    requires forall s :: s in samples ==> s in data && samples[s] <= data[s].Keys
    ensures Enumerates(rowSamples, samples.Keys)
    ensures |rows| == |rowSamples|
    ensures forall i :: 0 <= i < |rows| ==>
              rows[i] == Row(rowSamples[i], Cells(samples[rowSamples[i]], data[rowSamples[i]], order))
  {
    rows, rowSamples := [], [];
    var rest := samples.Keys;
    while rest != {}
      invariant rest <= samples.Keys
      invariant forall i :: 0 <= i < |rowSamples| ==> rowSamples[i] in samples && rowSamples[i] !in rest
      invariant forall s :: s in samples ==> s in rest || s in rowSamples
      invariant forall i, j :: 0 <= i < j < |rowSamples| ==> rowSamples[i] != rowSamples[j]
      invariant |rows| == |rowSamples|
      invariant forall i :: 0 <= i < |rows| ==>
                  rows[i] == Row(rowSamples[i], Cells(samples[rowSamples[i]], data[rowSamples[i]], order))
      decreases |rest|
    {
      var s :| s in rest;
      var line := SampleRow(s, samples[s], data[s], order);
      rows := rows + [line];
      rowSamples := rowSamples + [s];
      rest := rest - {s};
    }
  }

  /** One more record updates each dictionary at its own sample and key. */
  lemma AddStep(h: seq<Entry>, e: Entry)
    ensures CountMap(h + [e]) == Bump(CountMap(h), e.key)
    ensures var m := SampleMap(h); SampleMap(h + [e]) == m[e.sample := (if e.sample in m then m[e.sample] else {}) + {e.key}]
    ensures var m := DataMap(h); DataMap(h + [e]) == m[e.sample := (if e.sample in m then m[e.sample] else map[])[e.key := e.ratio]]
  {
    assert (h + [e])[..|h|] == h;
  }

  /** Lines 437-439: count one more occurrence of `key`. */
  method Tally(variants: map<Key, nat>, key: Key) returns (r: map<Key, nat>)
    ensures r == Bump(variants, key)
  {
    r := variants;
    if key !in r {
      r := r[key := 0];
    }
    r := r[key := r[key] + 1];
  }

  /** Lines 441-443: note that `samp` shows `key`. */
  method Collect(samples: map<string, set<Key>>, samp: string, key: Key) returns (r: map<string, set<Key>>)
    ensures r == samples[samp := (if samp in samples then samples[samp] else {}) + {key}]
  {
    r := samples;
    if samp !in r {
      r := r[samp := {}];
    }
    r := r[samp := r[samp] + {key}];
  }

  /** Lines 445-447: store the ratio `samp` gives `key`, over any earlier one. */
  method Store(data: map<string, map<Key, Ratio>>, samp: string, key: Key, ratio: Ratio)
    returns (r: map<string, map<Key, Ratio>>)
    ensures r == data[samp := (if samp in data then data[samp] else map[])[key := ratio]]
  {
    r := data;
    if samp !in r {
      r := r[samp := map[]];
    }
    r := r[samp := r[samp][key := ratio]];
  }

  /** The three dictionaries are the ones the records `h` build, and
      `data` has a ratio for exactly the keys `samples` lists. */
  ghost predicate Consistent(variants: map<Key, nat>, samples: map<string, set<Key>>,
                             data: map<string, map<Key, Ratio>>, h: seq<Entry>)
  {
    && variants == CountMap(h)
    && samples == SampleMap(h)
    && data == DataMap(h)
    && samples.Keys == data.Keys
    && (forall s :: s in samples ==> samples[s] == data[s].Keys)
  }

  lemma BuiltIsConsistent(h: seq<Entry>)
    ensures Consistent(CountMap(h), SampleMap(h), DataMap(h), h)
  {
    DataMapShape(h);
  }

  /** The three dictionaries of table mode, with the records they were
      built from. */
  class Aggregator {
    var variants: map<Key, nat>
    var samples: map<string, set<Key>>
    var data: map<string, map<Key, Ratio>>
    ghost var history: seq<Entry>

    /** The dictionaries are what the records accepted so far make of
        them, and every listed key has a ratio. */
    ghost predicate Valid()
      reads this
    {
      Consistent(variants, samples, data, history)
    }

    constructor ()
      ensures Valid() && history == []
    {
      variants, samples, data := map[], map[], map[];
      history := [];
    }

    /** Lines 434-447 for one record. */
    method Add(samp: string, key: Key, ratio: Ratio)
      requires Valid()
      modifies this
      ensures Valid()
      ensures history == old(history) + [Entry(samp, key, ratio)]
    {
      ghost var h := history + [Entry(samp, key, ratio)];
      AddStep(history, Entry(samp, key, ratio));
      var v' := Tally(variants, key);
      var s' := Collect(samples, samp, key);
      var d' := Store(data, samp, key, ratio);
      assert v' == CountMap(h) && s' == SampleMap(h) && d' == DataMap(h);
      BuiltIsConsistent(h);
      variants, samples, data, history := v', s', d', h;
    }

    /** Lines 449-470: the header row, then one row per sample. The
        sample order is the dictionary's, which is not modelled. */
    method Matrix() returns (lines: seq<string>, order: seq<Key>, rowSamples: seq<string>)
      requires Valid()
      ensures SortedKeys(order, variants)
      ensures Enumerates(rowSamples, samples.Keys)
      ensures |lines| == |rowSamples| + 1
      ensures lines[0] == Row("Sample", HeaderCells(order))
      ensures forall i :: 0 <= i < |rowSamples| ==>
                lines[i + 1] == Row(rowSamples[i], Cells(samples[rowSamples[i]], data[rowSamples[i]], order))
    {
      order := SortByCount(variants);
      var header := HeaderRow(order);
      var rows;
      rows, rowSamples := SampleRows(samples, data, order);
      lines := [header] + rows;
    }
  }
}
