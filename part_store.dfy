/** The report-detail table that savePartContent fills and generateReport reads:
    per report, the content fragments it received, each with a part number. The
    table is kept in memory as a map from report id to the report's rows in
    insertion order. */
module PartStore {

  /** One row of the table for a given report: its part number and its content. */
  datatype Part = Part(part: int, content: string)

  type Table = map<string, seq<Part>>

  /** The rows of one report; a report without rows has none. */
  function PartsOf(t: Table, reportId: string): seq<Part> {
    if reportId in t then t[reportId] else []
  }

  /** The table after savePartContent's count-then-insert: the new row gets the
      number of rows the report already has plus one and goes after them; the rows
      of every other report stay as they were. */
  function WithPart(t: Table, reportId: string, content: string): (t': Table)
    ensures reportId in t'
    ensures forall id :: id != reportId ==> PartsOf(t', id) == PartsOf(t, id)
    ensures |PartsOf(t', reportId)| == |PartsOf(t, reportId)| + 1
    ensures PartsOf(t', reportId)[..|PartsOf(t, reportId)|] == PartsOf(t, reportId)
    ensures PartsOf(t', reportId)[|PartsOf(t, reportId)|]
         == Part(|PartsOf(t, reportId)| + 1, content)
  {
    var ps := PartsOf(t, reportId);
    t[reportId := ps + [Part(|ps| + 1, content)]]
  }

  /** The rows carry the numbers 1..N in the order they are stored. */
  ghost predicate Numbered(ps: seq<Part>) {
    forall i :: 0 <= i < |ps| ==> ps[i].part == i + 1
  }

  /** Strictly ascending part numbers: the stored order is the order of "ORDER BY part". */
  ghost predicate Ascending(ps: seq<Part>) {
    forall i, j :: 0 <= i < j < |ps| ==> ps[i].part < ps[j].part
  }

  /** Successive savePartContent calls for one report, one per chunk: each adds
      one row to that report. */
  function AppendAll(t: Table, reportId: string, chunks: seq<string>): (r: Table)
    ensures |PartsOf(r, reportId)| == |PartsOf(t, reportId)| + |chunks|
    decreases |chunks|
  {
    if chunks == [] then t else AppendAll(WithPart(t, reportId, chunks[0]), reportId, chunks[1..])
  }

  /** The rows that chunks get when appended to a report that has k rows: in
      chunk order, numbered from k + 1 on. */
  function NewParts(k: int, chunks: seq<string>): (r: seq<Part>)
    ensures |r| == |chunks|
    decreases |chunks|
  {
    if chunks == [] then [] else [Part(k + 1, chunks[0])] + NewParts(k + 1, chunks[1..])
  }

  /** The i-th new row holds the i-th chunk and the number k + i + 1. */
  lemma {:induction false} NewPartsAt(k: int, chunks: seq<string>, i: nat)
    requires i < |chunks|
    ensures NewParts(k, chunks)[i] == Part(k + i + 1, chunks[i])
    decreases |chunks|
  {
    if i > 0 {
      NewPartsAt(k + 1, chunks[1..], i - 1);
    }
  }

  /** Appending chunks to a report leaves its rows followed by the new rows, numbered
      on from the number of rows it had. */
  lemma {:induction false} AppendAllParts(t: Table, reportId: string, chunks: seq<string>)
    ensures var ps := PartsOf(t, reportId);
      PartsOf(AppendAll(t, reportId, chunks), reportId) == ps + NewParts(|ps|, chunks)
    decreases |chunks|
  {
    var ps := PartsOf(t, reportId);
    if chunks == [] {
      assert ps + [] == ps;
    } else {
      var t1 := WithPart(t, reportId, chunks[0]);
      var head := Part(|ps| + 1, chunks[0]);
      var rest := NewParts(|ps| + 1, chunks[1..]);
      calc {
        PartsOf(AppendAll(t, reportId, chunks), reportId);
        PartsOf(AppendAll(t1, reportId, chunks[1..]), reportId);
        { AppendAllParts(t1, reportId, chunks[1..]);
          assert PartsOf(t1, reportId) == ps + [head]; }
        (ps + [head]) + rest;
        ps + ([head] + rest);
        ps + NewParts(|ps|, chunks);
      }
    }
  }

  /** Rows numbered 1..K followed by the rows of N appended chunks are numbered 1..K+N. */
  lemma AppendAllNumbered(t: Table, reportId: string, chunks: seq<string>)
    requires Numbered(PartsOf(t, reportId))
    ensures Numbered(PartsOf(AppendAll(t, reportId, chunks), reportId))
  {
    AppendAllParts(t, reportId, chunks);
    var ps := PartsOf(t, reportId);
    var all := ps + NewParts(|ps|, chunks);
    forall i | 0 <= i < |all| ensures all[i].part == i + 1 {
      if i >= |ps| {
        assert all[i] == NewParts(|ps|, chunks)[i - |ps|];
        NewPartsAt(|ps|, chunks, i - |ps|);
      }
    }
  }

  /** One more chunk is one more savePartContent after the others. */
  lemma {:induction false} AppendAllSnoc(t: Table, reportId: string, chunks: seq<string>, c: string)
    ensures AppendAll(t, reportId, chunks + [c]) == WithPart(AppendAll(t, reportId, chunks), reportId, c)
    decreases |chunks|
  {
    if chunks == [] {
      assert [] + [c] == [c];
      assert [c][1..] == [];
    } else {
      assert (chunks + [c])[1..] == chunks[1..] + [c];
      AppendAllSnoc(WithPart(t, reportId, chunks[0]), reportId, chunks[1..], c);
    }
  }

  /** Appending never touches the rows of another report. */
  lemma {:induction false} AppendAllOthers(t: Table, reportId: string, chunks: seq<string>, other: string)
    requires other != reportId
    ensures PartsOf(AppendAll(t, reportId, chunks), other) == PartsOf(t, other)
    decreases |chunks|
  {
    if chunks != [] {
      AppendAllOthers(WithPart(t, reportId, chunks[0]), reportId, chunks[1..], other);
    }
  }

  /** From a report with no rows, N appends give parts numbered exactly 1..N whose
      contents are the chunks in append order. */
  lemma AppendAllFromEmpty(t: Table, reportId: string, chunks: seq<string>)
    requires PartsOf(t, reportId) == []
    ensures var ps := PartsOf(AppendAll(t, reportId, chunks), reportId);
      |ps| == |chunks| &&
      (forall i :: 0 <= i < |ps| ==> ps[i].part == i + 1 && ps[i].content == chunks[i])
  {
    AppendAllParts(t, reportId, chunks);
    assert [] + NewParts(0, chunks) == NewParts(0, chunks);
    forall i | 0 <= i < |chunks|
      ensures NewParts(0, chunks)[i].part == i + 1 && NewParts(0, chunks)[i].content == chunks[i]
    {
      NewPartsAt(0, chunks, i);
    }
  }

  /** The contents of the rows folded left to right, starting from the empty
      string, as generateReport's reduce over the selected rows folds them. */
  function Concat(ps: seq<Part>): string {
    if ps == [] then "" else Concat(ps[..|ps| - 1]) + ps[|ps| - 1].content
  }

  /** The fold only ever extends what it has built: the content of the first k
      rows starts the content of all of them. */
  lemma {:induction false} ConcatPrefix(ps: seq<Part>, k: nat)
    requires k <= |ps|
    ensures Concat(ps[..k]) <= Concat(ps)
    decreases |ps| - k
  {
    if k < |ps| {
      ConcatPrefix(ps, k + 1);
      var init := ps[..k + 1];
      assert init[..k] == ps[..k];
      assert Concat(init) == Concat(ps[..k]) + ps[k].content;
    } else {
      assert ps[..k] == ps;
    }
  }

  /** The chunks one after another (a reference definition folded from the right). */
  function Flatten(chunks: seq<string>): string {
    if chunks == [] then "" else chunks[0] + Flatten(chunks[1..])
  }

  lemma {:induction false} FlattenSnoc(chunks: seq<string>, c: string)
    ensures Flatten(chunks + [c]) == Flatten(chunks) + c
  {
    if chunks == [] {
      assert [] + [c] == [c];
      assert Flatten([c]) == c + Flatten([]);
    } else {
      assert (chunks + [c])[1..] == chunks[1..] + [c];
      FlattenSnoc(chunks[1..], c);
    }
  }

  /** Concatenating rows numbered in append order gives the chunks in append order. */
  lemma {:induction false} ConcatOfChunks(ps: seq<Part>, chunks: seq<string>)
    requires |ps| == |chunks|
    requires forall i :: 0 <= i < |ps| ==> ps[i].content == chunks[i]
    ensures Concat(ps) == Flatten(chunks)
  {
    if ps != [] {
      var n := |ps| - 1;
      ConcatOfChunks(ps[..n], chunks[..n]);
      FlattenSnoc(chunks[..n], chunks[n]);
      assert chunks[..n] + [chunks[n]] == chunks;
    }
  }

  /** The assembled content of a report that received the chunks, in that order,
      is their concatenation; it is "" when there were none. */
  lemma AssembleAppendAll(t: Table, reportId: string, chunks: seq<string>)
    requires PartsOf(t, reportId) == []
    ensures Concat(PartsOf(AppendAll(t, reportId, chunks), reportId)) == Flatten(chunks)
  {
    AppendAllFromEmpty(t, reportId, chunks);
    ConcatOfChunks(PartsOf(AppendAll(t, reportId, chunks), reportId), chunks);
  }

  /** The reduce of generateReport, as the loop it performs. */
  method ReduceContents(ps: seq<Part>) returns (content: string)
    ensures content == Concat(ps)
  {
    content := "";
    for i := 0 to |ps|
      invariant content == Concat(ps[..i])
    {
      assert ps[..i + 1][..i] == ps[..i];
      content := content + ps[i].content;
    }
    assert ps[..|ps|] == ps;
  }

  /** The table as objects see it: rows only ever appended. */
  class DetailTable {
    var rows: Table

    /** Every report's rows are numbered 1..N in stored order. */
    ghost predicate Valid()
      reads this
    {
      forall id :: id in rows ==> Numbered(rows[id])
    }

    constructor ()
      ensures Valid() && rows == map[]
    {
      rows := map[];
    }

    /** countByExample with criterion reportId = reportId. */
    method CountByReport(reportId: string) returns (n: nat)
      ensures n == |PartsOf(rows, reportId)|
    {
      n := if reportId in rows then |rows[reportId]| else 0;
    }

    /** insert: the row goes after the report's existing rows. Numbering stays
        1..N exactly when the new row carries the count plus one. */
    method Insert(reportId: string, record: Part)
      modifies this
      ensures rows == old(rows)[reportId := old(PartsOf(rows, reportId)) + [record]]
      ensures old(Valid()) && record.part == |old(PartsOf(rows, reportId))| + 1 ==> Valid()
    {
      rows := rows[reportId := PartsOf(rows, reportId) + [record]];
    }

    /** selectByExampleWithBLOBs with criterion reportId = reportId, ordered by part. */
    method SelectOrdered(reportId: string) returns (ps: seq<Part>)
      requires Valid()
      ensures ps == PartsOf(rows, reportId)
      ensures Ascending(ps)
    {
      ps := PartsOf(rows, reportId);
    }
  }
}
