/** `generator_loop` in a run of its own: reserving, filling one batch after
    another, and handing each over. */
module Generation {
  import opened Wrappers
  import opened Numerals
  import opened DorisTypes
  import opened Values
  import opened Flatten
  import opened Columns
  import opened Pipeline
  import opened Batches

  /** What a row source gives for each column name, row by row. */
  type Source = nat -> (string -> Option<Value>)

  /** The row numbered `n`, with a value for every column. */
  predicate IsRow(columns: seq<Column>, source: Source, n: nat, row: seq<Value>) {
    && (forall k | 0 <= k < |columns| :: source(n)(columns[k].name).Some?)
    && row == LookedUp(columns, source(n))
  }

  /** The table is the source's rows from `first` on. */
  ghost predicate Reads(columns: seq<Column>, source: Source, first: nat, table: seq<seq<Value>>) {
    forall i | 0 <= i < |table| :: IsRow(columns, source, first + i, table[i])
  }

  lemma ReadsOn(columns: seq<Column>, source: Source, first: nat, before: seq<seq<Value>>, table: seq<seq<Value>>)
    requires Reads(columns, source, first, before) && Reads(columns, source, first + |before|, table)
    ensures Reads(columns, source, first, before + table)
  {
    forall i | 0 <= i < |before + table|
      ensures IsRow(columns, source, first + i, (before + table)[i])
    {
      if i >= |before| {
        assert IsRow(columns, source, first + |before| + (i - |before|), table[i - |before|]);
      }
    }
  }

  /** A taken row reads on. */
  lemma RowReadsOn(codec: Codec, columns: seq<Column>, source: Source, first: nat, before: seq<seq<Value>>, n: nat)
    requires n == first + |before| && Reads(columns, source, first, before)
    requires forall k | 0 <= k < |columns| :: TakesValue(codec, columns[k], source(n)(columns[k].name))
    ensures forall k | 0 <= k < |columns| :: source(n)(columns[k].name).Some?
    ensures Reads(columns, source, first, before + [LookedUp(columns, source(n))])
  {
    TakenIsRow(codec, columns, source, n);
    ReadsOn(columns, source, first, before, [LookedUp(columns, source(n))]);
  }

  lemma TakenIsRow(codec: Codec, columns: seq<Column>, source: Source, n: nat)
    requires forall k | 0 <= k < |columns| :: TakesValue(codec, columns[k], source(n)(columns[k].name))
    ensures forall k | 0 <= k < |columns| :: source(n)(columns[k].name).Some?
    ensures IsRow(columns, source, n, LookedUp(columns, source(n)))
  {
    forall k | 0 <= k < |columns|
      ensures source(n)(columns[k].name).Some?
    {
      assert TakesValue(codec, columns[k], source(n)(columns[k].name));
    }
  }

  /** One turn of the inner loop: the source's next row. */
  method AddRow(builder: BatchBuilder, source: Source, first: nat, i: nat) returns (ok: bool)
    requires builder.Valid() && |builder.table| == i && Reads(builder.columns, source, first, builder.table)
    modifies builder, builder.builders
    ensures builder.builders == old(builder.builders)
    ensures ok ==> builder.Valid() && |builder.table| == i + 1
                   && Reads(builder.columns, source, first, builder.table)
  {
    ghost var before := builder.table;
    ok := builder.AppendRow(source(first + i));
    if ok {
      RowReadsOn(builder.codec, builder.columns, source, first, before, first + i);
    }
  }

  /** The inner loop: one row after another into an empty builder. */
  method FillBatch(builder: BatchBuilder, source: Source, first: nat, count: nat) returns (ok: bool)
    requires builder.Valid() && builder.table == []
    modifies builder, builder.builders
    ensures builder.builders == old(builder.builders)
    ensures ok ==> builder.Valid() && |builder.table| == count
                   && Reads(builder.columns, source, first, builder.table)
  {
    for i := 0 to count
      invariant builder.builders == old(builder.builders)
      invariant builder.Valid() && |builder.table| == i
      invariant Reads(builder.columns, source, first, builder.table)
    {
      ok := AddRow(builder, source, first, i);
      if !ok {
        return;
      }
    }
    ok := true;
  }

  /** A batch that was sent holds its rows. */
  ghost predicate Sent(codec: Codec, columns: seq<Column>, table: seq<seq<Value>>, batch: RecordBatch) {
    Rectangular(table, |columns|) && BatchHolds(codec, columns, table, batch)
  }

  /** One turn's work: the next rows of the source as a finished batch. */
  method MakeBatch(builder: BatchBuilder, source: Source, first: nat, count: nat)
    returns (batch: Option<RecordBatch>, rows: nat, ghost table: seq<seq<Value>>)
    requires builder.Valid() && builder.table == []
    modifies builder, builder.builders
    ensures batch.Some? ==>
              && builder.Valid() && builder.table == [] && fresh(builder.builders)
              && rows == count == |table| && Reads(builder.columns, source, first, table)
              && Sent(builder.codec, builder.columns, table, batch.value)
  {
    var filled := FillBatch(builder, source, first, count);
    if !filled {
      return None, 0, [];
    }
    table, rows := builder.table, builder.rows;
    batch := builder.Finish();
  }

  /** Full batches, but perhaps the last. */
  predicate InSteps(sizes: seq<nat>, batchRows: nat) {
    && (forall b | 0 <= b < |sizes| :: 1 <= sizes[b] <= batchRows)
    && (forall b | 0 <= b < |sizes| - 1 :: sizes[b] == batchRows)
  }

  function Sizes(tables: seq<seq<seq<Value>>>): seq<nat> {
    seq(|tables|, b requires 0 <= b < |tables| => |tables[b]|)
  }

  ghost predicate AllSent(codec: Codec, columns: seq<Column>, tables: seq<seq<seq<Value>>>, sent: seq<RecordBatch>) {
    |sent| == |tables| && forall b | 0 <= b < |tables| :: Sent(codec, columns, tables[b], sent[b])
  }

  /** The sent batches hold the source's rows in order, without gaps, in batches
      of the full size but perhaps the last. */
  ghost predicate Streams(codec: Codec, columns: seq<Column>, source: Source, batchRows: nat,
                          tables: seq<seq<seq<Value>>>, sent: seq<RecordBatch>) {
    && AllSent(codec, columns, tables, sent) && InSteps(Sizes(tables), batchRows)
    && Reads(columns, source, 0, Concat(tables))
  }

  lemma AllSentOn(codec: Codec, columns: seq<Column>, tables: seq<seq<seq<Value>>>, sent: seq<RecordBatch>,
                  table: seq<seq<Value>>, batch: RecordBatch)
    requires AllSent(codec, columns, tables, sent) && Sent(codec, columns, table, batch)
    ensures AllSent(codec, columns, tables + [table], sent + [batch])
  {
    var tables', sent' := tables + [table], sent + [batch];
    forall b | 0 <= b < |tables'|
      ensures Sent(codec, columns, tables'[b], sent'[b])
    {
    }
  }

  lemma ConcatOn(tables: seq<seq<seq<Value>>>, table: seq<seq<Value>>)
    ensures Concat(tables + [table]) == Concat(tables) + table
    ensures Sizes(tables + [table]) == Sizes(tables) + [|table|]
  {
    assert (tables + [table])[..|tables|] == tables;
  }

  lemma InStepsOn(sizes: seq<nat>, batchRows: nat, next: nat)
    requires InSteps(sizes, batchRows) && 1 <= next <= batchRows
    requires sizes == [] || sizes[|sizes| - 1] == batchRows
    ensures InSteps(sizes + [next], batchRows)
  {
  }

  lemma StreamsOn(columns: seq<Column>, source: Source, batchRows: nat, tables: seq<seq<seq<Value>>>,
                  table: seq<seq<Value>>)
    requires InSteps(Sizes(tables), batchRows) && Reads(columns, source, 0, Concat(tables))
    requires tables == [] || |tables[|tables| - 1]| == batchRows
    requires 1 <= |table| <= batchRows && Reads(columns, source, |Concat(tables)|, table)
    ensures InSteps(Sizes(tables + [table]), batchRows) && Reads(columns, source, 0, Concat(tables + [table]))
    ensures |Concat(tables + [table])| == |Concat(tables)| + |table|
  {
    ConcatOn(tables, table);
    InStepsOn(Sizes(tables), batchRows, |table|);
    ReadsOn(columns, source, 0, Concat(tables), table);
  }

  /** One generator alone with the row counter. `stops` is the deadline or size
      check before each turn, `takes` whether the queue still has receivers.
      The counter gives up exactly the rows sent, and at most one batch more
      when the loop failed or lost its queue. */
  method GeneratorLoop(builder: BatchBuilder, source: Source, budget: nat, batchRows: nat,
                       stops: nat -> bool, takes: nat -> bool)
    returns (ok: bool, remaining: nat, generated: nat, sent: seq<RecordBatch>, ghost tables: seq<seq<seq<Value>>>)
    requires builder.Valid() && builder.table == [] && batchRows >= 1
    modifies builder, builder.builders
    ensures Streams(builder.codec, builder.columns, source, batchRows, tables, sent)
    ensures generated == |Concat(tables)| && generated + remaining <= budget <= generated + remaining + batchRows
    ensures ok && (forall b: nat :: takes(b)) ==> generated + remaining == budget
    ensures ok && (forall b: nat :: takes(b) && !stops(b)) ==> generated == budget
  {
    remaining, generated, sent, tables := budget, 0, [], [];
    while true
      invariant builder.builders == old(builder.builders) || fresh(builder.builders)
      invariant builder.Valid() && builder.table == []
      invariant Streams(builder.codec, builder.columns, source, batchRows, tables, sent)
      invariant generated + remaining == budget && generated == |Concat(tables)|
      invariant remaining > 0 && tables != [] ==> |tables[|tables| - 1]| == batchRows
      decreases remaining
    {
      if stops(|sent|) {
        return true, remaining, generated, sent, tables;
      }
      var target := Min(batchRows, remaining);
      remaining := remaining - target;
      if target == 0 {
        return true, remaining, generated, sent, tables;
      }
      var batch, rows, table := MakeBatch(builder, source, generated, target);
      if batch.None? {
        return false, remaining, generated, sent, tables;
      }
      if !takes(|sent|) {
        return true, remaining, generated, sent, tables;
      }
      StreamsOn(builder.columns, source, batchRows, tables, table);
      AllSentOn(builder.codec, builder.columns, tables, sent, table, batch.value);
      sent, tables := sent + [batch.value], tables + [table];
      generated := generated + rows;
    }
  }
}
