/** EntityGenerator of convert/create_entity.py: each table row read from
    the graph becomes a table description (its columns and, when some
    column is part of the primary key, the list of key columns), and the
    descriptions are packed into batches of at most 3000 tokens, each of
    which is converted into JPA entities whose results are collected in
    order. */
module Entity {

  import opened Wrappers
  import opened Packing

  /** The batch token limit. */
  const MaxTokens := 3000

  datatype Column = Column(name: string, dtype: string, nullable: bool, comment: string, pk: bool)

  /** One row of the table query: `columns` and `schema` may be missing or
      null. */
  datatype TableRow = TableRow(name: Option<string>, schema: Option<string>, columns: Option<seq<Column>>)

  /** `table_info`: `primaryKeys` is the optional `primary_keys` entry. */
  datatype TableInfo = TableInfo(name: Option<string>, schema: string, fields: seq<Column>, primaryKeys: Option<seq<string>>)

  /** One converted entity, as appended to `entity_results`. */
  datatype EntityResult = EntityResult(entityName: string, entityCode: string)

  /** The names of the primary-key columns, in column order. */
  function PrimaryKeys(cols: seq<Column>): (r: seq<string>)
    ensures |r| <= |cols|
  {
    if cols == [] then []
    else PrimaryKeys(cols[..|cols| - 1]) + (if cols[|cols| - 1].pk then [cols[|cols| - 1].name] else [])
  }

  predicate HasPrimaryKey(cols: seq<Column>) {
    exists i :: 0 <= i < |cols| && cols[i].pk
  }

  /** The key list of two runs of columns is the first run's followed by the
      second's, and a single column contributes its name exactly when it is
      a key column: the list keeps column order. */
  lemma {:induction false} PrimaryKeysAppend(a: seq<Column>, b: seq<Column>)
    ensures PrimaryKeys(a + b) == PrimaryKeys(a) + PrimaryKeys(b)
    decreases |b|
  {
    if b == [] {
      assert a + b == a;
    } else {
      var n := |b| - 1;
      assert (a + b)[..|a + b| - 1] == a + b[..n];
      PrimaryKeysAppend(a, b[..n]);
    }
  }

  /** The key list is empty exactly when no column is a key column. */
  lemma {:induction false} PrimaryKeysEmpty(cols: seq<Column>)
    ensures PrimaryKeys(cols) == [] <==> !HasPrimaryKey(cols)
  {
    if cols != [] {
      var n := |cols| - 1;
      PrimaryKeysEmpty(cols[..n]);
      if HasPrimaryKey(cols[..n]) {
        var i :| 0 <= i < n && cols[..n][i].pk;
        assert cols[i] == cols[..n][i];
      }
      if HasPrimaryKey(cols) && !cols[n].pk {
        var i :| 0 <= i < |cols| && cols[i].pk;
        assert cols[..n][i] == cols[i];
      }
    }
  }

  /** The table description built for a row: missing columns become an
      empty list and a missing schema the empty string; `primary_keys` is
      present exactly when some column is a key column and then lists the
      key columns in order. */
  function TableInfoOf(row: TableRow): (t: TableInfo)
    ensures t.name == row.name
    ensures t.fields == (if row.columns.Some? then row.columns.value else [])
    ensures t.schema == (if row.schema.Some? then row.schema.value else [])
    ensures t.primaryKeys.Some? <==> HasPrimaryKey(t.fields)
    ensures t.primaryKeys.Some? ==> t.primaryKeys.value == PrimaryKeys(t.fields)
  {
    var cols := if row.columns.Some? then row.columns.value else [];
    var pks := PrimaryKeys(cols);
    PrimaryKeysEmpty(cols);
    TableInfo(row.name, if row.schema.Some? then row.schema.value else [], cols, if pks != [] then Some(pks) else None)
  }

  /** The table descriptions with the token counts the tokenizer gives
      them. */
  function Sizes(rows: seq<TableRow>, tokens: seq<int>): (xs: seq<Sized<TableInfo>>)
    requires |tokens| == |rows|
    ensures |xs| == |rows|
    ensures forall i :: 0 <= i < |rows| ==> xs[i] == Sized(TableInfoOf(rows[i]), tokens[i])
  {
    seq(|rows|, i requires 0 <= i < |rows| => Sized(TableInfoOf(rows[i]), tokens[i]))
  }

  class EntityGenerator {

    /** `entity_results`. */
    var entityResults: seq<EntityResult>

    constructor()
      ensures entityResults == []
    {
      entityResults := [];
    }

    /** generate, up to the conversion of each batch: no rows means no
        result and no batch; otherwise the results start empty and the rows
        are packed into batches. */
    method Generate(rows: seq<TableRow>, tokens: seq<int>) returns (batches: seq<seq<Sized<TableInfo>>>)
      requires |tokens| == |rows|
      modifies this
      ensures rows == [] ==> batches == [] && entityResults == old(entityResults)
      ensures rows != [] ==> batches == Batches(Sizes(rows, tokens), MaxTokens) && entityResults == []
    {
      if rows == [] {
        return [];
      }
      entityResults := [];
      batches := ProcessTables(rows, tokens);
    }

    /** _process_tables: the batches handed to _flush_batch, in order;
        `tokens[i]` is the token count of the i-th row's description. */
    method ProcessTables(rows: seq<TableRow>, tokens: seq<int>) returns (batches: seq<seq<Sized<TableInfo>>>)
      requires |tokens| == |rows|
      ensures batches == Batches(Sizes(rows, tokens), MaxTokens)
    {
      ghost var xs := Sizes(rows, tokens);
      var current := 0;
      var batch: seq<Sized<TableInfo>> := [];
      batches := [];
      for i := 0 to |rows|
        invariant batches + Pack(xs[i..], MaxTokens, batch, current, false) == Batches(xs, MaxTokens)
      {
        var info := TableInfoOf(rows[i]);
        var t := tokens[i];
        var x := Sized(info, t);
        assert xs[i..] == [x] + xs[i + 1..];
        PackLoopStep(batches, Batches(xs, MaxTokens), MaxTokens, batch, current, false, x, xs[i + 1..]);
        if batch != [] && current + t >= MaxTokens {
          batches := batches + [batch];
          batch, current := [], 0;
        }
        batch := batch + [x];
        current := current + t;
      }
      if batch != [] {
        batches := batches + [batch];
      }
    }

    /** The result loop of _flush_batch: one result per converted entity,
        in order (writing the Java file is not modelled). */
    method FlushBatch(converted: seq<EntityResult>)
      modifies this
      ensures entityResults == old(entityResults) + converted
    {
      for i := 0 to |converted|
        invariant entityResults == old(entityResults) + converted[..i]
      {
        entityResults := entityResults + [converted[i]];
        assert converted[..i + 1] == converted[..i] + [converted[i]];
      }
      assert converted[..|converted|] == converted;
    }
  }

  /** Every table lands in exactly one batch, in order; every batch is
      non-empty; a batch of two or more tables stays under 3000 tokens
      while a single table may exceed it; and a batch is closed only when
      the next table would take it to 3000. */
  lemma {:induction false} ProcessTablesBatches(rows: seq<TableRow>, tokens: seq<int>)
    requires |tokens| == |rows|
    ensures var bs := Batches(Sizes(rows, tokens), MaxTokens);
            && Flatten(bs) == Sizes(rows, tokens)
            && WellPacked(bs, MaxTokens)
            && (bs == [] <==> rows == [])
  {
    BatchesSpec(Sizes(rows, tokens), MaxTokens);
  }
}
