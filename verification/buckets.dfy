/** The table and column description buckets ApplyManager accumulates while
    it turns DML table results into graph updates
    (_record_table_summary and _record_column_summary in
    temp/analysis_async_refactor.py). Buckets are keyed by the upper-cased
    schema and table name; a bucket holds a set of table descriptions and,
    per upper-cased column name, the column's first-seen spelling and a set
    of column descriptions. */
module Buckets {

  import opened Wrappers
  import opened Text

  datatype TableKey = TableKey(schema: string, name: string)

  datatype ColumnBucket = ColumnBucket(name: string, summaries: set<string>)

  datatype TableBucket = TableBucket(summaries: set<string>, columns: map<string, ColumnBucket>)

  type TableStore = map<TableKey, TableBucket>

  const EmptyBucket := TableBucket({}, map[])

  /** Python's `a or b` for an optional string: `a` unless it is None or
      empty. */
  function Or(a: Option<string>, b: string): (r: string)
    ensures a.Some? && a.value != [] ==> r == a.value
    ensures (a.None? || a.value == []) ==> r == b
  {
    if a.Some? && a.value != [] then a.value else b
  }

  /** The key of a table: `((schema or '').upper(), name.upper())`. */
  function KeyOf(schema: string, name: string): (k: TableKey)
    ensures k.schema == Upper(schema) && k.name == Upper(name)
  {
    TableKey(Upper(schema), Upper(name))
  }

  function BucketOf(store: TableStore, key: TableKey): TableBucket
  {
    if key in store then store[key] else EmptyBucket
  }

  /** _record_table_summary: makes sure the table's bucket exists and adds
      the stripped description when it is not blank. */
  function RecordTable(store: TableStore, schema: string, name: string, description: Option<string>): (r: TableStore)
    ensures r.Keys == store.Keys + {KeyOf(schema, name)}
  {
    AddTableSummary(store, KeyOf(schema, name), Strip(Or(description, "")))
  }

  function AddTableSummary(store: TableStore, key: TableKey, text: string): (r: TableStore)
    ensures r.Keys == store.Keys + {key}
  {
    var bucket := BucketOf(store, key);
    store[key := if text != [] then bucket.(summaries := bucket.summaries + {text}) else bucket]
  }

  /** _record_column_summary: a blank description changes nothing; otherwise
      the table's bucket is created if needed, the column entry under the
      upper-cased name is created with this spelling if needed, and the
      stripped description is added to it. */
  function RecordColumn(store: TableStore, key: TableKey, columnName: string, description: string): (r: TableStore)
  {
    var text := Strip(description);
    if text == [] then store
    else
      var bucket := BucketOf(store, key);
      var canonical := Upper(columnName);
      var entry := if canonical in bucket.columns then bucket.columns[canonical] else ColumnBucket(columnName, {});
      store[key := bucket.(columns := bucket.columns[canonical := entry.(summaries := entry.summaries + {text})])]
  }

  lemma {:induction false} UpperIdempotent(s: string)
    ensures Upper(Upper(s)) == Upper(s)
  {
  }

  /** A table's bucket is found under the upper-cased schema and name, and
      the stripped description lands in it exactly when it is not empty
      (StripEmptyIffBlank: when the description is not blank); every other
      bucket is untouched. */
  lemma {:induction false} RecordTableEffect(store: TableStore, schema: string, name: string, description: Option<string>)
    ensures var r := RecordTable(store, schema, name, description);
            var key := KeyOf(schema, name);
            var text := Strip(Or(description, ""));
            && r.Keys == store.Keys + {key}
            && r[key].columns == BucketOf(store, key).columns
            && r[key].summaries == BucketOf(store, key).summaries + (if text == [] then {} else {text})
            && (forall k :: k in store && k != key ==> r[k] == store[k])
  {
    var key := KeyOf(schema, name);
    var text := Strip(Or(description, ""));
    assert RecordTable(store, schema, name, description) == AddTableSummary(store, key, text);
  }

  /** Recording is case-insensitive in the schema and table name. */
  lemma {:induction false} RecordTableIgnoresCase(store: TableStore, schema: string, name: string, description: Option<string>)
    ensures RecordTable(store, Upper(schema), Upper(name), description) == RecordTable(store, schema, name, description)
  {
    var key := KeyOf(schema, name);
    UpperIdempotent(schema);
    UpperIdempotent(name);
    assert KeyOf(Upper(schema), Upper(name)) == key;
    var text := Strip(Or(description, ""));
    assert RecordTable(store, Upper(schema), Upper(name), description) == AddTableSummary(store, key, text);
    assert RecordTable(store, schema, name, description) == AddTableSummary(store, key, text);
  }

  /** Recording the same description twice is the same as recording it
      once: descriptions form a set. */
  lemma {:induction false} RecordTableIdempotent(store: TableStore, schema: string, name: string, description: Option<string>)
    ensures RecordTable(RecordTable(store, schema, name, description), schema, name, description)
            == RecordTable(store, schema, name, description)
  {
    var key := KeyOf(schema, name);
    var text := Strip(Or(description, ""));
    var once := AddTableSummary(store, key, text);
    if text != [] {
      var b := BucketOf(store, key);
      assert BucketOf(once, key) == b.(summaries := b.summaries + {text});
      assert b.summaries + {text} + {text} == b.summaries + {text};
    }
  }

  /** A blank column description leaves the store as it was. */
  lemma {:induction false} RecordColumnBlank(store: TableStore, key: TableKey, columnName: string, description: string)
    requires IsBlank(description)
    ensures RecordColumn(store, key, columnName, description) == store
  {
    StripEmptyIffBlank(description);
  }

  /** A non-blank description reaches the column's entry under its
      upper-cased name; the entry keeps the spelling it was first recorded
      with; nothing else in the store changes. */
  lemma {:induction false} RecordColumnEffect(store: TableStore, key: TableKey, columnName: string, description: string)
    requires !IsBlank(description)
    ensures var r := RecordColumn(store, key, columnName, description);
            var before := BucketOf(store, key);
            var canonical := Upper(columnName);
            && r.Keys == store.Keys + {key}
            && r[key].summaries == before.summaries
            && r[key].columns.Keys == before.columns.Keys + {canonical}
            && r[key].columns[canonical].name == (if canonical in before.columns then before.columns[canonical].name else columnName)
            && r[key].columns[canonical].summaries
               == (if canonical in before.columns then before.columns[canonical].summaries else {}) + {Strip(description)}
            && (forall c :: c in before.columns && c != canonical ==> r[key].columns[c] == before.columns[c])
            && (forall k :: k in store && k != key ==> r[k] == store[k])
  {
    StripEmptyIffBlank(description);
  }

  /** Two spellings of a column name that differ only in case share one
      entry, which keeps the first spelling. */
  lemma {:induction false} RecordColumnFirstSpelling(store: TableStore, key: TableKey, first: string, second: string, d1: string, d2: string)
    requires Upper(first) == Upper(second) && !IsBlank(d1) && !IsBlank(d2)
    requires key !in store || Upper(first) !in store[key].columns
    ensures var r := RecordColumn(RecordColumn(store, key, first, d1), key, second, d2);
            && r[key].columns[Upper(first)].name == first
            && r[key].columns[Upper(first)].summaries == {Strip(d1), Strip(d2)}
  {
    RecordColumnEffect(store, key, first, d1);
    var s1 := RecordColumn(store, key, first, d1);
    RecordColumnEffect(s1, key, second, d2);
    StripEmptyIffBlank(d1);
    StripEmptyIffBlank(d2);
  }

  /** Recording the same column description twice is the same as recording
      it once. */
  lemma {:induction false} RecordColumnIdempotent(store: TableStore, key: TableKey, columnName: string, description: string)
    ensures RecordColumn(RecordColumn(store, key, columnName, description), key, columnName, description)
            == RecordColumn(store, key, columnName, description)
  {
    var text := Strip(description);
    if text != [] {
      var once := RecordColumn(store, key, columnName, description);
      var b := BucketOf(store, key);
      var canonical := Upper(columnName);
      var e := if canonical in b.columns then b.columns[canonical] else ColumnBucket(columnName, {});
      var b1 := BucketOf(once, key);
      assert b1 == b.(columns := b.columns[canonical := e.(summaries := e.summaries + {text})]);
      assert e.summaries + {text} + {text} == e.summaries + {text};
      assert b1.columns[canonical := b1.columns[canonical].(summaries := b1.columns[canonical].summaries + {text})] == b1.columns;
    }
  }
}
