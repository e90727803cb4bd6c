/**
 * The relation-aggregation half of the cfs collector's cycle: one pass over
 * the compressed relations of every database that builds the discovery list
 * and sums the compressed and uncompressed sizes, followed by the total
 * compression ratio.
 */
module Aggregation {
  import opened Wrappers

  /** One row of the compression query: relation name, compression ratio, compressed size in bytes. */
  datatype Row = Row(name: string, ratio: real, size: nat)

  /** The rows one database returned, in the order they came back. */
  datatype Database = Database(name: string, rows: seq<Row>)

  /** A row tagged with the database it came from. */
  datatype Entry = Entry(db: string, row: Row)

  /** The error Python raises when the summed compressed size is zero. */
  datatype Error = ZeroDivisionError

  /** The discovery macro value of a relation: database name, a dot, relation name. */
  function QualifiedName(db: string, name: string): (q: string)
    ensures |q| == |db| + 1 + |name|
    ensures q[..|db|] == db && q[|db|] == '.' && q[|db| + 1..] == name
  {
    db + "." + name
  }

  /** The rows of one database, each tagged with that database. */
  function Tag(d: Database): (es: seq<Entry>)
    ensures |es| == |d.rows|
    ensures forall k :: 0 <= k < |es| ==> es[k] == Entry(d.name, d.rows[k])
  {
    seq(|d.rows|, k requires 0 <= k < |d.rows| => Entry(d.name, d.rows[k]))
  }

  /** Iteration order of the collector: databases in order, then rows in the order returned. */
  function Entries(dbs: seq<Database>): seq<Entry>
  {
    if dbs == [] then [] else Entries(dbs[..|dbs| - 1]) + Tag(dbs[|dbs| - 1])
  }

  /** Reference definition of the summed compressed size. */
  function CompressedSize(es: seq<Entry>): nat
  {
    if es == [] then 0 else es[0].row.size + CompressedSize(es[1..])
  }

  /** Reference definition of the summed uncompressed size, size times ratio per row. */
  function NonCompressedSize(es: seq<Entry>): real
  {
    if es == [] then 0.0 else es[0].row.size as real * es[0].row.ratio + NonCompressedSize(es[1..])
  }

  /** Reference definition of the discovery list. */
  function RelationNames(es: seq<Entry>): (names: seq<string>)
    ensures |names| == |es|
  {
    if es == [] then [] else [QualifiedName(es[0].db, es[0].row.name)] + RelationNames(es[1..])
  }

  /** The total compression ratio; there is no guard, so a zero compressed size raises. */
  function TotalRatio(compressed: nat, nonCompressed: real): (r: Result<real, Error>)
    ensures r.Failure? <==> compressed == 0
    ensures r.Success? ==> r.value * compressed as real == nonCompressed
  {
    if compressed == 0 then Failure(ZeroDivisionError) else Success(nonCompressed / compressed as real)
  }

  lemma {:induction false} CompressedSizeAppend(a: seq<Entry>, b: seq<Entry>)
    ensures CompressedSize(a + b) == CompressedSize(a) + CompressedSize(b)
    decreases |a|
  {
    if a == [] {
      assert a + b == b;
    } else {
      assert (a + b)[1..] == a[1..] + b;
      CompressedSizeAppend(a[1..], b);
    }
  }

  lemma {:induction false} NonCompressedSizeAppend(a: seq<Entry>, b: seq<Entry>)
    ensures NonCompressedSize(a + b) == NonCompressedSize(a) + NonCompressedSize(b)
    decreases |a|
  {
    if a == [] {
      assert a + b == b;
    } else {
      assert (a + b)[1..] == a[1..] + b;
      NonCompressedSizeAppend(a[1..], b);
    }
  }

  lemma {:induction false} RelationNamesAppend(a: seq<Entry>, b: seq<Entry>)
    ensures RelationNames(a + b) == RelationNames(a) + RelationNames(b)
    decreases |a|
  {
    if a == [] {
      assert a + b == b;
    } else {
      assert (a + b)[1..] == a[1..] + b;
      RelationNamesAppend(a[1..], b);
    }
  }

  /** Iteration visits as many rows as the databases returned together. */
  lemma {:induction false} EntriesLength(dbs: seq<Database>)
    ensures |Entries(dbs)| == RowCount(dbs)
    decreases |dbs|
  {
    if dbs != [] {
      EntriesLength(dbs[..|dbs| - 1]);
    }
  }

  /** Total number of rows over all databases. */
  function RowCount(dbs: seq<Database>): nat
  {
    if dbs == [] then 0 else RowCount(dbs[..|dbs| - 1]) + |dbs[|dbs| - 1].rows|
  }

  /** The discovery list names each row as database-dot-relation, in iteration order. */
  lemma {:induction false} RelationNamesPointwise(es: seq<Entry>)
    ensures forall k :: 0 <= k < |es| ==> RelationNames(es)[k] == QualifiedName(es[k].db, es[k].row.name)
    decreases |es|
  {
    if es != [] {
      RelationNamesPointwise(es[1..]);
      forall k | 0 <= k < |es|
        ensures RelationNames(es)[k] == QualifiedName(es[k].db, es[k].row.name)
      {
        if k > 0 {
          assert RelationNames(es)[k] == RelationNames(es[1..])[k - 1];
        }
      }
    }
  }

  /** The summed compressed size is zero exactly when every row has size zero, the empty row set included. */
  lemma {:induction false} CompressedSizeZero(es: seq<Entry>)
    ensures CompressedSize(es) == 0 <==> forall k :: 0 <= k < |es| ==> es[k].row.size == 0
    decreases |es|
  {
    if es != [] {
      CompressedSizeZero(es[1..]);
      assert forall k :: 1 <= k < |es| ==> es[k] == es[1..][k - 1];
    }
  }

  /**
   * Adding one row to a bracketed sum keeps it bracketed: a row of size w
   * and ratio x in [lo, hi] contributes between lo * w and hi * w.
   */
  lemma AddRowBounds(w: real, x: real, rest: real, nc: real, lo: real, hi: real)
    requires w >= 0.0 && lo <= x <= hi
    requires lo * rest <= nc <= hi * rest
    ensures lo * (w + rest) <= w * x + nc <= hi * (w + rest)
  {
    assert (x - lo) * w >= 0.0;
    assert (hi - x) * w >= 0.0;
    assert lo * (w + rest) == lo * w + lo * rest;
    assert hi * (w + rest) == hi * w + hi * rest;
  }

  /** The uncompressed size is bracketed by the smallest and largest ratio times the compressed size. */
  lemma {:induction false} NonCompressedSizeBounds(es: seq<Entry>, lo: real, hi: real)
    requires forall k :: 0 <= k < |es| ==> lo <= es[k].row.ratio <= hi
    ensures lo * CompressedSize(es) as real <= NonCompressedSize(es) <= hi * CompressedSize(es) as real
    decreases |es|
  {
    if es != [] {
      assert forall k :: 0 <= k < |es[1..]| ==> es[1..][k] == es[k + 1];
      NonCompressedSizeBounds(es[1..], lo, hi);
      AddRowBounds(es[0].row.size as real, es[0].row.ratio,
        CompressedSize(es[1..]) as real, NonCompressedSize(es[1..]), lo, hi);
    }
  }

  /** A quotient t = nc / c with c > 0 lies in [lo, hi] when nc lies in [lo * c, hi * c]. */
  lemma QuotientBounds(c: real, nc: real, t: real, lo: real, hi: real)
    requires c > 0.0 && t * c == nc
    requires lo * c <= nc <= hi * c
    ensures lo <= t <= hi
  {
    assert (t - lo) * c >= 0.0;
    assert (hi - t) * c >= 0.0;
  }

  /**
   * The total ratio is a size-weighted mean of the row ratios: when every
   * ratio lies in [lo, hi], so does the total.
   */
  lemma TotalRatioWithinRowRatios(es: seq<Entry>, lo: real, hi: real)
    requires forall k :: 0 <= k < |es| ==> lo <= es[k].row.ratio <= hi
    requires CompressedSize(es) != 0
    ensures var t := TotalRatio(CompressedSize(es), NonCompressedSize(es));
      t.Success? && lo <= t.value <= hi
  {
    NonCompressedSizeBounds(es, lo, hi);
    var t := TotalRatio(CompressedSize(es), NonCompressedSize(es));
    QuotientBounds(CompressedSize(es) as real, NonCompressedSize(es), t.value, lo, hi);
  }

  /** The totals the loop of the collector accumulates. */
  datatype Totals = Totals(relations: seq<string>, compressed: nat, nonCompressed: real)

  /** The running totals after also visiting the given rows. */
  function Extend(t: Totals, es: seq<Entry>): Totals
  {
    Totals(t.relations + RelationNames(es), t.compressed + CompressedSize(es),
           t.nonCompressed + NonCompressedSize(es))
  }

  /** The inner loop of the collector: visit the rows of one database in the order returned. */
  method AggregateRows(d: Database, t0: Totals) returns (t: Totals)
    ensures t == Extend(t0, Tag(d))
  {
    t := t0;
    var j := 0;
    while j < |d.rows|
      invariant 0 <= j <= |d.rows|
      invariant t == Extend(t0, Tag(d)[..j])
    {
      var row := d.rows[j];
      ghost var done := Tag(d)[..j];
      assert Tag(d)[..j + 1] == done + [Entry(d.name, row)];
      RelationNamesAppend(done, [Entry(d.name, row)]);
      CompressedSizeAppend(done, [Entry(d.name, row)]);
      NonCompressedSizeAppend(done, [Entry(d.name, row)]);
      t := Totals(t.relations + [QualifiedName(d.name, row.name)], t.compressed + row.size,
                  t.nonCompressed + row.size as real * row.ratio);
      j := j + 1;
    }
    assert Tag(d)[..j] == Tag(d);
  }

  /**
   * The nested loop of the collector: for each database, for each row, append
   * the qualified name to the discovery list and add size and size times
   * ratio to the two running sums, both starting from zero.
   */
  method Aggregate(dbs: seq<Database>) returns (t: Totals)
    ensures t.relations == RelationNames(Entries(dbs))
    ensures t.compressed == CompressedSize(Entries(dbs))
    ensures t.nonCompressed == NonCompressedSize(Entries(dbs))
  {
    t := Totals([], 0, 0.0);
    var i := 0;
    while i < |dbs|
      invariant 0 <= i <= |dbs|
      invariant t == Totals(RelationNames(Entries(dbs[..i])), CompressedSize(Entries(dbs[..i])),
                            NonCompressedSize(Entries(dbs[..i])))
    {
      ghost var before := Entries(dbs[..i]);
      assert dbs[..i + 1][..i] == dbs[..i];
      assert Entries(dbs[..i + 1]) == before + Tag(dbs[i]);
      RelationNamesAppend(before, Tag(dbs[i]));
      CompressedSizeAppend(before, Tag(dbs[i]));
      NonCompressedSizeAppend(before, Tag(dbs[i]));
      t := AggregateRows(dbs[i], t);
      i := i + 1;
    }
    assert dbs[..i] == dbs;
  }
}
