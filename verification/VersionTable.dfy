/** The queries that read one version's sparse rows, and the tables' update operations. */
module VersionTable {
  import opened Arithmetic
  import opened Tables

  ghost predicate NoRows(rows: map<nat, Row>, lo: nat, hi: nat) {
    forall k :: lo <= k < hi ==> k !in rows
  }

  /** The keys are those of all rows of a window, in ascending order. */
  ghost predicate Enumerates(keys: seq<nat>, rows: map<nat, Row>, lo: nat, hi: nat) {
    if keys == [] then NoRows(rows, lo, hi)
    else
      && lo <= keys[0] < hi && keys[0] in rows && NoRows(rows, lo, keys[0])
      && Enumerates(keys[1..], rows, keys[0] + 1, hi)
  }

  /** Result of a range query on block rows, ordered by index. */
  function WindowKeys(rows: map<nat, Row>, lo: nat, hi: nat): (keys: seq<nat>)
    ensures Enumerates(keys, rows, lo, hi)
    decreases hi - lo
  {
    if hi <= lo then []
    else if lo in rows then
      assert ([lo] + WindowKeys(rows, lo + 1, hi))[1..] == WindowKeys(rows, lo + 1, hi);
      [lo] + WindowKeys(rows, lo + 1, hi)
    else WindowKeys(rows, lo + 1, hi)
  }

  /** The first `n` blocks have been yielded, each once and in order. */
  ghost predicate Yielded(out: seq<(nat, Row)>, v: Version, n: nat) {
    |out| == n && forall i :: 0 <= i < n ==> out[i] == (i, BlockAt(v, i))
  }

  /** Yields synthesised blocks up to an index below which no further row exists. */
  method Synthesize(out: seq<(nat, Row)>, v: Version, end: nat) returns (more: seq<(nat, Row)>)
    requires |out| <= end && Yielded(out, v, |out|)
    requires NoRows(v.rows, |out|, end)
    ensures Yielded(more, v, end)
  {
    more := out;
    while |more| < end
      invariant |out| <= |more| <= end && Yielded(more, v, |more|)
    {
      more := more + [(|more|, SparseRow(v.blockSize))];
    }
  }

  lemma {:induction false} YieldRow(out: seq<(nat, Row)>, v: Version)
    requires Yielded(out, v, |out|) && |out| in v.rows
    ensures Yielded(out + [(|out|, v.rows[|out|])], v, |out| + 1)
  {
  }

  /** Yields one window: its rows in order, with sparse blocks synthesised in between. */
  method Window(out: seq<(nat, Row)>, v: Version, next: nat) returns (more: seq<(nat, Row)>)
    requires |out| <= next && Yielded(out, v, |out|)
    ensures Yielded(more, v, next)
  {
    var keys: seq<nat> := WindowKeys(v.rows, |out|, next);
    more := out;
    hide WindowKeys, BlockAt;
    for j := 0 to |keys|
      invariant |out| <= |more| <= next && Yielded(more, v, |more|)
      invariant Enumerates(keys[j..], v.rows, |more|, next)
    {
      assert keys[j..][1..] == keys[j + 1..];
      more := Synthesize(more, v, keys[j]);
      YieldRow(more, v);
      more := more + [(keys[j], v.rows[keys[j]])];
    }
    more := Synthesize(more, v, next);
  }

  /**
   * The windowed iteration over a version's blocks: for every window size it yields each index
   * once, in order, with exactly the block that a lookup by index gives.
   */
  method Blocks(v: Version, window: Pos) returns (out: seq<(nat, Row)>)
    ensures |out| == Count(v)
    ensures forall i :: 0 <= i < |out| ==> out[i] == (i, BlockAt(v, i))
  {
    out := [];
    var nextStart: nat := 0;
    while true
      invariant nextStart <= Count(v) && Yielded(out, v, nextStart)
      invariant nextStart == Count(v) ==> nextStart == 0
      decreases Count(v) - nextStart, 1
    {
      nextStart := Min(nextStart + window, Count(v));
      out := Window(out, v, nextStart);
      if nextStart == Count(v) { break; }
    }
  }

  /** Counts the blocks that have no uid: synthesised ones and short ones alike. */
  method SparseBlocksCount(v: Version) returns (n: nat)
    ensures n == CountSparse(Dense(v))
  {
    var nonSparse := set i | i in v.rows && v.rows[i].uid.Some?;
    n := 0;
    for idx := 0 to Count(v)
      invariant n == CountSparse(Dense(v)[..idx])
    {
      assert Dense(v)[..idx + 1][..idx] == Dense(v)[..idx];
      if idx !in nonSparse { n := n + 1; }
    }
    assert Dense(v)[..Count(v)] == Dense(v);
  }

  /** A candidate for deletion, recorded when a version that referenced the uid was removed. */
  datatype Candidate = Candidate(storage: StorageId, uid: BlockUid, date: int)

  /** Rows that `create_blocks` keeps out of a batch, inserted one after another. */
  function Insert(v: Version, batch: seq<(nat, Row)>): Version {
    if batch == [] then v
    else
      var w := Insert(v, batch[..|batch| - 1]);
      var (i, row) := batch[|batch| - 1];
      if Stored(row, v.blockSize) then w.(rows := w.rows[i := row]) else w
  }

  lemma {:induction false} InsertFrame(v: Version, batch: seq<(nat, Row)>)
    ensures Insert(v, batch) == v.(rows := Insert(v, batch).rows)
  {
    if batch == [] {
    } else {
      InsertFrame(v, batch[..|batch| - 1]);
    }
  }

  /** The database tables, and the objects of all storages. */
  class Database {
    var versions: map<VersionId, Version>
    var deleted: multiset<Candidate>
    var objects: Objects

    constructor ()
      ensures versions == map[] && deleted == multiset{} && objects == map[]
    {
      versions, deleted, objects := map[], multiset{}, map[];
    }

    /** Inserts the rows of a batch that are not fully sparse; a row for an index must not exist yet. */
    method CreateBlocks(id: VersionId, batch: seq<(nat, Row)>)
      requires id in versions
      modifies this`versions
      ensures versions == old(versions)[id := Insert(old(versions)[id], batch)]
    {
      var v := versions[id];
      for k := 0 to |batch|
        invariant versions == old(versions)[id := Insert(v, batch[..k])]
      {
        var (i, row) := batch[k];
        assert batch[..k + 1][..k] == batch[..k];
        InsertFrame(v, batch[..k]);
        if row.uid.Some? || row.size != v.blockSize {
          var w := versions[id];
          versions := versions[id := w.(rows := w.rows[i := row])];
        }
      }
      assert batch[..|batch|] == batch;
    }

    /** Creates, updates or deletes the row of one block; the dense array sees a point update. */
    method SetBlock(id: VersionId, idx: nat, row: Row)
      requires id in versions
      modifies this`versions
      ensures versions == old(versions)[id := WithBlock(old(versions)[id], idx, row)]
    {
      var v := versions[id];
      if idx !in v.rows && row.uid.None? && row.size == v.blockSize {
        assert v.rows - {idx} == v.rows;
        return;
      } else if idx in v.rows && row.uid.None? && row.size == v.blockSize {
        versions := versions[id := v.(rows := v.rows - {idx})];
      } else if idx !in v.rows {
        versions := versions[id := v.(rows := v.rows[idx := row])];
      } else {
        versions := versions[id := v.(rows := v.rows[idx := v.rows[idx].(uid := row.uid, checksum := row.checksum,
                                                                         size := row.size, valid := row.valid)])];
      }
    }
  }
}
