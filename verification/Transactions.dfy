/** Transactions as both sides of replication see them: row changes plus their writeset. */
module Transactions {
  import opened Basics
  import opened WritesetHistory

  // A row of some table; a keyless table has neither a primary key nor a unique one.
  datatype Row = Row(id: nat, hash: Hash, keyless: bool)

  type Image = nat

  type Db = map<Row, Image>

  // One row event: how it turns the row's present image (None: no such row) into the next.
  datatype RowOp = RowOp(row: Row, change: Option<Image> -> Option<Image>)

  datatype Trx = Trx(ops: seq<RowOp>, w: Writeset, unsafe: bool)

  function Lookup(db: Db, r: Row): Option<Image> {
    if r in db then Some(db[r]) else None
  }

  function ApplyOp(db: Db, op: RowOp): (db': Db)
    ensures Lookup(db', op.row) == op.change(Lookup(db, op.row))
    ensures forall r :: r != op.row ==> Lookup(db', r) == Lookup(db, r)
  {
    match op.change(Lookup(db, op.row))
    case Some(v) => db[op.row := v]
    case None => db - {op.row}
  }

  function ApplyOps(db: Db, ops: seq<RowOp>): Db {
    if ops == [] then db else ApplyOp(ApplyOps(db, ops[..|ops| - 1]), ops[|ops| - 1])
  }

  ghost predicate Touches(ops: seq<RowOp>, r: Row) {
    exists k :: 0 <= k < |ops| && ops[k].row == r
  }

  ghost predicate Conflict(a: Trx, b: Trx) {
    exists r :: Touches(a.ops, r) && Touches(b.ops, r)
  }

  // Writeset extraction: the hashes of all changed rows are in the writeset, or the transaction is
  // flagged as having changed a table without keys. That is so unless the session uses another
  // algorithm, foreign keys may have changed rows of other tables, the writeset has reached its
  // limit, or nothing was extracted at all.
  ghost predicate Covered(t: Trx) {
    var w := t.w;
    && w.sameAlgorithm && !w.relatedForeignKeys && !w.limitReached
    && (w.hashes != [] || w.missingKeys || w.emptyTransaction)
    ==>
      forall k :: 0 <= k < |t.ops| ==>
        var r := t.ops[k].row;
        if r.keyless then w.missingKeys else r.hash in w.hashes
  }

  // Writesets never miss a real conflict.
  lemma ConflictIsSeen(a: Trx, b: Trx)
    requires Covered(a) && Covered(b) && Conflict(a, b)
    ensures MayConflict(a.w, b.w)
  {
    var r :| Touches(a.ops, r) && Touches(b.ops, r);
    if CanUseWritesets(a.w) && CanUseWritesets(b.w) && !b.w.missingKeys {
      assert r.hash in a.w.hashes && r.hash in b.w.hashes;
    }
  }
}
