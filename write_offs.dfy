/** Raw write-off rows as the worksheet returns them, and their
    validation: `isWriteOffDateValid` and `filterWriteOffs`. */
module WriteOffs {
  import opened Sequences
  import opened TimeUtilities

  /** A value `getValues` can return for a cell. A blank cell comes back as
      the empty string. */
  datatype Cell = Str(s: string) | DateVal(date: DateTime) | BoolVal(b: bool) | Num(n: real)

  /** One row of the weekday's two columns, exactly as read. */
  datatype RawWriteOff = RawWriteOff(toBeWrittenOffAt: Cell, isChecked: Cell)

  /** A row kept for classification: its due date normalized to today, its
      check box carried along unread. */
  datatype WriteOff = WriteOff(isChecked: Cell, toBeWrittenOffAt: DateTime)

  /** `isWriteOffDateValid`: strings are refused first, then only a `Date`
      passes. The string test decides nothing on its own: a row is valid
      exactly when its due cell holds a `Date`. */
  predicate IsWriteOffDateValid(w: RawWriteOff)
    ensures IsWriteOffDateValid(w) <==> w.toBeWrittenOffAt.DateVal?
  {
    if w.toBeWrittenOffAt.Str? then false else w.toBeWrittenOffAt.DateVal?
  }

  /** The map step of `filterWriteOffs` for one valid row. */
  function NormalizeWriteOff(w: RawWriteOff, today: DateTime): WriteOff
    requires w.toBeWrittenOffAt.DateVal?
  {
    WriteOff(w.isChecked, NormalizeDate(w.toBeWrittenOffAt.date, today))
  }

  /** `filterWriteOffs`: keeps the rows whose date cell holds a `Date`, in
      their order, and normalizes each date to `today`. The k-th result
      comes from row `KeptIndices(...)[k]`, with its check box unchanged;
      every `Date` row, checked or not, is among the kept rows, and nothing
      else is. */
  function FilterWriteOffs(writeOffs: seq<RawWriteOff>, today: DateTime): (r: seq<WriteOff>)
    ensures |r| <= |writeOffs|
    ensures var idx := KeptIndices(writeOffs, IsWriteOffDateValid);
      && |idx| == |r|
      && (forall k :: 0 <= k < |r| ==>
            && idx[k] < |writeOffs|
            && writeOffs[idx[k]].toBeWrittenOffAt.DateVal?
            && r[k].isChecked == writeOffs[idx[k]].isChecked
            && r[k].toBeWrittenOffAt == NormalizeDate(writeOffs[idx[k]].toBeWrittenOffAt.date, today))
      && (forall k, l :: 0 <= k < l < |r| ==> idx[k] < idx[l])
      && (forall i :: 0 <= i < |writeOffs| && writeOffs[i].toBeWrittenOffAt.DateVal? ==> i in idx)
  {
    KeptIndicesSelect(writeOffs, IsWriteOffDateValid);
    KeptIndicesIncrease(writeOffs, IsWriteOffDateValid);
    KeptIndicesComplete(writeOffs, IsWriteOffDateValid);
    var kept := Filter(writeOffs, IsWriteOffDateValid);
    seq(|kept|, k requires 0 <= k < |kept| => NormalizeWriteOff(kept[k], today))
  }

  /** Every row with a `Date`, checked or not, reaches classification with
      its check box and its normalized date. */
  lemma DateRowIsKept(writeOffs: seq<RawWriteOff>, i: nat, today: DateTime)
    requires i < |writeOffs| && writeOffs[i].toBeWrittenOffAt.DateVal?
    ensures exists k :: (0 <= k < |FilterWriteOffs(writeOffs, today)| &&
      FilterWriteOffs(writeOffs, today)[k] ==
        WriteOff(writeOffs[i].isChecked, NormalizeDate(writeOffs[i].toBeWrittenOffAt.date, today)))
  {
    var r := FilterWriteOffs(writeOffs, today);
    var idx := KeptIndices(writeOffs, IsWriteOffDateValid);
    assert i in idx;
    var k :| 0 <= k < |idx| && idx[k] == i;
    assert r[k] == WriteOff(writeOffs[i].isChecked, NormalizeDate(writeOffs[i].toBeWrittenOffAt.date, today));
  }
}
