/** The three position kinds and the exclusive arc of foreign-key columns that stores them. */
module Positions {

  datatype Option<+T> = None | Some(value: T)

  datatype PositionType = Instruments | Voices | Choirjobs

  type ElementId = nat

  datatype PositionKey = PositionKey(kind: PositionType, id: ElementId)

  /** The nullable columns instrument_id / voice_id / choirjob_id of a table that refers to a position. */
  datatype PositionColumns = PositionColumns(
    instrument: Option<ElementId>, voice: Option<ElementId>, choirjob: Option<ElementId>)
  {
    /** The CHECK constraint num_nonnulls(...) = 1. */
    predicate ExactlyOne() {
      || (instrument.Some? && voice.None? && choirjob.None?)
      || (instrument.None? && voice.Some? && choirjob.None?)
      || (instrument.None? && voice.None? && choirjob.Some?)
    }
  }

  function PositionKwargs(key: PositionKey): (columns: PositionColumns)
    ensures columns.ExactlyOne()
  {
    match key.kind
    case Instruments => PositionColumns(Some(key.id), None, None)
    case Voices => PositionColumns(None, Some(key.id), None)
    case Choirjobs => PositionColumns(None, None, Some(key.id))
  }

  /** None stands for the ValueError raised when all three columns are null. */
  function KeyOf(row: PositionColumns): (key: Option<PositionKey>)
    ensures key.None? <==> row.instrument.None? && row.voice.None? && row.choirjob.None?
    ensures row.ExactlyOne() ==> key.Some? && PositionKwargs(key.value) == row
  {
    if row.instrument.Some? then Some(PositionKey(Instruments, row.instrument.value))
    else if row.voice.Some? then Some(PositionKey(Voices, row.voice.value))
    else if row.choirjob.Some? then Some(PositionKey(Choirjobs, row.choirjob.value))
    else None
  }

  /** The two maps are inverse to each other on the rows the CHECK constraint admits. */
  lemma {:induction false} KwargsKeyBijection(key: PositionKey, row: PositionColumns)
    requires row.ExactlyOne()
    ensures KeyOf(PositionKwargs(key)) == Some(key)
    ensures PositionKwargs(key) == row <==> KeyOf(row) == Some(key)
  {
    assert KeyOf(row).Some?;
  }

  /** Each kind has the column of its own name. */
  lemma {:induction false} ColumnOfKind(id: ElementId)
    ensures PositionKwargs(PositionKey(Instruments, id)).instrument == Some(id)
    ensures PositionKwargs(PositionKey(Voices, id)).voice == Some(id)
    ensures PositionKwargs(PositionKey(Choirjobs, id)).choirjob == Some(id)
  {
  }

  lemma {:induction false} KeyByColumn(row: PositionColumns, id: ElementId)
    requires row.ExactlyOne()
    ensures KeyOf(row) == Some(PositionKey(Instruments, id)) <==> row.instrument == Some(id)
    ensures KeyOf(row) == Some(PositionKey(Voices, id)) <==> row.voice == Some(id)
    ensures KeyOf(row) == Some(PositionKey(Choirjobs, id)) <==> row.choirjob == Some(id)
  {
  }
}
