/** The persistence layer as a sink: it records every batch of expense rows it
    is asked to insert, in call order, and does nothing else. */
module Store {
  import opened Wrappers
  import opened Calendar

  /** The data of one `db.expense` row; `date` is the `Date` handed over
      (None for an Invalid Date). */
  datatype Record = Record(description: string, amount: real, category: string, date: Option<Moment>)

  class ExpenseStore {
    /** Every batch received so far, oldest first. */
    var inserts: seq<seq<Record>>

    constructor ()
      ensures inserts == []
    {
      inserts := [];
    }

    /** `db.expense.createMany({ data })`. */
    method CreateMany(data: seq<Record>)
      modifies this
      ensures inserts == old(inserts) + [data]
    {
      inserts := inserts + [data];
    }

    /** `db.expense.create({ data })`: a batch of one. */
    method Create(data: Record)
      modifies this
      ensures inserts == old(inserts) + [[data]]
    {
      inserts := inserts + [[data]];
    }
  }
}
