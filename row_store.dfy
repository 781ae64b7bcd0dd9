/** The row store shared between a connection and the renderer
    (class DataStore in Assets/Scripts/Network.cs): a first-in first-out
    queue of parsed rows with drain-and-clear, and the column labels. */
module RowStore {
  import opened Common

  /** One parsed row: a float per field, plus a timestamp when enabled. */
  type Row = seq<Single>

  class DataStore {
    /** The queue of rows, oldest first. */
    var rows: seq<Row>
    /** The column labels; None until the parser classifies a first row. */
    var Labels: Option<seq<string>>

    constructor ()
      ensures rows == [] && Labels == None
    {
      rows := [];
      Labels := None;
    }

    /** Returns every queued row, oldest first, and empties the queue.
        On an empty queue the result is the empty sequence. */
    method Dequeue() returns (result: seq<Row>)
      modifies this
      ensures result == old(rows)
      ensures rows == []
      ensures Labels == old(Labels)
    {
      result := rows;
      rows := [];
    }

    /** Appends one row at the back of the queue. */
    method Enqueue(row: Row)
      modifies this
      ensures rows == old(rows) + [row]
      ensures Labels == old(Labels)
    {
      rows := rows + [row];
    }
  }

  /** A producer enqueues a batch and the consumer drains twice: the first
      drain returns what was pending followed by the batch, in order, and
      the second returns nothing. */
  method EnqueueThenDrainTwice(store: DataStore, batch: seq<Row>) returns (first: seq<Row>, second: seq<Row>)
    modifies store
    ensures first == old(store.rows) + batch
    ensures second == []
    ensures store.rows == [] && store.Labels == old(store.Labels)
  {
    var i := 0;
    while i < |batch|
      invariant 0 <= i <= |batch|
      invariant store.rows == old(store.rows) + batch[..i]
      invariant store.Labels == old(store.Labels)
    {
      store.Enqueue(batch[i]);
      assert batch[..i + 1] == batch[..i] + [batch[i]];
      i := i + 1;
    }
    assert batch[..i] == batch;
    first := store.Dequeue();
    second := store.Dequeue();
  }
}
