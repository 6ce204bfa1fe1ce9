/**
 The ClickHouse batch inserter of pkg/clickhouse/batchinsert.go: its mutable object.

 `Writer` is the part only the worker goroutine touches (open batch, last error, rows already
 committed); the functions on it say what each worker operation does to the rows, for every
 outcome of the driver calls. The class performs the same operations on fields, one method per
 source method or lock region.
 */
module BatchInserter {
  import opened Wrappers

  /** A row, tagged with the Append call that supplied it. */
  datatype Row = Row(call: nat, val: int)

  /** driver.Batch: the rows appended since PrepareBatch, and whether it has been sent. */
  datatype Batch = Batch(rows: seq<Row>, sent: bool)

  /** How a driver call ends. */
  datatype Reply = Fine | Fault(code: int)

  datatype DriverCall = Preparing | Appending | Sending

  /** A recorded error. Each is a value of its own: nth tells it from those recorded before it. */
  datatype Error = Error(call: DriverCall, code: int, nth: nat)

  /** `err` is the field the worker assigns; `errors` are all values it was ever assigned. */
  datatype Writer = Writer(batcher: Option<Batch>, err: Option<Error>, errors: seq<Error>, stored: seq<Row>) {
    predicate Failed() {
      err.Some?
    }
  }

  const EMPTY: Writer := Writer(None, None, [], [])

  /** How a Send ends. A failed Send may or may not leave the batch marked as sent. */
  datatype SendOutcome = Sent | SendFailed(marksSent: bool, code: int)

  /** The rows of the batch that can still be committed. */
  function OpenRows(w: Writer): seq<Row> {
    if w.batcher.Some? && !w.batcher.value.sent then w.batcher.value.rows else []
  }

  predicate NothingToSend(w: Writer) {
    w.batcher.None? || w.batcher.value.sent || |w.batcher.value.rows| == 0
  }

  /** p.err = ...: the earlier error is overwritten. */
  function Record(w: Writer, call: DriverCall, code: int): Writer {
    var e := Error(call, code, |w.errors|);
    w.(err := Some(e), errors := w.errors + [e])
  }

  function AfterEnsure(w: Writer, prepared: Reply): Writer {
    if w.batcher.Some? && !w.batcher.value.sent then w
    else if prepared.Fine? then w.(batcher := Some(Batch([], false)))
    else Record(w, Preparing, prepared.code)
  }

  /** appendStruct */
  function AfterAppend(w: Writer, row: Row, prepared: Reply, appended: Reply): Writer {
    var e := AfterEnsure(w, prepared);
    if e.batcher.None? || e.batcher.value.sent then e
    else if appended.Fine? then e.(batcher := Some(e.batcher.value.(rows := e.batcher.value.rows + [row])))
    else Record(e, Appending, appended.code)
  }

  function AfterCommit(w: Writer, o: SendOutcome): Writer
    requires w.batcher.Some?
  {
    match o
    case Sent => w.(batcher := None, stored := w.stored + w.batcher.value.rows)
    case SendFailed(marks, code) => Record(w.(batcher := Some(w.batcher.value.(sent := marks))), Sending, code)
  }

  function AfterFlush(w: Writer, o: SendOutcome): Writer {
    if NothingToSend(w) then w else AfterCommit(w, o)
  }

  /** send: the last commit, which also drops an empty batch */
  function AfterSend(w: Writer, o: SendOutcome): Writer {
    if NothingToSend(w) then w.(batcher := None) else AfterCommit(w, o)
  }

  /** The rows the worker is responsible for, in order. */
  function Held(w: Writer): seq<Row> {
    w.stored + OpenRows(w)
  }

  lemma AppendConserves(w: Writer, row: Row, prepared: Reply, appended: Reply)
    requires !AfterAppend(w, row, prepared, appended).Failed()
    ensures !w.Failed() && Held(AfterAppend(w, row, prepared, appended)) == Held(w) + [row]
  {
  }

  lemma FlushConserves(w: Writer, o: SendOutcome)
    requires !AfterFlush(w, o).Failed()
    ensures !w.Failed() && Held(AfterFlush(w, o)) == Held(w)
  {
  }

  /** A send that reports nothing leaves nothing behind in the batch. */
  lemma SendCommitsAll(w: Writer, o: SendOutcome)
    requires !AfterSend(w, o).Failed()
    ensures !w.Failed() && AfterSend(w, o).batcher == None && AfterSend(w, o).stored == Held(w)
  {
  }

  /** The field holds the error recorded last, and the recorded errors are pairwise different. */
  ghost predicate ErrorsOk(w: Writer) {
    && w.err == (if w.errors == [] then None else Some(w.errors[|w.errors| - 1]))
    && (forall j :: 0 <= j < |w.errors| ==> w.errors[j].nth == j)
  }

  lemma RecordErrors(w: Writer, call: DriverCall, code: int)
    requires ErrorsOk(w)
    ensures ErrorsOk(Record(w, call, code))
  {
  }

  lemma AppendErrors(w: Writer, row: Row, prepared: Reply, appended: Reply)
    requires ErrorsOk(w)
    ensures ErrorsOk(AfterAppend(w, row, prepared, appended))
  {
    if prepared.Fault? {
      RecordErrors(w, Preparing, prepared.code);
    }
    if appended.Fault? {
      RecordErrors(AfterEnsure(w, prepared), Appending, appended.code);
    }
  }

  lemma CommitErrors(w: Writer, o: SendOutcome)
    requires ErrorsOk(w)
    ensures ErrorsOk(AfterFlush(w, o)) && ErrorsOk(AfterSend(w, o))
  {
    if o.SendFailed? && w.batcher.Some? {
      RecordErrors(w.(batcher := Some(w.batcher.value.(sent := o.marksSent))), Sending, o.code);
    }
  }

  // ----- the object -----

  /** There is a batch, and it can still be sent. */
  predicate Open(batcher: Option<Batch>) {
    batcher.Some? && !batcher.value.sent
  }

  /** Which ready case a select of Append takes. */
  datatype Ready = CallerDone | RootDone | CloseSignalled | Room | NothingReady

  class Inserter {
    var closed: bool
    var closeCh: bool       // closeCh has been closed
    var sealed: bool        // dataCh has been closed
    var appendWg: nat
    const capacity: nat
    var dataCh: seq<Row>
    var batcher: Option<Batch>
    var sendCh: bool        // a request to commit is pending
    var err: Option<Error>
    var faults: nat         // how many errors were recorded: the identity of the next one
    ghost var errors: seq<Error>
    ghost var stored: seq<Row>

    ghost function View(): Writer
      reads this
    {
      Writer(batcher, err, errors, stored)
    }

    ghost predicate Valid()
      reads this
    {
      && |dataCh| <= capacity && 0 < capacity && (closeCh ==> closed) && (sealed ==> closeCh && appendWg == 0)
      && faults == |errors|
    }

    /** NewBatchInserter: a queue size or a flush interval below one is refused. */
    static method New(chanSize: int, interval: int) returns (r: Result<Inserter, ()>)
      ensures r.Ok? <==> chanSize > 0 && interval > 0
      ensures r.Ok? ==> fresh(r.value) && r.value.Valid() && r.value.capacity == chanSize
      ensures r.Ok? ==> r.value.View() == EMPTY && r.value.dataCh == [] && !r.value.closed
    {
      if chanSize <= 0 {
        return Err(());
      }
      if interval <= 0 {
        return Err(());
      }
      var p := new Inserter(chanSize);
      r := Ok(p);
    }

    constructor (chanSize: nat)
      requires 0 < chanSize
      ensures Valid() && capacity == chanSize
      ensures View() == EMPTY && dataCh == [] && !closed
    {
      capacity := chanSize;
      closed, closeCh, sealed, appendWg := false, false, false, 0;
      dataCh, batcher, sendCh, err, faults, errors, stored := [], None, false, None, 0, [], [];
    }

    /** The locked gate at the head of Append. */
    method EnterAppend() returns (pass: bool)
      requires Valid()
      modifies this`appendWg
      ensures Valid()
      ensures pass <==> !closed
      ensures appendWg == old(appendWg) + if pass then 1 else 0
    {
      if closed {
        return false;
      }
      appendWg := appendWg + 1;
      return true;
    }

    /** The send case of Append's selects. Sending on a closed channel would panic. */
    method Enqueue(row: Row) returns (ok: bool)
      requires Valid() && !sealed
      modifies this`dataCh
      ensures Valid()
      ensures ok <==> |old(dataCh)| < capacity
      ensures dataCh == if ok then old(dataCh) + [row] else old(dataCh)
    {
      ok := |dataCh| < capacity;
      if ok {
        dataCh := dataCh + [row];
      }
    }

    /** One of Append's two selects, taking one of its ready cases; only the first has a default case, which
        asks the worker to commit. */
    method Select(row: Row, callerDone: bool, rootDone: bool, first: bool, pick: Ready) returns (taken: bool)
      requires Valid() && !sealed
      requires match pick
               case CallerDone => callerDone
               case RootDone => rootDone
               case CloseSignalled => closeCh
               case Room => |dataCh| < capacity
               case NothingReady => first && !callerDone && !rootDone && !closeCh && |dataCh| >= capacity
      modifies this`dataCh, this`sendCh
      ensures Valid()
      ensures taken <==> pick == Room
      ensures dataCh == if taken then old(dataCh) + [row] else old(dataCh)
      ensures sendCh == (old(sendCh) || pick == NothingReady)
      ensures |old(dataCh)| < capacity && !callerDone && !rootDone && !closeCh ==> taken
    {
      match pick {
        case Room =>
          taken := Enqueue(row);
        case NothingReady =>
          RequestSend();
          taken := false;
        case _ =>
          taken := false;
      }
    }

    /** A pending request is enough. */
    method RequestSend()
      modifies this`sendCh
      ensures sendCh
    {
      if !sendCh {
        sendCh := true;
      }
    }

    method Fail(call: DriverCall, code: int)
      requires faults == |errors|
      modifies this`err, this`faults, this`errors
      ensures faults == |errors| && View() == Record(old(View()), call, code)
      ensures err == Some(Error(call, code, |old(errors)|)) && errors == old(errors) + [err.value]
    {
      err := Some(Error(call, code, faults));
      errors := errors + [err.value];
      faults := faults + 1;
    }

    method EnsureBatch(prepared: Reply) returns (ok: bool)
      requires faults == |errors|
      modifies this`batcher, this`err, this`faults, this`errors
      ensures faults == |errors| && View() == AfterEnsure(old(View()), prepared)
      ensures Open(old(batcher)) ==> unchanged(this)
      ensures !Open(old(batcher)) && prepared.Fine? ==> batcher == Some(Batch([], false)) && err == old(err)
      ensures !Open(old(batcher)) && prepared.Fault? ==>
        batcher == old(batcher) && err == Some(Error(Preparing, prepared.code, |old(errors)|))
      ensures ok <==> batcher.Some? && !batcher.value.sent
    {
      if batcher.Some? && !batcher.value.sent {
        return true;
      }
      if prepared.Fault? {
        Fail(Preparing, prepared.code);
        return false;
      }
      batcher := Some(Batch([], false));
      return true;
    }

    /** The row joins the open batch, or one prepared for it. If preparing fails it is not appended at all. */
    method AppendStruct(data: Row, prepared: Reply, appended: Reply)
      requires faults == |errors|
      modifies this`batcher, this`err, this`faults, this`errors
      ensures faults == |errors| && View() == AfterAppend(old(View()), data, prepared, appended)
      ensures var ready := Open(old(batcher)) || prepared.Fine?;
              var had := if Open(old(batcher)) then old(batcher).value.rows else [];
              && (ready && appended.Fine? ==>
                    batcher == Some(Batch(had + [data], false)) && err == old(err) && errors == old(errors))
              && (ready && appended.Fault? ==>
                    && batcher == Some(Batch(had, false)) && err.Some? && errors == old(errors) + [err.value]
                    && err.value == Error(Appending, appended.code, |old(errors)|))
              && (!ready ==>
                    && batcher == old(batcher) && err.Some? && errors == old(errors) + [err.value]
                    && err.value == Error(Preparing, prepared.code, |old(errors)|))
    {
      var ok := EnsureBatch(prepared);
      if !ok {
        return;
      }
      if appended.Fine? {
        batcher := Some(batcher.value.(rows := batcher.value.rows + [data]));
      } else {
        Fail(Appending, appended.code);
      }
    }

    /** An open batch with rows is committed and dropped, or stays and an error is recorded; otherwise nothing
        happens. */
    method Flush(o: SendOutcome)
      requires faults == |errors|
      modifies this`batcher, this`err, this`faults, this`errors, this`stored
      ensures faults == |errors| && View() == AfterFlush(old(View()), o)
      ensures var due := Open(old(batcher)) && old(batcher).value.rows != [];
              && (due && o.Sent? ==>
                    && stored == old(stored) + old(batcher).value.rows && batcher == None
                    && err == old(err) && errors == old(errors))
              && (due && o.SendFailed? ==>
                    && stored == old(stored) && batcher == Some(Batch(old(batcher).value.rows, o.marksSent))
                    && err == Some(Error(Sending, o.code, |old(errors)|)) && errors == old(errors) + [err.value])
              && (!due ==> unchanged(this))
    {
      if batcher == None || batcher.value.sent || |batcher.value.rows| == 0 {
        return;
      }
      if o.SendFailed? {
        batcher := Some(batcher.value.(sent := o.marksSent));
        Fail(Sending, o.code);
        return;
      }
      stored := stored + batcher.value.rows;
      batcher := None;
    }

    /** The same, but an empty or sent batch is dropped too. */
    method Send(o: SendOutcome)
      requires faults == |errors|
      modifies this`batcher, this`err, this`faults, this`errors, this`stored
      ensures faults == |errors| && View() == AfterSend(old(View()), o)
      ensures var due := Open(old(batcher)) && old(batcher).value.rows != [];
              && (due && o.Sent? ==>
                    && stored == old(stored) + old(batcher).value.rows && batcher == None
                    && err == old(err) && errors == old(errors))
              && (due && o.SendFailed? ==>
                    && stored == old(stored) && batcher == Some(Batch(old(batcher).value.rows, o.marksSent))
                    && err == Some(Error(Sending, o.code, |old(errors)|)) && errors == old(errors) + [err.value])
              && (!due ==> batcher == None && stored == old(stored) && err == old(err) && errors == old(errors))
    {
      if batcher == None || batcher.value.sent || |batcher.value.rows| == 0 {
        batcher := None;
        return;
      }
      if o.SendFailed? {
        batcher := Some(batcher.value.(sent := o.marksSent));
        Fail(Sending, o.code);
        return;
      }
      stored := stored + batcher.value.rows;
      batcher := None;
    }

    /** The end of the worker once the queue is sealed: consumeRemaining, then the last send.
        `prepared` and `appended` give the driver's outcome for each queued row. */
    method FinishSealed(prepared: seq<Reply>, appended: seq<Reply>, o: SendOutcome)
      requires Valid() && sealed && |prepared| == |appended| == |dataCh|
      modifies this`dataCh, this`batcher, this`err, this`faults, this`errors, this`stored
      ensures Valid() && dataCh == []
      ensures err == None ==>
        old(err) == None && batcher == None && stored == Held(old(View())) + old(dataCh)
    {
      ghost var queue := dataCh;
      var i := 0;
      while |dataCh| > 0
        invariant i + |dataCh| == |queue| && queue[i..] == dataCh && faults == |errors|
        invariant err == None ==> old(err) == None && Held(View()) == Held(old(View())) + queue[..i]
        decreases |dataCh|
      {
        var data := dataCh[0];
        dataCh := dataCh[1..];
        ghost var w := View();
        AppendStruct(data, prepared[i], appended[i]);
        if err == None {
          AppendConserves(w, data, prepared[i], appended[i]);
          assert queue[..i + 1] == queue[..i] + [data];
        }
        i := i + 1;
      }
      ghost var w := View();
      Send(o);
      if err == None {
        SendCommitsAll(w, o);
        assert queue[..i] == queue;
      }
    }
  }
}
