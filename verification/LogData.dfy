/** From a buffer to the disk: what a process puts into a buffer is what log_write logs, and
    what a commit makes durable. */
module LogData {
  import opened LogFormat
  import opened LogMachine

  /** Process t has put data into buffer i, of block b, and not logged it yet. */
  ghost predicate Written(s: State, t: nat, i: nat, b: nat, data: Block) {
    i < |s.bufs| && s.bufs[i].dirty && s.bufs[i].data == data && s.bufs[i].locker == Some(t)
    && s.bufs[i].block == Some(b)
  }

  /** Steps that concern what is in buffer i. */
  predicate Touches(e: Step, i: nat) { e.Crash? || (e.Modify? && e.i == i) || (e.LogWrite? && e.i == i) }

  lemma ModifyWrites(s: State, t: nat, i: nat, data: Block)
    requires Enabled(s, Modify(t, i, data))
    ensures i < |s.bufs| && s.bufs[i].block.Some?
    ensures Written(Apply(s, Modify(t, i, data)), t, i, s.bufs[i].block.value, data)
  {
  }

  /** Nothing else gets at a buffer with unlogged data. */
  lemma WrittenStays(s: State, e: Step, t: nat, i: nat, b: nat, data: Block)
    requires Inv(s) && Written(s, t, i, b, data) && !Touches(e, i)
    ensures Written(Apply(s, e), t, i, b, data)
  {
    assert BufOk(s.bufs[i], s.log.view, s.log.start, s.log.pins, s.ops);
    assert t in s.ops && !s.log.Committing() && !s.log.Recovering();
    if IsBufStep(e) {
      BufStepLeaves(s, e, t, i, b, data);
    }
  }

  lemma BufStepLeaves(s: State, e: Step, t: nat, i: nat, b: nat, data: Block)
    requires Written(s, t, i, b, data) && IsBufStep(e) && !Touches(e, i)
    requires BufOk(s.bufs[i], s.log.view, s.log.start, s.log.pins, s.ops)
    ensures Written(Apply(s, e), t, i, b, data)
  {
  }

  lemma {:induction false} WrittenRun(s: State, es: seq<Step>, t: nat, i: nat, b: nat, data: Block, m: nat, k: nat)
    requires Inv(s) && m <= k <= |es| && Written(Trace(s, es)[m], t, i, b, data)
    requires forall j | m <= j < k :: !Touches(es[j], i)
    ensures Written(Trace(s, es)[k], t, i, b, data)
    decreases k
  {
    if m < k {
      WrittenRun(s, es, t, i, b, data, m, k - 1);
      ReachableInv(s, es, k - 1);
      TraceStep(s, es, k - 1);
      WrittenStays(Trace(s, es)[k - 1], es[k - 1], t, i, b, data);
    }
  }

  /** The step is log_write of block b. */
  predicate Logs(s: State, e: Step, b: nat) { e.LogWrite? && e.i < |s.bufs| && s.bufs[e.i].block == Some(b) }

  ghost predicate Current(a: TxDisk, b: nat, data: Block) { b in a.current && a.current[b] == data }

  ghost predicate Durable(a: TxDisk, b: nat, data: Block) { b in a.durable && a.durable[b] == data }

  lemma TxKeeps(a: TxDisk, x: TxStep, b: nat, data: Block)
    requires Current(a, b, data) && !x.TxFail? && !(x.TxWrite? && x.b == b)
    ensures Current(TxApply(a, x), b, data)
  {
  }

  lemma TxOfKeeps(s: State, e: Step, b: nat)
    requires !e.Crash? && !Logs(s, e, b)
    ensures !TxOf(s, e).TxFail? && !(TxOf(s, e).TxWrite? && TxOf(s, e).b == b)
  {
  }

  lemma CurrentStep(s: State, e: Step, b: nat, data: Block)
    requires Inv(s) && Current(Abs(s), b, data) && !e.Crash? && !Logs(s, e, b)
    ensures Current(Abs(Apply(s, e)), b, data)
  {
    StepRefines(s, e);
    TxOfKeeps(s, e, b);
    TxKeeps(Abs(s), TxOf(s, e), b, data);
  }

  /** Logged contents stay current until the block is logged again. */
  lemma {:induction false} CurrentStays(s: State, es: seq<Step>, b: nat, data: Block, k: nat, c: nat)
    requires Inv(s) && k <= c <= |es| && Current(Abs(Trace(s, es)[k]), b, data)
    requires forall j | k <= j < c :: !es[j].Crash? && !Logs(Trace(s, es)[j], es[j], b)
    ensures Current(Abs(Trace(s, es)[c]), b, data)
    decreases c
  {
    if k < c {
      CurrentStays(s, es, b, data, k, c - 1);
      ReachableInv(s, es, c - 1);
      TraceStep(s, es, c - 1);
      CurrentStep(Trace(s, es)[c - 1], es[c - 1], b, data);
    }
  }

  lemma CommitMakesDurable(s: State, e: Step, b: nat, data: Block)
    requires Inv(s) && Current(Abs(s), b, data) && e.WriteHead? && Enabled(s, e)
    ensures Durable(Abs(Apply(s, e)), b, data)
  {
    StepRefines(s, e);
    assert TxOf(s, e) == TxCommit;
  }

  /** In step m process t puts data into buffer i, which is then of block b, and the next step
      that concerns the buffer is k, where it is logged. */
  ghost predicate WrittenAndLogged(s: State, es: seq<Step>, t: nat, i: nat, b: nat, data: Block, m: nat, k: nat) {
    && Inv(s) && m < k < |es| && es[m] == Modify(t, i, data) && Enabled(Trace(s, es)[m], es[m])
    && i < |Trace(s, es)[m].bufs| && Trace(s, es)[m].bufs[i].block == Some(b)
    && (forall j | m < j < k :: !Touches(es[j], i))
    && es[k].LogWrite? && es[k].i == i && Enabled(Trace(s, es)[k], es[k])
  }

  /** log_write makes the data that was last put into the buffer current. */
  lemma ModifiedIsLogged(s: State, es: seq<Step>, t: nat, i: nat, b: nat, data: Block, m: nat, k: nat)
    requires WrittenAndLogged(s, es, t, i, b, data, m, k)
    ensures Current(Abs(Trace(s, es)[k + 1]), b, data)
  {
    ModifyWrites(Trace(s, es)[m], t, i, data);
    TraceStep(s, es, m);
    WrittenRun(s, es, t, i, b, data, m + 1, k);
    ReachableInv(s, es, k);
    TraceStep(s, es, k);
    LogMakesCurrent(Trace(s, es)[k], es[k], t, i, b, data);
  }

  lemma LogMakesCurrent(s: State, e: Step, t: nat, i: nat, b: nat, data: Block)
    requires Inv(s) && Written(s, t, i, b, data) && e.LogWrite? && e.i == i && Enabled(s, e)
    ensures Current(Abs(Apply(s, e)), b, data)
  {
    StepRefines(s, e);
    assert TxOf(s, e) == TxWrite(e.t, b, data);
  }

  /** What a process puts into a buffer and logs is on disk after the commit: a recovery from
      any crash after the header write finds it, as long as nobody has logged the block again
      before. */
  lemma DataBecomesDurable(s: State, es: seq<Step>, t: nat, i: nat, b: nat, data: Block, m: nat, k: nat, c: nat)
    requires WrittenAndLogged(s, es, t, i, b, data, m, k) && k < c < |es|
    requires forall j | k < j < c :: !es[j].Crash? && !Logs(Trace(s, es)[j], es[j], b)
    requires es[c].WriteHead? && Enabled(Trace(s, es)[c], es[c])
    ensures Durable(Abs(Trace(s, es)[c + 1]), b, data)
  {
    ModifiedIsLogged(s, es, t, i, b, data, m, k);
    CurrentStays(s, es, b, data, k + 1, c);
    ReachableInv(s, es, c);
    TraceStep(s, es, c);
    CommitMakesDurable(Trace(s, es)[c], es[c], b, data);
  }
}
