/**
  Value-level specification of the binding registry that maps each operator of
  a translated DAG to the output handle produced for it.

  Operators are opaque identities (`Op`), compared only by `==`; two operators
  are the same binding key exactly when they are the same identity. The DAG is
  given as the ordered parent list of each operator, and the registry's state
  is a map from operator to output handle (`D`).
 */
module Bindings {

  /** The ways a registry operation fails, one per exception ExecutorContext.java raises. */
  datatype Failure<Op> =
    | NodeNotFound(op: Op)       // the DAG has no node for the operator
    | MissingOutput(op: Op)      // the operator (or a parent) has no output yet
    | NoInput                    // a single input was asked for, there are none
    | SeveralInputs(count: nat)  // a single input was asked for, there are `count`
    | AlreadyProcessed(op: Op)   // the operator already had an output

  datatype Result<T, Op> = Ok(value: T) | Err(failure: Failure<Op>)

  datatype Status<Op> = Pass | Fail(failure: Failure<Op>)

  /** The registry's state after a write, and whether the write was accepted. */
  datatype Write<Op, D> = Write(outputs: map<Op, D>, status: Status<Op>)

  /** Every operator of `ps` has an output. */
  predicate AllBound<Op, D>(ps: seq<Op>, outputs: map<Op, D>) {
    forall i :: 0 <= i < |ps| ==> ps[i] in outputs
  }

  /** `ps[k]` is the first operator of `ps`, in list order, without an output. */
  predicate FirstUnbound<Op, D>(ps: seq<Op>, outputs: map<Op, D>, k: int) {
    0 <= k < |ps| && ps[k] !in outputs &&
    forall j :: 0 <= j < k ==> ps[j] in outputs
  }

  /**
    The outputs of `ps`, in the order of `ps`, collected front to back; the
    first operator without an output stops the collection.
   */
  function Collect<Op, D>(ps: seq<Op>, outputs: map<Op, D>): (r: Result<seq<D>, Op>)
    ensures r.Ok? ==> |r.value| == |ps|
    ensures r.Err? ==> r.failure.MissingOutput? && r.failure.op in ps
    decreases |ps|
  {
    if ps == [] then Ok([])
    else
      var last := ps[|ps| - 1];
      match Collect(ps[..|ps| - 1], outputs)
      case Err(f) => Err(f)
      case Ok(xs) =>
        if last in outputs then Ok(xs + [outputs[last]]) else Err(MissingOutput(last))
  }

  /** The input handles of `op`: the outputs of its DAG parents, in parent order. */
  function InputsOf<Op, D>(dag: map<Op, seq<Op>>, outputs: map<Op, D>, op: Op): (r: Result<seq<D>, Op>) {
    if op !in dag then Err(NodeNotFound(op)) else Collect(dag[op], outputs)
  }

  /** The lone element of a collected list; a failure to collect passes through. */
  function OnlyElement<D, Op>(r: Result<seq<D>, Op>): (s: Result<D, Op>)
    ensures s.Ok? <==> r.Ok? && |r.value| == 1
    ensures s.Ok? ==> s.value == r.value[0]
    ensures r.Err? ==> s == Err(r.failure)
    ensures r.Ok? && r.value == [] ==> s == Err(NoInput)
    ensures r.Ok? && |r.value| >= 2 ==> s == Err(SeveralInputs(|r.value|))
  {
    match r
    case Err(f) => Err(f)
    case Ok(xs) =>
      if |xs| == 0 then Err(NoInput)
      else if |xs| == 1 then Ok(xs[0])
      else Err(SeveralInputs(|xs|))
  }

  /** The single input handle of `op`. */
  function SingleInputOf<Op, D>(dag: map<Op, seq<Op>>, outputs: map<Op, D>, op: Op): (r: Result<D, Op>) {
    OnlyElement(InputsOf(dag, outputs, op))
  }

  /** The output handle bound to `op`. */
  function OutputOf<Op, D>(outputs: map<Op, D>, op: Op): (r: Result<D, Op>)
    ensures r.Ok? <==> op in outputs
    ensures r.Ok? ==> r.value == outputs[op]
    ensures r.Err? ==> r.failure == MissingOutput(op)
  {
    if op in outputs then Ok(outputs[op]) else Err(MissingOutput(op))
  }

  /**
    A write as ExecutorContext.java performs it: the new handle is stored first, and the
    write is reported as a failure when the operator already had a handle,
    which by then has been replaced.
   */
  function Bind<Op, D>(outputs: map<Op, D>, op: Op, d: D): (w: Write<Op, D>)
    ensures w.outputs.Keys == outputs.Keys + {op}
    ensures w.outputs[op] == d
    ensures forall o :: o in outputs && o != op ==> w.outputs[o] == outputs[o]
    ensures w.status.Fail? <==> op in outputs
    ensures w.status.Fail? ==> w.status.failure == AlreadyProcessed(op)
  {
    Write(outputs[op := d], if op in outputs then Fail(AlreadyProcessed(op)) else Pass)
  }

  /**
    A write-once write: a second write for the same operator fails and leaves
    the registry as it was.
   */
  function BindOnce<Op, D>(outputs: map<Op, D>, op: Op, d: D): (w: Write<Op, D>)
    ensures w.status.Fail? <==> op in outputs
    ensures w.status.Fail? ==> w.status.failure == AlreadyProcessed(op) && w.outputs == outputs
    ensures w.status.Pass? ==> w.outputs.Keys == outputs.Keys + {op} && w.outputs[op] == d
    ensures forall o :: o in outputs ==> o in w.outputs && w.outputs[o] == outputs[o]
  {
    if op in outputs then Write(outputs, Fail(AlreadyProcessed(op))) else Write(outputs[op := d], Pass)
  }

  /** The registry after the writes `ws`, each one applied as ExecutorContext.java does. */
  function Replay<Op, D>(outputs: map<Op, D>, ws: seq<(Op, D)>): (r: map<Op, D>)
    decreases |ws|
  {
    if ws == [] then outputs else Replay(Bind(outputs, ws[0].0, ws[0].1).outputs, ws[1..])
  }

  /** The registry after the writes `ws`, each one applied write-once. */
  function ReplayOnce<Op, D>(outputs: map<Op, D>, ws: seq<(Op, D)>): (r: map<Op, D>)
    decreases |ws|
  {
    if ws == [] then outputs else ReplayOnce(BindOnce(outputs, ws[0].0, ws[0].1).outputs, ws[1..])
  }

  // ---------------------------------------------------------------------------
  // Collecting inputs

  /** Collecting the first `n` operators already failed: collecting all of them fails the same way. */
  lemma {:induction false} CollectPrefixFailure<Op, D>(ps: seq<Op>, outputs: map<Op, D>, n: nat)
    requires n <= |ps|
    requires Collect(ps[..n], outputs).Err?
    ensures Collect(ps, outputs) == Collect(ps[..n], outputs)
  {
    if n < |ps| {
      var init := ps[..|ps| - 1];
      assert init[..n] == ps[..n];
      CollectPrefixFailure(init, outputs, n);
    } else {
      assert ps[..n] == ps;
    }
  }

  /** Collecting succeeds exactly when every operator of the list has an output. */
  lemma {:induction false} CollectSucceedsIff<Op, D>(ps: seq<Op>, outputs: map<Op, D>)
    ensures Collect(ps, outputs).Ok? <==> AllBound(ps, outputs)
  {
    if ps != [] {
      var init := ps[..|ps| - 1];
      CollectSucceedsIff(init, outputs);
      assert forall i :: 0 <= i < |init| ==> init[i] == ps[i];
    }
  }

  /** A successful collection holds, at position i, the output of the i-th operator. */
  lemma {:induction false} CollectKeepsOrder<Op, D>(ps: seq<Op>, outputs: map<Op, D>)
    requires AllBound(ps, outputs)
    ensures Collect(ps, outputs).Ok?
    ensures |Collect(ps, outputs).value| == |ps|
    ensures forall i :: 0 <= i < |ps| ==> Collect(ps, outputs).value[i] == outputs[ps[i]]
  {
    if ps != [] {
      var init := ps[..|ps| - 1];
      assert forall i :: 0 <= i < |init| ==> init[i] == ps[i];
      CollectKeepsOrder(init, outputs);
    }
  }

  /** A failed collection names the first operator, in list order, that has no output. */
  lemma {:induction false} CollectNamesFirstUnbound<Op, D>(ps: seq<Op>, outputs: map<Op, D>, k: int)
    requires FirstUnbound(ps, outputs, k)
    ensures Collect(ps, outputs) == Err(MissingOutput(ps[k]))
  {
    var pre := ps[..k + 1];
    var init := pre[..k];
    assert init == ps[..k];
    assert AllBound(init, outputs);
    CollectSucceedsIff(init, outputs);
    assert pre[k] == ps[k];
    CollectPrefixFailure(ps, outputs, k + 1);
  }

  /**
    Once the inputs of a list can be collected, writing new operators (without
    changing existing handles) does not change what is collected.
   */
  lemma {:induction false} CollectStable<Op, D>(ps: seq<Op>, outputs: map<Op, D>, later: map<Op, D>)
    requires forall o :: o in outputs ==> o in later && later[o] == outputs[o]
    requires Collect(ps, outputs).Ok?
    ensures Collect(ps, later) == Collect(ps, outputs)
  {
    if ps != [] {
      CollectStable(ps[..|ps| - 1], outputs, later);
    }
  }

  // ---------------------------------------------------------------------------
  // The read operations

  /**
    `InputsOf` fails with `NodeNotFound` outside the DAG, with `MissingOutput`
    naming the first unbound parent when one is unbound, and otherwise returns
    one handle per parent, in parent order.
   */
  lemma InputsOfCases<Op, D>(dag: map<Op, seq<Op>>, outputs: map<Op, D>, op: Op)
    ensures op !in dag ==> InputsOf(dag, outputs, op) == Err(NodeNotFound(op))
    ensures InputsOf(dag, outputs, op).Ok? <==> op in dag && AllBound(dag[op], outputs)
    ensures op in dag && AllBound(dag[op], outputs) ==>
      |InputsOf(dag, outputs, op).value| == |dag[op]| &&
      forall i :: 0 <= i < |dag[op]| ==> InputsOf(dag, outputs, op).value[i] == outputs[dag[op][i]]
    ensures forall k :: op in dag && FirstUnbound(dag[op], outputs, k) ==>
      InputsOf(dag, outputs, op) == Err(MissingOutput(dag[op][k]))
  {
    if op in dag {
      CollectSucceedsIff(dag[op], outputs);
      if AllBound(dag[op], outputs) {
        CollectKeepsOrder(dag[op], outputs);
      }
      forall k | FirstUnbound(dag[op], outputs, k)
        ensures InputsOf(dag, outputs, op) == Err(MissingOutput(dag[op][k]))
      {
        CollectNamesFirstUnbound(dag[op], outputs, k);
      }
    }
  }

  /** A parent without an output makes every child's inputs fail with `MissingOutput`. */
  lemma UnboundParentBlocksChild<Op, D>(dag: map<Op, seq<Op>>, outputs: map<Op, D>, op: Op, parent: Op)
    requires op in dag && parent in dag[op] && parent !in outputs
    ensures InputsOf(dag, outputs, op).Err?
    ensures InputsOf(dag, outputs, op).failure.MissingOutput?
  {
    CollectSucceedsIff(dag[op], outputs);
  }

  /**
    `SingleInputOf` succeeds exactly when `op` has one parent and that parent
    is bound, returning its handle; with every parent bound but zero or two or
    more of them it fails on cardinality.
   */
  lemma SingleInputOfCases<Op, D>(dag: map<Op, seq<Op>>, outputs: map<Op, D>, op: Op)
    ensures SingleInputOf(dag, outputs, op).Ok? <==>
      op in dag && |dag[op]| == 1 && dag[op][0] in outputs
    ensures SingleInputOf(dag, outputs, op).Ok? ==>
      SingleInputOf(dag, outputs, op).value == outputs[dag[op][0]]
    ensures op in dag && dag[op] == [] ==> SingleInputOf(dag, outputs, op) == Err(NoInput)
    ensures op in dag && |dag[op]| >= 2 && AllBound(dag[op], outputs) ==>
      SingleInputOf(dag, outputs, op) == Err(SeveralInputs(|dag[op]|))
    ensures op in dag && !AllBound(dag[op], outputs) ==>
      SingleInputOf(dag, outputs, op).Err? && SingleInputOf(dag, outputs, op).failure.MissingOutput?
  {
    InputsOfCases(dag, outputs, op);
  }

  // ---------------------------------------------------------------------------
  // Writes

  /**
    As ExecutorContext.java is written, a second write for an operator is reported as a
    failure, yet afterwards the operator reads back the second handle.
   */
  lemma DuplicateBindReplaces<Op, D>(outputs: map<Op, D>, op: Op, first: D, second: D)
    requires first != second
    ensures Bind(Bind(outputs, op, first).outputs, op, second).status == Fail(AlreadyProcessed(op))
    ensures OutputOf(Bind(Bind(outputs, op, first).outputs, op, second).outputs, op) == Ok(second)
    ensures OutputOf(Bind(Bind(outputs, op, first).outputs, op, second).outputs, op) != Ok(first)
  {
  }

  /** With write-once writes, a second write fails and the first handle stays. */
  lemma DuplicateBindOnceKeeps<Op, D>(outputs: map<Op, D>, op: Op, first: D, second: D)
    ensures BindOnce(BindOnce(outputs, op, first).outputs, op, second).status == Fail(AlreadyProcessed(op))
    ensures OutputOf(BindOnce(BindOnce(outputs, op, first).outputs, op, second).outputs, op) ==
      OutputOf(BindOnce(outputs, op, first).outputs, op)
  {
  }

  /**
    Over any sequence of writes the set of bound operators only grows: it ends
    as the operators bound before plus every operator written.
   */
  lemma {:induction false} ReplayKeys<Op, D>(outputs: map<Op, D>, ws: seq<(Op, D)>)
    ensures forall o :: o in Replay(outputs, ws) <==>
      o in outputs || exists i :: 0 <= i < |ws| && ws[i].0 == o
    decreases |ws|
  {
    if ws != [] {
      var next := Bind(outputs, ws[0].0, ws[0].1).outputs;
      ReplayKeys(next, ws[1..]);
      forall o ensures o in Replay(outputs, ws) <==>
        o in outputs || exists i :: 0 <= i < |ws| && ws[i].0 == o
      {
        if exists i :: 0 <= i < |ws[1..]| && ws[1..][i].0 == o {
          var i :| 0 <= i < |ws[1..]| && ws[1..][i].0 == o;
          assert ws[i + 1].0 == o;
        }
        if exists i :: 0 <= i < |ws| && ws[i].0 == o {
          var i :| 0 <= i < |ws| && ws[i].0 == o;
          if i > 0 {
            assert ws[1..][i - 1].0 == o;
          }
        }
      }
    }
  }

  /** Writes to operators not yet bound, with no operator written twice, keep every earlier handle. */
  lemma {:induction false} ReplayFreshKeeps<Op, D>(outputs: map<Op, D>, ws: seq<(Op, D)>)
    requires forall i :: 0 <= i < |ws| ==> ws[i].0 !in outputs
    requires forall i, j :: 0 <= i < j < |ws| ==> ws[i].0 != ws[j].0
    ensures forall o :: o in outputs ==> o in Replay(outputs, ws) && Replay(outputs, ws)[o] == outputs[o]
    ensures forall i :: 0 <= i < |ws| ==> ws[i].0 in Replay(outputs, ws) && Replay(outputs, ws)[ws[i].0] == ws[i].1
    decreases |ws|
  {
    if ws != [] {
      var next := Bind(outputs, ws[0].0, ws[0].1).outputs;
      var rest := ws[1..];
      forall i | 0 <= i < |rest| ensures rest[i].0 !in next {
        assert rest[i] == ws[i + 1];
      }
      forall i, j | 0 <= i < j < |rest| ensures rest[i].0 != rest[j].0 {
        assert rest[i] == ws[i + 1] && rest[j] == ws[j + 1];
      }
      ReplayFreshKeeps(next, rest);
      forall i | 0 <= i < |ws|
        ensures ws[i].0 in Replay(outputs, ws) && Replay(outputs, ws)[ws[i].0] == ws[i].1
      {
        if i > 0 {
          assert ws[i] == rest[i - 1];
        }
      }
    }
  }

  /** With write-once writes, every handle bound before a sequence of writes is bound after it. */
  lemma {:induction false} ReplayOnceKeeps<Op, D>(outputs: map<Op, D>, ws: seq<(Op, D)>)
    ensures forall o :: o in outputs ==> o in ReplayOnce(outputs, ws) && ReplayOnce(outputs, ws)[o] == outputs[o]
    decreases |ws|
  {
    if ws != [] {
      ReplayOnceKeeps(BindOnce(outputs, ws[0].0, ws[0].1).outputs, ws[1..]);
    }
  }

  /**
    A child whose inputs can be collected keeps collecting the same inputs
    across any later write-once writes.
   */
  lemma InputsStableUnderReplayOnce<Op, D>(dag: map<Op, seq<Op>>, outputs: map<Op, D>, op: Op, ws: seq<(Op, D)>)
    requires InputsOf(dag, outputs, op).Ok?
    ensures InputsOf(dag, ReplayOnce(outputs, ws), op) == InputsOf(dag, outputs, op)
  {
    ReplayOnceKeeps(outputs, ws);
    CollectStable(dag[op], outputs, ReplayOnce(outputs, ws));
  }
}
