/**
  The Flink executor's binding registry: while the operators of a DAG are
  translated in topological order, it holds the execution environment, the
  DAG, and the output handle produced for each operator translated so far.
 */
module Flink {
  import opened Bindings

  /**
    `Op` is the operator identity (compared only by `==`), `E` the execution
    environment handle and `D` the output handle (a stream or a data set).
   */
  class ExecutorContext<Op(==), E, D> {
    /** The execution environment, fixed at construction. */
    const env: E
    /** The parents of each operator of the DAG, in the DAG's parent order. */
    const dag: map<Op, seq<Op>>
    /** The output handle of each operator translated so far. */
    var outputs: map<Op, D>

    constructor (env: E, dag: map<Op, seq<Op>>)
      ensures this.env == env && this.dag == dag
      ensures outputs == map[]
    {
      this.env := env;
      this.dag := dag;
      outputs := map[];
    }

    method GetExecutionEnvironment() returns (e: E)
      ensures e == env
    {
      e := env;
    }

    /**
      The outputs of the parents of `op`, in parent order; fails on the first
      parent, in that order, that has no output yet.
     */
    method GetInputStreams(op: Op) returns (r: Result<seq<D>, Op>)
      ensures r == InputsOf(dag, outputs, op)
      ensures op !in dag ==> r == Err(NodeNotFound(op))
      ensures r.Ok? <==> op in dag && AllBound(dag[op], outputs)
      ensures r.Ok? ==> |r.value| == |dag[op]|
      ensures r.Ok? ==> forall i :: 0 <= i < |r.value| ==> r.value[i] == outputs[dag[op][i]]
      ensures forall k :: op in dag && FirstUnbound(dag[op], outputs, k) ==>
        r == Err(MissingOutput(dag[op][k]))
    {
      InputsOfCases(dag, outputs, op);
      if op !in dag {
        return Err(NodeNotFound(op));
      }
      var parents := dag[op];
      var inputs: seq<D> := [];
      for i := 0 to |parents|
        invariant Collect(parents[..i], outputs) == Ok(inputs)
      {
        var p := parents[i];
        assert parents[..i + 1][..i] == parents[..i];
        if p !in outputs {
          CollectPrefixFailure(parents, outputs, i + 1);
          return Err(MissingOutput(p));
        }
        inputs := inputs + [outputs[p]];
      }
      assert parents[..|parents|] == parents;
      r := Ok(inputs);
    }

    /**
      The output of the single parent of `op`: the inputs are collected first,
      then there must be exactly one of them.
     */
    method GetSingleInputStream(op: Op) returns (r: Result<D, Op>)
      ensures r == SingleInputOf(dag, outputs, op)
      ensures r.Ok? <==> op in dag && |dag[op]| == 1 && dag[op][0] in outputs
      ensures r.Ok? ==> r.value == outputs[dag[op][0]]
      ensures op in dag && dag[op] == [] ==> r == Err(NoInput)
      ensures op in dag && |dag[op]| >= 2 && AllBound(dag[op], outputs) ==>
        r == Err(SeveralInputs(|dag[op]|))
    {
      SingleInputOfCases(dag, outputs, op);
      var inputs := GetInputStreams(op);
      r := OnlyElement(inputs);
    }

    /** The output of `op` itself; fails when `op` has none yet. */
    method GetOutputStream(op: Op) returns (r: Result<D, Op>)
      ensures r == OutputOf(outputs, op)
      ensures r.Ok? <==> op in outputs
      ensures r.Ok? ==> r.value == outputs[op]
      ensures r.Err? ==> r.failure == MissingOutput(op)
    {
      if op !in outputs {
        return Err(MissingOutput(op));
      }
      r := Ok(outputs[op]);
    }

    /**
      Records `d` as the output of `op`. As in ExecutorContext.java, the handle is
      stored before the previous one is looked at, so a second write for `op`
      fails with `AlreadyProcessed` only after replacing the earlier handle.
     */
    method SetOutput(op: Op, d: D) returns (s: Status<Op>)
      modifies this
      ensures Write(outputs, s) == Bind(old(outputs), op, d)
      ensures outputs.Keys == old(outputs).Keys + {op} && outputs[op] == d
      ensures forall o :: o in old(outputs) && o != op ==> outputs[o] == old(outputs)[o]
      ensures s.Fail? <==> op in old(outputs)
      ensures s.Fail? ==> s.failure == AlreadyProcessed(op)
    {
      var prev := OutputOf(outputs, op);
      outputs := outputs[op := d];
      if prev.Ok? {
        return Fail(AlreadyProcessed(op));
      }
      s := Pass;
    }

    /**
      Records `d` as the output of `op` only when `op` has none yet; a second
      write fails and leaves every binding as it was.
     */
    method SetOutputOnce(op: Op, d: D) returns (s: Status<Op>)
      modifies this
      ensures Write(outputs, s) == BindOnce(old(outputs), op, d)
      ensures s.Fail? <==> op in old(outputs)
      ensures s.Fail? ==> s.failure == AlreadyProcessed(op) && outputs == old(outputs)
      ensures s.Pass? ==> outputs == old(outputs)[op := d]
    {
      if op in outputs {
        return Fail(AlreadyProcessed(op));
      }
      outputs := outputs[op := d];
      s := Pass;
    }
  }

  /** The linear chain A -> B -> C and the fan-in of B and C into D, driven through the registry. */
  method Scenario() {
    var dag := map[1 := [], 2 := [1], 3 := [2], 4 := [2, 3]];
    var ctx := new ExecutorContext<int, string, string>("env", dag);
    var e := ctx.GetExecutionEnvironment();
    assert e == "env";

    var s := ctx.SetOutput(1, "a-out");
    assert s == Pass;
    var b := ctx.GetSingleInputStream(2);
    assert b == Ok("a-out");
    s := ctx.SetOutput(2, "b-out");
    assert s == Pass;

    var d := ctx.GetInputStreams(4);
    assert FirstUnbound(dag[4], ctx.outputs, 1);
    assert d == Err(MissingOutput(3));

    var c := ctx.GetSingleInputStream(3);
    assert c == Ok("b-out");
    s := ctx.SetOutput(3, "c-out");
    assert s == Pass;
    d := ctx.GetInputStreams(4);
    assert d.Ok? && d.value == ["b-out", "c-out"];

    var none := ctx.GetSingleInputStream(1);
    assert none == Err(NoInput);
    var two := ctx.GetSingleInputStream(4);
    assert two == Err(SeveralInputs(2));

    s := ctx.SetOutput(1, "a-out-2");
    assert s == Fail(AlreadyProcessed(1));
    var a := ctx.GetOutputStream(1);
    assert a == Ok("a-out-2");
  }

  /** The duplicate write of `Scenario`, made write-once: the first handle stays. */
  method WriteOnceScenario() {
    var dag := map[1 := [], 2 := [1]];
    var ctx := new ExecutorContext<int, string, string>("env", dag);

    var s := ctx.SetOutputOnce(1, "a-out");
    assert s == Pass;
    var b := ctx.GetSingleInputStream(2);
    assert b == Ok("a-out");

    s := ctx.SetOutputOnce(1, "a-out-2");
    assert s == Fail(AlreadyProcessed(1));
    var a := ctx.GetOutputStream(1);
    assert a == Ok("a-out");
    b := ctx.GetSingleInputStream(2);
    assert b == Ok("a-out");
  }
}
