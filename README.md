# ExecutorContext: the binding registry of the Euphoria Flink executor

While a Euphoria operator DAG is translated into a Flink job, the translator
visits the operators in topological order. For each operator it asks
`ExecutorContext` for the Flink outputs of that operator's parents. After
translating the operator, it registers the operator's own output there.
`ExecutorContext<E, D>` holds three things:

- the execution environment `E`, set once;
- the DAG, which it only reads;
- an identity-keyed map from operator to output handle `D` (a `DataStream`
  or a `DataSet`).

This project models that class and proves what its operations guarantee.

- `bindings.dfy`, module `Bindings`: the registry's state as values. It holds
  the failure kinds and the functions that specify each operation: `Collect`,
  `InputsOf`, `OnlyElement`, `SingleInputOf`, `OutputOf`, `Bind` (a write as
  the code performs it) and `BindOnce` (the write-once write). It also holds
  the lemmas about them.
- `executor_context.dfy`, module `Flink`: the class `ExecutorContext`.
  - `env` and `dag` are constants and `outputs` is a mutable `map` field.
  - The constructor and `GetExecutionEnvironment` state what the context
    stores and returns. Each read and write method's contract ties its result,
    or its new state, to the specification functions.
  - `GetInputStreams` keeps the Java loop, with a loop invariant.
  - `Scenario` drives a chain and a fan-in through the class, using only the
    method contracts. `WriteOnceScenario` repeats its duplicate write through
    `SetOutputOnce`.

Modelling decisions:

- Operators are a type parameter `Op` compared only with `==`. This is the
  `IdentityHashMap` keying at ExecutorContext.java:47: two operators share a
  binding only if they are the same identity.
- The DAG is a fixed `map<Op, seq<Op>>` from each operator to its parents, in
  the DAG's parent order. The handle types `E` and `D` are type parameters.
- Each exception becomes an explicit failure value:
  - `MissingOutput(op)`: the `IllegalArgumentException`s at lines 63 and 79.
  - `AlreadyProcessed(op)`: the `IllegalStateException` at line 88.
  - `NoInput`: the `NoSuchElementException` that Guava's
    `Iterables.getOnlyElement` throws for an empty list.
  - `SeveralInputs(n)`: the `IllegalArgumentException` it throws for a list of
    two or more.
  - `NodeNotFound(op)`: `dag.getNode` called on an operator the DAG does not
    contain.
- `getSingleInputStream` collects all inputs first. So a missing parent output
  is reported as `MissingOutput`, ahead of any cardinality failure.
- A duplicate `setOutput` is rejected with an exception ("output already
  processed"), which says that each operator's output is meant to be written
  once, leaving the earlier binding untouched. The code calls `put` first
  (line 86) and only then throws, so the new handle has already replaced the
  old one. `SetOutput` models the code as written. `SetOutputOnce`
  is the write-once behaviour implied by the `IllegalStateException` at
  line 88. See "## Findings".

## Model

| member | source | states |
|---|---|---|
| `Flink.ExecutorContext.constructor` | sdks/java/extensions/euphoria/euphoria-flink/src/main/java/cz/seznam/euphoria/flink/ExecutorContext.java:44-48 | the context stores the given environment and DAG and starts with no output bound |
| `Flink.ExecutorContext.GetExecutionEnvironment` | sdks/java/extensions/euphoria/euphoria-flink/src/main/java/cz/seznam/euphoria/flink/ExecutorContext.java:50-52 | returns the environment given at construction (a constant of the object, so the same on every call) |
| `Flink.ExecutorContext.GetInputStreams` | sdks/java/extensions/euphoria/euphoria-flink/src/main/java/cz/seznam/euphoria/flink/ExecutorContext.java:57-69 | succeeds iff the operator is in the DAG and every parent is bound; then one handle per parent with element i the output of parent i; otherwise fails with MissingOutput naming the first unbound parent in parent order (NodeNotFound outside the DAG); changes nothing |
| `Flink.ExecutorContext.GetSingleInputStream` | sdks/java/extensions/euphoria/euphoria-flink/src/main/java/cz/seznam/euphoria/flink/ExecutorContext.java:72-74 | succeeds iff the operator has exactly one parent and it is bound, returning that parent's output; zero parents give NoInput, two or more bound parents give SeveralInputs with the count |
| `Flink.ExecutorContext.GetOutputStream` | sdks/java/extensions/euphoria/euphoria-flink/src/main/java/cz/seznam/euphoria/flink/ExecutorContext.java:76-83 | returns the operator's own output iff it is bound, and fails with MissingOutput for that operator otherwise |
| `Flink.ExecutorContext.SetOutput` | sdks/java/extensions/euphoria/euphoria-flink/src/main/java/cz/seznam/euphoria/flink/ExecutorContext.java:85-91 | as written: afterwards the operator is bound to the new handle, the key set grows by that operator only, every other binding is unchanged, and the call fails with AlreadyProcessed iff the operator was already bound |
| `Flink.ExecutorContext.SetOutputOnce` | sdks/java/extensions/euphoria/euphoria-flink/src/main/java/cz/seznam/euphoria/flink/ExecutorContext.java:85-91 | corrected write-once write: succeeds iff the operator was unbound, then binds it to the handle; on failure with AlreadyProcessed the bindings are exactly as before |
| `Bindings.Collect` | sdks/java/extensions/euphoria/euphoria-flink/src/main/java/cz/seznam/euphoria/flink/ExecutorContext.java:59-67 | a successful collection has one handle per parent; a failed one is MissingOutput for one of the parents |
| `Bindings.OnlyElement` | sdks/java/extensions/euphoria/euphoria-flink/src/main/java/cz/seznam/euphoria/flink/ExecutorContext.java:73 | exactly-one semantics: succeeds iff the list has one element and returns it; empty gives NoInput, two or more give SeveralInputs with the length; an earlier failure passes through unchanged |
| `Bindings.OutputOf` | sdks/java/extensions/euphoria/euphoria-flink/src/main/java/cz/seznam/euphoria/flink/ExecutorContext.java:76-82 | succeeds iff the operator is bound, with its handle; otherwise MissingOutput for that operator |
| `Bindings.Bind` | sdks/java/extensions/euphoria/euphoria-flink/src/main/java/cz/seznam/euphoria/flink/ExecutorContext.java:85-91 | the written operator is bound to the new handle; keys become the old keys plus that operator; other bindings are kept; failure (AlreadyProcessed) iff it was bound before |
| `Bindings.BindOnce` | sdks/java/extensions/euphoria/euphoria-flink/src/main/java/cz/seznam/euphoria/flink/ExecutorContext.java:85-91 | write-once: failure iff already bound, leaving the map unchanged; success adds exactly that binding; every earlier binding survives either way |
| `Bindings.CollectPrefixFailure` | sdks/java/extensions/euphoria/euphoria-flink/src/main/java/cz/seznam/euphoria/flink/ExecutorContext.java:60-65 | once the loop fails on a parent, collecting the whole parent list fails with that same error (the early throw) |
| `Bindings.CollectSucceedsIff` | sdks/java/extensions/euphoria/euphoria-flink/src/main/java/cz/seznam/euphoria/flink/ExecutorContext.java:60-68 | collecting inputs succeeds if and only if every parent is bound |
| `Bindings.CollectKeepsOrder` | sdks/java/extensions/euphoria/euphoria-flink/src/main/java/cz/seznam/euphoria/flink/ExecutorContext.java:59-68 | with every parent bound, the result is as long as the parent list and element i is the output of parent i |
| `Bindings.CollectNamesFirstUnbound` | sdks/java/extensions/euphoria/euphoria-flink/src/main/java/cz/seznam/euphoria/flink/ExecutorContext.java:60-65 | the failure names exactly the first parent, in parent order, that has no output |
| `Bindings.CollectStable` | sdks/java/extensions/euphoria/euphoria-flink/src/main/java/cz/seznam/euphoria/flink/ExecutorContext.java:57-68 | inputs that can be collected are collected identically from any later map that keeps the earlier bindings |
| `Bindings.InputsOfCases` | sdks/java/extensions/euphoria/euphoria-flink/src/main/java/cz/seznam/euphoria/flink/ExecutorContext.java:57-69 | full case analysis of getInputStreams: NodeNotFound outside the DAG, success iff all parents bound with order kept, MissingOutput naming the first unbound parent |
| `Bindings.UnboundParentBlocksChild` | sdks/java/extensions/euphoria/euphoria-flink/src/main/java/cz/seznam/euphoria/flink/ExecutorContext.java:61-65 | a parent with no output makes every child's inputs fail with MissingOutput |
| `Bindings.SingleInputOfCases` | sdks/java/extensions/euphoria/euphoria-flink/src/main/java/cz/seznam/euphoria/flink/ExecutorContext.java:72-74 | single input succeeds iff exactly one bound parent, returning its handle; NoInput for zero parents; SeveralInputs for two or more bound parents; MissingOutput when some parent is unbound |
| `Bindings.DuplicateBindReplaces` | sdks/java/extensions/euphoria/euphoria-flink/src/main/java/cz/seznam/euphoria/flink/ExecutorContext.java:86-90 | as written, a second write fails with AlreadyProcessed yet the operator then reads back the second handle, not the first |
| `Bindings.DuplicateBindOnceKeeps` | sdks/java/extensions/euphoria/euphoria-flink/src/main/java/cz/seznam/euphoria/flink/ExecutorContext.java:85-91 | write-once: a second write fails with AlreadyProcessed and the operator still reads back its first handle |
| `Bindings.ReplayKeys` | sdks/java/extensions/euphoria/euphoria-flink/src/main/java/cz/seznam/euphoria/flink/ExecutorContext.java:85-91 | over any sequence of writes the bound set only grows: it ends as the earlier keys plus exactly the operators written |
| `Bindings.ReplayFreshKeeps` | sdks/java/extensions/euphoria/euphoria-flink/src/main/java/cz/seznam/euphoria/flink/ExecutorContext.java:85-91 | writes to distinct, unbound operators keep every earlier binding and leave each written operator bound to its handle |
| `Bindings.ReplayOnceKeeps` | sdks/java/extensions/euphoria/euphoria-flink/src/main/java/cz/seznam/euphoria/flink/ExecutorContext.java:85-91 | with write-once writes, every earlier binding survives any sequence of writes (UNBOUND to BOUND is terminal) |
| `Bindings.InputsStableUnderReplayOnce` | sdks/java/extensions/euphoria/euphoria-flink/src/main/java/cz/seznam/euphoria/flink/ExecutorContext.java:57-69 | once an operator's inputs resolve, they resolve to the same handles after any later write-once writes |

## Left out

- The Flink types `DataStream` and `DataSet` and Euphoria's `Dataset` are not modelled. They appear only as the opaque handle type `D`.
- The concrete subclasses of the abstract `ExecutorContext` (the stream and batch contexts) are not part of this model.
- The `DAG` and `Node` classes are not part of this model: construction, topological ordering and node lookup. The DAG is a given parent map.
- `DAG.getNode` on an operator the DAG does not contain is modelled as the failure `NodeNotFound`. The DAG class is not part of this model, so the exact exception it raises is not modelled.
- The parent lookup `dag.getNode(p.get()).get()` at line 61 is taken to return the parent's own identity.
- Guava's `Iterables` is not modelled beyond its exactly-one semantics and the two exceptions it raises.
- Exception messages and the operators' `getName()` diagnostics are left out. Failures carry only the operator, or the count.
- `null` handles are left out. `IdentityHashMap` allows a `null` value that reads back as unbound, but the model treats every handle as present.
- Thread safety is left out. The class is unsynchronised and used by one thread.
- The translation driver that calls the registry is external and not modelled. `Replay` and `ReplayOnce` apply a sequence of writes without assuming what a caller does after a failure.

## Findings

| source | as written | input that shows it | evidently intended | confidence | as-written member | corrected member |
|---|---|---|---|---|---|---|
| sdks/java/extensions/euphoria/euphoria-flink/src/main/java/cz/seznam/euphoria/flink/ExecutorContext.java:86-90 | `put` stores the new handle before the previous one is checked, so a duplicate `setOutput` throws only after it has overwritten the first binding | `setOutput(A, a1)` then `setOutput(A, a2)` with `a1 != a2`: the second call throws `IllegalStateException`, and `getOutputStream(A)` then returns `a2` | write-once: the duplicate call fails and `A` stays bound to `a1` | medium, not executed: the effect is visible only to a caller that catches the exception and keeps going | `Flink.ExecutorContext.SetOutput`, `Bindings.DuplicateBindReplaces` | `Flink.ExecutorContext.SetOutputOnce`, `Bindings.DuplicateBindOnceKeeps`, `Bindings.ReplayOnceKeeps` |
