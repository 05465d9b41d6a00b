/** The compiler of Canvas patches: when it accepts a patch, and what it then publishes. */
module CanvasPatchCompiler {
  import opened JsonValues
  import opened CanvasJson
  import opened CanvasPatch
  import opened CanvasPatchProofs
  import opened CanvasContents

  /** When a patch is accepted, stated without the document: by the operations on the graph alone. */
  predicate Acceptable(source: Json, ops: seq<Operation>) {
    && Canonicalize(ops).None?
    && FromJson(source).Some? && GraphOk(FromJson(source).value)
    && var r := Steps(Begin(source, FromJson(source).value), ops);
       r.Ok? && GraphOk(r.value.expected)
  }

  method CompileCanvasPatch(source: Json, operations: seq<Operation>) returns (r: Result<Compiled>)
    ensures r.Ok? <==> Acceptable(source, operations)
    ensures r.Ok? ==>
              && FromJson(r.value.next).Some?
              && Published(FromJson(source).value, operations, r.value.proof, FromJson(r.value.next).value)
              && PatchedAsAsked(FromJson(source).value, operations, FromJson(r.value.next).value)
    ensures r.Fail? ==> r.reason !in {ProjectionMismatch, RootProjectionMismatch, EntityProjectionMismatch}
  {
    CanonicalRefusals(operations);
    if Canonicalize(operations).Some? { return Fail(Canonicalize(operations).value); }
    CheckAllMeans(operations, {}, {});
    var parsed := FromJson(source);
    if parsed.None? { return Fail(EntityArrayRequired); }
    var before := parsed.value;
    if !GraphOk(before) { return Fail(GraphInvalidBefore); }
    RoundTrip(source);

    var progress := Begin(source, before);
    var i := 0;
    while i < |operations|
      invariant 0 <= i <= |operations|
      invariant Steps(Begin(source, before), operations[..i]) == Ok(progress)
    {
      var next := Step(progress, operations[i]);
      assert operations[..i + 1][..i] == operations[..i];
      if next.Fail? {
        StepsFail(Begin(source, before), operations, i + 1);
        StepRefusals(progress, operations[i]);
        return Fail(next.reason);
      }
      progress := next.value;
      i := i + 1;
    }
    assert operations[..i] == operations;
    PatchAccounted(before, operations);
    PatchIsAsAsked(before, operations);
    FinishDecides(before, operations, progress);
    r := Finish(before, progress);
    if r.Ok? {
      FinishPublishes(before, operations, progress);
      ParseBack(progress.expected);
    }
  }

  lemma {:induction false} StepsFail(p: Progress, ops: seq<Operation>, k: nat)
    requires k <= |ops| && Steps(p, ops[..k]).Fail?
    ensures Steps(p, ops).Fail?
    decreases |ops|
  {
    if k == |ops| {
      assert ops[..k] == ops;
    } else {
      assert ops[..|ops| - 1][..k] == ops[..k];
      StepsFail(p, ops[..|ops| - 1], k);
    }
  }

  lemma StepRefusals(p: Progress, op: Operation)
    requires Step(p, op).Fail?
    ensures Step(p, op).reason !in {ProjectionMismatch, RootProjectionMismatch, EntityProjectionMismatch}
  {
  }

  lemma CanonicalRefusals(ops: seq<Operation>)
    ensures Canonicalize(ops).Some? ==> Canonicalize(ops).value !in {ProjectionMismatch, RootProjectionMismatch, EntityProjectionMismatch}
  {
    CheckAllRefusals(ops, {}, {});
  }

  lemma CheckAllRefusals(ops: seq<Operation>, nodes: set<string>, edges: set<string>)
    ensures CheckAll(ops, nodes, edges).Some? ==>
              CheckAll(ops, nodes, edges).value !in {ProjectionMismatch, RootProjectionMismatch, EntityProjectionMismatch}
  {
  }
}
