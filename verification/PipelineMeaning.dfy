/** knowledge_mining/mining/pipeline.py: what a returned document is, in terms of the documents given and the
    stage functions alone. */
module PipelineMeaning {
  import opened Common
  import opened PipelineRuns
  import opened PipelineShutdown
  import opened PipelineTermination
  import opened StreamingPipeline

  /** A finished run and what it returned. */
  ghost predicate Returns(p: Pipeline, states: seq<State>, steps: seq<Step>, out: seq<Ctx>) {
    IsRun(p, states, steps) && states[|steps|].main == Finished(out)
  }

  /** The documents get their positions as numbers before they enter. */
  function Entering(p: Pipeline, k: nat): Ctx
    requires k < |p.items|
  {
    p.items[k].(sequenceId := k)
  }

  /** Plain function composition: the stages from `from` up to, not including, `last`, each on what the one
      before returned, up to the first exception. */
  function Composed(p: Pipeline, from: nat, last: nat, c: Ctx): Outcome
    requires from <= last <= |p.stages|
    decreases last
  {
    if last == from then Returned(c)
    else
      match Composed(p, from, last - 1, c)
      case Returned(d) => p.stages[last - 1].run(d)
      case Raised(m) => Raised(m)
  }

  predicate Watched(p: Pipeline, c: Ctx) {
    p.tracked && c.runDocumentId != None
  }

  /** A document that a stage is handed but does not run on. */
  predicate PassedOver(p: Pipeline, c: Ctx) {
    Watched(p, c) && c.error.Some? && |c.error.value| > 0
  }

  /** From `from` up to `last` every stage runs and returns. */
  ghost predicate AllRun(p: Pipeline, from: nat, last: nat, c: Ctx)
    requires from <= last <= |p.stages|
  {
    && (forall i :: from <= i <= last ==> Composed(p, from, i, c).Returned?)
    && (forall i :: from <= i < last ==> !PassedOver(p, Composed(p, from, i, c).ctx))
  }

  function Head(s: string, n: nat): string {
    if |s| < n then s else s[..n]
  }

  // ---------------------------------------------------------------- from the machine's meaning to the plain one

  lemma {:induction false} RunThrough(p: Pipeline, from: nat, last: nat, k: nat)
    requires from <= last <= |p.stages| && k < |p.items| && AllRun(p, from, last, Prefix(p, from, k))
    ensures Composed(p, from, last, Prefix(p, from, k)) == Returned(Prefix(p, last, k))
    decreases last
  {
    if last > from {
      RunThrough(p, from, last - 1, k);
      assert !PassedOver(p, Composed(p, from, last - 1, Prefix(p, from, k)).ctx);
      assert Composed(p, from, last, Prefix(p, from, k)).Returned?;
    }
  }

  lemma {:induction false} StaysPassedOver(p: Pipeline, from: nat, last: nat, k: nat)
    requires from <= last <= |p.stages| && k < |p.items| && PassedOver(p, Prefix(p, from, k))
    ensures Prefix(p, last, k) == Prefix(p, from, k)
    decreases last
  {
    if last > from {
      StaysPassedOver(p, from, last - 1, k);
    }
  }

  lemma WorkThatRaises(p: Pipeline, j: nat, k: nat, m: string)
    requires j < |p.stages| && k < |p.items| && !PassedOver(p, Prefix(p, j, k))
    requires p.stages[j].run(Prefix(p, j, k)) == Raised(m)
    ensures Prefix(p, j + 1, k) == Prefix(p, j, k).(error := Some(Head(m, 500)))
  {
    assert m[..|m|] == m;
  }

  lemma ReturnsPrefix(p: Pipeline, states: seq<State>, steps: seq<Step>, out: seq<Ctx>, k: nat)
    requires Valid(p) && Returns(p, states, steps, out) && k < |p.items|
    ensures |out| == |p.items| && out[k] == Prefix(p, |p.stages|, k)
  {
    ReturnsExpected(p, states, steps);
  }

  // ---------------------------------------------------------------- under every schedule

  /** No exception, no error on the way: position `k` holds the composition of the stages on document `k`. */
  lemma NoFailure(p: Pipeline, states: seq<State>, steps: seq<Step>, out: seq<Ctx>, k: nat)
    requires Valid(p) && Returns(p, states, steps, out) && k < |p.items|
    requires AllRun(p, 0, |p.stages|, Entering(p, k))
    ensures |out| == |p.items| && Composed(p, 0, |p.stages|, Entering(p, k)) == Returned(out[k])
  {
    ReturnsPrefix(p, states, steps, out, k);
    RunThrough(p, 0, |p.stages|, k);
  }

  /** A document that carries an error, under a tracker: no later stage runs on it. */
  lemma PassedOverIsFinal(p: Pipeline, states: seq<State>, steps: seq<Step>, out: seq<Ctx>, k: nat, j: nat)
    requires Valid(p) && Returns(p, states, steps, out) && k < |p.items| && j <= |p.stages|
    requires AllRun(p, 0, j, Entering(p, k)) && PassedOver(p, Composed(p, 0, j, Entering(p, k)).ctx)
    ensures |out| == |p.items| && Composed(p, 0, j, Entering(p, k)) == Returned(out[k])
  {
    ReturnsPrefix(p, states, steps, out, k);
    RunThrough(p, 0, j, k);
    StaysPassedOver(p, j, |p.stages|, k);
  }

  /** Stage `j` is the first to raise. Under a tracker the document comes back as it was handed to that stage,
      with the first 500 characters of the message as its error; without one, or if the message is empty, the
      later stages run on it in that state. */
  lemma FirstException(p: Pipeline, states: seq<State>, steps: seq<Step>, out: seq<Ctx>, k: nat, j: nat, m: string)
    requires Valid(p) && Returns(p, states, steps, out) && k < |p.items| && j < |p.stages|
    requires AllRun(p, 0, j, Entering(p, k))
    requires var d := Composed(p, 0, j, Entering(p, k)).ctx; !PassedOver(p, d) && p.stages[j].run(d) == Raised(m)
    ensures |out| == |p.items|
    ensures var d := Composed(p, 0, j, Entering(p, k)).ctx;
            var failed := d.(error := Some(Head(m, 500)));
            && (Watched(p, d) && |m| > 0 ==> out[k] == failed)
            && (!(Watched(p, d) && |m| > 0) && AllRun(p, j + 1, |p.stages|, failed) ==>
                  Composed(p, j + 1, |p.stages|, failed) == Returned(out[k]))
  {
    ReturnsPrefix(p, states, steps, out, k);
    RunThrough(p, 0, j, k);
    WorkThatRaises(p, j, k, m);
    var failed := Prefix(p, j + 1, k);
    if Watched(p, Prefix(p, j, k)) && |m| > 0 {
      assert PassedOver(p, failed);
      StaysPassedOver(p, j + 1, |p.stages|, k);
    } else if AllRun(p, j + 1, |p.stages|, failed) {
      RunThrough(p, j + 1, |p.stages|, k);
    }
  }

  // ---------------------------------------------------------------- however often stages raise

  /** One stage, one document. */
  predicate Turn(stage: Stage, tracked: bool, before: Ctx, after: Ctx) {
    if tracked && before.runDocumentId.Some? && before.error.Some? && before.error.value != [] then after == before
    else if stage.run(before).Returned? then stage.run(before) == Returned(after)
    else
      && after.error.Some? && after == before.(error := after.error)
      && after.error.value <= stage.run(before).message
      && |after.error.value| == if |stage.run(before).message| < 500 then |stage.run(before).message| else 500
  }

  /** The document before the first stage, between the stages and after the last. */
  ghost predicate IsPassage(p: Pipeline, k: nat, passage: seq<Ctx>) {
    && k < |p.items| && |passage| == |p.stages| + 1 && passage[0] == p.items[k].(sequenceId := k)
    && forall i :: 0 <= i < |p.stages| ==> Turn(p.stages[i], p.tracked, passage[i], passage[i + 1])
  }

  lemma WorkIsTurn(stage: Stage, tracked: bool, c: Ctx)
    ensures Turn(stage, tracked, c, Work(stage, tracked, c))
  {
  }

  lemma PassageOf(p: Pipeline, k: nat) returns (passage: seq<Ctx>)
    requires k < |p.items|
    ensures IsPassage(p, k, passage) && passage[|p.stages|] == Prefix(p, |p.stages|, k)
  {
    passage := seq(|p.stages| + 1, i requires 0 <= i <= |p.stages| => Prefix(p, i, k));
    forall i | 0 <= i < |p.stages| ensures Turn(p.stages[i], p.tracked, passage[i], passage[i + 1]) {
      WorkIsTurn(p.stages[i], p.tracked, passage[i]);
    }
  }

  lemma OneTurn(stage: Stage, tracked: bool, before: Ctx, a: Ctx, b: Ctx)
    requires Turn(stage, tracked, before, a) && Turn(stage, tracked, before, b)
    ensures a == b
  {
    if !(tracked && before.runDocumentId.Some? && HasError(before)) && stage.run(before).Raised? {
      var m := stage.run(before).message;
      assert a.error.value == m[..|a.error.value|] && b.error.value == m[..|b.error.value|];
    }
  }

  /** Two passages of one document are the same: the stages decide it. */
  lemma {:induction false} OnePassage(p: Pipeline, k: nat, a: seq<Ctx>, b: seq<Ctx>, i: nat)
    requires IsPassage(p, k, a) && IsPassage(p, k, b) && i <= |p.stages|
    ensures a[i] == b[i]
  {
    if i > 0 {
      OnePassage(p, k, a, b, i - 1);
      OneTurn(p.stages[i - 1], p.tracked, a[i - 1], a[i], b[i]);
    }
  }

  /** In every case: position `k` holds the end of the passage of document `k`, and there is one. */
  lemma ReturnsEndOfPassage(p: Pipeline, states: seq<State>, steps: seq<Step>, out: seq<Ctx>, k: nat)
    returns (passage: seq<Ctx>)
    requires Valid(p) && Returns(p, states, steps, out) && k < |p.items|
    ensures |out| == |p.items| && IsPassage(p, k, passage) && out[k] == passage[|p.stages|]
    ensures forall other :: IsPassage(p, k, other) ==> other[|p.stages|] == out[k]
  {
    ReturnsPrefix(p, states, steps, out, k);
    passage := PassageOf(p, k);
    forall other | IsPassage(p, k, other) ensures other[|p.stages|] == out[k] {
      OnePassage(p, k, passage, other, |p.stages|);
    }
  }

  // ---------------------------------------------------------------- running under a scheduler

  ghost predicate CanMove(p: Pipeline, s: State)
    requires Shape(p, s)
  {
    exists step :: Enabled(p, s, step)
  }

  ghost predicate Obliging(p: Pipeline, schedule: State -> Step) {
    forall s :: Shape(p, s) && CanMove(p, s) ==> Enabled(p, s, schedule(s))
  }

  /** `process_all` under any scheduler that picks an enabled step whenever there is one. */
  method ProcessAll(p: Pipeline, schedule: State -> Step) returns (out: seq<Ctx>)
    requires Valid(p) && Staffed(p)
    requires Obliging(p, schedule)
    ensures out == Expected(p)
    ensures forall k :: 0 <= k < |p.items| ==> exists passage :: IsPassage(p, k, passage) && passage[|p.stages|] == out[k]
  {
    var s := Init(p);
    InitInv(p);
    while !s.main.Finished?
      invariant Inv(p, s)
      decreases StepsLeft(p, s)
    {
      var some := NoDeadlock(p, s);
      assert Enabled(p, s, some) && CanMove(p, s);
      var step := schedule(s);
      NextInv(p, s, step);
      NextStepsLeft(p, s, step);
      StepsLeftNotNegative(p, s);
      s := Next(p, s, step);
    }
    out := s.main.out;
    forall k | 0 <= k < |p.items| ensures exists passage :: IsPassage(p, k, passage) && passage[|p.stages|] == out[k] {
      var passage := PassageOf(p, k);
    }
  }
}
