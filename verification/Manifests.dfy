/** Engine manifests: the closed step registry, the declared loop and its stop conditions. */
module Manifests {
  import opened Options
  import opened ProjectStates

  datatype Step =
    | Clarify | AskUser | Plan | GenerateQueries | Search | FetchAndParse | ExtractEvidence
    | VerifyAndDedup | DetectContradictions | DetectGaps | GenerateFollowups
    | SpecialistPipeline | EvaluateConvergence | WriteReports

  /** The project state associated with each step. */
  function TargetState(step: Step): ProjectState {
    match step
    case Clarify | AskUser | Plan => Clarifying
    case GenerateQueries => Planned
    case Search => Searching
    case FetchAndParse => Fetching
    case ExtractEvidence => Extracting
    case VerifyAndDedup => Verifying
    case DetectContradictions | DetectGaps | SpecialistPipeline | EvaluateConvergence => AnalyzingGaps
    case GenerateFollowups => GeneratingFollowups
    case WriteReports => Synthesizing
  }

  function UpperName(step: Step): string {
    match step
    case Clarify => "CLARIFY"
    case AskUser => "ASK_USER"
    case Plan => "PLAN"
    case GenerateQueries => "GENERATE_QUERIES"
    case Search => "SEARCH"
    case FetchAndParse => "FETCH_AND_PARSE"
    case ExtractEvidence => "EXTRACT_EVIDENCE"
    case VerifyAndDedup => "VERIFY_AND_DEDUP"
    case DetectContradictions => "DETECT_CONTRADICTIONS"
    case DetectGaps => "DETECT_GAPS"
    case GenerateFollowups => "GENERATE_FOLLOWUPS"
    case SpecialistPipeline => "SPECIALIST_PIPELINE"
    case EvaluateConvergence => "EVALUATE_CONVERGENCE"
    case WriteReports => "WRITE_REPORTS"
  }

  datatype StepSpec = StepSpec(step: Step, pauseAfter: bool, gate: Option<string>) {
    /** The gate a pause after this step waits on; an empty name counts as none. */
    function GateName(): string {
      if gate.Some? && gate.value != "" then gate.value else "AFTER_" + UpperName(step)
    }
  }

  datatype Comparison = AtMost | Below | AtLeast | Above | Equal

  datatype StopCondition = StopCondition(metric: string, op: Comparison, value: real, afterIteration: nat)

  type Metrics = map<string, real>

  datatype Loop = Loop(
    setup: seq<StepSpec>,
    perIteration: seq<StepSpec>,
    stopWhen: seq<StopCondition>,
    synthesis: seq<StepSpec>)
  {
    function Steps(phase: Phase): seq<StepSpec> {
      match phase
      case Setup => setup
      case PerIteration => perIteration
      case Synthesis => synthesis
      case Done => []
    }

    /** The same loop with every declared pause removed. */
    function WithoutPauses(): Loop {
      Loop(Unpaused(setup), Unpaused(perIteration), stopWhen, Unpaused(synthesis))
    }
  }

  function Unpaused(steps: seq<StepSpec>): (r: seq<StepSpec>)
    ensures |r| == |steps|
    ensures forall i :: 0 <= i < |steps| ==> r[i] == steps[i].(pauseAfter := false)
  {
    seq(|steps|, i requires 0 <= i < |steps| => steps[i].(pauseAfter := false))
  }

  predicate Compare(op: Comparison, actual: real, value: real) {
    match op
    case AtMost => actual <= value
    case Below => actual < value
    case AtLeast => actual >= value
    case Above => actual > value
    case Equal => actual == value
  }

  /** A condition fires once its first iteration is reached and its metric is known and compares. */
  predicate Fires(cond: StopCondition, metrics: Metrics, iteration: nat) {
    && cond.afterIteration <= iteration
    && cond.metric in metrics
    && Compare(cond.op, metrics[cond.metric], cond.value)
  }

  predicate AnyFires(conditions: seq<StopCondition>, metrics: Metrics, iteration: nat) {
    exists i :: 0 <= i < |conditions| && Fires(conditions[i], metrics, iteration)
  }

  /** The comparisons leave nothing open: each is the denial of another, or of neither being strict. */
  lemma ComparisonLaws(x: real, y: real)
    ensures Compare(AtMost, x, y) <==> !Compare(Above, x, y)
    ensures Compare(AtLeast, x, y) <==> !Compare(Below, x, y)
    ensures Compare(Equal, x, y) <==> Compare(AtMost, x, y) && Compare(AtLeast, x, y)
    ensures Compare(Above, x, y) <==> Compare(Below, y, x)
    ensures Compare(AtMost, x, x) && Compare(AtLeast, x, x)
    ensures Compare(Below, x, x + 1.0) && !Compare(Above, x, x + 1.0)
  {
  }

  /** A condition waits for its first iteration, and from then on does not depend on the iteration; one on a
      metric that is not given never fires. */
  lemma FiresFrom(cond: StopCondition, metrics: Metrics, iteration: nat)
    ensures Fires(cond, metrics, iteration) <==> cond.afterIteration <= iteration && Fires(cond, metrics, cond.afterIteration)
    ensures cond.metric !in metrics ==> !Fires(cond, metrics, iteration)
    ensures cond.metric in metrics ==> (Fires(cond, metrics, cond.afterIteration) <==> Compare(cond.op, metrics[cond.metric], cond.value))
  {
  }

  lemma LastDiffers(a: string, b: string)
    requires a != b
    ensures "AFTER_" + a != "AFTER_" + b
  {
    var x, y := "AFTER_" + a, "AFTER_" + b;
    assert x[6..] == a && y[6..] == b;
  }

  /** The length and the first two letters of a step's name. */
  function Code(name: string): (nat, char, char) {
    if |name| < 2 then (|name|, ' ', ' ') else (|name|, name[0], name[1])
  }

  lemma NamesDiffer(a: Step, b: Step)
    requires a != b
    ensures UpperName(a) != UpperName(b)
  {
    assert Code(UpperName(a)) != Code(UpperName(b));
  }

  /** A gate that is given a name waits under that name, and those that are not under one of their own for
      every step. */
  lemma GateNames(a: StepSpec, b: StepSpec)
    ensures a.gate.Some? && a.gate.value != "" ==> a.GateName() == a.gate.value
    ensures a.gate == None == b.gate && a.step != b.step ==> a.GateName() != b.GateName()
  {
    if a.step != b.step {
      NamesDiffer(a.step, b.step);
      LastDiffers(UpperName(a.step), UpperName(b.step));
    }
    hide UpperName;
  }

  /** Reports the first condition that fires, if any. */
  method EvaluateStopConditions(conditions: seq<StopCondition>, metrics: Metrics, iteration: nat)
      returns (matched: bool, which: nat)
    ensures matched == AnyFires(conditions, metrics, iteration)
    ensures matched ==> which < |conditions| && Fires(conditions[which], metrics, iteration)
    ensures matched ==> forall i :: 0 <= i < which ==> !Fires(conditions[i], metrics, iteration)
  {
    matched, which := false, 0;
    for i := 0 to |conditions|
      invariant forall k :: 0 <= k < i ==> !Fires(conditions[k], metrics, iteration)
    {
      var cond := conditions[i];
      if iteration < cond.afterIteration {
        continue;
      }
      if cond.metric !in metrics {
        continue;
      }
      if Compare(cond.op, metrics[cond.metric], cond.value) {
        return true, i;
      }
    }
  }
}
