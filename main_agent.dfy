/**
 * The orchestrator of main_agent.py: one session memory shared by the three
 * stages, and a request passed Planner → Worker → Evaluator in protocol
 * envelopes.
 */
module Orchestrator {
  import opened Text
  import opened Artifacts
  import opened Memory
  import opened A2AProtocol
  import Planner
  import Worker
  import Evaluator

  /** The dictionary `handle_message` returns. */
  datatype AgentResult = AgentResult(response: string, plan: Plan, draft: Draft, evaluation: Evaluation)

  /** What one request yields, given the style found in memory when it starts. */
  function Pipeline(userInput: string, style: Value, formatMinutes: real -> string): AgentResult {
    var plan := Planner.PlanFor(userInput, style);
    var draft := Worker.DraftFor(plan, formatMinutes);
    var evaluation := Evaluator.Evaluate(draft, plan);
    AgentResult(evaluation.finalArticle, plan, draft, evaluation)
  }

  /**
   * The three envelopes of one request. They form a chain from the user to
   * the evaluator, each addressed to the stage that sends the next one, and
   * each carries what its receiver works on.
   */
  function Envelopes(userInput: string, plan: Plan, draft: Draft): (ms: seq<AgentMessage>)
    ensures |ms| == 3 && ms[0].sender == "user" && ms[2].receiver == "evaluator"
    ensures ms[0].receiver == "planner" && ms[1].receiver == "worker"
    ensures forall i :: 0 <= i < 2 ==> ms[i].receiver == ms[i + 1].sender
    ensures ms[0].task == "plan_youtube_to_blog" && ms[1].task == "generate_blog" && ms[2].task == "evaluate_blog"
    ensures ms[0].payload == map["user_input" := Str(userInput)]
    ensures ms[1].payload == map["plan" := PlanArtifact(plan)]
    ensures ms[2].payload == map["draft" := DraftArtifact(draft), "plan" := PlanArtifact(plan)]
    ensures forall i :: 0 <= i < 3 ==> ms[i].meta == None
  {
    [ BuildMessage("user", "planner", "plan_youtube_to_blog", map["user_input" := Str(userInput)], None),
      BuildMessage("planner", "worker", "generate_blog", map["plan" := PlanArtifact(plan)], None),
      BuildMessage("worker", "evaluator", "evaluate_blog",
                   map["draft" := DraftArtifact(draft), "plan" := PlanArtifact(plan)], None) ]
  }

  class MainAgent {
    /** The session memory every stage reads and writes. */
    const memory: SessionMemory
    /** The `{:.1f}` rendering the Worker uses for the reading time. */
    const formatMinutes: real -> string
    /** The envelopes built so far; the source builds them but keeps none. */
    ghost var sent: seq<AgentMessage>

    /** `MainAgent()`: a fresh, empty memory. */
    constructor (formatMinutes: real -> string)
      ensures fresh(memory) && memory.store == map[]
      ensures this.formatMinutes == formatMinutes && sent == []
    {
      memory := new SessionMemory();
      this.formatMinutes := formatMinutes;
      sent := [];
    }

    /**
     * `MainAgent.handle_message`: the result is the pipeline run under the
     * style memory held on entry; memory gains the plan, the draft and the
     * evaluation, in that order; three envelopes are built.
     */
    method HandleMessage(userInput: string) returns (result: AgentResult)
      modifies this, memory
      ensures result == Pipeline(userInput, old(memory.Get("style_preferences", Planner.DefaultStyle)), formatMinutes)
      ensures memory.store == old(memory.store)["last_plan" := PlanArtifact(result.plan)]
                                               ["last_draft" := DraftArtifact(result.draft)]
                                               ["last_evaluation" := EvaluationArtifact(result.evaluation)]
      ensures sent == old(sent) + Envelopes(userInput, result.plan, result.draft)
    {
      var planMsg, plan := PlannerStage(userInput);
      var workerMsg, draft := WorkerStage(plan);
      var evaluatorMsg, evaluation := EvaluatorStage(plan, draft);
      sent := sent + [planMsg, workerMsg, evaluatorMsg];
      result := AgentResult(evaluation.finalArticle, plan, draft, evaluation);
    }

    /** The user's request in an envelope to the planner, which plans from what it carries. */
    method PlannerStage(userInput: string) returns (msg: AgentMessage, plan: Plan)
      modifies memory
      ensures msg == BuildMessage("user", "planner", "plan_youtube_to_blog", map["user_input" := Str(userInput)], None)
      ensures plan == Planner.PlanFor(userInput, old(memory.Get("style_preferences", Planner.DefaultStyle)))
      ensures memory.store == old(memory.store)["last_plan" := PlanArtifact(plan)]
    {
      msg := BuildMessage("user", "planner", "plan_youtube_to_blog", map["user_input" := Str(userInput)], None);
      plan := Planner.CreatePlan(msg.payload["user_input"].text, memory);
    }

    /** The plan in an envelope to the worker, which drafts from what it carries. */
    method WorkerStage(plan: Plan) returns (msg: AgentMessage, draft: Draft)
      modifies memory
      ensures msg == BuildMessage("planner", "worker", "generate_blog", map["plan" := PlanArtifact(plan)], None)
      ensures draft == Worker.DraftFor(plan, formatMinutes)
      ensures memory.store == old(memory.store)["last_draft" := DraftArtifact(draft)]
    {
      msg := BuildMessage("planner", "worker", "generate_blog", map["plan" := PlanArtifact(plan)], None);
      draft := Worker.GenerateBlog(msg.payload["plan"].plan, memory, formatMinutes);
    }

    /** The draft and the plan in an envelope to the evaluator, which judges what it carries. */
    method EvaluatorStage(plan: Plan, draft: Draft) returns (msg: AgentMessage, evaluation: Evaluation)
      modifies memory
      ensures msg == BuildMessage("worker", "evaluator", "evaluate_blog",
                                  map["draft" := DraftArtifact(draft), "plan" := PlanArtifact(plan)], None)
      ensures evaluation == Evaluator.Evaluate(draft, plan)
      ensures memory.store == old(memory.store)["last_evaluation" := EvaluationArtifact(evaluation)]
    {
      msg := BuildMessage("worker", "evaluator", "evaluate_blog",
                          map["draft" := DraftArtifact(draft), "plan" := PlanArtifact(plan)], None);
      evaluation := Evaluator.EvaluateDraft(msg.payload["draft"].draft, msg.payload["plan"].plan, memory);
    }
  }

  /** `run_agent`: a new agent, so the default style, and only the response is returned. */
  method RunAgent(userInput: string, formatMinutes: real -> string) returns (response: string)
    ensures response == Pipeline(userInput, Planner.DefaultStyle, formatMinutes).response
  {
    var agent := new MainAgent(formatMinutes);
    var result := agent.HandleMessage(userInput);
    response := result.response;
  }

  /**
   * Every request is accepted: the score is 1.0, the response is the draft's
   * body stripped and opens with the title heading, the plan has at least one
   * section, and the style in force reaches both plan and draft.
   */
  lemma PipelineAccepts(userInput: string, style: Value, formatMinutes: real -> string)
    ensures var r := Pipeline(userInput, style, formatMinutes);
      && r.evaluation.score == 1.0 && r.evaluation.feedback == Evaluator.AcceptedFeedback
      && r.response == Strip(r.draft.body)
      && ("# " + r.draft.title) <= r.response
      && r.response != Evaluator.RejectedArticle
      && |r.plan.sections| >= 1
      && r.plan.style == style && r.draft.style == style
  {
    var r := Pipeline(userInput, style, formatMinutes);
    Planner.PlanSections(userInput, style);
    Worker.DraftOpensWithTitle(r.plan, formatMinutes);
    assert r.response[0] == '#';
    assert Evaluator.RejectedArticle[0] == 'N';
  }
}
