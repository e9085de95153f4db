/**
 * The Evaluator stage of agents/evaluator.py: it strips the draft's body and
 * accepts it when something is left, rejecting an empty article.
 */
module Evaluator {
  import opened Text
  import opened Artifacts
  import opened Memory

  const AcceptedFeedback: string := "For this demo, the generated article looks acceptable."
  const RejectedFeedback: string := "No article content generated."
  const RejectedArticle: string := "No article generated."

  /**
   * `Evaluator.evaluate` without its memory write. The plan is handed over but
   * not consulted. The score is 1.0 exactly when the stripped body is
   * non-empty, and the final article is that stripped body; otherwise the
   * score is 0.0 and both texts are the fixed rejection messages.
   */
  function Evaluate(draft: Draft, plan: Plan): (r: Evaluation)
    ensures r.score == 1.0 || r.score == 0.0
    ensures r.score == 1.0 <==> !AllSpace(draft.body)
    ensures r.score == 1.0 ==> r.finalArticle == Strip(draft.body) && r.feedback == AcceptedFeedback
    ensures r.score == 0.0 ==> r.finalArticle == RejectedArticle && r.feedback == RejectedFeedback
    ensures r.finalArticle != "" && Stripped(r.finalArticle)
  {
    var body := Strip(draft.body);
    if body == "" then Evaluation(0.0, RejectedFeedback, RejectedArticle)
    else Evaluation(1.0, AcceptedFeedback, body)
  }

  /** `Evaluator.evaluate`: the evaluation is also recorded under "last_evaluation". */
  method EvaluateDraft(draft: Draft, plan: Plan, memory: SessionMemory) returns (r: Evaluation)
    modifies memory
    ensures r == Evaluate(draft, plan)
    ensures memory.store == old(memory.store)["last_evaluation" := EvaluationArtifact(r)]
  {
    var body := Strip(draft.body);
    if body == "" {
      r := Evaluation(0.0, RejectedFeedback, RejectedArticle);
    } else {
      r := Evaluation(1.0, AcceptedFeedback, body);
    }
    memory.Set("last_evaluation", EvaluationArtifact(r));
  }

  /**
   * The verdict depends on the draft's body alone, and evaluating the final
   * article again as a body gives back the same article: the evaluator is a
   * fixed point on its own output.
   */
  lemma EvaluateDependsOnBodyOnly(d1: Draft, d2: Draft, p1: Plan, p2: Plan)
    requires d1.body == d2.body
    ensures Evaluate(d1, p1) == Evaluate(d2, p2)
    ensures Evaluate(d1.(body := Evaluate(d1, p1).finalArticle), p1).finalArticle == Evaluate(d1, p1).finalArticle
  {
    var a := Evaluate(d1, p1).finalArticle;
    assert !IsSpace(a[0]);
    assert !AllSpace(a);
    assert Strip(a) == a;
  }
}
