/**
 * The values the stages hand to each other and keep in session memory. The
 * source passes plain dictionaries; here each artifact is a record with the
 * keys the stage that builds it writes, and a memory or payload value is one
 * of the kinds of value the pipeline stores.
 */
module Artifacts {

  datatype Option<T> = None | Some(value: T)

  /** A value held in session memory or carried in a message payload. */
  datatype Value =
    | Str(text: string)
    | Style(prefs: map<string, string>)
    | PlanArtifact(plan: Plan)
    | DraftArtifact(draft: Draft)
    | EvaluationArtifact(evaluation: Evaluation)

  /** The Planner's dictionary: `task`, `original_input`, `transcript`, `sections`, `style`. */
  datatype Plan = Plan(task: string, originalInput: string, transcript: string, sections: seq<string>, style: Value)

  /** The Worker's dictionary: `title`, `summary`, `keywords`, `body`, `style`. */
  datatype Draft = Draft(title: string, summary: string, keywords: seq<string>, body: string, style: Value)

  /** The Evaluator's dictionary: `score`, `feedback`, `final_article`. */
  datatype Evaluation = Evaluation(score: real, feedback: string, finalArticle: string)
}
