/**
 * The Planner stage of project/agents/planner.py: it reads the style
 * preferences from memory, fetches the (simulated) transcript, chunks it into
 * sections of at most 800 characters (a single longer line becomes a section
 * of its own) and records the plan.
 */
module Planner {
  import opened Text
  import opened Artifacts
  import opened Memory
  import Tools
  import ContextEngineering

  const Task: string := "youtube_to_blog"
  const MaxSectionChars: int := 800

  /** The style used when memory holds no "style_preferences". */
  const DefaultStyle: Value := Style(map["tone" := "simple", "length" := "medium"])

  /** The plan `create_plan` builds for `userInput` under the style it found in memory. */
  function PlanFor(userInput: string, style: Value): Plan {
    var transcript := Tools.Fetch(userInput);
    Plan(Task, userInput, transcript, ContextEngineering.Chunks(transcript, MaxSectionChars), style)
  }

  /** `Planner.create_plan`: the memory gains "last_plan" and nothing else changes. */
  method CreatePlan(userInput: string, memory: SessionMemory) returns (plan: Plan)
    modifies memory
    ensures plan == PlanFor(userInput, old(memory.Get("style_preferences", DefaultStyle)))
    ensures memory.store == old(memory.store)["last_plan" := PlanArtifact(plan)]
  {
    var style := memory.Get("style_preferences", DefaultStyle);
    var transcript := Tools.Fetch(userInput);
    var sections := ContextEngineering.ChunkText(transcript, MaxSectionChars);
    plan := Plan(Task, userInput, transcript, sections, style);
    memory.Set("last_plan", PlanArtifact(plan));
  }

  /**
   * Every plan has at least one section; the sections, rejoined with line
   * breaks, give back the transcript's non-blank lines; a section is at most
   * 800 characters unless it is one over-long line; and the plan remembers
   * the request, its transcript and the style it was given.
   */
  lemma PlanSections(userInput: string, style: Value)
    ensures var p := PlanFor(userInput, style);
      && p.task == Task && p.originalInput == userInput && p.style == style
      && |p.sections| >= 1
      && Join(p.sections, "\n") == Join(ContextEngineering.Paragraphs(p.transcript), "\n")
      && (forall c :: c in p.sections ==> |c| <= MaxSectionChars || c in ContextEngineering.Paragraphs(p.transcript))
      && (forall c :: c in p.sections ==> c != "" && Stripped(c))
  {
    var transcript := Tools.Fetch(userInput);
    Tools.FetchInjectiveAndNeverBlank(userInput, userInput);
    ContextEngineering.ChunksEmptyIffBlank(transcript, MaxSectionChars);
    ContextEngineering.ChunksRoundTrip(transcript, MaxSectionChars);
    ContextEngineering.ChunksSizeBound(transcript, MaxSectionChars);
    ContextEngineering.ChunksAreStripped(transcript, MaxSectionChars);
  }
}
