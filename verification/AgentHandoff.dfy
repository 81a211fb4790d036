/** Plan validation, and the hand-over of one step's result to the next step as an exact machine request. */
module AgentHandoff {
  import opened Wrappers
  import opened AgentAllowlist

  const ADAPTER := "adapter"
  const PREVIOUS_JSON := "contextbridge.previous-json.v1"

  datatype Step = Step(id: string, provider: string, profile: string, instruction: string, usePrevious: bool)

  /** Whether an instruction is text of acceptable size and encoding. */
  datatype Rules = Rules(providers: seq<string>, profiles: seq<string>, maxSteps: nat, textOk: string -> bool)

  /** What validation demands of step `i`, apart from distinct identifiers. */
  predicate StepOk(rules: Rules, steps: seq<Step>, i: nat)
    requires i < |steps|
  {
    var s := steps[i];
    && SafeName(s.id) && s.provider in rules.providers && (i == 0 ==> !s.usePrevious)
    && (if s.provider == ADAPTER then
          && s.profile != "" && s.profile in rules.profiles
          && (s.usePrevious <==> s.instruction == PREVIOUS_JSON)
          && (s.usePrevious ==> i > 0 && steps[i - 1].provider != ADAPTER)
        else s.profile == "")
    && rules.textOk(s.instruction)
  }

  ghost predicate ValidSteps(rules: Rules, steps: seq<Step>) {
    && 1 <= |steps| <= rules.maxSteps
    && (forall i :: 0 <= i < |steps| ==> StepOk(rules, steps, i))
    && (forall i, j :: 0 <= i < j < |steps| ==> steps[i].id != steps[j].id)
  }

  method ValidateStep(rules: Rules, steps: seq<Step>, index: nat) returns (ok: bool)
    requires index < |steps|
    ensures ok <==> StepOk(rules, steps, index)
  {
    hide SafeName;
    var step := steps[index];
    if !SafeName(step.id) || step.provider !in rules.providers || (index == 0 && step.usePrevious) {
      return false;
    }
    if step.provider == ADAPTER {
      if step.profile == "" || step.profile !in rules.profiles {
        return false;
      }
      if step.usePrevious {
        if step.instruction != PREVIOUS_JSON || steps[index - 1].provider == ADAPTER {
          return false;
        }
      } else if step.instruction == PREVIOUS_JSON {
        return false;
      }
    } else if step.profile != "" {
      return false;
    }
    ok := rules.textOk(step.instruction);
  }

  method ValidateSteps(rules: Rules, steps: seq<Step>) returns (ok: bool)
    ensures ok <==> ValidSteps(rules, steps)
  {
    hide StepOk;
    if |steps| == 0 || |steps| > rules.maxSteps {
      return false;
    }
    var ids: set<string> := {};
    for index := 0 to |steps|
      invariant forall i :: 0 <= i < index ==> StepOk(rules, steps, i)
      invariant forall x :: x in ids <==> exists i :: 0 <= i < index && steps[i].id == x
      invariant forall i, j :: 0 <= i < j < index ==> steps[i].id != steps[j].id
    {
      if steps[index].id in ids {
        return false;
      }
      ids := ids + {steps[index].id};
      ok := ValidateStep(rules, steps, index);
      if !ok {
        return;
      }
    }
    ok := true;
  }

  // ----- What a step is sent -----

  datatype Mode = PlainText | Json
  datatype Prompt = Own(instruction: string) | ForAdapter | ForExactRequest(prompt: Prompt, contract: string)
  datatype JobInput = JobInput(prompt: Prompt, text: string, mode: Mode)

  /**
   * The instruction contract an operator gave each adapter profile, text trimmed of blanks, and the strict reading of a
   * result as exactly one JSON object.
   */
  datatype Config = Config(contract: string -> Option<string>, trim: string -> string, exact: string -> Option<string>)

  predicate Contracted(cfg: Config, profile: string) {
    cfg.contract(profile).Some? && cfg.contract(profile).value != ""
  }

  function StepJobInput(cfg: Config, step: Step, previous: string): (r: Option<JobInput>) {
    if step.provider != ADAPTER then
      Some(JobInput(Own(step.instruction), if step.usePrevious then previous else "", PlainText))
    else
      var mode := if Contracted(cfg, step.profile) then Json else PlainText;
      if !step.usePrevious then Some(JobInput(ForAdapter, step.instruction, mode))
      else if !Contracted(cfg, step.profile) || cfg.exact(previous).None? then None
      else Some(JobInput(ForAdapter, cfg.exact(previous).value, mode))
  }

  predicate FeedsExactRequest(steps: seq<Step>, i: nat) {
    && i + 1 < |steps| && steps[i].provider != ADAPTER
    && steps[i + 1].provider == ADAPTER && steps[i + 1].usePrevious && steps[i + 1].instruction == PREVIOUS_JSON
  }

  function Trimmed(cfg: Config, prompt: Prompt): (p: Prompt) {
    if prompt.Own? then Own(cfg.trim(prompt.instruction)) else prompt
  }

  function PromptForExactRequest(cfg: Config, steps: seq<Step>, i: nat, prompt: Prompt): (r: Option<Prompt>)
    requires FeedsExactRequest(steps, i)
  {
    var contract := cfg.contract(steps[i + 1].profile);
    if contract.None? || cfg.trim(contract.value) == "" then None
    else Some(ForExactRequest(Trimmed(cfg, prompt), cfg.trim(contract.value)))
  }

  /** What step `i` is submitted with, given the result before it. */
  function InputFor(cfg: Config, steps: seq<Step>, i: nat, previous: string): (r: Option<JobInput>)
    requires i < |steps|
  {
    var input := StepJobInput(cfg, steps[i], previous);
    if input.None? || !FeedsExactRequest(steps, i) then input
    else
      var prompt := PromptForExactRequest(cfg, steps, i, input.value.prompt);
      if prompt.None? then None else Some(input.value.(prompt := prompt.value, mode := Json))
  }

  // ----- The hand-over is safe -----

  /** In a valid plan a step is marked as feeding a request exactly when the next step is an adapter using its result. */
  lemma FeedsExactly(rules: Rules, steps: seq<Step>, i: nat)
    requires ValidSteps(rules, steps) && i < |steps|
    ensures FeedsExactRequest(steps, i) <==>
            i + 1 < |steps| && steps[i + 1].provider == ADAPTER && steps[i + 1].usePrevious
  {
    hide SafeName;
    if i + 1 < |steps| {
      assert StepOk(rules, steps, i + 1);
    }
  }

  /** The input of an adapter step that uses the previous result is the strict reading of it, under a contract. */
  lemma ExactInput(cfg: Config, steps: seq<Step>, j: nat, previous: string)
    requires j < |steps| && steps[j].provider == ADAPTER && steps[j].usePrevious
    requires InputFor(cfg, steps, j, previous).Some?
    ensures Contracted(cfg, steps[j].profile)
    ensures cfg.exact(previous) == Some(InputFor(cfg, steps, j, previous).value.text)
    ensures InputFor(cfg, steps, j, previous).value.mode == Json
  {
  }

  /** The input of a step that feeds an adapter demands JSON and shows the adapter's contract. */
  lemma FeederInput(cfg: Config, steps: seq<Step>, i: nat, previous: string)
    requires i < |steps| && FeedsExactRequest(steps, i) && InputFor(cfg, steps, i, previous).Some?
    ensures cfg.contract(steps[i + 1].profile).Some? && cfg.trim(cfg.contract(steps[i + 1].profile).value) != ""
    ensures InputFor(cfg, steps, i, previous).value.mode == Json
    ensures InputFor(cfg, steps, i, previous).value.prompt ==
      ForExactRequest(Own(cfg.trim(steps[i].instruction)), cfg.trim(cfg.contract(steps[i + 1].profile).value))
  {
  }

  lemma ShownIsFeeder(cfg: Config, steps: seq<Step>, i: nat, previous: string)
    requires i < |steps| && InputFor(cfg, steps, i, previous).Some?
    requires InputFor(cfg, steps, i, previous).value.prompt.ForExactRequest?
    ensures FeedsExactRequest(steps, i)
  {
  }
}
