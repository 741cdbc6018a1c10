/** The prompt composer of `chat_gpt` in chatGPT.py: a base prompt and a set
    of keyword flags become the final prompt text and the temperature handed
    to the completion service. */
module ChatGpt {
  import Pipeline
  import PyValues

  /** The keyword arguments of `chat_gpt` that shape the prompt. */
  datatype Options = Options(
    role: string,
    expertise: string,
    learner: bool,
    level: string,
    stepByStep: bool,
    explainLogic: bool,
    explainAssumptions: bool,
    code: bool,
    programLanguage: string,
    stepByStepCode: bool,
    includeFunction: bool,
    docstring: bool,
    comments: bool,
    doctest: bool,
    imports: bool,
    elegantCode: bool,
    snippet: PyValues.PyValue,
    justCode: bool,
    exceptions: bool)

  /** The keyword defaults of `chat_gpt`. */
  function Defaults(): Options
  {
    Options(
      role := "", expertise := "20 years of experience",
      learner := false, level := "12 year old child",
      stepByStep := false, explainLogic := false, explainAssumptions := false,
      code := false, programLanguage := "Python==3.11",
      stepByStepCode := false, includeFunction := false, docstring := false,
      comments := false, doctest := false, imports := false,
      elegantCode := false, snippet := PyValues.PyBool(false),
      justCode := false, exceptions := false)
  }

  /** The default of the `temperature` keyword. */
  const DefaultTemperature: real := 0.8
  /** The temperature that a code request forces. */
  const CodeTemperature: real := 0.2

  /** The review list that `elegant_code` appends: an instruction line and
      ten numbered, indented steps, each ending in a new line. The text is
      kept line by line; `ChecklistFrom(k)` is the list from line `k` on,
      empty past the last line, so `ChecklistFrom(0)` is the whole list. */
  function ChecklistFrom(k: nat): string
    decreases 11 - k, 1
  {
    if k >= 11 then "" else LineAndRest(k)
  }

  /** Line `k` of the review list followed by the lines after it. */
  function LineAndRest(k: nat): string
    requires k < 11
    decreases 11 - k, 0
  {
    match k
    case 0 => "Perform each of the next 10 steps below in order, evaluating and reworking the code:\n" + ChecklistFrom(1)
    case 1 => "    1. Code Readability: Look for clear and well-structured code that is easy to understand. The code should be properly indented, have meaningful variable and function names, and follow a consistent coding style.\n" + ChecklistFrom(2)
    case 2 => "    2. Modular and Reusable Design: Check if the code follows the principles of modularity and reusability. Well-designed code should be divided into logical modules and functions that can be reused in different contexts without causing side effects.\n" + ChecklistFrom(3)
    case 3 => "    3. Performance and Efficiency: Assess if the code is optimized for performance and resource usage. Evaluate algorithms, loops, and data structures to ensure they are efficiently implemented. Avoid unnecessary computations and minimize memory consumption.\n" + ChecklistFrom(4)
    case 4 => "    4. Error Handling and Exception Handling: Check if the code handles errors and exceptions effectively. Look for proper error messages, logging of exceptions, and appropriate handling of edge cases to prevent unexpected crashes or incorrect behavior.\n" + ChecklistFrom(5)
    case 5 => "    5. Code Maintainability: Evaluate if the code is maintainable in the long term. Look for the presence of inline comments, useful documentation, and version control usage. Consider if the code can be easily updated, extended, or refactored without introducing bugs.\n" + ChecklistFrom(6)
    case 6 => "    6. Testability and Test Coverage: Assess if the code has unit tests and if the tests cover a significant portion of the codebase. Good code should have a comprehensive set of tests to ensure reliability and facilitate future modifications.\n" + ChecklistFrom(7)
    case 7 => "    7. Security Considerations: Check if the code follows secure coding practices. Look for proper input validation, protection against common vulnerabilities like SQL injection or cross-site scripting, and handling of sensitive data.\n" + ChecklistFrom(8)
    case 8 => "    8. Integration and Interoperability: Evaluate if the code interacts seamlessly with external systems or libraries. Check if it adheres to relevant standards, APIs, and protocols.\n" + ChecklistFrom(9)
    case 9 => "    9. Documentation: Assess if the code is well-documented, including inline comments, docstrings, and external documentation files. Good documentation helps other developers understand the code and accelerates onboarding.\n" + ChecklistFrom(10)
    case 10 => "    10. Code Consistency: Look for consistent coding patterns and adherence to design principles. Consistency in code style, naming conventions, and architectural choices is crucial for maintainability and collaboration.\n" + ChecklistFrom(11)
  }

  /** The clauses the composer may append, one per conditional step. */
  datatype Clause =
    | Learner | StepByStep | ExplainLogic | ExplainAssumptions | Language
    | CodeSteps | Function | Docstring | Comments | Doctest | Imports
    | Exceptions | ElegantCode | Snippet | FunctionOutput | JustCode
  {
    /** The five code features whose wording follows `step_by_step_code`. */
    predicate IsCodeFeature()
    {
      Function? || Docstring? || Comments? || Doctest? || Imports?
    }
  }

  /** The fixed order in which the clauses are appended. */
  const Order: seq<Clause> := [
    Learner, StepByStep, ExplainLogic, ExplainAssumptions, Language,
    CodeSteps, Function, Docstring, Comments, Doctest, Imports,
    Exceptions, ElegantCode, Snippet, FunctionOutput, JustCode]

  /** The place of a clause in the pipeline; every clause has exactly one. */
  function Rank(c: Clause): (i: nat)
    ensures i < |Order| && Order[i] == c
  {
    match c
    case Learner => 0
    case StepByStep => 1
    case ExplainLogic => 2
    case ExplainAssumptions => 3
    case Language => 4
    case CodeSteps => 5
    case Function => 6
    case Docstring => 7
    case Comments => 8
    case Doctest => 9
    case Imports => 10
    case Exceptions => 11
    case ElegantCode => 12
    case Snippet => 13
    case FunctionOutput => 14
    case JustCode => 15
  }

  /** Whether the flag guarding a clause is set. */
  predicate Enabled(o: Options, c: Clause)
  {
    match c
    case Learner => o.learner
    case StepByStep => o.stepByStep
    case ExplainLogic => o.explainLogic
    case ExplainAssumptions => o.explainAssumptions
    case Language => o.code
    case CodeSteps => o.stepByStepCode
    case Function => o.includeFunction
    case Docstring => o.docstring
    case Comments => o.comments
    case Doctest => o.doctest
    case Imports => o.imports
    case Exceptions => o.exceptions
    case ElegantCode => o.elegantCode
    case Snippet => PyValues.Truthy(o.snippet)
    case FunctionOutput => o.includeFunction
    case JustCode => o.justCode
  }

  /** A code feature worded as a sub-step of the step list: on a new line
      indented by a tab. */
  function SubStep(c: Clause): (r: string)
    requires c.IsCodeFeature()
  {
    match c
    case Function => "\n\t" + "Then convert it to a function:"
    case Docstring => "\n\t" + "Then add a docstring:"
    case Comments => "\n\t" + "Then add comments:"
    case Doctest => "\n\t" + "Then add doctest:"
    case Imports => "\n\t" + "Finally add any imports used:"
  }

  /** A code feature worded as a sentence of its own: on a new line that is
      not indented. */
  function Standalone(c: Clause): (r: string)
    requires c.IsCodeFeature()
  {
    match c
    case Function => "\n" + "the output should be a function:"
    case Docstring => "\n" + "Ensure to include a docstring:"
    case Comments => "\n" + "Ensure to include comments:"
    case Doctest => "\n" + "Ensure to include doctest:"
    case Imports => "\n" + "Ensure to add any imports used"
  }

  /** The learner clause, parameterised by the target level. */
  function LearnerText(level: string): string
  {
    "\n" + "Explain it as if to a " + level + ":"
  }

  /** The language directive of a code request. */
  function LanguageText(language: string): string
  {
    "\n" + "Use the " + language + " program language:"
  }

  /** The snippet, rendered and wrapped in the fixed delimiter. */
  function SnippetText(snippet: PyValues.PyValue): string
  {
    "|||" + PyValues.Str(snippet) + "|||"
  }

  /** The text a clause appends when its flag is set. */
  function Text(o: Options, c: Clause): (r: string)
    ensures |r| > 0
  {
    match c
    case Learner => LearnerText(o.level)
    case StepByStep => "Give step by step instructions:"
    case ExplainLogic => "\n" + "Explain your logic:"
    case ExplainAssumptions => "\n" + "State and explain your assumptions:"
    case Language => LanguageText(o.programLanguage)
    case CodeSteps => "\n" + "Perform the following steps:" + "\n\t" + "First, write the code:"
    case Function | Docstring | Comments | Doctest | Imports =>
      if o.stepByStepCode then SubStep(c) else Standalone(c)
    case Exceptions => "\n" + "Be sure to use try/except clauses appropriately"
    case ElegantCode => "\n" + ChecklistFrom(0)
    case Snippet => SnippetText(o.snippet)
    case FunctionOutput => "\n" + "The output should be a function:"
    case JustCode => "\n" + "Give the final output code:"
  }

  /** What a clause contributes: its text when enabled, nothing otherwise. */
  function Piece(o: Options, c: Clause): string
  {
    if Enabled(o, c) then Text(o, c) else ""
  }

  /** The contributions of all clauses, in pipeline order. */
  function Pieces(o: Options): seq<string>
  {
    seq(|Order|, i requires 0 <= i < |Order| => Piece(o, Order[i]))
  }

  /** Everything appended after the base prompt. */
  function Suffix(o: Options): string
  {
    Pipeline.Concat(Pieces(o))
  }

  /** The persona clause. */
  function Persona(o: Options): string
  {
    "Act like an " + o.role + " with " + o.expertise + ":"
  }

  /** What is put in front of the prompt: the persona clause when a role is
      given, nothing otherwise. */
  function RolePrefix(o: Options): string
  {
    if o.role != "" then Persona(o) else ""
  }

  /** The final prompt, as the clause pipeline defines it. */
  function ComposedPrompt(prompt: string, o: Options): string
  {
    RolePrefix(o) + prompt + Suffix(o)
  }

  /** Where the text of a clause starts in the final prompt. */
  function Position(prompt: string, o: Options, c: Clause): nat
  {
    |RolePrefix(o) + prompt| + Pipeline.TotalLength(Pieces(o)[..Rank(c)])
  }

  /** The pipeline written out: the head followed by the contribution of
      every clause, appended one after another in pipeline order. */
  lemma Expanded(head: string, o: Options)
    ensures head + Suffix(o) ==
      head + Piece(o, Learner) + Piece(o, StepByStep) + Piece(o, ExplainLogic)
      + Piece(o, ExplainAssumptions) + Piece(o, Language) + Piece(o, CodeSteps)
      + Piece(o, Function) + Piece(o, Docstring) + Piece(o, Comments)
      + Piece(o, Doctest) + Piece(o, Imports) + Piece(o, Exceptions)
      + Piece(o, ElegantCode) + Piece(o, Snippet) + Piece(o, FunctionOutput)
      + Piece(o, JustCode)
  {
    Pipeline.Unroll16(head, Pieces(o));
  }

  /** One conditional step of the composer: the clause's text is appended
      when its flag is set, and the accumulator is left alone otherwise. */
  method AppendClause(acc: string, o: Options, c: Clause) returns (r: string)
    ensures r == acc + Piece(o, c)
  {
    if Enabled(o, c) {
      r := acc + Text(o, c);
    } else {
      r := acc;
      assert acc + "" == acc;
    }
  }

  /** The prompt-assembly block of `chat_gpt`: the persona is put in front
      when a role is given, the sixteen conditional steps extend the
      accumulator in source order, and a code request overrides the
      temperature. */
  method Compose(prompt: string, temperature: real, o: Options)
    returns (composed: string, effective: real)
    ensures composed == ComposedPrompt(prompt, o)
    ensures o.code ==> effective == CodeTemperature
    ensures !o.code ==> effective == temperature
  {
    composed, effective := prompt, temperature;
    if o.role != "" {
      composed := Persona(o) + composed;
    } else {
      assert "" + prompt == prompt;
    }
    composed := AppendClause(composed, o, Learner);
    composed := AppendClause(composed, o, StepByStep);
    composed := AppendClause(composed, o, ExplainLogic);
    composed := AppendClause(composed, o, ExplainAssumptions);
    composed := AppendClause(composed, o, Language);
    if o.code {
      effective := CodeTemperature;
    }
    composed := AppendClause(composed, o, CodeSteps);
    composed := AppendClause(composed, o, Function);
    composed := AppendClause(composed, o, Docstring);
    composed := AppendClause(composed, o, Comments);
    composed := AppendClause(composed, o, Doctest);
    composed := AppendClause(composed, o, Imports);
    composed := AppendClause(composed, o, Exceptions);
    composed := AppendClause(composed, o, ElegantCode);
    composed := AppendClause(composed, o, Snippet);
    composed := AppendClause(composed, o, FunctionOutput);
    composed := AppendClause(composed, o, JustCode);
    Expanded(RolePrefix(o) + prompt, o);
  }

  /** The contribution of a clause is the element of `Pieces` at its rank. */
  lemma PieceAtRank(o: Options, c: Clause)
    ensures Rank(c) < |Pieces(o)| && Pieces(o)[Rank(c)] == Piece(o, c)
  {
  }


  /** The composer only adds text: the final prompt is as long as the role
      prefix, the prompt and every contribution put together, so it is never
      shorter than the prompt. */
  lemma ComposedLength(prompt: string, o: Options)
    ensures |ComposedPrompt(prompt, o)| == |RolePrefix(o)| + |prompt| + Pipeline.TotalLength(Pieces(o))
    ensures |ComposedPrompt(prompt, o)| >= |prompt|
  {
  }

  /** The base prompt is kept verbatim, right after the persona when a role
      is given and at the very start otherwise. */
  lemma PromptKept(prompt: string, o: Options)
    ensures o.role != "" ==> ComposedPrompt(prompt, o)[..|Persona(o)|] == Persona(o)
    ensures ComposedPrompt(prompt, o)[|RolePrefix(o)|..|RolePrefix(o)| + |prompt|] == prompt
    ensures o.role == "" ==> ComposedPrompt(prompt, o)[..|prompt|] == prompt
  {
    var head := RolePrefix(o) + prompt;
    assert ComposedPrompt(prompt, o)[..|head|] == head;
  }

  /** The composer returns the prompt untouched exactly when no role is given
      and no clause's flag is set. */
  lemma UnchangedIff(prompt: string, o: Options)
    ensures ComposedPrompt(prompt, o) == prompt <==>
      o.role == "" && forall c :: !Enabled(o, c)
  {
    var ps := Pieces(o);
    Pipeline.ConcatEmptyIff(ps);
    if ComposedPrompt(prompt, o) == prompt {
      assert |Persona(o)| > 0;
      forall c ensures !Enabled(o, c) {
        PieceAtRank(o, c);
      }
    }
    if o.role == "" && forall c :: !Enabled(o, c) {
      forall i | 0 <= i < |ps| ensures ps[i] == "" {
        assert !Enabled(o, Order[i]);
      }
      assert ComposedPrompt(prompt, o) == "" + prompt + "";
    }
  }

  /** With every keyword left at its default, the prompt goes out as given. */
  lemma DefaultsUnchanged(prompt: string)
    ensures ComposedPrompt(prompt, Defaults()) == prompt
  {
    forall c ensures !Enabled(Defaults(), c) {
    }
    UnchangedIff(prompt, Defaults());
  }

  /** What a clause contributes appears, unaltered, at its position: its
      text when its flag is set, nothing otherwise. */
  lemma ClauseAppears(prompt: string, o: Options, c: Clause)
    ensures Pipeline.OccursAt(ComposedPrompt(prompt, o), Position(prompt, o, c), Piece(o, c))
  {
    PieceAtRank(o, c);
    Pipeline.AppearsAfter(RolePrefix(o) + prompt, Pieces(o), Rank(c), Piece(o, c));
  }

  /** Clauses appear in pipeline order: a clause ends no later than any later
      clause begins. */
  lemma ClausesInOrder(prompt: string, o: Options, c: Clause, d: Clause)
    requires Rank(c) < Rank(d)
    ensures Position(prompt, o, c) + |Piece(o, c)| <= Position(prompt, o, d)
  {
    PieceAtRank(o, c);
    Pipeline.OffsetsIncrease(Pieces(o), Rank(c), Rank(d));
  }

  /** `include_function` asks for a function twice: once among the code
      features and once more, later, as the closing output requirement. */
  lemma FunctionRequestedTwice(prompt: string, o: Options)
    requires o.includeFunction
    ensures |Piece(o, Function)| > 0 && |Piece(o, FunctionOutput)| > 0
    ensures Position(prompt, o, Function) + |Piece(o, Function)| <= Position(prompt, o, FunctionOutput)
  {
    ClausesInOrder(prompt, o, Function, FunctionOutput);
  }

  /** A code feature is an indented sub-step exactly when the step list was
      requested, and a plain sentence on a new line otherwise. */
  lemma CodeFeaturePhrasing(o: Options, c: Clause)
    requires c.IsCodeFeature()
    ensures |Text(o, c)| >= 2 && Text(o, c)[0] == '\n'
    ensures Text(o, c)[1] == '\t' <==> o.stepByStepCode
  {
  }

  /** The step-by-step request and the snippet open no line of their own:
      each is glued to whatever precedes it, unlike every other clause. */
  lemma GluedClauses(o: Options)
    ensures Text(o, StepByStep)[0] != '\n'
    ensures Text(o, Snippet)[0] != '\n'
  {
  }

  /** `Rank` inverts `Order`: every position holds a different clause. */
  lemma RankOfOrder(i: nat)
    requires i < |Order|
    ensures Rank(Order[i]) == i
  {
  }

  /** With no role and a single flag set, the composer appends exactly that
      clause's text to the prompt. */
  lemma OnlyClause(prompt: string, o: Options, c: Clause)
    requires o.role == ""
    requires Enabled(o, c)
    requires forall d :: d != c ==> !Enabled(o, d)
    ensures ComposedPrompt(prompt, o) == prompt + Text(o, c)
  {
    var ps := Pieces(o);
    forall i | 0 <= i < |ps| && i != Rank(c) ensures ps[i] == "" {
      RankOfOrder(i);
    }
    PieceAtRank(o, c);
    Pipeline.ConcatSingle(ps, Rank(c));
    assert Suffix(o) == Text(o, c);
    assert "" + prompt == prompt;
  }

  /** A code request, with every other keyword at its default, adds just
      the language directive to the prompt. */
  lemma CodeRequestOnly(prompt: string, language: string)
    ensures ComposedPrompt(prompt, Defaults().(code := true, programLanguage := language)) ==
      prompt + "\n" + "Use the " + language + " program language:"
  {
    var o := Defaults().(code := true, programLanguage := language);
    OnlyClause(prompt, o, Language);
  }

  /** When no clause but `c` and `d` is enabled, every other position of
      the pipeline contributes nothing. */
  lemma OthersOff(o: Options, c: Clause, d: Clause)
    requires forall e :: e != c && e != d ==> !Enabled(o, e)
    ensures forall i :: 0 <= i < |Pieces(o)| && i != Rank(c) && i != Rank(d) ==> Pieces(o)[i] == ""
  {
    forall i | 0 <= i < |Pieces(o)| && i != Rank(c) && i != Rank(d) ensures Pieces(o)[i] == "" {
      RankOfOrder(i);
    }
  }

  /** With no role and exactly two clauses enabled, the composer appends the
      earlier clause's text and then the later one's, and nothing else. */
  lemma OnlyTwoClauses(prompt: string, o: Options, c: Clause, d: Clause)
    requires o.role == ""
    requires Rank(c) < Rank(d) && Enabled(o, c) && Enabled(o, d)
    requires forall e :: e != c && e != d ==> !Enabled(o, e)
    ensures ComposedPrompt(prompt, o) == prompt + Text(o, c) + Text(o, d)
  {
    var ps := Pieces(o);
    OthersOff(o, c, d);
    PieceAtRank(o, c);
    PieceAtRank(o, d);
    Pipeline.ConcatPair(ps, Rank(c), Rank(d));
    assert "" + prompt == prompt;
  }

  /** `include_function` is the one flag that guards two clauses. With no
      role and no other clause enabled (`include_function=True` with every
      other keyword at its default, for one), the composer asks for a function
      twice in a row, in two wordings, and appends nothing else. */
  lemma FunctionOnly(prompt: string, o: Options)
    requires o.role == "" && o.includeFunction
    requires forall d :: d != Function && d != FunctionOutput ==> !Enabled(o, d)
    ensures ComposedPrompt(prompt, o) ==
      prompt + ("\n" + "the output should be a function:") + ("\n" + "The output should be a function:")
  {
    OnlyTwoClauses(prompt, o, Function, FunctionOutput);
    assert !Enabled(o, CodeSteps);
  }

  /** A call with every keyword at its default, temperature included, sends
      the prompt as given at temperature 0.8. */
  method ComposeWithDefaults(prompt: string) returns (composed: string, effective: real)
    ensures composed == prompt && effective == DefaultTemperature
  {
    composed, effective := Compose(prompt, DefaultTemperature, Defaults());
    DefaultsUnchanged(prompt);
  }
}
