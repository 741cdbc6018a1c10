/** The smaller prompt composer of `chat_gpt` in test.py: six conditional
    clauses, each on a line of its own, after an optional persona line. */
module ChatGptLite {
  import Pipeline
  import PyValues

  /** The keyword arguments of this `chat_gpt` that shape the prompt. */
  datatype Options = Options(
    role: string,
    expertise: string,
    learner: bool,
    level: string,
    stepByStep: bool,
    explainLogic: bool,
    explainAssumptions: bool,
    code: bool,
    programLanguage: string,
    snippet: PyValues.PyValue)

  /** The keyword defaults. */
  function Defaults(): Options
  {
    Options(
      role := "", expertise := "20 years of experience",
      learner := false, level := "12 year old child",
      stepByStep := false, explainLogic := false, explainAssumptions := false,
      code := false, programLanguage := "Python==3.11",
      snippet := PyValues.PyBool(false))
  }

  /** The default of the `temperature` keyword. */
  const DefaultTemperature: real := 0.8
  /** The temperature that a code request forces. */
  const CodeTemperature: real := 0.2

  /** The clauses, one per conditional step. */
  datatype Clause = Learner | StepByStep | ExplainLogic | ExplainAssumptions | Language | Snippet

  /** The fixed order in which the clauses are appended. */
  const Order: seq<Clause> := [Learner, StepByStep, ExplainLogic, ExplainAssumptions, Language, Snippet]

  /** The place of a clause in the pipeline. */
  function Rank(c: Clause): (i: nat)
    ensures i < |Order| && Order[i] == c
  {
    match c
    case Learner => 0
    case StepByStep => 1
    case ExplainLogic => 2
    case ExplainAssumptions => 3
    case Language => 4
    case Snippet => 5
  }

  /** Whether the flag guarding a clause is set. */
  predicate Enabled(o: Options, c: Clause)
  {
    match c
    case Learner => o.learner
    case StepByStep => o.stepByStep
    case ExplainLogic => o.explainLogic
    case ExplainAssumptions => o.explainAssumptions
    case Language => o.code
    case Snippet => PyValues.Truthy(o.snippet)
  }

  /** The text a clause appends when its flag is set; every one of them
      opens a new line. */
  function Text(o: Options, c: Clause): (r: string)
    ensures |r| > 0 && r[0] == '\n'
  {
    match c
    case Learner => "\n" + "Explain it as if to a " + o.level + ":"
    case StepByStep => "\n" + "Give step by step instructions:"
    case ExplainLogic => "\n" + "Explain your logic:"
    case ExplainAssumptions => "\n" + "State and explain your assumptions:"
    case Language => "\n" + "Use the " + o.programLanguage + " program language"
    case Snippet => "\n" + "|||" + PyValues.Str(o.snippet) + "|||"
  }

  /** What a clause contributes: its text when enabled, nothing otherwise. */
  function Piece(o: Options, c: Clause): string
  {
    if Enabled(o, c) then Text(o, c) else ""
  }

  /** The contributions of all clauses, in pipeline order. */
  function Pieces(o: Options): seq<string>
  {
    seq(|Order|, i requires 0 <= i < |Order| => Piece(o, Order[i]))
  }

  /** Everything appended after the base prompt. */
  function Suffix(o: Options): string
  {
    Pipeline.Concat(Pieces(o))
  }

  /** The persona line, ended by a new line. */
  function Persona(o: Options): string
  {
    "Act like an " + o.role + " " + o.expertise + ":\n"
  }

  /** The persona line when a role is given, nothing otherwise. */
  function RolePrefix(o: Options): string
  {
    if o.role != "" then Persona(o) else ""
  }

  /** The final prompt, as the clause pipeline defines it. */
  function ComposedPrompt(prompt: string, o: Options): string
  {
    RolePrefix(o) + prompt + Suffix(o)
  }

  /** Where the contribution of a clause starts in the final prompt. */
  function Position(prompt: string, o: Options, c: Clause): nat
  {
    |RolePrefix(o) + prompt| + Pipeline.TotalLength(Pieces(o)[..Rank(c)])
  }

  /** The pipeline written out: the head followed by the six contributions
      in order. */
  lemma Expanded(head: string, o: Options)
    ensures head + Suffix(o) ==
      head + Piece(o, Learner) + Piece(o, StepByStep) + Piece(o, ExplainLogic)
      + Piece(o, ExplainAssumptions) + Piece(o, Language) + Piece(o, Snippet)
  {
    Pipeline.Unroll6(head, Pieces(o));
  }

  /** One conditional step: the clause's text is appended when its flag is
      set, and the accumulator is left alone otherwise. */
  method AppendClause(acc: string, o: Options, c: Clause) returns (r: string)
    ensures r == acc + Piece(o, c)
  {
    if Enabled(o, c) {
      r := acc + Text(o, c);
    } else {
      r := acc;
      assert acc + "" == acc;
    }
  }

  /** The prompt-assembly block: the persona line is put in front when a
      role is given, the six conditional steps extend the accumulator in
      source order, and a code request overrides the temperature. */
  method Compose(prompt: string, temperature: real, o: Options)
    returns (composed: string, effective: real)
    ensures composed == ComposedPrompt(prompt, o)
    ensures o.code ==> effective == CodeTemperature
    ensures !o.code ==> effective == temperature
  {
    composed, effective := prompt, temperature;
    if o.role != "" {
      composed := Persona(o) + composed;
    } else {
      assert "" + prompt == prompt;
    }
    composed := AppendClause(composed, o, Learner);
    composed := AppendClause(composed, o, StepByStep);
    composed := AppendClause(composed, o, ExplainLogic);
    composed := AppendClause(composed, o, ExplainAssumptions);
    composed := AppendClause(composed, o, Language);
    if o.code {
      effective := CodeTemperature;
    }
    composed := AppendClause(composed, o, Snippet);
    Expanded(RolePrefix(o) + prompt, o);
  }

  /** The contribution of a clause is the element of `Pieces` at its rank. */
  lemma PieceAtRank(o: Options, c: Clause)
    ensures Rank(c) < |Pieces(o)| && Pieces(o)[Rank(c)] == Piece(o, c)
  {
  }

  /** `Rank` inverts `Order`: every position holds a different clause. */
  lemma RankOfOrder(i: nat)
    requires i < |Order|
    ensures Rank(Order[i]) == i
  {
  }

  /** The composer only adds text: the final prompt is as long as the role
      prefix, the prompt and every contribution put together, so it is never
      shorter than the prompt. */
  lemma ComposedLength(prompt: string, o: Options)
    ensures |ComposedPrompt(prompt, o)| == |RolePrefix(o)| + |prompt| + Pipeline.TotalLength(Pieces(o))
    ensures |ComposedPrompt(prompt, o)| >= |prompt|
  {
  }

  /** The base prompt is kept verbatim, on the line after the persona when a
      role is given and at the very start otherwise. */
  lemma PromptKept(prompt: string, o: Options)
    ensures o.role != "" ==> ComposedPrompt(prompt, o)[..|Persona(o)|] == Persona(o)
    ensures o.role != "" ==> ComposedPrompt(prompt, o)[|Persona(o)| - 1] == '\n'
    ensures ComposedPrompt(prompt, o)[|RolePrefix(o)|..|RolePrefix(o)| + |prompt|] == prompt
    ensures o.role == "" ==> ComposedPrompt(prompt, o)[..|prompt|] == prompt
  {
    var head := RolePrefix(o) + prompt;
    assert ComposedPrompt(prompt, o)[..|head|] == head;
  }

  /** The prompt goes out untouched exactly when no role is given and no
      clause's flag is set. */
  lemma UnchangedIff(prompt: string, o: Options)
    ensures ComposedPrompt(prompt, o) == prompt <==>
      o.role == "" && forall c :: !Enabled(o, c)
  {
    var ps := Pieces(o);
    Pipeline.ConcatEmptyIff(ps);
    if ComposedPrompt(prompt, o) == prompt {
      assert |Persona(o)| > 0;
      forall c ensures !Enabled(o, c) {
        PieceAtRank(o, c);
      }
    }
    if o.role == "" && forall c :: !Enabled(o, c) {
      forall i | 0 <= i < |ps| ensures ps[i] == "" {
        assert !Enabled(o, Order[i]);
      }
      assert ComposedPrompt(prompt, o) == "" + prompt + "";
    }
  }

  /** With every keyword left at its default, the prompt goes out as given. */
  lemma DefaultsUnchanged(prompt: string)
    ensures ComposedPrompt(prompt, Defaults()) == prompt
  {
    forall c ensures !Enabled(Defaults(), c) {
    }
    UnchangedIff(prompt, Defaults());
  }

  /** What a clause contributes appears, unaltered, at its position. */
  lemma ClauseAppears(prompt: string, o: Options, c: Clause)
    ensures Pipeline.OccursAt(ComposedPrompt(prompt, o), Position(prompt, o, c), Piece(o, c))
  {
    PieceAtRank(o, c);
    Pipeline.AppearsAfter(RolePrefix(o) + prompt, Pieces(o), Rank(c), Piece(o, c));
  }

  /** Clauses appear in pipeline order. */
  lemma ClausesInOrder(prompt: string, o: Options, c: Clause, d: Clause)
    requires Rank(c) < Rank(d)
    ensures Position(prompt, o, c) + |Piece(o, c)| <= Position(prompt, o, d)
  {
    PieceAtRank(o, c);
    Pipeline.OffsetsIncrease(Pieces(o), Rank(c), Rank(d));
  }

  /** With no role and a single flag set, exactly that clause's text is
      appended. */
  lemma OnlyClause(prompt: string, o: Options, c: Clause)
    requires o.role == ""
    requires Enabled(o, c)
    requires forall d :: d != c ==> !Enabled(o, d)
    ensures ComposedPrompt(prompt, o) == prompt + Text(o, c)
  {
    var ps := Pieces(o);
    forall i | 0 <= i < |ps| && i != Rank(c) ensures ps[i] == "" {
      RankOfOrder(i);
    }
    PieceAtRank(o, c);
    Pipeline.ConcatSingle(ps, Rank(c));
    assert Suffix(o) == Text(o, c);
    assert "" + prompt == prompt;
  }

  /** A code request with every other keyword at its default adds one line
      naming the language, without a closing colon. */
  lemma CodeRequestOnly(prompt: string, language: string)
    ensures ComposedPrompt(prompt, Defaults().(code := true, programLanguage := language)) ==
      prompt + "\n" + "Use the " + language + " program language"
  {
    OnlyClause(prompt, Defaults().(code := true, programLanguage := language), Language);
  }

  /** `snippet=True` with every other keyword at its default renders the
      boolean itself between the delimiters, on a new line. */
  lemma SnippetTrueOnly(prompt: string)
    ensures ComposedPrompt(prompt, Defaults().(snippet := PyValues.PyBool(true))) ==
      prompt + "\n|||True|||"
  {
    var o := Defaults().(snippet := PyValues.PyBool(true));
    OnlyClause(prompt, o, Snippet);
  }

  /** The first call of `test_chat_gpt`: every keyword at its default,
      temperature included, sends the prompt as given at temperature 0.8. */
  method ComposeWithDefaults(prompt: string) returns (composed: string, effective: real)
    ensures composed == prompt && effective == DefaultTemperature
  {
    composed, effective := Compose(prompt, DefaultTemperature, Defaults());
    DefaultsUnchanged(prompt);
  }
}
