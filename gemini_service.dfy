/** Preparation of the AI analysis request: the API-key check, the readme
    truncation, the choice of response-language instructions, the prompt,
    and the mapping of every provider failure to one localized error. The
    provider client and `JSON.parse` are parameters. */
module GeminiService {
  import opened Wrappers
  import opened Types
  import opened JsStrings
  import LanguageContext

  /** At most this many readme characters are sent. */
  const ReadmeLimit := 5000

  /** `targetLanguage` when given, `'tr'` when omitted. */
  function TargetOrDefault(target: Option<string>): (t: string)
    ensures target.None? ==> t == "tr"
    ensures target.Some? ==> t == target.value
  {
    target.GetOr("tr")
  }

  /** `readmeContent.slice(0, 5000)`. */
  function TruncateReadme(readme: string): (r: string)
    ensures |r| == (if |readme| < ReadmeLimit then |readme| else ReadmeLimit)
    ensures r == readme[..|r|]
  {
    Prefix(readme, ReadmeLimit)
  }

  // ---------------------------------------------------------------------
  // Error messages
  // ---------------------------------------------------------------------

  const KeyMissingTr := "API Key eksik."
  const KeyMissingEn := "API Key missing."
  const AnalysisFailedTr := "AI Analizi başarısız oldu."
  const AnalysisFailedEn := "AI Analysis failed."

  function KeyMissingMessage(target: string): string {
    if target == "tr" then KeyMissingTr else KeyMissingEn
  }

  function AnalysisFailedMessage(target: string): string {
    if target == "tr" then AnalysisFailedTr else AnalysisFailedEn
  }

  /** Both errors are worded in Turkish exactly when the target is 'tr', and
      in English for every other target; the two errors never read alike. */
  lemma MessagesTurkishExactlyForTr(target: string)
    ensures KeyMissingMessage(target) == KeyMissingTr <==> target == "tr"
    ensures AnalysisFailedMessage(target) == AnalysisFailedTr <==> target == "tr"
    ensures KeyMissingMessage(target) != AnalysisFailedMessage(target)
  {
    assert KeyMissingTr[8] == 'e' && KeyMissingEn[8] == 'm';
    assert AnalysisFailedTr[8] == 'z' && AnalysisFailedEn[8] == 's';
    assert KeyMissingTr[1] == 'P' && KeyMissingEn[1] == 'P';
    assert AnalysisFailedTr[1] == 'I' && AnalysisFailedEn[1] == 'I';
  }

  // ---------------------------------------------------------------------
  // Language instructions
  // ---------------------------------------------------------------------

  /** The language the instructions are written in: tr, de and es select
      their own language, and every other target selects English. */
  function InstructionLanguage(target: string): LanguageContext.Language {
    if target == "tr" then LanguageContext.Tr
    else if target == "de" then LanguageContext.De
    else if target == "es" then LanguageContext.Es
    else LanguageContext.En
  }

  /** The sentence asking for answers in a language. */
  function Instruction(l: LanguageContext.Language): string {
    match l
    case Tr => "Lütfen tüm yanıtları Türkçe olarak ver."
    case De => "Bitte geben Sie alle Antworten auf Deutsch."
    case Es => "Por favor, proporcione todas las respuestas en español."
    case En => "Please provide all responses in English."
  }

  /** The placeholder texts of the requested JSON object. */
  datatype OutputInstructions = OutputInstructions(summary: string, useCases: string, techStack: string)

  /** The placeholder texts in a language. */
  function Output(l: LanguageContext.Language): OutputInstructions {
    match l
    case Tr =>
      OutputInstructions("Deponun ne yaptığına dair 2-3 cümlelik özet.", "Senaryo",
        "Kullanılan teknolojiler hakkında kısa teknik yorum.")
    case De =>
      OutputInstructions("2-3 Sätze Zusammenfassung, was das Repo macht.", "Anwendungsfall",
        "Kurzer technischer Kommentar zum verwendeten Tech-Stack.")
    case Es =>
      OutputInstructions("Resumen de 2-3 frases sobre lo que hace el repositorio.", "Caso de uso",
        "Breve comentario técnico sobre el stack tecnológico utilizado.")
    case En =>
      OutputInstructions("2-3 sentences summary of what the repo does.", "Use Case",
        "Brief technical comment on the tech stack used.")
  }

  /** `langInstruction` for a target. */
  function LangInstruction(target: string): string {
    Instruction(InstructionLanguage(target))
  }

  /** The output placeholders for a target. */
  function OutputInstructionsFor(target: string): OutputInstructions {
    Output(InstructionLanguage(target))
  }

  /** The instruction and the output placeholders are chosen by one rule:
      tr, de and es get their own language, every other target English. */
  lemma InstructionChoice(target: string)
    ensures forall l: LanguageContext.Language :: target == LanguageContext.Code(l) ==>
      LangInstruction(target) == Instruction(l) && OutputInstructionsFor(target) == Output(l)
    ensures target != "tr" && target != "de" && target != "es" ==>
      LangInstruction(target) == Instruction(LanguageContext.En)
      && OutputInstructionsFor(target) == Output(LanguageContext.En)
  {
    forall l: LanguageContext.Language | target == LanguageContext.Code(l)
      ensures InstructionLanguage(target) == l
    {
    }
    if target != "tr" && target != "de" && target != "es" {
      assert InstructionLanguage(target) == LanguageContext.En;
    }
  }

  // ---------------------------------------------------------------------
  // Prompt
  // ---------------------------------------------------------------------

  const Intro := "\n    Analyze the following GitHub repository.\n    "
  const LineBreak := "\n    "
  const ReadmeLabel := "\n    Readme Summary (first 5000 chars): "
  const Gap := "\n\n    "
  const JsonIntro := "Please provide the output in the following JSON format:\n    {\n      \"summary\": \""
  const JsonScore := "\",\n      \"complexityScore\": Number between 1-10 (1 very simple, 10 complex enterprise),\n      \"suggestedUseCases\": [\""
  const JsonTech := " 2\"],\n      \"techStackAnalysis\": \""
  const JsonEnd := "\"\n    }\n  "

  /** The prompt template after the language instruction: the requested
      JSON shape with the placeholder texts filled in. */
  function JsonShape(o: OutputInstructions): string {
    Gap + JsonIntro + o.summary + JsonScore + o.useCases + " 1\", \"" + o.useCases + JsonTech + o.techStack + JsonEnd
  }

  /** The prompt template with its language-dependent texts given: the
      labelled inputs, the readme and the language instruction, in the
      source's order, then the JSON shape. */
  function Template(repoName: string, language: string, description: string, readme: string,
                    instruction: string, o: OutputInstructions): string {
    Intro + (("Repo Name: " + repoName) + (LineBreak + (("Main Language: " + language)
    + (LineBreak + (("Description: " + description) + (ReadmeLabel + (readme
    + (Gap + (instruction + JsonShape(o))))))))))
  }

  /** The prompt for a target language. */
  function BuildPrompt(repoName: string, language: string, description: string, readme: string, target: string): (p: string)
    ensures forall l: LanguageContext.Language :: target == LanguageContext.Code(l) ==>
      p == Template(repoName, language, description, readme, Instruction(l), Output(l))
    ensures target != "tr" && target != "de" && target != "es" ==>
      p == Template(repoName, language, description, readme, Instruction(LanguageContext.En), Output(LanguageContext.En))
  {
    InstructionChoice(target);
    Template(repoName, language, description, readme, LangInstruction(target), OutputInstructionsFor(target))
  }

  ghost predicate Contains(s: string, x: string) {
    exists i :: OccursAt(s, x, i)
  }

  lemma ContainsStart(x: string, b: string)
    ensures Contains(x + b, x)
  {
    assert (x + b)[0..|x|] == x;
    assert OccursAt(x + b, x, 0);
  }

  /** An occurrence survives anything put before it. */
  lemma ContainsPrepend(a: string, b: string, x: string)
    requires Contains(b, x)
    ensures Contains(a + b, x)
  {
    var i :| OccursAt(b, x, i);
    assert (a + b)[|a| + i..|a| + i + |x|] == b[i..i + |x|];
    assert OccursAt(a + b, x, |a| + i);
  }

  /** The prompt carries the repository's name, main language and
      description, each after its label, the readme text given, and the
      instruction for the target language. */
  lemma PromptEmbedsInputs(repoName: string, language: string, description: string, readme: string, target: string)
    ensures var p := BuildPrompt(repoName, language, description, readme, target);
      && Contains(p, "Repo Name: " + repoName)
      && Contains(p, "Main Language: " + language)
      && Contains(p, "Description: " + description)
      && Contains(p, readme)
      && Contains(p, LangInstruction(target))
  {
    TemplateEmbedsInputs(repoName, language, description, readme, LangInstruction(target), OutputInstructionsFor(target));
  }

  lemma {:induction false} TemplateEmbedsInputs(repoName: string, language: string, description: string, readme: string,
                                                instruction: string, o: OutputInstructions)
    ensures var p := Template(repoName, language, description, readme, instruction, o);
      && Contains(p, "Repo Name: " + repoName)
      && Contains(p, "Main Language: " + language)
      && Contains(p, "Description: " + description)
      && Contains(p, readme)
      && Contains(p, instruction)
  {
    var name := "Repo Name: " + repoName;
    var lang := "Main Language: " + language;
    var desc := "Description: " + description;
    var r9 := instruction + JsonShape(o);
    var r8 := Gap + r9;
    var r7 := readme + r8;
    var r6 := ReadmeLabel + r7;
    var r5 := desc + r6;
    var r4 := LineBreak + r5;
    var r3 := lang + r4;
    var r2 := LineBreak + r3;
    var r1 := name + r2;
    // the instruction
    ContainsStart(instruction, JsonShape(o));
    ContainsPrepend(Gap, r9, instruction);
    ContainsPrepend(readme, r8, instruction);
    ContainsPrepend(ReadmeLabel, r7, instruction);
    // the readme
    ContainsStart(readme, r8);
    ContainsPrepend(ReadmeLabel, r7, readme);
    // the description
    ContainsPrepend(desc, r6, instruction);
    ContainsPrepend(desc, r6, readme);
    ContainsStart(desc, r6);
    ContainsPrepend(LineBreak, r5, instruction);
    ContainsPrepend(LineBreak, r5, readme);
    ContainsPrepend(LineBreak, r5, desc);
    // the main language
    ContainsPrepend(lang, r4, instruction);
    ContainsPrepend(lang, r4, readme);
    ContainsPrepend(lang, r4, desc);
    ContainsStart(lang, r4);
    ContainsPrepend(LineBreak, r3, instruction);
    ContainsPrepend(LineBreak, r3, readme);
    ContainsPrepend(LineBreak, r3, desc);
    ContainsPrepend(LineBreak, r3, lang);
    // the name
    ContainsPrepend(name, r2, instruction);
    ContainsPrepend(name, r2, readme);
    ContainsPrepend(name, r2, desc);
    ContainsPrepend(name, r2, lang);
    ContainsStart(name, r2);
    ContainsPrepend(Intro, r1, instruction);
    ContainsPrepend(Intro, r1, readme);
    ContainsPrepend(Intro, r1, desc);
    ContainsPrepend(Intro, r1, lang);
    ContainsPrepend(Intro, r1, name);
  }

  // ---------------------------------------------------------------------
  // The request
  // ---------------------------------------------------------------------

  /** What the provider client yields for a prompt: the response's text
      (an absent text is modelled as ""), or a thrown error. */
  datatype Reply = Replied(text: string) | Threw

  /** `analyzeRepository`. `apiKey` is the configured key (`""` when unset),
      `generate` is the provider call on a prompt and `parse` is
      `JSON.parse` on the response text. Returns the result and the prompt
      sent, `None` when nothing was sent. */
  method AnalyzeRepository(apiKey: string, repoName: string, description: string, language: string,
                           readmeContent: string, targetLanguage: Option<string>,
                           generate: string -> Reply, parse: string -> Option<AnalysisResult>)
    returns (result: Result<AnalysisResult, string>, sent: Option<string>)
    ensures var target := TargetOrDefault(targetLanguage);
      apiKey == "" ==> sent == None && result == Failure(KeyMissingMessage(target))
    ensures var target := TargetOrDefault(targetLanguage);
      apiKey != "" ==> sent == Some(BuildPrompt(repoName, language, description, TruncateReadme(readmeContent), target))
    ensures apiKey != "" ==>
      (result.Success? <==> generate(sent.value).Replied? && generate(sent.value).text != ""
                            && parse(generate(sent.value).text).Some?)
    ensures result.Success? ==> sent.Some? && result.value == parse(generate(sent.value).text).value
    ensures apiKey != "" && result.Failure? ==> result.error == AnalysisFailedMessage(TargetOrDefault(targetLanguage))
  {
    var target := TargetOrDefault(targetLanguage);
    if apiKey == "" {
      result, sent := Failure(KeyMissingMessage(target)), None;
      return;
    }
    var truncated := TruncateReadme(readmeContent);
    var prompt := BuildPrompt(repoName, language, description, truncated, target);
    sent := Some(prompt);
    var reply := generate(prompt);
    if reply.Threw? || reply.text == "" {
      result := Failure(AnalysisFailedMessage(target));
      return;
    }
    match parse(reply.text)
    case None =>
      result := Failure(AnalysisFailedMessage(target));
    case Some(a) =>
      result := Success(a);
  }
}
