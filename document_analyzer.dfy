/** The document analyzer: the instructions chosen by document type, and the two-message
    request that asks the completion service to review the document's text. Extracting the
    text is delegated to a PDF reader and a Word reader, which stand here as one function
    parameter. */
module DocumentAnalyzer {
  import opened Js
  import opened Http
  import opened Services
  import opened Database

  const ANALYSIS_MODEL: string := "gpt-4-turbo-preview"
  const SYSTEM_ROLE: string := "system"
  const USER_ROLE: string := "user"

  /** The fixed system message of every analysis */
  const ANALYST: string :=
    "Tu es un expert en analyse de documents pour Campus France. Ta tâche est d'aider les candidats à améliorer leurs documents pour maximiser leurs chances d'être acceptés."

  const CV_PROMPT: string :=
    "Analyse ce CV dans le contexte de Campus France et donne des conseils pour l'améliorer :\n" +
    "        - Points forts actuels\n" +
    "        - Points à améliorer\n" +
    "        - Suggestions concrètes pour chaque point à améliorer\n" +
    "        - Conseils pour mettre en valeur les compétences pertinentes pour les études en France\n" +
    "        Format : Réponse structurée et directe"

  const LETTER_PROMPT: string :=
    "Analyse cette lettre de motivation dans le contexte de Campus France :\n" +
    "        - Structure et clarté\n" +
    "        - Motivation pour les études en France\n" +
    "        - Cohérence avec le projet d'études\n" +
    "        - Points forts\n" +
    "        - Points à améliorer\n" +
    "        - Suggestions d'amélioration concrètes\n" +
    "        Format : Réponse structurée et directe"

  const DEFAULT_PROMPT: string :=
    "Analyse ce document et donne des conseils pour l'améliorer dans le contexte de Campus France."

  /** What separates the instructions from the document's text */
  const DOCUMENT_HEADER: string := "\n\nDocument à analyser :\n"

  /** The message of every extraction failure, an unsupported type included */
  const UNREADABLE: string := "Impossible de lire le contenu du document"

  /** The types the text extraction handles */
  const PARSED_TYPES: set<string> := {"pdf", "doc", "docx"}

  /** `getPromptForDocumentType`: a lookup in a table of two entries with a default */
  function PromptFor(fileType: string): (r: string)
    ensures r == CV_PROMPT <==> fileType == "cv"
    ensures r == LETTER_PROMPT <==> fileType == "letter"
    ensures r == DEFAULT_PROMPT <==> fileType != "cv" && fileType != "letter"
  {
    if fileType == "cv" then CV_PROMPT
    else if fileType == "letter" then LETTER_PROMPT
    else DEFAULT_PROMPT
  }

  /** The extensions that reach the analyzer are never "cv" or "letter", so they always get
      the default instructions */
  lemma ParsedTypesGetDefaultPrompt(fileType: string)
    requires fileType in PARSED_TYPES
    ensures PromptFor(fileType) == DEFAULT_PROMPT
  {
  }

  /** The two messages of an analysis: the fixed system message, then the instructions,
      the header and the text */
  function AnalysisMessages(prompt: string, text: string): seq<ChatMessage> {
    [ChatMessage(SYSTEM_ROLE, ANALYST), ChatMessage(USER_ROLE, prompt + DOCUMENT_HEADER + text)]
  }

  /** How an analysis ends: the completion's text, or the error it is thrown with */
  datatype Analysis = Answered(text: string) | Failed(error: ErrorMessage)

  /** An analysis and the completion request it made, if it got that far */
  datatype AnalyzerRun = AnalyzerRun(analysis: Analysis, request: Option<CompletionRequest>)

  /** `parseFile`: the readers of the three supported types; any other type, and any
      failure of a reader, ends in the same error */
  function ParseFile(data: Blob, fileType: string, extract: (Blob, string) -> Option<string>): (r: Option<string>)
    ensures fileType !in PARSED_TYPES ==> r.None?
    ensures fileType in PARSED_TYPES ==> r == extract(data, fileType)
  {
    if fileType in PARSED_TYPES then extract(data, fileType) else None
  }

  /** `analyzeDocument`: extract the text, then ask for the review with the type's
      instructions; the answer is the completion's text */
  function AnalyzeDocument(data: Blob, fileType: string, extract: (Blob, string) -> Option<string>,
                           complete: CompletionRequest -> Completion): (r: AnalyzerRun)
    ensures r.request.Some? <==> ParseFile(data, fileType, extract).Some?
    ensures r.request.None? ==> r.analysis == Failed(Text(UNREADABLE))
    ensures r.request.Some? ==>
              var text := ParseFile(data, fileType, extract).value;
              var messages := r.request.value.messages;
              && r.request.value.model == ANALYSIS_MODEL && r.request.value.maxTokens.None?
              && |messages| == 2
              && messages[0] == ChatMessage(SYSTEM_ROLE, ANALYST)
              && messages[1] == ChatMessage(USER_ROLE, PromptFor(fileType) + DOCUMENT_HEADER + text)
    ensures r.request.Some? ==>
              r.analysis == match complete(r.request.value)
                            case Completed(answer, _) => Answered(answer)
                            case CompletionFailed => Failed(Upstream)
  {
    match ParseFile(data, fileType, extract)
    case None => AnalyzerRun(Failed(Text(UNREADABLE)), None)
    case Some(text) =>
      var request := CompletionRequest(ANALYSIS_MODEL, AnalysisMessages(PromptFor(fileType), text), None);
      match complete(request)
      case Completed(answer, _) => AnalyzerRun(Answered(answer), Some(request))
      case CompletionFailed => AnalyzerRun(Failed(Upstream), Some(request))
  }
}
