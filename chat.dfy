/** `/api/chat`: the metered conversation with the assistant and the owner-scoped
    conversation rows. Sending a message needs a balance of at least ten tokens; the
    answer's whole token usage is then taken off the balance, which may go below zero. */
module ChatRoutes {
  import opened Js
  import opened Http
  import opened Services
  import opened Database
  import AuthRoutes
  import UsersRoutes

  const DEFAULT_TITLE: string := "Nouvelle conversation"
  const MIN_BALANCE: int := 10
  const CHAT_MODEL: string := "gpt-3.5-turbo"
  const MAX_TOKENS: nat := 500
  /** The knowledge-base titles that ground the assistant contain this, in any case */
  const CONTEXT_TOPIC: string := "lettre"
  const SYSTEM_ROLE: string := "system"
  const USER_ROLE: string := "user"
  const ASSISTANT_ROLE: string := "assistant"

  const FIELDS_REQUIRED: string := "conversation_id et content sont requis"
  const LOW_BALANCE: string :=
    "Il vous reste moins de 10 tokens, veuillez augmenter votre solde pour continuer à discuter avec l'IA."
  const NOT_OWNED: string := "Conversation non trouvée ou non autorisée"
  const DELETED: string := "Conversation supprimée avec succès"

  /** The assistant's instructions; the grounding context follows them */
  const PERSONA: string :=
    "Tu es une intelligence artificielle spécialisée dans l'accompagnement des étudiants africains dans les démarches Campus France.\n" +
    "\n" +
    "### 🎯 Ta mission :\n" +
    "- Répondre uniquement à des questions en lien avec Campus France : visa, logement, lettre de motivation, CV, inscriptions, etc.\n" +
    "- Ne jamais inventer d'informations. Utilise seulement le **contexte fourni** si disponible.\n" +
    "- Si le contexte ne contient pas la réponse, tu dois le dire clairement.\n" +
    "\n" +
    "### 🧠 Ton style :\n" +
    "- Tu expliques **étape par étape**\n" +
    "- Tu fais des réponses **courtes, précises et structurées**\n" +
    "- Tu réponds en **Markdown clair**, avec :\n" +
    "  - **Titres**\n" +
    "  - **Listes à puces**\n" +
    "  - **Parties importantes en gras**\n" +
    "  - **Paragraphes séparés**\n" +
    "- Tu commences toujours par un **petit résumé clair en une phrase**\n" +
    "\n" +
    "### 📚 Contexte :\n"

  /** The body of a successful exchange */
  datatype ChatReply = ChatReply(message: string, tokensUsed: int, tokensRemaining: int)

  /** What sending a message answers, the completion request it makes (if it gets that
      far) and the store it leaves behind */
  datatype ChatOutcome = ChatOutcome(reply: Reply<ChatReply>, request: Option<CompletionRequest>, after: Tables)

  // ---------------------------------------------------------------------------
  // The transcript sent to the completion service

  /** A knowledge-base entry whose title contains "lettre" (`.ilike('title', '%lettre%')`) */
  predicate AboutLetters(doc: FaqDoc) {
    Contains(ToLower(doc.title), CONTEXT_TOPIC)
  }

  /** The position of the first matching entry (`.limit(1)`) */
  function FirstAboutLetters(docs: seq<FaqDoc>): (r: Option<nat>)
    ensures r.Some? ==> r.value < |docs|
  {
    if docs == [] then None
    else if AboutLetters(docs[0]) then Some(0)
    else
      match FirstAboutLetters(docs[1..])
      case None => None
      case Some(i) => Some(i + 1)
  }

  /** The search finds the first matching entry, and none exactly when no entry matches */
  lemma {:induction false} FirstAboutLettersIsFirst(docs: seq<FaqDoc>)
    ensures var r := FirstAboutLetters(docs);
            && (r.None? <==> forall i :: 0 <= i < |docs| ==> !AboutLetters(docs[i]))
            && (r.Some? ==>
                  && r.value < |docs| && AboutLetters(docs[r.value])
                  && forall j :: 0 <= j < r.value ==> !AboutLetters(docs[j]))
  {
    if docs != [] && !AboutLetters(docs[0]) {
      FirstAboutLettersIsFirst(docs[1..]);
      assert forall i :: 1 <= i < |docs| ==> docs[i] == docs[1..][i - 1];
    }
  }

  /** The grounding context: the content of the first matching entry, "" when there is
      none or its content is null or empty */
  function GroundingContext(docs: seq<FaqDoc>): string {
    match FirstAboutLetters(docs)
    case None => ""
    case Some(i) => docs[i].content.GetOr("")
  }

  /** The context is "" when no entry matches, and otherwise the content of the first
      entry that does */
  lemma GroundingContextIsFirstMatch(docs: seq<FaqDoc>)
    ensures (forall i :: 0 <= i < |docs| ==> !AboutLetters(docs[i])) ==> GroundingContext(docs) == ""
    ensures forall i :: 0 <= i < |docs| && AboutLetters(docs[i]) && (forall j :: 0 <= j < i ==> !AboutLetters(docs[j]))
              ==> GroundingContext(docs) == docs[i].content.GetOr("")
  {
    FirstAboutLettersIsFirst(docs);
  }

  /** The system message: the instructions, then the context on a line of its own */
  function SystemPrompt(context: string): string {
    "\n" + PERSONA + context + "\n"
  }

  /** Stored messages as the role and content pairs the completion service takes */
  function Turns(rows: seq<Message>): seq<ChatMessage> {
    seq(|rows|, i requires 0 <= i < |rows| => ChatMessage(rows[i].role, rows[i].content))
  }

  lemma TurnsConcat(a: seq<Message>, b: seq<Message>)
    ensures Turns(a + b) == Turns(a) + Turns(b)
  {
  }

  /** The conversation's earlier messages, oldest first */
  function History(messages: seq<Message>, conversationId: int): seq<ChatMessage> {
    Turns(Filter(messages, InConversation(conversationId)))
  }

  /** The messages sent for a new user turn */
  function Transcript(context: string, history: seq<ChatMessage>, content: string): seq<ChatMessage> {
    [ChatMessage(SYSTEM_ROLE, SystemPrompt(context))] + history + [ChatMessage(USER_ROLE, content)]
  }

  /** The transcript is one system message carrying the context, the history in order,
      then the new user turn */
  lemma TranscriptLayout(context: string, history: seq<ChatMessage>, content: string)
    ensures var t := Transcript(context, history, content);
            && |t| == |history| + 2
            && t[0].role == SYSTEM_ROLE && StartsWith(t[0].content, "\n" + PERSONA)
            && t[0].content[|PERSONA| + 1..] == context + "\n"
            && t[1..|t| - 1] == history
            && t[|t| - 1] == ChatMessage(USER_ROLE, content)
  {
    var t := Transcript(context, history, content);
    assert t[1..|t| - 1] == history;
  }

  /** The completion request for a user turn in a conversation */
  function ChatRequest(db: Tables, conversationId: int, content: string): CompletionRequest {
    CompletionRequest(CHAT_MODEL, Transcript(GroundingContext(db.faqDocs), History(db.messages, conversationId), content),
                      Some(MAX_TOKENS))
  }

  // ---------------------------------------------------------------------------
  // Sending a message

  /** The balance check: a null balance compares as 0 */
  predicate CanChat(p: Profile) {
    p.tokensRemaining.Some? && p.tokensRemaining.value >= MIN_BALANCE
  }

  /** `.eq('id', id)` on `conversations` */
  function ConversationWithId(id: int): Conversation -> bool {
    (c: Conversation) => c.id == id
  }

  /** The message rows reference their conversation, so inserting one for a conversation
      that does not exist fails */
  predicate ConversationExists(conversations: seq<Conversation>, id: int) {
    Filter(conversations, ConversationWithId(id)) != []
  }

  /** The two rows an exchange stores: the user turn, then the assistant's answer, both
      stamped with the whole usage of the completion */
  function Exchange(conversationId: int, userId: string, content: string, answer: string, tokensUsed: int, now: nat)
    : seq<Message>
  {
    [Message(conversationId, userId, USER_ROLE, content, Some(tokensUsed), now),
     Message(conversationId, userId, ASSISTANT_ROLE, answer, Some(tokensUsed), now)]
  }

  /** `POST /messages`. In order: both fields present (400); the caller's profile read
      with `.single()` (500 if that fails); a balance of at least 10 (403); the completion
      (500 if it fails); the two message rows (500 when the conversation does not exist);
      the debit. The completion is requested only once the balance check has passed, and
      every failure leaves the store as it was. */
  function PostMessage(db: Tables, userId: string, conversationId: Option<int>, content: Option<string>,
                       complete: CompletionRequest -> Completion, now: nat): (out: ChatOutcome)
    ensures out.reply.Fail? ==> out.after == db
    ensures !GivenNumber(conversationId) || !Given(content) ==>
              out == ChatOutcome(Fail(BAD_REQUEST, Text(FIELDS_REQUIRED)), None, db)
    ensures GivenNumber(conversationId) && Given(content) && UserRow(db.users, userId).None? ==>
              out == ChatOutcome(Fail(SERVER_ERROR, Upstream), None, db)
    ensures GivenNumber(conversationId) && Given(content) && UserRow(db.users, userId).Some?
            && !CanChat(UserRow(db.users, userId).value) ==>
              out == ChatOutcome(Fail(FORBIDDEN, Text(LOW_BALANCE)), None, db)
    ensures out.request.Some? <==>
              GivenNumber(conversationId) && Given(content) && UserRow(db.users, userId).Some?
              && CanChat(UserRow(db.users, userId).value)
    ensures out.request.Some? ==> out.request.value == ChatRequest(db, conversationId.value, content.value)
    ensures out.reply.Ok? <==>
              && out.request.Some? && complete(out.request.value).Completed?
              && ConversationExists(db.conversations, conversationId.value)
    ensures out.request.Some? && out.reply.Fail? ==> out.reply == Fail(SERVER_ERROR, Upstream)
    ensures out.reply.Ok? ==>
              var answer := complete(out.request.value);
              var balance := UserRow(db.users, userId).value.tokensRemaining.value;
              && out.reply == Ok(OK, ChatReply(answer.text, answer.totalTokens, balance - answer.totalTokens))
              && out.after == db.(messages := out.after.messages, users := out.after.users)
  {
    if !GivenNumber(conversationId) || !Given(content) then
      ChatOutcome(Fail(BAD_REQUEST, Text(FIELDS_REQUIRED)), None, db)
    else
      match UserRow(db.users, userId)
      case None => ChatOutcome(Fail(SERVER_ERROR, Upstream), None, db)
      case Some(user) =>
        if !CanChat(user) then ChatOutcome(Fail(FORBIDDEN, Text(LOW_BALANCE)), None, db)
        else Ask(db, userId, conversationId.value, content.value, user, complete, now)
  }

  /** The part of `POST /messages` past the balance check: the completion, then the
      exchange's writes */
  function Ask(db: Tables, userId: string, conversationId: int, content: string, user: Profile,
               complete: CompletionRequest -> Completion, now: nat): ChatOutcome
    requires CanChat(user)
  {
    var request := ChatRequest(db, conversationId, content);
    match complete(request)
    case CompletionFailed => ChatOutcome(Fail(SERVER_ERROR, Upstream), Some(request), db)
    case Completed(answer, tokensUsed) =>
      if !ConversationExists(db.conversations, conversationId) then
        ChatOutcome(Fail(SERVER_ERROR, Upstream), Some(request), db)
      else
        var remaining := user.tokensRemaining.value - tokensUsed;
        ChatOutcome(Ok(OK, ChatReply(answer, tokensUsed, remaining)), Some(request),
                    Debit(db, userId, conversationId, content, answer, tokensUsed, remaining, now))
  }

  /** The writes of an exchange: the two message rows, then the new balance */
  function Debit(db: Tables, userId: string, conversationId: int, content: string, answer: string,
                 tokensUsed: int, remaining: int, now: nat): (r: Tables)
    ensures r == db.(messages := r.messages, users := r.users)
    ensures |r.messages| == |db.messages| + 2 && r.messages[..|db.messages|] == db.messages
    ensures |r.users| == |db.users|
  {
    db.(messages := db.messages + Exchange(conversationId, userId, content, answer, tokensUsed, now),
        users := Update(db.users, UserWithId(userId), SetBalance(remaining)))
  }

  /** Past the field and balance checks, the handler asks */
  lemma PostMessageAsks(db: Tables, userId: string, conversationId: Option<int>, content: Option<string>,
                        complete: CompletionRequest -> Completion, now: nat, user: Profile)
    requires GivenNumber(conversationId) && Given(content)
    requires UserRow(db.users, userId) == Some(user) && CanChat(user)
    ensures PostMessage(db, userId, conversationId, content, complete, now) ==
            Ask(db, userId, conversationId.value, content.value, user, complete, now)
  {
  }

  /** The checks an exchange passes, in the order the handler makes them */
  lemma PostMessagePasses(db: Tables, userId: string, conversationId: Option<int>, content: Option<string>,
                          complete: CompletionRequest -> Completion, now: nat, user: Profile)
    requires GivenNumber(conversationId) && Given(content)
    requires UserRow(db.users, userId) == Some(user) && CanChat(user)
    requires complete(ChatRequest(db, conversationId.value, content.value)).Completed?
    requires ConversationExists(db.conversations, conversationId.value)
    ensures var answer := complete(ChatRequest(db, conversationId.value, content.value));
            var remaining := user.tokensRemaining.value - answer.totalTokens;
            PostMessage(db, userId, conversationId, content, complete, now) ==
              ChatOutcome(Ok(OK, ChatReply(answer.text, answer.totalTokens, remaining)),
                          Some(ChatRequest(db, conversationId.value, content.value)),
                          Debit(db, userId, conversationId.value, content.value, answer.text, answer.totalTokens, remaining, now))
  {
    PostMessageAsks(db, userId, conversationId, content, complete, now, user);
    var answer := complete(ChatRequest(db, conversationId.value, content.value));
    assert answer == Completed(answer.text, answer.totalTokens);
  }

  /** The balance stored after an exchange is the one reported: the old balance less the
      whole usage, not clamped at zero; no other user's row changes */
  lemma PostMessageDebits(db: Tables, userId: string, conversationId: Option<int>, content: Option<string>,
                          complete: CompletionRequest -> Completion, now: nat)
    requires PostMessage(db, userId, conversationId, content, complete, now).reply.Ok?
    ensures var out := PostMessage(db, userId, conversationId, content, complete, now);
            var u := UserRow(db.users, userId).value;
            && out.reply.body.tokensRemaining == u.tokensRemaining.value - out.reply.body.tokensUsed
            && UserRow(out.after.users, userId) == Some(u.(tokensRemaining := Some(out.reply.body.tokensRemaining)))
            && (forall other :: other != userId ==>
                  Filter(out.after.users, UserWithId(other)) == Filter(db.users, UserWithId(other)))
  {
    var u := UserRow(db.users, userId).value;
    PostMessagePasses(db, userId, conversationId, content, complete, now, u);
    var answer := complete(ChatRequest(db, conversationId.value, content.value));
    DebitBalance(db, userId, conversationId.value, content.value, answer.text, answer.totalTokens,
                 u.tokensRemaining.value - answer.totalTokens, now);
  }

  /** The debit rewrites the caller's balance and no other user's row */
  lemma DebitBalance(db: Tables, userId: string, conversationId: int, content: string, answer: string,
                     tokensUsed: int, remaining: int, now: nat)
    requires UserRow(db.users, userId).Some?
    ensures var after := Debit(db, userId, conversationId, content, answer, tokensUsed, remaining, now);
            && UserRow(after.users, userId) == Some(UserRow(db.users, userId).value.(tokensRemaining := Some(remaining)))
            && (forall other :: other != userId ==>
                  Filter(after.users, UserWithId(other)) == Filter(db.users, UserWithId(other)))
  {
    var after := Debit(db, userId, conversationId, content, answer, tokensUsed, remaining, now);
    UpdateSelected(db.users, UserWithId(userId), SetBalance(remaining));
    forall other | other != userId
      ensures Filter(after.users, UserWithId(other)) == Filter(db.users, UserWithId(other))
    {
      UpdateElsewhere(db.users, UserWithId(userId), SetBalance(remaining), UserWithId(other));
    }
  }

  /** An exchange appends exactly its two rows, in order, both stamped with the usage the
      reply reports */
  lemma PostMessageStoresExchange(db: Tables, userId: string, conversationId: Option<int>, content: Option<string>,
                                  complete: CompletionRequest -> Completion, now: nat)
    requires PostMessage(db, userId, conversationId, content, complete, now).reply.Ok?
    ensures var out := PostMessage(db, userId, conversationId, content, complete, now);
            var added := out.after.messages[|db.messages|..];
            && |out.after.messages| == |db.messages| + 2
            && out.after.messages[..|db.messages|] == db.messages
            && added[0] == Message(conversationId.value, userId, USER_ROLE, content.value, Some(out.reply.body.tokensUsed), now)
            && added[1] == Message(conversationId.value, userId, ASSISTANT_ROLE, out.reply.body.message,
                                   Some(out.reply.body.tokensUsed), now)
  {
  }

  /** The conversation's history grows by exactly the exchange, so the next turn's
      transcript carries it; other conversations' histories are unchanged */
  lemma PostMessageExtendsHistory(db: Tables, userId: string, conversationId: Option<int>, content: Option<string>,
                                  complete: CompletionRequest -> Completion, now: nat)
    requires PostMessage(db, userId, conversationId, content, complete, now).reply.Ok?
    ensures var out := PostMessage(db, userId, conversationId, content, complete, now);
            var id := conversationId.value;
            && History(out.after.messages, id) ==
                 History(db.messages, id) + [ChatMessage(USER_ROLE, content.value), ChatMessage(ASSISTANT_ROLE, out.reply.body.message)]
            && (forall other :: other != id ==> History(out.after.messages, other) == History(db.messages, other))
  {
    var out := PostMessage(db, userId, conversationId, content, complete, now);
    var answer := out.reply.body;
    assert out.after.messages == db.messages + Exchange(conversationId.value, userId, content.value, answer.message, answer.tokensUsed, now);
    ExchangeExtendsHistory(db.messages, conversationId.value, userId, content.value, answer.message, answer.tokensUsed, now);
  }

  lemma ExchangeExtendsHistory(messages: seq<Message>, id: int, userId: string, content: string, answer: string,
                               tokensUsed: int, now: nat)
    ensures var after := messages + Exchange(id, userId, content, answer, tokensUsed, now);
            && History(after, id) == History(messages, id) + [ChatMessage(USER_ROLE, content), ChatMessage(ASSISTANT_ROLE, answer)]
            && (forall other :: other != id ==> History(after, other) == History(messages, other))
  {
    var added := Exchange(id, userId, content, answer, tokensUsed, now);
    ExchangeHistory(messages, id, userId, content, answer, tokensUsed, now, id);
    assert Turns(added) == [ChatMessage(USER_ROLE, content), ChatMessage(ASSISTANT_ROLE, answer)];
    forall other | other != id
      ensures History(messages + added, other) == History(messages, other)
    {
      ExchangeHistory(messages, id, userId, content, answer, tokensUsed, now, other);
    }
  }

  /** One conversation's history after an exchange: extended by the two rows when the
      exchange is in it, unchanged otherwise */
  lemma ExchangeHistory(messages: seq<Message>, id: int, userId: string, content: string, answer: string,
                        tokensUsed: int, now: nat, other: int)
    ensures var added := Exchange(id, userId, content, answer, tokensUsed, now);
            History(messages + added, other) == History(messages, other) + (if other == id then Turns(added) else [])
  {
    var added := Exchange(id, userId, content, answer, tokensUsed, now);
    var p := InConversation(other);
    FilterConcat(messages, added, p);
    ExchangeRows(id, userId, content, answer, tokensUsed, now, other);
    TurnsConcat(Filter(messages, p), Filter(added, p));
    assert Turns([]) == [];
  }

  /** The rows of an exchange all belong to its conversation */
  lemma ExchangeRows(id: int, userId: string, content: string, answer: string, tokensUsed: int, now: nat, other: int)
    ensures var added := Exchange(id, userId, content, answer, tokensUsed, now);
            Filter(added, InConversation(other)) == if other == id then added else []
  {
    var added := Exchange(id, userId, content, answer, tokensUsed, now);
    var p := InConversation(other);
    assert added == [added[0]] + ([added[1]] + []);
    FilterCons(added[1], [], p);
    FilterCons(added[0], [added[1]] + [], p);
  }

  /** Chatting never raises the balance */
  lemma PostMessageNeverCredits(db: Tables, userId: string, conversationId: Option<int>, content: Option<string>,
                                complete: CompletionRequest -> Completion, now: nat)
    requires UserRow(db.users, userId).Some? && UserRow(db.users, userId).value.tokensRemaining.Some?
    ensures var after := PostMessage(db, userId, conversationId, content, complete, now).after;
            && UserRow(after.users, userId).Some?
            && UserRow(after.users, userId).value.tokensRemaining.Some?
            && UserRow(after.users, userId).value.tokensRemaining.value <= UserRow(db.users, userId).value.tokensRemaining.value
  {
    if PostMessage(db, userId, conversationId, content, complete, now).reply.Ok? {
      PostMessageDebits(db, userId, conversationId, content, complete, now);
    }
  }

  /** A balance that has reached its floor of 10 can be overdrawn by one answer: the
      debit is not clamped */
  lemma OverdraftGoesNegative(db: Tables, userId: string, id: int, content: string,
                              complete: CompletionRequest -> Completion, now: nat, user: Profile)
    requires id != 0 && content != ""
    requires UserRow(db.users, userId) == Some(user) && user.tokensRemaining == Some(MIN_BALANCE)
    requires ConversationExists(db.conversations, id)
    requires complete(ChatRequest(db, id, content)).Completed?
    requires complete(ChatRequest(db, id, content)).totalTokens > MIN_BALANCE
    ensures var out := PostMessage(db, userId, Some(id), Some(content), complete, now);
            && out.reply.Ok? && out.reply.body.tokensRemaining < 0
            && UserRow(out.after.users, userId) == Some(user.(tokensRemaining := Some(out.reply.body.tokensRemaining)))
  {
    PostMessagePasses(db, userId, Some(id), Some(content), complete, now, user);
    PostMessageDebits(db, userId, Some(id), Some(content), complete, now);
  }

  /** A user holding 50 tokens whose question costs 12 is left with 38 */
  lemma FiftyLessTwelve(db: Tables, userId: string, id: int, content: string, answer: string,
                        complete: CompletionRequest -> Completion, now: nat, user: Profile)
    requires id != 0 && content != ""
    requires UserRow(db.users, userId) == Some(user) && user.tokensRemaining == Some(50)
    requires ConversationExists(db.conversations, id)
    requires complete(ChatRequest(db, id, content)) == Completed(answer, 12)
    ensures var out := PostMessage(db, userId, Some(id), Some(content), complete, now);
            && out.reply == Ok(OK, ChatReply(answer, 12, 38))
            && UserRow(out.after.users, userId) == Some(user.(tokensRemaining := Some(38)))
  {
    PostMessagePasses(db, userId, Some(id), Some(content), complete, now, user);
    PostMessageDebits(db, userId, Some(id), Some(content), complete, now);
  }

  /** A freshly registered user holds 3 tokens and so cannot chat: the request is refused
      before any completion is asked for, and nothing changes */
  lemma NewUserCannotChat(db: Tables, b: AuthRoutes.RegisterBody, signUp: SignUp, now: nat,
                          conversationId: Option<int>, content: Option<string>,
                          complete: CompletionRequest -> Completion, later: nat)
    requires AuthRoutes.Register(db, b, signUp, now).reply.Ok?
    requires GivenNumber(conversationId) && Given(content)
    ensures var after := AuthRoutes.Register(db, b, signUp, now).after;
            PostMessage(after, signUp.user.id, conversationId, content, complete, later) ==
              ChatOutcome(Fail(FORBIDDEN, Text(LOW_BALANCE)), None, after)
  {
    AuthRoutes.RegisteredIsStudentWithThreeTokens(db, b, signUp, now);
  }

  /** Redeeming a code worth at least 7 tokens lets a freshly registered user chat: the
      balance check passes and the completion is requested */
  lemma RedemptionUnlocksChat(db: Tables, b: AuthRoutes.RegisterBody, signUp: SignUp, now: nat, code: Option<string>,
                              conversationId: Option<int>, content: Option<string>,
                              complete: CompletionRequest -> Completion, later: nat)
    requires AuthRoutes.Register(db, b, signUp, now).reply.Ok?
    requires var registered := AuthRoutes.Register(db, b, signUp, now).after;
             var redeemed := UsersRoutes.Redeem(registered, signUp.user.id, code).reply;
             redeemed.Ok? && redeemed.body.tokensAwarded >= MIN_BALANCE - AuthRoutes.INITIAL_TOKENS
    requires GivenNumber(conversationId) && Given(content)
    ensures var registered := AuthRoutes.Register(db, b, signUp, now).after;
            var credited := UsersRoutes.Redeem(registered, signUp.user.id, code).after;
            PostMessage(credited, signUp.user.id, conversationId, content, complete, later).request.Some?
  {
    var registered := AuthRoutes.Register(db, b, signUp, now).after;
    AuthRoutes.RegisteredIsStudentWithThreeTokens(db, b, signUp, now);
    UsersRoutes.RedeemCredits(registered, signUp.user.id, code);
  }

  /** A user's requests one after another, each with its own time */
  datatype Turn = Turn(conversationId: Option<int>, content: Option<string>, now: nat)

  /** The store after a user's turns and the reply to each */
  function Converse(db: Tables, userId: string, turns: seq<Turn>, complete: CompletionRequest -> Completion)
    : (r: (Tables, seq<Reply<ChatReply>>))
    ensures |r.1| == |turns|
    decreases |turns|
  {
    if turns == [] then (db, [])
    else
      var out := PostMessage(db, userId, turns[0].conversationId, turns[0].content, complete, turns[0].now);
      var rest := Converse(out.after, userId, turns[1..], complete);
      (rest.0, [out.reply] + rest.1)
  }

  /** The usage reported by the successful replies */
  function Spent(replies: seq<Reply<ChatReply>>): int {
    if replies == [] then 0
    else (if replies[0].Ok? then replies[0].body.tokensUsed else 0) + Spent(replies[1..])
  }

  /** One turn's effect on the caller's balance: down by the usage an Ok reply reports,
      unchanged by a failure */
  lemma PostMessageBalance(db: Tables, userId: string, conversationId: Option<int>, content: Option<string>,
                           complete: CompletionRequest -> Completion, now: nat, balance: int)
    requires UserRow(db.users, userId).Some? && UserRow(db.users, userId).value.tokensRemaining == Some(balance)
    ensures var out := PostMessage(db, userId, conversationId, content, complete, now);
            && UserRow(out.after.users, userId).Some?
            && UserRow(out.after.users, userId).value.tokensRemaining ==
                 Some(balance - if out.reply.Ok? then out.reply.body.tokensUsed else 0)
  {
    if PostMessage(db, userId, conversationId, content, complete, now).reply.Ok? {
      PostMessageDebits(db, userId, conversationId, content, complete, now);
    }
  }

  /** The ledger: over any sequence of turns the stored balance falls by exactly the usage
      the successful replies report, and failed turns cost nothing */
  lemma {:induction false} ConverseBalance(db: Tables, userId: string, turns: seq<Turn>,
                                           complete: CompletionRequest -> Completion, balance: int)
    requires UserRow(db.users, userId).Some? && UserRow(db.users, userId).value.tokensRemaining == Some(balance)
    ensures var r := Converse(db, userId, turns, complete);
            && UserRow(r.0.users, userId).Some?
            && UserRow(r.0.users, userId).value.tokensRemaining == Some(balance - Spent(r.1))
    decreases |turns|
  {
    if turns != [] {
      var t := turns[0];
      var out := PostMessage(db, userId, t.conversationId, t.content, complete, t.now);
      var cost := if out.reply.Ok? then out.reply.body.tokensUsed else 0;
      PostMessageBalance(db, userId, t.conversationId, t.content, complete, t.now, balance);
      ConverseBalance(out.after, userId, turns[1..], complete, balance - cost);
      var rest := Converse(out.after, userId, turns[1..], complete);
      assert Converse(db, userId, turns, complete).1 == [out.reply] + rest.1;
      assert ([out.reply] + rest.1)[1..] == rest.1;
    }
  }

  /** The message handler against the store, step by step */
  method SendMessage(store: Store, userId: string, conversationId: Option<int>, content: Option<string>,
                     complete: CompletionRequest -> Completion, now: nat)
    returns (r: Reply<ChatReply>, request: Option<CompletionRequest>)
    modifies store
    ensures var out := PostMessage(old(store.Contents()), userId, conversationId, content, complete, now);
            r == out.reply && request == out.request && store.Contents() == out.after
  {
    request := None;
    if !GivenNumber(conversationId) || !Given(content) {
      return Fail(BAD_REQUEST, Text(FIELDS_REQUIRED)), None;
    }
    var user := UserRow(store.users, userId);
    if user.None? {
      return Fail(SERVER_ERROR, Upstream), None;
    }
    var balance := user.value.tokensRemaining;
    if balance.None? || balance.value < MIN_BALANCE {
      return Fail(FORBIDDEN, Text(LOW_BALANCE)), None;
    }
    var history := History(store.messages, conversationId.value);
    var context := GroundingContext(store.faqDocs);
    var sent := CompletionRequest(CHAT_MODEL, Transcript(context, history, content.value), Some(MAX_TOKENS));
    request := Some(sent);
    var answer := complete(sent);
    if answer.CompletionFailed? {
      return Fail(SERVER_ERROR, Upstream), request;
    }
    if !ConversationExists(store.conversations, conversationId.value) {
      return Fail(SERVER_ERROR, Upstream), request;
    }
    PostMessagePasses(store.Contents(), userId, conversationId, content, complete, now, user.value);
    var tokensUsed := answer.totalTokens;
    store.messages := store.messages + [Message(conversationId.value, userId, USER_ROLE, content.value, Some(tokensUsed), now)];
    store.messages := store.messages + [Message(conversationId.value, userId, ASSISTANT_ROLE, answer.text, Some(tokensUsed), now)];
    var remaining := balance.value - tokensUsed;
    store.users := Update(store.users, UserWithId(userId), SetBalance(remaining));
    r := Ok(OK, ChatReply(answer.text, tokensUsed, remaining));
  }

  // ---------------------------------------------------------------------------
  // Conversations

  /** `.eq('id', id).eq('user_id', userId)`: the owner scope of update and delete */
  function OwnedConversation(id: int, userId: string): Conversation -> bool {
    (c: Conversation) => c.id == id && c.userId == userId
  }

  /** `.update({ title })` */
  function SetTitle(title: Option<string>): Conversation -> Conversation {
    (c: Conversation) => c.(title := title)
  }

  /** Every row with this id belongs to someone else */
  predicate OwnedByOthers(conversations: seq<Conversation>, id: int, userId: string) {
    forall i :: 0 <= i < |conversations| && conversations[i].id == id ==> conversations[i].userId != userId
  }

  /** `POST /conversations`: a new conversation of the caller, with a fresh id and the
      given title, "Nouvelle conversation" when none (or "") is given */
  function CreateConversation(db: Tables, userId: string, title: Option<string>): (out: Outcome<Conversation>)
    ensures out.reply.Ok? && out.reply.status == OK
    ensures out.reply.body.id == db.nextId && out.reply.body.userId == userId
    ensures out.reply.body.title == Some(if Given(title) then title.value else DEFAULT_TITLE)
    ensures out.after == db.(conversations := db.conversations + [out.reply.body], nextId := db.nextId + 1)
  {
    var conversation := Conversation(db.nextId, userId, Some(if Given(title) then title.value else DEFAULT_TITLE));
    Outcome(Ok(OK, conversation), db.(conversations := db.conversations + [conversation], nextId := db.nextId + 1))
  }

  /** The new conversation is the one row its owner can address by its id, and the id
      sequence stays ahead of every stored id */
  lemma CreatedIsAddressable(db: Tables, userId: string, title: Option<string>)
    requires IdsFresh(db)
    ensures var out := CreateConversation(db, userId, title);
            && IdsFresh(out.after)
            && Single(out.after.conversations, OwnedConversation(out.reply.body.id, userId)) == Some(out.reply.body)
  {
    var c := CreateConversation(db, userId, title).reply.body;
    FilterNone(db.conversations, OwnedConversation(c.id, userId));
    FilterConcat(db.conversations, [c], OwnedConversation(c.id, userId));
  }

  /** `PUT /conversations/:id`: the title of the caller's conversation with that id. The
      `.single()` that ends the update fails unless exactly one row qualifies, so a
      conversation that is missing or someone else's is answered with a 500 and nothing
      changes. */
  function UpdateConversation(db: Tables, userId: string, id: int, title: Option<string>): (out: Outcome<Conversation>)
    ensures out.reply.Ok? <==> Single(db.conversations, OwnedConversation(id, userId)).Some?
    ensures out.reply.Fail? ==> out.reply == Fail(SERVER_ERROR, Upstream) && out.after == db
    ensures out.reply.Ok? ==>
              && out.reply.status == OK
              && out.reply.body == Single(db.conversations, OwnedConversation(id, userId)).value.(title := title)
              && out.after == db.(conversations := out.after.conversations)
  {
    match Single(db.conversations, OwnedConversation(id, userId))
    case None => Outcome(Fail(SERVER_ERROR, Upstream), db)
    case Some(c) =>
      Outcome(Ok(OK, c.(title := title)),
              db.(conversations := Update(db.conversations, OwnedConversation(id, userId), SetTitle(title))))
  }

  /** A rename lands on the caller's conversation, which reads back with the new title,
      and on no row of another id or another owner */
  lemma UpdateRenamesOnlyOwnRow(db: Tables, userId: string, id: int, title: Option<string>)
    requires UpdateConversation(db, userId, id, title).reply.Ok?
    ensures var out := UpdateConversation(db, userId, id, title);
            && Single(out.after.conversations, OwnedConversation(id, userId)) == Some(out.reply.body)
            && (forall otherId, owner :: otherId != id || owner != userId ==>
                  Filter(out.after.conversations, OwnedConversation(otherId, owner)) ==
                  Filter(db.conversations, OwnedConversation(otherId, owner)))
  {
    var p := OwnedConversation(id, userId);
    UpdateSelected(db.conversations, p, SetTitle(title));
    forall otherId, owner | otherId != id || owner != userId
      ensures Filter(Update(db.conversations, p, SetTitle(title)), OwnedConversation(otherId, owner)) ==
              Filter(db.conversations, OwnedConversation(otherId, owner))
    {
      UpdateElsewhere(db.conversations, p, SetTitle(title), OwnedConversation(otherId, owner));
    }
  }

  /** Someone who does not own the conversation cannot rename it */
  lemma NonOwnerCannotRename(db: Tables, userId: string, id: int, title: Option<string>)
    requires OwnedByOthers(db.conversations, id, userId)
    ensures UpdateConversation(db, userId, id, title) == Outcome(Fail(SERVER_ERROR, Upstream), db)
  {
    FilterNone(db.conversations, OwnedConversation(id, userId));
  }

  /** `DELETE /conversations/:id`: the caller's conversation with that id, read with
      `.single()` (404 when that fails), is deleted and its messages with it */
  function DeleteConversation(db: Tables, userId: string, id: int): (out: Outcome<string>)
    ensures out.reply.Ok? <==> Single(db.conversations, OwnedConversation(id, userId)).Some?
    ensures out.reply.Fail? ==> out.reply == Fail(NOT_FOUND, Text(NOT_OWNED)) && out.after == db
    ensures out.reply.Ok? ==>
              && out.reply == Ok(OK, DELETED)
              && out.after == db.(conversations := out.after.conversations, messages := out.after.messages)
  {
    match Single(db.conversations, OwnedConversation(id, userId))
    case None => Outcome(Fail(NOT_FOUND, Text(NOT_OWNED)), db)
    case Some(_) =>
      Outcome(Ok(OK, DELETED),
              db.(conversations := Remove(db.conversations, OwnedConversation(id, userId)),
                  messages := Remove(db.messages, InConversation(id))))
  }

  /** A deleted conversation is gone with its whole history; other owners' and other
      conversations' rows stay */
  lemma DeleteClears(db: Tables, userId: string, id: int)
    requires DeleteConversation(db, userId, id).reply.Ok?
    ensures var after := DeleteConversation(db, userId, id).after;
            && Filter(after.conversations, OwnedConversation(id, userId)) == []
            && History(after.messages, id) == []
            && (forall other :: other != id ==> History(after.messages, other) == History(db.messages, other))
            && (forall otherId, owner :: otherId != id || owner != userId ==>
                  Filter(after.conversations, OwnedConversation(otherId, owner)) ==
                  Filter(db.conversations, OwnedConversation(otherId, owner)))
  {
    var p := OwnedConversation(id, userId);
    RemoveMatched(db.conversations, p);
    RemoveMatched(db.messages, InConversation(id));
    forall other | other != id
      ensures History(Remove(db.messages, InConversation(id)), other) == History(db.messages, other)
    {
      FilterRemove(db.messages, InConversation(id), InConversation(other));
    }
    forall otherId, owner | otherId != id || owner != userId
      ensures Filter(Remove(db.conversations, p), OwnedConversation(otherId, owner)) ==
              Filter(db.conversations, OwnedConversation(otherId, owner))
    {
      FilterRemove(db.conversations, p, OwnedConversation(otherId, owner));
    }
  }

  /** Deleting the same conversation again is answered with a 404 and changes nothing */
  lemma DeleteTwiceNotFound(db: Tables, userId: string, id: int)
    requires DeleteConversation(db, userId, id).reply.Ok?
    ensures var after := DeleteConversation(db, userId, id).after;
            DeleteConversation(after, userId, id) == Outcome(Fail(NOT_FOUND, Text(NOT_OWNED)), after)
  {
    DeleteClears(db, userId, id);
  }

  /** Someone who does not own the conversation cannot delete it */
  lemma NonOwnerCannotDelete(db: Tables, userId: string, id: int)
    requires OwnedByOthers(db.conversations, id, userId)
    ensures DeleteConversation(db, userId, id) == Outcome(Fail(NOT_FOUND, Text(NOT_OWNED)), db)
  {
    FilterNone(db.conversations, OwnedConversation(id, userId));
  }

  /** The create handler against the store */
  method StartConversation(store: Store, userId: string, title: Option<string>) returns (r: Reply<Conversation>)
    modifies store
    ensures r == CreateConversation(old(store.Contents()), userId, title).reply
    ensures store.Contents() == CreateConversation(old(store.Contents()), userId, title).after
  {
    var conversation := Conversation(store.nextId, userId, Some(if Given(title) then title.value else DEFAULT_TITLE));
    store.nextId := store.nextId + 1;
    store.conversations := store.conversations + [conversation];
    r := Ok(OK, conversation);
  }

  /** The rename handler against the store */
  method RenameConversation(store: Store, userId: string, id: int, title: Option<string>) returns (r: Reply<Conversation>)
    modifies store
    ensures r == UpdateConversation(old(store.Contents()), userId, id, title).reply
    ensures store.Contents() == UpdateConversation(old(store.Contents()), userId, id, title).after
  {
    var found := Single(store.conversations, OwnedConversation(id, userId));
    if found.None? {
      return Fail(SERVER_ERROR, Upstream);
    }
    store.conversations := Update(store.conversations, OwnedConversation(id, userId), SetTitle(title));
    r := Ok(OK, found.value.(title := title));
  }

  /** The delete handler against the store: the conversation row, then (by the cascade)
      its messages */
  method RemoveConversation(store: Store, userId: string, id: int) returns (r: Reply<string>)
    modifies store
    ensures r == DeleteConversation(old(store.Contents()), userId, id).reply
    ensures store.Contents() == DeleteConversation(old(store.Contents()), userId, id).after
  {
    if Single(store.conversations, OwnedConversation(id, userId)).None? {
      return Fail(NOT_FOUND, Text(NOT_OWNED));
    }
    store.conversations := Remove(store.conversations, OwnedConversation(id, userId));
    store.messages := Remove(store.messages, InConversation(id));
    r := Ok(OK, DELETED);
  }
}
