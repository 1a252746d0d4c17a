# IA Campus France backend: the token ledger and its rules

This project models the backend of IA Campus France in Dafny. It is an Express service over
a Supabase store and the OpenAI completion API. Students register and receive 3 tokens.
They redeem promo codes for more tokens and spend tokens chatting with an assistant that
knows about the Campus France procedures. They can also upload CVs and letters for an AI
review. Administrators watch a dashboard of counts and histograms, and they create and
deactivate promo codes.

The model keeps the rules the handlers apply and the store changes they make:

- the order of the guards and each guard's status code and message;
- the rows that are inserted, updated or deleted;
- the balance arithmetic;
- the messages sent to the completion service;
- the folds behind the dashboard.

## How the model is organised

One module models each source file:

| module | file |
|---|---|
| `AuthMiddleware` | `backend/src/middleware/auth.js` |
| `AuthRoutes` | `backend/src/routes/auth.js` |
| `UsersRoutes` | `backend/src/routes/users.js` |
| `ChatRoutes` | `backend/src/routes/chat.js` |
| `AdminRoutes` | `backend/src/routes/admin.js` |
| `DocumentsRoutes` | `backend/src/routes/documents.js` |
| `DocumentAnalyzer` | `backend/src/services/documentAnalyzer.js` |

Four support modules model what the handlers rely on:

- `Js` models the JavaScript string and truthiness semantics the handlers use: `trim`,
  `split`, `toLowerCase`, the email regular expression, and `!x` on a body field.
- `Http` holds the status codes, the replies and the middleware gate.
- `Services` holds what the identity provider and the completion service return.
- `Database` holds the store.

**The store.** A table is the sequence of its rows in insertion order. A query is a filter
and a delete removes the matching rows. A query that ends in `.single()` yields a row only
when exactly one row matches; otherwise it is an error, whether no row or several match.
The object-store bucket `documents` is a map from path to bytes. Ids come from one
sequence counter. The store also holds `session`, the access token of the one session the
server's shared identity client keeps in memory. There is none before the first sign-in
and none after a sign-out. Sign-up and sign-in write it, sign-out clears it, and
`authenticateToken` compares every bearer token with it.

**Each handler has three parts:**

1. A pure function from the store and the request to the reply and the new store
   (`Outcome`). The chat handler also records the completion request it made.
2. A method on the mutable `Database.Store` that performs the handler's writes one by one.
   Its `ensures` ties its reply and its new state to the function.
3. Lemmas about the function that state the properties the handler promises.

**External services are parameters:**

- the identity provider's answers to a user lookup, a sign-up, a sign-in and a sign-out;
- the completion call, a function from request to `Completed(text, totalTokens)` or
  `CompletionFailed`;
- text extraction from PDF and Word files, a function from bytes and file type to an
  optional text;
- the month, weekday and hour buckets of a timestamp (`Calendar`);
- the current time.

**Where the code and the intended behaviour differ, the model follows the code:**

- **Rename by a non-owner.** `PUT /chat/conversations/:id` ends its update in
  `.single()`. A conversation that is missing or owned by someone else therefore gives an
  error and a 500. The 404 branch after it cannot be reached.
- **Deactivating an unknown id.** `PUT /admin/promo-codes/:id/deactivate` on an unknown id
  gives a 500 in the same way, and its 404 cannot be reached either.
- **Chat history is not owner-checked.** `POST /chat/messages` reads the history of the
  given conversation without checking who owns it. It also inserts message rows whose
  foreign key names a missing conversation, which fails after the completion was paid
  for but before any debit.
- **One session for the whole server.** The middleware accepts a token only when it is the
  access token of the session held by the server's single identity client. Every sign-up
  that opens a session and every sign-in replaces that session, and every sign-out clears
  it. So only the most recent person to sign in can use the protected routes. A second
  sign-in locks out the first person (`AuthRoutes.LaterSignInLocksOutEarlier`). A
  `POST /auth/logout`, which needs no token, locks out everyone
  (`AuthRoutes.LogoutLocksOutEveryone`).
- **The contact form needs a token.** `/api/admin` is mounted behind `authenticateToken`, so
  `POST /admin/contact` is open to any signed-in user but not to anonymous visitors.
- **Missing profiles.** `GET /users/tokens` for a caller without a profile row gives a 500,
  not a 404.

## Model

| member | source | states |
|---|---|---|
| Js.Trim | backend/src/routes/users.js:97 | `trim` leaves neither leading nor trailing whitespace, with `\s` as JavaScript defines it |
| Js.TrimStart | backend/src/routes/users.js:97 | the removed prefix is all whitespace and the rest starts with a non-space |
| Js.TrimEnd | backend/src/routes/users.js:97 | the removed suffix is all whitespace and the rest ends with a non-space |
| Js.TrimIdempotent | backend/src/routes/users.js:97 | trimming twice is trimming once |
| Js.TrimOfTrimmed | backend/src/routes/users.js:127 | a string without surrounding whitespace is its own trim |
| Js.TrimAll | backend/src/routes/users.js:97 | `map(u => u.trim())` keeps the length and trims each entry in place |
| Js.NonEmpty | backend/src/routes/users.js:127 | `filter(Boolean)` keeps exactly the non-empty entries |
| Js.NonEmptyConcat | backend/src/routes/users.js:127 | filtering distributes over concatenation |
| Js.NonEmptyOfNonBlank | backend/src/routes/users.js:127 | a list without empty entries passes the filter unchanged |
| Js.Split | backend/src/middleware/auth.js:8 | `split(sep)` yields at least one part and no part contains the separator |
| Js.JoinSplit | backend/src/middleware/auth.js:8 | joining the parts of a split gives back the string |
| Js.SplitJoin | backend/src/middleware/auth.js:8 | splitting a join of separator-free parts gives back the parts |
| Js.SplitConcat | backend/src/routes/documents.js:128 | splitting `a + sep + b` splits `a` and `b` separately |
| Js.SplitCons | backend/src/middleware/auth.js:8 | a leading separator opens a new empty part, any other leading character joins the first part |
| Js.SplitWithoutSep | backend/src/routes/documents.js:128 | a string without the separator splits into itself |
| Js.SplitHead | backend/src/middleware/auth.js:8 | the first part is the longest separator-free prefix |
| Js.JoinLast | backend/src/routes/documents.js:128 | a join ends with the separator and the last part |
| Js.SplitLast | backend/src/routes/documents.js:128 | `pop()` of a split is the longest separator-free suffix, preceded by the separator unless it is the whole string |
| Js.ToLower | backend/src/routes/documents.js:128 | `toLowerCase` keeps the length and lowers each ASCII capital |
| Js.Utf16Length | backend/src/routes/auth.js:21 | `password.length` counts UTF-16 code units: between one and two per character |
| Js.Decimal | backend/src/routes/documents.js:154 | a timestamp renders as a non-empty string of digits |
| Js.DecimalValue | backend/src/routes/documents.js:154 | the digits spell the timestamp, without a leading zero |
| Js.DecimalInjective | backend/src/routes/documents.js:154 | distinct timestamps render differently |
| Js.ValidEmail | backend/src/routes/auth.js:15-16 | the executable email check; an accepted address contains '@' and has at least five characters |
| Js.ValidEmailIsPattern | backend/src/routes/auth.js:15-16 | the executable email check accepts exactly the strings of the form local@host.suffix, all three non-empty and free of whitespace and '@' |
| Js.ValidEmailDecomposes | backend/src/routes/auth.js:15-16 | every accepted address decomposes as local@host.suffix |
| Js.PatternIsValidEmail | backend/src/routes/auth.js:15-16 | every local@host.suffix of allowed characters is accepted |
| Database.Filter | backend/src/routes/users.js:85-89 | a selection keeps exactly the matching rows, no more of them than the table holds |
| Database.Update | backend/src/routes/users.js:120-123 | an update keeps the number of rows |
| Database.UpdateAt | backend/src/routes/users.js:120-123 | an update rewrites exactly the matching rows and leaves every other row in place |
| Database.Remove | backend/src/routes/chat.js:297-301 | a delete keeps exactly the rows that do not match |
| Database.Single | backend/src/routes/users.js:85-90 | `.single()` yields a row exactly when one row matches, and it is that row |
| AuthMiddleware.BearerToken | backend/src/middleware/auth.js:4-8 | a missing header or one not starting with "Bearer " gives a 401 "Token manquant ou format invalide"; otherwise the token is the space-free word after "Bearer " |
| AuthMiddleware.BearerSplit | backend/src/middleware/auth.js:8 | splitting a bearer header on spaces gives "Bearer", then the parts of the rest |
| AuthMiddleware.BearerRoundTrip | backend/src/middleware/auth.js:5-8 | the token read from `"Bearer " + t`, for a space-free t, is t |
| AuthMiddleware.Authenticate | backend/src/middleware/auth.js:3-30 | the caller passes exactly when the header is well-formed, its token is the server's current session token and the provider resolves a user, and then the user is that one; every failure is a 401: "Token manquant ou format invalide" for the header, "Session invalide" for a token other than the session's, "Token invalide" for a failed user lookup and "Utilisateur non trouvé" for no user |
| AuthMiddleware.SessionHolderIsAuthenticated | backend/src/middleware/auth.js:3-30 | whoever presents the current session's token in a bearer header is let through as its user |
| AuthMiddleware.NoSessionRefusesAll | backend/src/middleware/auth.js:12-18 | with no session on the server every request is refused: a malformed header as such, any token as "Session invalide" |
| AuthMiddleware.IsAdmin | backend/src/middleware/auth.js:33-51 | passes exactly when the caller's profile row exists and has role 'admin'; another role gives 403 "Accès non autorisé", a missing row 500 "Erreur serveur" |
| AuthRoutes.ValidateRegister | backend/src/routes/auth.js:6-26 | passes exactly when all six fields are given, the email matches the pattern and the password has at least 8 code units; the failures are checked in that order, each with its message |
| AuthRoutes.ValidateLogin | backend/src/routes/auth.js:29-37 | passes exactly when email and password are given, otherwise 400 "Email et mot de passe requis" |
| AuthRoutes.Register | backend/src/routes/auth.js:40-86 | a registration succeeds exactly when validation passes, the identity is created and has no profile yet; the 201 body carries role 'student' and 3 tokens, and the store gains that one profile; a session the sign-up opens replaces the server's session even when the profile insert then fails, and otherwise every failure changes nothing |
| AuthRoutes.RegisteredIsStudentWithThreeTokens | backend/src/routes/auth.js:53-66 | after a registration the identity has one profile, a student's with 3 tokens, and every other user's rows are unchanged |
| AuthRoutes.RegisterTwiceFails | backend/src/routes/auth.js:53-68 | registering the same identity again fails with 400 and changes nothing |
| AuthRoutes.Login | backend/src/routes/auth.js:89-121 | a sign-in succeeds exactly when validation passes, the provider accepts and the profile row exists; the body is that stored profile and the provider's session; every other failure is a 400; an accepted sign-in makes its session the server's, even when the profile read fails, and nothing else changes |
| AuthRoutes.RegisterThenLogin | backend/src/routes/auth.js:40-121 | an account that has just registered can sign in and sees a student profile with 3 tokens |
| AuthRoutes.Logout | backend/src/routes/auth.js:124-132 | a sign-out the provider accepts answers "Déconnexion réussie" and clears the server's session; a failed one is a 400 that changes nothing |
| AuthRoutes.SignInAuthenticates | backend/src/routes/auth.js:93-98 | after an accepted sign-in its token passes the middleware, whatever the profile read gives |
| AuthRoutes.LaterSignInLocksOutEarlier | backend/src/routes/auth.js:93-98 | once another sign-in is accepted, the earlier sign-in's token is refused with 401 "Session invalide" |
| AuthRoutes.LogoutLocksOutEveryone | backend/src/routes/auth.js:124-132 | after a sign-out every request to a protected route is refused with 401 |
| AuthRoutes.RegisterAccount | backend/src/routes/auth.js:40-86 | the handler's reply and store writes are those of `Register` |
| AuthRoutes.SignInAccount | backend/src/routes/auth.js:89-121 | the sign-in handler's reply and session write are those of `Login` |
| AuthRoutes.SignOutAccount | backend/src/routes/auth.js:124-132 | the sign-out handler's reply and session write are those of `Logout` |
| UsersRoutes.GetTokens | backend/src/routes/users.js:56-72 | the balance is read from the caller's one profile row; no such row gives 500 "Erreur serveur" |
| UsersRoutes.Redeem | backend/src/routes/users.js:75-141 | the guards run in order (code and user given, one active row for the code, caller not among the trimmed redeemers, the limit not reached, the caller's profile exists), each failure a 400 with its message that changes nothing; success awards `token_amount` on top of `tokens_remaining` or 0 and changes only users and promo codes |
| UsersRoutes.RedeemIsCredit | backend/src/routes/users.js:109-136 | a successful redemption is the credit of the active code to the caller, with the redeemer recorded |
| UsersRoutes.Credit | backend/src/routes/users.js:119-136 | the credit awards the code's amount with a new balance of the old one (null as 0) plus that amount, and touches only the users and promo-code tables, keeping their sizes |
| UsersRoutes.CreditBalance | backend/src/routes/users.js:119-123 | a credit stores the reported new balance on the caller's row and on no other user's |
| UsersRoutes.RedeemCredits | backend/src/routes/users.js:119-124 | after a redemption the stored balance is the reported `new_balance` and every other user's rows are unchanged |
| UsersRoutes.RecordRedeemerAppends | backend/src/routes/users.js:127 | the new `used_by` is the stored non-empty entries followed by the trimmed caller id, which is dropped when it trims to "" |
| UsersRoutes.RecordUseSelected | backend/src/routes/users.js:130-133 | after recording, the code's one active row is the old row with the new `used_by` and nothing else changed |
| UsersRoutes.RecordUseElsewhere | backend/src/routes/users.js:130-133 | recording touches no row of another id |
| UsersRoutes.RedeemRecords | backend/src/routes/users.js:126-134 | after a redemption the code's row differs from before only in `used_by` and every other code row is unchanged |
| UsersRoutes.TokensAfterRedeem | backend/src/routes/users.js:56-72 | `GET /tokens` after a redemption returns the `new_balance` the redemption reported |
| UsersRoutes.SecondRedemptionFails | backend/src/routes/users.js:97-102 | a user whose id is its own trim, having redeemed a code, is refused "Code déjà utilisé" on the next attempt, with nothing changed |
| UsersRoutes.RedeemCountsOneUse | backend/src/routes/users.js:97-133 | a redemption adds exactly one entry to the trimmed redeemer list, in a store where no code records an empty redeemer and for an id that does not trim to nothing |
| UsersRoutes.RedeemKeepsNoBlankRedeemers | backend/src/routes/users.js:127-133 | the `used_by` write passes through `filter(Boolean)`, so a redemption records no empty redeemer |
| UsersRoutes.UseLimitEnforced | backend/src/routes/users.js:104-107 | once a redemption brings the redeemers to `max_uses`, every further attempt by anyone fails and changes nothing, in a store where no code records an empty redeemer and for an id that does not trim to nothing |
| UsersRoutes.SingleUseFirstRedemption | backend/src/routes/users.js:75-141 | a single-use code worth 10 redeemed by a user holding 3 answers 10 awarded, balance 13, and records that user |
| UsersRoutes.FirstRedeemer | backend/src/routes/users.js:127 | the first redeemer of a fresh code becomes the whole `used_by` list |
| UsersRoutes.SingleUseCodeScenario | backend/src/routes/users.js:75-141 | after that first redemption, the same user gets "Code déjà utilisé" and another user "Limite d'utilisation atteinte" |
| UsersRoutes.RedeemPasses | backend/src/routes/users.js:80-118 | when every guard passes, the redemption is the credit |
| UsersRoutes.ApplyCredit | backend/src/routes/users.js:119-136 | the balance write and then the `used_by` write, as the credit states |
| UsersRoutes.RedeemPromo | backend/src/routes/users.js:75-141 | the handler's reply and store writes, step by step, are those of `Redeem` |
| ChatRoutes.FirstAboutLettersIsFirst | backend/src/routes/chat.js:100-104 | `.ilike('title', '%lettre%').limit(1)` finds the first entry whose title contains "lettre" in any case, or none exactly when no entry matches |
| ChatRoutes.GroundingContextIsFirstMatch | backend/src/routes/chat.js:108 | the context is the first matching entry's content, or "" when there is no match or the content is null |
| ChatRoutes.TurnsConcat | backend/src/routes/chat.js:90-94 | the role-and-content view of stored rows distributes over concatenation |
| ChatRoutes.TranscriptLayout | backend/src/routes/chat.js:111-138 | the transcript has `|history| + 2` messages: a system message of the persona followed by the context, the history in order, then the user's turn |
| ChatRoutes.PostMessage | backend/src/routes/chat.js:69-193 | missing fields give 400, a missing profile 500, a balance below 10 (null counts as 0) 403, all without a completion request; the request is made exactly when those pass and is the model, the transcript and `max_tokens` 500; the reply is OK exactly when the completion succeeds and the conversation exists, with the answer, its usage and the old balance less the usage; every failure changes nothing; success changes only messages and users |
| ChatRoutes.PostMessagePasses | backend/src/routes/chat.js:69-189 | when every check passes, the outcome is the answer and the exchange's writes |
| ChatRoutes.PostMessageDebits | backend/src/routes/chat.js:177-189 | the stored balance becomes the reported `tokens_remaining`, the old balance less the whole usage, with no clamping; no other user's row changes |
| ChatRoutes.Debit | backend/src/routes/chat.js:151-183 | the exchange's writes append exactly two message rows after the existing ones and rewrite users in place; no other table changes |
| ChatRoutes.DebitBalance | backend/src/routes/chat.js:177-183 | the debit sets the caller's balance to the new value and leaves every other user's row as it was |
| ChatRoutes.PostMessageBalance | backend/src/routes/chat.js:69-189 | one request lowers the caller's stored balance by the usage its successful reply reports, and a failed request leaves it as it was |
| ChatRoutes.PostMessageStoresExchange | backend/src/routes/chat.js:151-175 | exactly two rows are appended: the user's turn, then the assistant's answer, both stamped with the completion's total usage |
| ChatRoutes.PostMessageExtendsHistory | backend/src/routes/chat.js:89-175 | the conversation's history grows by exactly the user turn and the answer; other conversations' histories are unchanged |
| ChatRoutes.ExchangeExtendsHistory | backend/src/routes/chat.js:151-175 | appending an exchange extends only its own conversation's history, by its two turns |
| ChatRoutes.ExchangeHistory | backend/src/routes/chat.js:151-175 | after an exchange, its own conversation's history gains the two turns and any other conversation's history is unchanged |
| ChatRoutes.PostMessageNeverCredits | backend/src/routes/chat.js:177-183 | chatting never raises a balance |
| ChatRoutes.OverdraftGoesNegative | backend/src/routes/chat.js:178-181 | a caller with exactly 10 tokens whose answer uses more goes below zero |
| ChatRoutes.FiftyLessTwelve | backend/src/routes/chat.js:178-189 | 50 tokens and a usage of 12 leave 38, stored and reported |
| ChatRoutes.NewUserCannotChat | backend/src/routes/chat.js:85-87 | a freshly registered user (3 tokens) is refused with 403, no completion request, and nothing changed |
| ChatRoutes.RedemptionUnlocksChat | backend/src/routes/chat.js:85-87 | a freshly registered user who redeems a code worth at least 7 gets the completion request |
| ChatRoutes.Converse | backend/src/routes/chat.js:69-193 | a user's successive requests give one reply per request |
| ChatRoutes.ConverseBalance | backend/src/routes/chat.js:177-189 | over any sequence of requests the balance falls by exactly the usage the successful replies reported; failed requests cost nothing |
| ChatRoutes.SendMessage | backend/src/routes/chat.js:69-193 | the handler's reply, completion request and writes (two inserts, then the debit) are those of `PostMessage` |
| ChatRoutes.CreateConversation | backend/src/routes/chat.js:38-52 | a new conversation of the caller with a fresh id, titled "Nouvelle conversation" when the title is absent or "" |
| ChatRoutes.CreatedIsAddressable | backend/src/routes/chat.js:38-52 | the new conversation is the one row its owner addresses by its id, and the id sequence stays ahead of every stored id |
| ChatRoutes.UpdateConversation | backend/src/routes/chat.js:250-269 | the rename succeeds exactly when one row has the id and the caller as owner, and returns that row with the new title; otherwise 500 and nothing changes |
| ChatRoutes.UpdateRenamesOnlyOwnRow | backend/src/routes/chat.js:253-259 | the renamed row reads back with the new title and no row of another id or owner changes |
| ChatRoutes.NonOwnerCannotRename | backend/src/routes/chat.js:253-261 | someone who does not own the conversation cannot rename it, and nothing changes |
| ChatRoutes.DeleteConversation | backend/src/routes/chat.js:282-309 | the delete succeeds exactly when one row has the id and the caller as owner; otherwise 404 "Conversation non trouvée ou non autorisée" and nothing changes; success touches only conversations and messages |
| ChatRoutes.DeleteClears | backend/src/routes/chat.js:296-301 | after a delete the conversation and its whole history are gone; other conversations and their histories are unchanged |
| ChatRoutes.DeleteTwiceNotFound | backend/src/routes/chat.js:285-294 | deleting again gives 404 and changes nothing |
| ChatRoutes.NonOwnerCannotDelete | backend/src/routes/chat.js:285-294 | someone who does not own the conversation gets 404 and nothing changes |
| ChatRoutes.StartConversation | backend/src/routes/chat.js:38-52 | the create handler's reply and insert are those of `CreateConversation` |
| ChatRoutes.RenameConversation | backend/src/routes/chat.js:250-269 | the rename handler's reply and update are those of `UpdateConversation` |
| ChatRoutes.RemoveConversation | backend/src/routes/chat.js:282-309 | the delete handler's reply and deletes (the row, then its messages by the cascade) are those of `DeleteConversation` |
| AdminRoutes.Bump | backend/src/routes/admin.js:68 | `acc[k] = (acc[k] \|\| 0) + amount` adds the key and raises its value by the amount |
| AdminRoutes.SumValuesRemove | backend/src/routes/admin.js:66-70 | the sum of a map's values is any one value plus the sum of the rest |
| AdminRoutes.SumValuesBump | backend/src/routes/admin.js:68 | raising one key by an amount raises the sum of the values by that amount |
| AdminRoutes.TotalConcat | backend/src/routes/admin.js:47 | a sum over concatenated rows is the sum of the two sums |
| AdminRoutes.TotalOne | backend/src/routes/admin.js:34-36 | counting rows is summing ones |
| AdminRoutes.TallyConserves | backend/src/routes/admin.js:117-120 | a keyed fold adds to the sum of the values exactly the total weight of the rows |
| AdminRoutes.TallyAt | backend/src/routes/admin.js:117-120 | each key's value grows by the total weight of the rows with that key, and the keys are the old ones plus the rows' keys |
| AdminRoutes.HistogramCountsRows | backend/src/routes/admin.js:66-108 | a histogram's values add up to the number of rows |
| AdminRoutes.HistogramAt | backend/src/routes/admin.js:92-95 | a histogram's value under a key is the number of rows with that key |
| AdminRoutes.ComputeStats | backend/src/routes/admin.js:23-132 | the dashboard figures: the student and shared-document counts never exceed their tables, and the message count is the number of messages; the histogram and usage laws are `StatsConserve` and `StatsPerKey` |
| AdminRoutes.GetStats | backend/src/routes/admin.js:20-137 | the figures are returned exactly when the admin gate passes, and otherwise the gate's failure is |
| AdminRoutes.StatsConserve | backend/src/routes/admin.js:47-120 | the month histogram counts every student, the weekday and hour histograms every message, the file-type histogram every document, and the per-role usage adds up to `totalTokens` |
| AdminRoutes.StatsPerKey | backend/src/routes/admin.js:92-120 | each role's entry is the usage of that role's messages (null as 0) and each file type's entry the number of documents of that type |
| AdminRoutes.WithStats | backend/src/routes/admin.js:254-271 | one figure per conversation |
| AdminRoutes.GetChats | backend/src/routes/admin.js:237-278 | the figures of the conversations are returned exactly when the admin gate passes |
| AdminRoutes.WithStatsAt | backend/src/routes/admin.js:256-269 | each entry keeps its conversation's fields and carries the number of its messages and their summed usage |
| AdminRoutes.TotalOfEither | backend/src/routes/admin.js:256-263 | the weight of rows matching either of two exclusive conditions is the sum of the two weights |
| AdminRoutes.SharesAddUp | backend/src/routes/admin.js:256-263 | over conversations with distinct ids, the per-conversation weights add up to the weight of the messages in any of them |
| AdminRoutes.WithStatsShares | backend/src/routes/admin.js:263-269 | the count and the usage of each entry are its conversation's shares |
| AdminRoutes.ChatsConserve | backend/src/routes/admin.js:254-271 | when every message belongs to a listed conversation, the counts add up to the number of messages and the usages to the dashboard's `totalTokens` |
| AdminRoutes.SubmitContact | backend/src/routes/admin.js:7-17 | accepted (201) exactly when name, email and message are given; otherwise 400 "Champs obligatoires manquants." and nothing changes; one row is appended with the fields and the type, 'contact' by default |
| AdminRoutes.PostContact | backend/src/routes/admin.js:7-17 | the contact handler's reply and insert are those of `SubmitContact` |
| AdminRoutes.ContactRoute | backend/src/index.js:29 | the contact form as mounted: a request `authenticateToken` refuses gets that 401 and stores nothing; an authenticated one is handled by `SubmitContact`; so a stored contact row implies the caller passed the middleware |
| AdminRoutes.ContactNeedsSession | backend/src/index.js:29 | while no one is signed in on the server, every contact post is a 401 and no row is stored |
| AdminRoutes.CreatePromo | backend/src/routes/admin.js:296-340 | after the admin gate: a missing code or amount gives 400, and a code that one row already has gives 400 "Ce code promo existe déjà"; otherwise the new code is inserted with a fresh id and returned with 201; every failure changes nothing |
| AdminRoutes.UniqueCodeSelects | backend/src/routes/admin.js:306-310 | in a table of distinct codes, a present code selects exactly its row |
| AdminRoutes.AbsentCode | backend/src/routes/admin.js:306-318 | a code the duplicate check does not find is in no row of a table of distinct codes |
| AdminRoutes.CreatedPromoDefaults | backend/src/routes/admin.js:321-329 | a created code has `used_by = []`, `is_active = true` and `max_uses` equal to `max_uses \|\| null` |
| AdminRoutes.CreatePromoKeepsCodesUnique | backend/src/routes/admin.js:306-329 | creation keeps the codes distinct and the id sequence ahead of the stored ids |
| AdminRoutes.CreatePromoKeepsNoBlankRedeemers | backend/src/routes/admin.js:321-329 | a new code starts with `used_by = []`, so no code records an empty redeemer afterwards either |
| AdminRoutes.CreatedPromoRedeemable | backend/src/routes/admin.js:321-329 | a created code with an unset or non-negative limit can at once be redeemed by any user with a profile |
| AdminRoutes.AddPromoCode | backend/src/routes/admin.js:296-340 | the creation handler's reply and insert are those of `CreatePromo` |
| AdminRoutes.DeactivatePromo | backend/src/routes/admin.js:360-377 | after the admin gate, succeeds exactly when one row has the id and returns it inactive; otherwise 500 "Erreur serveur" and nothing changes |
| AdminRoutes.DeactivateOnlyClearsFlag | backend/src/routes/admin.js:362-367 | only `is_active` of the row with the id changes, to false |
| AdminRoutes.DeactivateKeepsNoBlankRedeemers | backend/src/routes/admin.js:362-367 | deactivation leaves every `used_by` list as it was, so none gains an empty redeemer |
| AdminRoutes.DeactivateIdempotent | backend/src/routes/admin.js:362-367 | deactivating again gives the same answer and changes nothing more |
| AdminRoutes.DeactivatedCodeIsInvalid | backend/src/routes/admin.js:362-367 | once deactivated, the code is refused to every user as "Code promo invalide" |
| AdminRoutes.DisablePromoCode | backend/src/routes/admin.js:360-377 | the deactivation handler's reply and update are those of `DeactivatePromo` |
| DocumentAnalyzer.PromptFor | backend/src/services/documentAnalyzer.js:41-61 | 'cv' gets the CV prompt, 'letter' the letter prompt and every other type the default, each exactly when its type is given |
| DocumentAnalyzer.ParsedTypesGetDefaultPrompt | backend/src/services/documentAnalyzer.js:60 | pdf, doc and docx all get the default prompt |
| DocumentAnalyzer.ParseFile | backend/src/utils/fileParser.js:10-29 | only pdf, doc and docx are read, by the extractor; any other type gives no text |
| DocumentAnalyzer.AnalyzeDocument | backend/src/services/documentAnalyzer.js:11-39 | a request is made exactly when the text can be read, otherwise "Impossible de lire le contenu du document"; the request has the model and two messages, the fixed system message then the type's prompt, "\n\nDocument à analyser :\n" and the text; the answer is the completion's text |
| DocumentsRoutes.Extension | backend/src/routes/documents.js:128 | the extension is the lowered text after the last '.', or the whole name lowered when it has no '.' |
| DocumentsRoutes.ExtensionAfterLastDot | backend/src/routes/documents.js:128 | the extension of `base.ext` is `ext` lowered, whatever `base` holds |
| DocumentsRoutes.ExtensionWithoutDot | backend/src/routes/documents.js:128 | a name without '.' is its own extension, lowered |
| DocumentsRoutes.StoragePathLayout | backend/src/routes/documents.js:154 | the upload path is the user id, '/', the digits that spell the timestamp, '_', then the original name, so it starts with the owner's folder |
| DocumentsRoutes.CreateDocument | backend/src/routes/documents.js:28-55 | accepted exactly when name, type and URL are given (400 "Informations manquantes" otherwise, with nothing changed); the caller's row gets a fresh id, the given name, type, URL and size, no storage path, `tokens_required` 0 and is not shared, and it is appended and nothing else changes |
| DocumentsRoutes.UploadDocument | backend/src/routes/documents.js:143-187 | a missing file or type gives 400 "Fichier ou type manquant"; a path already taken gives 500; otherwise the bytes are stored under the path and a row naming it is inserted, and the 201 reply is its id; every failure changes nothing |
| DocumentsRoutes.UploadIsAddressable | backend/src/routes/documents.js:143-187 | the uploaded document is the caller's one row with the returned id, and its path lies in the caller's folder and holds the bytes |
| DocumentsRoutes.DeleteDocumentAsWritten | backend/src/routes/documents.js:58-92 | succeeds exactly when one row has the id and the caller as owner (404 "Document non trouvé" otherwise, with nothing changed), and removes the key `<user id>/<file name>` and that row only |
| DocumentsRoutes.AsWrittenKeyMissesUpload | backend/src/routes/documents.js:76 | the key the delete removes is never the key an upload stored |
| DocumentsRoutes.UploadThenDeleteAsWrittenOrphansBlob | backend/src/routes/documents.js:76 | as written, uploading then deleting leaves the bytes in storage with no row pointing at them |
| DocumentsRoutes.DeleteDocument | backend/src/routes/documents.js:58-92 | the delete with the row's own storage key: 404 exactly when there is not one owned row, otherwise that key and that row only are removed |
| DocumentsRoutes.UploadThenDeleteRestores | backend/src/routes/documents.js:58-92 | uploading then deleting with the corrected key restores the store, except that the id sequence has moved on |
| DocumentsRoutes.DeleteRemovesOnlyOwnRow | backend/src/routes/documents.js:80-85 | a delete removes the caller's rows with the id and no other row |
| DocumentsRoutes.DeleteTwiceNotFound | backend/src/routes/documents.js:61-70 | deleting again gives 404 and changes nothing |
| DocumentsRoutes.NonOwnerCannotDelete | backend/src/routes/documents.js:61-70 | someone who does not own the document gets 404 and nothing changes |
| DocumentsRoutes.AnalyzeRoute | backend/src/routes/documents.js:95-140 | a missing owned row gives 404; a row without a downloadable path gives 500; an extension outside pdf, doc and docx gives 500 "Type de document non supporté" with no completion request; a request is made only for an owned, stored, supported document; the reply is OK exactly when the completion succeeds, and carries its text |
| DocumentsRoutes.AnalysisUsesGeneralPrompt | backend/src/routes/documents.js:128-133 | for a supported file the analyzer asks with the default prompt, never the CV or letter one, followed by the extracted text; an unreadable file gives 500 with no request |
| DocumentsRoutes.NonOwnerCannotAnalyze | backend/src/routes/documents.js:98-107 | someone who does not own the document gets 404 and no completion request |
| DocumentsRoutes.RegisteredRowCannotBeAnalyzed | backend/src/routes/documents.js:110-115 | a row registered through `POST /` names no storage path, so analysing it gives 500 |
| DocumentsRoutes.RegisterDocument | backend/src/routes/documents.js:28-55 | the register handler's reply and insert are those of `CreateDocument` |
| DocumentsRoutes.StoreUpload | backend/src/routes/documents.js:143-187 | the storage write and then the insert are those of `UploadDocument` |
| DocumentsRoutes.RemoveDocument | backend/src/routes/documents.js:58-92 | the key removal and then the row delete are those of the corrected `DeleteDocument` |

## Left out

- Profile read and update, and `GET /auth/users`. These are store passthroughs with no rule
  to state.
- The list endpoints: the user's conversations, a conversation's messages and the user's
  documents.
- The admin passthrough CRUD: users, shared and knowledge documents, recommendations, and
  the promo-code list.
- `backend/src/index.js`: the Express wiring, which mounts no documents router, and a
  process-wide error handler.
- `backend/src/config/supabase.js`: an environment check and a startup probe. The one
  client it creates is modelled only through the `session` it holds.
- Sessions beyond their token: expiry, refresh, and the session object that sign-in
  returns, which the model reduces to its access token. A failing `getSession()`, which
  would give 401 "Token invalide", is not modelled: the model always reads the session.
- AuthRoutes.Register: when the provider creates the identity without opening a session,
  the model keeps the server's previous session. What the client library does with its
  stored session in that case is not modelled.
- JSON nulls inside arrays and completion results. A null entry in a code's `used_by`, on
  which `trim` throws and the redemption answers 500 "Erreur interne serveur", cannot be
  stored in the model. Neither can a null `message.content` from the completion service:
  `Completed` always carries a string. No modelled route writes either.
- Row caps on reads. The store's data API returns at most a configured number of rows per
  plain `select`, and the dashboard's selects read whole tables. The model's selects have
  no cap, so AdminRoutes.StatsConserve counts every row, where the code would count only
  the rows returned.
- ChatRoutes.History: the history is taken in stored order. The code orders it by
  `created_at`, and the user turn and the answer of one exchange carry the same
  timestamp, so the store may return those two in either order.
- The frontend.
- The PDF and Word readers behind `parseFile`. They are external libraries and appear as
  the `extract` parameter.
- Failures of the store's reads and writes after a check the model does pass. Examples are
  a failed balance update, a failed `used_by` write and a failed storage removal.
  The model assumes every write made after the guards succeeds, so the 500 "Erreur
  interne serveur" of a redemption whose write fails is not modelled.
- Concurrency: the read-then-write of the balance and of `used_by`, and the `Promise.all`
  of `/admin/chats`. The model runs one request at a time.
- Dates and locales. `toLocaleString('fr-FR')` and `getHours` are the `Calendar`
  parameter, and `Date.now()` is a `now` parameter.
- JSON details: the key order of a histogram object, the embedded `users(...)` of
  `/admin/chats`, and the order `updated_at`/`created_at desc` of the returned lists.
- The detail of the upload: its `contentType`, and the Buffer-or-arrayBuffer conversion of
  a download.
- Case folding: `toLowerCase` and `ILIKE` are modelled for ASCII letters only.
- Object keys that JavaScript treats specially, such as `__proto__`, `constructor` or
  `toString`. They are ordinary map keys in the histograms. In the prompt table of
  `DocumentAnalyzer.PromptFor`, such a type falls to the default prompt, where the code
  would pick up an `Object.prototype` member. The documents route passes only pdf, doc
  and docx, so no such key reaches the table.
- ChatRoutes.FirstAboutLettersIsFirst: the knowledge-base lookup is `.limit(1)` with no
  `.order(...)`, so the store may return any matching row. The model takes the first
  match in stored order.
- ChatRoutes.UpdateConversation: a body without `title`, which the client library sends as
  an empty update, is modelled as setting the title to null.
- UsersRoutes.SecondRedemptionFails: stated only for user ids without surrounding
  whitespace, as identity-provider ids are. The stored entry is trimmed but the comparison
  uses the raw id.
- DocumentsRoutes.DeleteDocument: for a row without `file_path`, which the client-side path
  of `POST /` creates, it removes `<user id>/<file name>` as the code does. The key of such
  an upload is not known to the server.
- UsersRoutes.RedeemCountsOneUse: requires that no code records "" as a redeemer. A stored
  "" counts toward `usedBy.length` but is dropped by `filter(Boolean)` on the next write,
  so the count would not grow. The modelled routes never store "": see
  `CreatePromoKeepsNoBlankRedeemers`, `RedeemKeepsNoBlankRedeemers` and
  `DeactivateKeepsNoBlankRedeemers`. It also requires an id that does not trim to "",
  since such an id is not recorded at all.
- UsersRoutes.UseLimitEnforced: the same two requirements, for the same reasons.
- AdminRoutes.ChatsConserve: requires every message to belong to a listed conversation, as
  the foreign key ensures.

## Findings

| source | as written | input that shows it | evidently intended | confidence | as-written member | corrected member |
|---|---|---|---|---|---|---|
| backend/src/routes/documents.js:76 | the delete removes the object `${req.user.id}/${doc.file_name}`, but the upload stored it at `${userId}/${Date.now()}_${file.originalname}` (line 154) | user "u" uploads "cv.pdf" at time 1700000000000, which stores "u/1700000000000_cv.pdf"; deleting that document removes "u/cv.pdf" and leaves the upload's bytes in the bucket with no row | remove the object under the row's `file_path` | not executed | DocumentsRoutes.UploadThenDeleteAsWrittenOrphansBlob | DocumentsRoutes.UploadThenDeleteRestores |

The as-written delete is `DocumentsRoutes.DeleteDocumentAsWritten`. The corrected delete is
`DocumentsRoutes.DeleteDocument`, which removes `file_path` when the row has one.
`DocumentsRoutes.RemoveDocument` performs the corrected delete.
