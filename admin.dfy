/** `/api/admin`, mounted behind `authenticateToken`: the contact form, which any signed-in
    user may post, then (behind `isAdmin` as well) the dashboard statistics, the per-conversation usage and the promo-code management.
    The statistics are folds over whole tables: counts, a sum of token usage, and
    histograms that add one (or a message's usage) per row to the row's key. */
module AdminRoutes {
  import opened Js
  import opened Http
  import opened Database
  import AuthMiddleware
  import UsersRoutes
  import Services

  const STUDENT_ROLE: string := "student"
  const DEFAULT_KIND: string := "contact"

  const CONTACT_FIELDS_MISSING: string := "Champs obligatoires manquants."
  const PROMO_FIELDS_MISSING: string := "Code et montant de tokens requis"
  const DUPLICATE_CODE: string := "Ce code promo existe déjà"
  const SERVER_FAULT: string := "Erreur serveur"

  // ---------------------------------------------------------------------------
  // Folds

  /** `acc[k] || 0`: the value under a key, 0 when the key is absent */
  function Get<K>(m: map<K, int>, k: K): int {
    if k in m then m[k] else 0
  }

  /** `acc[k] = (acc[k] || 0) + amount` */
  function Bump<K>(acc: map<K, int>, k: K, amount: int): (r: map<K, int>)
    ensures r.Keys == acc.Keys + {k}
    ensures Get(r, k) == Get(acc, k) + amount
  {
    acc[k := Get(acc, k) + amount]
  }

  /** `rows.reduce((acc, x) => { acc[key(x)] = (acc[key(x)] || 0) + weight(x); return acc }, acc)` */
  function Tally<T, K>(acc: map<K, int>, rows: seq<T>, key: T -> K, weight: T -> int): map<K, int>
    decreases |rows|
  {
    if rows == [] then acc else Tally(Bump(acc, key(rows[0]), weight(rows[0])), rows[1..], key, weight)
  }

  /** `rows.reduce((sum, x) => sum + weight(x), 0)` */
  function Total<T>(rows: seq<T>, weight: T -> int): int {
    if rows == [] then 0 else weight(rows[0]) + Total(rows[1..], weight)
  }

  /** The weight of a row in a count */
  function One<T>(): T -> int {
    (x: T) => 1
  }

  /** A histogram: one per row, under the row's key */
  function Histogram<T, K>(rows: seq<T>, key: T -> K): map<K, int> {
    Tally(map[], rows, key, One())
  }

  /** The rows whose key is `k` */
  function KeyIs<T, K(==)>(key: T -> K, k: K): T -> bool {
    (x: T) => key(x) == k
  }

  /** The sum of a map's values */
  ghost function SumValues<K>(m: map<K, int>): int
    decreases |m|
  {
    if m == map[] then 0 else var k :| k in m; m[k] + SumValues(m - {k})
  }

  /** Any key can be taken out first */
  lemma {:induction false} SumValuesRemove<K>(m: map<K, int>, k: K)
    requires k in m
    ensures SumValues(m) == m[k] + SumValues(m - {k})
    decreases |m|
  {
    var j :| j in m && SumValues(m) == m[j] + SumValues(m - {j});
    if j != k {
      SumValuesRemove(m - {j}, k);
      SumValuesRemove(m - {k}, j);
      assert m - {j} - {k} == m - {k} - {j};
    }
  }

  /** Adding to one key adds as much to the sum */
  lemma SumValuesBump<K>(m: map<K, int>, k: K, amount: int)
    ensures SumValues(Bump(m, k, amount)) == SumValues(m) + amount
  {
    var r := Bump(m, k, amount);
    SumValuesRemove(r, k);
    if k in m {
      SumValuesRemove(m, k);
      assert r - {k} == m - {k};
    } else {
      assert r - {k} == m;
    }
  }

  lemma {:induction false} TotalConcat<T>(a: seq<T>, b: seq<T>, weight: T -> int)
    ensures Total(a + b, weight) == Total(a, weight) + Total(b, weight)
  {
    if a == [] {
      assert a + b == b;
    } else {
      assert (a + b)[0] == a[0];
      assert (a + b)[1..] == a[1..] + b;
      TotalConcat(a[1..], b, weight);
    }
  }

  /** Counting is summing ones */
  lemma {:induction false} TotalOne<T>(rows: seq<T>)
    ensures Total(rows, One()) == |rows|
  {
    if rows != [] {
      TotalOne(rows[1..]);
    }
  }

  /** Conservation: a fold adds to the values exactly the rows' total weight */
  lemma {:induction false} TallyConserves<T, K>(acc: map<K, int>, rows: seq<T>, key: T -> K, weight: T -> int)
    ensures SumValues(Tally(acc, rows, key, weight)) == SumValues(acc) + Total(rows, weight)
    decreases |rows|
  {
    if rows != [] {
      SumValuesBump(acc, key(rows[0]), weight(rows[0]));
      TallyConserves(Bump(acc, key(rows[0]), weight(rows[0])), rows[1..], key, weight);
    }
  }

  /** Each key ends up holding the total weight of the rows with that key, and the keys
      are those of the rows */
  lemma {:induction false} TallyAt<T(!new), K>(acc: map<K, int>, rows: seq<T>, key: T -> K, weight: T -> int, k: K)
    ensures Get(Tally(acc, rows, key, weight), k) == Get(acc, k) + Total(Filter(rows, KeyIs(key, k)), weight)
    ensures k in Tally(acc, rows, key, weight) <==> k in acc || exists i :: 0 <= i < |rows| && key(rows[i]) == k
    decreases |rows|
  {
    if rows != [] {
      var x := rows[0];
      var head: seq<T> := if key(x) == k then [x] else [];
      TallyAt(Bump(acc, key(x), weight(x)), rows[1..], key, weight, k);
      assert Filter(rows, KeyIs(key, k)) == head + Filter(rows[1..], KeyIs(key, k));
      TotalConcat(head, Filter(rows[1..], KeyIs(key, k)), weight);
      assert forall i :: 1 <= i < |rows| ==> rows[i] == rows[1..][i - 1];
      if exists i :: 0 <= i < |rows[1..]| && key(rows[1..][i]) == k {
        var i :| 0 <= i < |rows[1..]| && key(rows[1..][i]) == k;
        assert key(rows[i + 1]) == k;
      }
    }
  }

  /** The values of a histogram add up to the number of rows */
  lemma HistogramCountsRows<T, K>(rows: seq<T>, key: T -> K)
    ensures SumValues(Histogram(rows, key)) == |rows|
  {
    TallyConserves(map[], rows, key, One());
    TotalOne(rows);
  }

  /** The value under a key is the number of rows with that key */
  lemma HistogramAt<T(!new), K>(rows: seq<T>, key: T -> K, k: K)
    ensures Get(Histogram(rows, key), k) == |Filter(rows, KeyIs(key, k))|
  {
    TallyAt(map[], rows, key, One(), k);
    TotalOne(Filter(rows, KeyIs(key, k)));
  }

  // ---------------------------------------------------------------------------
  // `GET /stats`

  /** How `created_at` is bucketed: month and weekday names and the hour, all of which
      depend on the locale and time zone of the server */
  datatype Calendar = Calendar(month: nat -> string, weekday: nat -> string, hour: nat -> int)

  /** The dashboard figures */
  datatype Stats = Stats(
    totalStudents: nat, totalMessages: nat, totalTokens: int, sharedDocuments: nat,
    monthlyStudents: map<string, int>, messagesByDay: map<string, int>, documentTypes: map<string, int>,
    userActivity: map<int, int>, tokenDistribution: map<string, int>)

  function IsStudent(): Profile -> bool {
    (u: Profile) => u.role == STUDENT_ROLE
  }

  function IsShared(): Document -> bool {
    (d: Document) => d.isShared
  }

  /** `msg.tokens_used || 0` */
  function TokensOf(): Message -> int {
    (m: Message) => m.tokensUsed.GetOr(0)
  }

  function RoleOf(): Message -> string {
    (m: Message) => m.role
  }

  function FileTypeOf(): Document -> string {
    (d: Document) => d.fileType
  }

  function MonthOf(cal: Calendar): Profile -> string {
    (u: Profile) => cal.month(u.createdAt)
  }

  function WeekdayOf(cal: Calendar): Message -> string {
    (m: Message) => cal.weekday(m.createdAt)
  }

  function HourOf(cal: Calendar): Message -> int {
    (m: Message) => cal.hour(m.createdAt)
  }

  /** The figures of the store: the number of students, of messages and of shared
      documents, the total token usage, and the histograms */
  function ComputeStats(db: Tables, cal: Calendar): (r: Stats)
    ensures r.totalStudents <= |db.users| && r.sharedDocuments <= |db.documents|
    ensures r.totalMessages == |db.messages|
  {
    var students := Filter(db.users, IsStudent());
    Stats(|students|, |db.messages|, Total(db.messages, TokensOf()), |Filter(db.documents, IsShared())|,
          Histogram(students, MonthOf(cal)), Histogram(db.messages, WeekdayOf(cal)),
          Histogram(db.documents, FileTypeOf()), Histogram(db.messages, HourOf(cal)),
          Tally(map[], db.messages, RoleOf(), TokensOf()))
  }

  /** `GET /stats` behind the admin gate */
  function GetStats(db: Tables, callerId: string, cal: Calendar): (r: Reply<Stats>)
    ensures r.Ok? <==> AuthMiddleware.IsAdmin(db.users, callerId).Pass?
    ensures r.Fail? ==>
              r == Fail(AuthMiddleware.IsAdmin(db.users, callerId).status, AuthMiddleware.IsAdmin(db.users, callerId).error)
    ensures r.Ok? ==> r == Ok(OK, ComputeStats(db, cal))
  {
    match AuthMiddleware.IsAdmin(db.users, callerId)
    case Halt(status, error) => Fail(status, error)
    case Pass(_) => Ok(OK, ComputeStats(db, cal))
  }

  /** The conservation laws of the dashboard: the month histogram counts every student,
      the weekday and hour histograms every message, the file-type histogram every
      document, and the per-role usage adds up to the total usage */
  lemma StatsConserve(db: Tables, cal: Calendar)
    ensures var s := ComputeStats(db, cal);
            && SumValues(s.monthlyStudents) == s.totalStudents
            && SumValues(s.messagesByDay) == s.totalMessages
            && SumValues(s.userActivity) == s.totalMessages
            && SumValues(s.documentTypes) == |db.documents|
            && SumValues(s.tokenDistribution) == s.totalTokens
  {
    HistogramCountsRows(Filter(db.users, IsStudent()), MonthOf(cal));
    HistogramCountsRows(db.messages, WeekdayOf(cal));
    HistogramCountsRows(db.messages, HourOf(cal));
    HistogramCountsRows(db.documents, FileTypeOf());
    TallyConserves(map[], db.messages, RoleOf(), TokensOf());
    var none: map<string, int> := map[];
    assert SumValues(none) == 0;
  }

  /** Each role's entry is the usage of that role's messages; the file-type entry is the
      number of documents of that type */
  lemma StatsPerKey(db: Tables, cal: Calendar, role: string, fileType: string)
    ensures var s := ComputeStats(db, cal);
            && Get(s.tokenDistribution, role) == Total(Filter(db.messages, KeyIs(RoleOf(), role)), TokensOf())
            && Get(s.documentTypes, fileType) == |Filter(db.documents, KeyIs(FileTypeOf(), fileType))|
  {
    TallyAt(map[], db.messages, RoleOf(), TokensOf(), role);
    HistogramAt(db.documents, FileTypeOf(), fileType);
  }

  // ---------------------------------------------------------------------------
  // `GET /chats`

  /** A conversation row with its number of messages and their summed usage */
  datatype ConversationStats = ConversationStats(conversation: Conversation, messageCount: nat, totalTokens: int)

  function StatsOf(c: Conversation, messages: seq<Message>): ConversationStats {
    var own := Filter(messages, InConversation(c.id));
    ConversationStats(c, |own|, Total(own, TokensOf()))
  }

  /** `conversations.map(...)`: every conversation, in order, with its figures */
  function WithStats(conversations: seq<Conversation>, messages: seq<Message>): (r: seq<ConversationStats>)
    ensures |r| == |conversations|
  {
    if conversations == [] then []
    else [StatsOf(conversations[0], messages)] + WithStats(conversations[1..], messages)
  }

  /** `GET /chats` behind the admin gate */
  function GetChats(db: Tables, callerId: string): (r: Reply<seq<ConversationStats>>)
    ensures r.Ok? <==> AuthMiddleware.IsAdmin(db.users, callerId).Pass?
    ensures r.Fail? ==>
              r == Fail(AuthMiddleware.IsAdmin(db.users, callerId).status, AuthMiddleware.IsAdmin(db.users, callerId).error)
    ensures r.Ok? ==> r == Ok(OK, WithStats(db.conversations, db.messages))
  {
    match AuthMiddleware.IsAdmin(db.users, callerId)
    case Halt(status, error) => Fail(status, error)
    case Pass(_) => Ok(OK, WithStats(db.conversations, db.messages))
  }

  /** Every conversation keeps its own fields and gets its own messages' figures */
  lemma {:induction false} WithStatsAt(conversations: seq<Conversation>, messages: seq<Message>)
    ensures var r := WithStats(conversations, messages);
            forall i :: 0 <= i < |r| ==>
              && r[i].conversation == conversations[i]
              && r[i].messageCount == |Filter(messages, InConversation(conversations[i].id))|
              && r[i].totalTokens == Total(Filter(messages, InConversation(conversations[i].id)), TokensOf())
  {
    if conversations != [] {
      WithStatsAt(conversations[1..], messages);
      var r := WithStats(conversations, messages);
      assert forall i :: 1 <= i < |r| ==> r[i] == WithStats(conversations[1..], messages)[i - 1];
    }
  }

  function Ids(conversations: seq<Conversation>): set<int> {
    if conversations == [] then {} else {conversations[0].id} + Ids(conversations[1..])
  }

  /** The ids are distinct, as the primary key makes them */
  predicate DistinctIds(conversations: seq<Conversation>) {
    conversations == [] || (conversations[0].id !in Ids(conversations[1..]) && DistinctIds(conversations[1..]))
  }

  function InOneOf(conversations: seq<Conversation>): Message -> bool {
    (m: Message) => m.conversationId in Ids(conversations)
  }

  /** A conversation's share of a weight over the messages */
  function Share(messages: seq<Message>, weight: Message -> int): Conversation -> int {
    (c: Conversation) => Total(Filter(messages, InConversation(c.id)), weight)
  }

  function CountOf(): ConversationStats -> int {
    (s: ConversationStats) => s.messageCount
  }

  function UsageOf(): ConversationStats -> int {
    (s: ConversationStats) => s.totalTokens
  }

  /** Filtering for one of two exclusive properties splits the total */
  lemma {:induction false} TotalOfEither<T(!new)>(rows: seq<T>, p: T -> bool, q: T -> bool, both: T -> bool, weight: T -> int)
    requires forall x :: both(x) <==> p(x) || q(x)
    requires forall x :: !(p(x) && q(x))
    ensures Total(Filter(rows, both), weight) == Total(Filter(rows, p), weight) + Total(Filter(rows, q), weight)
  {
    if rows != [] {
      var x := rows[0];
      TotalOfEither(rows[1..], p, q, both, weight);
      var hb: seq<T> := if both(x) then [x] else [];
      var hp: seq<T> := if p(x) then [x] else [];
      var hq: seq<T> := if q(x) then [x] else [];
      TotalConcat(hb, Filter(rows[1..], both), weight);
      TotalConcat(hp, Filter(rows[1..], p), weight);
      TotalConcat(hq, Filter(rows[1..], q), weight);
    }
  }

  /** The shares of distinct conversations add up to the weight of their messages */
  lemma {:induction false} SharesAddUp(conversations: seq<Conversation>, messages: seq<Message>, weight: Message -> int)
    requires DistinctIds(conversations)
    ensures Total(conversations, Share(messages, weight)) == Total(Filter(messages, InOneOf(conversations)), weight)
  {
    if conversations == [] {
      FilterNone(messages, InOneOf(conversations));
    } else {
      var c := conversations[0];
      var rest := conversations[1..];
      SharesAddUp(rest, messages, weight);
      TotalOfEither(messages, InConversation(c.id), InOneOf(rest), InOneOf(conversations), weight);
    }
  }

  /** The figures of each conversation are its shares of the count and of the usage */
  lemma {:induction false} WithStatsShares(conversations: seq<Conversation>, messages: seq<Message>)
    ensures Total(WithStats(conversations, messages), CountOf()) == Total(conversations, Share(messages, One()))
    ensures Total(WithStats(conversations, messages), UsageOf()) == Total(conversations, Share(messages, TokensOf()))
  {
    if conversations != [] {
      WithStatsShares(conversations[1..], messages);
      TotalOne(Filter(messages, InConversation(conversations[0].id)));
    }
  }

  /** Conservation: when every message belongs to one of the listed conversations, the
      per-conversation counts add up to the number of messages and the per-conversation
      usage to the dashboard's total */
  lemma ChatsConserve(conversations: seq<Conversation>, messages: seq<Message>)
    requires DistinctIds(conversations)
    requires forall i :: 0 <= i < |messages| ==> messages[i].conversationId in Ids(conversations)
    ensures Total(WithStats(conversations, messages), CountOf()) == |messages|
    ensures Total(WithStats(conversations, messages), UsageOf()) == Total(messages, TokensOf())
  {
    WithStatsShares(conversations, messages);
    FilterAll(messages, InOneOf(conversations));
    SharesAddUp(conversations, messages, One());
    SharesAddUp(conversations, messages, TokensOf());
    TotalOne(messages);
  }

  // ---------------------------------------------------------------------------
  // `POST /contact` (signed-in users, no role check)

  datatype ContactBody = ContactBody(
    name: Option<string>, email: Option<string>, subject: Option<string>, message: Option<string>,
    kind: Option<string>)

  /** `POST /contact`: a name, an email and a message are required (400 otherwise); the
      request is stored with the kind "contact" unless another is given */
  function SubmitContact(db: Tables, b: ContactBody): (out: Outcome<bool>)
    ensures out.reply.Ok? <==> Given(b.name) && Given(b.email) && Given(b.message)
    ensures out.reply.Fail? ==> out.reply == Fail(BAD_REQUEST, Text(CONTACT_FIELDS_MISSING)) && out.after == db
    ensures out.reply.Ok? ==>
              && out.reply == Ok(CREATED, true)
              && out.after == db.(contacts := out.after.contacts)
              && |out.after.contacts| == |db.contacts| + 1 && out.after.contacts[..|db.contacts|] == db.contacts
              && var row := out.after.contacts[|db.contacts|];
                 && row.name == b.name.value && row.email == b.email.value && row.message == b.message.value
                 && row.subject == b.subject
                 && row.kind == (if Given(b.kind) then b.kind.value else DEFAULT_KIND)
  {
    if !Given(b.name) || !Given(b.email) || !Given(b.message) then
      Outcome(Fail(BAD_REQUEST, Text(CONTACT_FIELDS_MISSING)), db)
    else
      Outcome(Ok(CREATED, true), db.(contacts := db.contacts + [ContactRow(b)]))
  }

  function ContactRow(b: ContactBody): Contact
    requires Given(b.name) && Given(b.email) && Given(b.message)
  {
    Contact(b.name.value, b.email.value, b.subject, b.message.value, if Given(b.kind) then b.kind.value else DEFAULT_KIND)
  }

  /** `POST /api/admin/contact` as mounted: `authenticateToken` runs first, so a refused
      header or token is its 401 and only an authenticated caller's form is stored */
  function ContactRoute(db: Tables, header: Option<string>, getUser: string -> Services.UserLookup,
                        b: ContactBody): (out: Outcome<bool>)
    ensures AuthMiddleware.Authenticate(db, header, getUser).Halt? ==>
              && out.after == db
              && out.reply == Fail(UNAUTHORIZED, AuthMiddleware.Authenticate(db, header, getUser).error)
    ensures AuthMiddleware.Authenticate(db, header, getUser).Pass? ==> out == SubmitContact(db, b)
    ensures out.after.contacts != db.contacts ==> AuthMiddleware.Authenticate(db, header, getUser).Pass?
  {
    match AuthMiddleware.Authenticate(db, header, getUser)
    case Halt(status, error) => Outcome(Fail(status, error), db)
    case Pass(_) => SubmitContact(db, b)
  }

  /** Without a signed-in session on the server nobody can post the contact form: every
      attempt is a 401 and no row is stored */
  lemma ContactNeedsSession(db: Tables, header: Option<string>, getUser: string -> Services.UserLookup, b: ContactBody)
    requires db.session.None?
    ensures var out := ContactRoute(db, header, getUser, b);
            out.reply.Fail? && out.reply.status == UNAUTHORIZED && out.after == db
  {
    AuthMiddleware.NoSessionRefusesAll(db, header, getUser);
  }

  /** The contact handler against the store */
  method PostContact(store: Store, b: ContactBody) returns (r: Reply<bool>)
    modifies store
    ensures r == SubmitContact(old(store.Contents()), b).reply
    ensures store.Contents() == SubmitContact(old(store.Contents()), b).after
  {
    if !Given(b.name) || !Given(b.email) || !Given(b.message) {
      return Fail(BAD_REQUEST, Text(CONTACT_FIELDS_MISSING));
    }
    store.contacts := store.contacts + [ContactRow(b)];
    r := Ok(CREATED, true);
  }

  // ---------------------------------------------------------------------------
  // Promo codes

  datatype PromoBody = PromoBody(code: Option<string>, tokenAmount: Option<int>, maxUses: Option<int>)

  /** `.eq('code', code)` */
  function WithCode(code: string): PromoCode -> bool {
    (p: PromoCode) => p.code == code
  }

  /** No two codes are alike */
  predicate CodesUnique(promos: seq<PromoCode>) {
    forall i, j :: 0 <= i < j < |promos| ==> promos[i].code != promos[j].code
  }

  /** The row a creation inserts: no use yet, active, and a limit only when a non-zero one
      is given (`max_uses || null`) */
  function NewPromo(id: int, b: PromoBody): PromoCode
    requires Given(b.code) && GivenNumber(b.tokenAmount)
  {
    PromoCode(id, b.code.value, b.tokenAmount.value, if GivenNumber(b.maxUses) then b.maxUses else None, Some([]), true)
  }

  /** `POST /promo-codes` behind the admin gate: a code and a non-zero amount are required
      (400); a code that one row already has is refused (400); otherwise the code is
      inserted with a fresh id (201). The duplicate check reads with `.single()`, whose
      "not exactly one row" error the handler takes for "no such code". */
  function CreatePromo(db: Tables, callerId: string, b: PromoBody): (out: Outcome<PromoCode>)
    ensures out.reply.Fail? ==> out.after == db
    ensures AuthMiddleware.IsAdmin(db.users, callerId).Halt? ==>
              out.reply == Fail(AuthMiddleware.IsAdmin(db.users, callerId).status, AuthMiddleware.IsAdmin(db.users, callerId).error)
    ensures AuthMiddleware.IsAdmin(db.users, callerId).Pass? && (!Given(b.code) || !GivenNumber(b.tokenAmount)) ==>
              out.reply == Fail(BAD_REQUEST, Text(PROMO_FIELDS_MISSING))
    ensures AuthMiddleware.IsAdmin(db.users, callerId).Pass? && Given(b.code) && GivenNumber(b.tokenAmount)
            && Single(db.promoCodes, WithCode(b.code.value)).Some? ==>
              out.reply == Fail(BAD_REQUEST, Text(DUPLICATE_CODE))
    ensures out.reply.Ok? <==>
              && AuthMiddleware.IsAdmin(db.users, callerId).Pass? && Given(b.code) && GivenNumber(b.tokenAmount)
              && Single(db.promoCodes, WithCode(b.code.value)).None?
    ensures out.reply.Ok? ==>
              && out.reply == Ok(CREATED, NewPromo(db.nextId, b))
              && out.after == db.(promoCodes := db.promoCodes + [NewPromo(db.nextId, b)], nextId := db.nextId + 1)
  {
    match AuthMiddleware.IsAdmin(db.users, callerId)
    case Halt(status, error) => Outcome(Fail(status, error), db)
    case Pass(_) =>
      if !Given(b.code) || !GivenNumber(b.tokenAmount) then Outcome(Fail(BAD_REQUEST, Text(PROMO_FIELDS_MISSING)), db)
      else if Single(db.promoCodes, WithCode(b.code.value)).Some? then Outcome(Fail(BAD_REQUEST, Text(DUPLICATE_CODE)), db)
      else
        var promo := NewPromo(db.nextId, b);
        Outcome(Ok(CREATED, promo), db.(promoCodes := db.promoCodes + [promo], nextId := db.nextId + 1))
  }

  /** In a table of distinct codes, a code that is present selects exactly its row */
  lemma {:induction false} UniqueCodeSelects(promos: seq<PromoCode>, k: int)
    requires CodesUnique(promos) && 0 <= k < |promos|
    ensures Filter(promos, WithCode(promos[k].code)) == [promos[k]]
  {
    var code := promos[k].code;
    if k == 0 {
      FilterNone(promos[1..], WithCode(code));
    } else {
      UniqueCodeSelects(promos[1..], k - 1);
    }
    assert Filter(promos, WithCode(code)) ==
           (if promos[0].code == code then [promos[0]] else []) + Filter(promos[1..], WithCode(code));
  }

  /** A code the duplicate check does not find is in no row of a table of distinct codes */
  lemma AbsentCode(promos: seq<PromoCode>, code: string)
    requires CodesUnique(promos) && Single(promos, WithCode(code)).None?
    ensures forall i :: 0 <= i < |promos| ==> promos[i].code != code
  {
    forall i | 0 <= i < |promos|
      ensures promos[i].code != code
    {
      if promos[i].code == code {
        UniqueCodeSelects(promos, i);
      }
    }
  }

  /** A created code has no redeemer yet, is active, and bears the limit `max_uses || null` */
  lemma CreatedPromoDefaults(db: Tables, callerId: string, b: PromoBody)
    requires CreatePromo(db, callerId, b).reply.Ok?
    ensures var p := CreatePromo(db, callerId, b).reply.body;
            && p.code == b.code.value && p.tokenAmount == b.tokenAmount.value
            && p.usedBy == Some([]) && p.isActive
            && (GivenNumber(b.maxUses) ==> p.maxUses == b.maxUses)
            && (!GivenNumber(b.maxUses) ==> p.maxUses == None)
  {
  }

  /** Creation keeps the codes distinct and the id sequence ahead of the stored ids */
  lemma CreatePromoKeepsCodesUnique(db: Tables, callerId: string, b: PromoBody)
    requires CodesUnique(db.promoCodes) && IdsFresh(db)
    ensures var after := CreatePromo(db, callerId, b).after;
            CodesUnique(after.promoCodes) && IdsFresh(after)
  {
    if CreatePromo(db, callerId, b).reply.Ok? {
      AbsentCode(db.promoCodes, b.code.value);
    }
  }

  /** A new code records no redeemer, so no empty one */
  lemma CreatePromoKeepsNoBlankRedeemers(db: Tables, callerId: string, b: PromoBody)
    requires UsersRoutes.NoBlankRedeemers(db.promoCodes)
    ensures UsersRoutes.NoBlankRedeemers(CreatePromo(db, callerId, b).after.promoCodes)
  {
  }

  /** A created code can be redeemed at once by any user with a profile, when its limit is
      unset or positive */
  lemma CreatedPromoRedeemable(db: Tables, callerId: string, b: PromoBody, userId: string)
    requires CodesUnique(db.promoCodes)
    requires CreatePromo(db, callerId, b).reply.Ok?
    requires b.maxUses.None? || b.maxUses.value >= 0
    requires userId != "" && UserRow(db.users, userId).Some?
    ensures var out := CreatePromo(db, callerId, b);
            && UsersRoutes.ActivePromo(out.after.promoCodes, b.code.value) == Some(out.reply.body)
            && UsersRoutes.Redeem(out.after, userId, b.code).reply.Ok?
  {
    var out := CreatePromo(db, callerId, b);
    var p := out.reply.body;
    AbsentCode(db.promoCodes, b.code.value);
    FilterNone(db.promoCodes, UsersRoutes.ActiveWithCode(b.code.value));
    FilterConcat(db.promoCodes, [p], UsersRoutes.ActiveWithCode(b.code.value));
    assert UsersRoutes.Redeemers(p) == [];
  }

  /** The promo-code creation handler against the store */
  method AddPromoCode(store: Store, callerId: string, b: PromoBody) returns (r: Reply<PromoCode>)
    modifies store
    ensures r == CreatePromo(old(store.Contents()), callerId, b).reply
    ensures store.Contents() == CreatePromo(old(store.Contents()), callerId, b).after
  {
    var gate := AuthMiddleware.IsAdmin(store.users, callerId);
    if gate.Halt? {
      return Fail(gate.status, gate.error);
    }
    if !Given(b.code) || !GivenNumber(b.tokenAmount) {
      return Fail(BAD_REQUEST, Text(PROMO_FIELDS_MISSING));
    }
    if Single(store.promoCodes, WithCode(b.code.value)).Some? {
      return Fail(BAD_REQUEST, Text(DUPLICATE_CODE));
    }
    var promo := NewPromo(store.nextId, b);
    store.nextId := store.nextId + 1;
    store.promoCodes := store.promoCodes + [promo];
    r := Ok(CREATED, promo);
  }

  /** `.update({ is_active: false })` */
  function SetInactive(): PromoCode -> PromoCode {
    (p: PromoCode) => p.(isActive := false)
  }

  /** `PUT /promo-codes/:id/deactivate` behind the admin gate. The update ends in
      `.single()`, which fails (500) unless exactly one row has the id. */
  function DeactivatePromo(db: Tables, callerId: string, id: int): (out: Outcome<PromoCode>)
    ensures out.reply.Fail? ==> out.after == db
    ensures AuthMiddleware.IsAdmin(db.users, callerId).Halt? ==>
              out.reply == Fail(AuthMiddleware.IsAdmin(db.users, callerId).status, AuthMiddleware.IsAdmin(db.users, callerId).error)
    ensures AuthMiddleware.IsAdmin(db.users, callerId).Pass? && Single(db.promoCodes, UsersRoutes.PromoWithId(id)).None? ==>
              out.reply == Fail(SERVER_ERROR, Text(SERVER_FAULT))
    ensures out.reply.Ok? <==>
              AuthMiddleware.IsAdmin(db.users, callerId).Pass? && Single(db.promoCodes, UsersRoutes.PromoWithId(id)).Some?
    ensures out.reply.Ok? ==>
              && out.reply == Ok(OK, Single(db.promoCodes, UsersRoutes.PromoWithId(id)).value.(isActive := false))
              && out.after == db.(promoCodes := out.after.promoCodes)
  {
    match AuthMiddleware.IsAdmin(db.users, callerId)
    case Halt(status, error) => Outcome(Fail(status, error), db)
    case Pass(_) =>
      match Single(db.promoCodes, UsersRoutes.PromoWithId(id))
      case None => Outcome(Fail(SERVER_ERROR, Text(SERVER_FAULT)), db)
      case Some(p) =>
        Outcome(Ok(OK, p.(isActive := false)),
                db.(promoCodes := Update(db.promoCodes, UsersRoutes.PromoWithId(id), SetInactive())))
  }

  /** Deactivation clears `is_active` on the row with the id and changes nothing else */
  lemma DeactivateOnlyClearsFlag(db: Tables, callerId: string, id: int)
    requires DeactivatePromo(db, callerId, id).reply.Ok?
    ensures var after := DeactivatePromo(db, callerId, id).after.promoCodes;
            && |after| == |db.promoCodes|
            && forall i :: 0 <= i < |after| ==>
                 after[i] == if db.promoCodes[i].id == id then db.promoCodes[i].(isActive := false) else db.promoCodes[i]
  {
    UpdateAt(db.promoCodes, UsersRoutes.PromoWithId(id), SetInactive());
  }

  /** Deactivation leaves every `used_by` list as it was */
  lemma DeactivateKeepsNoBlankRedeemers(db: Tables, callerId: string, id: int)
    requires UsersRoutes.NoBlankRedeemers(db.promoCodes)
    ensures UsersRoutes.NoBlankRedeemers(DeactivatePromo(db, callerId, id).after.promoCodes)
  {
    if DeactivatePromo(db, callerId, id).reply.Ok? {
      DeactivateOnlyClearsFlag(db, callerId, id);
    }
  }

  /** Deactivating again answers the same and changes nothing more */
  lemma DeactivateIdempotent(db: Tables, callerId: string, id: int)
    requires DeactivatePromo(db, callerId, id).reply.Ok?
    ensures var out := DeactivatePromo(db, callerId, id);
            DeactivatePromo(out.after, callerId, id) == out
  {
    var p := UsersRoutes.PromoWithId(id);
    UpdateSelected(db.promoCodes, p, SetInactive());
    UpdateTwice(db.promoCodes, p, SetInactive());
  }

  /** Once deactivated, a code (one of a table of distinct codes) is refused as invalid
      to every user */
  lemma DeactivatedCodeIsInvalid(db: Tables, callerId: string, id: int, userId: string)
    requires CodesUnique(db.promoCodes)
    requires DeactivatePromo(db, callerId, id).reply.Ok?
    requires userId != ""
    ensures var out := DeactivatePromo(db, callerId, id);
            var code := out.reply.body.code;
            code != "" ==>
              UsersRoutes.Redeem(out.after, userId, Some(code)) ==
                Outcome(Fail(BAD_REQUEST, Text(UsersRoutes.INVALID_CODE)), out.after)
  {
    var out := DeactivatePromo(db, callerId, id);
    var target := Single(db.promoCodes, UsersRoutes.PromoWithId(id)).value;
    var code := target.code;
    DeactivateOnlyClearsFlag(db, callerId, id);
    var k :| 0 <= k < |db.promoCodes| && db.promoCodes[k] == target;
    var after := out.after.promoCodes;
    assert forall i :: 0 <= i < |after| ==> !UsersRoutes.ActiveWithCode(code)(after[i]);
    FilterNone(after, UsersRoutes.ActiveWithCode(code));
  }

  /** The deactivation handler against the store */
  method DisablePromoCode(store: Store, callerId: string, id: int) returns (r: Reply<PromoCode>)
    modifies store
    ensures r == DeactivatePromo(old(store.Contents()), callerId, id).reply
    ensures store.Contents() == DeactivatePromo(old(store.Contents()), callerId, id).after
  {
    var gate := AuthMiddleware.IsAdmin(store.users, callerId);
    if gate.Halt? {
      return Fail(gate.status, gate.error);
    }
    var found := Single(store.promoCodes, UsersRoutes.PromoWithId(id));
    if found.None? {
      return Fail(SERVER_ERROR, Text(SERVER_FAULT));
    }
    store.promoCodes := Update(store.promoCodes, UsersRoutes.PromoWithId(id), SetInactive());
    r := Ok(OK, found.value.(isActive := false));
  }
}
