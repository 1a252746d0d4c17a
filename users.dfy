/** `/api/users`: reading the token balance and redeeming a promo code. A code is redeemed
    at most once per user and at most `max_uses` times in all (when that limit is set);
    redeeming adds the code's amount to the balance and records the user in `used_by`. */
module UsersRoutes {
  import opened Js
  import opened Http
  import opened Database

  const MISSING_CODE: string := "Code ou utilisateur manquant"
  const INVALID_CODE: string := "Code promo invalide"
  const ALREADY_USED: string := "Code déjà utilisé"
  const LIMIT_REACHED: string := "Limite d'utilisation atteinte"
  const UNKNOWN_USER: string := "Utilisateur introuvable"
  const SERVER_FAULT: string := "Erreur serveur"

  /** The body of a successful redemption */
  datatype Redeemed = Redeemed(tokensAwarded: int, newBalance: int)

  /** `GET /tokens`: the stored balance, which may be null; a missing profile makes the
      `.single()` lookup fail, which is answered with a 500 */
  function GetTokens(db: Tables, userId: string): (r: Reply<Option<int>>)
    ensures r.Ok? <==> UserRow(db.users, userId).Some?
    ensures r.Ok? ==> r == Ok(OK, UserRow(db.users, userId).value.tokensRemaining)
    ensures r.Fail? ==> r == Fail(SERVER_ERROR, Text(SERVER_FAULT))
  {
    match UserRow(db.users, userId)
    case None => Fail(SERVER_ERROR, Text(SERVER_FAULT))
    case Some(u) => Ok(OK, u.tokensRemaining)
  }

  /** `.eq('code', code).eq('is_active', true)` */
  function ActiveWithCode(code: string): PromoCode -> bool {
    (p: PromoCode) => p.code == code && p.isActive
  }

  /** `.eq('id', id)` on `promo_codes` */
  function PromoWithId(id: int): PromoCode -> bool {
    (p: PromoCode) => p.id == id
  }

  /** The active code a redemption reads with `.single()` */
  function ActivePromo(promos: seq<PromoCode>, code: string): Option<PromoCode> {
    Single(promos, ActiveWithCode(code))
  }

  /** The recorded redeemers with surrounding whitespace removed */
  function Redeemers(p: PromoCode): seq<string> {
    TrimAll(p.usedBy.GetOr([]))
  }

  /** A set, non-zero `max_uses` that the recorded redeemers have reached */
  predicate LimitReached(p: PromoCode) {
    GivenNumber(p.maxUses) && |Redeemers(p)| >= p.maxUses.value
  }

  /** The new `used_by`: the stored list (untrimmed) with the trimmed user id appended,
      empty strings dropped */
  function RecordRedeemer(p: PromoCode, userId: string): seq<string> {
    NonEmpty(p.usedBy.GetOr([]) + [Trim(userId)])
  }

  /** The stored entries that survive are the non-empty ones, and the user is appended
      unless the id trims to nothing */
  lemma RecordRedeemerAppends(p: PromoCode, userId: string)
    ensures RecordRedeemer(p, userId) ==
              NonEmpty(p.usedBy.GetOr([])) + (if Trim(userId) == "" then [] else [Trim(userId)])
  {
    NonEmptyConcat(p.usedBy.GetOr([]), [Trim(userId)]);
  }

  /** `.update({ used_by: list })` */
  function SetUsedBy(list: seq<string>): PromoCode -> PromoCode {
    (p: PromoCode) => p.(usedBy := Some(list))
  }

  /** `POST /redeem-promo`. The checks run in this order and the first failing one answers
      with a 400: a code and a user id, an active code (exactly one row), not yet redeemed
      by this user, the use limit not reached, the user's profile (exactly one row). A
      failure changes nothing. */
  function Redeem(db: Tables, userId: string, code: Option<string>): (out: Outcome<Redeemed>)
    ensures out.reply.Fail? ==> out.reply.status == BAD_REQUEST && out.after == db
    ensures !Given(code) || userId == "" ==> out.reply == Fail(BAD_REQUEST, Text(MISSING_CODE))
    ensures Given(code) && userId != "" && ActivePromo(db.promoCodes, code.value).None? ==>
              out.reply == Fail(BAD_REQUEST, Text(INVALID_CODE))
    ensures Given(code) && userId != "" && ActivePromo(db.promoCodes, code.value).Some? ==>
              var p := ActivePromo(db.promoCodes, code.value).value;
              && (userId in Redeemers(p) ==> out.reply == Fail(BAD_REQUEST, Text(ALREADY_USED)))
              && (userId !in Redeemers(p) && LimitReached(p) ==> out.reply == Fail(BAD_REQUEST, Text(LIMIT_REACHED)))
              && (userId !in Redeemers(p) && !LimitReached(p) && UserRow(db.users, userId).None? ==>
                    out.reply == Fail(BAD_REQUEST, Text(UNKNOWN_USER)))
    ensures out.reply.Ok? <==>
              && Given(code) && userId != ""
              && ActivePromo(db.promoCodes, code.value).Some?
              && userId !in Redeemers(ActivePromo(db.promoCodes, code.value).value)
              && !LimitReached(ActivePromo(db.promoCodes, code.value).value)
              && UserRow(db.users, userId).Some?
    ensures out.reply.Ok? ==>
              && out.reply.status == OK
              && out.reply.body.tokensAwarded == ActivePromo(db.promoCodes, code.value).value.tokenAmount
              && out.reply.body.newBalance ==
                   UserRow(db.users, userId).value.tokensRemaining.GetOr(0) + out.reply.body.tokensAwarded
              && out.after == db.(users := out.after.users, promoCodes := out.after.promoCodes)
  {
    if !Given(code) || userId == "" then Outcome(Fail(BAD_REQUEST, Text(MISSING_CODE)), db)
    else
      match ActivePromo(db.promoCodes, code.value)
      case None => Outcome(Fail(BAD_REQUEST, Text(INVALID_CODE)), db)
      case Some(promo) =>
        if userId in Redeemers(promo) then Outcome(Fail(BAD_REQUEST, Text(ALREADY_USED)), db)
        else if LimitReached(promo) then Outcome(Fail(BAD_REQUEST, Text(LIMIT_REACHED)), db)
        else
          match UserRow(db.users, userId)
          case None => Outcome(Fail(BAD_REQUEST, Text(UNKNOWN_USER)), db)
          case Some(user) => Credit(db, userId, promo, user, RecordRedeemer(promo, userId))
  }

  /** The writes of a redemption that passed every check: the balance, then `used_by` */
  function Credit(db: Tables, userId: string, promo: PromoCode, user: Profile, usedBy: seq<string>): (out: Outcome<Redeemed>)
    ensures out.reply.Ok? && out.reply.status == OK && out.reply.body.tokensAwarded == promo.tokenAmount
    ensures out.reply.body.newBalance == user.tokensRemaining.GetOr(0) + out.reply.body.tokensAwarded
    ensures out.after == db.(users := out.after.users, promoCodes := out.after.promoCodes)
    ensures |out.after.users| == |db.users| && |out.after.promoCodes| == |db.promoCodes|
  {
    var newBalance := user.tokensRemaining.GetOr(0) + promo.tokenAmount;
    var users := Update(db.users, UserWithId(userId), SetBalance(newBalance));
    Outcome(Ok(OK, Redeemed(promo.tokenAmount, newBalance)),
            db.(users := users, promoCodes := RecordUse(db.promoCodes, promo.id, usedBy)))
  }

  /** `.update({ used_by: usedBy }).eq('id', id)` */
  function RecordUse(promos: seq<PromoCode>, id: int, usedBy: seq<string>): seq<PromoCode> {
    Update(promos, PromoWithId(id), SetUsedBy(usedBy))
  }

  lemma RedeemIsCredit(db: Tables, userId: string, code: Option<string>)
    requires Redeem(db, userId, code).reply.Ok?
    ensures ActivePromo(db.promoCodes, code.value).Some? && UserRow(db.users, userId).Some?
    ensures Redeem(db, userId, code) ==
              var p := ActivePromo(db.promoCodes, code.value).value;
              Credit(db, userId, p, UserRow(db.users, userId).value, RecordRedeemer(p, userId))
  {
  }

  /** The balance write of a redemption lands on the user's own row and nowhere else */
  lemma CreditBalance(db: Tables, userId: string, promo: PromoCode, u: Profile, usedBy: seq<string>)
    requires UserRow(db.users, userId) == Some(u)
    ensures var out := Credit(db, userId, promo, u, usedBy);
            && UserRow(out.after.users, userId) == Some(u.(tokensRemaining := Some(out.reply.body.newBalance)))
            && (forall other :: other != userId ==>
                  Filter(out.after.users, UserWithId(other)) == Filter(db.users, UserWithId(other)))
  {
    var balance := u.tokensRemaining.GetOr(0) + promo.tokenAmount;
    UpdateSelected(db.users, UserWithId(userId), SetBalance(balance));
    forall other | other != userId
      ensures Filter(Update(db.users, UserWithId(userId), SetBalance(balance)), UserWithId(other))
              == Filter(db.users, UserWithId(other))
    {
      UpdateElsewhere(db.users, UserWithId(userId), SetBalance(balance), UserWithId(other));
    }
  }

  /** A successful redemption stores the balance it reports on the user's own row and
      leaves every other user's rows as they were */
  lemma RedeemCredits(db: Tables, userId: string, code: Option<string>)
    requires Redeem(db, userId, code).reply.Ok?
    ensures var out := Redeem(db, userId, code);
            var u := UserRow(db.users, userId).value;
            && UserRow(out.after.users, userId) == Some(u.(tokensRemaining := Some(out.reply.body.newBalance)))
            && (forall other :: other != userId ==>
                  Filter(out.after.users, UserWithId(other)) == Filter(db.users, UserWithId(other)))
  {
    RedeemIsCredit(db, userId, code);
    var p := ActivePromo(db.promoCodes, code.value).value;
    CreditBalance(db, userId, p, UserRow(db.users, userId).value, RecordRedeemer(p, userId));
  }

  /** The `used_by` write lands on the code that was read: that code stays active and
      selectable with the new list */
  lemma RecordUseSelected(promos: seq<PromoCode>, code: string, promo: PromoCode, usedBy: seq<string>)
    requires ActivePromo(promos, code) == Some(promo)
    ensures ActivePromo(RecordUse(promos, promo.id, usedBy), code) == Some(promo.(usedBy := Some(usedBy)))
  {
    var f := SetUsedBy(usedBy);
    FilterUpdate(promos, PromoWithId(promo.id), f, ActiveWithCode(code));
    assert Update([promo], PromoWithId(promo.id), f) == [f(promo)];
  }

  /** Rows of `promo_codes` with another id are untouched by the `used_by` write */
  lemma RecordUseElsewhere(promos: seq<PromoCode>, id: int, usedBy: seq<string>)
    ensures var after := RecordUse(promos, id, usedBy);
            && |after| == |promos|
            && (forall i :: 0 <= i < |after| && promos[i].id != id ==> after[i] == promos[i])
  {
    UpdateAt(promos, PromoWithId(id), SetUsedBy(usedBy));
  }

  /** A successful redemption records the user on the code it read, and only there: the
      code stays active and selectable, with `used_by` rewritten */
  lemma RedeemRecords(db: Tables, userId: string, code: Option<string>)
    requires Redeem(db, userId, code).reply.Ok?
    ensures var p := ActivePromo(db.promoCodes, code.value).value;
            var promos := Redeem(db, userId, code).after.promoCodes;
            && ActivePromo(promos, code.value) == Some(p.(usedBy := Some(RecordRedeemer(p, userId))))
            && |promos| == |db.promoCodes|
            && (forall i :: 0 <= i < |promos| && db.promoCodes[i].id != p.id ==> promos[i] == db.promoCodes[i])
  {
    RedeemIsCredit(db, userId, code);
    var p := ActivePromo(db.promoCodes, code.value).value;
    assert Redeem(db, userId, code).after.promoCodes == RecordUse(db.promoCodes, p.id, RecordRedeemer(p, userId));
    RecordUseSelected(db.promoCodes, code.value, p, RecordRedeemer(p, userId));
    RecordUseElsewhere(db.promoCodes, p.id, RecordRedeemer(p, userId));
  }

  /** The balance read back after a redemption is the one the redemption reported */
  lemma TokensAfterRedeem(db: Tables, userId: string, code: Option<string>)
    requires Redeem(db, userId, code).reply.Ok?
    ensures var out := Redeem(db, userId, code);
            GetTokens(out.after, userId) == Ok(OK, Some(out.reply.body.newBalance))
  {
    RedeemCredits(db, userId, code);
  }

  /** The same user cannot redeem the same code twice (for an id without surrounding
      whitespace, which identity-provider ids are) */
  lemma SecondRedemptionFails(db: Tables, userId: string, code: Option<string>)
    requires Redeem(db, userId, code).reply.Ok?
    requires Trim(userId) == userId
    ensures var after := Redeem(db, userId, code).after;
            Redeem(after, userId, code) == Outcome(Fail(BAD_REQUEST, Text(ALREADY_USED)), after)
  {
    var p := ActivePromo(db.promoCodes, code.value).value;
    var after := Redeem(db, userId, code).after;
    RedeemRecords(db, userId, code);
    var p' := p.(usedBy := Some(RecordRedeemer(p, userId)));
    var list := RecordRedeemer(p, userId);
    var k := |list| - 1;
    RecordRedeemerAppends(p, userId);
    assert list[k] == userId;
    TrimIdempotent(userId);
    assert Redeemers(p')[k] == Trim(list[k]) == userId;
  }

  /** No code records the empty string as a redeemer. A new code starts with no
      redeemers and every `used_by` write goes through `filter(Boolean)`, so the routes
      that write `promo_codes` keep this. */
  predicate NoBlankRedeemers(promos: seq<PromoCode>) {
    forall i :: 0 <= i < |promos| ==> "" !in promos[i].usedBy.GetOr([])
  }

  /** A redemption records no empty redeemer */
  lemma RedeemKeepsNoBlankRedeemers(db: Tables, userId: string, code: Option<string>)
    requires NoBlankRedeemers(db.promoCodes)
    ensures NoBlankRedeemers(Redeem(db, userId, code).after.promoCodes)
  {
    if Redeem(db, userId, code).reply.Ok? {
      RedeemIsCredit(db, userId, code);
      var p := ActivePromo(db.promoCodes, code.value).value;
      var list := RecordRedeemer(p, userId);
      assert "" !in list;
      UpdateAt(db.promoCodes, PromoWithId(p.id), SetUsedBy(list));
    }
  }

  /** Redeeming adds exactly one use, when no code records an empty redeemer and the id
      does not trim to nothing */
  lemma RedeemCountsOneUse(db: Tables, userId: string, code: Option<string>)
    requires Redeem(db, userId, code).reply.Ok?
    requires NoBlankRedeemers(db.promoCodes)
    requires Trim(userId) != ""
    ensures var p := ActivePromo(db.promoCodes, code.value).value;
            var p' := ActivePromo(Redeem(db, userId, code).after.promoCodes, code.value);
            p'.Some? && |Redeemers(p'.value)| == |Redeemers(p)| + 1
  {
    var p := ActivePromo(db.promoCodes, code.value).value;
    RedeemRecords(db, userId, code);
    RecordRedeemerAppends(p, userId);
    var used := p.usedBy.GetOr([]);
    var k :| 0 <= k < |db.promoCodes| && db.promoCodes[k] == p;
    assert "" !in used;
    assert forall i :: 0 <= i < |used| ==> used[i] in used;
    NonEmptyOfNonBlank(used);
  }

  /** The redemption that brings a code to its use limit closes it for everyone: every
      later attempt is refused and changes nothing */
  lemma UseLimitEnforced(db: Tables, userId: string, code: Option<string>, other: string)
    requires Redeem(db, userId, code).reply.Ok?
    requires NoBlankRedeemers(db.promoCodes)
    requires Trim(userId) != ""
    requires var p := ActivePromo(db.promoCodes, code.value).value;
             GivenNumber(p.maxUses) && |Redeemers(p)| + 1 >= p.maxUses.value
    ensures var after := Redeem(db, userId, code).after;
            Redeem(after, other, code).reply.Fail? && Redeem(after, other, code).after == after
  {
    RedeemCountsOneUse(db, userId, code);
    RedeemRecords(db, userId, code);
  }

  /** The first redemption of a fresh single-use code worth 10 tokens, by a user holding
      3: the user gets 13 and becomes the code's only recorded redeemer */
  lemma SingleUseFirstRedemption(db: Tables, promo: PromoCode, u1: Profile, u2: Profile)
    requires promo.code != "" && promo.isActive && promo.tokenAmount == 10
    requires promo.maxUses == Some(1) && promo.usedBy == Some([])
    requires u1.id != "" && u1.id != u2.id
    requires Trim(u1.id) == u1.id && u1.tokensRemaining == Some(3)
    requires db.users == [u1, u2] && db.promoCodes == [promo]
    ensures var first := Redeem(db, u1.id, Some(promo.code));
            && first.reply == Ok(OK, Redeemed(10, 13))
            && ActivePromo(first.after.promoCodes, promo.code) == Some(promo.(usedBy := Some([u1.id])))
  {
    var code := promo.code;
    SingleUseReads(db, promo, u1, u2);
    assert Redeemers(promo) == [];
    RedeemPasses(db, u1.id, Some(code), promo, u1);
    FirstRedeemer(promo, u1.id);
    RecordUseSelected(db.promoCodes, code, promo, [u1.id]);
  }

  /** In that store the code's lookup and the profile's lookup each find their one row */
  lemma SingleUseReads(db: Tables, promo: PromoCode, u1: Profile, u2: Profile)
    requires promo.isActive && u1.id != u2.id
    requires db.users == [u1, u2] && db.promoCodes == [promo]
    ensures ActivePromo(db.promoCodes, promo.code) == Some(promo)
    ensures UserRow(db.users, u1.id) == Some(u1)
  {
    FilterCons(promo, [], ActiveWithCode(promo.code));
    assert [promo] == [promo] + [];
    FilterCons(u2, [], UserWithId(u1.id));
    FilterCons(u1, [u2], UserWithId(u1.id));
    assert [u1, u2] == [u1] + [u2] && [u2] == [u2] + [];
  }

  /** The list recorded by the first redemption of a code whose `used_by` is empty */
  lemma FirstRedeemer(promo: PromoCode, userId: string)
    requires promo.usedBy == Some([]) && Trim(userId) == userId && userId != ""
    ensures RecordRedeemer(promo, userId) == [userId]
  {
    RecordRedeemerAppends(promo, userId);
    assert NonEmpty([]) == [];
  }

  /** The scenario of a single-use code: after the first redemption, a repeat by the same
      user and an attempt by another user are both refused */
  lemma SingleUseCodeScenario(db: Tables, promo: PromoCode, u1: Profile, u2: Profile)
    requires promo.code != "" && promo.isActive && promo.tokenAmount == 10
    requires promo.maxUses == Some(1) && promo.usedBy == Some([])
    requires u1.id != "" && u2.id != "" && u1.id != u2.id
    requires Trim(u1.id) == u1.id && u1.tokensRemaining == Some(3)
    requires db.users == [u1, u2] && db.promoCodes == [promo]
    ensures var first := Redeem(db, u1.id, Some(promo.code));
            && first.reply == Ok(OK, Redeemed(10, 13))
            && Redeem(first.after, u1.id, Some(promo.code)).reply == Fail(BAD_REQUEST, Text(ALREADY_USED))
            && Redeem(first.after, u2.id, Some(promo.code)).reply == Fail(BAD_REQUEST, Text(LIMIT_REACHED))
  {
    SingleUseFirstRedemption(db, promo, u1, u2);
    SecondRedemptionFails(db, u1.id, Some(promo.code));
    var p' := promo.(usedBy := Some([u1.id]));
    assert Redeemers(p') == [u1.id];
  }

  /** The checks a successful redemption passes, in the order the handler makes them */
  lemma RedeemPasses(db: Tables, userId: string, code: Option<string>, promo: PromoCode, user: Profile)
    requires Given(code) && userId != ""
    requires ActivePromo(db.promoCodes, code.value) == Some(promo)
    requires userId !in Redeemers(promo) && !LimitReached(promo)
    requires UserRow(db.users, userId) == Some(user)
    ensures Redeem(db, userId, code) == Credit(db, userId, promo, user, RecordRedeemer(promo, userId))
  {
  }

  /** The two writes of a redemption, against the store */
  method ApplyCredit(store: Store, userId: string, promo: PromoCode, user: Profile, usedBy: seq<string>)
    returns (r: Reply<Redeemed>)
    modifies store
    ensures r == Credit(old(store.Contents()), userId, promo, user, usedBy).reply
    ensures store.Contents() == Credit(old(store.Contents()), userId, promo, user, usedBy).after
  {
    var newBalance := user.tokensRemaining.GetOr(0) + promo.tokenAmount;
    store.users := Update(store.users, UserWithId(userId), SetBalance(newBalance));
    store.promoCodes := RecordUse(store.promoCodes, promo.id, usedBy);
    r := Ok(OK, Redeemed(promo.tokenAmount, newBalance));
  }

  /** The redemption handler against the store, step by step */
  method RedeemPromo(store: Store, userId: string, code: Option<string>) returns (r: Reply<Redeemed>)
    modifies store
    ensures r == Redeem(old(store.Contents()), userId, code).reply
    ensures store.Contents() == Redeem(old(store.Contents()), userId, code).after
  {
    if !Given(code) || userId == "" {
      return Fail(BAD_REQUEST, Text(MISSING_CODE));
    }
    var found := ActivePromo(store.promoCodes, code.value);
    if found.None? {
      return Fail(BAD_REQUEST, Text(INVALID_CODE));
    }
    var promo := found.value;
    var usedBy := Redeemers(promo);
    if userId in usedBy {
      return Fail(BAD_REQUEST, Text(ALREADY_USED));
    }
    if GivenNumber(promo.maxUses) && |usedBy| >= promo.maxUses.value {
      return Fail(BAD_REQUEST, Text(LIMIT_REACHED));
    }
    var user := UserRow(store.users, userId);
    if user.None? {
      return Fail(BAD_REQUEST, Text(UNKNOWN_USER));
    }
    RedeemPasses(store.Contents(), userId, code, promo, user.value);
    r := ApplyCredit(store, userId, promo, user.value, RecordRedeemer(promo, userId));
  }
}
