/** The relational store and the object store behind every handler. A table is the
    sequence of its rows in insertion order (which is also `created_at` order); a query is a
    filter over it, an update rewrites the matching rows and a delete drops them. A query
    ending in `.single()` yields its row only when exactly one row matches and is an error
    otherwise, whether no row or several rows match. */
module Database {
  import opened Js
  import opened Http

  type Blob = seq<bv8>

  /** A row of `users` */
  datatype Profile = Profile(
    id: string, email: string, firstName: string, lastName: string, country: string,
    educationLevel: string, role: string, tokensRemaining: Option<int>, createdAt: nat)

  /** A row of `promo_codes`; `usedBy` and `maxUses` may be null */
  datatype PromoCode = PromoCode(
    id: int, code: string, tokenAmount: int, maxUses: Option<int>,
    usedBy: Option<seq<string>>, isActive: bool)

  /** A row of `conversations` */
  datatype Conversation = Conversation(id: int, userId: string, title: Option<string>)

  /** A row of `messages`; `tokensUsed` may be null */
  datatype Message = Message(
    conversationId: int, userId: string, role: string, content: string,
    tokensUsed: Option<int>, createdAt: nat)

  /** A row of `documents`; a row made by an upload has a `filePath`, one registered after a
      client-side upload has a `fileUrl` */
  datatype Document = Document(
    id: int, userId: string, fileName: string, fileType: string, fileUrl: Option<string>,
    filePath: Option<string>, fileSize: Option<int>, tokensRequired: int, isShared: bool)

  /** A row of `contact` */
  datatype Contact = Contact(name: string, email: string, subject: Option<string>, message: string, kind: string)

  /** A row of `faq_docs`, the knowledge base that grounds the chat assistant */
  datatype FaqDoc = FaqDoc(title: string, content: Option<string>)

  /** The whole store: the tables, the `documents` bucket of the object store (path to
      bytes), the next value of the id sequence, and the access token of the one session
      the server's shared identity client holds in memory (none before any sign-in and
      after a sign-out) */
  datatype Tables = Tables(
    users: seq<Profile>, promoCodes: seq<PromoCode>, conversations: seq<Conversation>,
    messages: seq<Message>, documents: seq<Document>, contacts: seq<Contact>,
    faqDocs: seq<FaqDoc>, storage: map<string, Blob>, nextId: nat, session: Option<string>)

  /** What a handler answers and the store it leaves behind */
  datatype Outcome<+T> = Outcome(reply: Reply<T>, after: Tables)

  /** Every id the sequence has handed out is below `nextId` */
  ghost predicate IdsFresh(t: Tables) {
    && (forall i :: 0 <= i < |t.promoCodes| ==> t.promoCodes[i].id < t.nextId)
    && (forall i :: 0 <= i < |t.conversations| ==> t.conversations[i].id < t.nextId)
    && (forall i :: 0 <= i < |t.documents| ==> t.documents[i].id < t.nextId)
  }

  // ---------------------------------------------------------------------------
  // The query engine

  /** `.select().eq(...)`: the matching rows, in table order */
  function Filter<T(!new)>(rows: seq<T>, p: T -> bool): (r: seq<T>)
    ensures |r| <= |rows|
    ensures forall x :: x in r <==> x in rows && p(x)
  {
    if rows == [] then [] else (if p(rows[0]) then [rows[0]] else []) + Filter(rows[1..], p)
  }

  /** `.update(f).eq(...)`: every matching row rewritten by `f`, the others untouched */
  function Update<T>(rows: seq<T>, p: T -> bool, f: T -> T): (r: seq<T>)
    ensures |r| == |rows|
  {
    if rows == [] then [] else [if p(rows[0]) then f(rows[0]) else rows[0]] + Update(rows[1..], p, f)
  }

  /** Each row after an update: rewritten where the predicate holds, untouched elsewhere */
  lemma {:induction false} UpdateAt<T>(rows: seq<T>, p: T -> bool, f: T -> T)
    ensures forall i :: 0 <= i < |rows| ==>
              Update(rows, p, f)[i] == if p(rows[i]) then f(rows[i]) else rows[i]
  {
    if rows != [] {
      UpdateAt(rows[1..], p, f);
      assert forall i :: 1 <= i < |rows| ==> rows[1..][i - 1] == rows[i];
    }
  }

  /** `.delete().eq(...)`: the rows that do not match, in table order */
  function Remove<T(!new)>(rows: seq<T>, p: T -> bool): (r: seq<T>)
    ensures |r| <= |rows|
    ensures forall x :: x in r <==> x in rows && !p(x)
  {
    if rows == [] then [] else (if p(rows[0]) then [] else [rows[0]]) + Remove(rows[1..], p)
  }

  /** `.single()`: the one matching row, or nothing (the store's PGRST116 error) */
  function Single<T(!new)>(rows: seq<T>, p: T -> bool): (r: Option<T>)
    ensures r.Some? <==> |Filter(rows, p)| == 1
    ensures r.Some? ==> Filter(rows, p) == [r.value] && r.value in rows && p(r.value)
  {
    var m := Filter(rows, p);
    if |m| == 1 then Some(m[0]) else None
  }

  /** One step of a filter: the first row is kept when it matches */
  lemma FilterCons<T(!new)>(x: T, rest: seq<T>, p: T -> bool)
    ensures Filter([x] + rest, p) == (if p(x) then [x] else []) + Filter(rest, p)
  {
    var s := [x] + rest;
    assert s[0] == x && s[1..] == rest;
  }

  lemma {:induction false} FilterConcat<T(!new)>(a: seq<T>, b: seq<T>, p: T -> bool)
    ensures Filter(a + b, p) == Filter(a, p) + Filter(b, p)
  {
    if a == [] {
      assert a + b == b;
    } else {
      var x, rest := a[0], a[1..];
      assert a + b == [x] + (rest + b);
      assert a == [x] + rest;
      FilterCons(x, rest + b, p);
      FilterCons(x, rest, p);
      FilterConcat(rest, b, p);
    }
  }

  /** Filtering on a column that the update does not touch commutes with the update */
  lemma {:induction false} FilterUpdate<T(!new)>(rows: seq<T>, p: T -> bool, f: T -> T, q: T -> bool)
    requires forall x :: q(f(x)) == q(x)
    ensures Filter(Update(rows, p, f), q) == Update(Filter(rows, q), p, f)
  {
    if rows != [] {
      var x := rows[0];
      var h := if p(x) then f(x) else x;
      var tail := Update(rows[1..], p, f);
      FilterUpdate(rows[1..], p, f, q);
      assert Update(rows, p, f) == [h] + tail;
      assert ([h] + tail)[0] == h && ([h] + tail)[1..] == tail;
      var kept := Filter(rows[1..], q);
      assert q(h) == q(x);
      if q(x) {
        assert Filter(rows, q) == [x] + kept;
        assert ([x] + kept)[0] == x && ([x] + kept)[1..] == kept;
        assert Update([x] + kept, p, f) == [h] + Update(kept, p, f);
        assert Filter([h] + tail, q) == [h] + Filter(tail, q);
      } else {
        assert Filter(rows, q) == kept;
        assert Filter([h] + tail, q) == Filter(tail, q);
      }
    }
  }

  /** An update that matches no row changes nothing */
  lemma UpdateUnmatched<T>(rows: seq<T>, p: T -> bool, f: T -> T)
    requires forall i :: 0 <= i < |rows| ==> !p(rows[i])
    ensures Update(rows, p, f) == rows
  {
    if rows != [] {
      UpdateUnmatched(rows[1..], p, f);
    }
  }

  /** Repeating an idempotent update that keeps its rows matched changes nothing more */
  lemma UpdateTwice<T>(rows: seq<T>, p: T -> bool, f: T -> T)
    requires forall x :: p(x) ==> p(f(x)) && f(f(x)) == f(x)
    ensures Update(Update(rows, p, f), p, f) == Update(rows, p, f)
  {
  }

  /** A filter that keeps no row */
  lemma FilterNone<T(!new)>(rows: seq<T>, p: T -> bool)
    requires forall i :: 0 <= i < |rows| ==> !p(rows[i])
    ensures Filter(rows, p) == []
  {
    if rows != [] {
      FilterNone(rows[1..], p);
    }
  }

  /** Updating the one row a key selects, with a change that keeps the key: the key now
      selects the rewritten row */
  lemma UpdateSelected<T(!new)>(rows: seq<T>, p: T -> bool, f: T -> T)
    requires Single(rows, p).Some?
    requires forall x :: p(f(x)) == p(x)
    ensures Single(Update(rows, p, f), p) == Some(f(Single(rows, p).value))
  {
    FilterUpdate(rows, p, f, p);
  }

  /** Rows selected by a predicate that excludes the updated ones are unchanged */
  lemma UpdateElsewhere<T(!new)>(rows: seq<T>, p: T -> bool, f: T -> T, q: T -> bool)
    requires forall x :: q(f(x)) == q(x)
    requires forall x :: q(x) ==> !p(x)
    ensures Filter(Update(rows, p, f), q) == Filter(rows, q)
  {
    FilterUpdate(rows, p, f, q);
    var kept := Filter(rows, q);
    assert forall i :: 0 <= i < |kept| ==> kept[i] in kept;
    UpdateUnmatched(kept, p, f);
  }

  /** A filter that keeps every row */
  lemma FilterAll<T(!new)>(rows: seq<T>, p: T -> bool)
    requires forall i :: 0 <= i < |rows| ==> p(rows[i])
    ensures Filter(rows, p) == rows
  {
    if rows != [] {
      FilterAll(rows[1..], p);
    }
  }

  /** A delete that matches no row changes nothing */
  lemma RemoveUnmatched<T(!new)>(rows: seq<T>, p: T -> bool)
    requires forall i :: 0 <= i < |rows| ==> !p(rows[i])
    ensures Remove(rows, p) == rows
  {
    if rows != [] {
      RemoveUnmatched(rows[1..], p);
    }
  }

  lemma {:induction false} RemoveConcat<T(!new)>(a: seq<T>, b: seq<T>, p: T -> bool)
    ensures Remove(a + b, p) == Remove(a, p) + Remove(b, p)
  {
    if a == [] {
      assert a + b == b;
    } else {
      assert (a + b)[1..] == a[1..] + b;
      assert (a + b)[0] == a[0];
      RemoveConcat(a[1..], b, p);
    }
  }

  /** Deleting rows that a filter never keeps does not change what the filter keeps */
  lemma {:induction false} FilterRemove<T(!new)>(rows: seq<T>, p: T -> bool, q: T -> bool)
    requires forall x :: q(x) ==> !p(x)
    ensures Filter(Remove(rows, p), q) == Filter(rows, q)
  {
    if rows != [] {
      var x := rows[0];
      var head: seq<T> := if p(x) then [] else [x];
      FilterRemove(rows[1..], p, q);
      assert Remove(rows, p) == head + Remove(rows[1..], p);
      FilterConcat(head, Remove(rows[1..], p), q);
    }
  }

  /** After a delete no row matches the delete's own predicate */
  lemma {:induction false} RemoveMatched<T(!new)>(rows: seq<T>, p: T -> bool)
    ensures Filter(Remove(rows, p), p) == []
  {
    if rows != [] {
      var x := rows[0];
      var head: seq<T> := if p(x) then [] else [x];
      RemoveMatched(rows[1..], p);
      assert Remove(rows, p) == head + Remove(rows[1..], p);
      FilterConcat(head, Remove(rows[1..], p), p);
    }
  }

  // ---------------------------------------------------------------------------
  // Column predicates shared by several handlers

  /** `.eq('id', id)` on `users` */
  function UserWithId(id: string): Profile -> bool {
    (u: Profile) => u.id == id
  }

  /** The profile of a user, read with `.eq('id', id).single()` */
  function UserRow(users: seq<Profile>, id: string): Option<Profile> {
    Single(users, UserWithId(id))
  }

  /** `.update({ tokens_remaining: balance })` on `users` */
  function SetBalance(balance: int): Profile -> Profile {
    (u: Profile) => u.(tokensRemaining := Some(balance))
  }

  /** `.eq('conversation_id', id)` on `messages` */
  function InConversation(conversationId: int): Message -> bool {
    (m: Message) => m.conversationId == conversationId
  }

  /** The mutable state of the store: one field per table, and the client's session */
  class Store {
    var users: seq<Profile>
    var promoCodes: seq<PromoCode>
    var conversations: seq<Conversation>
    var messages: seq<Message>
    var documents: seq<Document>
    var contacts: seq<Contact>
    var faqDocs: seq<FaqDoc>
    var storage: map<string, Blob>
    var nextId: nat
    var session: Option<string>

    function Contents(): Tables
      reads this
    {
      Tables(users, promoCodes, conversations, messages, documents, contacts, faqDocs, storage, nextId, session)
    }
  }
}
