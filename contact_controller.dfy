/** The contact controller: public submission of a message, and the admin's
    listing, lookup, mark-as-read and delete over the Contact collection. The
    Contact schema is not part of this model: its validators are an oracle
    `accepts`, and `read` is whatever the schema gives a new message until
    `markAsRead` sets it. */
module ContactController {
  import opened Js
  import opened Table
  import opened Ordering

  /** A stored message; `read == None` is the schema's own value for a new message. */
  datatype Contact = Contact(
    id: Id, name: Option<Scalar>, email: Option<Scalar>, subject: Option<Scalar>, message: Option<Scalar>,
    read: Option<bool>, createdAt: int)

  function ContactId(c: Contact): Id { c.id }

  /** A request body: whatever keys the sender chose. */
  type Body = map<string, Scalar>

  function Field(body: Body, key: string): Option<Scalar> {
    if key in body then Some(body[key]) else None
  }

  datatype ContactError = ContactRejected

  type ContactReply = Reply<Contact, ContactError>

  predicate StoreInvariant(t: seq<Contact>, nextId: Id) {
    DistinctIds(t, ContactId) && forall i :: 0 <= i < |t| ==> t[i].id < nextId
  }

  /** The document `submitContact` hands to `Contact.create`: the four
      message keys and nothing else. */
  function NewContact(id: Id, body: Body, now: int): Contact {
    Contact(id, Field(body, "name"), Field(body, "email"), Field(body, "subject"), Field(body, "message"), None, now)
  }

  /** `submitContact`. */
  function SubmitContact(t: seq<Contact>, id: Id, body: Body, now: int, accepts: Contact -> bool): (ContactReply, seq<Contact>) {
    var c := NewContact(id, body, now);
    if accepts(c) then (Created(c), t + [c]) else (Invalid(ContactRejected), t)
  }

  /** `getContacts`: `sort({ createdAt: -1 })`. */
  function ListingKey(c: Contact): Key { Key(-c.createdAt, 0) }

  function ListContacts(t: seq<Contact>): (r: seq<Contact>)
    ensures multiset(r) == multiset(t)
    ensures forall i, j :: 0 <= i < j < |r| ==> r[i].createdAt >= r[j].createdAt
  {
    var r := SortBy(t, ListingKey);
    assert forall i, j :: 0 <= i < j < |r| ==> KeyLe(ListingKey(r[i]), ListingKey(r[j]));
    r
  }

  /** `getContact`. */
  function GetContact(t: seq<Contact>, id: Id): ContactReply {
    match Find(t, id, ContactId)
    case None => NotFound
    case Some(c) => Ok(c)
  }

  /** `markAsRead`: `findByIdAndUpdate(id, { read: true }, { new: true })`. */
  function MarkAsRead(t: seq<Contact>, id: Id): (ContactReply, seq<Contact>) {
    match Find(t, id, ContactId)
    case None => (NotFound, t)
    case Some(c) => var c' := c.(read := Some(true)); (Ok(c'), Replace(t, id, c', ContactId))
  }

  /** `deleteContact`. */
  function DeleteContact(t: seq<Contact>, id: Id): (ContactReply, seq<Contact>) {
    match Find(t, id, ContactId)
    case None => (NotFound, t)
    case Some(_) => (Deleted, Remove(t, id, ContactId))
  }

  // ------------------------------------------------------------------ properties

  /** A submission depends only on the name, email, subject and message
      keys: a sender cannot set `read` or any other path, and a new message
      carries the schema's own `read`. */
  lemma SubmitIgnoresOtherKeys(t: seq<Contact>, id: Id, b1: Body, b2: Body, now: int, accepts: Contact -> bool)
    requires forall k :: k in ["name", "email", "subject", "message"] ==> Field(b1, k) == Field(b2, k)
    ensures SubmitContact(t, id, b1, now, accepts) == SubmitContact(t, id, b2, now, accepts)
    ensures SubmitContact(t, id, b1, now, accepts).0.Created? ==> SubmitContact(t, id, b1, now, accepts).0.record.read == None
  {
    assert "name" in ["name", "email", "subject", "message"];
    assert "email" in ["name", "email", "subject", "message"];
    assert "subject" in ["name", "email", "subject", "message"];
    assert "message" in ["name", "email", "subject", "message"];
  }

  /** An accepted submission is a 201 appending one message; a rejected one
      is a 400 that leaves the collection as it was. */
  lemma SubmitAppendsOrRejects(t: seq<Contact>, id: Id, body: Body, now: int, accepts: Contact -> bool)
    ensures var (reply, t') := SubmitContact(t, id, body, now, accepts);
      && (Status(reply) == 201 <==> accepts(NewContact(id, body, now)))
      && (Status(reply) == 201 ==> t' == t + [reply.record])
      && (Status(reply) != 201 ==> Status(reply) == 400 && t' == t)
  {
  }

  /** On an unknown id, get, mark-as-read and delete answer 404 and change nothing. */
  lemma UnknownIdIsNotFound(t: seq<Contact>, id: Id)
    requires !HasId(t, id, ContactId)
    ensures GetContact(t, id) == NotFound
    ensures MarkAsRead(t, id) == (NotFound, t)
    ensures DeleteContact(t, id) == (NotFound, t)
  {
  }

  /** Marking sets `read` on that message only, and every other message
      and the length are kept. */
  lemma MarkAsReadSetsOne(t: seq<Contact>, id: Id, k: nat)
    requires DistinctIds(t, ContactId)
    requires k < |t| && t[k].id == id
    ensures MarkAsRead(t, id) == (Ok(t[k].(read := Some(true))), t[k := t[k].(read := Some(true))])
  {
    FindUnique(t, id, ContactId, k);
    ReplaceOne(t, id, t[k].(read := Some(true)), ContactId, k);
  }

  /** Marking twice is marking once: the second call succeeds with `read`
      still true and the collection unchanged. */
  lemma MarkAsReadIdempotent(t: seq<Contact>, id: Id)
    requires DistinctIds(t, ContactId)
    ensures var (r1, t1) := MarkAsRead(t, id);
      MarkAsRead(t1, id) == (r1, t1)
  {
    var found := Find(t, id, ContactId);
    if found.Some? {
      var k :| 0 <= k < |t| && t[k] == found.value;
      var c := t[k].(read := Some(true));
      MarkAsReadSetsOne(t, id, k);
      var t1 := t[k := c];
      assert DistinctIds(t1, ContactId) by {
        assert forall i :: 0 <= i < |t1| ==> t1[i].id == t[i].id;
      }
      MarkAsReadSetsOne(t1, id, k);
      assert t1[k].(read := Some(true)) == c;
      assert t1[k := c] == t1;
    }
  }

  /** Delete removes exactly that message and keeps the others in order. */
  lemma DeleteRemovesExactlyOne(t: seq<Contact>, id: Id, k: nat)
    requires DistinctIds(t, ContactId)
    requires k < |t| && t[k].id == id
    ensures DeleteContact(t, id) == (Deleted, t[..k] + t[k + 1..])
  {
    FindUnique(t, id, ContactId, k);
    RemoveOne(t, id, ContactId, k);
  }

  /** A submission keeps ids distinct and below the advanced counter. */
  lemma SubmitKeepsInvariant(t: seq<Contact>, nextId: Id, body: Body, now: int, accepts: Contact -> bool)
    requires StoreInvariant(t, nextId)
    ensures StoreInvariant(SubmitContact(t, nextId, body, now, accepts).1, nextId + 1)
  {
    var s := SubmitContact(t, nextId, body, now, accepts).1;
    if s != t {
      forall i, j | 0 <= i < j < |s| ensures ContactId(s[i]) != ContactId(s[j]) {
        assert s[i] == t[i];
      }
    }
  }

  /** Marking as read keeps every id. */
  lemma MarkKeepsInvariant(t: seq<Contact>, nextId: Id, id: Id)
    requires StoreInvariant(t, nextId)
    ensures StoreInvariant(MarkAsRead(t, id).1, nextId)
  {
    var m := MarkAsRead(t, id).1;
    assert forall i :: 0 <= i < |m| ==> m[i].id == t[i].id;
  }

  /** Deleting keeps ids distinct and below the counter. */
  lemma DeleteKeepsInvariant(t: seq<Contact>, nextId: Id, id: Id)
    requires StoreInvariant(t, nextId)
    ensures StoreInvariant(DeleteContact(t, id).1, nextId)
  {
    RemoveKeeps(t, id, ContactId);
    var d := DeleteContact(t, id).1;
    forall i | 0 <= i < |d| ensures d[i].id < nextId {
      assert d[i] in t;
    }
  }

  // ------------------------------------------------------------------ the store

  /** The Contact collection, changed in place by the handlers. */
  class ContactStore {
    var contacts: seq<Contact>
    var nextId: Id

    ghost predicate Valid()
      reads this
    {
      StoreInvariant(contacts, nextId)
    }

    constructor ()
      ensures Valid() && contacts == [] && nextId == 0
    {
      contacts := [];
      nextId := 0;
    }

    method List() returns (r: seq<Contact>)
      requires Valid()
      ensures r == ListContacts(contacts)
    {
      r := ListContacts(contacts);
    }

    method Get(id: Id) returns (reply: ContactReply)
      requires Valid()
      ensures reply == GetContact(contacts, id)
    {
      var found := Find(contacts, id, ContactId);
      if found.None? {
        return NotFound;
      }
      reply := Ok(found.value);
    }

    method Submit(body: Body, now: int, accepts: Contact -> bool) returns (reply: ContactReply)
      requires Valid()
      modifies this
      ensures Valid()
      ensures (reply, contacts) == SubmitContact(old(contacts), old(nextId), body, now, accepts)
    {
      SubmitKeepsInvariant(contacts, nextId, body, now, accepts);
      var c := NewContact(nextId, body, now);
      if !accepts(c) {
        return Invalid(ContactRejected);
      }
      contacts := contacts + [c];
      nextId := nextId + 1;
      reply := Created(c);
    }

    method MarkRead(id: Id) returns (reply: ContactReply)
      requires Valid()
      modifies this
      ensures Valid() && nextId == old(nextId)
      ensures (reply, contacts) == MarkAsRead(old(contacts), id)
    {
      MarkKeepsInvariant(contacts, nextId, id);
      var found := Find(contacts, id, ContactId);
      if found.None? {
        return NotFound;
      }
      var c := found.value.(read := Some(true));
      contacts := Replace(contacts, id, c, ContactId);
      reply := Ok(c);
    }

    method Delete(id: Id) returns (reply: ContactReply)
      requires Valid()
      modifies this
      ensures Valid() && nextId == old(nextId)
      ensures (reply, contacts) == DeleteContact(old(contacts), id)
    {
      DeleteKeepsInvariant(contacts, nextId, id);
      var found := Find(contacts, id, ContactId);
      if found.None? {
        return NotFound;
      }
      contacts := Remove(contacts, id, ContactId);
      reply := Deleted;
    }
  }
}
