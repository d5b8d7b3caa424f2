/** The admin Messages page: the list of contact messages it holds, the
    message open in the side panel, the local updates it makes after a
    successful mark-as-read or delete call, and the unread counter. */
module AdminMessages {
  import opened Js
  import opened Table

  /** A message as the admin client receives it; `read` is absent when the
      stored record has no such field. */
  datatype Message = Message(id: Id, name: string, email: string, subject: string, body: string, read: Option<bool>)

  function MessageId(m: Message): Id { m.id }

  /** `m.read` is truthy. */
  predicate IsRead(m: Message) { m.read == Some(true) }

  /** `messages.map((m) => m._id === id ? { ...m, read: true } : m)`. */
  function MarkedRead(ms: seq<Message>, id: Id): (r: seq<Message>)
    ensures |r| == |ms|
    ensures forall i :: 0 <= i < |ms| ==> r[i].id == ms[i].id
    ensures forall i :: 0 <= i < |ms| && ms[i].id == id ==> r[i] == ms[i].(read := Some(true)) && IsRead(r[i])
    ensures forall i :: 0 <= i < |ms| && ms[i].id != id ==> r[i] == ms[i]
  {
    if ms == [] then []
    else [if ms[0].id == id then ms[0].(read := Some(true)) else ms[0]] + MarkedRead(ms[1..], id)
  }

  /** `messages.filter((m) => !m.read)`. */
  function UnreadOnes(ms: seq<Message>): (r: seq<Message>)
    ensures |r| <= |ms|
    ensures forall i :: 0 <= i < |r| ==> !IsRead(r[i]) && r[i] in ms
  {
    if ms == [] then []
    else
      var rest := UnreadOnes(ms[1..]);
      assert forall i :: 0 <= i < |rest| ==> rest[i] in ms by {
        forall i | 0 <= i < |rest| ensures rest[i] in ms {
          var j :| 0 <= j < |ms[1..]| && ms[1..][j] == rest[i];
          assert ms[j + 1] == rest[i];
        }
      }
      (if IsRead(ms[0]) then [] else [ms[0]]) + rest
  }

  /** The number the "unread" counter shows. */
  function UnreadCount(ms: seq<Message>): nat {
    |UnreadOnes(ms)|
  }

  lemma {:induction false} UnreadConcat(a: seq<Message>, b: seq<Message>)
    ensures UnreadCount(a + b) == UnreadCount(a) + UnreadCount(b)
  {
    if a == [] {
      assert a + b == b;
    } else {
      assert (a + b)[0] == a[0] && (a + b)[1..] == a[1..] + b;
      UnreadConcat(a[1..], b);
    }
  }

  /** The counter is the number of messages not marked read. */
  lemma {:induction false} UnreadCountsUnmarked(ms: seq<Message>)
    ensures UnreadCount(ms) + |ReadOnes(ms)| == |ms|
  {
    if ms != [] { UnreadCountsUnmarked(ms[1..]); }
  }

  /** The messages `m.read` is truthy for. */
  function ReadOnes(ms: seq<Message>): seq<Message> {
    if ms == [] then [] else (if IsRead(ms[0]) then [ms[0]] else []) + ReadOnes(ms[1..])
  }

  /** Marking one message of a list with distinct ids lowers the counter by
      one exactly when that message was unread. */
  lemma {:induction false} MarkingCountsDown(ms: seq<Message>, k: nat)
    requires DistinctIds(ms, MessageId) && k < |ms|
    ensures UnreadCount(MarkedRead(ms, ms[k].id)) == UnreadCount(ms) - (if IsRead(ms[k]) then 0 else 1)
  {
    var id := ms[k].id;
    var r := MarkedRead(ms, id);
    assert ms == ms[..k] + [ms[k]] + ms[k + 1..];
    assert r == r[..k] + [r[k]] + r[k + 1..];
    assert r[..k] == ms[..k] by {
      forall i | 0 <= i < k ensures r[i] == ms[i] { assert ms[i].id != id; }
    }
    assert r[k + 1..] == ms[k + 1..] by {
      forall i | k < i < |ms| ensures r[i] == ms[i] { assert ms[i].id != id; }
    }
    UnreadConcat(ms[..k] + [ms[k]], ms[k + 1..]);
    UnreadConcat(ms[..k], [ms[k]]);
    UnreadConcat(r[..k] + [r[k]], r[k + 1..]);
    UnreadConcat(r[..k], [r[k]]);
  }

  /** Marking an id no message has leaves the list as it was. */
  lemma MarkingUnknownIdChangesNothing(ms: seq<Message>, id: Id)
    requires !HasId(ms, id, MessageId)
    ensures MarkedRead(ms, id) == ms
  {
  }

  /** Marking the same message twice is marking it once. */
  lemma MarkingIsIdempotent(ms: seq<Message>, id: Id)
    ensures MarkedRead(MarkedRead(ms, id), id) == MarkedRead(ms, id)
  {
  }

  /** `messages.filter((m) => m._id !== id)`: exactly the entries with that
      id go, the rest stay in order, and the counter drops by the unread
      ones removed. */
  lemma {:induction false} DeletingOne(ms: seq<Message>, k: nat)
    requires DistinctIds(ms, MessageId) && k < |ms|
    ensures Remove(ms, ms[k].id, MessageId) == ms[..k] + ms[k + 1..]
    ensures UnreadCount(Remove(ms, ms[k].id, MessageId)) == UnreadCount(ms) - (if IsRead(ms[k]) then 0 else 1)
  {
    RemoveOne(ms, ms[k].id, MessageId, k);
    var before, after := ms[..k], ms[k + 1..];
    assert ms == before + [ms[k]] + after;
    assert UnreadCount([ms[k]]) == (if IsRead(ms[k]) then 0 else 1) by {
      assert [ms[k]][1..] == [];
    }
    UnreadConcat(before + [ms[k]], after);
    UnreadConcat(before, [ms[k]]);
    UnreadConcat(before, after);
  }

  // ------------------------------------------------------------------ the page

  /** The page's `messages`, `loading` and `selectedMessage` state. */
  class MessagesPage {
    var messages: seq<Message>
    var loading: bool
    var selected: Option<Message>

    constructor ()
      ensures messages == [] && loading && selected.None?
    {
      messages := [];
      loading := true;
      selected := None;
    }

    /** `fetchMessages`: the list on success, the old list on failure; the
        spinner stops either way. */
    method Fetched(result: Option<seq<Message>>)
      modifies this
      ensures messages == (if result.Some? then result.value else old(messages))
      ensures !loading && selected == old(selected)
    {
      if result.Some? {
        messages := result.value;
      }
      loading := false;
    }

    /** `handleView`: opens the message, and only for an unread one calls
        mark-as-read and, when that succeeds, marks it in the list. */
    method View(m: Message, apiSucceeds: bool) returns (calledApi: bool)
      modifies this
      ensures selected == Some(m) && loading == old(loading)
      ensures calledApi <==> !IsRead(m)
      ensures messages == if calledApi && apiSucceeds then MarkedRead(old(messages), m.id) else old(messages)
    {
      selected := Some(m);
      calledApi := false;
      if !IsRead(m) {
        calledApi := true;
        if apiSucceeds {
          messages := MarkedRead(messages, m.id);
        }
      }
    }

    /** `handleDelete`: after confirmation, the delete call; on success the
        message leaves the list and the panel closes if it showed it. */
    method Delete(id: Id, confirmed: bool, apiSucceeds: bool) returns (calledApi: bool)
      modifies this
      ensures calledApi == confirmed && loading == old(loading)
      ensures messages == if confirmed && apiSucceeds then Remove(old(messages), id, MessageId) else old(messages)
      ensures selected == if confirmed && apiSucceeds && old(selected).Some? && old(selected).value.id == id
                          then None else old(selected)
    {
      calledApi := false;
      if !confirmed {
        return;
      }
      calledApi := true;
      if apiSucceeds {
        messages := Remove(messages, id, MessageId);
        if selected.Some? && selected.value.id == id {
          selected := None;
        }
      }
    }
  }
}
