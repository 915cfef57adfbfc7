/** The message handlers (src/controllers/message.js), all open to any
    logged-in user (src/routes/messageRoutes.js). */
module Messages {
  import opened Common
  import opened UserModel
  import ProjectModel
  import opened MessageModel
  import opened Db

  /** The ids of the messages below `n` between `a` and `b`, oldest first. */
  function ThreadIds(m: map<Id, Message>, n: nat, a: Id, b: Id): (r: seq<Id>)
    ensures forall i :: 0 <= i < |r| ==> r[i] in m && r[i] < n && Between(m[r[i]], a, b)
    ensures forall id :: id in m && id < n && Between(m[id], a, b) ==> id in r
    ensures Increasing(r)
  {
    if n == 0 then []
    else ThreadIds(m, n - 1, a, b) + (if n - 1 in m && Between(m[n - 1], a, b) then [n - 1] else [])
  }

  /** The messages of the thread between `a` and `b` (both directions), sorted by
      `createdAt` ascending, as `find(...).sort({ createdAt: 1 })` returns them. */
  function Thread(m: map<Id, Message>, n: nat, a: Id, b: Id): (r: seq<Message>)
    requires Clocked(m)
    ensures forall i :: 0 <= i < |r| ==> r[i] in m.Values && r[i].createdAt < n && Between(r[i], a, b)
    ensures forall i, j :: 0 <= i < j < |r| ==> r[i].createdAt < r[j].createdAt
    ensures forall id :: id in m && id < n && Between(m[id], a, b) ==> m[id] in r
  {
    var ids := ThreadIds(m, n, a, b);
    var r := seq(|ids|, i requires 0 <= i < |ids| => m[ids[i]]);
    assert forall id :: id in m && id < n && Between(m[id], a, b) ==> m[id] in r by {
      forall id | id in m && id < n && Between(m[id], a, b)
        ensures m[id] in r
      {
        var i :| 0 <= i < |ids| && ids[i] == id;
        assert r[i] == m[id];
      }
    }
    r
  }

  /** `updateMany({ sender: from, receiver: to, read: false }, { read: true })`. */
  function MarkRead(m: map<Id, Message>, from: Id, to: Id): (r: map<Id, Message>)
    ensures r.Keys == m.Keys
    ensures forall id :: id in m && m[id].sender == from && m[id].receiver == to ==> r[id] == m[id].(read := true)
    ensures forall id :: id in m && !(m[id].sender == from && m[id].receiver == to) ==> r[id] == m[id]
  {
    map id | id in m :: if m[id].sender == from && m[id].receiver == to && !m[id].read then m[id].(read := true) else m[id]
  }

  /** The ids `countDocuments({ sender: from, receiver: to, read: false })` counts. */
  function UnreadIds(m: map<Id, Message>, from: Id, to: Id): set<Id> {
    set id | id in m && m[id].sender == from && m[id].receiver == to && !m[id].read
  }

  function UnreadFrom(m: map<Id, Message>, from: Id, to: Id): nat {
    |UnreadIds(m, from, to)|
  }

  /** Opening a thread clears the unread count from the other user and leaves the
      unread count of every other pair of users as it was. */
  lemma ReadingClearsUnread(m: map<Id, Message>, other: Id, me: Id, from: Id, to: Id)
    ensures UnreadFrom(MarkRead(m, other, me), other, me) == 0
    ensures (from, to) != (other, me) ==> UnreadFrom(MarkRead(m, other, me), from, to) == UnreadFrom(m, from, to)
  {
    assert UnreadIds(MarkRead(m, other, me), other, me) == {};
    if (from, to) != (other, me) {
      assert UnreadIds(MarkRead(m, other, me), from, to) == UnreadIds(m, from, to);
    }
  }

  /** GET /api/messages/:userId: the thread with `other`, oldest first, as it was
      before the call; then every unread message from `other` to the caller is
      marked read and no other message changes. */
  method GetThread(st: Store, caller: Caller, other: Id) returns (thread: seq<Message>)
    requires st.Valid() && st.Authenticated(caller)
    modifies st
    ensures st.Valid()
    ensures thread == Thread(old(st.messages), old(st.clock), caller.id, other)
    ensures st.Snapshot() == old(st.Snapshot()).(messages := MarkRead(old(st.messages), other, caller.id))
  {
    thread := Thread(st.messages, st.clock, caller.id, other);
    st.messages := MarkRead(st.messages, other, caller.id);
  }

  /** POST /api/messages: 400 without a receiver or content, 404 for an unknown
      receiver, 400 for a soft-deleted receiver; otherwise one unread message from
      the caller is stored, created now. */
  method SendMessage(st: Store, caller: Caller, receiver: Option<Id>, content: Option<string>)
    returns (code: int, created: Option<Id>)
    requires st.Valid() && st.Authenticated(caller)
    modifies st
    ensures st.Valid()
    ensures (receiver.None? || !Truthy(content)) ==> code == BadRequest && created.None? && unchanged(st)
    ensures (receiver.Some? && Truthy(content) && receiver.value !in old(st.users)) ==>
      code == NotFound && created.None? && unchanged(st)
    ensures (receiver.Some? && Truthy(content) && receiver.value in old(st.users)
             && old(st.users)[receiver.value].isDeleted) ==>
      code == BadRequest && created.None? && unchanged(st)
    ensures (receiver.Some? && Truthy(content) && receiver.value in old(st.users)
             && !old(st.users)[receiver.value].isDeleted) ==>
      && code == Created && created == Some(old(st.clock))
      && old(st.clock) !in old(st.messages)
      && st.Snapshot() == old(st.Snapshot()).(
           messages := old(st.messages)[old(st.clock) :=
             Message(caller.id, receiver.value, content.value, false, old(st.clock))],
           clock := old(st.clock) + 1)
  {
    if receiver.None? || !Truthy(content) {
      return BadRequest, None;
    }
    if receiver.value !in st.users {
      return NotFound, None;
    }
    if st.users[receiver.value].isDeleted {
      return BadRequest, None;
    }
    var id := st.clock;
    st.messages := st.messages[id := Message(caller.id, receiver.value, content.value, false, id)];
    st.clock := st.clock + 1;
    return Created, Some(id);
  }

  /** DELETE /api/messages/:messageId: 404 for an unknown message, 403 unless the
      caller sent it; otherwise that one message is removed. */
  method DeleteMessage(st: Store, caller: Caller, id: Id) returns (code: int)
    requires st.Valid() && st.Authenticated(caller)
    modifies st
    ensures st.Valid()
    ensures id !in old(st.messages) ==> code == NotFound && unchanged(st)
    ensures id in old(st.messages) && old(st.messages)[id].sender != caller.id ==> code == Forbidden && unchanged(st)
    ensures id in old(st.messages) && old(st.messages)[id].sender == caller.id ==>
      code == Ok && st.Snapshot() == old(st.Snapshot()).(messages := old(st.messages) - {id})
  {
    if id !in st.messages {
      return NotFound;
    }
    if st.messages[id].sender != caller.id {
      return Forbidden;
    }
    st.messages := st.messages - {id};
    return Ok;
  }

  /** DELETE /api/messages/conversation/:userId: every message between the caller
      and `other`, in either direction, is removed, and every other message kept. */
  method DeleteConversation(st: Store, caller: Caller, other: Id) returns (code: int)
    requires st.Valid() && st.Authenticated(caller)
    modifies st
    ensures st.Valid()
    ensures code == Ok
    ensures forall id :: id in st.messages <==> id in old(st.messages) && !Between(old(st.messages)[id], caller.id, other)
    ensures forall id :: id in st.messages ==> st.messages[id] == old(st.messages)[id]
    ensures st.Snapshot() == old(st.Snapshot()).(messages := st.messages)
  {
    st.messages := map id | id in st.messages && !Between(st.messages[id], caller.id, other) :: st.messages[id];
    return Ok;
  }

  /** One entry of getConversations. */
  datatype Conversation = Conversation(user: Id, lastMessage: string, lastMessageAt: nat, unread: nat)

  /** The entry built from message `id`: the other party, the message's content
      and time, and the count of unread messages that party sent to `me`. */
  function Entry(m: map<Id, Message>, me: Id, id: Id): Conversation
    requires id in m
  {
    var other := Counterpart(m[id], me);
    Conversation(other, m[id].content, m[id].createdAt, UnreadFrom(m, other, me))
  }

  predicate Decreasing(s: seq<Id>) {
    forall i, j :: 0 <= i < j < |s| ==> s[i] > s[j]
  }

  /** The ids below `n` of messages `me` sent or received, newest first, as
      `find({ $or: [...] }).sort({ createdAt: -1 })` returns them. */
  function NewestFirst(m: map<Id, Message>, n: nat, me: Id): (r: seq<Id>)
    ensures forall i :: 0 <= i < |r| ==> r[i] in m && r[i] < n && Involves(m[r[i]], me)
  {
    if n == 0 then []
    else (if n - 1 in m && Involves(m[n - 1], me) then [n - 1] else []) + NewestFirst(m, n - 1, me)
  }

  /** The listing holds every message below `n` that `me` sent or received. */
  lemma {:induction false} NewestFirstCovers(m: map<Id, Message>, n: nat, me: Id)
    ensures forall id :: id in m && id < n && Involves(m[id], me) ==> id in NewestFirst(m, n, me)
  {
    if n > 0 {
      NewestFirstCovers(m, n - 1, me);
    }
  }

  /** The listing is newest first: ids strictly decrease along it. */
  lemma {:induction false} NewestFirstDecreasing(m: map<Id, Message>, n: nat, me: Id)
    ensures Decreasing(NewestFirst(m, n, me))
  {
    if n > 0 {
      NewestFirstDecreasing(m, n - 1, me);
      var rest := NewestFirst(m, n - 1, me);
      if n - 1 in m && Involves(m[n - 1], me) {
        var r := [n - 1] + rest;
        assert NewestFirst(m, n, me) == r;
        forall i, j | 0 <= i < j < |r|
          ensures r[i] > r[j]
        {
          assert r[j] == rest[j - 1];
          if i > 0 {
            assert r[i] == rest[i - 1];
          }
        }
        assert Decreasing(r);
      } else {
        assert NewestFirst(m, n, me) == rest;
      }
    }
  }

  /** Message `id` is the newest below `n` that `me` exchanged with its counterpart. */
  ghost predicate Latest(m: map<Id, Message>, n: nat, me: Id, id: Id) {
    && id in m && id < n && Involves(m[id], me)
    && forall id2 :: id2 in m && id2 < n && Involves(m[id2], me) && Counterpart(m[id2], me) == Counterpart(m[id], me) ==>
         m[id2].createdAt <= m[id].createdAt
  }

  /** The counterparts that already have an entry: the keys of `convoMap`. */
  function UsersOf(cs: seq<Conversation>): (r: set<Id>)
    ensures forall i :: 0 <= i < |cs| ==> cs[i].user in r
  {
    if cs == [] then {} else UsersOf(cs[..|cs| - 1]) + {cs[|cs| - 1].user}
  }

  /** The scan of getConversations over `ids`, in order: an entry is added for a
      message only when its counterpart has none yet. */
  function Collect(m: map<Id, Message>, me: Id, ids: seq<Id>): seq<Conversation>
    requires forall i :: 0 <= i < |ids| ==> ids[i] in m
  {
    if ids == [] then []
    else
      var c := Collect(m, me, ids[..|ids| - 1]);
      var last := ids[|ids| - 1];
      if Counterpart(m[last], me) in UsersOf(c) then c else c + [Entry(m, me, last)]
  }

  /** Every entry is built from a message of the list. */
  ghost predicate EntriesFrom(m: map<Id, Message>, me: Id, ids: seq<Id>, c: seq<Conversation>) {
    forall i :: 0 <= i < |c| ==> c[i].lastMessageAt in ids && c[i].lastMessageAt in m && c[i] == Entry(m, me, c[i].lastMessageAt)
  }

  /** No counterpart has two entries. */
  predicate DistinctUsers(c: seq<Conversation>) {
    forall i, j :: 0 <= i < j < |c| ==> c[i].user != c[j].user
  }

  /** Every counterpart of a listed message has an entry. */
  ghost predicate Covers(m: map<Id, Message>, me: Id, ids: seq<Id>, c: seq<Conversation>)
    requires forall i :: 0 <= i < |ids| ==> ids[i] in m
  {
    forall j :: 0 <= j < |ids| ==> Counterpart(m[ids[j]], me) in UsersOf(c)
  }

  /** No listed message with an entry's counterpart is newer than the entry's message. */
  ghost predicate FirstInList(m: map<Id, Message>, me: Id, ids: seq<Id>, c: seq<Conversation>)
    requires forall i :: 0 <= i < |ids| ==> ids[i] in m
  {
    forall i, j :: 0 <= i < |c| && 0 <= j < |ids| && Counterpart(m[ids[j]], me) == c[i].user ==>
      ids[j] <= c[i].lastMessageAt
  }

  /** Entries come newest conversation first. */
  predicate NewestFirstOrder(c: seq<Conversation>) {
    forall i, j :: 0 <= i < j < |c| ==> c[i].lastMessageAt > c[j].lastMessageAt
  }

  /** Every entry of the scan is built from a message of the list. */
  lemma {:induction false} CollectEntries(m: map<Id, Message>, me: Id, ids: seq<Id>)
    requires Clocked(m)
    requires forall i :: 0 <= i < |ids| ==> ids[i] in m
    ensures EntriesFrom(m, me, ids, Collect(m, me, ids))
  {
    if ids != [] {
      var p := ids[..|ids| - 1];
      var last := ids[|ids| - 1];
      CollectEntries(m, me, p);
      var c := Collect(m, me, p);
      assert forall x :: x in p ==> x in ids;
      if Counterpart(m[last], me) !in UsersOf(c) {
        var e := Entry(m, me, last);
        assert e.lastMessageAt == last;
        var r := c + [e];
        forall i | 0 <= i < |r|
          ensures r[i].lastMessageAt in ids && r[i] == Entry(m, me, r[i].lastMessageAt)
        {
          if i < |c| {
            assert r[i] == c[i];
            assert c[i].lastMessageAt in p;
          } else {
            assert r[i] == e;
            assert last in ids;
          }
        }
      }
    }
  }

  /** The scan adds one entry per counterpart, and no counterpart twice. */
  lemma {:induction false} CollectCovers(m: map<Id, Message>, me: Id, ids: seq<Id>)
    requires forall i :: 0 <= i < |ids| ==> ids[i] in m
    ensures DistinctUsers(Collect(m, me, ids))
    ensures Covers(m, me, ids, Collect(m, me, ids))
  {
    if ids != [] {
      var p := ids[..|ids| - 1];
      var last := ids[|ids| - 1];
      CollectCovers(m, me, p);
      var c := Collect(m, me, p);
      var other := Counterpart(m[last], me);
      if other in UsersOf(c) {
        assert Collect(m, me, ids) == c;
        forall j | 0 <= j < |ids|
          ensures Counterpart(m[ids[j]], me) in UsersOf(c)
        {
          if j < |p| {
            assert ids[j] == p[j];
          }
        }
      } else {
        var r := c + [Entry(m, me, last)];
        assert Collect(m, me, ids) == r;
        assert r[..|c|] == c;
        assert UsersOf(r) == UsersOf(c) + {other};
        forall i, j | 0 <= i < j < |r|
          ensures r[i].user != r[j].user
        {
          assert r[i] == c[i];
          if j < |c| {
            assert r[j] == c[j];
          }
        }
        forall j | 0 <= j < |ids|
          ensures Counterpart(m[ids[j]], me) in UsersOf(r)
        {
          if j < |p| {
            assert ids[j] == p[j];
          }
        }
      }
    }
  }

  /** Over a newest-first list, the entries come newest first. */
  lemma {:induction false} CollectOrder(m: map<Id, Message>, me: Id, ids: seq<Id>)
    requires Clocked(m)
    requires forall i :: 0 <= i < |ids| ==> ids[i] in m
    requires Decreasing(ids)
    ensures NewestFirstOrder(Collect(m, me, ids))
  {
    if ids != [] {
      var p := ids[..|ids| - 1];
      var last := ids[|ids| - 1];
      DecreasingPrefix(ids, p);
      CollectOrder(m, me, p);
      EntriesNewerThan(m, me, p, last);
      var c := Collect(m, me, p);
      if Counterpart(m[last], me) !in UsersOf(c) {
        var r := c + [Entry(m, me, last)];
        assert Collect(m, me, ids) == r;
        assert r[|c|].lastMessageAt == last;
        forall i, j | 0 <= i < j < |r|
          ensures r[i].lastMessageAt > r[j].lastMessageAt
        {
          assert r[i] == c[i];
          if j < |c| {
            assert r[j] == c[j];
          }
        }
      }
    }
  }

  /** Dropping the oldest id keeps a newest-first list newest first, and every
      id left is newer than the one dropped. */
  lemma DecreasingPrefix(ids: seq<Id>, p: seq<Id>)
    requires Decreasing(ids) && ids != [] && p == ids[..|ids| - 1]
    ensures Decreasing(p)
    ensures forall k :: 0 <= k < |p| ==> p[k] > ids[|ids| - 1]
  {
    forall i, j | 0 <= i < j < |p|
      ensures p[i] > p[j]
    {
      assert p[i] == ids[i] && p[j] == ids[j];
    }
    forall k | 0 <= k < |p|
      ensures p[k] > ids[|ids| - 1]
    {
      assert p[k] == ids[k];
    }
  }

  /** When every listed message is newer than `t`, so is every entry of the scan. */
  lemma EntriesNewerThan(m: map<Id, Message>, me: Id, ids: seq<Id>, t: nat)
    requires Clocked(m)
    requires forall i :: 0 <= i < |ids| ==> ids[i] in m && ids[i] > t
    ensures forall i :: 0 <= i < |Collect(m, me, ids)| ==> Collect(m, me, ids)[i].lastMessageAt > t
  {
    CollectEntries(m, me, ids);
  }

  /** Over a newest-first list, each entry is built from the first message in the
      list with its counterpart. */
  lemma {:induction false} CollectFirst(m: map<Id, Message>, me: Id, ids: seq<Id>)
    requires Clocked(m)
    requires forall i :: 0 <= i < |ids| ==> ids[i] in m
    requires Decreasing(ids)
    ensures FirstInList(m, me, ids, Collect(m, me, ids))
  {
    if ids != [] {
      var p := ids[..|ids| - 1];
      var last := ids[|ids| - 1];
      DecreasingPrefix(ids, p);
      CollectFirst(m, me, p);
      CollectCovers(m, me, p);
      EntriesNewerThan(m, me, p, last);
      var c := Collect(m, me, p);
      var other := Counterpart(m[last], me);
      if other in UsersOf(c) {
        assert Collect(m, me, ids) == c;
        forall i, j | 0 <= i < |c| && 0 <= j < |ids| && Counterpart(m[ids[j]], me) == c[i].user
          ensures ids[j] <= c[i].lastMessageAt
        {
          if j < |p| {
            assert ids[j] == p[j];
          }
        }
      } else {
        var r := c + [Entry(m, me, last)];
        assert Collect(m, me, ids) == r;
        forall j | 0 <= j < |p|
          ensures Counterpart(m[ids[j]], me) != other
        {
          assert ids[j] == p[j];
        }
        forall i, j | 0 <= i < |r| && 0 <= j < |ids| && Counterpart(m[ids[j]], me) == r[i].user
          ensures ids[j] <= r[i].lastMessageAt
        {
          if i < |c| {
            assert r[i] == c[i];
            if j < |p| {
              assert ids[j] == p[j];
            }
          }
        }
      }
    }
  }

  /** The conversation list getConversations sends. */
  function Conversations(m: map<Id, Message>, n: nat, me: Id): seq<Conversation> {
    Collect(m, me, NewestFirst(m, n, me))
  }

  /** The conversation list has one entry per counterpart of `me`, each built from
      the newest message with that counterpart (the message whose id is its
      `lastMessageAt`, messages being clocked) and carrying the count of unread
      messages from it; the entries come newest conversation first. */
  lemma ConversationsAreLatest(m: map<Id, Message>, n: nat, me: Id)
    requires Clocked(m)
    ensures var cs := Conversations(m, n, me);
      && (forall i, j :: 0 <= i < j < |cs| ==> cs[i].user != cs[j].user)
      && (forall id :: id in m && id < n && Involves(m[id], me) ==> Counterpart(m[id], me) in UsersOf(cs))
      && (forall i :: 0 <= i < |cs| ==> Latest(m, n, me, cs[i].lastMessageAt) && cs[i] == Entry(m, me, cs[i].lastMessageAt))
      && (forall i :: 0 <= i < |cs| ==> cs[i].unread == UnreadFrom(m, cs[i].user, me))
      && (forall i, j :: 0 <= i < j < |cs| ==> cs[i].lastMessageAt > cs[j].lastMessageAt)
  {
    var ids := NewestFirst(m, n, me);
    NewestFirstDecreasing(m, n, me);
    CollectEntries(m, me, ids);
    CollectCovers(m, me, ids);
    CollectOrder(m, me, ids);
    ConversationsCoverCounterparts(m, n, me);
    ConversationsFromLatest(m, n, me);
  }

  /** Every counterpart of `me` has an entry. */
  lemma ConversationsCoverCounterparts(m: map<Id, Message>, n: nat, me: Id)
    ensures forall id :: id in m && id < n && Involves(m[id], me) ==> Counterpart(m[id], me) in UsersOf(Conversations(m, n, me))
  {
    var ids := NewestFirst(m, n, me);
    NewestFirstCovers(m, n, me);
    CollectCovers(m, me, ids);
    forall id | id in m && id < n && Involves(m[id], me)
      ensures Counterpart(m[id], me) in UsersOf(Collect(m, me, ids))
    {
      var j :| 0 <= j < |ids| && ids[j] == id;
    }
  }

  /** Every entry is built from the newest message with its counterpart. */
  lemma ConversationsFromLatest(m: map<Id, Message>, n: nat, me: Id)
    requires Clocked(m)
    ensures var cs := Conversations(m, n, me);
      forall i :: 0 <= i < |cs| ==> Latest(m, n, me, cs[i].lastMessageAt) && cs[i] == Entry(m, me, cs[i].lastMessageAt)
  {
    var ids := NewestFirst(m, n, me);
    var cs := Collect(m, me, ids);
    NewestFirstDecreasing(m, n, me);
    NewestFirstCovers(m, n, me);
    CollectEntries(m, me, ids);
    CollectFirst(m, me, ids);
    forall i | 0 <= i < |cs|
      ensures Latest(m, n, me, cs[i].lastMessageAt)
    {
      var at := cs[i].lastMessageAt;
      forall id2 | id2 in m && id2 < n && Involves(m[id2], me) && Counterpart(m[id2], me) == Counterpart(m[at], me)
        ensures m[id2].createdAt <= m[at].createdAt
      {
        var j :| 0 <= j < |ids| && ids[j] == id2;
      }
    }
  }

  /** One more message of the list extends the scan by at most its entry. */
  lemma CollectStep(m: map<Id, Message>, me: Id, ids: seq<Id>, k: nat)
    requires forall i :: 0 <= i < |ids| ==> ids[i] in m
    requires k < |ids|
    ensures Counterpart(m[ids[k]], me) in UsersOf(Collect(m, me, ids[..k])) ==>
      Collect(m, me, ids[..k + 1]) == Collect(m, me, ids[..k])
    ensures Counterpart(m[ids[k]], me) !in UsersOf(Collect(m, me, ids[..k])) ==>
      Collect(m, me, ids[..k + 1]) == Collect(m, me, ids[..k]) + [Entry(m, me, ids[k])]
  {
    assert ids[..k + 1][..k] == ids[..k];
  }

  lemma UsersOfSnoc(cs: seq<Conversation>, c: Conversation)
    ensures UsersOf(cs + [c]) == UsersOf(cs) + {c.user}
  {
    assert (cs + [c])[..|cs|] == cs;
  }

  /** GET /api/messages/conversations: scans the caller's messages newest first,
      adding an entry for a message only when its counterpart has none yet; what
      that list holds is ConversationsAreLatest. */
  method GetConversations(m: map<Id, Message>, n: nat, me: Id) returns (convos: seq<Conversation>)
    ensures convos == Conversations(m, n, me)
  {
    var ids := NewestFirst(m, n, me);
    convos := GroupByCounterpart(m, me, ids);
  }

  /** The loop filling `convoMap`: over `ids` in order, an entry is added for a
      message only when its counterpart has none yet. */
  method GroupByCounterpart(m: map<Id, Message>, me: Id, ids: seq<Id>) returns (convos: seq<Conversation>)
    requires forall i :: 0 <= i < |ids| ==> ids[i] in m
    ensures convos == Collect(m, me, ids)
  {
    var seen: set<Id> := {};
    convos := [];
    for k := 0 to |ids|
      invariant convos == Collect(m, me, ids[..k])
      invariant seen == UsersOf(convos)
    {
      CollectStep(m, me, ids, k);
      var other := Counterpart(m[ids[k]], me);
      if other !in seen {
        var unread := UnreadFrom(m, other, me);
        var e := Conversation(other, m[ids[k]].content, m[ids[k]].createdAt, unread);
        assert e == Entry(m, me, ids[k]);
        UsersOfSnoc(convos, e);
        convos := convos + [e];
        seen := seen + {other};
      }
    }
    assert ids[..|ids|] == ids;
  }

  /** The users `me` may message: none of them soft-deleted. An admin reaches
      every active employee and client; an employee reaches the admins and the
      active clients of the projects it is assigned to; a client reaches the
      admins and the active employees of its own projects. */
  function GetContacts(users: map<Id, User>, projects: map<Id, ProjectModel.Project>, caller: Caller): (r: set<Id>)
    ensures forall id :: id in r ==> id in users && !users[id].isDeleted
    ensures caller.role == Admin ==>
      forall id :: id in users ==> (id in r <==> !users[id].isDeleted && users[id].role != Admin)
    ensures caller.role == Employee ==>
      forall id :: id in users ==>
        (id in r <==> (!users[id].isDeleted
           && (users[id].role == Admin
               || exists pid :: pid in projects && caller.id in projects[pid].employees && projects[pid].client == id)))
    ensures caller.role == Client ==>
      forall id :: id in users ==>
        (id in r <==> (!users[id].isDeleted
           && (users[id].role == Admin
               || exists pid :: pid in projects && projects[pid].client == caller.id && id in projects[pid].employees)))
  {
    match caller.role
    case Admin =>
      set id | id in users && !users[id].isDeleted && (users[id].role == Employee || users[id].role == Client)
    case Employee =>
      var clientIds := set pid | pid in projects && caller.id in projects[pid].employees
                                 && projects[pid].client in users && !users[projects[pid].client].isDeleted
                               :: projects[pid].client;
      set id | id in users && !users[id].isDeleted && (users[id].role == Admin || id in clientIds)
    case Client =>
      var employeeIds := set pid, e | pid in projects && projects[pid].client == caller.id
                                      && e in projects[pid].employees && e in users && !users[e].isDeleted :: e;
      set id | id in users && !users[id].isDeleted && (users[id].role == Admin || id in employeeIds)
  }
}
