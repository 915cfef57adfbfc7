/** The Message document, as the message handlers use it: sender, receiver,
    content, a read flag and the creation time. */
module MessageModel {
  import opened Common

  datatype Message = Message(sender: Id, receiver: Id, content: string, read: bool, createdAt: nat)

  /** Messages are created at the clock reading that is also their id, so
      ordering by `createdAt` is ordering by id. */
  predicate Clocked(m: map<Id, Message>) {
    forall id :: id in m ==> m[id].createdAt == id
  }

  /** The message was exchanged between `a` and `b`, in either direction. */
  predicate Between(msg: Message, a: Id, b: Id) {
    (msg.sender == a && msg.receiver == b) || (msg.sender == b && msg.receiver == a)
  }

  /** `me` sent or received the message. */
  predicate Involves(msg: Message, me: Id) {
    msg.sender == me || msg.receiver == me
  }

  /** The other party of a message that involves `me` (`me` itself for a note to self). */
  function Counterpart(msg: Message, me: Id): Id {
    if msg.sender == me then msg.receiver else msg.sender
  }
}
