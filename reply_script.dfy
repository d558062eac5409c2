/** A remote service seen as a script of replies, consumed one per request.
    A script that has run out keeps answering with one fixed reply. */
module ReplyScript {
  /** The reply the next request gets. */
  function NextReply<R>(replies: seq<R>, exhausted: R): (reply: R)
    ensures replies == [] ==> reply == exhausted
    ensures replies != [] ==> reply == replies[0]
  {
    if replies == [] then exhausted else replies[0]
  }

  /** The script after one more request. */
  function Consume<R>(replies: seq<R>): (rest: seq<R>)
    ensures replies == [] ==> rest == []
    ensures replies != [] ==> rest == replies[1..]
  {
    if replies == [] then [] else replies[1..]
  }
}
