/** The authentication service as the sign-in and sign-up screens use it. The
    service itself is not modelled: each call either returns or throws an
    exception whose message may be null, as a script of replies decides. */
module AccountService {
  import opened ReplyScript
  import opened Wrappers

  datatype AuthCall = SignIn(email: string, password: string) | SignUp(email: string, password: string)

  /** How one call ends: it returns, or throws with a (nullable) message. */
  datatype AuthReply = Accepted | Refused(message: Option<string>)

  /** What an exhausted script answers. */
  const NoAuthReply: AuthReply := Refused(Some("no reply"))

  class AccountService {
    var calls: seq<AuthCall>
    var replies: seq<AuthReply>

    constructor (script: seq<AuthReply>)
      ensures calls == [] && replies == script
    {
      calls := [];
      replies := script;
    }

    /** Make one call and receive its scripted ending. */
    method Call(call: AuthCall) returns (reply: AuthReply)
      modifies this
      ensures calls == old(calls) + [call]
      ensures reply == NextReply(old(replies), NoAuthReply) && replies == Consume(old(replies))
    {
      calls := calls + [call];
      reply := NextReply(replies, NoAuthReply);
      replies := Consume(replies);
    }
  }
}
