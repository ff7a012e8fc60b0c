/**
 * The demo transports of main.py: `MockEmailClient`, which records what is
 * sent and queues simulated replies, and `RealEmailClientWithSimulate`,
 * which puts injected replies in front of what the real inbox returns.
 *
 * Clock readings (`datetime.now()`) and what the real client does are
 * parameters of the methods that use them.
 */
module Transport {
  import opened Wrappers
  import opened Email

  /** One `email_record` of `MockEmailClient.sent_emails`. */
  datatype SentEmail = SentEmail(to: string, subject: string, body: string, replyTo: Option<string>, sentAt: string)

  /** A reply as the poller sees it (`FakeEmail`, and `ParsedEmail` from the real inbox). */
  datatype Reply = Reply(sender: string, subject: string, body: string, requestId: Option<string>, receivedAt: string)

  /** One entry of `RealEmailClientWithSimulate.sent_emails`: only the recipient and subject. */
  datatype SentSummary = SentSummary(to: string, subject: string)

  /** What the wrapped client's `fetch_new_replies` did, when it has one. */
  datatype FetchOutcome = NoFetchMethod | Fetched(replies: seq<Reply>) | FetchRaised(message: string)

  const SimulatedSubject: string := "Re: Interview Scheduling"

  /** The body of a simulated reply: the text, a blank line and the tag line. */
  function SimulatedBody(body: string, requestId: string): string {
    body + "\n\n" + TagLine(requestId)
  }

  function SimulatedReply(sender: string, body: string, requestId: string, receivedAt: string): Reply {
    Reply(sender, SimulatedSubject, SimulatedBody(body, requestId), Some(requestId), receivedAt)
  }

  /** The replies the wrapped client contributes: none when it has no fetch or its fetch raised. */
  function RealReplies(outcome: FetchOutcome): (r: seq<Reply>)
    ensures outcome.Fetched? ==> r == outcome.replies
    ensures !outcome.Fetched? ==> r == []
  {
    match outcome
    case Fetched(rs) => rs
    case _ => []
  }

  class MockEmailClient {
    var sentEmails: seq<SentEmail>
    var pendingReplies: seq<Reply>

    constructor()
      ensures sentEmails == [] && pendingReplies == []
    {
      sentEmails := [];
      pendingReplies := [];
    }

    /** `MockEmailClient.send`: exactly one record is appended. */
    method Send(to: string, subject: string, body: string, replyTo: Option<string>, sentAt: string)
      modifies this
      ensures sentEmails == old(sentEmails) + [SentEmail(to, subject, body, replyTo, sentAt)]
      ensures pendingReplies == old(pendingReplies)
    {
      sentEmails := sentEmails + [SentEmail(to, subject, body, replyTo, sentAt)];
    }

    /** `MockEmailClient.fetch_new_replies`: the queue, in order, and an empty queue after. */
    method FetchNewReplies() returns (replies: seq<Reply>)
      modifies this
      ensures replies == old(pendingReplies)
      ensures pendingReplies == []
      ensures sentEmails == old(sentEmails)
    {
      replies := pendingReplies;
      pendingReplies := [];
    }

    /** `MockEmailClient.simulate_reply`: one reply carrying the tag line and the id. */
    method SimulateReply(sender: string, body: string, requestId: string, receivedAt: string)
      modifies this
      ensures pendingReplies == old(pendingReplies) + [SimulatedReply(sender, body, requestId, receivedAt)]
      ensures sentEmails == old(sentEmails)
    {
      pendingReplies := pendingReplies + [SimulatedReply(sender, body, requestId, receivedAt)];
    }
  }

  class RealEmailClientWithSimulate {
    var sentEmails: seq<SentSummary>
    var pendingReplies: seq<Reply>

    constructor()
      ensures sentEmails == [] && pendingReplies == []
    {
      sentEmails := [];
      pendingReplies := [];
    }

    /**
     * `RealEmailClientWithSimulate.send`: the wrapped client's result is
     * returned unchanged and the recipient and subject are recorded.
     */
    method Send(to: string, subject: string, body: string, replyTo: Option<string>, realResult: bool)
      returns (result: bool)
      modifies this
      ensures result == realResult
      ensures sentEmails == old(sentEmails) + [SentSummary(to, subject)]
      ensures pendingReplies == old(pendingReplies)
    {
      result := realResult;
      sentEmails := sentEmails + [SentSummary(to, subject)];
    }

    /**
     * `RealEmailClientWithSimulate.fetch_new_replies`: injected replies first,
     * then the real ones; a raising real fetch leaves only the injected ones.
     */
    method FetchNewReplies(inbox: FetchOutcome) returns (replies: seq<Reply>)
      modifies this
      ensures replies == old(pendingReplies) + RealReplies(inbox)
      ensures inbox.FetchRaised? ==> replies == old(pendingReplies)
      ensures pendingReplies == []
      ensures sentEmails == old(sentEmails)
    {
      replies := pendingReplies;
      pendingReplies := [];
      match inbox {
        case Fetched(rs) =>
          replies := replies + rs;
        case _ =>
      }
    }

    method SimulateReply(sender: string, body: string, requestId: string, receivedAt: string)
      modifies this
      ensures pendingReplies == old(pendingReplies) + [SimulatedReply(sender, body, requestId, receivedAt)]
      ensures sentEmails == old(sentEmails)
    {
      pendingReplies := pendingReplies + [SimulatedReply(sender, body, requestId, receivedAt)];
    }
  }

  /**
   * A simulated reply to a request id of the token form carries that id
   * twice over: in its `request_id` and in a tag line the extractor reads
   * back, from the body alone and from the body followed by the subject.
   */
  lemma SimulatedReplyRoundTrip(sender: string, body: string, requestId: string, receivedAt: string)
    requires NoTag(body) && IsReqToken(requestId)
    ensures var r := SimulatedReply(sender, body, requestId, receivedAt);
      && r.requestId == Some(requestId)
      && ExtractRequestId(r.body) == Some(requestId)
      && ReplyRequestId(r.body, r.subject) == Some(requestId)
  {
    var p := body + "\n\n";
    NoTagJoin("", body, "\n\n", 2);
    assert "" + body + "\n\n" == p;
    TagRoundTrip(p, requestId, "");
    assert p + TagLine(requestId) + "" == SimulatedBody(body, requestId);
    BodyTagWins(p, requestId, "", SimulatedSubject);
  }
}
