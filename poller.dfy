/**
 * `EmailPollingService` (main.py): one inbox check fetches the new replies
 * and hands every reply that carries a request id to the agent, in order.
 *
 * The background thread, its stop event and the sleep between checks are
 * not modelled; the world the agent sees while it handles the i-th reply
 * (clock, busy times, calendar and model outcomes) is `env(i)`.
 */
module Poller {
  import opened Wrappers
  import opened Time
  import opened Llm
  import opened Calendar
  import opened Transport
  import opened Agent

  /** `if reply.request_id:` is true: an id is present and is not the empty string. */
  predicate Routable(reply: Reply) {
    reply.requestId.Some? && reply.requestId.value != ""
  }

  /** The requests, the agent's results and the emails sent after some replies were routed. */
  datatype Routed = Routed(requests: map<string, InterviewRequest>, outcomes: seq<Outcome>, sent: seq<SentEmail>)

  /** What routing one reply does to the state so far, in the world `world`. */
  ghost function RouteStep(llm: ClientMode, backend: CalendarBackend, before: Routed, reply: Reply, world: World): Routed {
    if Routable(reply) then
      var h := Handle(llm, backend, before.requests, reply.requestId.value, reply.sender, reply.body, world);
      Routed(h.requests, before.outcomes + [h.outcome], before.sent + RenderAll(h.sent, Iso(world.now)))
    else before
  }

  /** `_check_inbox` over `replies`, the i-th of them handled in the world `env(i)`. */
  ghost function Inbox(llm: ClientMode, backend: CalendarBackend, requests: map<string, InterviewRequest>,
                       replies: seq<Reply>, env: nat -> World): Routed
    decreases |replies|
  {
    if replies == [] then Routed(requests, [], [])
    else
      var n := |replies| - 1;
      RouteStep(llm, backend, Inbox(llm, backend, requests, replies[..n], env), replies[n], env(n))
  }

  /** How many of `replies` are routed. */
  function RoutableCount(replies: seq<Reply>): (c: nat)
    ensures c <= |replies|
    decreases |replies|
  {
    if replies == [] then 0
    else RoutableCount(replies[..|replies| - 1]) + (if Routable(replies[|replies| - 1]) then 1 else 0)
  }

  /** The history entries the routed replies addressed to `requestId` amount to, in order. */
  function EntriesFor(requestId: string, replies: seq<Reply>): (r: seq<Entry>)
    ensures |r| <= RoutableCount(replies)
    decreases |replies|
  {
    if replies == [] then []
    else
      var reply := replies[|replies| - 1];
      EntriesFor(requestId, replies[..|replies| - 1])
      + (if Routable(reply) && reply.requestId.value == requestId then [Entry(reply.sender, reply.body)] else [])
  }

  /** The agent answers every routed reply once, and no other. */
  lemma {:induction false} InboxAnswersRoutedReplies(llm: ClientMode, backend: CalendarBackend,
                                                      requests: map<string, InterviewRequest>,
                                                      replies: seq<Reply>, env: nat -> World)
    ensures |Inbox(llm, backend, requests, replies, env).outcomes| == RoutableCount(replies)
    decreases |replies|
  {
    if replies != [] {
      InboxAnswersRoutedReplies(llm, backend, requests, replies[..|replies| - 1], env);
    }
  }

  /** An inbox check adds and removes no request. */
  lemma {:induction false} InboxKeys(llm: ClientMode, backend: CalendarBackend,
                                     requests: map<string, InterviewRequest>, replies: seq<Reply>, env: nat -> World)
    ensures Inbox(llm, backend, requests, replies, env).requests.Keys == requests.Keys
    decreases |replies|
  {
    if replies != [] {
      var n := |replies| - 1;
      var before := Inbox(llm, backend, requests, replies[..n], env);
      InboxKeys(llm, backend, requests, replies[..n], env);
      var reply := replies[n];
      if Routable(reply) {
        HandleHistory(llm, backend, before.requests, reply.requestId.value, reply.sender, reply.body, env(n));
      }
    }
  }

  /** Each request's history grows by the routed replies addressed to it, in the order they arrived. */
  lemma {:induction false} InboxHistory(llm: ClientMode, backend: CalendarBackend,
                                        requests: map<string, InterviewRequest>,
                                        replies: seq<Reply>, env: nat -> World, k: string)
    requires k in requests
    ensures k in Inbox(llm, backend, requests, replies, env).requests
    ensures Inbox(llm, backend, requests, replies, env).requests[k].history == requests[k].history + EntriesFor(k, replies)
    decreases |replies|
  {
    if replies != [] {
      var n := |replies| - 1;
      InboxHistory(llm, backend, requests, replies[..n], env, k);
      StepHistory(llm, backend, Inbox(llm, backend, requests, replies[..n], env), replies[n], env(n), k);
    }
  }

  /** Routing one reply adds its entry to the history of the request it names, and to no other. */
  lemma StepHistory(llm: ClientMode, backend: CalendarBackend, before: Routed, reply: Reply, world: World, k: string)
    requires k in before.requests
    ensures var after := RouteStep(llm, backend, before, reply, world);
      && k in after.requests
      && after.requests[k].history == before.requests[k].history
         + (if Routable(reply) && reply.requestId.value == k then [Entry(reply.sender, reply.body)] else [])
  {
    if Routable(reply) {
      HandleHistory(llm, backend, before.requests, reply.requestId.value, reply.sender, reply.body, world);
    }
  }

  /** With the mock calendar, no routed reply ends in an escalation. */
  lemma {:induction false} InboxNeverEscalatesWithMockCalendar(llm: ClientMode,
                                                                requests: map<string, InterviewRequest>,
                                                                replies: seq<Reply>, env: nat -> World)
    ensures forall i :: 0 <= i < |Inbox(llm, MockCalendar, requests, replies, env).outcomes| ==>
      Inbox(llm, MockCalendar, requests, replies, env).outcomes[i] != Escalated
    decreases |replies|
  {
    if replies != [] {
      var n := |replies| - 1;
      var before := Inbox(llm, MockCalendar, requests, replies[..n], env);
      InboxNeverEscalatesWithMockCalendar(llm, requests, replies[..n], env);
      var reply := replies[n];
      if Routable(reply) {
        MockCalendarNeverEscalates(llm, before.requests, reply.requestId.value, reply.sender, reply.body, env(n));
      }
    }
  }

  lemma AppendSent(a: seq<SentEmail>, b: seq<SentEmail>, c: seq<SentEmail>)
    ensures a + b + c == a + (b + c)
  {
  }

  class EmailPollingService {
    const agent: SchedulerAgent
    const email: MockEmailClient
    const pollInterval: nat

    constructor(agent: SchedulerAgent, email: MockEmailClient, pollInterval: nat)
      ensures this.agent == agent && this.email == email && this.pollInterval == pollInterval
    {
      this.agent := agent;
      this.email := email;
      this.pollInterval := pollInterval;
    }

    /**
     * `_check_inbox`: the fetched replies are routed in order, and the queue
     * is empty afterwards. The agent's results, which the source prints, are
     * returned.
     */
    method CheckInbox(env: nat -> World) returns (outcomes: seq<Outcome>)
      requires agent.Valid()
      modifies agent, agent.email, email
      ensures var routed := Inbox(agent.llm, agent.calendar, old(agent.activeRequests), old(email.pendingReplies), env);
        && agent.activeRequests == routed.requests
        && outcomes == routed.outcomes
        && agent.email.sentEmails == old(agent.email.sentEmails) + routed.sent
      ensures email.pendingReplies == []
      ensures agent.Valid()
    {
      var replies := email.FetchNewReplies();
      outcomes := [];
      for i := 0 to |replies|
        invariant agent.Valid()
        invariant email.pendingReplies == []
        invariant var routed := Inbox(agent.llm, agent.calendar, old(agent.activeRequests), replies[..i], env);
          && agent.activeRequests == routed.requests
          && outcomes == routed.outcomes
          && agent.email.sentEmails == old(agent.email.sentEmails) + routed.sent
      {
        assert replies[..i + 1][..i] == replies[..i];
        ghost var before := Inbox(agent.llm, agent.calendar, old(agent.activeRequests), replies[..i], env);
        ghost var base := old(agent.email.sentEmails);
        outcomes := RouteOne(replies[i], env(i), before, base, outcomes);
      }
      assert replies[..|replies|] == replies;
    }

    /** One turn of the loop of `_check_inbox`. */
    method RouteOne(reply: Reply, world: World, ghost before: Routed, ghost base: seq<SentEmail>,
                    outcomes: seq<Outcome>)
      returns (outcomes': seq<Outcome>)
      requires agent.Valid()
      requires agent.activeRequests == before.requests && outcomes == before.outcomes
      requires agent.email.sentEmails == base + before.sent
      modifies agent, agent.email
      ensures var after := RouteStep(agent.llm, agent.calendar, before, reply, world);
        && agent.activeRequests == after.requests && outcomes' == after.outcomes
        && agent.email.sentEmails == base + after.sent
      ensures agent.Valid()
      ensures agent.email.pendingReplies == old(agent.email.pendingReplies)
    {
      outcomes' := outcomes;
      if Routable(reply) {
        ghost var h := Handle(agent.llm, agent.calendar, before.requests, reply.requestId.value, reply.sender,
                              reply.body, world);
        ghost var rendered := RenderAll(h.sent, Iso(world.now));
        var outcome := agent.HandleEmailReply(reply.requestId.value, reply.sender, reply.body, world);
        assert agent.email.sentEmails == base + before.sent + rendered;
        AppendSent(base, before.sent, rendered);
        outcomes' := outcomes + [outcome];
      }
    }
  }
}
