/** The HTTP handlers of app.py that drive the engine and the store: the WhatsApp
    webhook (verification and delivery), the human inbox, and the product API's
    update and delete endpoints. Every handler is a function of the store; the
    outcome of `send_text` (the Graph API call) is a parameter, and the outgoing
    messages are returned as a list so that "nothing is sent" can be stated. */
module App {
  import opened Wrappers
  import Text
  import opened Storage
  import Engine

  // ------------------------------------------------------------------ payloads

  /** One element of `value.messages`: the `from`, `id` and `type` fields, and the
      `text.body` field of a text message. Each is None when the key is absent. */
  datatype Inbound = Inbound(from: Option<string>, id: Option<string>, kind: Option<string>, body: Option<string>)

  /** `change.value.messages`; a change without `value` or `messages` has none. */
  datatype Change = Change(messages: seq<Inbound>)

  /** `entry.changes`. */
  datatype Entry = Entry(changes: seq<Change>)

  /** The messages of a list of changes, in the order the nested loop meets them. */
  function ChangeMessages(cs: seq<Change>): seq<Inbound> {
    if cs == [] then [] else cs[0].messages + ChangeMessages(cs[1..])
  }

  /** The messages of a webhook payload, in the order the nested loops meet them. */
  function PayloadMessages(es: seq<Entry>): seq<Inbound> {
    if es == [] then [] else ChangeMessages(es[0].changes) + PayloadMessages(es[1..])
  }

  /** What `send_text` returned: the HTTP status and the response text. A request
      that raised is reported as status 500 with the error text. */
  datatype Delivery = Delivery(status: int, response: string)

  /** A message handed to `send_text`. */
  datatype Sent = Sent(to: string, text: string)

  /** Python truthiness of an optional string: present and non-empty. */
  predicate Truthy(s: Option<string>) {
    s.Some? && s.value != ""
  }

  /** The body logged for a message that is not text. */
  const Placeholder := "<conteúdo não-texto>"

  /** The fixed answer to a message that is not text. */
  const NonTextReply := "Recebi seu arquivo/figura/áudio. No momento só entendo texto. 😊"

  // ----------------------------------------------------------- webhook_receive

  /** The store after one message, what was sent, and whether the handler raised.
      The messages table has `wa_id` and `msg_type` NOT NULL, so logging a message
      without `from`, or a non-text message without `type`, raises; the writes
      already committed stay. */
  datatype Handled = Handled(store: Store, sent: seq<Sent>, crashed: bool)

  /** True when the message takes part in deduplication: both `from` and `id` are truthy. */
  predicate Keyed(m: Inbound) {
    Truthy(m.from) && Truthy(m.id)
  }

  /** True when the message was already claimed: keyed and its id is in the ledger. */
  predicate Duplicate(st: Store, m: Inbound) {
    Keyed(m) && m.id.value in st.processed
  }

  /** True when the bot answers the message: a fresh text message from a sender
      whose conversation is not paused. */
  predicate Answers(st: Store, m: Inbound) {
    !Duplicate(st, m) && m.from.Some? && m.kind == Some("text") && !GetPauseBot(st, m.from.value)
  }

  /** `mark_processed` when the message is keyed; the store as it is otherwise. */
  function Claimed(st: Store, m: Inbound, now: int): (r: Store)
    ensures r == st.(processed := r.processed)
    ensures Keyed(m) ==> r.processed.Keys == st.processed.Keys + {m.id.value}
    ensures !Keyed(m) ==> r == st
  {
    if Keyed(m) then MarkProcessed(st, m.id.value, m.from.value, now).store else st
  }

  /** The clock `next_reply` runs with when the webhook calls it: `_now()` is the
      naive `datetime.utcnow()`, so a stored session never times out (see
      `Engine.NaiveClockNeverTimesOut`). */
  function EngineClock(now: int): Engine.Clock {
    Engine.NaiveUtcNow(now)
  }

  /** The engine's turn for a text message already logged in `st`: the reply for the
      stripped body, computed with the engine's own clock, is sent, logged as out-bot
      whatever the send status, and parked in the outbox when the status is 400 or more. */
  function BotTurn(st: Store, waId: string, body: string, d: Delivery, now: int): (h: Handled)
    ensures var turn := Engine.NextReply(st, waId, body, EngineClock(now));
            var reply := Engine.Render(turn.reply);
            && !h.crashed
            && h.sent == [Sent(waId, reply)]
            && h.store.sessions == turn.store.sessions
            && h.store.orders == turn.store.orders
            && h.store.processed == st.processed
            && h.store.products == st.products
            && h.store.messages == st.messages + [Message(waId, OutBot, "text", reply, None, now)]
            && h.store.outbox == st.outbox + (if d.status >= 400 then [Outboxed(waId, reply, Some(d.response), now)] else [])
  {
    var turn := Engine.NextReply(st, waId, body, EngineClock(now));
    var reply := Engine.Render(turn.reply);
    var st1 := AddMessage(turn.store, waId, OutBot, "text", reply, None, now);
    var st2 := if d.status >= 400 then AddOutbox(st1, waId, reply, Some(d.response), now) else st1;
    Handled(st2, [Sent(waId, reply)], false)
  }

  /** The body of the loop of `webhook_receive` for one message: claim its id, then
      for text log the stripped body, stop if the bot is paused, otherwise take the
      engine's turn; for anything else log a placeholder and send the fixed answer.
      Only a turn the bot answers can touch sessions and orders. */
  function HandleMessage(st: Store, m: Inbound, d: Delivery, now: int): (h: Handled)
    ensures st.processed.Keys <= h.store.processed.Keys
    ensures Keyed(m) ==> m.id.value in h.store.processed
    ensures !Answers(st, m) ==> h.store.sessions == st.sessions && h.store.orders == st.orders
    ensures m.from.Some? ==> h.store.sessions - {m.from.value} == st.sessions - {m.from.value}
    ensures |st.orders| <= |h.store.orders| <= |st.orders| + 1
    ensures h.store.orders[..|st.orders|] == st.orders
    ensures |h.sent| <= 1
    ensures h.store.products == st.products
  {
    if Duplicate(st, m) then Handled(st, [], false)
    else
      var st1 := Claimed(st, m, now);
      if m.from.None? then Handled(st1, [], true)
      else
        var waId := m.from.value;
        if m.kind == Some("text") then
          var body := Text.Strip(m.body.GetOr(""));
          var st2 := AddMessage(st1, waId, In, "text", body, m.id, now);
          if GetPauseBot(st2, waId) then Handled(st2, [], false)
          else BotTurn(st2, waId, body, d, now)
        else if m.kind.None? then Handled(st1, [], true)
        else Handled(AddMessage(st1, waId, In, m.kind.value, Placeholder, m.id, now), [Sent(waId, NonTextReply)], false)
  }

  /** The HTTP answer of `webhook_receive`: 200 with "EVENT_RECEIVED", or 500 when a
      message raised; the store as left, and everything sent. */
  datatype Response = Response(status: int, store: Store, sent: seq<Sent>)

  /** `r` with `s` sent before everything it sent. */
  function Prepend(s: seq<Sent>, r: Response): Response {
    r.(sent := s + r.sent)
  }

  /** The loop of `webhook_receive` over `msgs`, the i-th one delivered with
      `send(base + i)`; the first message that raises ends the request with 500. */
  function Process(st: Store, msgs: seq<Inbound>, send: nat -> Delivery, base: nat, now: int): (r: Response)
    ensures r.status == 200 || r.status == 500
    ensures st.processed.Keys <= r.store.processed.Keys
    ensures |r.sent| <= |msgs|
    ensures |st.orders| <= |r.store.orders| <= |st.orders| + |msgs|
    ensures r.store.orders[..|st.orders|] == st.orders
    ensures r.store.products == st.products
    decreases |msgs|
  {
    if msgs == [] then Response(200, st, [])
    else
      var h := HandleMessage(st, msgs[0], send(base), now);
      if h.crashed then Response(500, h.store, h.sent)
      else Prepend(h.sent, Process(h.store, msgs[1..], send, base + 1, now))
  }

  /** `webhook_receive` as the source writes it: a loop over the messages of the
      payload, counting deliveries by message position. */
  method WebhookReceive(st: Store, entries: seq<Entry>, send: nat -> Delivery, now: int) returns (r: Response)
    ensures r == Process(st, PayloadMessages(entries), send, 0, now)
  {
    var msgs := PayloadMessages(entries);
    var cur := st;
    var sent: seq<Sent> := [];
    var i := 0;
    while i < |msgs|
      invariant 0 <= i <= |msgs|
      invariant Process(st, msgs, send, 0, now) == Prepend(sent, Process(cur, msgs[i..], send, i, now))
    {
      var h := HandleMessage(cur, msgs[i], send(i), now);
      ProcessStep(cur, msgs, send, i, now);
      if h.crashed {
        return Response(500, h.store, sent + h.sent);
      }
      sent := sent + h.sent;
      cur := h.store;
      i := i + 1;
    }
    return Response(200, cur, sent);
  }

  /** One turn of the loop: the rest of the request from message `i` is that
      message's handling followed, unless it raised, by the rest from `i + 1`. */
  lemma ProcessStep(st: Store, msgs: seq<Inbound>, send: nat -> Delivery, i: nat, now: int)
    requires i < |msgs|
    ensures var h := HandleMessage(st, msgs[i], send(i), now);
            Process(st, msgs[i..], send, i, now)
            == if h.crashed then Response(500, h.store, h.sent)
               else Prepend(h.sent, Process(h.store, msgs[i + 1..], send, i + 1, now))
  {
    assert msgs[i..][0] == msgs[i] && msgs[i..][1..] == msgs[i + 1..];
  }

  // ---------------------------------------------------------- webhook lemmas

  /** A message whose `from` and `id` were already claimed is skipped entirely: no
      write, no engine turn, nothing sent. */
  lemma DuplicateSkipped(st: Store, m: Inbound, d: Delivery, now: int)
    requires Keyed(m) && m.id.value in st.processed
    ensures HandleMessage(st, m, d, now) == Handled(st, [], false)
  {
  }

  /** Delivering the same keyed message twice: the second delivery changes nothing
      and sends nothing, whatever the send outcomes and clocks. */
  lemma RedeliveryIsNoOp(st: Store, m: Inbound, d1: Delivery, d2: Delivery, now1: int, now2: int)
    requires Keyed(m)
    ensures var s1 := HandleMessage(st, m, d1, now1).store;
            HandleMessage(s1, m, d2, now2) == Handled(s1, [], false)
  {
  }

  /** A message lacking a truthy `from` or `id` never touches the ledger and is
      handled afresh on every delivery: a message with a sender and a type always
      adds a row to the message log. */
  lemma UnkeyedBypassesDedup(st: Store, m: Inbound, d: Delivery, now: int)
    requires !Keyed(m)
    ensures var h := HandleMessage(st, m, d, now);
            && h.store.processed == st.processed
            && (m.from.Some? && m.kind.Some? ==> |h.store.messages| > |st.messages| && !h.crashed)
  {
  }

  /** A message without `from` raises (unless its id was claimed, which needs a
      truthy `from`), leaving only the ledger as it was. */
  lemma MissingSenderCrashes(st: Store, m: Inbound, d: Delivery, now: int)
    requires m.from.None?
    ensures HandleMessage(st, m, d, now) == Handled(st, [], true)
  {
  }

  /** A fresh text message is logged as inbound, with its stripped body and its
      WhatsApp id, before anything else is written to the message log. */
  lemma InboundLoggedFirst(st: Store, m: Inbound, d: Delivery, now: int)
    requires !Duplicate(st, m) && m.from.Some? && m.kind == Some("text")
    ensures var h := HandleMessage(st, m, d, now);
            && !h.crashed
            && |h.store.messages| > |st.messages|
            && h.store.messages[..|st.messages|] == st.messages
            && h.store.messages[|st.messages|]
               == Message(m.from.value, In, "text", Text.Strip(m.body.GetOr("")), m.id, now)
  {
    var waId := m.from.value;
    var body := Text.Strip(m.body.GetOr(""));
    var st2 := AddMessage(Claimed(st, m, now), waId, In, "text", body, m.id, now);
    if !GetPauseBot(st2, waId) {
      assert HandleMessage(st, m, d, now) == BotTurn(st2, waId, body, d, now);
    }
  }

  /** While the contact is paused, a fresh text message is only logged: the engine
      does not run, nothing is sent, and sessions and orders stay as they were. */
  lemma PausedNoReply(st: Store, m: Inbound, d: Delivery, now: int)
    requires !Duplicate(st, m) && m.from.Some? && m.kind == Some("text")
    requires GetPauseBot(st, m.from.value)
    ensures var h := HandleMessage(st, m, d, now);
            && h.sent == []
            && !h.crashed
            && h.store.sessions == st.sessions
            && h.store.orders == st.orders
            && h.store.outbox == st.outbox
            && |h.store.messages| == |st.messages| + 1
  {
  }

  /** When the contact is not paused, a fresh text message gets exactly the engine's
      reply for the stripped body (with the engine's own clock). The reply is
      logged as out-bot whatever the send status, and it goes to the outbox exactly
      when the status is 400 or more. */
  lemma ActiveReplies(st: Store, m: Inbound, d: Delivery, now: int)
    requires Answers(st, m)
    ensures var h := HandleMessage(st, m, d, now);
            var waId := m.from.value;
            var body := Text.Strip(m.body.GetOr(""));
            var turn := Engine.NextReply(AddMessage(Claimed(st, m, now), waId, In, "text", body, m.id, now), waId, body, EngineClock(now));
            var reply := Engine.Render(turn.reply);
            && !h.crashed
            && h.sent == [Sent(waId, reply)]
            && |h.store.messages| == |st.messages| + 2
            && h.store.messages[|st.messages| + 1] == Message(waId, OutBot, "text", reply, None, now)
            && h.store.sessions == turn.store.sessions
            && h.store.orders == turn.store.orders
            && (|h.store.outbox| == |st.outbox| + 1 <==> d.status >= 400)
            && (d.status >= 400 ==> h.store.outbox[|st.outbox|] == Outboxed(waId, reply, Some(d.response), now))
  {
  }

  /** As written, the webhook never times a form out: for a fresh text message the
      engine's turn loads the sender's stored form, however long ago it was saved. */
  lemma WebhookResumesStaleForm(st: Store, m: Inbound, d: Delivery, now: int)
    requires Answers(st, m) && m.from.value in st.sessions
    ensures var waId := m.from.value;
            var body := Text.Strip(m.body.GetOr(""));
            var st2 := AddMessage(Claimed(st, m, now), waId, In, "text", body, m.id, now);
            Engine.LoadStateData(st2, waId, EngineClock(now))
            == Engine.Form(st.sessions[waId].state, st.sessions[waId].dataJson.GetOr(map[]))
  {
    var waId := m.from.value;
    var body := Text.Strip(m.body.GetOr(""));
    var st2 := AddMessage(Claimed(st, m, now), waId, In, "text", body, m.id, now);
    assert st2.sessions == st.sessions;
    Engine.NaiveClockNeverTimesOut(st2, waId, now);
  }

  /** A fresh message that is not text, from a sender and with a type, is logged with
      the placeholder body and answered with the fixed text, without a pause check or
      an engine turn: sessions, orders and outbox stay as they were. */
  lemma NonTextAnswered(st: Store, m: Inbound, d: Delivery, now: int)
    requires !Duplicate(st, m) && m.from.Some? && m.kind.Some? && m.kind != Some("text")
    ensures var h := HandleMessage(st, m, d, now);
            && !h.crashed
            && h.sent == [Sent(m.from.value, NonTextReply)]
            && h.store.sessions == st.sessions
            && h.store.orders == st.orders
            && h.store.outbox == st.outbox
            && h.store.messages == st.messages + [Message(m.from.value, In, m.kind.value, Placeholder, m.id, now)]
  {
  }

  /** A non-text message without a type raises after its id was claimed, so a
      redelivery skips it: it is never logged. */
  lemma UntypedMessageIsLost(st: Store, m: Inbound, d1: Delivery, d2: Delivery, now1: int, now2: int)
    requires Keyed(m) && m.kind.None? && m.id.value !in st.processed
    ensures var h := HandleMessage(st, m, d1, now1);
            && h.crashed && h.store.messages == st.messages
            && HandleMessage(h.store, m, d2, now2) == Handled(h.store, [], false)
  {
  }

  /** Handling a message keeps every stored session well formed. */
  lemma HandleKeepsSessionsWellFormed(st: Store, m: Inbound, d: Delivery, now: int)
    requires Engine.SessionsWellFormed(st)
    ensures Engine.SessionsWellFormed(HandleMessage(st, m, d, now).store)
  {
    if Answers(st, m) {
      var waId := m.from.value;
      var body := Text.Strip(m.body.GetOr(""));
      var st2 := AddMessage(Claimed(st, m, now), waId, In, "text", body, m.id, now);
      assert st2.sessions == st.sessions;
      assert HandleMessage(st, m, d, now) == BotTurn(st2, waId, body, d, now);
      Engine.NextReplyKeepsSessionsWellFormed(st2, waId, body, EngineClock(now));
    }
  }

  /** A whole request keeps every stored session well formed, even when it fails. */
  lemma {:induction false} ProcessKeepsSessionsWellFormed(st: Store, msgs: seq<Inbound>, send: nat -> Delivery, base: nat, now: int)
    requires Engine.SessionsWellFormed(st)
    ensures Engine.SessionsWellFormed(Process(st, msgs, send, base, now).store)
    decreases |msgs|
  {
    if msgs != [] {
      var h := HandleMessage(st, msgs[0], send(base), now);
      HandleKeepsSessionsWellFormed(st, msgs[0], send(base), now);
      if !h.crashed {
        ProcessKeepsSessionsWellFormed(h.store, msgs[1..], send, base + 1, now);
      }
    }
  }

  /** Every message of the payload carries a truthy `from` and `id`. */
  predicate AllKeyed(msgs: seq<Inbound>) {
    forall i :: 0 <= i < |msgs| ==> Keyed(msgs[i])
  }

  /** A request that answers 200 has claimed the id of every keyed message. */
  lemma {:induction false} ProcessClaimsAll(st: Store, msgs: seq<Inbound>, send: nat -> Delivery, base: nat, now: int)
    requires AllKeyed(msgs)
    requires Process(st, msgs, send, base, now).status == 200
    ensures forall i :: 0 <= i < |msgs| ==> msgs[i].id.value in Process(st, msgs, send, base, now).store.processed
    decreases |msgs|
  {
    if msgs != [] {
      var h := HandleMessage(st, msgs[0], send(base), now);
      var rest := Process(h.store, msgs[1..], send, base + 1, now);
      assert AllKeyed(msgs[1..]) by {
        forall i | 0 <= i < |msgs| - 1 ensures Keyed(msgs[1..][i]) {
          assert msgs[1..][i] == msgs[i + 1];
        }
      }
      ProcessClaimsAll(h.store, msgs[1..], send, base + 1, now);
      forall i | 0 <= i < |msgs|
        ensures msgs[i].id.value in rest.store.processed
      {
        if i > 0 {
          assert msgs[i] == msgs[1..][i - 1];
        }
      }
    }
  }

  /** A payload whose keyed messages were all claimed is skipped entirely. */
  lemma {:induction false} ClaimedPayloadSkipped(st: Store, msgs: seq<Inbound>, send: nat -> Delivery, base: nat, now: int)
    requires AllKeyed(msgs)
    requires forall i :: 0 <= i < |msgs| ==> msgs[i].id.value in st.processed
    ensures Process(st, msgs, send, base, now) == Response(200, st, [])
    decreases |msgs|
  {
    if msgs != [] {
      assert Keyed(msgs[0]);
      DuplicateSkipped(st, msgs[0], send(base), now);
      forall i | 0 <= i < |msgs| - 1
        ensures Keyed(msgs[1..][i]) && msgs[1..][i].id.value in st.processed
      {
        assert msgs[1..][i] == msgs[i + 1];
      }
      ClaimedPayloadSkipped(st, msgs[1..], send, base + 1, now);
    }
  }

  /** WhatsApp redelivering a payload that was fully accepted (200) changes nothing
      and sends nothing, when every message carries `from` and `id`. */
  lemma RedeliveredPayloadIsNoOp(st: Store, msgs: seq<Inbound>, send1: nat -> Delivery, send2: nat -> Delivery, now1: int, now2: int)
    requires AllKeyed(msgs)
    requires Process(st, msgs, send1, 0, now1).status == 200
    ensures var r := Process(st, msgs, send1, 0, now1);
            Process(r.store, msgs, send2, 0, now2) == Response(200, r.store, [])
  {
    ProcessClaimsAll(st, msgs, send1, 0, now1);
    ClaimedPayloadSkipped(Process(st, msgs, send1, 0, now1).store, msgs, send2, 0, now2);
  }

  // ------------------------------------------------------------- pause / resume

  /** `inbox_pause`: the human takes over the conversation. */
  function InboxPause(st: Store, waId: string, now: int): (r: Store)
    ensures GetPauseBot(r, waId)
    ensures r.sessions - {waId} == st.sessions - {waId}
    ensures r == st.(sessions := r.sessions)
  {
    SetPauseBot(st, waId, true, now)
  }

  /** `inbox_resume`: the bot answers again. */
  function InboxResume(st: Store, waId: string, now: int): (r: Store)
    ensures !GetPauseBot(r, waId)
    ensures r.sessions - {waId} == st.sessions - {waId}
    ensures r == st.(sessions := r.sessions)
  {
    SetPauseBot(st, waId, false, now)
  }

  /** After `inbox_pause`, the bot stays silent on every fresh text message from
      that contact, and the message is still logged. */
  lemma PauseSilencesBot(st: Store, waId: string, m: Inbound, d: Delivery, now: int, later: int)
    requires m.from == Some(waId) && m.kind == Some("text")
    requires !Duplicate(InboxPause(st, waId, now), m)
    ensures var h := HandleMessage(InboxPause(st, waId, now), m, d, later);
            h.sent == [] && |h.store.messages| == |st.messages| + 1
  {
    PausedNoReply(InboxPause(st, waId, now), m, d, later);
  }

  /** After `inbox_resume`, the bot answers a fresh text message from that contact. */
  lemma ResumeRestoresBot(st: Store, waId: string, m: Inbound, d: Delivery, now: int, later: int)
    requires m.from == Some(waId) && m.kind == Some("text")
    requires !Duplicate(InboxResume(st, waId, now), m)
    ensures |HandleMessage(InboxResume(st, waId, now), m, d, later).sent| == 1
  {
  }

  // ------------------------------------------------------------- webhook_verify

  /** `webhook_verify`: the challenge when the mode is "subscribe", the token equals
      the configured VERIFY_TOKEN and the challenge is non-empty; None is the 403. */
  function WebhookVerify(mode: Option<string>, token: Option<string>, challenge: Option<string>, verifyToken: Option<string>): (r: Option<string>)
    ensures r.Some? ==> Some(r.value) == challenge && r.value != ""
  {
    if mode == Some("subscribe") && token == verifyToken && Truthy(challenge) then challenge else None
  }

  /** The handshake succeeds exactly under the three conditions, and echoes the challenge. */
  lemma VerifyAcceptsIff(mode: Option<string>, token: Option<string>, challenge: Option<string>, verifyToken: Option<string>)
    ensures WebhookVerify(mode, token, challenge, verifyToken).Some?
            <==> (mode == Some("subscribe") && token == verifyToken && challenge.Some? && challenge.value != "")
  {
  }

  /** With VERIFY_TOKEN unset, a request that omits `hub.verify_token` passes the
      token comparison (None equals None). */
  lemma UnsetTokenAcceptsMissingToken(challenge: string)
    requires challenge != ""
    ensures WebhookVerify(Some("subscribe"), None, Some(challenge), None) == Some(challenge)
  {
  }

  // ----------------------------------------------------------------- inbox_send

  /** The outcome of `inbox_send`: 200 ("sent"), 400 (empty text) or 502 (send failed). */
  datatype InboxResult = InboxResult(status: int, store: Store, sent: seq<Sent>)

  /** `inbox_send`: a human's message, stripped; refused before sending when empty,
      otherwise sent and logged as out-human, and parked in the outbox with a 502 when
      the send failed. */
  function InboxSend(st: Store, waId: string, text: Option<string>, d: Delivery, now: int): (r: InboxResult)
    ensures r.status == 400 <==> Text.Strip(text.GetOr("")) == ""
    ensures r.status == 400 ==> r.store == st && r.sent == []
    ensures r.status != 400 ==> r.sent == [Sent(waId, Text.Strip(text.GetOr("")))]
    ensures r.status != 400 ==> r.store.messages == st.messages + [Message(waId, OutHuman, "text", Text.Strip(text.GetOr("")), None, now)]
    ensures r.status == 502 <==> r.status != 400 && d.status >= 400
    ensures r.status == 200 || r.status == 400 || r.status == 502
    ensures |r.store.outbox| == |st.outbox| + (if r.status == 502 then 1 else 0)
    ensures r.status == 502 ==> r.store.outbox[|st.outbox|] == Outboxed(waId, Text.Strip(text.GetOr("")), Some(d.response), now)
    ensures r.store.sessions == st.sessions && r.store.orders == st.orders && r.store.processed == st.processed
  {
    var t := Text.Strip(text.GetOr(""));
    if t == "" then InboxResult(400, st, [])
    else
      var st1 := AddMessage(st, waId, OutHuman, "text", t, None, now);
      if d.status >= 400 then InboxResult(502, AddOutbox(st1, waId, t, Some(d.response), now), [Sent(waId, t)])
      else InboxResult(200, st1, [Sent(waId, t)])
  }

  /** A text of whitespace only is refused like a missing one, and nothing is sent. */
  lemma BlankInboxTextRefused(st: Store, waId: string, text: string, d: Delivery, now: int)
    requires forall i :: 0 <= i < |text| ==> Text.IsSpace(text[i])
    ensures InboxSend(st, waId, Some(text), d, now) == InboxResult(400, st, [])
  {
    Text.StripIsSlice(text);
    var i, j :| 0 <= i <= j <= |text| && Text.Strip(text) == text[i..j]
                && (forall k :: 0 <= k < i ==> Text.IsSpace(text[k]))
                && (forall k :: j <= k < |text| ==> Text.IsSpace(text[k]));
    Text.StripTrimmed(text);
  }

  // ----------------------------------------------------------- products API

  /** A Python value as `_404_if_none` inspects it: None, a bool, an int, a float, a
      str, a list/tuple/set/dict of some size, or any other object (a row dict is a
      collection). */
  datatype PyValue =
    | PyNone | PyBool(b: bool) | PyInt(i: int) | PyFloat(x: real) | PyStr(s: string)
    | PyCollection(size: nat) | PyOther

  /** Python's truthiness, the reference the helper is compared against. */
  predicate PyTruthy(v: PyValue) {
    match v
    case PyNone => false
    case PyBool(b) => b
    case PyInt(i) => i != 0
    case PyFloat(x) => x != 0.0
    case PyStr(t) => t != ""
    case PyCollection(n) => n > 0
    case PyOther => true
  }

  /** `_404_if_none`: None for the 404 (None, an empty list/tuple/set/dict, or an int
      equal to 0 — `False` included, since bool is an int in Python); the value itself
      otherwise. Floats and strings are not inspected. */
  function NotFoundIfNone(v: PyValue): (r: Option<PyValue>)
    ensures r.Some? ==> r.value == v
  {
    match v
    case PyNone => None
    case PyCollection(n) => if n == 0 then None else Some(v)
    case PyInt(i) => if i == 0 then None else Some(v)
    case PyBool(b) => if !b then None else Some(v)
    case PyFloat(_) => Some(v)
    case PyStr(_) => Some(v)
    case PyOther => Some(v)
  }

  /** The helper answers 404 only for values Python treats as false, and the false
      values it lets through are exactly the empty string and the float zero. */
  lemma NotFoundOnlyIfFalsy(v: PyValue)
    ensures NotFoundIfNone(v).None? ==> !PyTruthy(v)
    ensures (!PyTruthy(v) && NotFoundIfNone(v).Some?) <==> (v == PyStr("") || v == PyFloat(0.0))
  {
  }

  /** The admin guard `require_admin_token`: 500 when ADMIN_TOKEN is not configured
      (or empty), 401 when the header is missing, empty or different; None lets the
      request through. */
  function RequireAdminToken(adminToken: Option<string>, header: Option<string>): (e: Option<int>)
    ensures e.None? <==> Truthy(adminToken) && header == adminToken
    ensures e == Some(500) <==> !Truthy(adminToken)
  {
    if !Truthy(adminToken) then Some(500)
    else if !Truthy(header) || header != adminToken then Some(401)
    else None
  }

  /** The answer of a product endpoint: the status, the row returned (if any), and the store. */
  datatype ApiResult = ApiResult(status: int, row: Option<Product>, store: Store)

  /** The text fields of `ProductUpdate`; the sixth declared field is `price_cents`. */
  const TextFields: set<string> := {"sku", "name", "description", "currency", "image_url"}

  /** `CURRENCY_PATTERN`, `^[A-Z]{3}$`: three capital ASCII letters. */
  predicate IsCurrency(t: string) {
    |t| == 3 && forall i :: 0 <= i < |t| ==> 'A' <= t[i] <= 'Z'
  }

  /** Pydantic's check of one declared field of `ProductUpdate`: null passes for every
      field; otherwise the text fields need a string, `name` one of at least one
      character and `currency` one matching the pattern, and `price_cents` an integer
      that is at least 0. */
  predicate FieldValid(k: string, v: Option<FieldValue>) {
    || v.None?
    || (&& k in TextFields && v.value.Text?
        && (k == "name" ==> |v.value.s| >= 1)
        && (k == "currency" ==> IsCurrency(v.value.s)))
    || (k == "price_cents" && v.value.Cents? && v.value.n >= 0)
  }

  /** The body validates when every declared field it sets is valid; undeclared keys
      are ignored, not refused. */
  predicate BodyValid(body: map<string, Option<FieldValue>>) {
    forall k :: k in body && k in Updatable ==> FieldValid(k, body[k])
  }

  /** `body.model_dump(exclude_unset=True)`: the declared fields the client set, a
      JSON null included; undeclared keys are gone. */
  function Dumped(body: map<string, Option<FieldValue>>): (c: map<string, Option<FieldValue>>)
    ensures forall k :: k in c <==> k in body && k in Updatable
    ensures forall k :: k in c ==> c[k] == body[k]
  {
    map k | k in body && k in Updatable :: body[k]
  }

  /** `update_product_endpoint` on the JSON object `body` the client sent (each key with
      its value, a JSON null as None): the guard, then FastAPI's validation of the path
      (`product_id >= 1`) and of the body (422), then the empty-body check on the dumped
      fields (400), then the update, with 404 when no row of the tenant has that id. */
  function UpdateProductEndpoint(st: Store, adminToken: Option<string>, header: Option<string>, slug: string, id: int,
                                 body: map<string, Option<FieldValue>>, now: int): (r: ApiResult)
    ensures r.status in {200, 400, 401, 404, 422, 500}
    ensures r.status != 200 ==> r.store == st && r.row.None?
    ensures r.status == 422 <==> RequireAdminToken(adminToken, header).None? && (id < 1 || !BodyValid(body))
    ensures r.status == 400 <==> RequireAdminToken(adminToken, header).None? && id >= 1 && BodyValid(body)
                                 && Dumped(body) == map[]
    ensures r.status == 200 <==> RequireAdminToken(adminToken, header).None? && id >= 1 && BodyValid(body)
                                 && Dumped(body) != map[] && GetProduct(st, slug, id).Some?
    ensures r.status == 200 ==> r.row.Some? && r.row.value.tenantSlug == slug && id in r.store.products && r.store.products[id] == r.row.value
    ensures r.status == 200 ==> forall k :: k in body && k in Updatable && body[k].Some? ==>
                                  k in r.row.value.columns && r.row.value.columns[k] == body[k].value
    ensures r.store == st.(products := r.store.products)
    ensures forall k :: k in st.products && k != id ==> k in r.store.products && r.store.products[k] == st.products[k]
  {
    var denied := RequireAdminToken(adminToken, header);
    if denied.Some? then ApiResult(denied.value, None, st)
    else if id < 1 || !BodyValid(body) then ApiResult(422, None, st)
    else
      var changes := Dumped(body);
      if changes == map[] then ApiResult(400, None, st)
      else
        var u := UpdateProduct(st, slug, id, changes, now);
        if u.row.None? then ApiResult(404, None, u.store) else ApiResult(200, u.row, u.store)
  }

  /** A body of undeclared keys only dumps to nothing and is refused as empty. */
  lemma UnknownKeysRefused(st: Store, adminToken: Option<string>, slug: string, id: int,
                           body: map<string, Option<FieldValue>>, now: int)
    requires Truthy(adminToken) && id >= 1
    requires forall k :: k in body ==> k !in Updatable
    ensures UpdateProductEndpoint(st, adminToken, adminToken, slug, id, body, now) == ApiResult(400, None, st)
  {
    assert Dumped(body) == map[];
  }

  /** A declared field with an invalid value (an empty name, a negative price, a
      currency off the pattern, a value of the wrong type) is refused with 422 and
      nothing is written. */
  lemma InvalidFieldRefused(st: Store, adminToken: Option<string>, slug: string, id: int,
                            body: map<string, Option<FieldValue>>, now: int, k: string)
    requires Truthy(adminToken)
    requires k in body && k in Updatable && !FieldValid(k, body[k])
    ensures UpdateProductEndpoint(st, adminToken, adminToken, slug, id, body, now) == ApiResult(422, None, st)
  {
  }

  /** A body whose declared fields are all JSON null passes the empty-body check but
      assigns nothing: the endpoint answers 200 with the stored row and writes nothing. */
  lemma NullOnlyBodyWritesNothing(st: Store, adminToken: Option<string>, slug: string, id: int,
                                  body: map<string, Option<FieldValue>>, now: int, k: string)
    requires Truthy(adminToken) && id >= 1
    requires k in body && k in Updatable
    requires forall j :: j in body ==> body[j].None?
    requires GetProduct(st, slug, id).Some?
    ensures UpdateProductEndpoint(st, adminToken, adminToken, slug, id, body, now)
            == ApiResult(200, GetProduct(st, slug, id), st)
  {
    assert k in Dumped(body);
    assert Assignments(Dumped(body)) == map[];
  }

  /** `delete_product_endpoint`: the guard, the path check, then the delete; a
      failed delete returns False, which `_404_if_none` turns into a 404. */
  function DeleteProductEndpoint(st: Store, adminToken: Option<string>, header: Option<string>, slug: string, id: int): (r: ApiResult)
    ensures r.status in {200, 401, 404, 422, 500}
    ensures r.row.None?
    ensures r.status == 200 <==> RequireAdminToken(adminToken, header).None? && id >= 1 && GetProduct(st, slug, id).Some?
    ensures r.status == 200 ==> r.store.products == st.products - {id}
    ensures r.status != 200 ==> r.store == st
    ensures GetProduct(r.store, slug, id).None? || r.status != 200
  {
    var denied := RequireAdminToken(adminToken, header);
    if denied.Some? then ApiResult(denied.value, None, st)
    else if id < 1 then ApiResult(422, None, st)
    else
      var d := DeleteProduct(st, slug, id);
      match NotFoundIfNone(PyBool(d.deleted))
      case None => ApiResult(404, None, d.store)
      case Some(_) => ApiResult(200, None, d.store)
  }

  /** Deleting twice: the first delete of an existing row answers 200, the second 404. */
  lemma DeleteTwice(st: Store, adminToken: Option<string>, slug: string, id: int)
    requires Truthy(adminToken) && id >= 1 && GetProduct(st, slug, id).Some?
    ensures var r1 := DeleteProductEndpoint(st, adminToken, adminToken, slug, id);
            r1.status == 200 && DeleteProductEndpoint(r1.store, adminToken, adminToken, slug, id) == ApiResult(404, None, r1.store)
  {
  }
}
