/** The database layer of the bot (storage.py) as pure operations on one immutable
    record. Every SQL statement of the source is one atomic step here: an upsert is a
    map update, an INSERT into a BIGSERIAL table is an append (row id = position + 1),
    and `datetime.now(timezone.utc)` is the parameter `now`, in whole minutes. */
module Storage {
  import opened Wrappers

  /** One row of `sessions`. `dataJson` is the JSON text as it parses: None when
      `json.loads` rejects it. `updatedAt` is the TIMESTAMPTZ in minutes. */
  datatype SessionRow = SessionRow(state: string, dataJson: Option<map<string, string>>, updatedAt: int, pauseBot: bool)

  /** `updated_at` as `load_session_full` renders it: the instant, and whether the
      text carries the trailing "Z" of the to_char pattern. */
  datatype Stamp = Stamp(minute: int, zulu: bool)

  /** The tuple `(state, data_json, updated_at)` of `load_session_full`. */
  datatype SessionView = SessionView(state: string, dataJson: Option<map<string, string>>, updatedAt: Stamp)

  /** One row of `processed_messages`, keyed by message id. */
  datatype Processed = Processed(waId: string, createdAt: int)

  /** One row of `orders`; the three form fields are nullable columns. */
  datatype Order = Order(waId: string, data: Option<string>, tipo: Option<string>, qtd: Option<string>, status: string, createdAt: int)

  /** One row of `outbox`: a message that could not be delivered. */
  datatype Outboxed = Outboxed(waId: string, message: string, reason: Option<string>, createdAt: int)

  /** The `direction` column of `messages`: 'in', 'out-bot' or 'out-human'. */
  datatype Direction = In | OutBot | OutHuman

  /** One row of `messages`. */
  datatype Message = Message(waId: string, direction: Direction, msgType: string, body: string, waMessageId: Option<string>, createdAt: int)

  /** A value of a product column: text columns and `price_cents`. */
  datatype FieldValue = Text(s: string) | Cents(n: int)

  /** One row of `products` (its id is the key of `Store.products`). The optional
      columns sku..image_url hold a value exactly when they are not NULL. */
  datatype Product = Product(tenantSlug: string, columns: map<string, FieldValue>, createdAt: int, updatedAt: int)

  /** All tables together. */
  datatype Store = Store(
    processed: map<string, Processed>,
    sessions: map<string, SessionRow>,
    orders: seq<Order>,
    outbox: seq<Outboxed>,
    messages: seq<Message>,
    products: map<int, Product>)

  const Empty := Store(map[], map[], [], [], [], map[])

  // ---------------------------------------------------------------- dedup ledger

  datatype Claim = Claim(inserted: bool, store: Store)

  /** `mark_processed`: INSERT ... ON CONFLICT (message_id) DO NOTHING, reporting
      whether a row was inserted. The first claim of an id wins; the wa_id of a
      later claim is ignored. */
  function MarkProcessed(st: Store, messageId: string, waId: string, now: int): (c: Claim)
    ensures c.inserted <==> messageId !in st.processed
    ensures messageId in c.store.processed
    ensures c.store.processed.Keys == st.processed.Keys + {messageId}
    ensures c.inserted ==> c.store.processed[messageId].waId == waId
    ensures !c.inserted ==> c.store == st
    ensures c.store == st.(processed := c.store.processed)
  {
    if messageId in st.processed then Claim(false, st)
    else Claim(true, st.(processed := st.processed[messageId := Processed(waId, now)]))
  }

  /** Claiming the same id twice yields true then false, whatever wa_id the second
      caller passes, and the second claim changes nothing. */
  lemma MarkProcessedOnce(st: Store, messageId: string, wa1: string, wa2: string, now1: int, now2: int)
    requires messageId !in st.processed
    ensures MarkProcessed(st, messageId, wa1, now1).inserted
    ensures var s1 := MarkProcessed(st, messageId, wa1, now1).store;
            MarkProcessed(s1, messageId, wa2, now2) == Claim(false, s1)
  {
  }

  // -------------------------------------------------------------- session store

  /** `load_session_full`: None for an unknown wa_id, otherwise the stored row with
      its timestamp rendered as 'YYYY-MM-DD"T"HH24:MI:SS.MS"Z"'. */
  function LoadSessionFull(st: Store, waId: string): (v: Option<SessionView>)
    ensures v.None? <==> waId !in st.sessions
    ensures v.Some? ==> v.value == SessionView(st.sessions[waId].state, st.sessions[waId].dataJson,
                                               Stamp(st.sessions[waId].updatedAt, true))
  {
    if waId in st.sessions then
      var row := st.sessions[waId];
      Some(SessionView(row.state, row.dataJson, Stamp(row.updatedAt, true)))
    else None
  }

  /** `get_pause_bot`: false when there is no session. */
  function GetPauseBot(st: Store, waId: string): (b: bool)
    ensures waId !in st.sessions ==> !b
    ensures waId in st.sessions ==> b == st.sessions[waId].pauseBot
  {
    waId in st.sessions && st.sessions[waId].pauseBot
  }

  /** `save_session`: upsert of state, data_json and a fresh updated_at. The
      pause flag of an existing row survives; a new row gets the column default 0. */
  function SaveSession(st: Store, waId: string, state: string, dataJson: Option<map<string, string>>, now: int): (r: Store)
    ensures LoadSessionFull(r, waId) == Some(SessionView(state, dataJson, Stamp(now, true)))
    ensures GetPauseBot(r, waId) == GetPauseBot(st, waId)
    ensures r.sessions.Keys == st.sessions.Keys + {waId}
    ensures r.sessions - {waId} == st.sessions - {waId}
    ensures r == st.(sessions := r.sessions)
  {
    var pause := waId in st.sessions && st.sessions[waId].pauseBot;
    st.(sessions := st.sessions[waId := SessionRow(state, dataJson, now, pause)])
  }

  /** Loading a session and saving it straight back changes only its timestamp. */
  lemma SaveLoadedSession(st: Store, waId: string, now: int)
    requires waId in st.sessions
    ensures var v := LoadSessionFull(st, waId).value;
            var r := SaveSession(st, waId, v.state, v.dataJson, now);
            r.sessions[waId] == st.sessions[waId].(updatedAt := now)
            && r == st.(sessions := st.sessions[waId := st.sessions[waId].(updatedAt := now)])
  {
  }

  /** `set_pause_bot`: UPDATE of pause_bot alone; when no row was updated, INSERT of
      a minimal session ('START', '{}', now, flag). */
  function SetPauseBot(st: Store, waId: string, pause: bool, now: int): (r: Store)
    ensures r.sessions.Keys == st.sessions.Keys + {waId}
    ensures GetPauseBot(r, waId) == pause
    ensures waId in st.sessions ==> r.sessions[waId] == st.sessions[waId].(pauseBot := pause)
    ensures waId !in st.sessions ==> r.sessions[waId] == SessionRow("START", Some(map[]), now, pause)
    ensures r.sessions - {waId} == st.sessions - {waId}
    ensures r == st.(sessions := r.sessions)
  {
    if waId in st.sessions then st.(sessions := st.sessions[waId := st.sessions[waId].(pauseBot := pause)])
    else st.(sessions := st.sessions[waId := SessionRow("START", Some(map[]), now, pause)])
  }

  // ------------------------------------------------------------ append-only logs

  /** `save_order`: one new row at the end of `orders`. */
  function SaveOrder(st: Store, waId: string, data: Option<string>, tipo: Option<string>, qtd: Option<string>, status: string, now: int): (r: Store)
    ensures |r.orders| == |st.orders| + 1
    ensures r.orders[..|st.orders|] == st.orders
    ensures r.orders[|st.orders|] == Order(waId, data, tipo, qtd, status, now)
    ensures r == st.(orders := r.orders)
  {
    st.(orders := st.orders + [Order(waId, data, tipo, qtd, status, now)])
  }

  /** `add_outbox`: one new row at the end of `outbox`. */
  function AddOutbox(st: Store, waId: string, message: string, reason: Option<string>, now: int): (r: Store)
    ensures |r.outbox| == |st.outbox| + 1
    ensures r.outbox[..|st.outbox|] == st.outbox
    ensures r.outbox[|st.outbox|] == Outboxed(waId, message, reason, now)
    ensures r == st.(outbox := r.outbox)
  {
    st.(outbox := st.outbox + [Outboxed(waId, message, reason, now)])
  }

  /** `add_message`: one new row at the end of `messages`. */
  function AddMessage(st: Store, waId: string, direction: Direction, msgType: string, body: string, waMessageId: Option<string>, now: int): (r: Store)
    ensures |r.messages| == |st.messages| + 1
    ensures r.messages[..|st.messages|] == st.messages
    ensures r.messages[|st.messages|] == Message(waId, direction, msgType, body, waMessageId, now)
    ensures r == st.(messages := r.messages)
  {
    st.(messages := st.messages + [Message(waId, direction, msgType, body, waMessageId, now)])
  }

  /** The messages of one conversation, in id order (the reference for `list_messages`). */
  function Conversation(msgs: seq<Message>, waId: string): (r: seq<Message>)
    ensures |r| <= |msgs|
    ensures forall i :: 0 <= i < |r| ==> r[i].waId == waId
  {
    if msgs == [] then []
    else
      var last := msgs[|msgs| - 1];
      Conversation(msgs[..|msgs| - 1], waId) + (if last.waId == waId then [last] else [])
  }

  lemma {:induction false} ConversationAppend(a: seq<Message>, b: seq<Message>, waId: string)
    ensures Conversation(a + b, waId) == Conversation(a, waId) + Conversation(b, waId)
    decreases |b|
  {
    if b == [] {
      assert a + b == a;
    } else {
      var b' := b[..|b| - 1];
      assert (a + b)[..|a + b| - 1] == a + b';
      ConversationAppend(a, b', waId);
    }
  }

  /** A message of the conversation is one of `msgs` with that wa_id. */
  lemma {:induction false} ConversationMembers(msgs: seq<Message>, waId: string, m: Message)
    ensures m in Conversation(msgs, waId) <==> m in msgs && m.waId == waId
  {
    if msgs != [] {
      ConversationMembers(msgs[..|msgs| - 1], waId, m);
      assert msgs == msgs[..|msgs| - 1] + [msgs[|msgs| - 1]];
    }
  }

  /** The first `limit` elements of `s` (SQL LIMIT). */
  function Take<T>(s: seq<T>, limit: nat): seq<T> {
    if limit < |s| then s[..limit] else s
  }

  /** One row of `list_messages`: direction, msg_type, body, wa_message_id and
      created_at rendered with its trailing "Z". */
  datatype MessageView = MessageView(direction: Direction, msgType: string, body: string, waMessageId: Option<string>, createdAt: Stamp)

  /** The columns `list_messages` selects from a row. */
  function View(m: Message): MessageView {
    MessageView(m.direction, m.msgType, m.body, m.waMessageId, Stamp(m.createdAt, true))
  }

  function Views(ms: seq<Message>): seq<MessageView> {
    seq(|ms|, i requires 0 <= i < |ms| => View(ms[i]))
  }

  /** `list_messages`: the rows of one wa_id ordered by id, at most `limit` of them,
      each projected to the selected columns. PostgreSQL refuses a negative LIMIT,
      which is the None result. */
  method ListMessages(st: Store, waId: string, limit: int) returns (r: Option<seq<MessageView>>)
    ensures r.None? <==> limit < 0
    ensures r.Some? ==> r.value == Views(Take(Conversation(st.messages, waId), limit))
  {
    if limit < 0 {
      return None;
    }
    var acc: seq<Message> := [];
    var i := 0;
    while i < |st.messages| && |acc| < limit
      invariant 0 <= i <= |st.messages|
      invariant acc == Conversation(st.messages[..i], waId)
      invariant |acc| <= limit
    {
      var m := st.messages[i];
      assert st.messages[..i + 1][..i] == st.messages[..i];
      if m.waId == waId {
        acc := acc + [m];
      }
      i := i + 1;
    }
    assert st.messages == st.messages[..i] + st.messages[i..];
    ConversationAppend(st.messages[..i], st.messages[i..], waId);
    if i == |st.messages| {
      assert st.messages[..i] == st.messages;
    }
    return Some(Views(acc));
  }

  /** Every listed message belongs to the conversation and is stored. */
  lemma ListedMessagesBelong(st: Store, waId: string, limit: nat, m: Message)
    requires m in Take(Conversation(st.messages, waId), limit)
    ensures m in st.messages && m.waId == waId
  {
    ConversationMembers(st.messages, waId, m);
  }

  // ------------------------------------------------------------------- products

  /** The columns `update_product` may write. */
  const Updatable: set<string> := {"sku", "name", "description", "price_cents", "currency", "image_url"}

  /** `get_product`: the row with this tenant and id, if any. */
  function GetProduct(st: Store, tenantSlug: string, id: int): (p: Option<Product>)
    ensures p.Some? <==> id in st.products && st.products[id].tenantSlug == tenantSlug
    ensures p.Some? ==> p.value == st.products[id]
  {
    if id in st.products && st.products[id].tenantSlug == tenantSlug then Some(st.products[id]) else None
  }

  /** The SET list of `update_product`: allowed keys whose value is not None. */
  function Assignments(data: map<string, Option<FieldValue>>): (a: map<string, FieldValue>)
    ensures forall k :: k in a <==> k in Updatable && k in data && data[k].Some?
    ensures forall k :: k in a ==> a[k] == data[k].value
  {
    map k | k in Updatable && k in data && data[k].Some? :: data[k].value
  }

  datatype Updated = Updated(row: Option<Product>, store: Store)

  /** `update_product`: with nothing to assign, no write and the row as
      `get_product` sees it; otherwise an UPDATE of the matching row alone, whose
      RETURNING row is the result (None when no row matched). */
  function UpdateProduct(st: Store, tenantSlug: string, id: int, data: map<string, Option<FieldValue>>, now: int): (u: Updated)
    ensures Assignments(data) == map[] ==> u == Updated(GetProduct(st, tenantSlug, id), st)
    ensures GetProduct(st, tenantSlug, id).None? ==> u.store == st && u.row.None?
    ensures u.row.Some? <==> GetProduct(st, tenantSlug, id).Some?
    ensures u.store == st.(products := u.store.products)
    ensures u.store.products.Keys == st.products.Keys
    ensures forall k :: k in st.products && k != id ==> u.store.products[k] == st.products[k]
    ensures u.row.Some? ==> u.store.products[id] == u.row.value
    ensures u.row.Some? ==> (u.row.value.tenantSlug == tenantSlug
                             && u.row.value.createdAt == st.products[id].createdAt)
    ensures u.row.Some? && Assignments(data) != map[] ==>
              u.row.value.columns == st.products[id].columns + Assignments(data) && u.row.value.updatedAt == now
  {
    var a := Assignments(data);
    if a == map[] then Updated(GetProduct(st, tenantSlug, id), st)
    else if id in st.products && st.products[id].tenantSlug == tenantSlug then
      var p := st.products[id];
      var p' := p.(columns := p.columns + a, updatedAt := now);
      Updated(Some(p'), st.(products := st.products[id := p']))
    else Updated(None, st)
  }

  /** An update writes the given columns and leaves every other column of the row as it was. */
  lemma UpdateProductColumns(st: Store, tenantSlug: string, id: int, data: map<string, Option<FieldValue>>, now: int, k: string)
    requires GetProduct(st, tenantSlug, id).Some?
    ensures var p := UpdateProduct(st, tenantSlug, id, data, now).row.value;
            && (k in Updatable && k in data && data[k].Some? ==> k in p.columns && p.columns[k] == data[k].value)
            && (!(k in Updatable && k in data && data[k].Some?) ==>
                  (k in p.columns <==> k in st.products[id].columns)
                  && (k in p.columns ==> p.columns[k] == st.products[id].columns[k]))
  {
  }

  datatype Deleted = Deleted(deleted: bool, store: Store)

  /** `delete_product`: DELETE of the row with this tenant and id; true iff a row went. */
  function DeleteProduct(st: Store, tenantSlug: string, id: int): (d: Deleted)
    ensures d.deleted <==> GetProduct(st, tenantSlug, id).Some?
    ensures d.deleted ==> d.store.products.Keys == st.products.Keys - {id}
    ensures !d.deleted ==> d.store == st
    ensures d.store.products - {id} == st.products - {id}
    ensures GetProduct(d.store, tenantSlug, id).None?
    ensures d.store == st.(products := d.store.products)
  {
    if id in st.products && st.products[id].tenantSlug == tenantSlug then
      Deleted(true, st.(products := st.products - {id}))
    else Deleted(false, st)
  }
}
