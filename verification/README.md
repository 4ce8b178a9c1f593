# Order bot core in Dafny

This project models the core of a WhatsApp order-intake bot for a confectioner:
- the conversation engine that walks a customer through an order (`engine.py`);
- the tables it reads and writes (`storage.py`);
- the HTTP handlers that drive both (`app.py`): the webhook handshake and delivery, the human inbox, and the product update and delete endpoints;
- three small client-side cores: the cart of the public menu (`static/menu/cart.js`, `static/menu/menu.js`), the HTML escaper of the admin page (`static/admin/products.js`), and the upload file-extension rule (`r2_client.py`).

Everything is a pure function over immutable values:
- The database is one `Storage.Store` record. It holds the dedup ledger, the session map, the order, outbox and message logs, and the product table.
- Each SQL statement is one atomic step on that record.
- Clocks are integer minutes.
- The result of sending a WhatsApp message (`send_text`) is a parameter.
- JSON text is modelled by what it parses to (`None` for malformed).

Modules:
- `Wrappers` (wrappers.dfy): `Option`.
- `Text` (text.dfy): Python's `str.strip` and `str.lower`.
- `Storage` (storage.dfy): the tables of storage.py.
- `Engine` (engine.dfy): `next_reply`, its state machine and the session loader. Replies are a `Reply` datatype whose `Render` gives the text.
- `App` (app.dfy): the handlers of app.py.
- `Cart` (cart.dfy) and `Menu` (menu.dfy): the cart page and the catalogue page.
- `Escape` (escape.dfy): `htmlEscape`.
- `Upload` (upload.dfy): `guess_ext`, with `mimetypes.guess_extension` as a function parameter.

The engine is checked against independent references:
- `Successor`/`FieldKey`/`Collected` describe the linear form.
- `SessionsWellFormed` is the invariant that every stored session holds exactly the fields of the states it passed.
- `Converse` replays a conversation on forms alone; `RunConverses` proves that the stored conversation agrees with it.

The webhook is modelled twice:
- as the loop the source writes (`App.WebhookReceive`);
- as a recursive reference (`App.Process`).

The two are proved equal.

Timeout clock: engine.py compares a naive clock with an aware timestamp, so its inactivity timeout never fires (see Findings). The webhook model runs the engine with that naive clock (`App.EngineClock`, which is `Engine.NaiveUtcNow`), as app.py does, so the webhook never times a form out (`App.WebhookResumesStaleForm`). The corrected clock (`Engine.UtcNow`) and the timeout it gives are stated at engine level by `Engine.StaleSessionTimesOut` and `Engine.StaleSessionUntouched`.

## Model

| member | source | states |
|---|---|---|
| Text.TrimStart | engine.py:75 | the leading-whitespace trim never grows the text and leaves no whitespace first |
| Text.TrimEnd | engine.py:75 | the trailing-whitespace trim never grows the text and leaves no whitespace last |
| Text.TrimStartIsSuffix | engine.py:75 | the leading trim is a suffix of the input and everything it dropped is whitespace |
| Text.TrimEndIsPrefix | engine.py:75 | the trailing trim is a prefix of the input and everything it dropped is whitespace |
| Text.Strip | engine.py:75 | `str.strip()` never grows the text and leaves no trailing whitespace |
| Text.StripTrimmed | engine.py:75 | the stripped text has whitespace at neither end |
| Text.StripIsSlice | engine.py:75 | the stripped text is a contiguous slice of the input with only whitespace around it |
| Text.StripKeeps | engine.py:75 | a text without surrounding whitespace is its own strip |
| Text.StripIdempotent | engine.py:75 | stripping twice is stripping once |
| Text.LowerChar | engine.py:76 | `lower()` on one character maps each ASCII/Latin-1 capital to its small letter (code + 32), keeps every other character, and never yields a capital |
| Text.Lower | engine.py:76 | `lower()` keeps the length and lowers each character in place |
| Text.LowerIdempotent | engine.py:76 | lowering twice is lowering once |
| Text.LowerKeeps | engine.py:76 | a text without capitals is its own lowercase form |
| Storage.MarkProcessed | storage.py:132-149 | returns true iff the message id was absent; afterwards the ledger holds exactly the old ids plus this one; a true claim records the caller's wa_id; a false claim changes nothing; no other table changes |
| Storage.MarkProcessedOnce | storage.py:132-149 | claiming an id twice yields true then false, whatever wa_id the second caller passes, and the second claim leaves the store unchanged |
| Storage.LoadSessionFull | storage.py:155-167 | None exactly for an unknown wa_id; otherwise the stored state and data with the timestamp rendered with its trailing "Z" |
| Storage.GetPauseBot | storage.py:208-213 | false for an unknown wa_id, the stored flag otherwise |
| Storage.SaveSession | storage.py:170-187 | the upsert reads back as the new state, data and a fresh timestamp; keeps the pause flag of an existing row and gives a new row pause 0; adds only this wa_id; leaves other sessions and all other tables alone |
| Storage.SaveLoadedSession | storage.py:170-187 | saving back a loaded session changes only its updated_at |
| Storage.SetPauseBot | storage.py:190-205 | afterwards the flag reads back as given; an existing row changes only its pause flag; a missing row is created as (START, "{}", now, flag); other sessions are untouched |
| Storage.SaveOrder | storage.py:219-229 | the order log grows by exactly the new row at the end; earlier rows and other tables are kept |
| Storage.AddOutbox | storage.py:235-245 | the outbox grows by exactly the new row at the end; earlier rows and other tables are kept |
| Storage.AddMessage | storage.py:251-261 | the message log grows by exactly the new row at the end; earlier rows and other tables are kept |
| Storage.Conversation | storage.py:297-305 | the reference for one contact's messages in id order: no longer than the log, and every element has that wa_id |
| Storage.ConversationAppend | storage.py:297-305 | filtering a concatenated log is concatenating the filtered parts, so id order is kept |
| Storage.ConversationMembers | storage.py:297-305 | a message is in the conversation iff it is in the log with that wa_id |
| Storage.ListMessages | storage.py:288-310 | the loop returns exactly the first `limit` messages of the contact in id order, each as its direction, type, body, WhatsApp id and "Z" timestamp; a negative LIMIT is an error |
| Storage.View | storage.py:295-299 | no contract of its own: the five selected columns of a row, with created_at rendered with its "Z"; `ListMessages` states the listing through it |
| Storage.ListedMessagesBelong | storage.py:288-310 | every listed message is a stored message of that wa_id |
| Storage.GetProduct | storage.py:338-349 | a row is returned iff one has that id and that tenant, and it is that row |
| Storage.Assignments | storage.py:375-381 | the SET list holds exactly the allowed keys present with a non-None value, each with its value |
| Storage.UpdateProduct | storage.py:374-402 | with nothing to assign: no write, and the row as get_product sees it. Otherwise only the row matching both tenant and id changes: its columns gain the assignments, updated_at becomes now, and created_at and tenant are kept. The row is returned iff it matched; other rows and tables are unchanged |
| Storage.UpdateProductColumns | storage.py:374-402 | each assigned column takes its new value, and every other column of the row keeps its old value (or stays absent) |
| Storage.DeleteProduct | storage.py:404-410 | returns true iff a row with that tenant and id existed; it removes exactly that row, and afterwards get_product finds nothing |
| Engine.Parse | engine.py:95-175 | a recognised state name is the name of the state it yields |
| Engine.ParseName | engine.py:95-175 | every state survives a round trip through its stored name |
| Engine.NaiveUtcNow | engine.py:18-19 | no contract of its own: `datetime.utcnow()`, a naive clock; `NaiveClockNeverTimesOut` states its effect |
| Engine.UtcNow | engine.py:35-40 | no contract of its own: the time-zone-aware clock the comparison at these lines needs; `StaleSessionTimesOut` states the timeout it gives |
| Engine.Elapsed | engine.py:35-40 | the age is computed exactly when clock and timestamp are both naive or both aware, and then timestamp + age = now |
| Engine.LoadStateData | engine.py:26-48 | a contact without a row loads as (START, {}) |
| Engine.SetStateData | engine.py:51-52 | the saved session reads back as the state's name and the data; the pause flag and all other sessions and tables are kept |
| Engine.Render | engine.py:58-175 | every reply the engine can give is a non-empty text |
| Engine.Answer | engine.py:74-92 | no contract of its own: the global commands first, then the state step on the stripped text and its lowercase form; `AnswerSteps` and `GlobalCommand` state both halves |
| Engine.Summary | engine.py:143-150 | no contract of its own: the summary text, with a missing value shown as Python's None and an empty or missing note as a dash; `ObsStep` states that it shows exactly the saved data |
| Engine.Step | engine.py:95-175 | a step commits iff the state is RESUMO and the lowercase text is a yes-word; it leaves the session unwritten iff the state is START and the text is no order word |
| Engine.Apply | engine.py:154-174 | the store change keeps the turn's frame (only this contact's session and the order log change, orders are only appended, pause flag kept); one order is added iff the move commits; the written session reads back as the move's state and data |
| Engine.NextReply | engine.py:74-175 | every turn keeps the frame above, and either writes nothing to sessions or saves this contact's session with the current time |
| Engine.CommandWordsDisjoint | engine.py:7-11 | the help, cancel and reset word sets are pairwise disjoint |
| Engine.AnswerSteps | engine.py:79-92 | outside the global commands the decision is the state step on the stripped text and its lowercase form |
| Engine.GlobalCommand | engine.py:75-89 | a help, cancel or reset word saves (START, {}); the reply is the cancellation text for a cancel word and the menu otherwise; the reply does not depend on the stored session |
| Engine.OrderCommittedIff | engine.py:154-162 | a turn appends an order iff the loaded state is RESUMO and the text is a yes-word (and no global command) |
| Engine.StartStep | engine.py:95-115 | in START, exactly the stripped order words save (DATA, {}) and ask for the date; the price and handoff options and any other text reply without writing anything |
| Engine.FieldStep | engine.py:118-136 | DATA, TIPO and QTD store the stripped text verbatim under their own field, keep the other fields, advance one state, and place no order |
| Engine.ObsStep | engine.py:139-151 | OBS stores "" for a no-word and the stripped text otherwise, saves RESUMO, and replies with the summary of exactly that data |
| Engine.ResumoStep | engine.py:154-171 | RESUMO always saves (START, {}); a yes-word appends exactly one order with the session's data, tipo and qtd and status AGUARDANDO_HUMANO; anything else appends nothing and returns to the menu |
| Engine.UnknownStateResets | engine.py:173-175 | an unknown stored state is reset to (START, {}) with the menu |
| Engine.MalformedDataReadsEmpty | engine.py:43-46 | unparseable data_json loads as {} |
| Engine.NaiveClockNeverTimesOut | engine.py:35-40 | as written, with the naive utcnow clock every stored session loads as stored, whatever its age |
| Engine.NaiveClockResumesDayOldForm | engine.py:35-40 | as written, a TIPO form saved at minute 0 is still resumed 24 hours later |
| Engine.StaleSessionTimesOut | engine.py:35-38 | with an aware clock, a session older than 90 minutes loads as (START, {}) and a younger one as stored |
| Engine.StaleSessionUntouched | engine.py:36-38 | the timeout reset is not written back: a stale session answered with a text START ignores leaves the store unchanged |
| Engine.LoadedFormFits | engine.py:26-48 | loading from a well-formed store yields a form whose data holds exactly the fields of its state |
| Engine.StepWritesFitting | engine.py:118-171 | from a fitting form every step writes a fitting form |
| Engine.NextReplyWritesFitting | engine.py:74-175 | from a well-formed store the session a turn writes, if any, is well formed |
| Engine.NextReplyKeepsSessionsWellFormed | engine.py:74-175 | every turn preserves the invariant that each stored session holds exactly the fields of the states it passed |
| Engine.CommittedOrderIsComplete | engine.py:156-162 | from a well-formed store a committed order carries data, tipo and qtd, this contact's id and status AGUARDANDO_HUMANO |
| Engine.Run | engine.py:74-175 | a conversation of n texts appends at most n orders and never rewrites earlier ones |
| Engine.ApplyLoads | engine.py:26-52 | at the same clock reading the next turn loads exactly the form the move left, and the order log grows by exactly the move's order |
| Engine.RunConverses | engine.py:74-175 | the stored conversation agrees with the replay on forms: same final form, same orders appended |
| Engine.ConfirmDialogue | engine.py:154-168 | from RESUMO a text whose stripped lowercase form is a yes-word ("Sim", " OK ") places the form's order and returns to (START, {}) |
| Engine.NotesDialogue | engine.py:139-168 | from OBS, a no-word then a yes-word, in any case and with any surrounding whitespace, place the form's order with an empty note |
| Engine.FieldDialogue | engine.py:118-136 | any answer that is no global command, in DATA, TIPO or QTD, is stored stripped (case kept) under the state's field and moves to the next state |
| Engine.QtdDialogue | engine.py:130-168 | from QTD with date and type collected, a quantity, a no-word and a yes-word (any case, any surrounding whitespace) place one order with the stored date and type and the stripped quantity |
| Engine.KindDialogue | engine.py:124-168 | from TIPO with the date collected, a type, a quantity, a no-word and a yes-word place one order with the date and the stripped type and quantity |
| Engine.AnswersDialogue | engine.py:118-168 | from an empty DATA form, three answers, a no-word and a yes-word place one order with the three stripped answers |
| Engine.OpenDialogue | engine.py:95-98 | from (START, {}) a text whose stripped form is an order word (matched case-sensitively) opens an empty DATA form |
| Engine.ConverseOrder | engine.py:95-168 | on forms, the six-message order dialogue (yes/no words in any case, answers with any surrounding whitespace) places exactly one order carrying the three stripped answers and ends in (START, {}) |
| Engine.OrderConversation | engine.py:74-175 | a contact without a session who sends the six-message dialogue (all at one clock reading) gets exactly one new order with the three stripped answers, and the session then loads as (START, {}); yes/no words may be in any case |
| App.Keyed | app.py:146 | no contract of its own: a message takes part in deduplication iff both `from` and `id` are truthy; `UnkeyedBypassesDedup` states the other case |
| App.Duplicate | app.py:146-147 | no contract of its own: a keyed message whose id is already claimed; `DuplicateSkipped` states that it is skipped |
| App.PayloadMessages | app.py:136-140 | no contract of its own: the messages of the payload in the order of the nested loops; `WebhookReceive` states that the loop handles exactly these |
| App.EngineClock | app.py:160 | no contract of its own: `next_reply` runs with the naive `_now()`; `WebhookResumesStaleForm` states the consequence |
| App.Claimed | app.py:146 | a keyed message adds exactly its id to the ledger; an unkeyed one changes nothing; no other table changes |
| App.BotTurn | app.py:160-166 | the engine's reply to the body, computed with the engine's own naive clock, is sent once; it is logged as out-bot whatever the status, and added to the outbox iff the status is at least 400; sessions and orders are the engine's |
| App.HandleMessage | app.py:141-176 | the ledger only grows and holds every keyed id afterwards; sessions and orders change only when the bot answers, and then only the sender's session and at most one order appended; at most one message is sent; products are untouched |
| App.Process | app.py:136-178 | a request answers 200 or 500; it only grows the ledger, sends at most one message per inbound message, and appends at most one order per message |
| App.WebhookReceive | app.py:131-178 | the loop over the payload's messages computes exactly the recursive reference, including stopping with 500 at the first message that raises |
| App.ProcessStep | app.py:136-178 | from position i the request is that message's handling followed, unless it raised, by the rest |
| App.DuplicateSkipped | app.py:145-147 | a message whose from and id were already claimed is skipped entirely: no write, nothing sent |
| App.RedeliveryIsNoOp | app.py:145-147 | delivering the same keyed message twice: the second delivery changes nothing and sends nothing |
| App.UnkeyedBypassesDedup | app.py:146-153 | a message lacking a truthy from or id leaves the ledger alone and, with a sender and a type, is logged every time |
| App.MissingSenderCrashes | app.py:150-171 | a message without from raises at its first log write, leaving the store as it was |
| App.InboundLoggedFirst | app.py:150-153 | a fresh text message is logged first as inbound, with its stripped body and WhatsApp id |
| App.PausedNoReply | app.py:153-157 | when the contact is paused: no engine turn, nothing sent, sessions, orders and outbox unchanged, one log row |
| App.ActiveReplies | app.py:160-166 | when not paused, exactly the engine's reply (naive clock) to the stripped body is sent and logged as out-bot; the outbox grows iff the status is at least 400, with that reply |
| App.WebhookResumesStaleForm | app.py:153-160 | as written, the engine's turn for a fresh text message loads the sender's stored form however old it is |
| App.NonTextAnswered | app.py:169-176 | a non-text message is logged with the placeholder body and answered with the fixed text, with no pause check and no engine turn |
| App.UntypedMessageIsLost | app.py:169-172 | a keyed message without a type raises after its id was claimed, so a redelivery skips it and it is never logged |
| App.HandleKeepsSessionsWellFormed | app.py:150-166 | handling any message preserves the session invariant |
| App.ProcessKeepsSessionsWellFormed | app.py:136-178 | a whole request preserves the session invariant, even when it fails |
| App.ProcessClaimsAll | app.py:140-147 | a request answered with 200 has claimed the id of every keyed message |
| App.ClaimedPayloadSkipped | app.py:140-147 | a payload whose messages were all claimed changes nothing and sends nothing |
| App.RedeliveredPayloadIsNoOp | app.py:136-178 | redelivering a fully accepted payload of keyed messages changes nothing and sends nothing |
| App.InboxPause | app.py:261-264 | afterwards the contact is paused, and no other session changes |
| App.InboxResume | app.py:267-270 | afterwards the contact is not paused, and no other session changes |
| App.PauseSilencesBot | app.py:261-264 | after a pause the bot sends nothing to a fresh text message, which is still logged |
| App.ResumeRestoresBot | app.py:267-270 | after a resume the bot answers a fresh text message from that contact with exactly one message |
| App.WebhookVerify | app.py:112-125 | an accepted handshake echoes the challenge, which is non-empty |
| App.VerifyAcceptsIff | app.py:118 | the handshake succeeds iff mode is "subscribe", the token equals VERIFY_TOKEN and the challenge is non-empty |
| App.UnsetTokenAcceptsMissingToken | app.py:115-118 | with VERIFY_TOKEN unset, a request without a token passes the comparison |
| App.InboxSend | app.py:243-258 | 400 iff the stripped text is empty, with nothing written or sent; otherwise the text is sent and logged as out-human, and a send status of at least 400 gives 502 and one outbox row; sessions, orders and ledger are untouched |
| App.BlankInboxTextRefused | app.py:245-248 | a whitespace-only text is refused like a missing one |
| App.NotFoundIfNone | app.py:415-426 | a value that passes is returned unchanged |
| App.NotFoundOnlyIfFalsy | app.py:415-426 | the helper answers 404 only for Python-false values (None, an empty list/tuple/set/dict, 0, False), and the false values it lets through are exactly "" and 0.0 |
| App.RequireAdminToken | app.py:380-387 | the request passes iff ADMIN_TOKEN is set and the header equals it; 500 iff ADMIN_TOKEN is unset or empty |
| App.IsCurrency | app.py:393 | no contract of its own: `^[A-Z]{3}$`, three capital ASCII letters; `InvalidFieldRefused` states its use |
| App.FieldValid | app.py:403-410 | no contract of its own: the field rules of `ProductUpdate` (null allowed, text fields are strings, name non-empty, currency on the pattern, price_cents an integer >= 0); `InvalidFieldRefused` states the 422 |
| App.BodyValid | app.py:403-410 | no contract of its own: every declared field the body sets passes its rule, undeclared keys are ignored |
| App.Dumped | app.py:492 | `model_dump(exclude_unset=True)` keeps exactly the declared keys the client sent, with their values, nulls included |
| App.UpdateProductEndpoint | app.py:482-500 | 422 iff the guard passes and the id is below 1 or a declared field is invalid; 400 iff the body is otherwise valid but sets no declared field; 200 iff it sets one and the tenant has that row, and then the stored row is returned with every non-null sent field written; nothing is written on any failure; other rows are untouched |
| App.UnknownKeysRefused | app.py:492-494 | a body of undeclared keys only is refused with 400 "Corpo vazio" and writes nothing |
| App.InvalidFieldRefused | app.py:403-410 | a declared field with an invalid value makes the request a 422 that writes nothing |
| App.NullOnlyBodyWritesNothing | app.py:492-496 | a body whose declared fields are all null passes the empty-body check, writes nothing and returns the stored row |
| App.DeleteProductEndpoint | app.py:505-521 | 200 iff the guard passes, id >= 1 and the tenant has that row, and then exactly that row is gone; any other status leaves the store unchanged |
| App.DeleteTwice | app.py:505-517 | deleting an existing row answers 200, and deleting it again answers 404 |
| Cart.GetCart | static/menu/cart.js:27-30 | a stored array is returned as stored; missing, unparseable or non-array data is the empty cart (shared with menu.js) |
| Cart.GetSetCart | static/menu/cart.js:27-33 | reading back what setCart wrote gives the same cart |
| Cart.SetCart | static/menu/cart.js:31-34 | no contract of its own: the cart stored as a JSON array; `GetSetCart` states the round trip |
| Cart.LineCents | static/menu/cart.js:41 | no contract of its own: price x qty with each read as 0 when missing |
| Cart.Subtotal | static/menu/cart.js:40-43 | no contract of its own: the reference sum; `ComputeTotals` proves the loop equals it and `SubtotalAppend`/`SubtotalUpdate` state its algebra |
| Cart.ComputeTotals | static/menu/cart.js:40-43 | the reduce loop computes the sum of price x qty with missing values read as 0, and the total equals the subtotal |
| Cart.SubtotalAppend | static/menu/cart.js:41 | the subtotal of two carts side by side is the sum of their subtotals |
| Cart.SubtotalNonNegative | static/menu/cart.js:41 | a cart without negative prices or quantities has a non-negative subtotal |
| Cart.SubtotalUpdate | static/menu/cart.js:41 | changing one entry changes the subtotal by the difference of its line amounts |
| Cart.RowVersusLine | static/menu/cart.js:41-60 | the row amount and the totals' line agree iff the quantity is non-zero or the price is zero; a missing or 0 quantity makes the row show one unit's price and the totals count nothing |
| Cart.RowCents | static/menu/cart.js:60 | no contract of its own: the row amount, reading a missing quantity as 1; `RowVersusLine` compares it with the totals |
| Cart.Pressed | static/menu/cart.js:127-128 | the new quantity is at least 1: for "+", one more than the stored quantity (a missing or 0 one read as 1); for "−", one less from 2 upwards, and 1 from 2 or below |
| Cart.Bump | static/menu/cart.js:123-130 | only the item at a valid index changes, and only its quantity; any other index leaves the cart as it was |
| Cart.IncThenDec | static/menu/cart.js:124-129 | "+" then "−" on a positive quantity restores the cart |
| Cart.DecAtOneStays | static/menu/cart.js:124-129 | "−" on a quantity of 1 leaves the cart unchanged |
| Cart.IncAddsPrice | static/menu/cart.js:124-129 | "+" on a positive quantity adds the item's price to the subtotal |
| Cart.SpliceStart | static/menu/cart.js:134 | splice's start is the index itself when it is non-negative, counts from the end when negative, and is clamped at 0 |
| Cart.Remove | static/menu/cart.js:131-136 | splice(i, 1) removes one item when its start lies inside the cart and nothing otherwise |
| Cart.RemoveExactly | static/menu/cart.js:131-136 | removing index i deletes exactly that item: earlier items stay in place, later ones move up by one, and the multiset loses only that item |
| Cart.RemoveMinusOne | static/menu/cart.js:132-134 | index -1 removes the last item |
| Cart.RemoveSubtotal | static/menu/cart.js:131-136 | removing an item takes its line out of the subtotal |
| Cart.SkipSpace | static/menu/cart.js:146 | parseInt's whitespace skip never grows the text and leaves no JavaScript whitespace first |
| Cart.LeadingDigits | static/menu/cart.js:146 | the longest prefix of decimal digits: a prefix, all digits, followed by a non-digit or the end |
| Cart.ParseInt | static/menu/cart.js:146 | parseInt gives NaN iff no digit follows the whitespace and optional sign |
| Cart.Decimal | static/menu/cart.js:146 | the decimal rendering of a number is a non-empty string of digits |
| Cart.DecimalValue | static/menu/cart.js:146 | the digits of a number's decimal rendering read back as that number |
| Cart.AllDigitsLead | static/menu/cart.js:146 | a string of digits is its own longest digit prefix |
| Cart.ParseIntDecimal | static/menu/cart.js:146 | parseInt reads back the decimal rendering of every natural number |
| Cart.Typed | static/menu/cart.js:146 | a typed quantity, when it is a number, is at least 1 |
| Cart.TypedEmpty | static/menu/cart.js:146 | an empty field counts as 1 |
| Cart.TypedNumber | static/menu/cart.js:146 | typing a positive number stores that number |
| Cart.TypedGarbage | static/menu/cart.js:146-147 | typing non-empty text with no digits after the whitespace and sign leaves an item the totals count as nothing |
| Cart.OnQtyInput | static/menu/cart.js:140-150 | only the item at a valid index changes, and only its quantity, to the typed value |
| Cart.DigitsOnly | static/menu/cart.js:68 | the phone filter keeps only decimal digits and never grows the text |
| Cart.DigitsOnlyKeeps | static/menu/cart.js:68 | a string of digits is kept whole |
| Cart.DigitsOnlyIdempotent | static/menu/cart.js:68 | filtering twice is filtering once |
| Cart.SendLink | static/menu/cart.js:67-92 | the link is enabled iff the cart is non-empty, and is "#" iff it is empty; otherwise it is wa.me to the phone's digits (or to no number) with the text |
| Menu.CartCount | static/menu/menu.js:54 | no contract of its own: the reference count; `UpdateCartCount` proves the loop equals it |
| Menu.UpdateCartCount | static/menu/menu.js:52-56 | the reduce loop computes the sum of the quantities, with a missing one read as 0 |
| Menu.CartCountAppend | static/menu/menu.js:54 | the count of two carts side by side is the sum of their counts |
| Menu.CartCountSingle | static/menu/menu.js:54 | a one-item cart counts its quantity |
| Menu.FindIndex | static/menu/menu.js:59 | the index found is the first entry with that id; None iff no entry has it |
| Menu.NewEntry | static/menu/menu.js:62-71 | no contract of its own: the entry for a new product; `AddNew` states its fields |
| Menu.AddToCart | static/menu/menu.js:57-73 | adding keeps the length or grows it by one, and when it grows the old entries keep their places |
| Menu.AddExisting | static/menu/menu.js:59-61 | a product already present: its first entry gains one unit, the length and every other entry unchanged |
| Menu.AddNew | static/menu/menu.js:62-71 | a new product: one entry appended with its id, name and price, quantity 1, and "" for a missing image or sku |
| Menu.AddKeepsDistinct | static/menu/menu.js:59-71 | adding keeps the cart's ids distinct |
| Menu.AddCountsOne | static/menu/menu.js:57-73 | every add raises the cart count by exactly one |
| Menu.Shown | static/menu/menu.js:91 | no contract of its own: a product is drawn unless it names another tenant; `VisibleMembers` states the filter through it |
| Menu.Visible | static/menu/menu.js:89-91 | the drawn products are no more than the listed ones, and each one is shown for the tenant |
| Menu.VisibleMembers | static/menu/menu.js:91 | a product is drawn iff it is listed and its tenant_slug is missing, empty or the page's tenant |
| Menu.VisibleKeepsOwn | static/menu/menu.js:91 | the products of the page's own tenant are all drawn, in listed order |
| Escape.HtmlEscape | static/admin/products.js:313-320 | no contract of its own: the five replaceAll passes in source order; `HtmlEscapeIsPerChar`, `NoMarkupLeft` and `UnescapeHtmlEscape` state what it computes |
| Escape.ReplaceAll | static/admin/products.js:315 | replaceAll with a one-character pattern never shortens the text unless the replacement is empty |
| Escape.EscapeChar | static/admin/products.js:315-319 | the per-character reference: each of the five special characters becomes a longer entity, every other character is itself |
| Escape.ReplaceAllAppend | static/admin/products.js:315-319 | one replaceAll pass distributes over concatenation |
| Escape.ReplaceAllAbsent | static/admin/products.js:315-319 | a pass whose pattern does not occur leaves the text unchanged |
| Escape.ReplaceAllSingle | static/admin/products.js:315-319 | a pass on one character gives the replacement or the character |
| Escape.HtmlEscapeAppend | static/admin/products.js:313-320 | the five passes distribute over concatenation |
| Escape.LaterPassesAbsent | static/admin/products.js:316-319 | the four passes after the ampersand leave text without their patterns unchanged, so "&amp;" is not escaped again |
| Escape.EscapeAmp | static/admin/products.js:315-319 | "&" becomes "&amp;" |
| Escape.EscapeLt | static/admin/products.js:315-319 | "<" becomes "&lt;" and its ampersand is not escaped again |
| Escape.EscapeGt | static/admin/products.js:315-319 | ">" becomes "&gt;" |
| Escape.EscapeQuot | static/admin/products.js:315-319 | a double quote becomes "&quot;" |
| Escape.EscapeApos | static/admin/products.js:315-319 | a single quote becomes "&#039;" |
| Escape.EscapePlain | static/admin/products.js:315-319 | any other character is copied unchanged |
| Escape.HtmlEscapeChar | static/admin/products.js:313-320 | on one character the five passes give that character's entity |
| Escape.HtmlEscapeIsPerChar | static/admin/products.js:313-320 | htmlEscape equals the character-by-character escape |
| Escape.EscapedAppend | static/admin/products.js:313-320 | the per-character escape distributes over concatenation |
| Escape.NoMarkupLeft | static/admin/products.js:313-320 | the output of htmlEscape contains no '<', '>', '"' or "'" |
| Escape.EscapedNoMarkup | static/admin/products.js:313-320 | the per-character escape contains no markup character |
| Escape.EscapedLength | static/admin/products.js:313-320 | the output is never shorter than the input, and has the same length iff the input has none of the five special characters |
| Escape.EscapeKeepsPlain | static/admin/products.js:313-320 | text without special characters is returned unchanged |
| Escape.EscapedPlain | static/admin/products.js:313-320 | the per-character escape keeps text without special characters |
| Escape.UnescapeAmp | static/admin/products.js:315 | decoding "&amp;" in front gives "&" |
| Escape.UnescapeLt | static/admin/products.js:316 | decoding "&lt;" in front gives "<" |
| Escape.UnescapeGt | static/admin/products.js:317 | decoding "&gt;" in front gives ">" |
| Escape.UnescapeQuot | static/admin/products.js:318 | decoding "&quot;" in front gives a double quote |
| Escape.UnescapeApos | static/admin/products.js:319 | decoding "&#039;" in front gives a single quote |
| Escape.UnescapePlain | static/admin/products.js:314-319 | a non-special character in front is decoded as itself |
| Escape.UnescapeStep | static/admin/products.js:315-319 | decoding one character's entity in front of the rest yields that character |
| Escape.UnescapeHtmlEscape | static/admin/products.js:313-320 | decoding the escaped text gives the input back, so escaping is injective |
| Escape.UnescapeEscaped | static/admin/products.js:313-320 | decoding the per-character escape gives the input back |
| Upload.LastDot | r2_client.py:39 | the position found holds a '.' with no '.' after it; None iff the name has no '.' |
| Upload.Suffix | r2_client.py:39 | the text after the last dot holds no '.' |
| Upload.GuessExt | r2_client.py:33-44 | a name with a dot gives "." plus its lowercased suffix; without a dot, a non-empty content type with a non-empty registry answer gives that answer |
| Upload.LowerKeepsDots | r2_client.py:39 | lowercasing neither creates nor removes dots |
| Upload.ExtensionOfName | r2_client.py:38-39 | with the last dot at i, the result is "." plus the lowercased text after i: one leading dot, no other dot, no capital |
| Upload.NameBeatsContentType | r2_client.py:38-43 | the content type and the registry play no part once the name has a dot |
| Upload.ContentTypeFallback | r2_client.py:40-44 | without a dot, the result is the registry's non-empty answer for a non-empty content type, and "" in every other case |
| Upload.ExtensionStable | r2_client.py:38-39 | an extension taken from a name is a fixed point: asked about itself, the rule returns it unchanged |

## Left out

- HTTP and transport: FastAPI routing, the admin middleware, static mounts, the request/response JSON and `send_text`'s POST to the Graph API. The send outcome is a parameter (`App.Delivery`); a send that raises is status 500 with the error text.
- The database engine, pool and SQL text, and `db.py`: tables are maps and sequences, and each statement is one atomic step. Concurrency and races between requests are not modelled.
- Database constraints other than the NOT NULL columns of `messages`: the `wa_id`/`msg_type` violations are what make a message raise.
- JSON encoding of `data_json` and of the cart: a stored value is modelled by what it parses to, with a separate case for malformed text.
- ISO-8601 parsing and the real clock: times are whole minutes. A timestamp that cannot be compared with the clock is the `None` of `Engine.Elapsed`.
- Engine.LoadStateData: its contract states only the missing-row case; the timeout and malformed-JSON cases are proved by `StaleSessionTimesOut`, `NaiveClockNeverTimesOut` and `MalformedDataReadsEmpty`.
- Engine.Render: the reply texts are the source's constants; the contract states only that each is non-empty. Which reply each state gives is stated by the step lemmas.
- Text.Lower: lowercases ASCII and Latin-1 capitals only; other Unicode case mappings of Python's `str.lower` are not modelled.
- App.WebhookVerify: the `int(challenge)` conversion of the returned challenge is not modelled; the challenge is returned as text.
- App.UpdateProductEndpoint: the body is a JSON object of text and integer values. Pydantic's lax coercions (a numeric string accepted for price_cents), other JSON types (booleans, floats, nested values) and a body that is missing or not an object (422) are not modelled.
- JavaScript numbers are modelled as unbounded integers: prices, quantities and their products above 2^53 would round in the browser, and `parseInt` of a very long digit string gives a rounded value or Infinity. `Cart.ComputeTotals`, `Cart.ParseInt` and `Menu.UpdateCartCount` are exact where the browser is not.
- App.HandleMessage: a text message whose `text` object holds a null `body` (which raises in the source) is treated like a missing body.
- `list_products`, `count_products`, `create_product`, `list_conversations`, the other product and order routes, the CSV export, and the upload routes of app.py.
- `r2.py`, `presign_put_url` and `build_public_url`: wrappers over boto3 and `urllib.quote`.
- Floating-point money formatting (`centsToBRL`, `toLocaleString`, `toFixed`) and all of `static/menu/product.js`.
- Browser plumbing: DOM rendering, `localStorage` access, `fetch` and `encodeURIComponent` (the encoded order text is a parameter of `Cart.SendLink`).
- Cart ids and indices are integers: `Number()` of a non-numeric id or a non-integer `data-index` is not modelled, and cart entries are objects (null array elements are not).

## Findings

| source | as written | input that shows it | evidently intended | confidence | as-written member | corrected member |
|---|---|---|---|---|---|---|
| engine.py:35-40 | `_now()` is the naive `datetime.utcnow()` (engine.py:19), while `updated_at` is stored with a trailing "Z" (storage.py:162). On Python 3.11+ the subtraction of a naive and an aware datetime raises TypeError; older versions fail to parse "Z" at all. The `except` swallows either error, so the 90-minute timeout never fires. | a session (TIPO, {"data": "15/02"}) saved at minute 0 and a message at minute 1440: the form is resumed at TIPO | sessions idle for more than 90 minutes restart at (START, {}) | high, not executed | Engine.NaiveClockResumesDayOldForm | Engine.StaleSessionTimesOut |
