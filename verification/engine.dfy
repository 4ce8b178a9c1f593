/** The order-intake conversation engine (engine.py): a finite-state machine that
    reads the stored session of one WhatsApp contact, decides the reply to one
    inbound text, and writes at most one new session and, on confirmation, one
    order. `next_reply` is modelled as a total function of the store, the contact,
    the text and the clock. */
module Engine {
  import opened Wrappers
  import Text
  import opened Storage

  // ------------------------------------------------------------------ constants

  /** Inactivity window after which a stored session counts as stale. */
  const TimeoutMinutes := 90

  const ResetWords: set<string> := {"novo", "novo pedido", "reiniciar", "recomeçar", "menu", "start", "0"}
  const CancelWords: set<string> := {"cancelar", "cancela", "parar", "sair"}
  const HelpWords: set<string> := {"ajuda", "help", "?"}

  /** START-state options; matched against the stripped text, case-sensitively. */
  const OrderWords: set<string> := {"1", "encomenda", "fazer encomenda", "quero encomendar"}
  const PriceWords: set<string> := {"2", "preço", "precos", "preços", "opções", "opcoes"}
  const HumanWords: set<string> := {"3", "humano", "atendente", "confeiteira", "falar"}

  /** Answers to the notes question meaning "no notes" (lowercased text). */
  const NoWords: set<string> := {"nao", "não", "n"}

  /** Answers confirming the summary (lowercased text). */
  const YesWords: set<string> := {"sim", "s", "ok", "pode", "confirmo", "confirmar"}

  /** Status of a freshly committed order. */
  const AwaitingHuman := "AGUARDANDO_HUMANO"

  const MenuText := "Olá! 😊 Sou o atendimento automático.\nComo posso ajudar?\n\n1) Fazer uma encomenda 🎂\n2) Ver opções/preços 💬\n3) Falar com a confeiteira 👩‍🍳\n\nDigite 1, 2 ou 3."
  const CancelText := "Tudo bem! Pedido cancelado. Se precisar, é só chamar 😊"
  const AskDateText := "Perfeito! Para qual data é a encomenda? (ex: 15/02)"
  const PriceText := "Certo! 💬 Hoje trabalhamos com:\n- Doces para festa (centena)\n- Caixas presente\n- Kits personalizados\n\nPara fazer uma encomenda, digite 1."
  const HumanText := "Perfeito! 👩‍🍳 Vou avisar a confeiteira.\nAssim que possível ela te responde por aqui. 😊"
  const AskTipoText := "É para Festa 🎉 ou Presente 🎁? (responda: festa/presente)"
  const AskQtdText := "Quantas unidades (aprox.)? (ex: 50, 100, 200)"
  const AskObsText := "Tem alguma observação? (tema, sabores, alergias, entrega/retirada).\nSe não, digite 'não'."
  const ConfirmedText := "Perfeito! ✅ Seu pedido foi registrado.\nA confeiteira vai te chamar para combinar os detalhes.\n\nSe quiser fazer outro pedido, digite 1. 😊"
  const BackToMenuText := "Sem problemas! Vamos voltar ao menu. 😊\n\n" + MenuText

  // --------------------------------------------------------------------- states

  /** The six states of the form, stored by name in `sessions.state`. */
  datatype State = Start | Data | Tipo | Qtd | Obs | Resumo

  function Name(s: State): string {
    match s
    case Start => "START"
    case Data => "DATA"
    case Tipo => "TIPO"
    case Qtd => "QTD"
    case Obs => "OBS"
    case Resumo => "RESUMO"
  }

  /** The state a stored name denotes; None for any other text. */
  function Parse(name: string): (s: Option<State>)
    ensures s.Some? ==> Name(s.value) == name
  {
    if name == "START" then Some(Start)
    else if name == "DATA" then Some(Data)
    else if name == "TIPO" then Some(Tipo)
    else if name == "QTD" then Some(Qtd)
    else if name == "OBS" then Some(Obs)
    else if name == "RESUMO" then Some(Resumo)
    else None
  }

  /** Parse inverts Name: every state survives a round trip through its stored name. */
  lemma ParseName(s: State)
    ensures Parse(Name(s)) == Some(s)
  {
  }

  // ---------------------------------------------------------------------- clock

  /** The engine's notion of "now": an instant in minutes, and whether the Python
      datetime carries a time zone. */
  datatype Clock = Clock(minute: int, aware: bool)

  /** `_now()` as written: `datetime.utcnow()`, a naive datetime. */
  function NaiveUtcNow(minute: int): Clock {
    Clock(minute, false)
  }

  /** A time-zone-aware UTC clock, `datetime.now(timezone.utc)`. */
  function UtcNow(minute: int): Clock {
    Clock(minute, true)
  }

  /** `now - datetime.fromisoformat(updated_at)` in minutes. Python refuses to
      subtract a naive datetime from an aware one (and versions before 3.11 refuse
      to parse the "Z" suffix at all), which is the None result. */
  function Elapsed(now: Clock, stamp: Stamp): (r: Option<int>)
    ensures r.Some? <==> now.aware == stamp.zulu
    ensures r.Some? ==> stamp.minute + r.value == now.minute
  {
    if now.aware == stamp.zulu then Some(now.minute - stamp.minute) else None
  }

  // ---------------------------------------------------------------- session I/O

  /** A session as the engine sees it: the stored state name and the form data. */
  datatype Form = Form(state: string, data: map<string, string>)

  const Fresh := Form("START", map[])

  /** `_load_state_data`: (START, {}) for a missing row or for one older than the
      timeout; the stored state and data otherwise, with malformed JSON read as {}.
      When the timestamp cannot be compared with the clock, the timeout is skipped. */
  function LoadStateData(st: Store, waId: string, now: Clock): (f: Form)
    ensures waId !in st.sessions ==> f == Fresh
  {
    match LoadSessionFull(st, waId)
    case None => Fresh
    case Some(v) =>
      var age := Elapsed(now, v.updatedAt);
      if age.Some? && age.value > TimeoutMinutes then Fresh
      else Form(v.state, v.dataJson.GetOr(map[]))
  }

  /** `_set_state_data`: save the state name and the data serialised as JSON. */
  function SetStateData(st: Store, waId: string, s: State, data: map<string, string>, now: Clock): (r: Store)
    ensures LoadSessionFull(r, waId) == Some(SessionView(Name(s), Some(data), Stamp(now.minute, true)))
    ensures r.sessions - {waId} == st.sessions - {waId}
    ensures GetPauseBot(r, waId) == GetPauseBot(st, waId)
    ensures r == st.(sessions := r.sessions)
  {
    SaveSession(st, waId, Name(s), Some(data), now.minute)
  }

  // ------------------------------------------------------------------ the FSM

  /** `data.get(key)`. */
  function Get(data: map<string, string>, key: string): Option<string> {
    if key in data then Some(data[key]) else None
  }

  /** `f"{data.get(key)}"`: the value, or Python's rendering of None. */
  function Show(data: map<string, string>, key: string): string {
    if key in data then data[key] else "None"
  }

  /** The confirmation summary of the OBS step; an empty or missing note shows as a dash. */
  function Summary(data: map<string, string>): string {
    var obs := if "obs" in data then data["obs"] else "";
    "Confira se está tudo certo ✅\n"
    + "- Data: " + Show(data, "data") + "\n"
    + "- Tipo: " + Show(data, "tipo") + "\n"
    + "- Quantidade: " + Show(data, "qtd") + "\n"
    + "- Obs: " + (if obs == "" then "—" else obs) + "\n\n"
    + "Posso enviar para a confeiteira? (sim/não)\n"
    + "Dica: 'não' volta ao menu e você refaz."
  }

  /** True when the lowercased text is one of the global commands. */
  predicate IsCommand(low: string) {
    low in HelpWords || low in CancelWords || low in ResetWords
  }

  /** The condition under which a turn commits an order: a confirmation word in the
      RESUMO state. */
  predicate Commits(st: Store, waId: string, text: string, now: Clock) {
    var low := Text.Lower(Text.Strip(text));
    !IsCommand(low) && LoadStateData(st, waId, now).state == "RESUMO" && low in YesWords
  }

  /** The messages the engine can answer with; `Review` carries the form whose
      summary it shows. */
  datatype Reply =
    | Menu | Cancelled | AskDate | Prices | Handoff | AskTipo | AskQtd | AskObs
    | Review(form: map<string, string>) | Confirmed | BackToMenu

  /** The text sent for a reply; never empty, so every turn answers something. */
  function Render(r: Reply): (s: string)
    ensures s != ""
  {
    match r
    case Menu => MenuText
    case Cancelled => CancelText
    case AskDate => AskDateText
    case Prices => PriceText
    case Handoff => HumanText
    case AskTipo => AskTipoText
    case AskQtd => AskQtdText
    case AskObs => AskObsText
    case Review(d) => Summary(d)
    case Confirmed => ConfirmedText
    case BackToMenu => BackToMenuText
  }

  /** The reply to one inbound text and the store after the turn. */
  datatype Turn = Turn(reply: Reply, store: Store)

  /** The frame every turn keeps: only this contact's session and the order log may
      change, the pause flag survives, and orders are only ever appended. */
  predicate Framed(st: Store, waId: string, r: Store) {
    && r == st.(sessions := r.sessions, orders := r.orders)
    && r.sessions - {waId} == st.sessions - {waId}
    && GetPauseBot(r, waId) == GetPauseBot(st, waId)
    && |st.orders| <= |r.orders| <= |st.orders| + 1
    && r.orders[..|st.orders|] == st.orders
  }

  /** What a turn does to the contact's session: leave the store alone, or save a
      state with its data. */
  datatype Write = Keep | Put(next: State, data: map<string, string>)

  /** What one turn decides before touching the store: the reply, the session
      write, and whether an order is committed from the loaded data. */
  datatype Move = Move(reply: Reply, write: Write, commit: bool)

  /** The state-dependent part of `next_reply` on the loaded form `f`; `t` is the
      stripped text and `low` its lowercase form. Only the START options leave the
      store alone, and only a confirmation in RESUMO commits. */
  function Step(f: Form, t: string, low: string): (m: Move)
    ensures m.commit <==> f.state == "RESUMO" && low in YesWords
    ensures m.write.Keep? <==> f.state == "START" && t !in OrderWords
  {
    var data := f.data;
    match Parse(f.state)
    case Some(Start) =>
      if t in OrderWords then Move(AskDate, Put(Data, map[]), false)
      else if t in PriceWords then Move(Prices, Keep, false)
      else if t in HumanWords then Move(Handoff, Keep, false)
      else Move(Menu, Keep, false)
    case Some(Data) => Move(AskTipo, Put(Tipo, data["data" := t]), false)
    case Some(Tipo) => Move(AskQtd, Put(Qtd, data["tipo" := t]), false)
    case Some(Qtd) => Move(AskObs, Put(Obs, data["qtd" := t]), false)
    case Some(Obs) =>
      var d := data["obs" := if low in NoWords then "" else t];
      Move(Review(d), Put(Resumo, d), false)
    case Some(Resumo) =>
      if low in YesWords then Move(Confirmed, Put(Start, map[]), true)
      else Move(BackToMenu, Put(Start, map[]), false)
    case None => Move(Menu, Put(Start, map[]), false)
  }

  /** The decision of `next_reply` for the loaded form `f`: the global commands are
      recognised first, whatever the form holds. */
  function Answer(f: Form, text: string): Move {
    var t := Text.Strip(text);
    var low := Text.Lower(t);
    if low in HelpWords then Move(Menu, Put(Start, map[]), false)
    else if low in CancelWords then Move(Cancelled, Put(Start, map[]), false)
    else if low in ResetWords then Move(Menu, Put(Start, map[]), false)
    else Step(f, t, low)
  }

  /** Carry out a move on the store: append the order taken from the loaded data
      when it commits, then save the session. */
  function Apply(st: Store, waId: string, f: Form, m: Move, now: Clock): (r: Store)
    ensures Framed(st, waId, r)
    ensures |r.orders| == |st.orders| + 1 <==> m.commit
    ensures m.write.Keep? ==> r.sessions == st.sessions
    ensures m.write.Put? ==> LoadSessionFull(r, waId) == Some(SessionView(Name(m.write.next), Some(m.write.data), Stamp(now.minute, true)))
  {
    var placed := if m.commit then SaveOrder(st, waId, Get(f.data, "data"), Get(f.data, "tipo"), Get(f.data, "qtd"), AwaitingHuman, now.minute) else st;
    match m.write
    case Keep => placed
    case Put(s, d) => SetStateData(placed, waId, s, d, now)
  }

  /** `next_reply`: load the session, decide, write. Every path touches only this
      contact's session and the order log, and appends at most one order. */
  function NextReply(st: Store, waId: string, text: string, now: Clock): (t: Turn)
    ensures Framed(st, waId, t.store)
    ensures t.store.sessions == st.sessions || (waId in t.store.sessions && t.store.sessions[waId].updatedAt == now.minute)
  {
    var f := LoadStateData(st, waId, now);
    var m := Answer(f, text);
    Turn(m.reply, Apply(st, waId, f, m, now))
  }

  // ---------------------------------------------------------------- properties

  /** The linear order of the form, as an independent reference: the state after `s`
      when the user answers its question. */
  function Successor(s: State): State {
    match s
    case Start => Data
    case Data => Tipo
    case Tipo => Qtd
    case Qtd => Obs
    case Obs => Resumo
    case Resumo => Start
  }

  /** The field whose answer the state `s` collects (only the four answering states). */
  function FieldKey(s: State): string
    requires s in {Data, Tipo, Qtd, Obs}
  {
    match s
    case Data => "data"
    case Tipo => "tipo"
    case Qtd => "qtd"
    case Obs => "obs"
  }

  /** The fields collected by the states visited before reaching `s`. */
  function Collected(s: State): set<string> {
    match s
    case Start => {}
    case Data => {}
    case Tipo => {"data"}
    case Qtd => {"data", "tipo"}
    case Obs => {"data", "tipo", "qtd"}
    case Resumo => {"data", "tipo", "qtd", "obs"}
  }

  /** A form whose state is known and whose data holds exactly the fields collected so far. */
  predicate FormFits(f: Form) {
    Parse(f.state).Some? && f.data.Keys == Collected(Parse(f.state).value)
  }

  /** Every stored session parses and fits its state. */
  predicate SessionsWellFormed(st: Store) {
    forall w :: w in st.sessions ==>
      st.sessions[w].dataJson.Some? && FormFits(Form(st.sessions[w].state, st.sessions[w].dataJson.value))
  }

  /** The three command word sets are pairwise disjoint, so the order in which
      `next_reply` tests them cannot change the outcome. */
  lemma CommandWordsDisjoint()
    ensures HelpWords !! CancelWords && HelpWords !! ResetWords && CancelWords !! ResetWords
  {
  }

  /** Outside the global commands, the decision is the state-dependent step on the
      stripped text and its lowercase form. */
  lemma AnswerSteps(f: Form, text: string)
    requires !IsCommand(Text.Lower(Text.Strip(text)))
    ensures Answer(f, text) == Step(f, Text.Strip(text), Text.Lower(Text.Strip(text)))
  {
  }

  /** A global command resets the session to (START, {}) without looking at it: the
      reply is the cancellation text for a cancel word and the menu otherwise, and it
      is the same whatever the store holds. */
  lemma GlobalCommand(st: Store, other: Store, waId: string, text: string, now: Clock)
    requires IsCommand(Text.Lower(Text.Strip(text)))
    ensures var low := Text.Lower(Text.Strip(text));
            var r := NextReply(st, waId, text, now);
            && r.store == SetStateData(st, waId, Start, map[], now)
            && r.reply == (if low in CancelWords then Cancelled else Menu)
            && NextReply(other, waId, text, now).reply == r.reply
  {
    CommandWordsDisjoint();
  }

  /** An order is committed exactly when the text confirms a summary. */
  lemma OrderCommittedIff(st: Store, waId: string, text: string, now: Clock)
    ensures |NextReply(st, waId, text, now).store.orders| == |st.orders| + 1 <==> Commits(st, waId, text, now)
  {
    if !IsCommand(Text.Lower(Text.Strip(text))) {
      AnswerSteps(LoadStateData(st, waId, now), text);
    }
  }

  /** In START only the exact (stripped, case-sensitive) order words start a form,
      saving (DATA, {}); the price and handoff options and any other text reply
      without writing anything. */
  lemma StartStep(st: Store, waId: string, text: string, now: Clock)
    requires !IsCommand(Text.Lower(Text.Strip(text)))
    requires LoadStateData(st, waId, now).state == "START"
    ensures var t := Text.Strip(text);
            var r := NextReply(st, waId, text, now);
            && (t in OrderWords ==>
                  r.reply == AskDate
                  && LoadSessionFull(r.store, waId) == Some(SessionView(Name(Successor(Start)), Some(map[]), Stamp(now.minute, true)))
                  && r.store.orders == st.orders)
            && (t !in OrderWords ==>
                  r.store == st
                  && r.reply == (if t in PriceWords then Prices else if t in HumanWords then Handoff else Menu))
  {
    AnswerSteps(LoadStateData(st, waId, now), text);
  }

  /** DATA, TIPO and QTD store the stripped text verbatim (even when empty) under
      their field, keep every other field, and advance to the next state. */
  lemma FieldStep(st: Store, waId: string, text: string, now: Clock)
    requires !IsCommand(Text.Lower(Text.Strip(text)))
    requires LoadStateData(st, waId, now).state in {"DATA", "TIPO", "QTD"}
    ensures var f := LoadStateData(st, waId, now);
            var s := Parse(f.state).value;
            var r := NextReply(st, waId, text, now);
            && s in {Data, Tipo, Qtd}
            && LoadSessionFull(r.store, waId)
               == Some(SessionView(Name(Successor(s)), Some(f.data[FieldKey(s) := Text.Strip(text)]), Stamp(now.minute, true)))
            && r.store.orders == st.orders
  {
    AnswerSteps(LoadStateData(st, waId, now), text);
  }

  /** OBS stores "" for a negative answer and the stripped text otherwise, moves to
      RESUMO and replies with the summary of the collected fields. */
  lemma ObsStep(st: Store, waId: string, text: string, now: Clock)
    requires !IsCommand(Text.Lower(Text.Strip(text)))
    requires LoadStateData(st, waId, now).state == "OBS"
    ensures var f := LoadStateData(st, waId, now);
            var t := Text.Strip(text);
            var notes := if Text.Lower(t) in NoWords then "" else t;
            var r := NextReply(st, waId, text, now);
            && r.reply == Review(f.data["obs" := notes])
            && LoadSessionFull(r.store, waId)
               == Some(SessionView(Name(Successor(Obs)), Some(f.data["obs" := notes]), Stamp(now.minute, true)))
            && r.store.orders == st.orders
  {
    AnswerSteps(LoadStateData(st, waId, now), text);
  }

  /** RESUMO always returns to (START, {}). A confirmation word appends exactly one
      order holding the session's date, type and quantity with status
      AGUARDANDO_HUMANO; anything else commits nothing. */
  lemma ResumoStep(st: Store, waId: string, text: string, now: Clock)
    requires !IsCommand(Text.Lower(Text.Strip(text)))
    requires LoadStateData(st, waId, now).state == "RESUMO"
    ensures var f := LoadStateData(st, waId, now);
            var low := Text.Lower(Text.Strip(text));
            var r := NextReply(st, waId, text, now);
            && LoadSessionFull(r.store, waId) == Some(SessionView("START", Some(map[]), Stamp(now.minute, true)))
            && (low in YesWords ==>
                  r.reply == Confirmed
                  && r.store.orders == st.orders + [Order(waId, Get(f.data, "data"), Get(f.data, "tipo"), Get(f.data, "qtd"), AwaitingHuman, now.minute)])
            && (low !in YesWords ==> r.reply == BackToMenu && r.store.orders == st.orders)
  {
    AnswerSteps(LoadStateData(st, waId, now), text);
  }

  /** A stored state outside the six known names is reset to (START, {}) with the menu. */
  lemma UnknownStateResets(st: Store, waId: string, text: string, now: Clock)
    requires !IsCommand(Text.Lower(Text.Strip(text)))
    requires Parse(LoadStateData(st, waId, now).state).None?
    ensures NextReply(st, waId, text, now) == Turn(Menu, SetStateData(st, waId, Start, map[], now))
  {
    AnswerSteps(LoadStateData(st, waId, now), text);
  }

  /** Malformed stored JSON is read as empty data. */
  lemma MalformedDataReadsEmpty(st: Store, waId: string, now: Clock)
    requires waId in st.sessions && st.sessions[waId].dataJson.None?
    ensures LoadStateData(st, waId, now).data == map[]
  {
  }

  /** As written, the engine's clock is naive while the stored timestamp is aware,
      so the age is never computed and no session ever times out. */
  lemma NaiveClockNeverTimesOut(st: Store, waId: string, minute: int)
    requires waId in st.sessions
    ensures LoadStateData(st, waId, NaiveUtcNow(minute))
            == Form(st.sessions[waId].state, st.sessions[waId].dataJson.GetOr(map[]))
  {
  }

  /** A concrete instance: a half-filled form saved at minute 0 is still resumed a
      day later with the naive clock. */
  lemma NaiveClockResumesDayOldForm()
    ensures var st := Empty.(sessions := map["5511" := SessionRow("TIPO", Some(map["data" := "15/02"]), 0, false)]);
            LoadStateData(st, "5511", NaiveUtcNow(24 * 60)) == Form("TIPO", map["data" := "15/02"])
  {
  }

  /** With an aware UTC clock the timeout works as intended: a session older than
      90 minutes loads as (START, {}), a younger one as stored. */
  lemma StaleSessionTimesOut(st: Store, waId: string, minute: int)
    requires waId in st.sessions
    ensures var row := st.sessions[waId];
            LoadStateData(st, waId, UtcNow(minute))
            == if minute - row.updatedAt > TimeoutMinutes then Fresh else Form(row.state, row.dataJson.GetOr(map[]))
  {
  }

  /** The timeout reset is not written back: a stale session answered with a text
      that START ignores stays in the store exactly as it was. */
  lemma StaleSessionUntouched(st: Store, waId: string, text: string, minute: int)
    requires waId in st.sessions && minute - st.sessions[waId].updatedAt > TimeoutMinutes
    requires !IsCommand(Text.Lower(Text.Strip(text))) && Text.Strip(text) !in OrderWords
    ensures NextReply(st, waId, text, UtcNow(minute)).store == st
  {
    StaleSessionTimesOut(st, waId, minute);
    StartStep(st, waId, text, UtcNow(minute));
  }

  /** Loading from a well-formed store gives a well-formed form. */
  lemma LoadedFormFits(st: Store, waId: string, now: Clock)
    requires SessionsWellFormed(st)
    ensures FormFits(LoadStateData(st, waId, now))
  {
  }

  /** The session a turn writes, if any, fits its state. */
  predicate WroteFitting(st: Store, waId: string, r: Store) {
    r.sessions == st.sessions
    || (waId in r.sessions && r.sessions[waId].dataJson.Some?
        && FormFits(Form(r.sessions[waId].state, r.sessions[waId].dataJson.value)))
  }

  /** A step from a fitting form writes only fitting forms. */
  lemma {:induction false} StepWritesFitting(f: Form, t: string, low: string)
    requires FormFits(f)
    ensures var w := Step(f, t, low).write;
            w.Put? ==> FormFits(Form(Name(w.next), w.data))
  {
    var s := Parse(f.state).value;
    match s
    case Start =>
    case Data => assert f.data["data" := t].Keys == {"data"};
    case Tipo => assert f.data["tipo" := t].Keys == {"data", "tipo"};
    case Qtd => assert f.data["qtd" := t].Keys == {"data", "tipo", "qtd"};
    case Obs =>
      var d := f.data["obs" := if low in NoWords then "" else t];
      assert d.Keys == {"data", "tipo", "qtd", "obs"};
    case Resumo =>
  }

  lemma {:induction false} NextReplyWritesFitting(st: Store, waId: string, text: string, now: Clock)
    requires SessionsWellFormed(st)
    ensures WroteFitting(st, waId, NextReply(st, waId, text, now).store)
  {
    var f := LoadStateData(st, waId, now);
    var t := Text.Strip(text);
    var low := Text.Lower(t);
    var m := Answer(f, text);
    var r := Apply(st, waId, f, m, now);
    if IsCommand(low) {
      assert m.write == Put(Start, map[]);
    } else {
      LoadedFormFits(st, waId, now);
      AnswerSteps(f, text);
      StepWritesFitting(f, t, low);
    }
    if m.write.Put? {
      assert r.sessions[waId] == SessionRow(Name(m.write.next), Some(m.write.data), now.minute, GetPauseBot(st, waId));
    }
  }

  /** The form invariant: every turn keeps every stored session well formed, so the
      data of a session holds exactly the fields of the states it went through. */
  lemma NextReplyKeepsSessionsWellFormed(st: Store, waId: string, text: string, now: Clock)
    requires SessionsWellFormed(st)
    ensures SessionsWellFormed(NextReply(st, waId, text, now).store)
  {
    var r := NextReply(st, waId, text, now).store;
    NextReplyWritesFitting(st, waId, text, now);
    forall w | w in r.sessions
      ensures r.sessions[w].dataJson.Some? && FormFits(Form(r.sessions[w].state, r.sessions[w].dataJson.value))
    {
      if w != waId || r.sessions == st.sessions {
        assert w in r.sessions - {waId} || r.sessions == st.sessions;
        assert w in st.sessions && r.sessions[w] == st.sessions[w];
      }
    }
  }

  /** From a well-formed store, a committed order carries all three fields. */
  lemma CommittedOrderIsComplete(st: Store, waId: string, text: string, now: Clock)
    requires SessionsWellFormed(st) && Commits(st, waId, text, now)
    ensures var o := NextReply(st, waId, text, now).store.orders[|st.orders|];
            o.data.Some? && o.tipo.Some? && o.qtd.Some? && o.status == AwaitingHuman && o.waId == waId
  {
    LoadedFormFits(st, waId, now);
    ResumoStep(st, waId, text, now);
  }


  // ------------------------------------------------------------- conversations

  /** A conversation: the texts of one contact answered in order at the same clock. */
  function Run(st: Store, waId: string, texts: seq<string>, now: Clock): (r: Store)
    ensures |st.orders| <= |r.orders| <= |st.orders| + |texts|
    ensures r.orders[..|st.orders|] == st.orders
    decreases |texts|
  {
    if texts == [] then st else Run(NextReply(st, waId, texts[0], now).store, waId, texts[1..], now)
  }

  /** The form the next turn loads after move `m` on form `f`, when no time passes. */
  function Resume(f: Form, m: Move): Form {
    match m.write
    case Keep => f
    case Put(s, d) => Form(Name(s), d)
  }

  /** The orders a move appends for contact `waId` at minute `minute`. */
  function Placed(f: Form, m: Move, waId: string, minute: int): seq<Order> {
    if m.commit then [Order(waId, Get(f.data, "data"), Get(f.data, "tipo"), Get(f.data, "qtd"), AwaitingHuman, minute)] else []
  }

  /** The outcome of a conversation on forms alone: the last form and the orders placed. */
  datatype Outcome = Outcome(form: Form, orders: seq<Order>)

  /** A conversation replayed on forms, without a store: the reference the stored
      conversation is compared with. */
  function Converse(f: Form, texts: seq<string>, waId: string, minute: int): Outcome
    decreases |texts|
  {
    if texts == [] then Outcome(f, [])
    else
      var m := Answer(f, texts[0]);
      var rest := Converse(Resume(f, m), texts[1..], waId, minute);
      Outcome(rest.form, Placed(f, m, waId, minute) + rest.orders)
  }

  /** Within one minute the next turn loads exactly the form the move left behind,
      and the order log grows by the move's order. */
  lemma ApplyLoads(st: Store, waId: string, m: Move, now: Clock)
    ensures var f := LoadStateData(st, waId, now);
            var r := Apply(st, waId, f, m, now);
            LoadStateData(r, waId, now) == Resume(f, m) && r.orders == st.orders + Placed(f, m, waId, now.minute)
  {
  }

  lemma AppendAssoc<T>(a: seq<T>, b: seq<T>, c: seq<T>)
    ensures a + b + c == a + (b + c)
  {
  }

  /** The stored conversation agrees with the one on forms: the session read back at
      the end is the final form, and the orders appended are the ones it placed. */
  lemma {:induction false} RunConverses(st: Store, waId: string, texts: seq<string>, now: Clock)
    ensures var o := Converse(LoadStateData(st, waId, now), texts, waId, now.minute);
            var r := Run(st, waId, texts, now);
            LoadStateData(r, waId, now) == o.form && r.orders == st.orders + o.orders
    decreases |texts|
  {
    if texts != [] {
      var f := LoadStateData(st, waId, now);
      var m := Answer(f, texts[0]);
      var s1 := Apply(st, waId, f, m, now);
      var rest := texts[1..];
      var o := Converse(Resume(f, m), rest, waId, now.minute);
      assert Run(st, waId, texts, now) == Run(s1, waId, rest, now) by {
        assert NextReply(st, waId, texts[0], now).store == s1;
      }
      assert Converse(f, texts, waId, now.minute) == Outcome(o.form, Placed(f, m, waId, now.minute) + o.orders);
      assert LoadStateData(s1, waId, now) == Resume(f, m) && s1.orders == st.orders + Placed(f, m, waId, now.minute) by {
        ApplyLoads(st, waId, m, now);
      }
      RunConverses(s1, waId, rest, now);
      AppendAssoc(st.orders, Placed(f, m, waId, now.minute), o.orders);
    }
  }

  /** A message that, stripped and lowercased, is no global command: in any state
      it reaches the state's own step. */
  predicate NoCommand(t: string) {
    !IsCommand(Text.Lower(Text.Strip(t)))
  }

  /** The lowercase form of the stripped text, which the yes/no questions test. */
  function Low(t: string): string {
    Text.Lower(Text.Strip(t))
  }

  /** The order a RESUMO form `d` commits for contact `waId` at minute `minute`. */
  function OrderOf(d: map<string, string>, waId: string, minute: int): Order {
    Order(waId, Get(d, "data"), Get(d, "tipo"), Get(d, "qtd"), AwaitingHuman, minute)
  }

  /** From RESUMO, a "yes" (in any case, with any surrounding whitespace) commits the
      form and returns to (START, {}). */
  lemma {:induction false} ConfirmDialogue(d: map<string, string>, waId: string, minute: int, t6: string)
    requires NoCommand(t6) && Low(t6) in YesWords
    ensures Converse(Form("RESUMO", d), [t6], waId, minute) == Outcome(Fresh, [OrderOf(d, waId, minute)])
  {
    AnswerSteps(Form("RESUMO", d), t6);
    assert [t6][1..] == [];
  }

  /** From OBS, a "no" and a "yes" commit the form with an empty note. */
  lemma {:induction false} NotesDialogue(d: map<string, string>, waId: string, minute: int, t5: string, t6: string)
    requires NoCommand(t5) && NoCommand(t6) && Low(t5) in NoWords && Low(t6) in YesWords
    ensures Converse(Form("OBS", d), [t5, t6], waId, minute) == Outcome(Fresh, [OrderOf(d, waId, minute)])
  {
    var d5 := d["obs" := ""];
    AnswerSteps(Form("OBS", d), t5);
    var m := Answer(Form("OBS", d), t5);
    assert m == Move(Review(d5), Put(Resumo, d5), false);
    assert Resume(Form("OBS", d), m) == Form("RESUMO", d5);
    assert [t5, t6][1..] == [t6];
    assert OrderOf(d5, waId, minute) == OrderOf(d, waId, minute);
    ConfirmDialogue(d5, waId, minute, t6);
  }

  /** One answer in DATA, TIPO or QTD stores the stripped text under the state's field. */
  lemma {:induction false} FieldDialogue(s: State, d: map<string, string>, waId: string, minute: int, t: string, rest: seq<string>)
    requires s in {Data, Tipo, Qtd} && NoCommand(t)
    ensures Converse(Form(Name(s), d), [t] + rest, waId, minute)
            == Converse(Form(Name(Successor(s)), d[FieldKey(s) := Text.Strip(t)]), rest, waId, minute)
  {
    ParseName(s);
    AnswerSteps(Form(Name(s), d), t);
    assert ([t] + rest)[1..] == rest;
  }

  /** From QTD with date `a2` and kind `a3` collected, the quantity, a "no" and a "yes"
      place the order. */
  lemma {:induction false} QtdDialogue(waId: string, minute: int, a2: string, a3: string, t4: string, t5: string, t6: string)
    requires NoCommand(t4) && NoCommand(t5) && NoCommand(t6) && Low(t5) in NoWords && Low(t6) in YesWords
    ensures Converse(Form("QTD", map["data" := a2, "tipo" := a3]), [t4, t5, t6], waId, minute)
            == Outcome(Fresh, [Order(waId, Some(a2), Some(a3), Some(Text.Strip(t4)), AwaitingHuman, minute)])
  {
    var d3 := map["data" := a2, "tipo" := a3];
    var d4 := d3["qtd" := Text.Strip(t4)];
    var rest := [t5, t6];
    assert Form(Name(Qtd), d3) == Form("QTD", map["data" := a2, "tipo" := a3]);
    assert Form(Name(Successor(Qtd)), d3[FieldKey(Qtd) := Text.Strip(t4)]) == Form("OBS", d4);
    assert [t4] + rest == [t4, t5, t6];
    assert OrderOf(d4, waId, minute) == Order(waId, Some(a2), Some(a3), Some(Text.Strip(t4)), AwaitingHuman, minute);
    FieldDialogue(Qtd, d3, waId, minute, t4, rest);
    NotesDialogue(d4, waId, minute, t5, t6);
  }

  /** From TIPO with date `a2` collected, the kind, the quantity, a "no" and a "yes"
      place the order. */
  lemma {:induction false} KindDialogue(waId: string, minute: int, a2: string, t3: string, t4: string, t5: string, t6: string)
    requires NoCommand(t3) && NoCommand(t4) && NoCommand(t5) && NoCommand(t6) && Low(t5) in NoWords && Low(t6) in YesWords
    ensures Converse(Form("TIPO", map["data" := a2]), [t3, t4, t5, t6], waId, minute)
            == Outcome(Fresh, [Order(waId, Some(a2), Some(Text.Strip(t3)), Some(Text.Strip(t4)), AwaitingHuman, minute)])
  {
    var d2 := map["data" := a2];
    var a3 := Text.Strip(t3);
    var rest := [t4, t5, t6];
    assert Form(Name(Tipo), d2) == Form("TIPO", map["data" := a2]);
    assert Form(Name(Successor(Tipo)), d2[FieldKey(Tipo) := a3]) == Form("QTD", map["data" := a2, "tipo" := a3]);
    assert [t3] + rest == [t3, t4, t5, t6];
    FieldDialogue(Tipo, d2, waId, minute, t3, rest);
    QtdDialogue(waId, minute, a2, a3, t4, t5, t6);
  }

  /** From an empty DATA form, the three answers, a "no" and a "yes" place the order. */
  lemma {:induction false} AnswersDialogue(waId: string, minute: int, t2: string, t3: string, t4: string, t5: string, t6: string)
    requires NoCommand(t2) && NoCommand(t3) && NoCommand(t4) && NoCommand(t5) && NoCommand(t6)
    requires Low(t5) in NoWords && Low(t6) in YesWords
    ensures Converse(Form("DATA", map[]), [t2, t3, t4, t5, t6], waId, minute)
            == Outcome(Fresh, [Order(waId, Some(Text.Strip(t2)), Some(Text.Strip(t3)), Some(Text.Strip(t4)), AwaitingHuman, minute)])
  {
    var rest := [t3, t4, t5, t6];
    var d0: map<string, string> := map[];
    var a2 := Text.Strip(t2);
    assert Form(Name(Data), d0) == Form("DATA", map[]);
    assert Form(Name(Successor(Data)), d0[FieldKey(Data) := a2]) == Form("TIPO", map["data" := a2]);
    assert [t2] + rest == [t2, t3, t4, t5, t6];
    FieldDialogue(Data, d0, waId, minute, t2, rest);
    KindDialogue(waId, minute, a2, t3, t4, t5, t6);
  }

  /** From (START, {}), an order word (matched case-sensitively on the stripped text)
      opens an empty DATA form. */
  lemma {:induction false} OpenDialogue(waId: string, minute: int, t1: string, rest: seq<string>)
    requires NoCommand(t1) && Text.Strip(t1) in OrderWords
    ensures Converse(Fresh, [t1] + rest, waId, minute) == Converse(Form("DATA", map[]), rest, waId, minute)
  {
    AnswerSteps(Fresh, t1);
    assert ([t1] + rest)[1..] == rest;
  }

  /** An order dialogue on forms: an order word, three answers, a "no" to the notes
      and a "yes" to the summary place one order carrying the three stripped answers
      and end in (START, {}). */
  lemma {:induction false} ConverseOrder(waId: string, minute: int, t1: string, t2: string, t3: string, t4: string, t5: string, t6: string)
    requires NoCommand(t1) && NoCommand(t2) && NoCommand(t3) && NoCommand(t4) && NoCommand(t5) && NoCommand(t6)
    requires Text.Strip(t1) in OrderWords && Low(t5) in NoWords && Low(t6) in YesWords
    ensures Converse(Fresh, [t1, t2, t3, t4, t5, t6], waId, minute)
            == Outcome(Fresh, [Order(waId, Some(Text.Strip(t2)), Some(Text.Strip(t3)), Some(Text.Strip(t4)), AwaitingHuman, minute)])
  {
    var rest := [t2, t3, t4, t5, t6];
    var placed := Order(waId, Some(Text.Strip(t2)), Some(Text.Strip(t3)), Some(Text.Strip(t4)), AwaitingHuman, minute);
    assert [t1] + rest == [t1, t2, t3, t4, t5, t6];
    assert Converse(Fresh, [t1] + rest, waId, minute) == Converse(Form("DATA", map[]), rest, waId, minute) by {
      OpenDialogue(waId, minute, t1, rest);
    }
    assert Converse(Form("DATA", map[]), rest, waId, minute) == Outcome(Fresh, [placed]) by {
      AnswersDialogue(waId, minute, t2, t3, t4, t5, t6);
    }
  }

  /** A whole order conversation of a contact without a session, sent at one clock
      reading, appends exactly one order with the three stripped answers and leaves a
      session that reads back as (START, {}). */
  lemma {:induction false} OrderConversation(st: Store, waId: string, now: Clock, t1: string, t2: string, t3: string, t4: string, t5: string, t6: string)
    requires waId !in st.sessions
    requires NoCommand(t1) && NoCommand(t2) && NoCommand(t3) && NoCommand(t4) && NoCommand(t5) && NoCommand(t6)
    requires Text.Strip(t1) in OrderWords && Low(t5) in NoWords && Low(t6) in YesWords
    ensures var r := Run(st, waId, [t1, t2, t3, t4, t5, t6], now);
            && r.orders == st.orders + [Order(waId, Some(Text.Strip(t2)), Some(Text.Strip(t3)), Some(Text.Strip(t4)), AwaitingHuman, now.minute)]
            && LoadStateData(r, waId, now) == Fresh
  {
    RunConverses(st, waId, [t1, t2, t3, t4, t5, t6], now);
    ConverseOrder(waId, now.minute, t1, t2, t3, t4, t5, t6);
  }
}
