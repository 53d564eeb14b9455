/** The webhook handler over the routing store: many deliveries and retries at once, each moving
    from one awaited answer to the next. */
module LycheeWebhook {
  import opened Common
  import opened Text
  import opened LycheeQuery
  import opened LycheeStore
  import opened LycheePhone

  datatype SenderField = Missing | NotText | Text(text: string)

  /** A parsed delivery, signature already checked. `event.sender` is filled in by the handler. */
  datatype Inbound = Inbound(kind: string, hasEventId: bool, contactPhone: Option<string>, senderPhone: SenderField,
                             event: Event)

  /** A request to one of the two backends: the ownership probe or the forwarded event. */
  datatype Contact = Probe(environment: Environment) | Forward(environment: Environment)

  datatype Stage =
    | Owners
    | Modes
    | Probing
    | Resolving
    | Forwarding(environment: Environment)
    | Responded(code: int)

  /** `linked` counts the prompts that were linked when the delivery arrived, `owns` is what the probe answered. */
  datatype Delivery = Delivery(event: Event, stage: Stage, contacts: seq<Contact>, linked: nat, owns: Option<bool>)

  /** A document row of the development table that owns the question it asked. */
  datatype Prompt = Prompt(channel: string, sender: string, id: string)

  datatype System = System(store: State, prompts: seq<Prompt>, deliveries: map<CallId, Delivery>)

  const IDLE := System(EMPTY, [], map[])

  datatype Move =
    | Receive(id: CallId, inbound: Inbound)
    | OwnersRead(id: CallId, ok: bool)
    | ModesRead(id: CallId, rows: Option<seq<Command>>)
    | ProbeAnswered(id: CallId, owns: Option<bool>)
    | ResolveReturned(id: CallId)
    | ForwardAnswered(id: CallId, accepted: bool)
    | StoreMoves(step: Action)
    | PromptLinked(prompt: Prompt)

  /** The sender, when the contact is a valid number and the sender field is blank or agrees. */
  function Sender(i: Inbound): Option<string> {
    var contact := if i.contactPhone.Some? then Phone(i.contactPhone.value) else None;
    var blank := i.senderPhone.Missing? || (i.senderPhone.Text? && TrimLeft(i.senderPhone.text) == "");
    var sender := if blank then contact else if i.senderPhone.Text? then Phone(i.senderPhone.text) else None;
    if sender.None? || contact.None? || sender != contact then None else sender
  }

  predicate IsTester(cfg: Config, e: Event) { e.sender in cfg.testPhones }

  function Owned(prompts: seq<Prompt>, e: Event): nat
    requires e.quote.Quote?
  {
    if prompts == [] then 0
    else (if prompts[0] == Prompt(e.channel, e.sender, e.quote.id) then 1 else 0) + Owned(prompts[1..], e)
  }

  /** The request goes out the moment the handler starts waiting for its answer. */
  function Send(d: Delivery, stage: Stage, contact: Contact): Delivery {
    d.(stage := stage, contacts := d.contacts + [contact])
  }

  function Close(d: Delivery, code: int): Delivery { d.(stage := Responded(code)) }

  /** The handler up to its first awaited answer. */
  function Arrive(cfg: Config, i: Inbound, linked: nat): Delivery {
    var sender := Sender(i);
    var d := Delivery(i.event, Responded(400), [], linked, None);
    if i.kind != "message.received" || !i.hasEventId || i.event.channel != cfg.channel || sender.None? then d
    else
      var e := i.event.(sender := sender.value);
      var d := d.(event := e);
      if !Unquoted(e) then
        if e.quote.BadQuote? || |e.quote.id| > 255 then d
        else if IsTester(cfg, e) then
          if e.stamp.Stamp? then d.(stage := Owners) else Close(d, 502)
        else Send(d, Probing, Probe(Prod))
      else if IsTester(cfg, e) then d.(stage := Resolving)
      else Send(d, Forwarding(Prod), Forward(Prod))
  }

  /** After the ownership query of replyRoute. */
  function AfterOwners(d: Delivery, prompts: seq<Prompt>, ok: bool): Delivery
    requires d.event.quote.Quote?
  {
    if !ok || Owned(prompts, d.event) > 1 then Close(d, 502)
    else if Owned(prompts, d.event) == 1 then Send(d, Forwarding(Dev), Forward(Dev))
    else d.(stage := Modes)
  }

  /** After the latest-command query of replyRoute. */
  function AfterModes(d: Delivery, rows: Option<seq<Command>>): Delivery {
    if rows.None? || Answer(rows.value).None? then Close(d, 502)
    else if Answer(rows.value) == Some(Dev) then Close(d, 409)
    else Send(d, Probing, Probe(Prod))
  }

  function AfterProbe(d: Delivery, owns: Option<bool>): Delivery {
    var d := d.(owns := owns);
    if owns.None? then Close(d, 502)
    else if !owns.value then Close(d, 409)
    else Send(d, Forwarding(Prod), Forward(Prod))
  }

  /** After resolve, with the handler's own check of the store's answer. */
  function AfterResolve(d: Delivery, outcome: Outcome): Delivery {
    if outcome.Threw? then Close(d, 502)
    else
      var requested := RoutingCommand(d.event);
      var route := outcome.status;
      if route.command != requested.Some? || (requested.Some? && Some(route.environment) != requested) then Close(d, 502)
      else if requested.Some? then Close(d, 200)
      else Send(d, Forwarding(route.environment), Forward(route.environment))
  }

  function Update(s: System, id: CallId, d: Delivery): System { s.(deliveries := s.deliveries[id := d]) }

  ghost function Next(cfg: Config, s: System, a: Move): System {
    match a
    case Receive(id, inbound) =>
      if id in s.deliveries || id in s.store.calls then s
      else
        var d := Arrive(cfg, inbound, |s.prompts|);
        var t := Update(s, id, d);
        if d.stage.Resolving? then t.(store := Step(cfg, s.store, Begin(id, d.event))) else t
    case OwnersRead(id, ok) =>
      if id in s.deliveries && s.deliveries[id].stage.Owners? && s.deliveries[id].event.quote.Quote? then
        Update(s, id, AfterOwners(s.deliveries[id], s.prompts, ok))
      else s
    case ModesRead(id, rows) =>
      if id in s.deliveries && s.deliveries[id].stage.Modes?
         && (rows.Some? ==> QueryAnswer(s.store.journal, s.deliveries[id].event, rows.value)) then
        Update(s, id, AfterModes(s.deliveries[id], rows))
      else s
    case ProbeAnswered(id, owns) =>
      if id in s.deliveries && s.deliveries[id].stage.Probing? then Update(s, id, AfterProbe(s.deliveries[id], owns))
      else s
    case ResolveReturned(id) =>
      if id in s.deliveries && s.deliveries[id].stage.Resolving? && id in s.store.calls
         && s.store.calls[id].phase.Done? then
        Update(s, id, AfterResolve(s.deliveries[id], s.store.calls[id].phase.outcome))
      else s
    case ForwardAnswered(id, accepted) =>
      if id in s.deliveries && s.deliveries[id].stage.Forwarding? then
        Update(s, id, Close(s.deliveries[id], if accepted then 200 else 502))
      else s
    case StoreMoves(step) => if step.Begin? then s else s.(store := Step(cfg, s.store, step))
    case PromptLinked(prompt) => s.(prompts := s.prompts + [prompt])
  }

  ghost function Play(cfg: Config, s: System, actions: seq<Move>): System
    decreases |actions|
  {
    if actions == [] then s else Play(cfg, Next(cfg, s, actions[0]), actions[1..])
  }

  // ---- Invariant ----

  /** Some journal of the past had prod as the sender's mode at the event's time. */
  ghost predicate ProdModeSeen(journal: seq<Row>, e: Event) {
    exists n :: 0 <= n <= |journal| && ModeAt(journal, n, e) == Some(Prod)
  }

  ghost function ModeAt(journal: seq<Row>, n: nat, e: Event): Option<Environment>
    requires n <= |journal|
  {
    Decide(CommandsUpTo(journal[..n], LockName(e.channel, e.sender), Instant(e)))
  }

  predicate OneEnvironment(contacts: seq<Contact>) {
    || contacts == [] || contacts == [Forward(Dev)] || contacts == [Forward(Prod)]
    || contacts == [Probe(Prod)] || contacts == [Probe(Prod), Forward(Prod)]
  }

  /** What a delivery's contacts say about the event. */
  ghost predicate ContactsJustified(cfg: Config, s: System, d: Delivery)
  {
    && OneEnvironment(d.contacts)
    && d.linked <= |s.prompts|
    && forall c :: c in d.contacts ==>
      if !IsTester(cfg, d.event) then c.environment == Prod
      else if Unquoted(d.event) then
        && c.Forward? && RoutingCommand(d.event).None?
        && Row(d.event, Status(false, c.environment)) in s.store.journal
      else
        && d.event.quote.Quote?
        && (c.environment == Dev ==> Owned(s.prompts, d.event) > 0)
        && (c.environment == Prod ==>
            Owned(s.prompts[..d.linked], d.event) == 0 && ProdModeSeen(s.store.journal, d.event))
  }

  predicate StageFits(cfg: Config, s: System, id: CallId, d: Delivery) {
    && (d.stage.Owners? || d.stage.Modes? ==>
        IsTester(cfg, d.event) && d.event.quote.Quote? && !Unquoted(d.event) && d.contacts == [])
    && (d.stage.Modes? ==> d.linked <= |s.prompts| && Owned(s.prompts[..d.linked], d.event) == 0)
    && (d.stage.Probing? ==> d.contacts == [Probe(Prod)])
    && (d.stage.Resolving? ==>
          && IsTester(cfg, d.event) && Unquoted(d.event) && d.contacts == []
          && id in s.store.calls && s.store.calls[id].event == d.event)
    && (d.stage.Forwarding? ==> d.contacts != [] && d.contacts[|d.contacts| - 1] == Forward(d.stage.environment))
  }

  /** An event is forwarded after a probe exactly if the answer was yes; it was refused with 409 if it was no. */
  predicate ProbeObeyed(d: Delivery) {
    && (d.owns == Some(true) <==> d.contacts == [Probe(Prod), Forward(Prod)])
    && (d.owns == Some(false) <==> d.stage == Responded(409) && d.contacts == [Probe(Prod)])
    && (d.stage == Responded(409) ==> d.contacts == [] || d.contacts == [Probe(Prod)])
    && (d.stage.Probing? || d.contacts == [] ==> d.owns.None?)
    && (!Unquoted(d.event) ==> d.contacts != [Forward(Prod)])
  }

  /** An acknowledgement means a stored command or a forwarded event. */
  ghost predicate Acknowledged(s: System, d: Delivery) {
    d.stage == Responded(200) ==>
      if d.contacts == [] then
        RoutingCommand(d.event).Some? && Row(d.event, Status(true, RoutingCommand(d.event).value)) in s.store.journal
      else d.contacts[|d.contacts| - 1].Forward?
  }

  ghost predicate DeliveryOk(cfg: Config, s: System, id: CallId, d: Delivery) {
    ContactsJustified(cfg, s, d) && StageFits(cfg, s, id, d) && ProbeObeyed(d) && Acknowledged(s, d)
  }

  ghost predicate SystemInv(cfg: Config, s: System) {
    Inv(s.store) && forall id :: id in s.deliveries ==> DeliveryOk(cfg, s, id, s.deliveries[id])
  }

  lemma {:induction false} OwnedGrows(prompts: seq<Prompt>, more: seq<Prompt>, e: Event)
    requires e.quote.Quote?
    ensures Owned(prompts + more, e) == Owned(prompts, e) + Owned(more, e)
    decreases |prompts|
  {
    if prompts == [] {
      assert prompts + more == more;
    } else {
      assert (prompts + more)[1..] == prompts[1..] + more;
      OwnedGrows(prompts[1..], more, e);
    }
  }

  /** What holds of a delivery still holds when journal, prompts and calls grow. */
  lemma DeliverySurvives(cfg: Config, s: System, t: System, id: CallId, d: Delivery)
    requires DeliveryOk(cfg, s, id, d)
    requires s.store.journal <= t.store.journal && s.prompts <= t.prompts
    requires id in s.store.calls ==> id in t.store.calls && t.store.calls[id].event == s.store.calls[id].event
    ensures DeliveryOk(cfg, t, id, d)
  {
    var more := t.prompts[|s.prompts|..];
    assert t.prompts == s.prompts + more;
    assert t.prompts[..d.linked] == s.prompts[..d.linked];
    if d.event.quote.Quote? {
      OwnedGrows(s.prompts, more, d.event);
    }
    assert forall r :: r in s.store.journal ==> r in t.store.journal;
    if ProdModeSeen(s.store.journal, d.event) {
      var n :| 0 <= n <= |s.store.journal| && ModeAt(s.store.journal, n, d.event) == Some(Prod);
      assert t.store.journal[..n] == s.store.journal[..n];
      assert ModeAt(t.store.journal, n, d.event) == Some(Prod);
    }
  }

  lemma StepKeepsEvents(cfg: Config, s: State, a: Action, id: CallId)
    requires id in s.calls
    ensures id in Step(cfg, s, a).calls && Step(cfg, s, a).calls[id].event == s.calls[id].event
    ensures s.journal <= Step(cfg, s, a).journal
  {
  }

  lemma StoreKeepsDeliveries(cfg: Config, s: System, step: Action)
    requires SystemInv(cfg, s)
    ensures SystemInv(cfg, s.(store := Step(cfg, s.store, step)))
  {
    var t := s.(store := Step(cfg, s.store, step));
    StepKeepsInv(cfg, s.store, step);
    JournalGrows(cfg, s.store, [step]);
    forall id | id in t.deliveries ensures DeliveryOk(cfg, t, id, t.deliveries[id]) {
      if id in s.store.calls { StepKeepsEvents(cfg, s.store, step, id); }
      DeliverySurvives(cfg, s, t, id, s.deliveries[id]);
    }
  }

  lemma OwnersKeep(cfg: Config, s: System, id: CallId, d: Delivery, ok: bool)
    requires DeliveryOk(cfg, s, id, d) && d.stage.Owners?
    ensures DeliveryOk(cfg, s, id, AfterOwners(d, s.prompts, ok))
  {
    assert s.prompts == s.prompts[..d.linked] + s.prompts[d.linked..];
    OwnedGrows(s.prompts[..d.linked], s.prompts[d.linked..], d.event);
  }

  lemma ModesKeep(cfg: Config, s: System, id: CallId, d: Delivery, rows: Option<seq<Command>>)
    requires DeliveryOk(cfg, s, id, d) && d.stage.Modes?
    requires rows.Some? ==> QueryAnswer(s.store.journal, d.event, rows.value)
    ensures DeliveryOk(cfg, s, id, AfterModes(d, rows))
  {
    if rows.Some? {
      var j := s.store.journal;
      QueryDecides(rows.value, CommandsUpTo(j, LockName(d.event.channel, d.event.sender), Instant(d.event)));
      assert j[..|j|] == j;
      assert ModeAt(j, |j|, d.event) == Answer(rows.value);
    }
  }

  lemma ProbeKeeps(cfg: Config, s: System, id: CallId, d: Delivery, owns: Option<bool>)
    requires DeliveryOk(cfg, s, id, d) && d.stage.Probing?
    ensures DeliveryOk(cfg, s, id, AfterProbe(d, owns))
  {
    assert d.contacts == [Probe(Prod)];
  }

  lemma ResolveKeeps(cfg: Config, s: System, id: CallId, d: Delivery)
    requires Inv(s.store) && DeliveryOk(cfg, s, id, d) && d.stage.Resolving?
    requires s.store.calls[id].phase.Done?
    ensures DeliveryOk(cfg, s, id, AfterResolve(d, s.store.calls[id].phase.outcome))
  {
    assert CallOk(s.store.journal, s.store.calls[id]);
    var after := AfterResolve(d, s.store.calls[id].phase.outcome);
    if after.stage.Forwarding? {
      assert after.contacts == [Forward(after.stage.environment)];
      assert after.stage.environment == Dev || after.stage.environment == Prod;
    }
  }

  lemma ArriveKeeps(cfg: Config, s: System, id: CallId, i: Inbound)
    requires SystemInv(cfg, s) && id !in s.deliveries && id !in s.store.calls
    ensures SystemInv(cfg, Next(cfg, s, Receive(id, i)))
  {
    var d := Arrive(cfg, i, |s.prompts|);
    var t := Next(cfg, s, Receive(id, i));
    var u := s.(store := t.store);
    if d.stage.Resolving? {
      StoreKeepsDeliveries(cfg, s, Begin(id, d.event));
      assert t.store.calls[id].event == d.event;
    }
    assert SystemInv(cfg, u);
    forall k | k in t.deliveries && k != id ensures DeliveryOk(cfg, t, k, t.deliveries[k]) {
      DeliverySurvives(cfg, u, t, k, s.deliveries[k]);
    }
    assert t.prompts[..|s.prompts|] == t.prompts;
    NothingAnswered(cfg, i, |s.prompts|);
    assert DeliveryOk(cfg, t, id, d);
  }

  lemma NothingAnswered(cfg: Config, i: Inbound, linked: nat)
    ensures ProbeObeyed(Arrive(cfg, i, linked))
  {
    var d := Arrive(cfg, i, linked);
    assert d.contacts == if d.stage.Probing? then [Probe(Prod)] else if d.stage.Forwarding? then [Forward(Prod)] else [];
    if d.stage.Probing? {
      assert d.contacts[0] == Probe(Prod);
    }
  }

  lemma UpdateKeeps(cfg: Config, s: System, id: CallId, d: Delivery)
    requires SystemInv(cfg, s) && DeliveryOk(cfg, s, id, d)
    ensures SystemInv(cfg, Update(s, id, d))
  {
    var t := Update(s, id, d);
    forall k | k in t.deliveries ensures DeliveryOk(cfg, t, k, t.deliveries[k]) {
      DeliverySurvives(cfg, s, t, k, t.deliveries[k]);
    }
  }

  lemma NextKeepsInv(cfg: Config, s: System, a: Move)
    requires SystemInv(cfg, s)
    ensures SystemInv(cfg, Next(cfg, s, a))
  {
    if a.StoreMoves? {
      if !a.step.Begin? { StoreKeepsDeliveries(cfg, s, a.step); }
    } else if a.PromptLinked? {
      var t := Next(cfg, s, a);
      forall k | k in t.deliveries ensures DeliveryOk(cfg, t, k, t.deliveries[k]) {
        DeliverySurvives(cfg, s, t, k, t.deliveries[k]);
      }
    } else if a.Receive? {
      if a.id !in s.deliveries && a.id !in s.store.calls { ArriveKeeps(cfg, s, a.id, a.inbound); }
    } else if a.id in s.deliveries && Next(cfg, s, a) != s {
      AnswerKeeps(cfg, s, a, s.deliveries[a.id]);
      UpdateKeeps(cfg, s, a.id, Next(cfg, s, a).deliveries[a.id]);
    }
  }

  /** What the handler makes of an answer it waited for keeps its delivery as it should be. */
  lemma AnswerKeeps(cfg: Config, s: System, a: Move, d: Delivery)
    requires SystemInv(cfg, s) && !a.StoreMoves? && !a.PromptLinked? && !a.Receive?
    requires a.id in s.deliveries && s.deliveries[a.id] == d && Next(cfg, s, a) != s
    ensures a.id in Next(cfg, s, a).deliveries
    ensures var after := Next(cfg, s, a).deliveries[a.id];
            Next(cfg, s, a) == Update(s, a.id, after) && DeliveryOk(cfg, s, a.id, after)
  {
    match a
    case OwnersRead(id, ok) => OwnersKeep(cfg, s, id, d, ok);
    case ModesRead(id, rows) => ModesKeep(cfg, s, id, d, rows);
    case ProbeAnswered(id, owns) => ProbeKeeps(cfg, s, id, d, owns);
    case ResolveReturned(id) => ResolveKeeps(cfg, s, id, d);
    case ForwardAnswered(id, accepted) => assert DeliveryOk(cfg, s, id, d);
  }

  lemma {:induction false} PlayKeepsInv(cfg: Config, s: System, actions: seq<Move>)
    requires SystemInv(cfg, s)
    ensures SystemInv(cfg, Play(cfg, s, actions))
    decreases |actions|
  {
    if actions != [] {
      NextKeepsInv(cfg, s, actions[0]);
      PlayKeepsInv(cfg, Next(cfg, s, actions[0]), actions[1..]);
    }
  }

  // ---- What every run guarantees ----

  lemma IdleInv(cfg: Config)
    ensures SystemInv(cfg, IDLE)
  {
    EmptyInv();
  }

  /** Over any run of deliveries, retries, failures and concurrent calls, a test sender's unquoted event
      is never probed, is forwarded only to the environment its journal row records, and a switching
      command is not forwarded at all. */
  lemma TestEventsFollowTheJournal(cfg: Config, moves: seq<Move>, id: CallId, contact: Contact)
    requires id in Play(cfg, IDLE, moves).deliveries
    requires var d := Play(cfg, IDLE, moves).deliveries[id];
             IsTester(cfg, d.event) && Unquoted(d.event) && contact in d.contacts
    ensures var s := Play(cfg, IDLE, moves);
            var d := s.deliveries[id];
            && contact.Forward? && RoutingCommand(d.event).None?
            && FindKey(s.store.journal, EventKey(d.event.channel, d.event.eventId)) ==
            Some(Row(d.event, Status(false, contact.environment)))
  {
    IdleInv(cfg);
    PlayKeepsInv(cfg, IDLE, moves);
    var s := Play(cfg, IDLE, moves);
    var d := s.deliveries[id];
    assert DeliveryOk(cfg, s, id, d);
    var j := s.store.journal;
    var i :| 0 <= i < |j| && j[i] == Row(d.event, Status(false, contact.environment));
    forall a, b | 0 <= a < b < |j| ensures j[a].Key() != j[b].Key() { assert JustifiedAt(j, b); }
    FindTheKey(j, i);
  }

  /** All deliveries of one unquoted event of a test sender reach one and the same environment. */
  lemma RetriesReachOneEnvironment(cfg: Config, moves: seq<Move>, a: CallId, b: CallId, x: Contact, y: Contact)
    requires var s := Play(cfg, IDLE, moves);
             && a in s.deliveries && b in s.deliveries && s.deliveries[a].event == s.deliveries[b].event
             && IsTester(cfg, s.deliveries[a].event) && Unquoted(s.deliveries[a].event)
             && x in s.deliveries[a].contacts && y in s.deliveries[b].contacts
    ensures x == y
  {
    TestEventsFollowTheJournal(cfg, moves, a, x);
    TestEventsFollowTheJournal(cfg, moves, b, y);
  }

  /** A test sender's reply to a question that development owned when the reply arrived contacts
      development only; and no reply of a test sender contacts prod unless the sender's mode at the
      reply's time was once read as prod. */
  lemma DevRepliesNeverContactProd(cfg: Config, moves: seq<Move>, id: CallId)
    requires id in Play(cfg, IDLE, moves).deliveries
    requires var d := Play(cfg, IDLE, moves).deliveries[id]; IsTester(cfg, d.event) && !Unquoted(d.event)
    ensures var s := Play(cfg, IDLE, moves);
            var d := s.deliveries[id];
            && d.linked <= |s.prompts|
            && forall c :: c in d.contacts ==>
                 && d.event.quote.Quote?
                 && (Owned(s.prompts[..d.linked], d.event) > 0 ==> c == Forward(Dev))
                 && (c.environment == Prod ==> ProdModeSeen(s.store.journal, d.event))
                 && (c.environment == Dev ==> Owned(s.prompts, d.event) > 0)
  {
    IdleInv(cfg);
    PlayKeepsInv(cfg, IDLE, moves);
    var s := Play(cfg, IDLE, moves);
    assert DeliveryOk(cfg, s, id, s.deliveries[id]);
  }

  /** Senders outside the test list never reach development. */
  lemma OthersNeverReachDev(cfg: Config, moves: seq<Move>, id: CallId, contact: Contact)
    requires id in Play(cfg, IDLE, moves).deliveries
    requires var d := Play(cfg, IDLE, moves).deliveries[id]; !IsTester(cfg, d.event) && contact in d.contacts
    ensures contact.environment == Prod
  {
    IdleInv(cfg);
    PlayKeepsInv(cfg, IDLE, moves);
    var s := Play(cfg, IDLE, moves);
    assert DeliveryOk(cfg, s, id, s.deliveries[id]);
  }

  /** Whatever fails, a delivery contacts one environment only and forwards at most once; and it is
      acknowledged only when its command is journalled or after its event was forwarded. */
  lemma NoFallback(cfg: Config, moves: seq<Move>, id: CallId)
    requires id in Play(cfg, IDLE, moves).deliveries
    ensures var s := Play(cfg, IDLE, moves);
            var d := s.deliveries[id];
            && (forall x, y :: x in d.contacts && y in d.contacts ==>
                  x.environment == y.environment && (x.Forward? && y.Forward? ==> x == y))
            && multiset(d.contacts)[Forward(Dev)] + multiset(d.contacts)[Forward(Prod)] <= 1
            && Acknowledged(s, d)
  {
    IdleInv(cfg);
    PlayKeepsInv(cfg, IDLE, moves);
    var s := Play(cfg, IDLE, moves);
    assert DeliveryOk(cfg, s, id, s.deliveries[id]);
  }

  // ---- An undisturbed delivery ----

  function MovesOf(steps: seq<Action>): seq<Move> {
    if steps == [] then [] else [StoreMoves(steps[0])] + MovesOf(steps[1..])
  }

  lemma {:induction false} StoreOnly(cfg: Config, s: System, steps: seq<Action>)
    requires forall i :: 0 <= i < |steps| ==> !steps[i].Begin?
    ensures Play(cfg, s, MovesOf(steps)) == s.(store := Run(cfg, s.store, steps))
    decreases |steps|
  {
    if steps != [] {
      assert MovesOf(steps)[1..] == MovesOf(steps[1..]);
      StoreOnly(cfg, Next(cfg, s, StoreMoves(steps[0])), steps[1..]);
    }
  }

  lemma {:induction false} PlaySplits(cfg: Config, s: System, first: seq<Move>, later: seq<Move>)
    ensures Play(cfg, s, first + later) == Play(cfg, Play(cfg, s, first), later)
    decreases |first|
  {
    if first == [] {
      assert first + later == later;
    } else {
      assert (first + later)[1..] == first[1..] + later;
      PlaySplits(cfg, Next(cfg, s, first[0]), first[1..], later);
    }
  }

  lemma PlayOne(cfg: Config, s: System, a: Move)
    ensures Play(cfg, s, [a]) == Next(cfg, s, a)
  {
    assert Play(cfg, s, [a]) == Play(cfg, Next(cfg, s, a), [a][1..]);
  }

  /** What the store returns for an unquoted event of a tester passes the handler's check. */
  lemma SerialStatusFits(journal: seq<Row>, e: Event)
    requires forall i :: 0 <= i < |journal| ==> JustifiedAt(journal, i)
    requires SerialResolve(journal, e).1.Returned?
    ensures var status := SerialResolve(journal, e).1.status;
            && status.command == RoutingCommand(e).Some?
            && (status.command ==> RoutingCommand(e) == Some(status.environment))
  {
    var found := FindKey(journal, EventKey(e.channel, e.eventId));
    if found.Some? {
      var i :| 0 <= i < |journal| && journal[i] == found.value;
      assert JustifiedAt(journal, i);
    }
  }

  /** What the handler has done for a delivery: acknowledged it, and forwarded it once unless it is a command. */
  ghost predicate Served(s: System, id: CallId, e: Event, status: Status) {
    id in s.deliveries
    && s.deliveries[id].stage == Responded(200)
    && s.deliveries[id].contacts == (if RoutingCommand(e).Some? then [] else [Forward(status.environment)])
  }

  lemma ResolvedIsServed(cfg: Config, s: System, id: CallId, e: Event, linked: nat, status: Status)
    requires id in s.deliveries && s.deliveries[id] == Delivery(e, Resolving, [], linked, None)
    requires Answered(s.store, id, status)
    requires status.command == RoutingCommand(e).Some?
             && (status.command ==> RoutingCommand(e) == Some(status.environment))
    ensures Served(Play(cfg, s, [ResolveReturned(id), ForwardAnswered(id, true)]), id, e, status)
  {
    var t := Next(cfg, s, ResolveReturned(id));
    PlaySplits(cfg, s, [ResolveReturned(id)], [ForwardAnswered(id, true)]);
    assert [ResolveReturned(id)] + [ForwardAnswered(id, true)] == [ResolveReturned(id), ForwardAnswered(id, true)];
    PlayOne(cfg, s, ResolveReturned(id));
    PlayOne(cfg, t, ForwardAnswered(id, true));
  }

  /** A delivery of a tester's unquoted event that nobody disturbs is acknowledged, after exactly one forward, to the
      environment that resolving the event serially gives; a command is acknowledged without one. */
  lemma UndisturbedDeliveryIsServed(cfg: Config, s: System, id: CallId, i: Inbound) returns (moves: seq<Move>)
    requires Inv(s.store) && id !in s.deliveries && id !in s.store.calls
    requires var d := Arrive(cfg, i, |s.prompts|);
             && d.stage.Resolving? && Accepts(cfg, d.event)
             && LockName(d.event.channel, d.event.sender) !in s.store.locks
             && SerialResolve(s.store.journal, d.event).1.Returned?
    ensures var e := Arrive(cfg, i, |s.prompts|).event;
            var result := SerialResolve(s.store.journal, e);
            var t := Play(cfg, s, moves);
            Served(t, id, e, result.1.status) && t.store.journal == result.0
  {
    var d := Arrive(cfg, i, |s.prompts|);
    var e := d.event;
    var status := SerialResolve(s.store.journal, e).1.status;
    var steps := UndisturbedCallIsSerial(cfg, s.store, id, e);
    var rest, last := steps[1..], [ResolveReturned(id), ForwardAnswered(id, true)];
    var t1 := Next(cfg, s, Receive(id, i));
    var t2 := t1.(store := Run(cfg, t1.store, rest));
    SerialStatusFits(s.store.journal, e);
    PlayOne(cfg, s, Receive(id, i));
    StoreOnly(cfg, t1, rest);
    assert t1.store == Step(cfg, s.store, steps[0]) && t2.store == Run(cfg, s.store, steps);
    ResolvedIsServed(cfg, t2, id, e, |s.prompts|, status);
    moves := [Receive(id, i)] + (MovesOf(rest) + last);
    PlaySplits(cfg, s, [Receive(id, i)], MovesOf(rest) + last);
    PlaySplits(cfg, t1, MovesOf(rest), last);
    LastKeepsStore(cfg, t2, id);
  }

  lemma LastKeepsStore(cfg: Config, s: System, id: CallId)
    ensures Play(cfg, s, [ResolveReturned(id), ForwardAnswered(id, true)]).store == s.store
  {
    PlaySplits(cfg, s, [ResolveReturned(id)], [ForwardAnswered(id, true)]);
    assert [ResolveReturned(id)] + [ForwardAnswered(id, true)] == [ResolveReturned(id), ForwardAnswered(id, true)];
    PlayOne(cfg, s, ResolveReturned(id));
    PlayOne(cfg, Next(cfg, s, ResolveReturned(id)), ForwardAnswered(id, true));
  }

  /** The handler's own check of the store's answer never rejects what the store returns. */
  lemma StoreAnswersAreValid(cfg: Config, moves: seq<Move>, id: CallId, status: Status)
    requires Answered(Play(cfg, IDLE, moves).store, id, status)
    ensures var e := Play(cfg, IDLE, moves).store.calls[id].event;
            && status.command == RoutingCommand(e).Some?
            && (status.command ==> RoutingCommand(e) == Some(status.environment))
  {
    IdleInv(cfg);
    PlayKeepsInv(cfg, IDLE, moves);
    var s := Play(cfg, IDLE, moves).store;
    assert CallOk(s.journal, s.calls[id]);
    var i :| 0 <= i < |s.journal| && s.journal[i] == Row(s.calls[id].event, status);
    assert JustifiedAt(s.journal, i);
  }
}
