/** How each kind of delivery is answered, said of the fields of the request. */
module LycheeServed {
  import opened Common
  import opened Text
  import opened LycheeQuery
  import opened LycheeStore
  import opened LycheePhone
  import opened LycheeWebhook
  import opened LycheeCommands

  // ---- Who a delivery is from ----

  predicate Blank(text: string) { forall c :: c in text ==> IsSpace(c) }

  /** A received message of the configured channel whose contact is this number; a sender field that is neither absent
      nor blank names the same number. */
  predicate IsFrom(cfg: Config, i: Inbound, number: string) {
    && i.kind == "message.received" && i.hasEventId && i.event.channel == cfg.channel
    && i.contactPhone.Some? && Phone(i.contactPhone.value) == Some(number)
    && (i.senderPhone == Missing
        || (i.senderPhone.Text? && (Blank(i.senderPhone.text) || Phone(i.senderPhone.text) == Some(number))))
  }

  predicate Unquoting(i: Inbound) { i.event.quote == NoQuote || i.event.quote == Quote("") }

  predicate Quoting(i: Inbound, reply: string) { i.event.quote == Quote(reply) && 1 <= |reply| <= 255 }

  lemma {:induction false} TrimmedToNothing(s: string)
    ensures TrimLeft(s) == "" <==> Blank(s)
    decreases |s|
  {
    if s != [] {
      TrimmedToNothing(s[1..]);
      assert s == [s[0]] + s[1..];
    }
  }

  lemma BlankIsNoNumber(s: string)
    requires Blank(s)
    ensures Phone(s).None?
  {
    BlankStripsToNothing(s);
  }

  lemma {:induction false} BlankStripsToNothing(s: string)
    requires Blank(s)
    ensures Strip(s) == ""
  {
    if s != [] {
      assert s[0] in s;
      BlankStripsToNothing(s[1..]);
    }
  }

  lemma SenderIs(i: Inbound, number: string)
    ensures Sender(i) == Some(number) <==>
            && i.contactPhone.Some? && Phone(i.contactPhone.value) == Some(number)
            && (i.senderPhone == Missing
                || (i.senderPhone.Text? && (Blank(i.senderPhone.text) || Phone(i.senderPhone.text) == Some(number))))
  {
    if i.senderPhone.Text? {
      TrimmedToNothing(i.senderPhone.text);
    }
  }

  // ---- Prompts of development ----

  lemma {:induction false} OwnedCounts(prompts: seq<Prompt>, e: Event)
    requires e.quote.Quote?
    ensures Owned(prompts, e) == multiset(prompts)[Prompt(e.channel, e.sender, e.quote.id)]
  {
    if prompts != [] {
      OwnedCounts(prompts[1..], e);
      assert prompts == [prompts[0]] + prompts[1..];
    }
  }

  /** How many prompts of development the number's reply quotes. */
  function Quoted(s: System, i: Inbound, number: string): nat
    requires i.event.quote.Quote?
  {
    multiset(s.prompts)[Prompt(i.event.channel, number, i.event.quote.id)]
  }

  // ---- Every kind of delivery ----

  /** The delivery was answered with this code after these requests to the backends. */
  predicate Ended(s: System, id: CallId, code: int, contacts: seq<Contact>) {
    id in s.deliveries && s.deliveries[id].stage == Responded(code) && s.deliveries[id].contacts == contacts
  }

  predicate Fresh(s: System, id: CallId) { id !in s.deliveries && id !in s.store.calls }

  lemma PlayTwo(cfg: Config, s: System, a: Move, b: Move)
    ensures Play(cfg, s, [a, b]) == Next(cfg, Next(cfg, s, a), b)
  {
    assert [a, b] == [a] + [b];
    PlaySplits(cfg, s, [a], [b]);
    PlayOne(cfg, s, a);
    PlayOne(cfg, Next(cfg, s, a), b);
  }

  lemma PlayThree(cfg: Config, s: System, a: Move, b: Move, c: Move)
    ensures Play(cfg, s, [a, b, c]) == Next(cfg, Next(cfg, Next(cfg, s, a), b), c)
  {
    assert [a, b, c] == [a] + [b, c];
    PlaySplits(cfg, s, [a], [b, c]);
    PlayOne(cfg, s, a);
    PlayTwo(cfg, Next(cfg, s, a), b, c);
  }

  /** A delivery is refused at once, with 400 and no request to a backend, exactly when it is from nobody or its quote
      is no id of at most 255 characters; nothing else changes. */
  lemma RefusedIff(cfg: Config, s: System, id: CallId, i: Inbound)
    requires Fresh(s, id)
    ensures var t := Next(cfg, s, Receive(id, i));
            && id in t.deliveries && t.deliveries - {id} == s.deliveries && t.prompts == s.prompts
            && (t.deliveries[id].stage == Responded(400) <==>
                (forall number :: !IsFrom(cfg, i, number)) || !(Unquoting(i) || exists reply :: Quoting(i, reply)))
            && (t.deliveries[id].stage == Responded(400) ==> Ended(t, id, 400, []) && t.store == s.store)
  {
    assert Next(cfg, s, Receive(id, i)).deliveries - {id} == s.deliveries;
    if Sender(i).Some? {
      SenderIs(i, Sender(i).value);
    } else {
      forall number ensures !IsFrom(cfg, i, number) { SenderIs(i, number); }
    }
    assert i.event.quote.Quote? && 1 <= |i.event.quote.id| <= 255 ==> Quoting(i, i.event.quote.id);
    assert IsFrom(cfg, i, if Sender(i).Some? then Sender(i).value else "") <==>
           i.kind == "message.received" && i.hasEventId && i.event.channel == cfg.channel && Sender(i).Some?;
  }

  /** A message of a number outside the test list that quotes nothing is forwarded to production, once, and answered
      as production does. */
  lemma OutsiderIsServed(cfg: Config, s: System, id: CallId, i: Inbound, number: string, accepted: bool)
    requires Fresh(s, id) && IsFrom(cfg, i, number) && number !in cfg.testPhones && Unquoting(i)
    ensures var t := Play(cfg, s, [Receive(id, i), ForwardAnswered(id, accepted)]);
            Ended(t, id, if accepted then 200 else 502, [Forward(Prod)])
  {
    SenderIs(i, number);
    PlayTwo(cfg, s, Receive(id, i), ForwardAnswered(id, accepted));
  }

  /** A quoted reply of such a number is probed; it is forwarded to production and answered as production does if
      production owns the question, refused if not, and failed if production does not say. */
  lemma OutsiderReplyIsServed(cfg: Config, s: System, id: CallId, i: Inbound, number: string, reply: string,
                              accepted: bool)
    requires Fresh(s, id) && IsFrom(cfg, i, number) && number !in cfg.testPhones && Quoting(i, reply)
    ensures var t := Play(cfg, s, [Receive(id, i), ProbeAnswered(id, Some(true)), ForwardAnswered(id, accepted)]);
            Ended(t, id, if accepted then 200 else 502, [Probe(Prod), Forward(Prod)])
    ensures Ended(Play(cfg, s, [Receive(id, i), ProbeAnswered(id, Some(false))]), id, 409, [Probe(Prod)])
    ensures Ended(Play(cfg, s, [Receive(id, i), ProbeAnswered(id, None)]), id, 502, [Probe(Prod)])
  {
    SenderIs(i, number);
    PlayThree(cfg, s, Receive(id, i), ProbeAnswered(id, Some(true)), ForwardAnswered(id, accepted));
    PlayTwo(cfg, s, Receive(id, i), ProbeAnswered(id, Some(false)));
    PlayTwo(cfg, s, Receive(id, i), ProbeAnswered(id, None));
  }

  /** A tester's reply to a question that one prompt of development owns is forwarded to development, whatever the
      sender's mode; one that two prompts own fails, and so does one without a time. */
  lemma TesterReplyToDev(cfg: Config, s: System, id: CallId, i: Inbound, number: string, reply: string, accepted: bool)
    requires Fresh(s, id) && IsFrom(cfg, i, number) && number in cfg.testPhones && Quoting(i, reply)
    ensures i.event.stamp != NoStamp && Quoted(s, i, number) == 1 ==>
              var t := Play(cfg, s, [Receive(id, i), OwnersRead(id, true), ForwardAnswered(id, accepted)]);
              Ended(t, id, if accepted then 200 else 502, [Forward(Dev)])
    ensures i.event.stamp != NoStamp && Quoted(s, i, number) > 1 ==>
              Ended(Play(cfg, s, [Receive(id, i), OwnersRead(id, true)]), id, 502, [])
    ensures i.event.stamp == NoStamp ==> Ended(Play(cfg, s, [Receive(id, i)]), id, 502, [])
  {
    SenderIs(i, number);
    OwnedCounts(s.prompts, i.event.(sender := number));
    PlayThree(cfg, s, Receive(id, i), OwnersRead(id, true), ForwardAnswered(id, accepted));
    PlayTwo(cfg, s, Receive(id, i), OwnersRead(id, true));
    PlayOne(cfg, s, Receive(id, i));
  }

  /** The moves of a reply that no prompt of development owns, up to the answer about the sender's mode. */
  function Asked(id: CallId, i: Inbound, rows: seq<Command>): seq<Move> {
    [Receive(id, i), OwnersRead(id, true), ModesRead(id, Some(rows))]
  }

  /** Where that leaves the reply: probing in prod mode, refused in dev mode, failed if both commands are the latest. */
  lemma AskedModes(cfg: Config, s: System, id: CallId, i: Inbound, number: string, reply: string)
    returns (rows: seq<Command>)
    requires Fresh(s, id) && IsFrom(cfg, i, number) && number in cfg.testPhones && Quoting(i, reply)
    requires i.event.stamp != NoStamp && Quoted(s, i, number) == 0
    ensures var t := Play(cfg, s, Asked(id, i, rows));
            var e := i.event.(sender := number);
            && id in t.deliveries
            && (InMode(s.store.journal, e, Prod) ==>
                  t.deliveries[id].stage == Probing && t.deliveries[id].contacts == [Probe(Prod)])
            && (InMode(s.store.journal, e, Dev) ==> Ended(t, id, 409, []))
            && ((forall m :: !InMode(s.store.journal, e, m)) ==> Ended(t, id, 502, []))
  {
    var e := i.event.(sender := number);
    var all := CommandsUpTo(s.store.journal, LockName(e.channel, e.sender), Instant(e));
    TopTwoExists(all);
    rows :| TopTwo(rows, all);
    var t := Play(cfg, s, [Receive(id, i), OwnersRead(id, true)]);
    UnownedWaits(cfg, s, id, i, number, reply);
    ModesAnswered(cfg, t, id, t.deliveries[id], rows);
    assert Asked(id, i, rows) == [Receive(id, i), OwnersRead(id, true)] + [ModesRead(id, Some(rows))];
    PlaySplits(cfg, s, [Receive(id, i), OwnersRead(id, true)], [ModesRead(id, Some(rows))]);
    PlayOne(cfg, t, ModesRead(id, Some(rows)));
  }

  lemma UnownedWaits(cfg: Config, s: System, id: CallId, i: Inbound, number: string, reply: string)
    requires Fresh(s, id) && IsFrom(cfg, i, number) && number in cfg.testPhones && Quoting(i, reply)
    requires i.event.stamp != NoStamp && Quoted(s, i, number) == 0
    ensures var t := Play(cfg, s, [Receive(id, i), OwnersRead(id, true)]);
            var e := i.event.(sender := number);
            t == s.(deliveries := s.deliveries[id := Delivery(e, Modes, [], |s.prompts|, None)])
  {
    SenderIs(i, number);
    OwnedCounts(s.prompts, i.event.(sender := number));
    PlayTwo(cfg, s, Receive(id, i), OwnersRead(id, true));
    var d := Delivery(i.event.(sender := number), Owners, [], |s.prompts|, None);
    assert Next(cfg, s, Receive(id, i)) == Update(s, id, d);
    assert s.deliveries[id := d][id := d.(stage := Modes)] == s.deliveries[id := d.(stage := Modes)];
  }

  lemma ModesAnswered(cfg: Config, s: System, id: CallId, d: Delivery, rows: seq<Command>)
    requires id in s.deliveries && s.deliveries[id] == d && d.stage.Modes? && d.contacts == []
    requires QueryAnswer(s.store.journal, d.event, rows)
    ensures var t := Next(cfg, s, ModesRead(id, Some(rows)));
            && id in t.deliveries
            && (InMode(s.store.journal, d.event, Prod) ==>
                  t.deliveries[id].stage == Probing && t.deliveries[id].contacts == [Probe(Prod)])
            && (InMode(s.store.journal, d.event, Dev) ==> Ended(t, id, 409, []))
            && ((forall m :: !InMode(s.store.journal, d.event, m)) ==> Ended(t, id, 502, []))
  {
    QueryDecides(rows, CommandsUpTo(s.store.journal, LockName(d.event.channel, d.event.sender), Instant(d.event)));
    InModeIs(s.store.journal, d.event, Prod);
    InModeIs(s.store.journal, d.event, Dev);
    assert Answer(rows).Some? ==> Answer(rows).value == Dev || Answer(rows).value == Prod;
  }

  /** A tester's reply that no prompt of development owns: in dev mode it is refused without asking anyone; in prod mode
      production is probed, and it is forwarded there exactly if production owns the question. */
  lemma TesterReplyToProd(cfg: Config, s: System, id: CallId, i: Inbound, number: string, reply: string, owns: bool,
                          accepted: bool)
    returns (rows: seq<Command>)
    requires Fresh(s, id) && IsFrom(cfg, i, number) && number in cfg.testPhones && Quoting(i, reply)
    requires i.event.stamp != NoStamp && Quoted(s, i, number) == 0
    ensures var t := Play(cfg, s, Asked(id, i, rows) + [ProbeAnswered(id, Some(owns)), ForwardAnswered(id, accepted)]);
            var e := i.event.(sender := number);
            && (InMode(s.store.journal, e, Prod) && owns ==>
                  Ended(t, id, if accepted then 200 else 502, [Probe(Prod), Forward(Prod)]))
            && (InMode(s.store.journal, e, Prod) && !owns ==> Ended(t, id, 409, [Probe(Prod)]))
            && (InMode(s.store.journal, e, Dev) ==> Ended(t, id, 409, []))
  {
    rows := AskedModes(cfg, s, id, i, number, reply);
    var t := Play(cfg, s, Asked(id, i, rows));
    PlaySplits(cfg, s, Asked(id, i, rows), [ProbeAnswered(id, Some(owns)), ForwardAnswered(id, accepted)]);
    PlayTwo(cfg, t, ProbeAnswered(id, Some(owns)), ForwardAnswered(id, accepted));
  }

  /** A tester's event that quotes nothing: an undisturbed first delivery of a command is journalled and acknowledged
      without a request to a backend; any other is journalled and forwarded, once, as the sender's mode says. */
  lemma TesterIsServed(cfg: Config, s: System, id: CallId, i: Inbound, number: string, e: Event)
    returns (moves: seq<Move>)
    requires Fresh(s, id) && Inv(s.store) && IsFrom(cfg, i, number) && number in cfg.testPhones && Unquoting(i)
    requires e == i.event.(sender := number) && Admissible(cfg, e)
    requires LockName(e.channel, number) !in s.store.locks && IsNew(s.store.journal, e)
    requires StartsTests(e) || StopsTests(e) || exists m :: InMode(s.store.journal, e, m)
    ensures var t := Play(cfg, s, moves);
            && (StartsTests(e) ==>
                  Ended(t, id, 200, []) && t.store.journal == s.store.journal + [Row(e, Status(true, Dev))])
            && (StopsTests(e) ==>
                  Ended(t, id, 200, []) && t.store.journal == s.store.journal + [Row(e, Status(true, Prod))])
            && (!StartsTests(e) && !StopsTests(e) ==>
                  forall m :: InMode(s.store.journal, e, m) ==>
                    Ended(t, id, 200, [Forward(m)]) && t.store.journal == s.store.journal + [Row(e, Status(false, m))])
  {
    SenderIs(i, number);
    AcceptsIff(cfg, e);
    CommandsAreSaid(e);
    NewIsNotFound(s.store.journal, e);
    forall m ensures InMode(s.store.journal, e, m) <==>
        Decide(CommandsUpTo(s.store.journal, LockName(e.channel, e.sender), Instant(e))) == Some(m)
    {
      InModeIs(s.store.journal, e, m);
    }
    moves := UndisturbedDeliveryIsServed(cfg, s, id, i);
  }

  // ---- Probes over runs ----

  lemma {:induction false} AnswersWereGiven(cfg: Config, moves: seq<Move>, id: CallId)
    requires id in Play(cfg, IDLE, moves).deliveries
    ensures var d := Play(cfg, IDLE, moves).deliveries[id];
            d.owns.Some? ==> ProbeAnswered(id, d.owns) in moves
    decreases |moves|
  {
    if moves != [] {
      var init, last := moves[..|moves| - 1], moves[|moves| - 1];
      assert moves == init + [last];
      PlaySplits(cfg, IDLE, init, [last]);
      var s := Play(cfg, IDLE, init);
      PlayOne(cfg, s, last);
      if Play(cfg, IDLE, moves).deliveries[id].owns.Some? { OneAnswerGiven(cfg, s, last, id); }
      if id in s.deliveries { AnswersWereGiven(cfg, init, id); }
    }
  }

  lemma OneAnswerGiven(cfg: Config, s: System, a: Move, id: CallId)
    requires id in Next(cfg, s, a).deliveries && Next(cfg, s, a).deliveries[id].owns.Some?
    ensures var owns := Next(cfg, s, a).deliveries[id].owns;
            a == ProbeAnswered(id, owns) || (id in s.deliveries && s.deliveries[id].owns == owns)
  {
  }

  /** Over any run, a quoted reply is forwarded to production only if production was asked and said that it owns
      the question; and a probed reply is refused with 409 only if production said that it does not. */
  lemma ForwardedOnlyIfOwned(cfg: Config, moves: seq<Move>, id: CallId)
    requires id in Play(cfg, IDLE, moves).deliveries
    ensures var d := Play(cfg, IDLE, moves).deliveries[id];
            && (d.contacts == [Probe(Prod), Forward(Prod)] ==> ProbeAnswered(id, Some(true)) in moves)
            && (d.stage == Responded(409) && d.contacts != [] ==> ProbeAnswered(id, Some(false)) in moves)
            && (!Unquoted(d.event) && Forward(Prod) in d.contacts ==> ProbeAnswered(id, Some(true)) in moves)
  {
    IdleInv(cfg);
    PlayKeepsInv(cfg, IDLE, moves);
    AnswersWereGiven(cfg, moves, id);
    assert DeliveryOk(cfg, Play(cfg, IDLE, moves), id, Play(cfg, IDLE, moves).deliveries[id]);
  }
}
