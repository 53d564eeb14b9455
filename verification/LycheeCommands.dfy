/** What resolving an event does, said of the event's own fields and words. */
module LycheeCommands {
  import opened Common
  import opened LycheeQuery
  import opened LycheeStore

  /** A text message without media or quote that consists of these words. */
  predicate Says(e: Event, words: seq<string>) {
    && e.messageType == Some("text") && e.hasMedia != Some(true)
    && (e.quote == NoQuote || e.quote == Quote(""))
    && e.text.Some? && Words(e.text.value) == words
  }

  predicate StartsTests(e: Event) { Says(e, ["בדיקות"]) }

  predicate StopsTests(e: Event) { Says(e, ["סיום", "בדיקות"]) }

  /** The router takes an event for a command exactly when it says the command's words. */
  lemma CommandsAreSaid(e: Event)
    ensures RoutingCommand(e) == Some(Dev) <==> StartsTests(e)
    ensures RoutingCommand(e) == Some(Prod) <==> StopsTests(e)
    ensures RoutingCommand(e).None? <==> !StartsTests(e) && !StopsTests(e)
  {
    if e.text.Some? {
      CommandByWords(e.text.value);
    }
  }

  /** Over any run, whatever fails and however calls interleave, an answer carries the command flag and the
      command's environment exactly when the event says the command; media and other types never do. */
  lemma AnswersFollowTheWords(cfg: Config, actions: seq<Action>, id: CallId, x: Status)
    requires Answered(Run(cfg, EMPTY, actions), id, x)
    ensures var e := Run(cfg, EMPTY, actions).calls[id].event;
            && (x == Status(true, Dev) <==> StartsTests(e))
            && (x == Status(true, Prod) <==> StopsTests(e))
            && (x.command ==> e.messageType == Some("text") && e.hasMedia != Some(true))
  {
    var s := Run(cfg, EMPTY, actions);
    var i := AnswerIsRow(cfg, actions, id, x);
    CommandsAreSaid(s.calls[id].event);
  }

  // ---- Which events are resolved at all ----

  predicate FitsColumn(s: string) { 1 <= |s| < 256 }

  /** A listed sender, the configured channel, three ids that fit their columns, a text of at most 8192 characters,
      media flag and type present, no quote, and a time that parses from at most 64 characters. */
  predicate Admissible(cfg: Config, e: Event) {
    && e.channel == cfg.channel && e.sender in cfg.testPhones
    && (forall s :: s in [Some(e.eventId), e.messageId, e.whatsappId] ==> s.Some? && FitsColumn(s.value))
    && e.text != None && |e.text.value| <= 8192
    && e.hasMedia in {Some(true), Some(false)} && e.messageType != None
    && (e.quote == NoQuote || e.quote == Quote(""))
    && e.stamp != NoStamp && e.stamp.length <= 64
  }

  lemma AcceptsIff(cfg: Config, e: Event)
    ensures Accepts(cfg, e) <==> Admissible(cfg, e)
    ensures Admissible(cfg, e) ==> Instant(e) == e.stamp.at
  {
    var ids := [Some(e.eventId), e.messageId, e.whatsappId];
    assert ids[0] in ids && ids[1] in ids && ids[2] in ids;
    assert e.hasMedia.Some? ==> e.hasMedia.value || !e.hasMedia.value;
  }

  /** Any other event is refused before a connection is taken, and nothing else changes. */
  lemma RefusedUnlessAdmissible(cfg: Config, s: State, id: CallId, e: Event)
    requires id !in s.calls
    ensures var t := Step(cfg, s, Begin(id, e));
            && t.journal == s.journal && t.locks == s.locks && id in t.calls && t.calls - {id} == s.calls
            && t.calls[id].event == e && !t.calls[id].connected
            && t.calls[id].phase == if Admissible(cfg, e) then Connecting else Done(Threw)
  {
    AcceptsIff(cfg, e);
    var t := Step(cfg, s, Begin(id, e));
    assert t.calls - {id} == s.calls;
  }

  // ---- An undisturbed call ----

  /** A journalled command of the event's sender and channel at or before the event's time. */
  predicate Counts(r: Row, e: Event) {
    r.status.command && r.hash.channel == e.channel && r.hash.sender == e.sender && Instant(r.hash) <= Instant(e)
  }

  /** The sender's latest commands are of this environment, or there is none and it is prod. */
  ghost predicate InMode(journal: seq<Row>, e: Event, environment: Environment) {
    || (environment == Prod && forall r :: r in journal ==> !Counts(r, e))
    || exists r :: && r in journal && Counts(r, e) && r.status.environment == environment
                   && forall q :: q in journal && Counts(q, e) ==>
                        Instant(q.hash) < Instant(r.hash)
                        || (Instant(q.hash) == Instant(r.hash) && q.status.environment == environment)
  }

  lemma InModeIs(journal: seq<Row>, e: Event, environment: Environment)
    ensures InMode(journal, e, environment) <==>
            Decide(CommandsUpTo(journal, LockName(e.channel, e.sender), Instant(e))) == Some(environment)
  {
    var all := CommandsUpTo(journal, LockName(e.channel, e.sender), Instant(e));
    CommandsAre(journal, e);
    if all != {} {
      if Decide(all) == Some(environment) { DecidedIsMode(journal, e, environment); }
      if InMode(journal, e, environment) { ModeDecides(journal, e, environment); }
    }
  }

  /** The latest command of the deciding environment, and no other at its instant. */
  lemma DecidedIsLatest(all: set<Command>, environment: Environment) returns (t: int)
    requires all != {} && Decide(all) == Some(environment)
    ensures Command(t, environment) in all
    ensures forall c :: c in all ==> c.at < t || c == Command(t, environment)
  {
    LatestExists(all);
    t :| IsLatest(all, t);
    forall u | IsLatest(all, u) ensures u == t { AtMostOneIsLatest(all, t, u); }
    var w :| w in all && w.at == t;
    assert w == Command(t, w.environment);
    forall c | c in all ensures c.at < t || c == Command(t, environment) {
      assert c == Command(c.at, c.environment);
    }
  }

  lemma DecidedIsMode(journal: seq<Row>, e: Event, environment: Environment)
    requires var all := CommandsUpTo(journal, LockName(e.channel, e.sender), Instant(e));
             all != {} && Decide(all) == Some(environment)
    ensures InMode(journal, e, environment)
  {
    var all := CommandsUpTo(journal, LockName(e.channel, e.sender), Instant(e));
    CommandsAre(journal, e);
    var t := DecidedIsLatest(all, environment);
    var r :| r in journal && Counts(r, e) && Command(t, environment) == Command(r.At(), r.status.environment);
    forall q | q in journal && Counts(q, e)
      ensures Instant(q.hash) < Instant(r.hash)
              || (Instant(q.hash) == Instant(r.hash) && q.status.environment == environment)
    {
      assert Command(q.At(), q.status.environment) in all;
    }
  }

  lemma CommandsAre(journal: seq<Row>, e: Event)
    ensures var all := CommandsUpTo(journal, LockName(e.channel, e.sender), Instant(e));
            && (forall r :: r in journal && Counts(r, e) ==> Command(r.At(), r.status.environment) in all)
            && (forall c :: c in all ==>
                  exists r :: r in journal && Counts(r, e) && c == Command(r.At(), r.status.environment))
  {
  }

  lemma ModeDecides(journal: seq<Row>, e: Event, environment: Environment)
    requires InMode(journal, e, environment)
    requires exists r :: r in journal && Counts(r, e)
    ensures Decide(CommandsUpTo(journal, LockName(e.channel, e.sender), Instant(e))) == Some(environment)
  {
    var all := CommandsUpTo(journal, LockName(e.channel, e.sender), Instant(e));
    CommandsAre(journal, e);
    var r :| && r in journal && Counts(r, e) && r.status.environment == environment
             && forall q :: q in journal && Counts(q, e) ==>
                  Instant(q.hash) < Instant(r.hash)
                  || (Instant(q.hash) == Instant(r.hash) && q.status.environment == environment);
    assert Command(r.At(), environment) in all;
    LatestDecides(all, r.At(), environment);
  }

  /** The call journalled its event with this status and answered it. */
  ghost predicate Recorded(s: State, t: State, id: CallId, e: Event, status: Status) {
    t.journal == s.journal + [Row(e, status)] && Answered(t, id, status)
  }

  /** The event's key is new to the journal. */
  predicate IsNew(journal: seq<Row>, e: Event) {
    forall r :: r in journal ==> !(r.hash.channel == e.channel && r.hash.eventId == e.eventId)
  }

  /** An undisturbed first resolve journals a command as such; any other event with the sender's mode at its time,
      or not at all when both commands share the latest instant. */
  lemma FirstResolve(cfg: Config, s: State, id: CallId, e: Event) returns (actions: seq<Action>)
    requires id !in s.calls && Admissible(cfg, e) && LockName(e.channel, e.sender) !in s.locks && IsNew(s.journal, e)
    ensures var t := Run(cfg, s, actions);
            && id in t.calls && LockName(e.channel, e.sender) !in t.locks && t.calls[id].released == 1
            && (StartsTests(e) ==> Recorded(s, t, id, e, Status(true, Dev)))
            && (StopsTests(e) ==> Recorded(s, t, id, e, Status(true, Prod)))
            && (!StartsTests(e) && !StopsTests(e) ==>
                  && (forall m :: InMode(s.journal, e, m) ==> Recorded(s, t, id, e, Status(false, m)))
                  && ((forall m :: !InMode(s.journal, e, m)) ==>
                      t.journal == s.journal && t.calls[id].phase == Done(Threw)))
  {
    AcceptsIff(cfg, e);
    actions := UndisturbedCallIsSerial(cfg, s, id, e);
    NewIsNotFound(s.journal, e);
    CommandsAreSaid(e);
    forall m ensures InMode(s.journal, e, m) <==>
        Decide(CommandsUpTo(s.journal, LockName(e.channel, e.sender), Instant(e))) == Some(m)
    {
      InModeIs(s.journal, e, m);
    }
  }

  lemma NewIsNotFound(journal: seq<Row>, e: Event)
    ensures IsNew(journal, e) <==> FindKey(journal, EventKey(e.channel, e.eventId)).None?
  {
  }

  /** Resolving an event again answers what the journal holds of it, and refuses another event under its key. */
  lemma RepeatedResolve(cfg: Config, s: State, id: CallId, e: Event, row: Row) returns (actions: seq<Action>)
    requires Inv(s) && id !in s.calls && Admissible(cfg, e) && LockName(e.channel, e.sender) !in s.locks
    requires row in s.journal && row.hash.channel == e.channel && row.hash.eventId == e.eventId
    ensures var t := Run(cfg, s, actions);
            && t.journal == s.journal && id in t.calls
            && (row.hash == e ==> Answered(t, id, row.status))
            && (row.hash != e ==> t.calls[id].phase == Done(Threw))
  {
    AcceptsIff(cfg, e);
    actions := UndisturbedCallIsSerial(cfg, s, id, e);
    var i :| 0 <= i < |s.journal| && s.journal[i] == row;
    forall a, b | 0 <= a < b < |s.journal| ensures s.journal[a].Key() != s.journal[b].Key() {
      assert JustifiedAt(s.journal, b);
    }
    FindTheKey(s.journal, i);
  }
}
