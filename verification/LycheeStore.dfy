/** The routing store: calls of `resolve` by many callers, interleaved at every query, with
    a query failing, its answer getting lost or its database session ending at any point. */
module LycheeStore {
  import opened Common
  import opened LycheeQuery

  /** sha256 over the JSON array is taken to be injective, so the digest is its argument. */
  datatype EventKey = EventKey(channel: string, eventId: string)

  datatype LockName = LockName(channel: string, sender: string)

  datatype Status = Status(command: bool, environment: Environment)

  /** One journal row. The payload hash stands for the whole event. */
  datatype Row = Row(hash: Event, status: Status) {
    function Key(): EventKey { EventKey(hash.channel, hash.eventId) }
    function Lock(): LockName { LockName(hash.channel, hash.sender) }
    function At(): int { Instant(hash) }
  }

  datatype Outcome = Returned(status: Status) | Threw

  datatype Phase =
    | Connecting
    | Locking
    | Finding
    | Reading
    | Inserting(environment: Environment)
    | Releasing(outcome: Outcome)
    | Done(outcome: Outcome)

  /** One call of resolve. `locked` is the code's own flag, `session` says whether the
      database session behind its connection is alive, `released` and `destroyed` count
      what happened to the connection. */
  datatype Call = Call(event: Event, phase: Phase, locked: bool, session: bool,
                       connected: bool, released: nat, destroyed: nat) {
    function Lock(): LockName { LockName(event.channel, event.sender) }
    function Key(): EventKey { EventKey(event.channel, event.eventId) }
    predicate Holding() { locked && session && !phase.Done? }
  }

  datatype Config = Config(channel: string, testPhones: set<string>)

  type CallId = nat

  datatype State = State(journal: seq<Row>, locks: map<LockName, CallId>, calls: map<CallId, Call>)

  const EMPTY := State([], map[], map[])

  /** A step of one call, or of the environment. The flags say how the database answered. */
  datatype Action =
    | Begin(id: CallId, event: Event)
    | Connected(id: CallId, ok: bool)
    | LockAnswered(id: CallId, granted: bool)
    | KeyAnswered(id: CallId, ok: bool)
    | CommandsAnswered(id: CallId, rows: Option<seq<Command>>)
    | InsertAnswered(id: CallId, written: bool, acknowledged: bool)
    | ReleaseAnswered(id: CallId, freed: bool, confirmed: bool)
    | SessionLost(id: CallId)

  predicate ValidId(s: string) { 0 < |s| <= 255 }

  predicate ValidOptionalId(s: Option<string>) { s.Some? && ValidId(s.value) }

  /** The checks before any connection is taken. */
  predicate Accepts(c: Config, e: Event) {
    && e.sender in c.testPhones && e.channel == c.channel
    && ValidId(e.eventId) && ValidOptionalId(e.messageId) && ValidOptionalId(e.whatsappId)
    && e.text.Some? && |e.text.value| <= 8192 && e.hasMedia.Some? && e.messageType.Some?
    && Unquoted(e)
    && e.stamp.Stamp? && e.stamp.length <= 64
  }

  function CommandsUpTo(journal: seq<Row>, lock: LockName, at: int): set<Command> {
    set r | r in journal && r.Lock() == lock && r.status.command && r.At() <= at :: Command(r.At(), r.status.environment)
  }

  ghost predicate QueryAnswer(journal: seq<Row>, e: Event, rows: seq<Command>) {
    TopTwo(rows, CommandsUpTo(journal, LockName(e.channel, e.sender), Instant(e)))
  }

  /** The row with this primary key. */
  function FindKey(journal: seq<Row>, key: EventKey): Option<Row>
    ensures FindKey(journal, key).Some? ==>
            FindKey(journal, key).value in journal && FindKey(journal, key).value.Key() == key
    ensures FindKey(journal, key).None? ==> forall r :: r in journal ==> r.Key() != key
  {
    if journal == [] then None
    else if journal[0].Key() == key then Some(journal[0]) else FindKey(journal[1..], key)
  }

  /** The finally block, entered with the try block's outcome. */
  function Finally(c: Call, outcome: Outcome): Call {
    if c.locked then c.(phase := Releasing(outcome))
    else c.(phase := Done(outcome), released := c.released + 1)
  }

  function Put(s: State, id: CallId, c: Call): State { s.(calls := s.calls[id := c]) }

  function Free(s: State, id: CallId): State { s.(locks := map n | n in s.locks && s.locks[n] != id :: s.locks[n]) }

  function RowFor(e: Event, environment: Environment): Row {
    Row(e, Status(RoutingCommand(e).Some?, environment))
  }

  ghost function Step(cfg: Config, s: State, a: Action): State {
    if a.Begin? then
      if a.id in s.calls then s
      else if Accepts(cfg, a.event) then Put(s, a.id, Call(a.event, Connecting, false, false, false, 0, 0))
      else Put(s, a.id, Call(a.event, Done(Threw), false, false, false, 0, 0))
    else if a.id !in s.calls then s
    else
      var c := s.calls[a.id];
      match a
      case Connected(id, ok) =>
        if !c.phase.Connecting? then s
        else if ok then Put(s, id, c.(phase := Locking, connected := true, session := true))
        else Put(s, id, c.(phase := Done(Threw)))
      case LockAnswered(id, granted) =>
        if !c.phase.Locking? then s
        else if granted && c.session && c.Lock() !in s.locks then
          Put(s, id, c.(phase := Finding, locked := true)).(locks := s.locks[c.Lock() := id])
        else Put(s, id, Finally(c, Threw))
      case KeyAnswered(id, ok) =>
        if !c.phase.Finding? then s
        else if !ok || !c.session then Put(s, id, Finally(c, Threw))
        else
          var found := FindKey(s.journal, c.Key());
          if found.Some? then
            Put(s, id, Finally(c, if found.value.hash == c.event then Returned(found.value.status) else Threw))
          else if RoutingCommand(c.event).Some? then
            Put(s, id, c.(phase := Inserting(RoutingCommand(c.event).value)))
          else Put(s, id, c.(phase := Reading))
      case CommandsAnswered(id, rows) =>
        if !c.phase.Reading? then s
        else if rows.None? || !c.session then Put(s, id, Finally(c, Threw))
        else if !QueryAnswer(s.journal, c.event, rows.value) then s
        else if Answer(rows.value).None? then Put(s, id, Finally(c, Threw))
        else Put(s, id, c.(phase := Inserting(Answer(rows.value).value)))
      case InsertAnswered(id, written, acknowledged) =>
        if !c.phase.Inserting? then s
        else
          var row := RowFor(c.event, c.phase.environment);
          if written && c.session && FindKey(s.journal, c.Key()).None? then
            Put(s, id, Finally(c, if acknowledged then Returned(row.status) else Threw)).(journal := s.journal + [row])
          else Put(s, id, Finally(c, Threw))
      case ReleaseAnswered(id, freed, confirmed) =>
        if !c.phase.Releasing? then s
        else if freed && c.session then
          var t := Free(s, id);
          if confirmed then Put(t, id, c.(phase := Done(c.phase.outcome), released := c.released + 1))
          else Put(t, id, c.(phase := Done(Threw), destroyed := c.destroyed + 1))
        else Put(s, id, c.(phase := Done(Threw), destroyed := c.destroyed + 1))
      case SessionLost(id) => Free(Put(s, id, c.(session := false)), id)
  }

  ghost function Run(cfg: Config, s: State, actions: seq<Action>): State
    decreases |actions|
  {
    if actions == [] then s else Run(cfg, Step(cfg, s, actions[0]), actions[1..])
  }

  // ---- Invariants ----

  /** The environment that serial execution gives `e` on top of `journal`. */
  ghost predicate Decides(journal: seq<Row>, e: Event, environment: Environment) {
    if RoutingCommand(e).Some? then RoutingCommand(e) == Some(environment)
    else Decide(CommandsUpTo(journal, LockName(e.channel, e.sender), Instant(e))) == Some(environment)
  }

  ghost predicate NoOwnRow(journal: seq<Row>, c: Call) {
    forall r :: r in journal && r.Key() == c.Key() ==> r.Lock() != c.Lock()
  }

  /** A caller that believes it holds the lock, over a live session, does hold it. */
  ghost predicate HoldersHold(s: State) {
    forall id :: id in s.calls && s.calls[id].Holding() ==>
      s.calls[id].Lock() in s.locks && s.locks[s.calls[id].Lock()] == id
  }

  /** A lock is only held for a call that took it and whose connection is not back in the pool. */
  ghost predicate OwnersKnown(s: State) {
    forall n :: n in s.locks ==>
      && s.locks[n] in s.calls
      && var c := s.calls[s.locks[n]]; c.locked && c.session && c.Lock() == n && c.released == 0
  }

  predicate Accounted(c: Call) {
    && (c.locked <==>
        c.phase.Finding? || c.phase.Reading? || c.phase.Inserting? || c.phase.Releasing? || (c.phase.Done? && c.locked))
    && (c.phase.Connecting? ==> !c.connected && !c.locked)
    && (!c.phase.Connecting? && !c.phase.Done? ==> c.connected)
    && c.released + c.destroyed == (if c.phase.Done? && c.connected then 1 else 0)
    && (c.phase.Done? && c.phase.outcome.Returned? ==> c.released == 1)
  }

  ghost predicate CallOk(journal: seq<Row>, c: Call) {
    && Accounted(c)
    && (c.Holding() && (c.phase.Reading? || c.phase.Inserting?) ==> NoOwnRow(journal, c))
    && (c.Holding() && c.phase.Inserting? ==> Decides(journal, c.event, c.phase.environment))
    && (c.phase.Reading? ==> RoutingCommand(c.event).None?)
    && ((c.phase.Releasing? || c.phase.Done?) && c.phase.outcome.Returned? ==>
        Row(c.event, c.phase.outcome.status) in journal)
  }

  /** Row i is what a serial call would have appended to the rows before it. */
  ghost predicate JustifiedAt(journal: seq<Row>, i: nat)
    requires i < |journal|
  {
    var r := journal[i];
    && r == RowFor(r.hash, r.status.environment)
    && Decides(journal[..i], r.hash, r.status.environment)
    && (forall j :: 0 <= j < i ==> journal[j].Key() != r.Key())
  }

  ghost predicate Inv(s: State) {
    && HoldersHold(s) && OwnersKnown(s)
    && (forall id :: id in s.calls ==> CallOk(s.journal, s.calls[id]))
    && (forall i :: 0 <= i < |s.journal| ==> JustifiedAt(s.journal, i))
  }

  /** A step that only moves call `id`, leaving journal and locks alone. */
  lemma MoveKeepsInv(s: State, id: CallId, c: Call)
    requires Inv(s)
    requires CallOk(s.journal, c)
    requires c.Holding() ==> id in s.calls && s.calls[id].Holding() && c.Lock() == s.calls[id].Lock()
    requires forall n :: n in s.locks && s.locks[n] == id ==> c.locked && c.session && c.Lock() == n && c.released == 0
    ensures Inv(Put(s, id, c))
  {
  }

  lemma CommandsIgnoreOthers(journal: seq<Row>, row: Row, lock: LockName, at: int)
    requires row.Lock() != lock
    ensures CommandsUpTo(journal + [row], lock, at) == CommandsUpTo(journal, lock, at)
  {
  }

  /** An insert under the lock disturbs no other call. */
  lemma InsertKeepsCall(journal: seq<Row>, row: Row, d: Call)
    requires CallOk(journal, d)
    requires d.Holding() ==> d.Lock() != row.Lock()
    ensures CallOk(journal + [row], d)
  {
    if d.Holding() && d.phase.Inserting? && RoutingCommand(d.event).None? {
      CommandsIgnoreOthers(journal, row, d.Lock(), Instant(d.event));
    }
  }

  lemma InsertKeepsJournal(journal: seq<Row>, row: Row)
    requires forall i :: 0 <= i < |journal| ==> JustifiedAt(journal, i)
    requires row == RowFor(row.hash, row.status.environment) && Decides(journal, row.hash, row.status.environment)
    requires forall r :: r in journal ==> r.Key() != row.Key()
    ensures forall i :: 0 <= i < |journal| + 1 ==> JustifiedAt(journal + [row], i)
  {
    var longer := journal + [row];
    forall i | 0 <= i < |longer| ensures JustifiedAt(longer, i) {
      if i < |journal| {
        assert JustifiedAt(journal, i) && longer[..i] == journal[..i];
      } else {
        assert longer[..i] == journal;
      }
    }
  }

  lemma InsertKeepsInv(s: State, id: CallId, acknowledged: bool)
    requires Inv(s) && id in s.calls && s.calls[id].phase.Inserting? && s.calls[id].session
    requires FindKey(s.journal, s.calls[id].Key()).None?
    ensures var c := s.calls[id];
            var row := RowFor(c.event, c.phase.environment);
            var after := Put(s, id, Finally(c, if acknowledged then Returned(row.status) else Threw));
            Inv(after.(journal := s.journal + [row]))
  {
    var c := s.calls[id];
    var row := RowFor(c.event, c.phase.environment);
    assert CallOk(s.journal, c) && c.Holding();
    InsertKeepsJournal(s.journal, row);
    forall d | d in s.calls && d != id ensures CallOk(s.journal + [row], s.calls[d]) {
      InsertKeepsCall(s.journal, row, s.calls[d]);
    }
  }

  lemma FinallyIsOk(journal: seq<Row>, c: Call, outcome: Outcome)
    requires CallOk(journal, c) && !c.phase.Connecting? && !c.phase.Done?
    requires outcome.Returned? ==> c.locked && Row(c.event, outcome.status) in journal
    ensures CallOk(journal, Finally(c, outcome))
    ensures Finally(c, outcome).Holding() ==> c.Holding()
  {
  }

  lemma ThrowKeepsInv(s: State, id: CallId, outcome: Outcome)
    requires Inv(s) && id in s.calls && !s.calls[id].phase.Connecting? && !s.calls[id].phase.Done?
    requires outcome.Returned? ==> s.calls[id].locked && Row(s.calls[id].event, outcome.status) in s.journal
    ensures Inv(Put(s, id, Finally(s.calls[id], outcome)))
  {
    assert CallOk(s.journal, s.calls[id]);
    FinallyIsOk(s.journal, s.calls[id], outcome);
    MoveKeepsInv(s, id, Finally(s.calls[id], outcome));
  }

  lemma LockKeepsInv(s: State, id: CallId)
    requires Inv(s) && id in s.calls && s.calls[id].phase.Locking? && s.calls[id].session
    requires s.calls[id].Lock() !in s.locks
    ensures var c := s.calls[id];
            Inv(Put(s, id, c.(phase := Finding, locked := true)).(locks := s.locks[c.Lock() := id]))
  {
    assert CallOk(s.journal, s.calls[id]);
  }

  lemma KeyKeepsInv(cfg: Config, s: State, id: CallId, ok: bool)
    requires Inv(s) && id in s.calls && s.calls[id].phase.Finding?
    ensures Inv(Step(cfg, s, KeyAnswered(id, ok)))
  {
    var c := s.calls[id];
    assert CallOk(s.journal, c);
    var found := FindKey(s.journal, c.Key());
    if !ok || !c.session {
      ThrowKeepsInv(s, id, Threw);
    } else if found.Some? {
      ThrowKeepsInv(s, id, if found.value.hash == c.event then Returned(found.value.status) else Threw);
    } else {
      MoveKeepsInv(s, id, Step(cfg, s, KeyAnswered(id, ok)).calls[id]);
    }
  }

  lemma CommandsKeepInv(cfg: Config, s: State, id: CallId, rows: Option<seq<Command>>)
    requires Inv(s) && id in s.calls && s.calls[id].phase.Reading?
    ensures Inv(Step(cfg, s, CommandsAnswered(id, rows)))
  {
    var c := s.calls[id];
    assert CallOk(s.journal, c);
    if rows.None? || !c.session {
      ThrowKeepsInv(s, id, Threw);
    } else if QueryAnswer(s.journal, c.event, rows.value) {
      QueryDecides(rows.value, CommandsUpTo(s.journal, c.Lock(), Instant(c.event)));
      if Answer(rows.value).None? {
        ThrowKeepsInv(s, id, Threw);
      } else {
        MoveKeepsInv(s, id, c.(phase := Inserting(Answer(rows.value).value)));
      }
    }
  }

  lemma FreeKeepsInv(s: State, id: CallId, c: Call)
    requires Inv(s) && CallOk(s.journal, c) && !c.Holding()
    ensures Inv(Put(Free(s, id), id, c))
  {
  }

  lemma ReleaseKeepsInv(cfg: Config, s: State, id: CallId, freed: bool, confirmed: bool)
    requires Inv(s) && id in s.calls && s.calls[id].phase.Releasing?
    ensures Inv(Step(cfg, s, ReleaseAnswered(id, freed, confirmed)))
  {
    var c := s.calls[id];
    assert CallOk(s.journal, c);
    var after := Step(cfg, s, ReleaseAnswered(id, freed, confirmed)).calls[id];
    if freed && c.session {
      FreeKeepsInv(s, id, after);
    } else {
      MoveKeepsInv(s, id, after);
    }
  }

  lemma StepKeepsInv(cfg: Config, s: State, a: Action)
    requires Inv(s)
    ensures Inv(Step(cfg, s, a))
  {
    if a.Begin? {
      if a.id !in s.calls {
        MoveKeepsInv(s, a.id, Step(cfg, s, a).calls[a.id]);
      }
    } else if a.id in s.calls {
      var c := s.calls[a.id];
      assert CallOk(s.journal, c);
      match a
      case Connected(id, ok) =>
        if c.phase.Connecting? { MoveKeepsInv(s, id, Step(cfg, s, a).calls[id]); }
      case LockAnswered(id, granted) =>
        if c.phase.Locking? {
          if granted && c.session && c.Lock() !in s.locks { LockKeepsInv(s, id); } else { ThrowKeepsInv(s, id, Threw); }
        }
      case KeyAnswered(id, ok) =>
        if c.phase.Finding? { KeyKeepsInv(cfg, s, id, ok); }
      case CommandsAnswered(id, rows) =>
        if c.phase.Reading? { CommandsKeepInv(cfg, s, id, rows); }
      case InsertAnswered(id, written, acknowledged) =>
        if c.phase.Inserting? {
          if written && c.session && FindKey(s.journal, c.Key()).None? {
            InsertKeepsInv(s, id, acknowledged);
          } else {
            ThrowKeepsInv(s, id, Threw);
          }
        }
      case ReleaseAnswered(id, freed, confirmed) =>
        if c.phase.Releasing? { ReleaseKeepsInv(cfg, s, id, freed, confirmed); }
      case SessionLost(id) =>
        FreeKeepsInv(s, id, c.(session := false));
        assert Free(Put(s, id, c.(session := false)), id) == Put(Free(s, id), id, c.(session := false));
    }
  }

  lemma {:induction false} RunKeepsInv(cfg: Config, s: State, actions: seq<Action>)
    requires Inv(s)
    ensures Inv(Run(cfg, s, actions))
    decreases |actions|
  {
    if actions != [] {
      StepKeepsInv(cfg, s, actions[0]);
      RunKeepsInv(cfg, Step(cfg, s, actions[0]), actions[1..]);
    }
  }

  // ---- What every run guarantees ----

  /** One uninterrupted call of resolve: the journal after it and what the caller gets. */
  ghost function SerialResolve(journal: seq<Row>, e: Event): (seq<Row>, Outcome) {
    var found := FindKey(journal, EventKey(e.channel, e.eventId));
    if found.Some? then (journal, if found.value.hash == e then Returned(found.value.status) else Threw)
    else
      var environment :=
        if RoutingCommand(e).Some? then RoutingCommand(e)
        else Decide(CommandsUpTo(journal, LockName(e.channel, e.sender), Instant(e)));
      if environment.None? then (journal, Threw)
      else (journal + [RowFor(e, environment.value)], Returned(RowFor(e, environment.value).status))
  }

  predicate Answered(s: State, id: CallId, status: Status) {
    id in s.calls && s.calls[id].phase == Done(Returned(status))
  }

  lemma {:induction false} FindTheKey(journal: seq<Row>, i: nat)
    requires i < |journal|
    requires forall j, k :: 0 <= j < k < |journal| ==> journal[j].Key() != journal[k].Key()
    ensures FindKey(journal, journal[i].Key()) == Some(journal[i])
  {
    var found := FindKey(journal, journal[i].Key());
    assert journal[i] in journal;
    var k :| 0 <= k < |journal| && journal[k] == found.value;
  }

  lemma EmptyInv()
    ensures Inv(EMPTY)
  {
  }

  /** In every interleaving the journal is what its events, resolved one after the other without
      interruption, would have written, at most one row per key; and every answer a caller got is
      the answer a retry of its event gets from the journal. */
  lemma EveryRunIsSerial(cfg: Config, actions: seq<Action>)
    ensures var j := Run(cfg, EMPTY, actions).journal;
            && (forall i :: 0 <= i < |j| ==> SerialResolve(j[..i], j[i].hash) == (j[..i + 1], Returned(j[i].status)))
            && (forall i, k :: 0 <= i < k < |j| ==> j[i].Key() != j[k].Key())
    ensures var s := Run(cfg, EMPTY, actions);
            forall id, status :: Answered(s, id, status) ==>
              SerialResolve(s.journal, s.calls[id].event) == (s.journal, Returned(status))
  {
    EmptyInv();
    RunKeepsInv(cfg, EMPTY, actions);
    var s := Run(cfg, EMPTY, actions);
    var j := s.journal;
    forall i | 0 <= i < |j| ensures SerialResolve(j[..i], j[i].hash) == (j[..i + 1], Returned(j[i].status)) {
      assert JustifiedAt(j, i);
      assert j[..i] + [j[i]] == j[..i + 1];
    }
    forall i, k | 0 <= i < k < |j| ensures j[i].Key() != j[k].Key() { assert JustifiedAt(j, k); }
    forall id, status | Answered(s, id, status)
      ensures SerialResolve(j, s.calls[id].event) == (j, Returned(status))
    {
      assert CallOk(j, s.calls[id]);
      var i :| 0 <= i < |j| && j[i] == Row(s.calls[id].event, status);
      FindTheKey(j, i);
    }
  }

  lemma {:induction false} RunKeepsAnswers(cfg: Config, s: State, actions: seq<Action>, id: CallId)
    requires id in s.calls && s.calls[id].phase.Done?
    ensures var t := Run(cfg, s, actions);
            id in t.calls && t.calls[id].phase == s.calls[id].phase && t.calls[id].event == s.calls[id].event
    decreases |actions|
  {
    if actions != [] {
      RunKeepsAnswers(cfg, Step(cfg, s, actions[0]), actions[1..], id);
    }
  }

  lemma {:induction false} RunSplits(cfg: Config, s: State, first: seq<Action>, later: seq<Action>)
    ensures Run(cfg, s, first + later) == Run(cfg, Run(cfg, s, first), later)
    decreases |first|
  {
    if first == [] {
      assert first + later == later;
    } else {
      assert (first + later)[1..] == first[1..] + later;
      RunSplits(cfg, Step(cfg, s, first[0]), first[1..], later);
    }
  }

  /** The journal is append-only over any run. */
  lemma {:induction false} JournalGrows(cfg: Config, s: State, actions: seq<Action>)
    ensures s.journal <= Run(cfg, s, actions).journal
    decreases |actions|
  {
    if actions != [] {
      JournalGrows(cfg, Step(cfg, s, actions[0]), actions[1..]);
    }
  }

  /** A call answered at one time and any call for the same event answered at any later time, after
      any further commands, got the same environment and command flag. */
  lemma RetriesAgree(cfg: Config, first: seq<Action>, later: seq<Action>, a: CallId, b: CallId, x: Status, y: Status)
    requires Answered(Run(cfg, EMPTY, first), a, x)
    requires Answered(Run(cfg, EMPTY, first + later), b, y)
    requires Run(cfg, EMPTY, first).calls[a].event == Run(cfg, EMPTY, first + later).calls[b].event
    ensures x == y
  {
    RunSplits(cfg, EMPTY, first, later);
    RunKeepsAnswers(cfg, Run(cfg, EMPTY, first), later, a);
    EveryRunIsSerial(cfg, first + later);
  }

  /** Every finished call that took a connection either pooled it, and then no lock is left with that
      session, or destroyed it, never both; an unfinished call did neither; an answer is never given
      over a destroyed connection. */
  lemma ConnectionsAreCleanedUp(cfg: Config, actions: seq<Action>, id: CallId)
    requires id in Run(cfg, EMPTY, actions).calls
    ensures var s := Run(cfg, EMPTY, actions);
            var c := s.calls[id];
            && c.released + c.destroyed == (if c.phase.Done? && c.connected then 1 else 0)
            && (c.released == 1 ==> id !in s.locks.Values)
            && (c.phase.Done? && c.phase.outcome.Returned? ==> c.released == 1)
  {
    EmptyInv();
    RunKeepsInv(cfg, EMPTY, actions);
    var s := Run(cfg, EMPTY, actions);
    assert CallOk(s.journal, s.calls[id]);
    if id in s.locks.Values {
      var n :| n in s.locks && s.locks[n] == id;
    }
  }

  /** The lock alone keeps a sender's rows apart: a call about to insert over a live session finds no
      row of its own sender under its key, and its decision is the one the journal supports now. */
  lemma InsertIsUpToDate(cfg: Config, actions: seq<Action>, id: CallId)
    requires id in Run(cfg, EMPTY, actions).calls
    requires var c := Run(cfg, EMPTY, actions).calls[id]; c.phase.Inserting? && c.session
    ensures var s := Run(cfg, EMPTY, actions);
            && NoOwnRow(s.journal, s.calls[id])
            && Decides(s.journal, s.calls[id].event, s.calls[id].phase.environment)
  {
    EmptyInv();
    RunKeepsInv(cfg, EMPTY, actions);
    var s := Run(cfg, EMPTY, actions);
    assert CallOk(s.journal, s.calls[id]);
  }

  /** The decision depends only on which commands at or before the event's time are journalled, not on
      when they arrived; it is prod when there is none, and an error exactly when a command of each kind
      shares the latest instant. */
  lemma ArrivalOrderIsIrrelevant(j: seq<Row>, k: seq<Row>, e: Event, rows: seq<Command>, other: seq<Command>)
    requires forall r: Row :: r.status.command && r.Lock() == LockName(e.channel, e.sender) && r.At() <= Instant(e) ==>
               (r in j <==> r in k)
    requires QueryAnswer(j, e, rows) && QueryAnswer(k, e, other)
    ensures Answer(rows) == Answer(other)
    ensures var all := CommandsUpTo(j, LockName(e.channel, e.sender), Instant(e));
            && (all == {} ==> Answer(rows) == Some(Prod))
            && (Answer(rows).None? <==>
                exists t :: IsLatest(all, t) && Command(t, Dev) in all && Command(t, Prod) in all)
            && (Answer(rows).Some? && all != {} ==>
                exists t :: IsLatest(all, t) && Command(t, Answer(rows).value) in all)
  {
    var lock, at := LockName(e.channel, e.sender), Instant(e);
    var all := CommandsUpTo(j, lock, at);
    SameCommands(j, k, lock, at);
    SameCommands(k, j, lock, at);
    assert all == CommandsUpTo(k, lock, at);
    QueryDecides(rows, all);
    QueryDecides(other, all);
    if all != {} {
      LatestExists(all);
      var t :| IsLatest(all, t);
      forall u | IsLatest(all, u) ensures u == t { AtMostOneIsLatest(all, t, u); }
      var c :| c in all && c.at == t;
      assert c == Command(t, c.environment);
      assert c.environment == Dev || c.environment == Prod;
    }
  }

  lemma SameCommands(j: seq<Row>, k: seq<Row>, lock: LockName, at: int)
    requires forall r: Row :: r.status.command && r.Lock() == lock && r.At() <= at && r in j ==> r in k
    ensures CommandsUpTo(j, lock, at) <= CommandsUpTo(k, lock, at)
  {
  }

  /** The commands of the sender from one instant up to another are all of this environment. */
  ghost predicate OnlyCommand(journal: seq<Row>, lock: LockName, from: int, until: int, environment: Environment) {
    forall r :: r in journal && r.Lock() == lock && r.status.command && from <= r.At() <= until ==>
      r.At() == from && r.status.environment == environment
  }

  lemma CommandDecides(journal: seq<Row>, e: Event, command: Row)
    requires command in journal && command.status.command && command.Lock() == LockName(e.channel, e.sender)
    requires command.At() <= Instant(e)
    requires OnlyCommand(journal, command.Lock(), command.At(), Instant(e), command.status.environment)
    ensures Decide(CommandsUpTo(journal, LockName(e.channel, e.sender), Instant(e))) == Some(command.status.environment)
  {
    var all := CommandsUpTo(journal, command.Lock(), Instant(e));
    assert Command(command.At(), command.status.environment) in all;
    LatestDecides(all, command.At(), command.status.environment);
  }

  /** Commands take effect: once a command is acknowledged, an event of its sender that is first resolved later, and is
      not older than the command, gets the command's environment, unless the sender gave another command from that
      instant up to the event's. */
  lemma CommandsTakeEffect(cfg: Config, first: seq<Action>, later: seq<Action>, a: CallId, b: CallId, x: Status,
                           y: Status)
    requires Answered(Run(cfg, EMPTY, first), a, x) && x.command
    requires Answered(Run(cfg, EMPTY, first + later), b, y)
    requires var s, t := Run(cfg, EMPTY, first), Run(cfg, EMPTY, first + later);
             var command, e := Row(s.calls[a].event, x), t.calls[b].event;
             && command.Lock() == LockName(e.channel, e.sender) && RoutingCommand(e).None?
             && (forall r :: r in s.journal ==> r.Key() != EventKey(e.channel, e.eventId))
             && command.At() <= Instant(e)
             && OnlyCommand(t.journal, command.Lock(), command.At(), Instant(e), x.environment)
    ensures y == Status(false, x.environment)
  {
    var s, t := Run(cfg, EMPTY, first), Run(cfg, EMPTY, first + later);
    RunSplits(cfg, EMPTY, first, later);
    JournalGrows(cfg, s, later);
    var command, e := Row(s.calls[a].event, x), t.calls[b].event;
    var i := AnswerIsRow(cfg, first, a, x);
    var k := AnswerIsRow(cfg, first + later, b, y);
    var j := t.journal;
    NewKeyIsLater(s.journal, j, k);
    assert j[..k][i] == command;
    CommandDecides(j[..k], e, command);
  }

  /** A row whose key the journal did not have came later. */
  lemma NewKeyIsLater(before: seq<Row>, after: seq<Row>, k: nat)
    requires before <= after && k < |after| && forall r :: r in before ==> r.Key() != after[k].Key()
    ensures k >= |before|
  {
    assert after[k] !in before;
    assert forall i :: 0 <= i < |before| ==> before[i] == after[i] && after[i] in before;
  }

  /** An answered call's row, and what was decided when it was written. */
  lemma AnswerIsRow(cfg: Config, actions: seq<Action>, id: CallId, status: Status) returns (i: nat)
    requires Answered(Run(cfg, EMPTY, actions), id, status)
    ensures var s := Run(cfg, EMPTY, actions);
            i < |s.journal| && s.journal[i] == Row(s.calls[id].event, status) && JustifiedAt(s.journal, i)
  {
    EmptyInv();
    RunKeepsInv(cfg, EMPTY, actions);
    var s := Run(cfg, EMPTY, actions);
    assert CallOk(s.journal, s.calls[id]);
    i :| 0 <= i < |s.journal| && s.journal[i] == Row(s.calls[id].event, status);
    assert JustifiedAt(s.journal, i);
  }

  lemma CallTakesLock(cfg: Config, s: State, id: CallId, e: Event)
    requires id !in s.calls && Accepts(cfg, e) && LockName(e.channel, e.sender) !in s.locks
    ensures Run(cfg, s, [Begin(id, e), Connected(id, true), LockAnswered(id, true)])
            == Put(s, id, Call(e, Finding, true, true, true, 0, 0))
               .(locks := s.locks[LockName(e.channel, e.sender) := id])
  {
    var a := [Begin(id, e), Connected(id, true), LockAnswered(id, true)];
    var s1 := Step(cfg, s, a[0]);
    var s2 := Step(cfg, s1, a[1]);
    assert s1.calls == s.calls[id := Call(e, Connecting, false, false, false, 0, 0)];
    assert s2.calls == s.calls[id := Call(e, Locking, false, true, true, 0, 0)];
    assert Run(cfg, s, a) == Run(cfg, s1, a[1..]);
    assert Run(cfg, s1, a[1..]) == Run(cfg, s2, a[1..][1..]) && a[1..][1..] == [a[2]];
    assert Run(cfg, s2, [a[2]]) == Run(cfg, Step(cfg, s2, a[2]), [a[2]][1..]);
    assert Step(cfg, s2, a[2]).calls == s.calls[id := Call(e, Finding, true, true, true, 0, 0)];
  }

  lemma RunThree(cfg: Config, s: State, a: Action, b: Action, c: Action)
    ensures Run(cfg, s, [a, b, c]) == Step(cfg, Step(cfg, Step(cfg, s, a), b), c)
  {
    var s1 := Step(cfg, s, a);
    var s2 := Step(cfg, s1, b);
    assert [a, b, c][1..] == [b, c] && [b, c][1..] == [c] && [c][1..] == [];
    assert Run(cfg, s1, [b, c]) == Run(cfg, s2, [c]);
    assert Run(cfg, s2, [c]) == Run(cfg, Step(cfg, s2, c), []);
  }

  lemma InsertLands(cfg: Config, s: State, id: CallId)
    requires id in s.calls && s.calls[id].phase.Inserting? && s.calls[id].locked && s.calls[id].session
    requires FindKey(s.journal, s.calls[id].Key()).None?
    ensures var c := s.calls[id];
            var row := RowFor(c.event, c.phase.environment);
            Step(cfg, s, InsertAnswered(id, true, true))
            == Put(s, id, c.(phase := Releasing(Returned(row.status)))).(journal := s.journal + [row])
  {
  }

  lemma CallDecides(cfg: Config, s: State, id: CallId, rows: seq<Command>)
    requires id in s.calls && s.calls[id].phase.Finding? && s.calls[id].locked && s.calls[id].session
    requires QueryAnswer(s.journal, s.calls[id].event, rows)
    ensures var actions := [KeyAnswered(id, true), CommandsAnswered(id, Some(rows)), InsertAnswered(id, true, true)];
            var t := Run(cfg, s, actions);
            var result := SerialResolve(s.journal, s.calls[id].event);
            t == Put(s, id, s.calls[id].(phase := Releasing(result.1))).(journal := result.0)
  {
    var c := s.calls[id];
    var found := FindKey(s.journal, c.Key());
    QueryDecides(rows, CommandsUpTo(s.journal, c.Lock(), Instant(c.event)));
    RunThree(cfg, s, KeyAnswered(id, true), CommandsAnswered(id, Some(rows)), InsertAnswered(id, true, true));
    var s1 := Step(cfg, s, KeyAnswered(id, true));
    var s2 := Step(cfg, s1, CommandsAnswered(id, Some(rows)));
    if found.Some? {
      assert s1 == Put(s, id, c.(phase := Releasing(if found.value.hash == c.event then Returned(found.value.status)
                                                    else Threw)));
      assert s2 == s1;
    } else if RoutingCommand(c.event).Some? {
      assert s1 == Put(s, id, c.(phase := Inserting(RoutingCommand(c.event).value)));
      assert s2 == s1;
      InsertLands(cfg, s2, id);
      assert s1.calls[id := c.(phase := Releasing(SerialResolve(s.journal, c.event).1))]
             == s.calls[id := c.(phase := Releasing(SerialResolve(s.journal, c.event).1))];
    } else {
      assert s1 == Put(s, id, c.(phase := Reading));
      if Answer(rows).None? {
        assert s2.calls == s.calls[id := c.(phase := Releasing(Threw))];
      } else {
        assert s2.calls == s.calls[id := c.(phase := Inserting(Answer(rows).value))];
        InsertLands(cfg, s2, id);
        assert s2.calls[id := c.(phase := Releasing(SerialResolve(s.journal, c.event).1))]
               == s.calls[id := c.(phase := Releasing(SerialResolve(s.journal, c.event).1))];
      }
    }
  }

  /** A call nobody disturbs, with a free lock and no failure, ends with exactly the serial result,
      the lock free again and its connection back in the pool. */
  lemma UndisturbedCallIsSerial(cfg: Config, s: State, id: CallId, e: Event) returns (actions: seq<Action>)
    requires id !in s.calls && Accepts(cfg, e) && LockName(e.channel, e.sender) !in s.locks
    ensures var t := Run(cfg, s, actions);
            && id in t.calls && LockName(e.channel, e.sender) !in t.locks
            && (t.journal, t.calls[id].phase) == (SerialResolve(s.journal, e).0, Done(SerialResolve(s.journal, e).1))
            && t.calls[id].released == 1
    ensures actions != [] && actions[0] == Begin(id, e) && forall i :: 0 < i < |actions| ==> !actions[i].Begin?
  {
    var all := CommandsUpTo(s.journal, LockName(e.channel, e.sender), Instant(e));
    TopTwoExists(all);
    var rows :| TopTwo(rows, all);
    var start := [Begin(id, e), Connected(id, true), LockAnswered(id, true)];
    var middle := [KeyAnswered(id, true), CommandsAnswered(id, Some(rows)), InsertAnswered(id, true, true)];
    var end := [ReleaseAnswered(id, true, true)];
    CallTakesLock(cfg, s, id, e);
    var locked := Run(cfg, s, start);
    CallDecides(cfg, locked, id, rows);
    var decided := Run(cfg, locked, middle);
    var finished := Step(cfg, decided, end[0]);
    assert Run(cfg, decided, end) == Run(cfg, finished, end[1..]);
    assert decided.locks[LockName(e.channel, e.sender)] == id;
    actions := start + (middle + end);
    RunSplits(cfg, s, start, middle + end);
    RunSplits(cfg, locked, middle, end);
  }
}
