/** The entry counter under interleaved creates: it is read without a lock and written back later in the same
    transaction. */
module JournalCounter {
  import opened Common
  import opened JournalSpec

  /** Where a create, or a batch of creates for one counter, stands: transaction begun, with the view that a first
      read fixes; no counter row found; number in hand, with the time whose value it is, the row created by itself or
      not; counter row written for the entries so far, not yet committed. */
  datatype Phase =
    | Started(view: Option<int>, viewAt: nat)
    | NoRow
    | Holding(number: int, created: bool, readAt: nat)
    | Counted(numbers: seq<int>, next: int, created: bool, readAt: nat)
    | Done
    | Failed

  datatype Call = Call(key: CounterKey, phase: Phase)

  /** What a committed call posted, and when it read and committed the counter. */
  datatype Record = Record(key: CounterKey, numbers: seq<int>, next: int, created: bool, readAt: nat, committedAt: nat)

  /** Committed counters and calls; every step takes one tick. */
  datatype State = State(counters: map<CounterKey, int>, calls: map<nat, Call>, posted: seq<Record>, clock: nat)

  datatype Action =
    | Begin(id: nat, key: CounterKey)
    | Find(id: nat, latest: bool)
    | InsertRow(id: nat)
    | AddOne(id: nat, seen: int)
    | NextEntry(id: nat)
    | Commit(id: nat)
    | Fail(id: nat)

  function Lookup(counters: map<CounterKey, int>, key: CounterKey): Option<int> {
    if key in counters then Some(counters[key]) else None
  }

  /** The call has written the counter row, so the row is locked until it ends. */
  predicate Locks(c: Call) { c.phase.Counted? || (c.phase.Holding? && c.phase.created) }

  predicate LockedByOther(s: State, id: nat, key: CounterKey) {
    exists other :: other in s.calls && other != id && s.calls[other].key == key && Locks(s.calls[other])
  }

  /** The number first read, or one committed since. */
  predicate MaySee(posted: seq<Record>, key: CounterKey, number: int, readAt: nat, seen: int) {
    || seen == number
    || exists i :: 0 <= i < |posted| && posted[i].key == key && readAt <= posted[i].committedAt && posted[i].next == seen
  }

  /** One step of one call. Finding the counter sees the view of the transaction's first read, as the default isolation
      level has it, or the committed value of now; the second read, before the counter is written, may see whatever
      was committed since. */
  function PhaseAfter(s: State, id: nat, c: Call, a: Action): Phase {
    match (a, c.phase)
    case (Find(_, latest), Started(view, viewAt)) =>
      var value := if latest then Lookup(s.counters, c.key) else view;
      if value.None? then NoRow else Holding(value.value, false, if latest then s.clock else viewAt)
    case (InsertRow(_), NoRow) =>
      if LockedByOther(s, id, c.key) then c.phase
      else if c.key in s.counters then Failed
      else Holding(FIRST_NUMBER, true, s.clock)
    case (AddOne(_, seen), Holding(number, created, readAt)) =>
      if LockedByOther(s, id, c.key) || !MaySee(s.posted, c.key, number, readAt, seen) then c.phase
      else Counted([number], seen + 1, created, readAt)
    case (NextEntry(_), Counted(numbers, next, created, readAt)) => Counted(numbers + [next], next + 1, created, readAt)
    case (Commit(_), Counted(_, _, _, _)) => Done
    case (Fail(_), Done) => Done
    case (Fail(_), _) => Failed
    case _ => c.phase
  }

  function Move(s: State, a: Action): State {
    if a.Begin? then
      if a.id in s.calls then s else s.(calls := s.calls[a.id := Call(a.key,
                                                                      Started(Lookup(s.counters, a.key), s.clock))])
    else if a.id !in s.calls then s
    else
      var c := s.calls[a.id];
      var moved := s.(calls := s.calls[a.id := c.(phase := PhaseAfter(s, a.id, c, a))]);
      if a.Commit? && c.phase.Counted? then
        var r := Record(c.key, c.phase.numbers, c.phase.next, c.phase.created, c.phase.readAt, s.clock);
        moved.(counters := s.counters[c.key := c.phase.next], posted := s.posted + [r])
      else moved
  }

  function Tick(s: State, a: Action): State { Move(s, a).(clock := s.clock + 1) }

  /** The state after the steps, in whatever order the calls took them. */
  function Run(start: map<CounterKey, int>, actions: seq<Action>): State {
    if actions == [] then State(start, map[], [], 0)
    else Tick(Run(start, actions[..|actions| - 1]), actions[|actions| - 1])
  }

  // ---- What the records say ----

  /** The committed counter at a time. */
  function ValueAt(start: map<CounterKey, int>, posted: seq<Record>, key: CounterKey, time: nat): Option<int> {
    if posted == [] then Lookup(start, key)
    else
      var last := posted[|posted| - 1];
      if last.key == key && last.committedAt < time then Some(last.next)
      else ValueAt(start, posted[..|posted| - 1], key, time)
  }

  /** n, n + 1, ... */
  function From(n: int, count: nat): seq<int> {
    if count == 0 then [] else From(n, count - 1) + [n + count - 1]
  }

  /** Nobody commits the counter in this span. */
  ghost predicate Quiet(posted: seq<Record>, key: CounterKey, from: nat, until: nat) {
    forall i :: 0 <= i < |posted| && posted[i].key == key ==> !(from <= posted[i].committedAt < until)
  }

  /** The first number is the counter read; the others follow if nobody committed in between. */
  ghost predicate Honest(start: map<CounterKey, int>, posted: seq<Record>, key: CounterKey, numbers: seq<int>,
                         next: int, created: bool, readAt: nat, now: nat)
  {
    && numbers != [] && readAt < now
    && (if created then numbers[0] == FIRST_NUMBER && ValueAt(start, posted, key, now) == None
        else ValueAt(start, posted, key, readAt) == Some(numbers[0]))
    && (Quiet(posted, key, readAt, now) ==> numbers == From(numbers[0], |numbers|) && next == numbers[0] + |numbers|)
  }

  ghost predicate HonestRecord(start: map<CounterKey, int>, posted: seq<Record>, r: Record) {
    Honest(start, posted, r.key, r.numbers, r.next, r.created, r.readAt, r.committedAt)
  }

  ghost predicate Ordered(posted: seq<Record>) {
    forall i, j :: 0 <= i < j < |posted| ==> posted[i].committedAt < posted[j].committedAt
  }

  ghost predicate Facts(start: map<CounterKey, int>, posted: seq<Record>) {
    Ordered(posted) && forall i {:trigger HonestRecord(start, posted, posted[i])} :: 0 <= i < |posted| ==>
      HonestRecord(start, posted, posted[i])
  }

  ghost predicate CallOk(start: map<CounterKey, int>, s: State, c: Call) {
    match c.phase
    case Started(view, viewAt) => viewAt < s.clock && ValueAt(start, s.posted, c.key, viewAt) == view
    case Holding(number, created, readAt) =>
      && readAt < s.clock
      && (if created then number == FIRST_NUMBER && c.key !in s.counters
          else ValueAt(start, s.posted, c.key, readAt) == Some(number))
    case Counted(numbers, next, created, readAt) =>
      Honest(start, s.posted, c.key, numbers, next, created, readAt, s.clock)
    case _ => true
  }

  ghost predicate OneLock(s: State) {
    forall a, b :: a in s.calls && b in s.calls && a != b && s.calls[a].key == s.calls[b].key ==>
      !(Locks(s.calls[a]) && Locks(s.calls[b]))
  }

  ghost predicate Inv(start: map<CounterKey, int>, s: State) {
    && Facts(start, s.posted)
    && (forall i :: 0 <= i < |s.posted| ==> s.posted[i].committedAt < s.clock)
    && (forall key {:trigger Lookup(s.counters, key)} ::
          Lookup(s.counters, key) == ValueAt(start, s.posted, key, s.clock))
    && (forall id {:trigger CallOk(start, s, s.calls[id])} :: id in s.calls ==> CallOk(start, s, s.calls[id]))
    && OneLock(s)
  }

  lemma {:induction false} LaterSeesSame(start: map<CounterKey, int>, posted: seq<Record>, key: CounterKey, t: nat,
                                         u: nat)
    requires t <= u && Quiet(posted, key, t, u)
    ensures ValueAt(start, posted, key, t) == ValueAt(start, posted, key, u)
  {
    if posted != [] {
      var init := posted[..|posted| - 1];
      assert forall i :: 0 <= i < |init| ==> init[i] == posted[i];
      LaterSeesSame(start, init, key, t, u);
    }
  }

  lemma {:induction false} OnceThereStaysThere(start: map<CounterKey, int>, posted: seq<Record>, key: CounterKey,
                                               t: nat, u: nat)
    requires t <= u && ValueAt(start, posted, key, t).Some?
    ensures ValueAt(start, posted, key, u).Some?
  {
    if posted != [] && !(posted[|posted| - 1].key == key && posted[|posted| - 1].committedAt < t) {
      OnceThereStaysThere(start, posted[..|posted| - 1], key, t, u);
    }
  }

  lemma {:induction false} CommittedIsThere(start: map<CounterKey, int>, posted: seq<Record>, i: nat, t: nat)
    requires i < |posted| && posted[i].committedAt < t
    ensures ValueAt(start, posted, posted[i].key, t).Some?
  {
    if i < |posted| - 1 {
      assert posted[..|posted| - 1][i] == posted[i];
      CommittedIsThere(start, posted[..|posted| - 1], i, t);
    }
  }

  // ---- Every step keeps the invariant ----

  /** A commit at `now` changes nothing that was read up to now. */
  lemma AppendKeepsHonest(start: map<CounterKey, int>, posted: seq<Record>, r: Record, key: CounterKey,
                          numbers: seq<int>, next: int, created: bool, readAt: nat, now: nat)
    requires Honest(start, posted, key, numbers, next, created, readAt, now) && now <= r.committedAt
    ensures Honest(start, posted + [r], key, numbers, next, created, readAt, now)
  {
    var more := posted + [r];
    assert more[..|posted|] == posted;
    if Quiet(more, key, readAt, now) {
      assert forall i :: 0 <= i < |posted| ==> more[i] == posted[i];
      assert Quiet(posted, key, readAt, now);
    }
  }

  /** Time passing without a commit. */
  lemma TickKeepsHonest(start: map<CounterKey, int>, posted: seq<Record>, key: CounterKey, numbers: seq<int>,
                        next: int, created: bool, readAt: nat, now: nat)
    requires Honest(start, posted, key, numbers, next, created, readAt, now)
    requires forall i :: 0 <= i < |posted| ==> posted[i].committedAt < now
    ensures Honest(start, posted, key, numbers, next, created, readAt, now + 1)
  {
    LaterSeesSame(start, posted, key, now, now + 1);
    if Quiet(posted, key, readAt, now + 1) { assert Quiet(posted, key, readAt, now); }
  }

  lemma TickKeepsInv(start: map<CounterKey, int>, s: State)
    requires Inv(start, s)
    ensures Inv(start, s.(clock := s.clock + 1))
  {
    var t := s.(clock := s.clock + 1);
    forall key ensures Lookup(t.counters, key) == ValueAt(start, t.posted, key, t.clock) {
      LaterSeesSame(start, s.posted, key, s.clock, s.clock + 1);
    }
    forall id | id in t.calls ensures CallOk(start, t, t.calls[id]) {
      assert CallOk(start, s, s.calls[id]);
      var c := s.calls[id];
      if c.phase.Counted? {
        TickKeepsHonest(start, s.posted, c.key, c.phase.numbers, c.phase.next, c.phase.created, c.phase.readAt, s.clock);
      }
    }
  }

  /** What a call's step must satisfy, now seen one tick later. */
  lemma CallKeepsInv(start: map<CounterKey, int>, s: State, id: nat, c: Call)
    requires Inv(start, s) && CallOk(start, s.(clock := s.clock + 1), c)
    requires Locks(c) ==> !LockedByOther(s, id, c.key)
    ensures Inv(start, s.(calls := s.calls[id := c], clock := s.clock + 1))
  {
    TickKeepsInv(start, s);
    var t := s.(calls := s.calls[id := c], clock := s.clock + 1);
    forall other | other in t.calls ensures CallOk(start, t, t.calls[other]) {
      assert other != id ==> CallOk(start, s.(clock := s.clock + 1), s.calls[other]);
    }
  }

  lemma {:induction false} FromGrows(n: int, count: nat)
    ensures |From(n, count)| == count && (count > 0 ==> From(n, count)[0] == n)
    ensures forall k :: 0 <= k < count ==> From(n, count)[k] == n + k
    ensures From(n, count) + [n + count] == From(n, count + 1)
  {
    if count > 0 { FromGrows(n, count - 1); }
  }

  lemma BeginKeepsInv(start: map<CounterKey, int>, s: State, id: nat, key: CounterKey)
    requires Inv(start, s) && id !in s.calls
    ensures Inv(start, Tick(s, Begin(id, key)))
  {
    assert Lookup(s.counters, key) == ValueAt(start, s.posted, key, s.clock);
    CallKeepsInv(start, s, id, Call(key, Started(Lookup(s.counters, key), s.clock)));
  }

  /** The call may go on in this phase. */
  ghost predicate MayBecome(start: map<CounterKey, int>, s: State, id: nat, phase: Phase)
    requires id in s.calls
  {
    var c := s.calls[id].(phase := phase);
    CallOk(start, s.(clock := s.clock + 1), c) && (Locks(c) ==> !LockedByOther(s, id, c.key))
  }

  lemma StayOk(start: map<CounterKey, int>, s: State, id: nat)
    requires Inv(start, s) && id in s.calls
    ensures MayBecome(start, s, id, s.calls[id].phase)
  {
    TickKeepsInv(start, s);
    assert CallOk(start, s.(clock := s.clock + 1), s.calls[id]);
  }

  lemma FindOk(start: map<CounterKey, int>, s: State, id: nat, latest: bool)
    requires Inv(start, s) && id in s.calls && s.calls[id].phase.Started?
    ensures MayBecome(start, s, id, PhaseAfter(s, id, s.calls[id], Find(id, latest)))
  {
    assert CallOk(start, s, s.calls[id]);
    assert Lookup(s.counters, s.calls[id].key) == ValueAt(start, s.posted, s.calls[id].key, s.clock);
  }

  lemma InsertOk(start: map<CounterKey, int>, s: State, id: nat)
    requires Inv(start, s) && id in s.calls && s.calls[id].phase.NoRow?
    ensures MayBecome(start, s, id, PhaseAfter(s, id, s.calls[id], InsertRow(id)))
  {
  }

  /** The counter row written for the first entry. */
  lemma CountedIsHonest(start: map<CounterKey, int>, s: State, c: Call, seen: int)
    requires c.phase.Holding? && CallOk(start, s, c)
             && Lookup(s.counters, c.key) == ValueAt(start, s.posted, c.key, s.clock)
    requires forall i :: 0 <= i < |s.posted| ==> s.posted[i].committedAt < s.clock
    requires MaySee(s.posted, c.key, c.phase.number, c.phase.readAt, seen)
    ensures var p := c.phase; CallOk(start, s.(clock := s.clock + 1),
                                     Call(c.key, Counted([p.number], seen + 1, p.created, p.readAt)))
  {
    var p := c.phase;
    FromGrows(p.number, 0);
    LaterSeesSame(start, s.posted, c.key, s.clock, s.clock + 1);
    if Quiet(s.posted, c.key, p.readAt, s.clock + 1) {
      assert seen == p.number;
    }
  }

  lemma AddOneOk(start: map<CounterKey, int>, s: State, id: nat, seen: int)
    requires Inv(start, s) && id in s.calls && s.calls[id].phase.Holding?
    ensures MayBecome(start, s, id, PhaseAfter(s, id, s.calls[id], AddOne(id, seen)))
  {
    var c := s.calls[id];
    if LockedByOther(s, id, c.key) || !MaySee(s.posted, c.key, c.phase.number, c.phase.readAt, seen) {
      StayOk(start, s, id);
    } else {
      assert CallOk(start, s, c) && Lookup(s.counters, c.key) == ValueAt(start, s.posted, c.key, s.clock);
      CountedIsHonest(start, s, c, seen);
    }
  }

  lemma MoreEntriesHonest(start: map<CounterKey, int>, posted: seq<Record>, key: CounterKey, numbers: seq<int>,
                          next: int, created: bool, readAt: nat, now: nat)
    requires Honest(start, posted, key, numbers, next, created, readAt, now)
    ensures Honest(start, posted, key, numbers + [next], next + 1, created, readAt, now)
  {
    FromGrows(numbers[0], |numbers|);
    assert (numbers + [next])[0] == numbers[0];
  }

  lemma MoreIsHonest(start: map<CounterKey, int>, s: State, c: Call)
    requires c.phase.Counted? && CallOk(start, s, c) && forall i :: 0 <= i < |s.posted| ==>
             s.posted[i].committedAt < s.clock
    ensures var p := c.phase;
            CallOk(start, s.(clock := s.clock + 1),
                   Call(c.key, Counted(p.numbers + [p.next], p.next + 1, p.created, p.readAt)))
  {
    var p := c.phase;
    TickKeepsHonest(start, s.posted, c.key, p.numbers, p.next, p.created, p.readAt, s.clock);
    MoreEntriesHonest(start, s.posted, c.key, p.numbers, p.next, p.created, p.readAt, s.clock + 1);
  }

  lemma NextEntryOk(start: map<CounterKey, int>, s: State, id: nat)
    requires Inv(start, s) && id in s.calls && s.calls[id].phase.Counted?
    ensures MayBecome(start, s, id, PhaseAfter(s, id, s.calls[id], NextEntry(id)))
  {
    var c := s.calls[id];
    assert CallOk(start, s, c);
    MoreIsHonest(start, s, c);
    HolderIsAlone(s, id);
    assert PhaseAfter(s, id, c, NextEntry(id)) ==
           Counted(c.phase.numbers + [c.phase.next], c.phase.next + 1, c.phase.created, c.phase.readAt);
  }

  lemma HolderIsAlone(s: State, id: nat)
    requires OneLock(s) && id in s.calls && Locks(s.calls[id])
    ensures !LockedByOther(s, id, s.calls[id].key)
  {
  }

  lemma CommitKeepsFacts(start: map<CounterKey, int>, s: State, r: Record)
    requires Inv(start, s) && r.committedAt == s.clock
    requires Honest(start, s.posted, r.key, r.numbers, r.next, r.created, r.readAt, s.clock)
    ensures Facts(start, s.posted + [r])
  {
    var posted := s.posted + [r];
    forall i | 0 <= i < |posted| ensures HonestRecord(start, posted, posted[i]) {
      var q := posted[i];
      assert i < |s.posted| ==> HonestRecord(start, s.posted, s.posted[i]);
      AppendKeepsHonest(start, s.posted, r, q.key, q.numbers, q.next, q.created, q.readAt, q.committedAt);
    }
  }

  /** Another call's number in hand is still the one it read. */
  lemma CommitKeepsCall(start: map<CounterKey, int>, s: State, t: State, r: Record, c: Call)
    requires CallOk(start, s, c) && r.committedAt == s.clock && (Locks(c) ==> c.key != r.key)
    requires t.posted == s.posted + [r] && t.clock == s.clock + 1 && t.counters == s.counters[r.key := r.next]
    requires forall i :: 0 <= i < |s.posted| ==> s.posted[i].committedAt < s.clock
    ensures CallOk(start, t, c)
  {
    assert t.posted[..|s.posted|] == s.posted;
    if c.phase.Counted? {
      var p := c.phase;
      TickKeepsHonest(start, s.posted, c.key, p.numbers, p.next, p.created, p.readAt, s.clock);
      OtherKeyKeepsHonest(start, s.posted, r, c.key, p.numbers, p.next, p.created, p.readAt, s.clock + 1);
    }
  }

  lemma CommitKeepsValues(start: map<CounterKey, int>, s: State, r: Record, key: CounterKey)
    requires r.committedAt == s.clock && Lookup(s.counters, key) == ValueAt(start, s.posted, key, s.clock)
    requires forall i :: 0 <= i < |s.posted| ==> s.posted[i].committedAt < s.clock
    ensures Lookup(s.counters[r.key := r.next], key) == ValueAt(start, s.posted + [r], key, s.clock + 1)
  {
    assert (s.posted + [r])[..|s.posted|] == s.posted;
    LaterSeesSame(start, s.posted, key, s.clock, s.clock + 1);
  }

  lemma CommitKeepsInv(start: map<CounterKey, int>, s: State, id: nat)
    requires Inv(start, s) && id in s.calls && s.calls[id].phase.Counted?
    ensures Inv(start, Tick(s, Commit(id)))
  {
    var c := s.calls[id];
    var p := c.phase;
    var r := Record(c.key, p.numbers, p.next, p.created, p.readAt, s.clock);
    assert CallOk(start, s, c);
    CommitKeepsFacts(start, s, r);
    RecordKeepsInv(start, s, id, r);
  }

  lemma RecordKeepsInv(start: map<CounterKey, int>, s: State, id: nat, r: Record)
    requires Inv(start, s) && id in s.calls && s.calls[id].phase.Counted? && r.key == s.calls[id].key
             && r.committedAt == s.clock
    requires Facts(start, s.posted + [r])
    ensures Inv(start, State(s.counters[r.key := r.next], s.calls[id := s.calls[id].(phase := Done)], s.posted + [r],
                             s.clock + 1))
  {
    var t := State(s.counters[r.key := r.next], s.calls[id := s.calls[id].(phase := Done)], s.posted + [r], s.clock + 1);
    forall key ensures Lookup(t.counters, key) == ValueAt(start, t.posted, key, t.clock) {
      CommitKeepsValues(start, s, r, key);
    }
    forall other | other in t.calls ensures CallOk(start, t, t.calls[other]) {
      if other != id {
        assert CallOk(start, s, s.calls[other]);
        CommitKeepsCall(start, s, t, r, s.calls[other]);
      }
    }
  }

  lemma OtherKeyKeepsHonest(start: map<CounterKey, int>, posted: seq<Record>, r: Record, key: CounterKey,
                            numbers: seq<int>, next: int, created: bool, readAt: nat, now: nat)
    requires Honest(start, posted, key, numbers, next, created, readAt, now) && r.key != key
    ensures Honest(start, posted + [r], key, numbers, next, created, readAt, now)
  {
    var more := posted + [r];
    assert more[..|posted|] == posted;
    if Quiet(more, key, readAt, now) {
      assert forall i :: 0 <= i < |posted| ==> more[i] == posted[i];
      assert Quiet(posted, key, readAt, now);
    }
  }

  lemma PhaseOk(start: map<CounterKey, int>, s: State, a: Action)
    requires Inv(start, s) && a.id in s.calls
    ensures MayBecome(start, s, a.id, PhaseAfter(s, a.id, s.calls[a.id], a))
  {
    StayOk(start, s, a.id);
    match (a, s.calls[a.id].phase)
    case (Find(id, latest), Started(_, _)) => FindOk(start, s, id, latest);
    case (InsertRow(id), NoRow) => InsertOk(start, s, id);
    case (AddOne(id, seen), Holding(_, _, _)) => AddOneOk(start, s, id, seen);
    case (NextEntry(id), Counted(_, _, _, _)) => NextEntryOk(start, s, id);
    case _ =>
  }

  lemma StepKeepsInv(start: map<CounterKey, int>, s: State, a: Action)
    requires Inv(start, s)
    ensures Inv(start, Tick(s, a))
  {
    if a.id !in s.calls {
      if a.Begin? { BeginKeepsInv(start, s, a.id, a.key); } else { TickKeepsInv(start, s); }
    } else if a.Begin? {
      TickKeepsInv(start, s);
    } else if a.Commit? && s.calls[a.id].phase.Counted? {
      CommitKeepsInv(start, s, a.id);
    } else {
      var c := s.calls[a.id];
      PhaseOk(start, s, a);
      CallKeepsInv(start, s, a.id, c.(phase := PhaseAfter(s, a.id, c, a)));
    }
  }

  lemma {:induction false} RunKeepsInv(start: map<CounterKey, int>, actions: seq<Action>)
    ensures Inv(start, Run(start, actions))
  {
    if actions != [] {
      RunKeepsInv(start, actions[..|actions| - 1]);
      StepKeepsInv(start, Run(start, actions[..|actions| - 1]), actions[|actions| - 1]);
    }
  }

  // ---- Overlaps ----

  /** Each has the counter's value of a time before the other commits. */
  predicate Overlap(a: Record, b: Record) { a.key == b.key && a.readAt <= b.committedAt && b.readAt <= a.committedAt }

  ghost predicate NoOverlap(posted: seq<Record>) {
    forall i, j :: 0 <= i < j < |posted| ==> !Overlap(posted[i], posted[j])
  }

  /** No number of a counter is posted twice. */
  ghost predicate Distinct(posted: seq<Record>) {
    && (forall i, j, n :: 0 <= i < j < |posted| && posted[i].key == posted[j].key && n in posted[i].numbers ==>
          n !in posted[j].numbers)
    && (forall i, k, m :: 0 <= i < |posted| && 0 <= k < m < |posted[i].numbers| ==>
          posted[i].numbers[k] != posted[i].numbers[m])
  }

  ghost predicate Repeats(posted: seq<Record>) {
    exists i, j :: 0 <= i < j < |posted| && posted[i].key == posted[j].key
                   && posted[i].numbers != [] && posted[j].numbers != [] && posted[i].numbers[0] == posted[j].numbers[0]
  }

  /** Of two overlapping calls, or of two others that overlap earlier, both start at the same number. */
  lemma {:induction false} OverlapRepeats(start: map<CounterKey, int>, posted: seq<Record>, i: nat, j: nat)
    requires Facts(start, posted) && i < j < |posted| && Overlap(posted[i], posted[j])
    ensures Repeats(posted)
    decreases i
  {
    var a, b := posted[i], posted[j];
    var t := if a.readAt <= b.readAt then a.readAt else b.readAt;
    var u := if a.readAt <= b.readAt then b.readAt else a.readAt;
    assert HonestRecord(start, posted, a) && HonestRecord(start, posted, b);
    if Quiet(posted, a.key, t, u) {
      LaterSeesSame(start, posted, a.key, t, u);
      SameFirstNumber(start, posted, i, j);
    } else {
      var k :| 0 <= k < |posted| && posted[k].key == a.key && t <= posted[k].committedAt < u;
      assert k < i;
      assert HonestRecord(start, posted, posted[k]);
      OverlapRepeats(start, posted, k, if a.readAt <= b.readAt then i else j);
    }
  }

  lemma SameFirstNumber(start: map<CounterKey, int>, posted: seq<Record>, i: nat, j: nat)
    requires Facts(start, posted) && i < j < |posted| && Overlap(posted[i], posted[j])
    requires ValueAt(start, posted, posted[i].key, posted[i].readAt) ==
             ValueAt(start, posted, posted[i].key, posted[j].readAt)
    ensures Repeats(posted)
  {
    var a, b := posted[i], posted[j];
    assert HonestRecord(start, posted, a) && HonestRecord(start, posted, b);
    CommittedIsThere(start, posted, i, b.committedAt);
    if a.created && !b.created {
      OnceThereStaysThere(start, posted, a.key, b.readAt, a.committedAt);
    }
    assert !a.created && !b.created;
  }

  /** The counter after all records. */
  function Latest(start: map<CounterKey, int>, posted: seq<Record>, key: CounterKey): Option<int> {
    if posted == [] then Lookup(start, key)
    else if posted[|posted| - 1].key == key then Some(posted[|posted| - 1].next)
    else Latest(start, posted[..|posted| - 1], key)
  }

  /** At a time after the first n commits of a key and before the others the counter is what those left. */
  lemma {:induction false} ValueIsLatest(start: map<CounterKey, int>, posted: seq<Record>, n: nat, key: CounterKey,
                                         t: nat)
    requires n <= |posted|
    requires forall i :: 0 <= i < n && posted[i].key == key ==> posted[i].committedAt < t
    requires forall i :: n <= i < |posted| ==> posted[i].committedAt >= t
    ensures ValueAt(start, posted, key, t) == Latest(start, posted[..n], key)
    decreases |posted|
  {
    if posted != [] {
      var init := posted[..|posted| - 1];
      if n == |posted| {
        assert posted[..n] == posted && init[..n - 1] == init;
        ValueIsLatest(start, init, n - 1, key, t);
      } else {
        assert init[..n] == posted[..n];
        ValueIsLatest(start, init, n, key, t);
      }
    }
  }

  /** The call posts consecutive numbers from what the calls committed before it left. */
  ghost predicate Serial(start: map<CounterKey, int>, posted: seq<Record>, n: nat)
    requires n < |posted|
  {
    var r := posted[n];
    var before := Latest(start, posted[..n], r.key);
    var first := if before.Some? then before.value else FIRST_NUMBER;
    r.numbers == From(first, |r.numbers|) && r.next == first + |r.numbers|
  }

  lemma ApartIsSerial(start: map<CounterKey, int>, posted: seq<Record>, n: nat)
    requires Facts(start, posted) && NoOverlap(posted) && n < |posted|
    ensures Serial(start, posted, n)
  {
    var r := posted[n];
    assert HonestRecord(start, posted, r);
    forall i | 0 <= i < n && posted[i].key == r.key ensures posted[i].committedAt < r.readAt {
      assert HonestRecord(start, posted, posted[i]) && !Overlap(posted[i], r);
    }
    assert Quiet(posted, r.key, r.readAt, r.committedAt);
    ValueIsLatest(start, posted, n, r.key, if r.created then r.committedAt else r.readAt);
  }

  ghost predicate AllSerial(start: map<CounterKey, int>, posted: seq<Record>) {
    forall n :: 0 <= n < |posted| ==> Serial(start, posted, n)
  }

  /** Every number posted so far lies below the counter. */
  ghost predicate Below(start: map<CounterKey, int>, posted: seq<Record>) {
    forall i, n :: 0 <= i < |posted| && n in posted[i].numbers ==>
      Latest(start, posted, posted[i].key).Some? && n < Latest(start, posted, posted[i].key).value
  }

  lemma {:induction false} SerialIsDistinct(start: map<CounterKey, int>, posted: seq<Record>)
    requires AllSerial(start, posted)
    ensures Distinct(posted) && Below(start, posted)
  {
    if posted != [] {
      var n := |posted| - 1;
      var init, r := posted[..n], posted[n];
      forall i | 0 <= i < n ensures Serial(start, init, i) {
        assert Serial(start, posted, i) && init[..i] == posted[..i];
      }
      SerialIsDistinct(start, init);
      assert Serial(start, posted, n) && posted == init + [r];
      NumbersAbove(start, init, r);
    }
  }

  lemma NumbersAbove(start: map<CounterKey, int>, init: seq<Record>, r: Record)
    requires Distinct(init) && Below(start, init) && Serial(start, init + [r], |init|)
    ensures Distinct(init + [r]) && Below(start, init + [r])
  {
    var all := init + [r];
    assert all[..|init|] == init && all[|init|] == r;
    var before := Latest(start, init, r.key);
    var first := if before.Some? then before.value else FIRST_NUMBER;
    FromGrows(first, |r.numbers|);
    assert forall i :: 0 <= i < |init| ==> all[i] == init[i];
    assert Latest(start, all, r.key) == Some(r.next);
    assert forall key :: key != r.key ==> Latest(start, all, key) == Latest(start, init, key);
    assert forall m :: m in r.numbers ==> first <= m < r.next;
  }

  /** Over any interleaving of creates and batches with failures, at either isolation level: no number of a counter
      is posted twice exactly when no two committed calls of one counter overlap between the time whose value they
      read and committing. Then the numbers are those of the same calls made one after the other in the order of
      their commits. */
  lemma NumbersDistinctIffApart(start: map<CounterKey, int>, actions: seq<Action>)
    ensures var posted := Run(start, actions).posted;
            && (Distinct(posted) <==> NoOverlap(posted))
            && (NoOverlap(posted) ==> AllSerial(start, posted))
  {
    var posted := Run(start, actions).posted;
    RunKeepsInv(start, actions);
    if NoOverlap(posted) {
      forall n | 0 <= n < |posted| ensures Serial(start, posted, n) {
        ApartIsSerial(start, posted, n);
      }
      SerialIsDistinct(start, posted);
    } else {
      var i, j :| 0 <= i < j < |posted| && Overlap(posted[i], posted[j]);
      OverlapRepeats(start, posted, i, j);
      RepeatsIsNotDistinct(posted);
    }
  }

  lemma RepeatsIsNotDistinct(posted: seq<Record>)
    requires Repeats(posted)
    ensures !Distinct(posted)
  {
    var i, j :| 0 <= i < j < |posted| && posted[i].key == posted[j].key
                && posted[i].numbers != [] && posted[j].numbers != [] && posted[i].numbers[0] == posted[j].numbers[0];
    assert posted[i].numbers[0] in posted[i].numbers && posted[j].numbers[0] in posted[j].numbers;
  }

  // ---- Two schedules that repeat a number ----

  lemma RunMore(start: map<CounterKey, int>, actions: seq<Action>, a: Action)
    ensures Run(start, actions + [a]) == Tick(Run(start, actions), a)
  {
    assert (actions + [a])[..|actions|] == actions;
  }

  /** A call with its number in hand writes the counter and commits. */
  lemma AddAndCommit(s: State, id: nat)
    requires id in s.calls && s.calls[id].phase.Holding? && !LockedByOther(s, id, s.calls[id].key)
    ensures var c := s.calls[id];
            var n := c.phase.number;
            Tick(Tick(s, AddOne(id, n)), Commit(id))
            == State(s.counters[c.key := n + 1], s.calls[id := c.(phase := Done)],
                     s.posted + [Record(c.key, [n], n + 1, c.phase.created, c.phase.readAt, s.clock + 1)], s.clock + 2)
  {
    var c := s.calls[id];
    var n := c.phase.number;
    var t := Tick(s, AddOne(id, n));
    assert t == s.(calls := s.calls[id := c.(phase := Counted([n], n + 1, c.phase.created, c.phase.readAt))],
                   clock := s.clock + 1);
    assert t.calls[id := c.(phase := Done)] == s.calls[id := c.(phase := Done)];
  }

  lemma FindsView(s: State, id: nat, key: CounterKey, n: int, at: nat)
    requires id in s.calls && s.calls[id] == Call(key, Started(Some(n), at))
    ensures Tick(s, Find(id, false)) ==
            s.(calls := s.calls[id := Call(key, Holding(n, false, at))], clock := s.clock + 1)
  {
  }

  /** Both calls have begun. */
  function Begun(start: map<CounterKey, int>, key: CounterKey): State
    requires key in start
  {
    State(start, map[1 := Call(key, Started(Some(start[key]), 0)), 2 := Call(key, Started(Some(start[key]), 1))], [], 2)
  }

  lemma BothBegin(start: map<CounterKey, int>, key: CounterKey)
    requires key in start
    ensures Run(start, [Begin(1, key), Begin(2, key)]) == Begun(start, key)
  {
    RunMore(start, [], Begin(1, key));
    RunMore(start, [Begin(1, key)], Begin(2, key));
    assert [] + [Begin(1, key)] == [Begin(1, key)]
           && [Begin(1, key)] + [Begin(2, key)] == [Begin(1, key), Begin(2, key)];
    var s := State(start, map[], [], 0);
    assert Tick(s, Begin(1, key)).calls == map[1 := Call(key, Started(Some(start[key]), 0))];
    assert Tick(Tick(s, Begin(1, key)), Begin(2, key)).calls == Begun(start, key).calls;
  }

  /** What call `id` does after it has begun, on the view of its begin. */
  function PostFromView(s: State, id: nat, n: int): State {
    Tick(Tick(Tick(s, Find(id, false)), AddOne(id, n)), Commit(id))
  }

  lemma PostsItsView(s: State, id: nat, key: CounterKey, n: int, at: nat)
    requires id in s.calls && s.calls[id] == Call(key, Started(Some(n), at)) && !LockedByOther(s, id, key)
    ensures PostFromView(s, id, n)
            == State(s.counters[key := n + 1], s.calls[id := Call(key, Done)],
                     s.posted + [Record(key, [n], n + 1, false, at, s.clock + 2)], s.clock + 3)
  {
    FindsView(s, id, key, n, at);
    var t := Tick(s, Find(id, false));
    assert !LockedByOther(t, id, key);
    AddAndCommit(t, id);
    assert t.calls[id := Call(key, Done)] == s.calls[id := Call(key, Done)];
  }

  lemma RunsFromView(start: map<CounterKey, int>, actions: seq<Action>, id: nat, n: int)
    ensures Run(start, actions + [Find(id, false), AddOne(id, n), Commit(id)]) ==
            PostFromView(Run(start, actions), id, n)
  {
    var one, two := actions + [Find(id, false)], actions + [Find(id, false), AddOne(id, n)];
    RunMore(start, actions, Find(id, false));
    RunMore(start, one, AddOne(id, n));
    RunMore(start, two, Commit(id));
    assert one + [AddOne(id, n)] == two;
    assert two + [Commit(id)] == actions + [Find(id, false), AddOne(id, n), Commit(id)];
  }

  /** A create that reads the counter only after another has read, posted and committed, but whose view is older,
      posts the same number: it is the view that counts. */
  lemma OlderViewRepeats(start: map<CounterKey, int>, key: CounterKey)
    requires key in start
    ensures var n := start[key];
            var first := [Begin(1, key), Begin(2, key)] + [Find(2, false), AddOne(2, n), Commit(2)];
            var posted := Run(start, first + [Find(1, false), AddOne(1, n), Commit(1)]).posted;
            |posted| == 2 && posted[0].numbers == [n] && posted[1].numbers == [n]
  {
    var n := start[key];
    var s := Begun(start, key);
    BothBegin(start, key);
    RunsFromView(start, [Begin(1, key), Begin(2, key)], 2, n);
    assert !LockedByOther(s, 2, key);
    PostsItsView(s, 2, key, n, 1);
    var t := PostFromView(s, 2, n);
    assert t.calls[2] == Call(key, Done) && t.calls[1] == s.calls[1] && t.calls.Keys == {1, 2};
    assert !LockedByOther(t, 1, key);
    RunsFromView(start, [Begin(1, key), Begin(2, key)] + [Find(2, false), AddOne(2, n), Commit(2)], 1, n);
    PostsItsView(t, 1, key, n, 0);
  }

  /** Two creates that both read the counter before either commits post the same number. */
  lemma OverlappingCreatesRepeat(start: map<CounterKey, int>, key: CounterKey)
    requires key in start
    ensures var n := start[key];
            var first := [Begin(1, key), Begin(2, key)] + [Find(1, true), Find(2, true)];
            var posted := Run(start, first + [AddOne(1, n), Commit(1), AddOne(2, n), Commit(2)]).posted;
            |posted| == 2 && posted[0].numbers == [n] && posted[1].numbers == [n]
  {
    var n := start[key];
    var begun := [Begin(1, key), Begin(2, key)];
    var first := begun + [Find(1, true), Find(2, true)];
    BothBegin(start, key);
    RunMore(start, begun, Find(1, true));
    RunMore(start, begun + [Find(1, true)], Find(2, true));
    assert begun + [Find(1, true)] + [Find(2, true)] == first;
    var s := Run(start, first);
    BothFind(start, key);
    assert s == State(start, map[1 := Call(key, Holding(n, false, 2)), 2 := Call(key, Holding(n, false, 3))], [], 4);
    BothCommit(start, s, first, key, n);
  }

  lemma BothFind(start: map<CounterKey, int>, key: CounterKey)
    requires key in start
    ensures var n := start[key];
            Tick(Tick(Begun(start, key), Find(1, true)), Find(2, true))
            == State(start, map[1 := Call(key, Holding(n, false, 2)), 2 := Call(key, Holding(n, false, 3))], [], 4)
  {
    var n := start[key];
    assert Tick(Begun(start, key), Find(1, true))
           == State(start, map[1 := Call(key, Holding(n, false, 2)), 2 := Call(key, Started(Some(n), 1))], [], 3);
  }

  lemma BothCommit(start: map<CounterKey, int>, s: State, first: seq<Action>, key: CounterKey, n: int)
    requires s == Run(start, first) && s.posted == [] && s.calls.Keys == {1, 2}
    requires forall id :: id in s.calls ==>
               s.calls[id].key == key && s.calls[id].phase.Holding? && !s.calls[id].phase.created
                                            && s.calls[id].phase.number == n
    ensures var posted := Run(start, first + [AddOne(1, n), Commit(1), AddOne(2, n), Commit(2)]).posted;
            |posted| == 2 && posted[0].numbers == [n] && posted[1].numbers == [n]
  {
    var one, two := first + [AddOne(1, n)], first + [AddOne(1, n), Commit(1)];
    var three := two + [AddOne(2, n)];
    RunMore(start, first, AddOne(1, n));
    RunMore(start, one, Commit(1));
    assert one + [Commit(1)] == two;
    AddAndCommit(s, 1);
    var t := Run(start, two);
    assert t.calls[2] == s.calls[2] && t.calls.Keys == {1, 2} && t.calls[1].phase == Done;
    assert !LockedByOther(t, 2, key);
    RunMore(start, two, AddOne(2, n));
    RunMore(start, three, Commit(2));
    AddAndCommit(t, 2);
    assert three + [Commit(2)] == first + [AddOne(1, n), Commit(1), AddOne(2, n), Commit(2)];
  }
}
