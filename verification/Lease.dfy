/** Leader election over one lease record. Controllers read the record, decide, and write it back with
    a compare-and-swap; time passes between all of these steps. Times are nanoseconds. */
module Lease {
  import opened Basics

  /** Retry period (also the request timeout), reload time and lease duration. */
  datatype Config = Config(retry: nat, reload: nat, duration: nat)

  /** What construction of an elector accepts, after defaults. */
  predicate Accepted(c: Config) {
    c.retry > 0 && c.duration > 0 && c.retry < c.duration / 2
  }

  function Wrap32(n: int): int {
    (n + 0x8000_0000) % 0x1_0000_0000 - 0x8000_0000
  }

  /** The duration as the record carries it: whole seconds in a signed 32-bit field. */
  function Stored(c: Config): (d: int)
    ensures d <= c.duration
  {
    Wrap32(c.duration / 1_000_000_000) * 1_000_000_000
  }

  /** Renewal times are written with microsecond precision. */
  function Stamp(t: nat): nat {
    t - t % 1_000
  }

  datatype Record = Record(holder: string, renewed: Option<nat>, duration: int) {
    function Expires(): int {
      if renewed.Some? then renewed.value + duration else 0
    }
  }

  /** Where an elector is in its loop. `start` is the clock reading at the beginning of the cycle and
      `due` the latest time of its next step. */
  datatype Phase =
    | Stopped
    | Waiting(start: nat, due: nat)
    | Reading(start: nat, due: nat)
    | HasRead(start: nat, due: nat, seen: Option<Record>, version: nat)
    | Writing(start: nat, due: nat, seen: Option<Record>, version: nat)
    | Written(start: nat, due: nat, won: bool)
    | Reloading(start: nat, due: nat)

  /** An elector. `basis` is the start of the cycle that last set its leader flag. */
  datatype Elector = Elector(leader: bool, phase: Phase, basis: nat)

  /** A write that its elector has given up and the server may still handle. */
  datatype Late = Late(id: string, start: nat, seen: Option<Record>, version: nat)

  datatype State = State(now: nat, record: Option<Record>, version: nat, electors: map<string, Elector>,
                         late: set<Late>)

  datatype Step =
    | Tick(to: nat)                     // time passes
    | Begin(id: string)                 // a cycle starts: the clock is read and the GET is sent
    | ServeGet(id: string)              // the server answers the GET
    | Decide(id: string)                // the answer arrives
    | ServePut(id: string)              // the server handles the PUT or POST
    | Learn(id: string)                 // its answer arrives
    | Reloaded(id: string, ok: bool)    // durable state has been reloaded
    | Lose(id: string)                  // a request fails or times out
    | Stop(id: string)                  // cancellation
    | ServeLate(write: Late)            // the server handles a write after its elector gave it up

  function Write(c: Config, id: string, start: nat): Record {
    Record(id, Some(Stamp(start)), Stored(c))
  }

  /** Another identity holds the record and its lease has not run out at the start of this cycle. */
  predicate Refused(seen: Option<Record>, id: string, start: nat) {
    seen.Some? && seen.value.holder != "" && seen.value.holder != id && start < seen.value.Expires()
  }

  /** The end of a cycle: publish the outcome and wait for the next tick, which comes no later than
      one period after the cycle began, or at once if the cycle took longer. */
  function Finish(c: Config, e: Elector, leader: bool, now: nat): Elector
    requires !e.phase.Stopped?
  {
    var start := e.phase.start;
    Elector(leader, Waiting(start, if now < start + c.retry then start + c.retry else now),
            if leader then start else e.basis)
  }

  predicate Can(c: Config, s: State, step: Step) {
    match step
    case Tick(to) => s.now <= to
      && forall id | id in s.electors :: s.electors[id].phase.Stopped? || to <= s.electors[id].phase.due
    case Begin(id) => id in s.electors && (s.electors[id].phase.Stopped? || s.electors[id].phase.Waiting?)
    case ServeGet(id) => id in s.electors && s.electors[id].phase.Reading?
    case Decide(id) => id in s.electors && s.electors[id].phase.HasRead?
    case ServePut(id) => id in s.electors && s.electors[id].phase.Writing?
    case Learn(id) => id in s.electors && s.electors[id].phase.Written?
    case Reloaded(id, _) => id in s.electors && s.electors[id].phase.Reloading?
    case Lose(id) =>
      id in s.electors && var p := s.electors[id].phase; p.Reading? || p.HasRead? || p.Writing? || p.Written?
    case Stop(id) => id in s.electors
    case ServeLate(write) => write in s.late
  }

  function Do(c: Config, s: State, step: Step): State
    requires Can(c, s, step)
  {
    match step
    case Tick(to) => s.(now := to)
    case Begin(id) => With(s, id, s.electors[id].(phase := Reading(s.now, s.now + c.retry)))
    case ServeGet(id) =>
      var p := s.electors[id].phase;
      With(s, id, s.electors[id].(phase := HasRead(p.start, p.due, s.record, s.version)))
    case Decide(id) =>
      var p := s.electors[id].phase;
      With(s, id, if Refused(p.seen, id, p.start) then Finish(c, s.electors[id], false, s.now)
                  else s.electors[id].(phase := Writing(p.start, s.now + c.retry, p.seen, p.version)))
    case ServePut(id) =>
      var p := s.electors[id].phase;
      if p.version == s.version
      then With(s, id, s.electors[id].(phase := Written(p.start, p.due, true))).(record := Some(Write(c, id, p.start)),
                                                                                 version := s.version + 1)
      else With(s, id, s.electors[id].(phase := Written(p.start, p.due, false)))
    case Learn(id) =>
      var e := s.electors[id];
      With(s, id, if e.phase.won && !e.leader then e.(phase := Reloading(e.phase.start, s.now + c.reload))
                  else Finish(c, e, e.phase.won, s.now))
    case Reloaded(id, ok) => With(s, id, Finish(c, s.electors[id], ok, s.now))
    case Lose(id) => With(GiveUp(s, id), id, Finish(c, s.electors[id], false, s.now))
    case Stop(id) => With(GiveUp(s, id), id, Elector(false, Stopped, s.electors[id].basis))
    case ServeLate(write) =>
      var t := s.(late := s.late - {write});
      if write.version == s.version then t.(record := Some(Write(c, write.id, write.start)), version := s.version + 1)
          else t
  }

  /** A request under way may arrive although nobody waits for its answer any more. */
  function GiveUp(s: State, id: string): State
    requires id in s.electors
  {
    var p := s.electors[id].phase;
    if p.Writing? then s.(late := s.late + {Late(id, p.start, p.seen, p.version)}) else s
  }

  function With(s: State, id: string, e: Elector): State {
    s.(electors := s.electors[id := e])
  }

  /** Nobody runs yet; the record may hold anything. */
  predicate Init(s: State) {
    "" !in s.electors && s.late == {}
      && forall id | id in s.electors :: s.electors[id].phase.Stopped? && !s.electors[id].leader
  }

  /** The state after a run of steps, if all of them are possible. */
  function Run(c: Config, s: State, steps: seq<Step>): Option<State> {
    if steps == [] then Some(s)
    else
      var before := Run(c, s, steps[..|steps| - 1]);
      if before.Some? && Can(c, before.value, steps[|steps| - 1]) then Some(Do(c, before.value, steps[|steps| - 1]))
          else None
  }

  ghost predicate SingleLeader(s: State) {
    forall i, j :: i in s.electors && j in s.electors && s.electors[i].leader && s.electors[j].leader ==> i == j
  }

  // ---- what every run keeps ------------------------------------------------------------------

  /** Reads are recognised as outdated by their version, and nobody writes over a live lease. */
  ghost predicate Ordered(c: Config, s: State) {
    && "" !in s.electors
    && (forall id :: id in s.electors ==> Placed(s, id))
    && forall w :: w in s.late ==> Harmless(s, w)
  }

  ghost predicate Placed(s: State, id: string)
    requires id in s.electors
  {
    var p := s.electors[id].phase;
    && (!p.Stopped? ==> p.start <= s.now <= p.due)
    && (p.HasRead? || p.Writing? ==> p.version <= s.version && (p.version == s.version ==> p.seen == s.record))
    && (p.Writing? ==> !Refused(p.seen, id, p.start))
  }

  predicate Winning(e: Elector) {
    e.leader || e.phase.Reloading? || (e.phase.Written? && e.phase.won)
  }

  /** A late write was justified when it was sent, and is outdated as soon as anybody wins. */
  ghost predicate Harmless(s: State, w: Late) {
    && w.id in s.electors && w.start <= s.now && !Refused(w.seen, w.id, w.start)
    && w.version <= s.version && (w.version == s.version ==> w.seen == s.record && !Winning(s.electors[w.id]))
  }

  /** The record names `id`, renewed no earlier than in the cycle that began at `start`. */
  ghost predicate Owns(c: Config, s: State, id: string, start: nat) {
    && s.record.Some? && s.record.value.holder == id && s.record.value.duration == Stored(c)
    && s.record.value.renewed.Some? && s.record.value.renewed.value >= Stamp(start)
  }

  /** How long a flag can stay set after the cycle that justified it. */
  ghost predicate Timely(c: Config, s: State, id: string)
    requires id in s.electors
  {
    var e := s.electors[id];
    && (e.phase.Reading? || e.phase.HasRead? ==> e.phase.due == e.phase.start + c.retry)
    && (e.phase.Writing? || e.phase.Written? ==> e.phase.due <= e.phase.start + 2 * c.retry)
    && (e.phase.Reloading? ==> e.phase.due <= e.phase.start + 2 * c.retry + c.reload && !e.leader)
    && (e.phase.Reloading? || (e.phase.Written? && e.phase.won) ==> Owns(c, s, id, e.phase.start))
    && (e.leader ==>
          && Owns(c, s, id, e.basis) && !e.phase.Stopped? && e.basis <= e.phase.start
          && (if e.phase.Waiting? then e.phase.due <= e.basis + 2 * c.retry + c.reload
              else e.phase.start <= e.basis + 2 * c.retry + c.reload))
  }

  ghost predicate Inv(c: Config, s: State) {
    Ordered(c, s) && forall id :: id in s.electors ==> Timely(c, s, id)
  }

  /** The lease outlasts every flag it justifies. */
  predicate LongEnough(c: Config) {
    4 * c.retry + c.reload + 1_000 <= Stored(c)
  }

  lemma StampBounds(t: nat)
    ensures t - 1_000 < Stamp(t) <= t
  {
  }

  lemma StampMonotone(t: nat, u: nat)
    requires t <= u
    ensures Stamp(t) <= Stamp(u)
  {
  }

  /** While an elector leads, or has won and not yet learned it, its lease has not run out. */
  lemma LeaseLive(c: Config, s: State, id: string)
    requires LongEnough(c) && Inv(c, s) && id in s.electors
    requires Winning(s.electors[id])
    ensures s.record.Some? && s.record.value.holder == id && s.now < s.record.value.Expires()
  {
    var e := s.electors[id];
    assert Timely(c, s, id);
    StampBounds(e.phase.start);
    StampBounds(e.basis);
  }

  lemma LeadersAgree(c: Config, s: State)
    requires LongEnough(c) && Inv(c, s)
    ensures SingleLeader(s)
  {
    forall i, j | i in s.electors && j in s.electors && s.electors[i].leader && s.electors[j].leader ensures i == j {
      LeaseLive(c, s, i);
      LeaseLive(c, s, j);
    }
  }

  lemma PlacedKept(c: Config, s: State, step: Step, id: string)
    requires Ordered(c, s) && Can(c, s, step) && id in Do(c, s, step).electors
    ensures Placed(Do(c, s, step), id)
  {
    hide Harmless;
    assert Placed(s, id);
  }

  lemma HarmlessKept(c: Config, s: State, step: Step, w: Late)
    requires Ordered(c, s) && Can(c, s, step) && w in Do(c, s, step).late
    ensures Harmless(Do(c, s, step), w)
  {
    if w in s.late {
      assert Harmless(s, w);
    } else {
      assert Placed(s, w.id);
    }
  }

  lemma OrderedKept(c: Config, s: State, step: Step)
    requires Ordered(c, s) && Can(c, s, step)
    ensures Ordered(c, Do(c, s, step))
  {
    hide Placed, Harmless;
    var t := Do(c, s, step);
    forall id | id in t.electors ensures Placed(t, id) {
      PlacedKept(c, s, step, id);
    }
    forall w | w in t.late ensures Harmless(t, w) {
      HarmlessKept(c, s, step, w);
    }
  }

  /** The holder of the record changes only once its lease has run out. */
  lemma HolderChangesAfterExpiry(c: Config, s: State, step: Step)
    requires Ordered(c, s) && Can(c, s, step)
    requires s.record.Some? && s.record.value.holder != ""
    ensures Do(c, s, step).record.Some?
    ensures Do(c, s, step).record.value.holder != s.record.value.holder ==> s.now >= s.record.value.Expires()
  {
  }

  /** A successful write finds no other elector leading or about to lead. */
  lemma WinnerIsAlone(c: Config, s: State, id: string)
    requires LongEnough(c) && Inv(c, s) && id in s.electors && s.electors[id].phase.Writing?
    requires s.electors[id].phase.version == s.version
    ensures forall j :: j in s.electors && j != id ==> !Winning(s.electors[j])
  {
    forall j | j in s.electors && j != id ensures !Winning(s.electors[j]) {
      if Winning(s.electors[j]) {
        LeaseLive(c, s, j);
      }
    }
  }

  /** A late write that goes through finds nobody leading or about to lead. */
  lemma LateFindsNobody(c: Config, s: State, w: Late)
    requires LongEnough(c) && Inv(c, s) && w in s.late && w.version == s.version
    ensures forall j :: j in s.electors ==> !Winning(s.electors[j])
  {
    assert Harmless(s, w);
    forall j | j in s.electors ensures !Winning(s.electors[j]) {
      if Winning(s.electors[j]) {
        LeaseLive(c, s, j);
      }
    }
  }

  lemma LateKept(c: Config, s: State, w: Late)
    requires LongEnough(c) && Inv(c, s) && w in s.late
    ensures Inv(c, Do(c, s, ServeLate(w)))
  {
    hide Ordered;
    OrderedKept(c, s, ServeLate(w));
    var t := Do(c, s, ServeLate(w));
    if w.version == s.version {
      LateFindsNobody(c, s, w);
    }
    forall j | j in t.electors ensures Timely(c, t, j) {
      assert Timely(c, s, j);
    }
  }

  lemma WriterTimely(c: Config, s: State, id: string)
    requires Inv(c, s) && Can(c, s, ServePut(id))
    ensures id in Do(c, s, ServePut(id)).electors && Timely(c, Do(c, s, ServePut(id)), id)
  {
    hide Stored, Stamp;
    var e := s.electors[id];
    assert Timely(c, s, id) && Placed(s, id);
    if e.leader {
      StampMonotone(e.basis, e.phase.start);
    }
  }

  lemma LoserTimely(c: Config, s: State, id: string, j: string)
    requires Inv(c, s) && Can(c, s, ServePut(id)) && j != id && j in Do(c, s, ServePut(id)).electors
    requires j in s.electors ==> s.electors[id].phase.version == s.version ==> !Winning(s.electors[j])
    ensures Timely(c, Do(c, s, ServePut(id)), j)
  {
    hide Ordered, Stored, Stamp;
    assert Timely(c, s, j);
  }

  lemma WriteKept(c: Config, s: State, id: string)
    requires LongEnough(c) && Inv(c, s) && Can(c, s, ServePut(id))
    ensures Inv(c, Do(c, s, ServePut(id)))
  {
    hide Ordered, Timely, Do, Winning;
    OrderedKept(c, s, ServePut(id));
    var t := Do(c, s, ServePut(id));
    WriterTimely(c, s, id);
    if s.electors[id].phase.version == s.version {
      WinnerIsAlone(c, s, id);
    }
    forall j | j in t.electors ensures Timely(c, t, j) {
      if j != id {
        LoserTimely(c, s, id, j);
      }
    }
  }

  lemma OwnStepKept(c: Config, s: State, step: Step, id: string)
    requires Inv(c, s) && Can(c, s, step)
    requires step == Begin(id) || step == ServeGet(id) || step == Decide(id) || step == Learn(id) || step == Lose(id)
             || step == Stop(id)
             || step == Reloaded(id, true) || step == Reloaded(id, false)
    ensures Inv(c, Do(c, s, step))
  {
    hide Ordered, Timely, Do;
    OrderedKept(c, s, step);
    var t := Do(c, s, step);
    OwnTimely(c, s, step, id);
    forall j | j in t.electors ensures Timely(c, t, j) {
      if j != id {
        OtherTimely(c, s, step, id, j);
      }
    }
  }

  lemma OwnTimely(c: Config, s: State, step: Step, id: string)
    requires Inv(c, s) && Can(c, s, step)
    requires step == Begin(id) || step == ServeGet(id) || step == Decide(id) || step == Learn(id) || step == Lose(id)
             || step == Stop(id)
             || step == Reloaded(id, true) || step == Reloaded(id, false)
    ensures id in Do(c, s, step).electors && Timely(c, Do(c, s, step), id)
  {
    assert Timely(c, s, id);
  }

  lemma OtherTimely(c: Config, s: State, step: Step, id: string, j: string)
    requires Inv(c, s) && Can(c, s, step) && j != id && j in Do(c, s, step).electors
    requires step == Begin(id) || step == ServeGet(id) || step == Decide(id) || step == Learn(id) || step == Lose(id)
             || step == Stop(id)
             || step == Reloaded(id, true) || step == Reloaded(id, false)
    ensures Timely(c, Do(c, s, step), j)
  {
    hide Ordered;
    assert Timely(c, s, j);
  }

  lemma StepKept(c: Config, s: State, step: Step)
    requires LongEnough(c) && Inv(c, s) && Can(c, s, step)
    ensures Inv(c, Do(c, s, step))
  {
    match step {
      case Tick(to) =>
        OrderedKept(c, s, step);
        var t := Do(c, s, step);
        forall j | j in t.electors ensures Timely(c, t, j) {
          assert Timely(c, s, j);
        }
      case ServePut(id) => WriteKept(c, s, id);
      case ServeLate(w) => LateKept(c, s, w);
      case Begin(id) => OwnStepKept(c, s, step, id);
      case ServeGet(id) => OwnStepKept(c, s, step, id);
      case Decide(id) => OwnStepKept(c, s, step, id);
      case Learn(id) => OwnStepKept(c, s, step, id);
      case Reloaded(id, ok) => OwnStepKept(c, s, step, id);
      case Lose(id) => OwnStepKept(c, s, step, id);
      case Stop(id) => OwnStepKept(c, s, step, id);
    }
  }

  lemma {:induction false} RunKept(c: Config, s: State, steps: seq<Step>)
    requires LongEnough(c) && Init(s) && Run(c, s, steps).Some?
    ensures Inv(c, Run(c, s, steps).value)
  {
    if steps != [] {
      RunKept(c, s, steps[..|steps| - 1]);
      StepKept(c, Run(c, s, steps[..|steps| - 1]).value, steps[|steps| - 1]);
    }
  }

  lemma {:induction false} RunOrdered(c: Config, s: State, steps: seq<Step>)
    requires Init(s) && Run(c, s, steps).Some?
    ensures Ordered(c, Run(c, s, steps).value)
  {
    if steps != [] {
      RunOrdered(c, s, steps[..|steps| - 1]);
      OrderedKept(c, Run(c, s, steps[..|steps| - 1]).value, steps[|steps| - 1]);
    }
  }

  /** In every run of any number of controllers, a step changes the recorded holder only at or after
      the expiry of the previous one. */
  lemma HolderChangesInRuns(c: Config, s: State, steps: seq<Step>, step: Step)
    requires Init(s) && Run(c, s, steps + [step]).Some?
    ensures var before, after := Run(c, s, steps), Run(c, s, steps + [step]).value;
            && before.Some?
            && (before.value.record.Some? && before.value.record.value.holder != "" ==>
                  && after.record.Some?
                  && (after.record.value.holder != before.value.record.value.holder ==>
                        before.value.now >= before.value.record.value.Expires()))
  {
    assert (steps + [step])[..|steps|] == steps;
    RunOrdered(c, s, steps);
    var before := Run(c, s, steps).value;
    if before.record.Some? && before.record.value.holder != "" {
      HolderChangesAfterExpiry(c, before, step);
    }
  }

  // ---- when one leader is guaranteed ---------------------------------------------------------

  /** `t` can be reached from `s`. */
  ghost predicate Reachable(c: Config, s: State, t: State) {
    exists steps :: Run(c, s, steps) == Some(t)
  }

  lemma Extend(c: Config, s: State, t: State, step: Step) returns (u: State)
    requires Reachable(c, s, t) && Can(c, t, step)
    ensures u == Do(c, t, step) && Reachable(c, s, u)
  {
    var steps :| Run(c, s, steps) == Some(t);
    assert (steps + [step])[..|steps|] == steps;
    u := Do(c, t, step);
    assert Run(c, s, steps + [step]) == Some(u);
  }

  /** Two controllers at one moment. */
  function Two(now: nat, record: Option<Record>, version: nat, a: Elector, b: Elector): State {
    State(now, record, version, map["a" := a, "b" := b], {})
  }

  lemma TwoWith(now: nat, record: Option<Record>, version: nat, a: Elector, b: Elector, e: Elector)
    ensures With(Two(now, record, version, a, b), "a", e) == Two(now, record, version, e, b)
    ensures With(Two(now, record, version, a, b), "b", e) == Two(now, record, version, a, e)
  {
    assert map["a" := a, "b" := b]["a" := e] == map["a" := e, "b" := b];
    assert map["a" := a, "b" := b]["b" := e] == map["a" := a, "b" := e];
  }

  const IDLE := Elector(false, Stopped, 0)

  /** Two idle controllers and no record, just before a full microsecond. */
  function Start(): State {
    Two(999, None, 0, IDLE, IDLE)
  }

  lemma SlowRead(c: Config)
    ensures Reachable(c, Start(),
                      Two(999 + c.retry, None, 0, Elector(false, HasRead(999, 999 + c.retry, None, 0), 0), IDLE))
  {
    hide Reachable;
    Here(c, Start());
    var t := Extend(c, Start(), Start(), Begin("a"));
    TwoWith(999, None, 0, IDLE, IDLE, Elector(false, Reading(999, 999 + c.retry), 0));
    t := Extend(c, Start(), t, ServeGet("a"));
    TwoWith(999, None, 0, Elector(false, Reading(999, 999 + c.retry), 0), IDLE,
            Elector(false, HasRead(999, 999 + c.retry, None, 0), 0));
    t := Extend(c, Start(), t, Tick(999 + c.retry));
  }

  lemma Here(c: Config, s: State)
    ensures Reachable(c, s, s)
  {
    assert Run(c, s, []) == Some(s);
  }

  lemma SlowWrite(c: Config)
    ensures Reachable(c, Start(), Two(999 + 2 * c.retry, Some(Record("a", Some(0), Stored(c))), 1,
                                      Elector(false, Written(999, 999 + 2 * c.retry, true), 0), IDLE))
  {
    hide Reachable;
    SlowRead(c);
    var a := Elector(false, HasRead(999, 999 + c.retry, None, 0), 0);
    var t := Extend(c, Start(), Two(999 + c.retry, None, 0, a, IDLE), Decide("a"));
    TwoWith(999 + c.retry, None, 0, a, IDLE, Elector(false, Writing(999, 999 + 2 * c.retry, None, 0), 0));
    a := Elector(false, Writing(999, 999 + 2 * c.retry, None, 0), 0);
    t := Extend(c, Start(), t, ServePut("a"));
    TwoWith(999 + c.retry, None, 0, a, IDLE, Elector(false, Written(999, 999 + 2 * c.retry, true), 0));
    t := Extend(c, Start(), t, Tick(999 + 2 * c.retry));
  }

  /** Controller "a" becomes leader as slowly as the timeouts allow. */
  lemma SlowLeader(c: Config)
    ensures var at := 999 + 2 * c.retry + c.reload;
            Reachable(c, Start(), Two(at, Some(Record("a", Some(0), Stored(c))), 1,
                                      Elector(true, Waiting(999, at), 999), IDLE))
  {
    hide Reachable;
    SlowWrite(c);
    var at, record := 999 + 2 * c.retry + c.reload, Some(Record("a", Some(0), Stored(c)));
    var a := Elector(false, Written(999, 999 + 2 * c.retry, true), 0);
    var t := Extend(c, Start(), Two(999 + 2 * c.retry, record, 1, a, IDLE), Learn("a"));
    TwoWith(999 + 2 * c.retry, record, 1, a, IDLE, Elector(false, Reloading(999, at), 0));
    a := Elector(false, Reloading(999, at), 0);
    t := Extend(c, Start(), t, Tick(at));
    t := Extend(c, Start(), t, Reloaded("a", true));
    TwoWith(at, record, 1, a, IDLE, Elector(true, Waiting(999, at), 999));
  }

  /** Its next renewal takes as long as it can without being served. */
  lemma SlowRenewal(c: Config)
    ensures var at, record := 999 + 2 * c.retry + c.reload, Some(Record("a", Some(0), Stored(c)));
            Reachable(c, Start(), Two(at + 2 * c.retry, record, 1,
                                      Elector(true, Writing(at, at + 2 * c.retry, record, 1), 999), IDLE))
  {
    hide Reachable;
    SlowLeader(c);
    var at, record := 999 + 2 * c.retry + c.reload, Some(Record("a", Some(0), Stored(c)));
    var a := Elector(true, Waiting(999, at), 999);
    var t := Extend(c, Start(), Two(at, record, 1, a, IDLE), Begin("a"));
    TwoWith(at, record, 1, a, IDLE, Elector(true, Reading(at, at + c.retry), 999));
    a := Elector(true, Reading(at, at + c.retry), 999);
    t := Extend(c, Start(), t, ServeGet("a"));
    TwoWith(at, record, 1, a, IDLE, Elector(true, HasRead(at, at + c.retry, record, 1), 999));
    a := Elector(true, HasRead(at, at + c.retry, record, 1), 999);
    t := Extend(c, Start(), t, Tick(at + c.retry));
    t := Extend(c, Start(), t, Decide("a"));
    TwoWith(at + c.retry, record, 1, a, IDLE, Elector(true, Writing(at, at + 2 * c.retry, record, 1), 999));
    t := Extend(c, Start(), t, Tick(at + 2 * c.retry));
  }

  /** Meanwhile the lease has run out, and "b" takes it over at that very moment. */
  lemma Overtaken(c: Config) returns (t: State)
    requires !LongEnough(c)
    ensures Reachable(c, Start(), t) && "a" in t.electors && "b" in t.electors && t.electors["a"].leader
            && t.electors["b"].leader
  {
    hide Reachable;
    SlowRenewal(c);
    var at, record := 999 + 2 * c.retry + c.reload, Some(Record("a", Some(0), Stored(c)));
    var now, a := at + 2 * c.retry, Elector(true, Writing(at, at + 2 * c.retry, record, 1), 999);
    t := Extend(c, Start(), Two(now, record, 1, a, IDLE), Begin("b"));
    TwoWith(now, record, 1, a, IDLE, Elector(false, Reading(now, now + c.retry), 0));
    var b := Elector(false, Reading(now, now + c.retry), 0);
    t := Extend(c, Start(), t, ServeGet("b"));
    TwoWith(now, record, 1, a, b, Elector(false, HasRead(now, now + c.retry, record, 1), 0));
    b := Elector(false, HasRead(now, now + c.retry, record, 1), 0);
    t := Extend(c, Start(), t, Decide("b"));
    TwoWith(now, record, 1, a, b, Elector(false, Writing(now, now + c.retry, record, 1), 0));
    b := Elector(false, Writing(now, now + c.retry, record, 1), 0);
    t := Extend(c, Start(), t, ServePut("b"));
    TwoWith(now, record, 1, a, b, Elector(false, Written(now, now + c.retry, true), 0));
    b := Elector(false, Written(now, now + c.retry, true), 0);
    var record' := Some(Write(c, "b", now));
    t := Extend(c, Start(), t, Learn("b"));
    TwoWith(now, record', 2, a, b, Elector(false, Reloading(now, now + c.reload), 0));
    b := Elector(false, Reloading(now, now + c.reload), 0);
    t := Extend(c, Start(), t, Reloaded("b", true));
    TwoWith(now, record', 2, a, b, Elector(true, Waiting(now, now + c.retry), now));
  }

  lemma TwoLeaders(c: Config) returns (s: State, steps: seq<Step>)
    requires !LongEnough(c)
    ensures Init(s) && Run(c, s, steps).Some? && !SingleLeader(Run(c, s, steps).value)
  {
    hide Run;
    s := Start();
    var t := Overtaken(c);
    steps :| Run(c, s, steps) == Some(t);
    assert "a" != "b" && !SingleLeader(t);
  }

  /** No run of any number of controllers ever has two leaders, exactly when the recorded lease duration covers
      four retry periods, the reload time and the microsecond lost to rounding. */
  lemma SingleLeaderIff(c: Config)
    ensures LongEnough(c) <==>
              forall s, steps :: Init(s) && Run(c, s, steps).Some? ==> SingleLeader(Run(c, s, steps).value)
  {
    hide Run, Init, SingleLeader, LongEnough;
    if LongEnough(c) {
      forall s, steps | Init(s) && Run(c, s, steps).Some? ensures SingleLeader(Run(c, s, steps).value) {
        RunKept(c, s, steps);
        LeadersAgree(c, Run(c, s, steps).value);
      }
    } else {
      var s, steps := TwoLeaders(c);
    }
  }

  /** What construction accepts is not enough: for every retry period there is an accepted lease duration under which
      two controllers lead at once. */
  lemma AcceptedIsNotEnough(retry: nat, reload: nat) returns (c: Config, s: State, steps: seq<Step>)
    requires retry > 0
    ensures c.retry == retry && c.reload == reload && Accepted(c)
    ensures Init(s) && Run(c, s, steps).Some? && !SingleLeader(Run(c, s, steps).value)
  {
    hide Run, Init, SingleLeader;
    c := Config(retry, reload, 2 * retry + 2);
    s, steps := TwoLeaders(c);
  }
}
