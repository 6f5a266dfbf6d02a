/** The delayed ACK table (ack_delay): an ACK event is absorbed, and answered later by another event of its session or by the
    timer that walks over the table. */
module AckDelay {
  import opened ToeTypes

  /** The time in rounds of the timer, for the clock period of the synthesized engine. */
  const TIME_64US: nat := 323

  datatype Event = Event(isAck: bool, id: SessionId, tag: nat)

  type Table = t: seq<nat> | |t| == MAX_SESSIONS witness seq(MAX_SESSIONS, _ => 0)

  datatype State = State(table: Table, pointer: SessionId)

  /** What one step does. */
  datatype Act =
    | Absorb(id: SessionId)                     // an ACK is kept back
    | Forward(ev: Event, covering: bool)        // an event goes on; covering: its session had an ACK kept back
    | Timer(id: SessionId)                      // the timer sends the ACK
    | Nothing

  /** One step: with an event if there is one, else of the timer. */
  function Step(s: State, input: Option<Event>): (State, Act) {
    match input
    case Some(ev) =>
      if ev.isAck && s.table[ev.id] == 0 then (s.(table := s.table[ev.id := TIME_64US]), Absorb(ev.id))
      else (s.(table := s.table[ev.id := 0]), Forward(ev, s.table[ev.id] > 0))
    case None =>
      (State(if s.table[s.pointer] > 0 then s.table[s.pointer := s.table[s.pointer] - 1] else s.table,
             if s.pointer + 1 == MAX_SESSIONS then 0 else s.pointer + 1),
       if s.table[s.pointer] == 1 then Timer(s.pointer) else Nothing)
  }

  function After(s: State, inputs: seq<Option<Event>>): State
    decreases |inputs|
  {
    if inputs == [] then s else After(Step(s, inputs[0]).0, inputs[1..])
  }

  function Acts(s: State, inputs: seq<Option<Event>>): seq<Act>
    decreases |inputs|
  {
    if inputs == [] then [] else [Step(s, inputs[0]).1] + Acts(Step(s, inputs[0]).0, inputs[1..])
  }

  // ----- neither lost nor duplicated -----

  /** An act sends something that answers the ACK of session id. */
  predicate Covers(a: Act, id: SessionId) { (a.Forward? && a.covering && a.ev.id == id) || (a.Timer? && a.id == id) }

  /** One act, for session id: whether an ACK is waiting before and after it. An ACK is only absorbed when none is waiting, an answer
      is only given when one is, and an event of the session that answers nothing only passes when none is. */
  predicate ActOk(a: Act, id: SessionId, before: bool, after: bool) {
    if a.Absorb? && a.id == id then !before && after
    else if Covers(a, id) then before && !after
    else after == before && (a.Forward? && a.ev.id == id ==> !before)
  }

  /** For session id absorptions and answers alternate, from a state with or without a waiting ACK. */
  predicate Alternates(acts: seq<Act>, id: SessionId, before: bool, after: bool) {
    if acts == [] then after == before
    else if acts[0].Absorb? && acts[0].id == id then !before && Alternates(acts[1..], id, true, after)
    else if Covers(acts[0], id) then before && Alternates(acts[1..], id, false, after)
    else (acts[0].Forward? && acts[0].ev.id == id ==> !before) && Alternates(acts[1..], id, before, after)
  }

  predicate Waiting(s: State, id: SessionId) { s.table[id] > 0 }

  lemma {:induction false} StepOk(s: State, input: Option<Event>, id: SessionId)
    ensures ActOk(Step(s, input).1, id, Waiting(s, id), Waiting(Step(s, input).0, id))
  {}

  /** In every run, for every session: each ACK that is absorbed is answered exactly once before the next one is absorbed, and
      nothing is answered twice or without one. */
  lemma {:induction false} RunAlternates(s: State, inputs: seq<Option<Event>>, id: SessionId)
    ensures Alternates(Acts(s, inputs), id, Waiting(s, id), Waiting(After(s, inputs), id))
    decreases |inputs|
  {
    if inputs != [] {
      var (z, a) := Step(s, inputs[0]);
      StepOk(s, inputs[0], id);
      RunAlternates(z, inputs[1..], id);
      assert Acts(s, inputs)[1..] == Acts(z, inputs[1..]);
    }
  }

  /** The absorptions and the answers of a session. */
  function Absorbed(acts: seq<Act>, id: SessionId): nat {
    if acts == [] then 0 else (if acts[0] == Absorb(id) then 1 else 0) + Absorbed(acts[1..], id)
  }

  function Answered(acts: seq<Act>, id: SessionId): nat {
    if acts == [] then 0 else (if Covers(acts[0], id) then 1 else 0) + Answered(acts[1..], id)
  }

  /** As many answers as absorbed ACKs, but for the one that is waiting. */
  lemma {:induction false} Conserved(acts: seq<Act>, id: SessionId, before: bool, after: bool)
    requires Alternates(acts, id, before, after)
    ensures Absorbed(acts, id) + (if before then 1 else 0) == Answered(acts, id) + if after then 1 else 0
  {
    if acts != [] {
      if acts[0] == Absorb(id) {
        Conserved(acts[1..], id, true, after);
      } else if Covers(acts[0], id) {
        Conserved(acts[1..], id, false, after);
      } else {
        Conserved(acts[1..], id, before, after);
      }
    }
  }

  // ----- in time -----

  /** Steps of the timer until it comes to session id. */
  function Distance(s: State, id: SessionId): nat { if s.pointer <= id then id - s.pointer else id + MAX_SESSIONS - s.pointer }

  /** Steps of the timer until it answers the ACK of session id. */
  function Remaining(s: State, id: SessionId): nat { if s.table[id] == 0 then 0 else (s.table[id] - 1) * MAX_SESSIONS + Distance(s, id) + 1 }

  predicate InTime(s: State) { forall id: SessionId {:trigger s.table[id]} :: s.table[id] <= TIME_64US }

  lemma {:induction false} RemainingBound(s: State, id: SessionId)
    requires InTime(s)
    ensures Remaining(s, id) <= TIME_64US * MAX_SESSIONS
  {}

  lemma {:induction false} InTimeStep(s: State, input: Option<Event>)
    requires InTime(s)
    ensures InTime(Step(s, input).0)
  {}

  lemma {:induction false} InTimeRun(s: State, inputs: seq<Option<Event>>)
    requires InTime(s)
    ensures InTime(After(s, inputs))
    decreases |inputs|
  {
    if inputs != [] {
      InTimeStep(s, inputs[0]);
      InTimeRun(Step(s, inputs[0]).0, inputs[1..]);
    }
  }

  /** While an ACK waits and is not answered, each step of the timer brings its answer closer and no event delays it. */
  lemma {:induction false} CloserStep(s: State, input: Option<Event>, id: SessionId)
    requires Waiting(s, id) && !Covers(Step(s, input).1, id)
    ensures var z := Step(s, input).0;
            Waiting(z, id) && Remaining(z, id) == Remaining(s, id) - (if input.None? then 1 else 0)
  {}

  function IdleSteps(inputs: seq<Option<Event>>): nat {
    if inputs == [] then 0 else (if inputs[0].None? then 1 else 0) + IdleSteps(inputs[1..])
  }

  lemma {:induction false} AnsweredWithin(s: State, inputs: seq<Option<Event>>, id: SessionId)
    requires Waiting(s, id) && IdleSteps(inputs) >= Remaining(s, id)
    ensures Answered(Acts(s, inputs), id) > 0
    decreases |inputs|
  {
    if inputs != [] {
      var (z, a) := Step(s, inputs[0]);
      assert Acts(s, inputs)[1..] == Acts(z, inputs[1..]);
      if !Covers(a, id) {
        CloserStep(s, inputs[0], id);
        AnsweredWithin(z, inputs[1..], id);
      }
    }
  }

  const INITIAL: State := State(seq(MAX_SESSIONS, _ => 0), 0)

  // ----- in order -----

  /** The events that went on, without the timer's. */
  function Passed(acts: seq<Act>): seq<Event> {
    if acts == [] then [] else (if acts[0].Forward? then [acts[0].ev] else []) + Passed(acts[1..])
  }

  function Others(evs: seq<Event>): seq<Event> {
    if evs == [] then [] else (if evs[0].isAck then [] else [evs[0]]) + Others(evs[1..])
  }

  function Arrived(inputs: seq<Option<Event>>): seq<Event> {
    if inputs == [] then [] else (if inputs[0].Some? then [inputs[0].value] else []) + Arrived(inputs[1..])
  }

  lemma {:induction false} OthersPassed(s: State, inputs: seq<Option<Event>>)
    ensures Others(Passed(Acts(s, inputs))) == Others(Arrived(inputs))
    decreases |inputs|
  {
    if inputs != [] {
      var (z, a) := Step(s, inputs[0]);
      OthersPassed(z, inputs[1..]);
      assert Acts(s, inputs)[1..] == Acts(z, inputs[1..]);
      var rest, passed := Arrived(inputs[1..]), Passed(Acts(z, inputs[1..]));
      if inputs[0].Some? {
        var ev := inputs[0].value;
        assert Arrived(inputs) == [ev] + rest && ([ev] + rest)[1..] == rest;
        if a.Forward? {
          assert Passed(Acts(s, inputs)) == [ev] + passed && ([ev] + passed)[1..] == passed;
        } else {
          assert ev.isAck && Passed(Acts(s, inputs)) == passed;
        }
      } else {
        assert Arrived(inputs) == rest && Passed(Acts(s, inputs)) == passed;
      }
    }
  }

  // ----- what is sent -----

  /** What an act puts into the output stream. */
  function Output(a: Act): seq<Event> {
    match a
    case Forward(ev, _) => [ev]
    case Timer(id) => [Event(true, id, 0)]
    case _ => []
  }

  function Sent(acts: seq<Act>): seq<Event> { if acts == [] then [] else Output(acts[0]) + Sent(acts[1..]) }

  function OfSession(evs: seq<Event>, id: SessionId): nat {
    if evs == [] then 0 else (if evs[0].id == id then 1 else 0) + OfSession(evs[1..], id)
  }

  /** Every answer is an event of its session in the output stream, and nothing but ACKs is added there to what passes. */
  lemma {:induction false} AnswersAreSent(acts: seq<Act>, id: SessionId)
    ensures Answered(acts, id) <= OfSession(Sent(acts), id)
    ensures Others(Sent(acts)) == Others(Passed(acts))
  {
    if acts != [] {
      AnswersAreSent(acts[1..], id);
      var o, rest := Output(acts[0]), Sent(acts[1..]);
      assert o != [] ==> (o + rest)[0] == o[0] && (o + rest)[1..] == rest;
      assert o == [] ==> o + rest == rest;
      if acts[0].Forward? {
        assert ([acts[0].ev] + Passed(acts[1..]))[1..] == Passed(acts[1..]);
      } else {
        assert Passed(acts) == Passed(acts[1..]);
      }
    }
  }

  /** All events but ACKs are sent, in order, and no other. */
  lemma {:induction false} OthersPass(s: State, inputs: seq<Option<Event>>)
    ensures Others(Sent(Acts(s, inputs))) == Others(Arrived(inputs))
  {
    OthersPassed(s, inputs);
    AnswersAreSent(Acts(s, inputs), 0);
  }

  /** Of a session's events, the ACKs held back are missing in the output, and the timer's are added. */
  lemma {:induction false} SentBalance(s: State, inputs: seq<Option<Event>>, id: SessionId)
    ensures OfSession(Sent(Acts(s, inputs)), id) + Absorbed(Acts(s, inputs), id)
            == OfSession(Arrived(inputs), id) + TimerActs(Acts(s, inputs), id)
    decreases |inputs|
  {
    if inputs != [] {
      var (z, a) := Step(s, inputs[0]);
      SentBalance(z, inputs[1..], id);
      assert Acts(s, inputs)[1..] == Acts(z, inputs[1..]);
      var o, rest, later := Output(a), Sent(Acts(z, inputs[1..])), Arrived(inputs[1..]);
      assert o != [] ==> (o + rest)[0] == o[0] && (o + rest)[1..] == rest;
      assert o == [] ==> o + rest == rest;
      if inputs[0].Some? {
        assert ([inputs[0].value] + later)[1..] == later;
      } else {
        assert Arrived(inputs) == later;
      }
    }
  }

  function TimerActs(acts: seq<Act>, id: SessionId): nat {
    if acts == [] then 0 else (if acts[0] == Timer(id) then 1 else 0) + TimerActs(acts[1..], id)
  }

  /** In every run from the empty table: a waiting ACK is answered before TIME_64us rounds of the timer have passed, whatever events
      come. */
  lemma {:induction false} AnsweredInTime(past: seq<Option<Event>>, inputs: seq<Option<Event>>, id: SessionId)
    requires Waiting(After(INITIAL, past), id) && IdleSteps(inputs) >= TIME_64US * MAX_SESSIONS
    ensures Answered(Acts(After(INITIAL, past), inputs), id) > 0
    ensures OfSession(Sent(Acts(After(INITIAL, past), inputs)), id) > 0
  {
    AnswersAreSent(Acts(After(INITIAL, past), inputs), id);
    InTimeRun(INITIAL, past);
    RemainingBound(After(INITIAL, past), id);
    AnsweredWithin(After(INITIAL, past), inputs, id);
  }

  /** From the empty table: absorbed ACKs and answers, session by session, and the answers are events sent for it. */
  lemma {:induction false} EachAnsweredOnce(inputs: seq<Option<Event>>, id: SessionId)
    ensures var acts := Acts(INITIAL, inputs);
            && Alternates(acts, id, false, Waiting(After(INITIAL, inputs), id))
            && Absorbed(acts, id) == Answered(acts, id) + (if Waiting(After(INITIAL, inputs), id) then 1 else 0)
            && Answered(acts, id) <= OfSession(Sent(acts), id)
  {
    AnswersAreSent(Acts(INITIAL, inputs), id);
    RunAlternates(INITIAL, inputs, id);
    Conserved(Acts(INITIAL, inputs), id, false, Waiting(After(INITIAL, inputs), id));
  }

  /** The delay is real: without events a waiting ACK is not answered before its time, which is more than 322 rounds of the timer for one
      just absorbed. */
  lemma {:induction false} NotBefore(s: State, inputs: seq<Option<Event>>, id: SessionId)
    requires Waiting(s, id) && |inputs| < Remaining(s, id) && forall i :: 0 <= i < |inputs| ==> inputs[i].None?
    ensures Answered(Acts(s, inputs), id) == 0
    decreases |inputs|
  {
    if inputs != [] {
      var (z, a) := Step(s, inputs[0]);
      assert Acts(s, inputs)[1..] == Acts(z, inputs[1..]);
      assert !Covers(a, id);
      CloserStep(s, inputs[0], id);
      NotBefore(z, inputs[1..], id);
    }
  }

  lemma {:induction false} AbsorbedWaits(s: State, ev: Event)
    requires Step(s, Some(ev)).1.Absorb?
    ensures Waiting(Step(s, Some(ev)).0, ev.id) && 322 * 64 < Remaining(Step(s, Some(ev)).0, ev.id) <= 323 * 64
  {}

  // ----- the process -----

  class AckDelayTable {
    const ackTable: array<nat>
    var adPointer: nat
    var eventIn: seq<Event>
    var eventOut: seq<Event>

    ghost predicate Valid()
      reads this
    {
      ackTable.Length == MAX_SESSIONS && adPointer < MAX_SESSIONS
    }

    function View(): State
      requires Valid()
      reads this, ackTable
    {
      State(ackTable[..], adPointer)
    }

    constructor ()
      ensures Valid() && View() == INITIAL && eventIn == [] && eventOut == [] && fresh(ackTable)
    {
      ackTable := new nat[MAX_SESSIONS](_ => 0);
      adPointer, eventIn, eventOut := 0, [], [];
    }

    method TakeEvent()
      requires Valid() && eventIn != []
      modifies this, ackTable
      ensures Valid() && eventIn == old(eventIn)[1..]
      ensures var (z, a) := Step(old(View()), Some(old(eventIn)[0])); View() == z && eventOut == old(eventOut) + Output(a)
    {
      var ev := eventIn[0];
      eventIn := eventIn[1..];
      if ev.isAck && ackTable[ev.id] == 0 {
        ackTable[ev.id] := TIME_64US;
      } else {
        ackTable[ev.id] := 0;
        eventOut := eventOut + [ev];
      }
    }

    method Idle()
      requires Valid() && eventIn == []
      modifies this, ackTable
      ensures Valid() && eventIn == []
      ensures var (z, a) := Step(old(View()), None); View() == z && eventOut == old(eventOut) + Output(a)
    {
      if ackTable[adPointer] > 0 {
        if ackTable[adPointer] == 1 {
          eventOut := eventOut + [Event(true, adPointer, 0)];
        }
        ackTable[adPointer] := ackTable[adPointer] - 1;
      }
      adPointer := adPointer + 1;
      if adPointer == MAX_SESSIONS {
        adPointer := 0;
      }
    }
  }
}
