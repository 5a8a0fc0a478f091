/** `DashboardApp::poll_data` (src/app.rs): at most one fetch in flight,
    started no sooner than `poll_rate` milliseconds after the previous one,
    and joined once its thread is finished. The clock reading, whether the
    thread is finished and how it ends are inputs; the snapshot type `D` is
    abstract. */
module App {
  import opened Wrappers
  import opened Api

  datatype TaskSlot = Idle | InFlight

  /** The fields `poll_data` reads and writes. */
  datatype PollState<D> = PollState(task: TaskSlot, data: Option<D>, error: Option<Error>, lastPoll: nat)

  /** What one call of `poll_data` did: the state it leaves, whether it
      spawned a fetch and whether it took and joined a finished one. */
  datatype Polled<D> = Polled(state: PollState<D>, spawned: bool, joined: bool)

  /** One call of `poll_data`. A finished task is taken and joined, and its
      outcome handled as `join_task` does it; without a task, a fetch is
      spawned once the rate gate is open. */
  function Poll<D>(st: PollState<D>, pollRate: nat, now: nat, finished: bool, outcome: TaskOutcome<D>): (r: Polled<D>)
    // a spawn happens only without a task and with the strict gate open
    ensures r.spawned ==> st.task == Idle && st.lastPoll + pollRate < now
    ensures r.spawned ==> r.state == st.(task := InFlight, lastPoll := now)
    ensures st.task == Idle ==> (r.spawned <==> st.lastPoll + pollRate < now)
    // a join happens only with a finished task in flight, and frees the slot
    ensures r.joined ==> st.task == InFlight && finished && r.state.task == Idle
    ensures st.task == InFlight ==> (r.joined <==> finished)
    ensures !(r.spawned && r.joined)
    // otherwise nothing changes, and only a spawn moves `last_poll`
    ensures !r.spawned && !r.joined ==> r.state == st
    ensures !r.spawned ==> r.state.lastPoll == st.lastPoll
    // a successful join replaces the snapshot; a failed one keeps it
    ensures r.joined && outcome.Returned? && outcome.result.Ok? ==>
              r.state.data == Some(outcome.result.value) && r.state.error == None
    ensures r.joined && outcome.Returned? && outcome.result.Err? ==>
              r.state.data == st.data && r.state.error == Some(Fetch(outcome.result.error))
    ensures r.joined && outcome.Panicked? ==>
              r.state.data == st.data && r.state.error == Some(Unexpected)
  {
    match st.task
    case InFlight =>
      if !finished then Polled(st, false, false)
      else
        (match JoinTask(outcome)
         case Ok(d) => Polled(st.(task := Idle, data := Some(d), error := None), false, true)
         case Err(e) => Polled(st.(task := Idle, error := Some(e)), false, true))
    case Idle =>
      if st.lastPoll + pollRate < now then Polled(st.(task := InFlight, lastPoll := now), true, false)
      else Polled(st, false, false)
  }

  // ---------------------------------------------------------------------
  // Traces of poll calls

  datatype Event = Started(at: nat) | Joined

  /** The actions of one call, as events; a spawn is stamped with the clock
      reading of the call. */
  function Events<D>(p: Polled<D>, now: nat): seq<Event> {
    (if p.joined then [Joined] else []) + (if p.spawned then [Started(now)] else [])
  }

  datatype PollInput<D> = PollInput(now: nat, finished: bool, outcome: TaskOutcome<D>)

  function Run<D>(st: PollState<D>, pollRate: nat, inputs: seq<PollInput<D>>): PollState<D>
    decreases |inputs|
  {
    if inputs == [] then st
    else
      var i := inputs[0];
      Run(Poll(st, pollRate, i.now, i.finished, i.outcome).state, pollRate, inputs[1..])
  }

  function Trace<D>(st: PollState<D>, pollRate: nat, inputs: seq<PollInput<D>>): seq<Event>
    decreases |inputs|
  {
    if inputs == [] then []
    else
      var i := inputs[0];
      var p := Poll(st, pollRate, i.now, i.finished, i.outcome);
      Events(p, i.now) + Trace(p.state, pollRate, inputs[1..])
  }

  /** Replays events from a state (true: a task in flight): None as soon as
      a fetch starts while one is in flight or a join happens without one,
      otherwise whether a task is in flight at the end. */
  function Settle(events: seq<Event>, inFlight: bool): Option<bool> {
    if events == [] then Some(inFlight)
    else match events[0]
      case Started(_) => if inFlight then None else Settle(events[1..], true)
      case Joined => if inFlight then Settle(events[1..], false) else None
  }

  lemma {:induction false} SettleAppend(a: seq<Event>, b: seq<Event>, inFlight: bool)
    ensures Settle(a + b, inFlight) == match Settle(a, inFlight)
                                       case None => None
                                       case Some(m) => Settle(b, m)
  {
    if a != [] {
      assert (a + b)[0] == a[0] && (a + b)[1..] == a[1..] + b;
      match a[0]
      case Started(_) => SettleAppend(a[1..], b, true);
      case Joined => SettleAppend(a[1..], b, false);
    } else {
      assert a + b == b;
    }
  }

  /** Starts and joins alternate along any sequence of calls: at most one
      fetch is ever in flight, and the replay ends in the state's own task
      slot. */
  lemma {:induction false} AtMostOneInFlight<D>(st: PollState<D>, pollRate: nat, inputs: seq<PollInput<D>>)
    ensures Settle(Trace(st, pollRate, inputs), st.task == InFlight) ==
            Some(Run(st, pollRate, inputs).task == InFlight)
    decreases |inputs|
  {
    if inputs != [] {
      var i := inputs[0];
      var p := Poll(st, pollRate, i.now, i.finished, i.outcome);
      var step := Events(p, i.now);
      AtMostOneInFlight(p.state, pollRate, inputs[1..]);
      SettleAppend(step, Trace(p.state, pollRate, inputs[1..]), st.task == InFlight);
      if p.spawned {
        assert step == [Started(i.now)];
      } else if p.joined {
        assert step == [Joined];
      } else {
        assert step == [];
      }
    }
  }

  function StartTimes(events: seq<Event>): seq<nat> {
    if events == [] then []
    else (if events[0].Started? then [events[0].at] else []) + StartTimes(events[1..])
  }

  /** Each time is more than `pollRate` after the one before it (the first
      after `last`). */
  predicate Spaced(last: nat, pollRate: nat, times: seq<nat>)
    decreases |times|
  {
    times == [] || (last + pollRate < times[0] && Spaced(times[0], pollRate, times[1..]))
  }

  /** The strict rate gate over any sequence of calls: every fetch starts
      more than `pollRate` after the previous start (the first one after the
      initial `last_poll`), whatever the clock readings. */
  lemma {:induction false} StartsRespectRate<D>(st: PollState<D>, pollRate: nat, inputs: seq<PollInput<D>>)
    ensures Spaced(st.lastPoll, pollRate, StartTimes(Trace(st, pollRate, inputs)))
    decreases |inputs|
  {
    if inputs != [] {
      var i := inputs[0];
      var p := Poll(st, pollRate, i.now, i.finished, i.outcome);
      var step := Events(p, i.now);
      var rest := Trace(p.state, pollRate, inputs[1..]);
      StartsRespectRate(p.state, pollRate, inputs[1..]);
      assert Trace(st, pollRate, inputs) == step + rest;
      if p.spawned {
        assert step == [Started(i.now)];
        assert (step + rest)[0] == Started(i.now) && (step + rest)[1..] == rest;
        assert StartTimes(step + rest) == [i.now] + StartTimes(rest);
        assert ([i.now] + StartTimes(rest))[1..] == StartTimes(rest);
      } else if p.joined {
        assert step == [Joined];
        assert (step + rest)[0] == Joined && (step + rest)[1..] == rest;
        assert StartTimes(step + rest) == StartTimes(rest);
      } else {
        assert step + rest == rest;
      }
    }
  }

  // ---------------------------------------------------------------------
  // The application object

  /** `DashboardApp`, without the UI settings `ip` and `heatmap_delta`.
      `history` records the starts and joins so far. */
  class DashboardApp<D> {
    var pollRate: nat
    var lastPoll: nat
    var task: TaskSlot
    var data: Option<D>
    var error: Option<Error>
    ghost var history: seq<Event>

    /** The slot agrees with the history, which alternates. */
    ghost predicate Valid()
      reads this
    {
      Settle(history, false) == Some(task == InFlight)
    }

    function State(): PollState<D>
      reads this
    {
      PollState(task, data, error, lastPoll)
    }

    /** `DashboardApp::default()` */
    constructor ()
      ensures Valid() && history == []
      ensures pollRate == 2000 && lastPoll == 0 && task == Idle && data == None && error == None
    {
      pollRate := 2000;
      lastPoll := 0;
      task := Idle;
      data := None;
      error := None;
      history := [];
    }

    /** `poll_data`, with the clock reading `now`, whether the fetch thread
        is finished and how it ends. */
    method PollData(now: nat, finished: bool, outcome: TaskOutcome<D>)
      requires Valid()
      modifies this
      ensures Valid()
      ensures var p := Poll(old(State()), old(pollRate), now, finished, outcome);
              State() == p.state && history == old(history) + Events(p, now)
      ensures pollRate == old(pollRate)
    {
      match task {
        case InFlight =>
          if finished {
            task := Idle;
            match outcome {
              case Returned(Ok(d)) =>
                data := Some(d);
                error := None;
              case Returned(Err(e)) =>
                error := Some(Fetch(e));
              case Panicked =>
                error := Some(Unexpected);
            }
            SettleAppend(history, [Joined], false);
            history := history + [Joined];
          }
        case Idle =>
          if lastPoll + pollRate < now {
            task := InFlight;
            lastPoll := now;
            SettleAppend(history, [Started(now)], false);
            history := history + [Started(now)];
          }
      }
    }
  }
}
