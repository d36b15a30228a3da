/** The game stream as a fold over its inputs: every event is reduced into the
    running state and the new state is shown, until a state with gameOver set
    ends the game; a restart key after that starts a fresh game from the
    initial board. */
module Stream {
  import opened Game
  import opened Invariants
  import opened Rules

  /** What reaches the stream: a game event (clock tick or movement key), or
      the restart key. */
  datatype Input = Deliver(event: Event) | Restart

  /** Whether a game is running, and its current state. */
  datatype Driver = Playing(state: State) | Stopped

  /** The driver after one input and the states it shows (at most one). */
  datatype Outcome = Outcome(next: Driver, shown: seq<State>)

  /** One input. A running game reduces an event and shows the new state unless
      it is over, in which case the game stops without showing it. A stopped
      game ignores events; the restart key starts a new game from the initial
      board, which is not itself shown. A restart key during a game is
      ignored. */
  function Step(d: Driver, input: Input): (o: Outcome)
    ensures |o.shown| <= 1
    ensures forall i :: 0 <= i < |o.shown| ==> !o.shown[i].gameOver
    ensures o.next.Playing? ==> !o.next.state.gameOver || (d.Playing? && o.next == d)
  {
    match (d, input)
    case (Playing(s), Deliver(e)) =>
      var n := ReduceState(s, e);
      if n.gameOver then Outcome(Stopped, []) else Outcome(Playing(n), [n])
    case (Playing(_), Restart) => Outcome(d, [])
    case (Stopped, Deliver(_)) => Outcome(Stopped, [])
    case (Stopped, Restart) => Outcome(Playing(InitialState()), [])
  }

  /** The states shown, in order, for a sequence of inputs. */
  function Run(d: Driver, inputs: seq<Input>): (r: seq<State>)
    ensures |r| <= |inputs|
    decreases |inputs|
  {
    if inputs == [] then []
    else
      var o := Step(d, inputs[0]);
      o.shown + Run(o.next, inputs[1..])
  }

  /** What holds of a driver between inputs: a running game is in a valid,
      unfinished state holding the crowns of the initial board. */
  predicate DriverValid(d: Driver) {
    d.Playing? ==> Valid(d.state) && !d.state.gameOver && CrownSet(d.state) == CrownSet(InitialState())
  }

  /** Every step keeps DriverValid. */
  lemma StepValid(d: Driver, input: Input)
    requires DriverValid(d)
    ensures DriverValid(Step(d, input).next)
    ensures forall i :: 0 <= i < |Step(d, input).shown| ==>
      Step(d, input).shown[i] == Step(d, input).next.state
  {
    match (d, input)
    case (Playing(s), Deliver(e)) =>
      ReduceStateValid(s, e);
      ReduceStateKeepsCrownSet(s, e);
    case (Playing(_), Restart) =>
    case (Stopped, Deliver(_)) =>
    case (Stopped, Restart) =>
      InitialStateValid();
  }

  /** Every state ever shown is valid, is not a game-over state, and holds
      exactly the crowns of the initial board. */
  lemma {:induction false} RunShowsValidStates(d: Driver, inputs: seq<Input>)
    requires DriverValid(d)
    ensures forall i :: 0 <= i < |Run(d, inputs)| ==>
      var s := Run(d, inputs)[i];
      Valid(s) && !s.gameOver && CrownSet(s) == CrownSet(InitialState())
    decreases |inputs|
  {
    if inputs != [] {
      var o := Step(d, inputs[0]);
      StepValid(d, inputs[0]);
      RunShowsValidStates(o.next, inputs[1..]);
    }
  }

  /** From a stopped game, events show nothing and change nothing. */
  lemma StoppedIgnoresEvents(e: Event, rest: seq<Input>)
    ensures Run(Stopped, [Deliver(e)] + rest) == Run(Stopped, rest)
  {
    assert ([Deliver(e)] + rest)[1..] == rest;
  }

  /** The restart key during a game changes nothing. */
  lemma PlayingIgnoresRestart(s: State, rest: seq<Input>)
    ensures Run(Playing(s), [Restart] + rest) == Run(Playing(s), rest)
  {
    assert ([Restart] + rest)[1..] == rest;
  }

  /** After a game ends, the restart key starts from the initial board,
      whatever the previous game looked like. */
  lemma RestartStartsFresh(rest: seq<Input>)
    ensures Run(Stopped, [Restart] + rest) == Run(Playing(InitialState()), rest)
  {
    assert ([Restart] + rest)[1..] == rest;
  }

  /** An event that does not end the game shows the reduced state and the
      game goes on from it; one that ends it shows nothing and stops the
      game. */
  lemma EventShown(s: State, e: Event, rest: seq<Input>)
    ensures var n := ReduceState(s, e);
      Run(Playing(s), [Deliver(e)] + rest) ==
        if n.gameOver then Run(Stopped, rest) else [n] + Run(Playing(n), rest)
  {
    assert ([Deliver(e)] + rest)[1..] == rest;
  }

  /** Whether inputs holds no restart key. */
  predicate NoRestart(inputs: seq<Input>) {
    forall i :: 0 <= i < |inputs| ==> inputs[i].Deliver?
  }

  /** The highscores of states are all at least h and never decrease along
      the sequence. */
  predicate HighscoresFrom(h: int, states: seq<State>) {
    && (forall i :: 0 <= i < |states| ==> h <= states[i].highscore)
    && (forall i, j :: 0 <= i < j < |states| ==> states[i].highscore <= states[j].highscore)
  }

  /** Putting a state with a highscore of at least h in front of states whose
      highscores start from it keeps them ordered. */
  lemma HighscoresFromCons(h: int, n: State, states: seq<State>)
    requires h <= n.highscore && HighscoresFrom(n.highscore, states)
    ensures HighscoresFrom(h, [n] + states)
  {
    var r := [n] + states;
    forall i, j | 0 <= i < j < |r|
      ensures r[i].highscore <= r[j].highscore
    {
      assert r[j] == states[j - 1];
      if i > 0 {
        assert r[i] == states[i - 1];
      }
    }
  }

  /** Within one game the highscore shown never decreases and never drops
      below the highscore the game started from. */
  lemma {:induction false} RunHighscoreMonotone(s: State, inputs: seq<Input>)
    requires NoRestart(inputs)
    ensures HighscoresFrom(s.highscore, Run(Playing(s), inputs))
    decreases |inputs|
  {
    if inputs != [] {
      var e := inputs[0].event;
      var n := ReduceState(s, e);
      var rest := inputs[1..];
      ReduceStateHighscoreMonotone(s, e);
      assert [Deliver(e)] + rest == inputs;
      EventShown(s, e, rest);
      if n.gameOver {
        StoppedShowsNothing(rest);
      } else {
        RunHighscoreMonotone(n, rest);
        HighscoresFromCons(s.highscore, n, Run(Playing(n), rest));
      }
    }
  }

  /** A game whose lives went below 0 never ends: without a restart key
      every event shows a state, and each of them still has negative lives
      and gameOver false. */
  lemma {:induction false} NegativeLivesShowEveryEvent(s: State, inputs: seq<Input>)
    requires s.lives < 0 && !s.gameOver && NoRestart(inputs)
    ensures |Run(Playing(s), inputs)| == |inputs|
    ensures forall i :: 0 <= i < |inputs| ==>
      Run(Playing(s), inputs)[i].lives < 0 && !Run(Playing(s), inputs)[i].gameOver
    decreases |inputs|
  {
    if inputs != [] {
      var e := inputs[0].event;
      var rest := inputs[1..];
      var n := ReduceState(s, e);
      NegativeLivesNeverEnd(s, e);
      assert [Deliver(e)] + rest == inputs;
      EventShown(s, e, rest);
      assert Run(Playing(s), inputs) == [n] + Run(Playing(n), rest);
      NegativeLivesShowEveryEvent(n, rest);
    }
  }

  /** Without a restart key a stopped game shows nothing more. */
  lemma {:induction false} StoppedShowsNothing(inputs: seq<Input>)
    requires NoRestart(inputs)
    ensures Run(Stopped, inputs) == []
    decreases |inputs|
  {
    if inputs != [] {
      StoppedShowsNothing(inputs[1..]);
    }
  }
}
