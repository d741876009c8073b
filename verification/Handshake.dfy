// The probe's handshake: two goroutines and the caller, over three unbuffered channels and
// the buffered `done`. A step is one goroutine getting as far as its next channel
// operation or yield; every interleaving is allowed.
module Handshake {

  /** The receiving goroutine. Parked means blocked in a select, where a peer can meet it. */
  datatype Receiver =
    | Delay(i: int)
    | Select1
    | Parked1
    | Select2
    | Parked2
    | Report(ok: bool)
    | Gone(ok: bool)

  /** The sending goroutine: its two loops of non-blocking selects, then close and report. */
  datatype Sender =
    | Offer(i: int)
    | AwaitAck(i: int)
    | CloseAbort(ok: bool)
    | Tell(ok: bool)
    | Over(ok: bool)

  /** `return <-done && <-done`: the second receive happens only after a true. */
  datatype Caller = First | Second | Returned(result: bool)

  /** `closes` counts close(abort); a second one would panic. `verdicts` (history) is what
      went into `done`, of which `taken` have been received. */
  datatype State = State(r: Receiver, s: Sender, m: Caller, closes: nat, verdicts: seq<bool>, taken: nat)

  datatype Process = R | S | M

  const DoneCapacity := 2

  function Init(): State {
    State(Delay(0), Offer(0), First, 0, [], 0)
  }

  predicate DoneHasRoom(st: State) {
    |st.verdicts| - st.taken < DoneCapacity
  }

  predicate Enabled(st: State, p: Process) {
    match p
    case R => !st.r.Parked1? && !st.r.Parked2? && !st.r.Gone? && (st.r.Report? ==> DoneHasRoom(st))
    case S => !st.s.Over? && (st.s.Tell? ==> DoneHasRoom(st))
    case M => !st.m.Returned? && st.taken < |st.verdicts|
  }

  function StepReceiver(st: State, delay: int): State
    requires Enabled(st, R)
  {
    match st.r
    case Delay(i) => st.(r := if i < delay then Delay(i + 1) else Select1)
    case Select1 => st.(r := if st.closes > 0 then Report(false) else Parked1)
    case Select2 => st.(r := if st.closes > 0 then Report(false) else Parked2)
    case Report(ok) => st.(r := Gone(ok), verdicts := st.verdicts + [ok])
  }

  /** close(abort) wakes the receiver if it is parked, in the abort case of its select. */
  function Close(st: State): State {
    st.(closes := st.closes + 1, r := if st.r.Parked1? || st.r.Parked2? then Report(false) else st.r)
  }

  function StepSender(st: State, attempts: int): State
    requires Enabled(st, S)
  {
    match st.s
    case Offer(i) =>
      if i >= attempts then st.(s := CloseAbort(false))
      else if st.r.Parked1? then st.(s := AwaitAck(0), r := Select2)
      else st.(s := Offer(i + 1))
    case AwaitAck(i) =>
      if i >= attempts then st.(s := CloseAbort(false))
      else if st.r.Parked2? then st.(s := CloseAbort(true), r := Report(true))
      else st.(s := AwaitAck(i + 1))
    case CloseAbort(ok) => Close(st).(s := Tell(ok))
    case Tell(ok) => st.(s := Over(ok), verdicts := st.verdicts + [ok])
  }

  function StepCaller(st: State): State
    requires Enabled(st, M) && st.taken < |st.verdicts|
  {
    var v := st.verdicts[st.taken];
    st.(taken := st.taken + 1, m := if st.m.First? && v then Second else Returned(v))
  }

  function Step(st: State, p: Process, attempts: int, delay: int): State
    requires Enabled(st, p)
  {
    match p
    case R => StepReceiver(st, delay)
    case S => StepSender(st, attempts)
    case M => StepCaller(st)
  }

  /** A run: the processes that moved, in order, and the states passed through. */
  ghost predicate Run(run: seq<State>, moves: seq<Process>, attempts: int, delay: int) {
    && |run| == |moves| + 1 && run[0] == Init()
    && forall i :: 0 <= i < |moves| ==>
         Enabled(run[i], moves[i]) && run[i + 1] == Step(run[i], moves[i], attempts, delay)
  }

  /** Where the receiver can be, given where the sender is. */
  ghost predicate Joint(r: Receiver, s: Sender) {
    match s
    case Offer(_) => r.Delay? || r.Select1? || r.Parked1?
    case AwaitAck(_) => r.Select2? || r.Parked2?
    case CloseAbort(true) => r == Report(true) || r == Gone(true)
    case CloseAbort(false) => r.Delay? || r.Select1? || r.Parked1? || r.Select2? || r.Parked2?
    case Tell(ok) => Settled(r, ok)
    case Over(ok) => Settled(r, ok)
  }

  ghost predicate Settled(r: Receiver, ok: bool) {
    r == Report(ok) || r == Gone(ok) || (!ok && (r.Delay? || r.Select1? || r.Select2?))
  }

  ghost predicate CallerInv(st: State) {
    match st.m
    case First => st.taken == 0
    case Second => st.taken == 1 <= |st.verdicts| && st.verdicts[0]
    case Returned(v) => (v ==> st.taken == 2) && 1 <= st.taken <= 2 && st.taken <= |st.verdicts| && st.verdicts[st.taken - 1] == v
  }

  function Reported(st: State): nat {
    (if st.r.Gone? then 1 else 0) + (if st.s.Over? then 1 else 0)
  }

  ghost predicate Inv(st: State) {
    && Joint(st.r, st.s)
    && st.closes == (if st.s.Tell? || st.s.Over? then 1 else 0)
    && st.taken <= |st.verdicts| == Reported(st)
    && (st.r.Gone? ==> forall i :: 0 <= i < |st.verdicts| ==> st.verdicts[i] == st.r.ok)
    && (st.s.Over? ==> forall i :: 0 <= i < |st.verdicts| ==> st.verdicts[i] == st.s.ok)
    && CallerInv(st)
  }

  lemma StepKeepsInv(st: State, p: Process, attempts: int, delay: int)
    requires Inv(st) && Enabled(st, p)
    ensures Inv(Step(st, p, attempts, delay))
  {
  }

  lemma {:induction false} RunKeepsInv(run: seq<State>, moves: seq<Process>, attempts: int, delay: int, k: nat)
    requires Run(run, moves, attempts, delay) && k < |run|
    ensures Inv(run[k])
  {
    if k > 0 {
      RunKeepsInv(run, moves, attempts, delay, k - 1);
      StepKeepsInv(run[k - 1], moves[k - 1], attempts, delay);
    }
  }

  ghost predicate Finished(st: State) {
    st.r.Gone? && st.s.Over? && st.m.Returned?
  }

  /** No deadlock: unless everybody is finished, somebody can move. A verdict never waits
      for room in `done`, and abort is never closed twice. */
  lemma NeverStuck(run: seq<State>, moves: seq<Process>, attempts: int, delay: int, k: nat)
    requires Run(run, moves, attempts, delay) && k < |run|
    ensures !Finished(run[k]) ==> exists p :: Enabled(run[k], p)
    ensures run[k].r.Report? || run[k].s.Tell? ==> DoneHasRoom(run[k])
    ensures run[k].closes <= 1
    ensures run[k].s.CloseAbort? ==> run[k].closes == 0
  {
    RunKeepsInv(run, moves, attempts, delay, k);
    var st := run[k];
    if !Finished(st) && !Enabled(st, S) && !Enabled(st, R) {
      assert Enabled(st, M);
    }
  }

  function Left(i: int, bound: int): nat {
    if i < bound then bound - i else 0
  }

  function Measure(st: State, attempts: int, delay: int): nat {
    var r := match st.r
      case Delay(i) => Left(i, delay) + 6
      case Select1 => 5
      case Parked1 => 4
      case Select2 => 3
      case Parked2 => 2
      case Report(_) => 1
      case Gone(_) => 0;
    var s := match st.s
      case Offer(i) => Left(i, attempts) + Left(0, attempts) + 4
      case AwaitAck(i) => Left(i, attempts) + 3
      case CloseAbort(_) => 2
      case Tell(_) => 1
      case Over(_) => 0;
    r + s + (match st.m case First => 2 case Second => 1 case Returned(_) => 0)
  }

  lemma StepDescends(st: State, p: Process, attempts: int, delay: int)
    requires Enabled(st, p)
    ensures Measure(Step(st, p, attempts, delay), attempts, delay) < Measure(st, attempts, delay)
  {
  }

  /** Every run is finite: it has at most as many steps as the initial measure. */
  lemma {:induction false} RunsAreBounded(run: seq<State>, moves: seq<Process>, attempts: int, delay: int, k: nat)
    requires Run(run, moves, attempts, delay) && k < |run|
    ensures k + Measure(run[k], attempts, delay) <= Measure(Init(), attempts, delay)
  {
    if k > 0 {
      RunsAreBounded(run, moves, attempts, delay, k - 1);
      StepDescends(run[k - 1], moves[k - 1], attempts, delay);
    }
  }

  /** Agreement: a run that can go no further has everybody finished, abort closed exactly
      once, and two equal verdicts, one from each goroutine; the caller returned that
      verdict, whichever arrived first. It is true exactly if the two met twice. */
  lemma Agreement(run: seq<State>, moves: seq<Process>, attempts: int, delay: int)
    requires Run(run, moves, attempts, delay)
    requires var st := run[|run| - 1]; !Enabled(st, R) && !Enabled(st, S) && !Enabled(st, M)
    ensures var st := run[|run| - 1];
            && Finished(st) && st.closes == 1
            && st.r.ok == st.s.ok == st.m.result
            && st.verdicts == [st.m.result, st.m.result]
            && (st.m.result <==> MetTwice(run, moves, attempts, |moves|))
  {
    var st := run[|run| - 1];
    NeverStuck(run, moves, attempts, delay, |run| - 1);
    RunKeepsInv(run, moves, attempts, delay, |run| - 1);
    assert st.verdicts == [st.verdicts[0], st.verdicts[1]];
    TrueIffMetTwice(run, moves, attempts, delay);
  }

  // ----- which verdict -----

  /** The sender makes an offer while the receiver waits for it; later it looks for the ack
      while the receiver waits to give it. */
  predicate Offers(st: State, attempts: int) { st.s.Offer? && st.s.i < attempts && st.r.Parked1? }
  predicate Acks(st: State, attempts: int) { st.s.AwaitAck? && st.s.i < attempts && st.r.Parked2? }

  /** Among the first k steps is a sender's step that meets the receiver (and, after it, one
      that fetches the ack). */
  ghost predicate Met(run: seq<State>, moves: seq<Process>, attempts: int, k: nat)
    requires k <= |moves| && |run| == |moves| + 1
  {
    exists i :: 0 <= i < k && moves[i] == S && Offers(run[i], attempts)
  }

  ghost predicate MetTwice(run: seq<State>, moves: seq<Process>, attempts: int, k: nat)
    requires k <= |moves| && |run| == |moves| + 1
  {
    exists i, j :: 0 <= i < j < k && moves[i] == S && Offers(run[i], attempts)
                   && moves[j] == S && Acks(run[j], attempts)
  }

  /** What the sender's place says about the meetings so far. */
  ghost predicate Tells(s: Sender, met: bool, twice: bool) {
    match s
    case Offer(_) => !met && !twice
    case AwaitAck(_) => met && !twice
    case CloseAbort(ok) => ok == twice
    case Tell(ok) => ok == twice
    case Over(ok) => ok == twice
  }

  lemma {:induction false} MeetingsTell(run: seq<State>, moves: seq<Process>, attempts: int, delay: int, k: nat)
    requires Run(run, moves, attempts, delay) && k < |run|
    ensures Tells(run[k].s, Met(run, moves, attempts, k), MetTwice(run, moves, attempts, k))
  {
    if k > 0 {
      MeetingsTell(run, moves, attempts, delay, k - 1);
      RunKeepsInv(run, moves, attempts, delay, k - 1);
      MeetingsGrow(run, moves, attempts, k - 1);
      StepTells(run[k - 1], moves[k - 1], attempts, delay,
                Met(run, moves, attempts, k - 1), MetTwice(run, moves, attempts, k - 1));
    }
  }

  lemma MeetingsGrow(run: seq<State>, moves: seq<Process>, attempts: int, k: nat)
    requires k < |moves| && |run| == |moves| + 1
    ensures Met(run, moves, attempts, k + 1) <==>
              Met(run, moves, attempts, k) || (moves[k] == S && Offers(run[k], attempts))
    ensures MetTwice(run, moves, attempts, k + 1) <==>
              MetTwice(run, moves, attempts, k)
              || (Met(run, moves, attempts, k) && moves[k] == S && Acks(run[k], attempts))
  {
    hide Offers, Acks;
  }

  lemma StepTells(st: State, p: Process, attempts: int, delay: int, met: bool, twice: bool)
    requires Inv(st) && Enabled(st, p) && Tells(st.s, met, twice)
    ensures Tells(Step(st, p, attempts, delay).s, met || (p == S && Offers(st, attempts)),
                  twice || (met && p == S && Acks(st, attempts)))
  {
  }

  /** The answer, exactly: the caller returns true if and only if, at some step, the sender
      offered while the receiver waited for the request and, at a later one, looked for the
      ack while the receiver waited to send it, both within the attempts. */
  lemma TrueIffMetTwice(run: seq<State>, moves: seq<Process>, attempts: int, delay: int)
    requires Run(run, moves, attempts, delay) && run[|moves|].m.Returned?
    ensures run[|moves|].m.result <==> MetTwice(run, moves, attempts, |moves|)
  {
    MeetingsTell(run, moves, attempts, delay, |moves|);
    RunKeepsInv(run, moves, attempts, delay, |moves|);
    ResultIsSendersVerdict(run[|moves|]);
  }

  lemma ResultIsSendersVerdict(st: State)
    requires Inv(st) && st.m.Returned?
    ensures st.s.CloseAbort? || st.s.Tell? || st.s.Over?
    ensures st.s.ok == st.m.result
  {
  }

  // ----- both answers are possible -----

  ghost predicate Reaches(st: State, attempts: int, delay: int) {
    exists run, moves :: Run(run, moves, attempts, delay) && run[|moves|] == st
  }

  lemma ReachesStart(attempts: int, delay: int)
    ensures Reaches(Init(), attempts, delay)
  {
    var run, moves: seq<Process> := [Init()], [];
    assert Run(run, moves, attempts, delay) && run[|moves|] == Init();
  }

  lemma ReachesNext(st: State, p: Process, attempts: int, delay: int)
    requires Reaches(st, attempts, delay) && Enabled(st, p)
    ensures Reaches(Step(st, p, attempts, delay), attempts, delay)
  {
    var run, moves :| Run(run, moves, attempts, delay) && run[|moves|] == st;
    var next := Step(st, p, attempts, delay);
    hide Step, Enabled;
    assert Run(run + [next], moves + [p], attempts, delay);
    assert (run + [next])[|moves + [p]|] == next;
  }

  /** The receiver alone, through its delay and into its first select. */
  lemma {:induction false} ReceiverArrives(st: State, attempts: int, delay: int)
    requires Reaches(st, attempts, delay) && st.r.Delay?
    ensures Reaches(st.(r := Select1), attempts, delay)
    decreases delay - st.r.i
  {
    ReachesNext(st, R, attempts, delay);
    if st.r.i < delay {
      ReceiverArrives(st.(r := Delay(st.r.i + 1)), attempts, delay);
    }
  }

  /** The sender alone, through its offers and up to its verdict, with nobody there. */
  lemma {:induction false} SenderGivesUp(st: State, attempts: int, delay: int)
    requires Reaches(st, attempts, delay) && st.s.Offer? && st.r == Delay(0) && st.closes == 0
    requires st.m.First? && st.verdicts == [] && st.taken == 0
    ensures Reaches(st.(s := Over(false), closes := 1, verdicts := [false]), attempts, delay)
    decreases attempts - st.s.i
  {
    ReachesNext(st, S, attempts, delay);
    if st.s.i < attempts {
      SenderGivesUp(st.(s := Offer(st.s.i + 1)), attempts, delay);
    } else {
      var s1 := st.(s := CloseAbort(false));
      ReachesNext(s1, S, attempts, delay);
      ReachesNext(s1.(s := Tell(false), closes := 1), S, attempts, delay);
      assert [] + [false] == [false];
    }
  }

  /** For any attempts and delay some complete run returns false. */
  lemma CanFail(attempts: int, delay: int) returns (st: State)
    ensures Reaches(st, attempts, delay) && Finished(st) && st.m == Returned(false)
  {
    ReachesStart(attempts, delay);
    SenderGivesUp(Init(), attempts, delay);
    var a := Init().(s := Over(false), closes := 1, verdicts := [false]);
    ReachesNext(a, M, attempts, delay);
    var b := a.(m := Returned(false), taken := 1);
    ReceiverArrives(b, attempts, delay);
    var d := b.(r := Select1);
    ReachesNext(d, R, attempts, delay);
    var e := d.(r := Report(false));
    ReachesNext(e, R, attempts, delay);
    st := Step(e, R, attempts, delay);
  }

  /** With at least one attempt some complete run returns true, whatever the delay. */
  lemma CanSucceed(attempts: int, delay: int) returns (st: State)
    requires attempts >= 1
    ensures Reaches(st, attempts, delay) && Finished(st) && st.m == Returned(true)
  {
    ReachesStart(attempts, delay);
    ReceiverArrives(Init(), attempts, delay);
    st := Init().(r := Select1);
    st := Go(st, R, attempts, delay);
    assert st == Init().(r := Parked1);
    st := Go(st, S, attempts, delay);
    assert st == Init().(r := Select2, s := AwaitAck(0));
    st := Go(st, R, attempts, delay);
    st := Go(st, S, attempts, delay);
    assert st == Init().(r := Report(true), s := CloseAbort(true));
    st := Go(st, S, attempts, delay);
    st := Go(st, S, attempts, delay);
    assert st == Init().(r := Report(true), s := Over(true), closes := 1, verdicts := [true]);
    st := Go(st, R, attempts, delay);
    st := Go(st, M, attempts, delay);
    st := Go(st, M, attempts, delay);
  }

  lemma Go(st: State, p: Process, attempts: int, delay: int) returns (next: State)
    requires Reaches(st, attempts, delay) && Enabled(st, p)
    ensures next == Step(st, p, attempts, delay) && Reaches(next, attempts, delay)
  {
    ReachesNext(st, p, attempts, delay);
    next := Step(st, p, attempts, delay);
  }

  /** So true can come out exactly when there is at least one attempt (and false always). */
  lemma TrueIsPossibleIff(attempts: int, delay: int)
    ensures (exists st :: Reaches(st, attempts, delay) && Finished(st) && st.m == Returned(true)) <==> attempts >= 1
  {
    if attempts >= 1 {
      var st := CanSucceed(attempts, delay);
    } else if st :| Reaches(st, attempts, delay) && Finished(st) && st.m == Returned(true) {
      var run, moves :| Run(run, moves, attempts, delay) && run[|moves|] == st;
      TrueIffMetTwice(run, moves, attempts, delay);
      var i, j :| 0 <= i < j < |moves| && moves[i] == S && Offers(run[i], attempts)
                  && moves[j] == S && Acks(run[j], attempts);
      NoOfferWithoutAttempts(run, moves, attempts, delay, i);
    }
  }

  lemma NoOfferWithoutAttempts(run: seq<State>, moves: seq<Process>, attempts: int, delay: int, k: nat)
    requires Run(run, moves, attempts, delay) && k < |run| && attempts <= 0
    ensures !Offers(run[k], attempts)
  {
    Accounts(run, moves, attempts, delay, k);
  }

  // ----- how long they try -----

  function StepsOf(p: Process, moves: seq<Process>): nat {
    if moves == [] then 0
    else StepsOf(p, moves[..|moves| - 1]) + (if moves[|moves| - 1] == p then 1 else 0)
  }

  /** The receiver yields exactly `delay` times before it looks; the sender makes one offer a
      step and gives up only after all of its attempts. */
  ghost predicate Accounted(st: State, attempts: int, delay: int, receiver: nat, sender: nat) {
    && (match st.r
        case Delay(i) => i == receiver && (i == 0 || i <= delay)
        case _ => receiver > 0 && receiver > delay)
    && (match st.s
        case Offer(i) => i == sender && (i == 0 || i <= attempts)
        case AwaitAck(i) => 0 <= i < sender && (i == 0 || i <= attempts)
        case CloseAbort(ok) => sender > 0 && (!ok ==> sender > attempts)
        case Tell(ok) => sender > 0 && (!ok ==> sender > attempts)
        case Over(ok) => sender > 0 && (!ok ==> sender > attempts))
  }

  lemma {:induction false} Accounts(run: seq<State>, moves: seq<Process>, attempts: int, delay: int, k: nat)
    requires Run(run, moves, attempts, delay) && k < |run|
    ensures Accounted(run[k], attempts, delay, StepsOf(R, moves[..k]), StepsOf(S, moves[..k]))
  {
    if k > 0 {
      Accounts(run, moves, attempts, delay, k - 1);
      RunKeepsInv(run, moves, attempts, delay, k - 1);
      assert moves[..k][..k - 1] == moves[..k - 1];
      StepAccounts(run[k - 1], moves[k - 1], attempts, delay, StepsOf(R, moves[..k - 1]), StepsOf(S, moves[..k - 1]));
    }
  }

  lemma StepAccounts(st: State, p: Process, attempts: int, delay: int, receiver: nat, sender: nat)
    requires Inv(st) && Enabled(st, p) && Accounted(st, attempts, delay, receiver, sender)
    ensures Accounted(Step(st, p, attempts, delay), attempts, delay,
                      receiver + (if p == R then 1 else 0), sender + (if p == S then 1 else 0))
  {
  }

  /** With no attempts at all the handshake fails under every schedule. */
  lemma {:induction false} NoAttemptsFail(run: seq<State>, moves: seq<Process>, attempts: int, delay: int, k: nat)
    requires Run(run, moves, attempts, delay) && k < |run| && attempts <= 0
    ensures run[k].s in {Offer(0), CloseAbort(false), Tell(false), Over(false)}
  {
    if k > 0 {
      NoAttemptsFail(run, moves, attempts, delay, k - 1);
      RunKeepsInv(run, moves, attempts, delay, k - 1);
    }
  }
}
