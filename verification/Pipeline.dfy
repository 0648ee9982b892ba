/**
 The pipeline: a tree of stages joined by channels, the wait group that counts their
 main loops, and the cascade in which the stages shut down.
 */
module Pipeline {

  /** Each stage reads the channel of its own number, which its parent feeds; the driver feeds channel 0. */
  datatype Net = Net(parent: seq<int>, capacity: nat, slack: nat)
  {
    ghost predicate IsTree()
    {
      |parent| >= 1 && parent[0] == -1 && capacity >= 1
      && forall i :: 1 <= i < |parent| ==> 0 <= parent[i] < i
    }
  }

  /**
   A channel. `held` are results of the feeding stage that it has yet to send here,
   for instance those its workers are busy with; `made`, `produced` and `consumed`
   are the histories of results, sends and receives.
   */
  datatype Chan<T> = Chan(queue: seq<T>, closed: bool, held: seq<T>, made: seq<T>, produced: seq<T>, consumed: seq<T>)

  /** `Process` runs, `Process` has returned, `Cleanup` closes the outputs, all is over. */
  datatype Phase = Running | Returned | Closing | Done

  datatype State<T> = State(net: Net, chans: seq<Chan<T>>, phases: seq<Phase>, wg: int, panicked: bool)

  datatype Step<T> =
    | Push(item: T)
    | CloseRoot
    | Recv(stage: nat, results: seq<T>)
    | Emit(chan: nat, which: nat)
    | Return(stage: nat)
    | StopWorkers(stage: nat)
    | Close(chan: nat)
    | Finish(stage: nat)

  predicate IsChild(net: Net, c: int, stage: int)
  {
    0 <= c < |net.parent| && net.parent[c] == stage
  }

  /** Nothing is left to send on the channels that the stage feeds. */
  predicate NothingHeld<T>(s: State<T>, stage: int)
  {
    forall c :: 0 <= c < |s.chans| && IsChild(s.net, c, stage) ==> s.chans[c].held == []
  }

  predicate HeldWithin<T>(s: State<T>, stage: int)
  {
    forall c :: 0 <= c < |s.chans| && IsChild(s.net, c, stage) ==> |s.chans[c].held| <= s.net.slack
  }

  predicate AllClosed<T>(s: State<T>, stage: int)
  {
    forall c :: 0 <= c < |s.chans| && IsChild(s.net, c, stage) ==> s.chans[c].closed
  }

  predicate Fits<T>(s: State<T>)
  {
    |s.chans| == |s.phases| == |s.net.parent|
  }

  /** A stage may hold a bounded number of results back while it goes on receiving. */
  predicate Enabled<T>(s: State<T>, step: Step<T>)
    requires Fits(s)
  {
    match step
    case Push(_) => |s.chans| > 0 && !s.chans[0].closed && |s.chans[0].queue| < s.net.capacity
    case CloseRoot => |s.chans| > 0 && !s.chans[0].closed
    case Recv(i, _) => i < |s.chans| && s.phases[i].Running? && s.chans[i].queue != [] && HeldWithin(s, i)
    case Emit(c, j) => 0 < c < |s.chans| && j < |s.chans[c].held| && |s.chans[c].queue| < s.net.capacity
                       && 0 <= s.net.parent[c] < |s.phases| && (s.phases[s.net.parent[c]].Running? || s.phases[s.net.parent[c]].Returned?)
    case Return(i) => i < |s.chans| && s.phases[i].Running? && s.chans[i].queue == [] && s.chans[i].closed && HeldWithin(s, i)
    case StopWorkers(i) => i < |s.chans| && s.phases[i].Returned? && NothingHeld(s, i)
    case Close(c) => 0 < c < |s.chans| && 0 <= s.net.parent[c] < |s.phases| && s.phases[s.net.parent[c]].Closing? && !s.chans[c].closed
    case Finish(i) => i < |s.chans| && s.phases[i].Closing? && AllClosed(s, i)
  }

  function Received<T>(c: Chan<T>): Chan<T>
    requires c.queue != []
  {
    c.(queue := c.queue[1..], consumed := c.consumed + [c.queue[0]])
  }

  function Enriched<T>(c: Chan<T>, results: seq<T>): Chan<T>
  {
    c.(held := c.held + results, made := c.made + results)
  }

  function Without<T>(s: seq<T>, j: nat): seq<T>
    requires j < |s|
  {
    s[..j] + s[j + 1..]
  }

  function Emitted<T>(c: Chan<T>, j: nat): Chan<T>
    requires j < |c.held|
  {
    c.(held := Without(c.held, j), queue := c.queue + [c.held[j]], produced := c.produced + [c.held[j]])
  }

  function Pushed<T>(c: Chan<T>, item: T): Chan<T>
  {
    c.(queue := c.queue + [item], made := c.made + [item], produced := c.produced + [item])
  }

  function Do<T>(s: State<T>, step: Step<T>): (t: State<T>)
    requires Fits(s) && Enabled(s, step)
    ensures Fits(t) && t.net == s.net
  {
    match step
    case Push(item) => s.(chans := s.chans[0 := Pushed(s.chans[0], item)])
    case CloseRoot => s.(chans := s.chans[0 := s.chans[0].(closed := true)])
    case Recv(i, results) =>
      s.(chans := seq(|s.chans|, c requires 0 <= c < |s.chans| =>
        if c == i then Received(s.chans[c])
        else if IsChild(s.net, c, i) then Enriched(s.chans[c], results)
        else s.chans[c]))
    case Emit(c, j) => s.(chans := s.chans[c := Emitted(s.chans[c], j)], panicked := s.panicked || s.chans[c].closed)
    case Return(i) => s.(phases := s.phases[i := Returned], wg := s.wg - 1)
    case StopWorkers(i) => s.(phases := s.phases[i := Closing])
    case Close(c) => s.(chans := s.chans[c := s.chans[c].(closed := true)], panicked := s.panicked || s.chans[c].closed)
    case Finish(i) => s.(phases := s.phases[i := Done])
  }

  /** After `Load`: every stage runs, and the wait group counts them. */
  function Init<T>(net: Net): State<T>
  {
    State(net, seq(|net.parent|, _ => Chan([], false, [], [], [], [])), seq(|net.parent|, _ => Running), |net.parent|, false)
  }

  ghost predicate IsRun<T(!new)>(states: seq<State<T>>, steps: seq<Step<T>>)
  {
    |states| == |steps| + 1
    && forall i :: 0 <= i < |steps| ==>
         Fits(states[i]) && Enabled(states[i], steps[i]) && states[i + 1] == Do(states[i], steps[i])
  }

  // ------------------------------------------------------------------
  // The invariant.

  /** Nothing is lost between a stage's results and what the next stage receives. */
  ghost predicate Accounted<T>(c: Chan<T>)
  {
    c.produced == c.consumed + c.queue
    && multiset(c.made) == multiset(c.produced) + multiset(c.held)
  }

  predicate IsSending(ph: Phase)
  {
    ph.Running? || ph.Returned?
  }

  ghost predicate ChanOk<T>(s: State<T>, c: nat)
    requires Fits(s) && s.net.IsTree() && c < |s.chans|
  {
    Accounted(s.chans[c])
    && (c == 0 ==> s.chans[c].held == [])
    && (c > 0 && s.chans[c].closed ==> !IsSending(s.phases[s.net.parent[c]]))
    && (c > 0 && !IsSending(s.phases[s.net.parent[c]]) ==> s.chans[c].held == [])
    && (c > 0 && s.phases[s.net.parent[c]].Done? ==> s.chans[c].closed)
  }

  predicate StageOk<T>(s: State<T>, i: nat)
    requires Fits(s) && i < |s.phases|
  {
    !s.phases[i].Running? ==> s.chans[i].closed && s.chans[i].queue == []
  }

  function CountRunning(phases: seq<Phase>): nat
  {
    if phases == [] then 0
    else CountRunning(phases[..|phases| - 1]) + if phases[|phases| - 1].Running? then 1 else 0
  }

  ghost predicate Inv<T>(s: State<T>)
  {
    Fits(s) && s.net.IsTree() && !s.panicked
    && s.wg == CountRunning(s.phases)
    && (forall c :: 0 <= c < |s.chans| ==> ChanOk(s, c) && StageOk(s, c))
  }

  lemma {:induction false} CountAfter(phases: seq<Phase>, i: nat, ph: Phase)
    requires i < |phases|
    ensures CountRunning(phases[i := ph]) + (if phases[i].Running? then 1 else 0)
            == CountRunning(phases) + if ph.Running? then 1 else 0
  {
    var n := |phases| - 1;
    if i == n {
      assert phases[i := ph][..n] == phases[..n];
    } else {
      CountAfter(phases[..n], i, ph);
      assert phases[i := ph][..n] == phases[..n][i := ph];
    }
  }

  lemma {:induction false} AllCounted(phases: seq<Phase>)
    requires forall i :: 0 <= i < |phases| ==> phases[i].Running?
    ensures CountRunning(phases) == |phases|
  {
    if phases != [] {
      AllCounted(phases[..|phases| - 1]);
    }
  }

  lemma {:induction false} NoneRunning(phases: seq<Phase>, i: nat)
    requires CountRunning(phases) == 0 && i < |phases|
    ensures !phases[i].Running?
  {
    if i < |phases| - 1 {
      NoneRunning(phases[..|phases| - 1], i);
    }
  }

  lemma EmitAccounted<T>(c: Chan<T>, j: nat)
    requires Accounted(c) && j < |c.held|
    ensures Accounted(Emitted(c, j))
  {
    var x := c.held[j];
    assert c.held == c.held[..j] + [x] + c.held[j + 1..];
    assert multiset(c.held) == multiset(Without(c.held, j)) + multiset{x};
    assert c.produced + [x] == c.consumed + (c.queue + [x]);
  }

  lemma EnrichAccounted<T>(c: Chan<T>, results: seq<T>)
    requires Accounted(c)
    ensures Accounted(Enriched(c, results))
  {
  }

  lemma ReceiveAccounted<T>(c: Chan<T>)
    requires Accounted(c) && c.queue != []
    ensures Accounted(Received(c))
  {
    assert c.queue == [c.queue[0]] + c.queue[1..];
  }

  lemma PushAccounted<T>(c: Chan<T>, item: T)
    requires Accounted(c)
    ensures Accounted(Pushed(c, item))
  {
    assert c.produced + [item] == c.consumed + (c.queue + [item]);
  }

  lemma InitOk<T>(net: Net)
    requires net.IsTree()
    ensures Inv(Init<T>(net))
  {
    AllCounted(Init<T>(net).phases);
  }

  lemma RecvOk<T>(s: State<T>, i: nat, results: seq<T>)
    requires Inv(s) && Enabled(s, Recv(i, results))
    ensures Inv(Do(s, Recv(i, results)))
  {
    var t := Do(s, Recv(i, results));
    forall c | 0 <= c < |t.chans| ensures ChanOk(t, c) && StageOk(t, c) {
      assert ChanOk(s, c) && StageOk(s, c);
      if c == i {
        ReceiveAccounted(s.chans[c]);
      } else if IsChild(s.net, c, i) {
        EnrichAccounted(s.chans[c], results);
      }
    }
  }

  lemma SendOk<T>(s: State<T>, step: Step<T>)
    requires Inv(s) && Enabled(s, step) && (step.Push? || step.Emit?)
    ensures Inv(Do(s, step))
  {
    var t := Do(s, step);
    var k := if step.Push? then 0 else step.chan;
    assert ChanOk(s, k) && StageOk(s, k);
    if step.Push? {
      PushAccounted(s.chans[0], step.item);
    } else {
      EmitAccounted(s.chans[k], step.which);
    }
    forall c | 0 <= c < |t.chans| ensures ChanOk(t, c) && StageOk(t, c) {
      assert ChanOk(s, c) && StageOk(s, c);
    }
  }

  lemma CloseOk<T>(s: State<T>, step: Step<T>)
    requires Inv(s) && Enabled(s, step) && (step.CloseRoot? || step.Close?)
    ensures Inv(Do(s, step))
  {
    var t := Do(s, step);
    forall c | 0 <= c < |t.chans| ensures ChanOk(t, c) && StageOk(t, c) {
      assert ChanOk(s, c) && StageOk(s, c);
    }
  }

  lemma PhaseStepOk<T>(s: State<T>, step: Step<T>)
    requires Inv(s) && Enabled(s, step) && (step.Return? || step.StopWorkers? || step.Finish?)
    ensures Inv(Do(s, step))
  {
    var t := Do(s, step);
    CountAfter(s.phases, step.stage, t.phases[step.stage]);
    forall c | 0 <= c < |t.chans| ensures ChanOk(t, c) && StageOk(t, c) {
      assert ChanOk(s, c) && StageOk(s, c);
      assert s.net.parent[c] == step.stage ==> IsChild(s.net, c, step.stage);
    }
  }

  lemma {:induction false} RunOk<T(!new)>(states: seq<State<T>>, steps: seq<Step<T>>, i: nat)
    requires IsRun(states, steps) && Fits(states[0]) && states[0].net.IsTree() && states[0] == Init(states[0].net) && i < |states|
    ensures Inv(states[i])
  {
    if i == 0 {
      InitOk<T>(states[0].net);
    } else {
      RunOk(states, steps, i - 1);
      var s, step := states[i - 1], steps[i - 1];
      match step
      case Recv(k, results) => RecvOk(s, k, results);
      case Push(_) => SendOk(s, step);
      case Emit(_, _) => SendOk(s, step);
      case CloseRoot => CloseOk(s, step);
      case Close(_) => CloseOk(s, step);
      case _ => PhaseStepOk(s, step);
    }
  }

  // ------------------------------------------------------------------
  // What the steps of a run say was made of the records.

  /** What the driver pushed. */
  function PushedBy<T>(steps: seq<Step<T>>): seq<T>
  {
    if steps == [] then []
    else
      var step := steps[|steps| - 1];
      PushedBy(steps[..|steps| - 1]) + if step.Push? then [step.item] else []
  }

  /** What stage `i` made of the records that it received. */
  function ResultsOf<T>(steps: seq<Step<T>>, i: int): seq<T>
  {
    if steps == [] then []
    else
      var step := steps[|steps| - 1];
      ResultsOf(steps[..|steps| - 1], i) + if step.Recv? && step.stage == i then step.results else []
  }

  /** How many records stage `i` received. */
  function Receipts<T>(steps: seq<Step<T>>, i: int): nat
  {
    if steps == [] then 0
    else
      var step := steps[|steps| - 1];
      Receipts(steps[..|steps| - 1], i) + if step.Recv? && step.stage == i then 1 else 0
  }

  /** What channel `c` is to carry by the steps of the run. */
  function DueOn<T>(net: Net, steps: seq<Step<T>>, c: nat): seq<T>
    requires c < |net.parent|
  {
    if c == 0 then PushedBy(steps) else ResultsOf(steps, net.parent[c])
  }

  /** The histories kept in the channels are those of the steps. */
  ghost predicate ToldBySteps<T>(s: State<T>, steps: seq<Step<T>>)
    requires Fits(s)
  {
    forall c :: 0 <= c < |s.chans| ==>
      s.chans[c].made == DueOn(s.net, steps, c) && |s.chans[c].consumed| == Receipts(steps, c)
      && (c == 0 ==> s.chans[c].produced == PushedBy(steps))
  }

  lemma ToldNext<T>(s: State<T>, steps: seq<Step<T>>, step: Step<T>)
    requires Fits(s) && s.net.IsTree() && Enabled(s, step) && ToldBySteps(s, steps)
    ensures ToldBySteps(Do(s, step), steps + [step])
  {
    assert (steps + [step])[..|steps|] == steps;
    var t := Do(s, step);
    forall c | 0 <= c < |t.chans|
      ensures t.chans[c].made == DueOn(s.net, steps + [step], c)
              && |t.chans[c].consumed| == Receipts(steps + [step], c)
              && (c == 0 ==> t.chans[c].produced == PushedBy(steps + [step]))
    {
      assert s.chans[c].made == DueOn(s.net, steps, c);
    }
  }

  lemma {:induction false} RunIsTold<T(!new)>(states: seq<State<T>>, steps: seq<Step<T>>, i: nat)
    requires IsRun(states, steps) && Fits(states[0]) && states[0].net.IsTree() && states[0] == Init(states[0].net) && i < |states|
    ensures Fits(states[i]) && ToldBySteps(states[i], steps[..i])
  {
    if i > 0 {
      RunIsTold(states, steps, i - 1);
      SameNet(states, steps, i - 1);
      ToldNext(states[i - 1], steps[..i - 1], steps[i - 1]);
      assert steps[..i] == steps[..i - 1] + [steps[i - 1]];
    }
  }

  /**
   When the wait group reaches zero, every channel is closed and drained. By the steps
   of the run, each stage has received exactly what its parent made of the records that
   it received, as often as it made it; the first stage has received what was pushed,
   in that order.
   */
  lemma ShutdownCascade<T(!new)>(states: seq<State<T>>, steps: seq<Step<T>>, i: nat, c: nat)
    requires IsRun(states, steps) && Fits(states[0]) && states[0].net.IsTree() && states[0] == Init(states[0].net) && i < |states|
    requires states[i].wg == 0 && c < |states[0].net.parent|
    ensures Inv(states[i]) && !states[i].panicked && states[i].net == states[0].net
    ensures c < |states[i].chans|
    ensures var chan := states[i].chans[c];
            chan.closed && chan.queue == [] && chan.held == [] && |chan.consumed| == Receipts(steps[..i], c)
    ensures c > 0 ==> multiset(states[i].chans[c].consumed) == multiset(ResultsOf(steps[..i], states[0].net.parent[c]))
    ensures c == 0 ==> states[i].chans[c].consumed == PushedBy(steps[..i])
  {
    RunOk(states, steps, i);
    RunIsTold(states, steps, i);
    SameNet(states, steps, i);
    var s := states[i];
    assert ChanOk(s, c) && StageOk(s, c);
    NoneRunning(s.phases, c);
  }

  /** In no run is anything sent on a closed channel, and a closed channel stays closed. */
  lemma NeverSentWhenClosed<T(!new)>(states: seq<State<T>>, steps: seq<Step<T>>, i: nat, c: nat)
    requires IsRun(states, steps) && Fits(states[0]) && states[0].net.IsTree() && states[0] == Init(states[0].net)
    requires i < |steps| && c < |states[0].net.parent|
    ensures |states[i].chans| == |states[i + 1].chans| == |states[0].net.parent|
    ensures states[i].chans[c].closed ==>
              states[i + 1].chans[c].closed && states[i + 1].chans[c].produced == states[i].chans[c].produced
    ensures steps[i].Emit? && steps[i].chan == c ==> !states[i].chans[c].closed
  {
    RunOk(states, steps, i);
    SameNet(states, steps, i);
    assert ChanOk(states[i], c) && StageOk(states[i], c);
  }

  lemma {:induction false} SameNet<T(!new)>(states: seq<State<T>>, steps: seq<Step<T>>, i: nat)
    requires IsRun(states, steps) && i < |states|
    ensures states[i].net == states[0].net
  {
    if i > 0 {
      SameNet(states, steps, i - 1);
    }
  }

  // ------------------------------------------------------------------
  // The wait group does not wait for `Cleanup`.

  predicate FeedsAny(net: Net, stage: int)
  {
    exists c :: 0 <= c < |net.parent| && IsChild(net, c, stage)
  }

  /** When the wait group reaches zero, only stages that feed no channel can have all of `Cleanup` before them. */
  lemma OnlyLastStagesPend<T>(s: State<T>, i: nat)
    requires Inv(s) && s.wg == 0 && i < |s.phases| && FeedsAny(s.net, i)
    ensures s.phases[i].Closing? || s.phases[i].Done?
  {
    var c :| 0 <= c < |s.net.parent| && IsChild(s.net, c, i);
    NoneRunning(s.phases, c);
    assert ChanOk(s, c) && StageOk(s, c);
  }

  ghost predicate Reaches<T(!new)>(s: State<T>, t: State<T>)
  {
    exists states, steps :: IsRun<T>(states, steps) && states[0] == s && states[|steps|] == t
  }

  lemma ReachesSelf<T(!new)>(s: State<T>)
    ensures Reaches(s, s)
  {
    var states, steps: seq<Step<T>> := [s], [];
    assert IsRun(states, steps) && states[|steps|] == s;
  }

  lemma ReachesNext<T(!new)>(s: State<T>, t: State<T>, step: Step<T>)
    requires Reaches(s, t) && Fits(t) && Enabled(t, step)
    ensures Reaches(s, Do(t, step))
  {
    var states, steps :| IsRun<T>(states, steps) && states[0] == s && states[|steps|] == t;
    var states', steps' := states + [Do(t, step)], steps + [step];
    forall i | 0 <= i < |steps'|
      ensures Fits(states'[i]) && Enabled(states'[i], steps'[i]) && states'[i + 1] == Do(states'[i], steps'[i])
    {
      if i < |steps| {
        assert states'[i] == states[i] && states'[i + 1] == states[i + 1] && steps'[i] == steps[i];
      }
    }
    assert IsRun(states', steps') && states'[0] == s && states'[|steps'|] == Do(t, step);
  }

  /**
   The cascade without any record has passed the stages before `i`, and has closed those
   of the channels of stage `i` that come before `c`.
   */
  ghost predicate PassedTo<T>(s: State<T>, net: Net, i: nat, c: nat)
  {
    s.net == net && Fits(s)
    && (forall d :: 0 <= d < |s.chans| ==>
          s.chans[d].queue == [] && s.chans[d].held == []
          && s.chans[d].closed == (d == 0 || net.parent[d] < i || (net.parent[d] == i && d < c)))
  }

  /** The stages before `i` have returned, and all but `last` are in the closing part of `Cleanup`. */
  ghost predicate PhasesPassed<T>(s: State<T>, last: nat, i: nat)
  {
    forall j :: 0 <= j < |s.phases| ==> s.phases[j] == if j >= i then Running else if j == last then Returned else Closing
  }

  /** Closing the channels that stage `i` feeds, one after the other. */
  lemma {:induction false} CloseAll<T(!new)>(s0: State<T>, s: State<T>, net: Net, i: nat, c: nat) returns (t: State<T>)
    requires net.IsTree() && Reaches(s0, s) && PassedTo(s, net, i, c) && c <= |net.parent|
    requires i < |net.parent| && (FeedsAny(net, i) ==> s.phases[i].Closing?)
    ensures Reaches(s0, t) && PassedTo(t, net, i, |net.parent|) && t.phases == s.phases && t.wg == s.wg
    decreases |net.parent| - c
  {
    if c == |net.parent| {
      t := s;
    } else if IsChild(net, c, i) && c > 0 {
      assert FeedsAny(net, i);
      ReachesNext(s0, s, Close(c));
      t := CloseAll(s0, Do(s, Close(c)), net, i, c + 1);
    } else {
      t := CloseAll(s0, s, net, i, c + 1);
    }
  }

  lemma NextStage<T>(s: State<T>, net: Net, i: nat)
    requires net.IsTree() && i < |net.parent| && PassedTo(s, net, i, |net.parent|)
    ensures PassedTo(s, net, i + 1, 0)
  {
  }

  /** One stage after the other returns and, unless it is `last`, closes what it feeds. */
  lemma {:induction false} PassStages<T(!new)>(s0: State<T>, s: State<T>, net: Net, last: nat, i: nat) returns (t: State<T>)
    requires net.IsTree() && Reaches(s0, s) && i <= |net.parent| && last < |net.parent| && !FeedsAny(net, last)
    requires PassedTo(s, net, i, 0) && PhasesPassed(s, last, i) && s.wg == |net.parent| - i
    ensures Reaches(s0, t) && Fits(t) && t.net == net && t.wg == 0
    ensures PhasesPassed(t, last, |net.parent|)
    decreases |net.parent| - i
  {
    if i == |net.parent| {
      t := s;
    } else {
      assert Enabled(s, Return(i));
      ReachesNext(s0, s, Return(i));
      var r := Do(s, Return(i));
      if i != last {
        assert Enabled(r, StopWorkers(i));
        ReachesNext(s0, r, StopWorkers(i));
        r := Do(r, StopWorkers(i));
      }
      r := CloseAll(s0, r, net, i, 0);
      NextStage(r, net, i);
      t := PassStages(s0, r, net, last, i + 1);
    }
  }

  /**
   In any tree, for any stage that feeds no channel, some run ends with the wait group at
   zero and that stage still before its `Cleanup`: nothing waits for the last stages.
   */
  lemma CleanupMayBePending<T(!new)>(net: Net, last: nat)
    requires net.IsTree() && last < |net.parent| && !FeedsAny(net, last)
    ensures exists t: State<T> :: Reaches(Init<T>(net), t) && t.wg == 0 && |t.phases| == |net.parent| && t.phases[last] == Returned
  {
    var s0 := Init<T>(net);
    ReachesSelf(s0);
    ReachesNext(s0, s0, CloseRoot);
    var t := PassStages(s0, Do(s0, CloseRoot), net, last, 0);
    assert Reaches(s0, t) && t.wg == 0 && t.phases[last] == Returned;
  }

  // ------------------------------------------------------------------
  // Progress.

  ghost predicate CanMove<T(!new)>(s: State<T>)
    requires Fits(s)
  {
    exists step: Step<T> :: !step.Push? && Enabled(s, step)
  }

  /** What is queued moves on: somewhere below, a stage can receive or send. */
  lemma {:induction false} QueueMoves<T(!new)>(s: State<T>, c: nat)
    requires Inv(s) && c < |s.chans| && s.chans[c].queue != []
    ensures CanMove(s)
    decreases |s.chans| - c, 0
  {
    assert StageOk(s, c);
    if NothingHeld(s, c) {
      assert Enabled(s, Recv(c, []));
    } else {
      var d :| 0 <= d < |s.chans| && IsChild(s.net, d, c) && s.chans[d].held != [];
      HeldMoves(s, d);
    }
  }

  lemma HeldMoves<T(!new)>(s: State<T>, d: nat)
    requires Inv(s) && d < |s.chans| && s.chans[d].held != []
    ensures CanMove(s)
    decreases |s.chans| - d, 1
  {
    assert ChanOk(s, d);
    if |s.chans[d].queue| < s.net.capacity {
      assert Enabled(s, Emit(d, 0));
    } else {
      QueueMoves(s, d);
    }
  }

  /** A stage whose input is closed can move, or something below it can. */
  lemma StageMoves<T(!new)>(s: State<T>, i: nat)
    requires Inv(s) && i < |s.chans| && s.chans[i].closed && !s.phases[i].Done?
    ensures CanMove(s)
  {
    if !NothingHeld(s, i) {
      var d :| 0 <= d < |s.chans| && IsChild(s.net, d, i) && s.chans[d].held != [];
      HeldMoves(s, d);
    } else if s.phases[i].Running? {
      if s.chans[i].queue != [] {
        QueueMoves(s, i);
      } else {
        assert Enabled(s, Return(i));
      }
    } else if s.phases[i].Returned? {
      assert Enabled(s, StopWorkers(i));
    } else if AllClosed(s, i) {
      assert Enabled(s, Finish(i));
    } else {
      var d :| 0 <= d < |s.chans| && IsChild(s.net, d, i) && !s.chans[d].closed;
      assert Enabled(s, Close(d));
    }
  }

  /** Once the root is closed, the cascade never stops before every stage is done. */
  lemma {:induction false} NeverStuck<T(!new)>(s: State<T>, i: nat)
    requires Inv(s) && s.chans[0].closed && i < |s.chans| && !s.phases[i].Done?
    ensures CanMove(s)
    decreases i
  {
    assert ChanOk(s, i);
    if s.chans[i].closed {
      StageMoves(s, i);
    } else {
      NeverStuck(s, s.net.parent[i]);
    }
  }
}
