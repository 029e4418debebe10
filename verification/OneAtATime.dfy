/**
 `OneAtATime` (`kernel/src/dpc.rs`): a body run on one CPU at a time, by any number of callers that
 never wait for each other. Each atomic access is a step.

 `asks` counts the calls made so far and `served` how many of them had been made when a body last
 started; both only record.
 */
module OneAtATime {

  datatype Pc =
    | Outside
    | Asked       // `again` stored: about to swap `running`
    | Looking     // has `running`: about to swap `again`
    | Body        // in the body
    | LettingGo   // about to clear `running`
    | Rechecking  // about to load `again` once more

  datatype State = State(running: bool, again: bool, callers: seq<Pc>, asks: nat, served: nat)

  datatype Step = Ask | SwapRunning | SwapAgain | EndBody | Release | Recheck

  ghost predicate Init(s: State) {
    !s.running && !s.again && (forall i :: 0 <= i < |s.callers| ==> s.callers[i].Outside?) && s.asks == s.served == 0
  }

  function To(s: State, c: nat, pc: Pc): State
    requires c < |s.callers|
  {
    s.(callers := s.callers[c := pc])
  }

  ghost predicate Next(s: State, s': State, c: nat, step: Step) {
    && c < |s.callers|
    && var pc := s.callers[c];
       match step
       case Ask =>
         pc.Outside? && s' == To(s, c, Asked).(again := true, asks := s.asks + 1)
       case SwapRunning =>
         pc.Asked? && s' == To(s, c, if s.running then Outside else Looking).(running := true)
       case SwapAgain =>
         && pc.Looking?
         && s' == if s.again then To(s, c, Body).(again := false, served := s.asks) else To(s, c, LettingGo)
       case EndBody =>
         pc.Body? && s' == To(s, c, Looking)
       case Release =>
         pc.LettingGo? && s' == To(s, c, Rechecking).(running := false)
       case Recheck =>
         pc.Rechecking? && s' == To(s, c, if s.again then Asked else Outside)
  }

  ghost predicate IsRun(run: seq<State>, callers: seq<nat>, steps: seq<Step>) {
    && |run| == |steps| + 1 == |callers| + 1
    && Init(run[0])
    && forall i {:trigger steps[i]} :: 0 <= i < |steps| ==> Next(run[i], run[i + 1], callers[i], steps[i])
  }

  // ---------- The invariant ----------

  predicate Inside(pc: Pc) {
    pc.Looking? || pc.Body? || pc.LettingGo?
  }

  /** A call that is bound to look at `again`, or to find another inside that is. */
  predicate Bound(pc: Pc) {
    !pc.Outside?
  }

  ghost predicate Inv(s: State) {
    && (forall i :: 0 <= i < |s.callers| && Inside(s.callers[i]) ==> s.running)
    && (s.running ==> exists i :: 0 <= i < |s.callers| && Inside(s.callers[i]))
    && (forall i, j :: 0 <= i < j < |s.callers| ==> !(Inside(s.callers[i]) && Inside(s.callers[j])))
    && s.served <= s.asks
    && (s.served < s.asks ==> s.again)
    && (s.again ==> exists i :: 0 <= i < |s.callers| && Bound(s.callers[i]))
  }

  lemma NextKeepsInv(s: State, s': State, c: nat, step: Step)
    requires Inv(s) && Next(s, s', c, step)
    ensures Inv(s')
  {
    if s'.running {
      KeepsInsider(s, s', c, step);
    }
    if s'.again {
      KeepsBound(s, s', c, step);
    }
  }

  lemma KeepsInsider(s: State, s': State, c: nat, step: Step)
    requires Inv(s) && Next(s, s', c, step) && s'.running
    ensures exists i :: 0 <= i < |s'.callers| && Inside(s'.callers[i])
  {
    if !Inside(s'.callers[c]) {
      var i :| 0 <= i < |s.callers| && Inside(s.callers[i]);
      assert Inside(s'.callers[i]);
    }
  }

  lemma KeepsBound(s: State, s': State, c: nat, step: Step)
    requires Inv(s) && Next(s, s', c, step) && s'.again
    ensures exists i :: 0 <= i < |s'.callers| && Bound(s'.callers[i])
  {
    if step.SwapRunning? && s.running {
      var i :| 0 <= i < |s.callers| && Inside(s.callers[i]);
      assert Bound(s'.callers[i]);
    } else {
      assert Bound(s'.callers[c]);
    }
  }

  lemma {:induction false} RunKeepsInv(run: seq<State>, callers: seq<nat>, steps: seq<Step>, i: nat)
    requires IsRun(run, callers, steps) && i < |run|
    ensures Inv(run[i])
  {
    if i > 0 {
      RunKeepsInv(run, callers, steps, i - 1);
      assert Next(run[i - 1], run[i - 1 + 1], callers[i - 1], steps[i - 1]);
      NextKeepsInv(run[i - 1], run[i], callers[i - 1], steps[i - 1]);
    }
  }

  // ---------- What it promises ----------

  /** At most one body runs at a time. */
  lemma OneBodyAtATime(run: seq<State>, callers: seq<nat>, steps: seq<Step>, i: nat, c: nat, d: nat)
    requires IsRun(run, callers, steps) && i < |run| && c < |run[i].callers| && d < |run[i].callers|
    requires run[i].callers[c].Body? && run[i].callers[d].Body?
    ensures c == d
  {
    RunKeepsInv(run, callers, steps, i);
  }

  /**
   A call no body has started for yet has some caller still bound to act on it; so when all have returned, every
   call was served.
   */
  lemma NoAskIsLost(run: seq<State>, callers: seq<nat>, steps: seq<Step>, i: nat)
    requires IsRun(run, callers, steps) && i < |run|
    ensures run[i].served < run[i].asks ==>
              run[i].again && exists c :: 0 <= c < |run[i].callers| && Bound(run[i].callers[c])
    ensures (forall c :: 0 <= c < |run[i].callers| ==> run[i].callers[c].Outside?) ==> run[i].served == run[i].asks
  {
    RunKeepsInv(run, callers, steps, i);
  }

  /** How many steps a caller can still take before a body starts or it returns, nobody asking anew. */
  function Rank(pc: Pc): nat {
    match pc
    case Outside => 0
    case Asked => 2
    case Looking => 1
    case Body => 2
    case LettingGo => 4
    case Rechecking => 3
  }

  function Work(callers: seq<Pc>): nat {
    if callers == [] then 0 else Rank(callers[0]) + Work(callers[1..])
  }

  lemma {:induction false} WorkUpdate(callers: seq<Pc>, c: nat, pc: Pc)
    requires c < |callers|
    ensures Work(callers[c := pc]) == Work(callers) - Rank(callers[c]) + Rank(pc)
  {
    if c == 0 {
      assert callers[c := pc][1..] == callers[1..];
    } else {
      assert callers[c := pc][1..] == callers[1..][c - 1 := pc];
      WorkUpdate(callers[1..], c - 1, pc);
    }
  }

  lemma {:induction false} WorkBounds(callers: seq<Pc>)
    ensures Work(callers) <= 4 * |callers|
  {
    if callers != [] {
      WorkBounds(callers[1..]);
    }
  }

  /**
   With a call waiting, every step but a new call either starts a body or brings the next start
   nearer, and a bound caller can always take one.
   */
  lemma StepsTowardsABody(s: State, s': State, c: nat, step: Step)
    requires Inv(s) && s.served < s.asks && Next(s, s', c, step)
    ensures step.Ask? ==> Work(s'.callers) == Work(s.callers) + 2
    ensures !step.Ask? ==> s'.served == s'.asks || Work(s'.callers) < Work(s.callers)
  {
    WorkUpdate(s.callers, c, s'.callers[c]);
  }

  lemma BoundCallerCanStep(s: State, c: nat)
    requires c < |s.callers| && Bound(s.callers[c])
    ensures exists s', step: Step :: !step.Ask? && Next(s, s', c, step)
  {
    match s.callers[c]
    case Asked =>
      assert Next(s, To(s, c, if s.running then Outside else Looking).(running := true), c, SwapRunning);
    case Looking =>
      var s' := if s.again then To(s, c, Body).(again := false, served := s.asks) else To(s, c, LettingGo);
      assert Next(s, s', c, SwapAgain);
    case Body =>
      assert Next(s, To(s, c, Looking), c, EndBody);
    case LettingGo =>
      assert Next(s, To(s, c, Rechecking).(running := false), c, Release);
    case Rechecking =>
      assert Next(s, To(s, c, if s.again then Asked else Outside), c, Recheck);
  }

  /** The calls made in a stretch of a run. */
  function Asks(steps: seq<Step>, i: nat, j: nat): nat
    requires i <= j <= |steps|
    decreases j - i
  {
    if i == j then 0 else Asks(steps, i, j - 1) + if steps[j - 1].Ask? then 1 else 0
  }

  /**
   A waiting call is served soon: a stretch of a run in which one waits throughout and no body starts
   has at most four steps for each caller, and three for each new call made in it.
   */
  lemma {:induction false} WaitIsBounded(run: seq<State>, callers: seq<nat>, steps: seq<Step>, i: nat, j: nat)
    requires IsRun(run, callers, steps) && i <= j < |run|
    requires forall k :: i <= k <= j ==> run[k].served < run[k].asks
    ensures Work(run[j].callers) + (j - i) <= Work(run[i].callers) + 3 * Asks(steps, i, j)
    ensures j - i <= 4 * |run[i].callers| + 3 * Asks(steps, i, j)
    decreases j - i
  {
    WorkBounds(run[i].callers);
    if i < j {
      WaitIsBounded(run, callers, steps, i, j - 1);
      RunKeepsInv(run, callers, steps, j - 1);
      assert Next(run[j - 1], run[j - 1 + 1], callers[j - 1], steps[j - 1]);
      StepsTowardsABody(run[j - 1], run[j], callers[j - 1], steps[j - 1]);
    }
  }
}
