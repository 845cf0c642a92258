/**
 dram/training.c and dram/ddrinit.c: how the two DRAM initialisation threads and the interrupt
 handler take turns through one shared value.

 0 holds both threads, 1 lets the primary go on, 2 lets both train, 3 ends the secondary.
 A transition system: every load and store of the value is a step of its own. A thread that
 sleeps until the value changes is one that looks again whenever it likes. The number of
 frequency rounds is a parameter; the source has two.
 */
module DramSync {
  /** The interrupt handler: not active, or having just marked a channel ready, or about to notify. */
  datatype Irq = Quiet | Marked | Notifying

  /** ddrinit_primary; k rounds are complete. */
  datatype Primary =
    | First
    | Hold(k: nat)
    | Switch(k: nat)
    | Release(k: nat)
    | Train(k: nat)
    | Wait(k: nat)
    | Finish
    | Done
    | SyncError

  /** ddrinit_secondary: in ddrinit_wait with the value it last saw. */
  datatype Secondary = Waiting(val: nat) | Training | Reporting | Exited

  /** trained counts the finished trainings of the two channels, switches the frequency switches. */
  datatype State = State(rounds: nat, sync: nat, ready: (bool, bool), irq: Irq, notified: bool,
                         prim: Primary, sec: Secondary, trained: (nat, nat), switches: nat)

  datatype Action = MarkReady(ch: bool) | CheckReady | IrqNotify | PrimaryStep | SecondaryStep

  predicate Enabled(s: State, act: Action)
  {
    match act
    case MarkReady(ch) => s.irq == Quiet && !(if ch then s.ready.1 else s.ready.0)
    case CheckReady => s.irq == Marked
    case IrqNotify => s.irq == Notifying
    case PrimaryStep => s.prim != Done && s.prim != SyncError
    case SecondaryStep => s.sec != Exited
  }

  /** What follows when k rounds are complete: lines 250-252 of dram/ddrinit.c. */
  function NextRound(s: State, k: nat): Primary
  {
    if k < s.rounds then Hold(k) else Finish
  }

  function StepPrimary(s: State): State
  {
    match s.prim
    case First => if s.sync == 0 then s else if s.sync == 1 then s.(prim := NextRound(s, 0)) else s.(prim := SyncError)
    case Hold(k) => s.(sync := 0, prim := Switch(k))
    case Switch(k) => s.(switches := s.switches + 1, prim := Release(k))
    case Release(k) => s.(sync := 2, prim := Train(k))
    case Train(k) => s.(trained := (s.trained.0 + 1, s.trained.1), prim := Wait(k))
    case Wait(k) => if s.sync == 2 then s else if s.sync == 1 then s.(prim := NextRound(s, k + 1)) else s.(prim := SyncError)
    case Finish => s.(sync := 3, prim := Done)
    case _ => s
  }

  function StepSecondary(s: State): State
  {
    match s.sec
    case Waiting(val) =>
      if s.sync == val then s
      else if s.sync == 3 then s.(sec := Exited)
      else if s.sync != 2 then s.(sec := Waiting(s.sync))
      else s.(sec := Training)
    case Training => s.(trained := (s.trained.0, s.trained.1 + 1), sec := Reporting)
    case Reporting => s.(sync := 1, sec := Waiting(1))
    case Exited => s
  }

  function Apply(s: State, act: Action): State
  {
    match act
    case MarkReady(ch) => s.(ready := if ch then (s.ready.0, true) else (true, s.ready.1), irq := Marked)
    case CheckReady => s.(irq := if s.ready.0 && s.ready.1 then Notifying else Quiet)
    case IrqNotify => s.(sync := 1, irq := Quiet, notified := true)
    case PrimaryStep => StepPrimary(s)
    case SecondaryStep => StepSecondary(s)
  }

  // ---- the invariant -------------------------------------------------------

  /** The handler notifies once, after the second channel has become ready. */
  ghost predicate IrqOk(s: State)
  {
    && (s.notified ==> s.irq == Quiet && s.ready == (true, true))
    && (s.irq == Notifying ==> s.ready == (true, true))
    && (!s.notified && s.irq == Quiet ==> s.ready != (true, true))
    && (!s.notified ==> s.prim == First)
  }

  ghost predicate AtRest(s: State)
  {
    s.sec == Waiting(0) || s.sec == Waiting(1)
  }

  /** Where the secondary can be while the primary trains or waits in round k. */
  ghost predicate InRound(s: State, k: nat)
  {
    || (s.sync == 2 && AtRest(s) && s.trained.1 == k)
    || (s.sync == 2 && s.sec == Training && s.trained.1 == k)
    || (s.sync == 2 && s.sec == Reporting && s.trained.1 == k + 1)
    || (s.sync == 1 && s.sec == Waiting(1) && s.trained.1 == k + 1)
  }

  ghost predicate Phase(s: State)
  {
    match s.prim
    case First => s.sync == (if s.notified then 1 else 0) && AtRest(s) && s.trained == (0, 0) && s.switches == 0
    case Hold(k) => k < s.rounds && s.sync == 1 && AtRest(s) && s.trained == (k, k) && s.switches == k
    case Switch(k) => k < s.rounds && s.sync == 0 && AtRest(s) && s.trained == (k, k) && s.switches == k
    case Release(k) => k < s.rounds && s.sync == 0 && AtRest(s) && s.trained == (k, k) && s.switches == k + 1
    case Train(k) => k < s.rounds && InRound(s, k) && s.trained.0 == k && s.switches == k + 1
    case Wait(k) => k < s.rounds && InRound(s, k) && s.trained.0 == k + 1 && s.switches == k + 1
    case Finish => s.sync == 1 && AtRest(s) && s.trained == (s.rounds, s.rounds) && s.switches == s.rounds
    case Done => s.sync == 3 && (AtRest(s) || s.sec == Exited) && s.trained == (s.rounds, s.rounds) && s.switches == s.rounds
    case SyncError => false
  }

  ghost predicate Inv(s: State)
  {
    IrqOk(s) && Phase(s)
  }

  lemma {:induction false} PrimaryKeeps(s: State)
    requires Inv(s)
    ensures Inv(StepPrimary(s))
  {
  }

  lemma {:induction false} SecondaryKeeps(s: State)
    requires Inv(s)
    ensures Inv(StepSecondary(s))
  {
  }

  lemma {:induction false} StepKeepsInv(s: State, act: Action)
    requires Inv(s) && Enabled(s, act)
    ensures Inv(Apply(s, act))
  {
    match act
    case PrimaryStep => PrimaryKeeps(s);
    case SecondaryStep => SecondaryKeeps(s);
    case MarkReady(_) => assert s.prim == First;
    case CheckReady => assert s.prim == First;
    case IrqNotify => assert s.prim == First;
  }

  // ---- all runs ------------------------------------------------------------

  ghost predicate Initial(s: State)
  {
    s == State(s.rounds, 0, (false, false), Quiet, false, First, Waiting(0), (0, 0), 0)
  }

  ghost predicate Run(s: State, acts: seq<Action>)
    decreases |acts|
  {
    acts == [] || (Enabled(s, acts[0]) && Run(Apply(s, acts[0]), acts[1..]))
  }

  ghost function After(s: State, acts: seq<Action>): State
    decreases |acts|
  {
    if acts == [] then s else After(Apply(s, acts[0]), acts[1..])
  }

  lemma {:induction false} RunKeepsInv(s: State, acts: seq<Action>)
    requires Inv(s) && Run(s, acts)
    ensures Inv(After(s, acts)) && After(s, acts).rounds == s.rounds
    decreases |acts|
  {
    if acts != [] {
      StepKeepsInv(s, acts[0]);
      RunKeepsInv(Apply(s, acts[0]), acts[1..]);
    }
  }

  /** The frequency is being switched. */
  predicate Switching(s: State)
  {
    s.prim.Switch?
  }

  predicate SomeoneTrains(s: State)
  {
    s.prim.Train? || s.sec == Training
  }

  /**
   In every interleaving: no sync error, no switch while a channel is trained, both channels
   trained once in each complete round, and the secondary leaves only after the last one.
   */
  lemma {:induction false} RunIsOrderly(s: State, acts: seq<Action>)
    requires Initial(s) && Run(s, acts)
    ensures var e := After(s, acts);
            && e.prim != SyncError
            && !(Switching(e) && SomeoneTrains(e))
            && (e.prim.Hold? || e.prim.Switch? ==> e.trained == (e.prim.k, e.prim.k))
            && (e.prim == Finish || e.prim == Done ==> e.trained == (s.rounds, s.rounds) && e.switches == s.rounds)
            && (e.sec == Exited ==> e.prim == Done && e.trained == (s.rounds, s.rounds))
            && e.trained.0 <= e.switches && e.trained.1 <= e.switches <= s.rounds
  {
    RunKeepsInv(s, acts);
  }

  /** A sleeper always has something to wait for: a thread that looks in vain is not the one whose turn it is. */
  lemma {:induction false} SomeoneCanMove(s: State)
    requires Inv(s) && !(s.prim == Done && s.sec == Exited)
    ensures exists act :: Enabled(s, act) && Apply(s, act) != s
  {
    if !s.notified {
      if s.irq == Quiet {
        var act := MarkReady(s.ready.0);
        assert Enabled(s, act) && Apply(s, act) != s;
      } else {
        var act := if s.irq == Marked then CheckReady else IrqNotify;
        assert Enabled(s, act) && Apply(s, act) != s;
      }
    } else if s.prim == Done || (s.prim.Wait? && s.sync == 2) {
      assert Enabled(s, SecondaryStep) && Apply(s, SecondaryStep) != s;
    } else {
      assert Enabled(s, PrimaryStep) && Apply(s, PrimaryStep) != s;
    }
  }
}
