/**
 dramstage/main.c: the boot monitor and the threads of the boot media, which take turns in
 loading a payload into one and the same area.

 A transition system of one monitor and any number of media. Sleeping is left out: a thread
 that waits looks again whenever it likes.
 */
module BootCue {
  /** A medium's four bits of boot_state. */
  datatype Bits = Bits(exit: bool, ready: bool, loaded: bool)

  datatype Cue = NoCue | Cue(m: nat) | ExitCue

  /** Using stands for everything between a successful cue and the report that follows it. */
  datatype Thread = Start | Waiting | Using | Loaded | Leaving | Gone

  /** Where boot_monitor is; Commit has decided for m, Committed has told everyone. */
  datatype Monitor = Scan(i: nat) | Cued(i: nat) | Commit(m: nat) | Committed(m: nat) | Died

  /**
   snap is the monitor's own copy of boot_state. cues lists the media that were cued, user is
   the medium that last used the payload area.
   */
  datatype State = State(available: seq<bool>, threads: seq<Thread>, bits: seq<Bits>, cue: Cue, mon: Monitor, snap: seq<Bits>,
                         cues: seq<nat>, user: Cue)

  datatype Action =
      // a medium's thread
    | Fail(m: nat)
    | Ready(m: nat)
    | Look(m: nat)
    | Retry(m: nat)
    | ReportLoaded(m: nat)
    | Exit(m: nat)
      // the monitor
    | Load
    | Skip
    | CueUp
    | Settle(pressed: bool)
    | TellAll

  predicate Is(s: State, m: nat, t: Thread)
  {
    m < |s.threads| && s.threads[m] == t
  }

  predicate Sized(s: State)
  {
    |s.available| == |s.threads| == |s.bits| == |s.snap|
  }

  predicate Enabled(s: State, act: Action)
  {
    Sized(s) &&
    match act
    case Fail(m) => Is(s, m, Start)
    case Ready(m) => Is(s, m, Start)
    case Look(m) => Is(s, m, Waiting)
    case Retry(m) => Is(s, m, Using)
    case ReportLoaded(m) => Is(s, m, Using)
    case Exit(m) => Is(s, m, Using) || Is(s, m, Loaded) || Is(s, m, Leaving)
    case Load => s.mon.Scan? || s.mon.Cued?
    case Skip => s.mon.Scan? && (s.mon.i >= |s.threads| || !s.available[s.mon.i] || s.snap[s.mon.i].exit)
    case CueUp => s.mon.Scan? && s.mon.i < |s.threads| && s.available[s.mon.i] && s.snap[s.mon.i].ready && !s.snap[s.mon.i].exit
    case Settle(_) => s.mon.Cued? && s.mon.i < |s.threads| && (s.snap[s.mon.i].loaded || s.snap[s.mon.i].exit)
    case TellAll => s.mon.Commit?
  }

  function To(s: State, m: nat, t: Thread): State
    requires m < |s.threads|
  {
    s.(threads := s.threads[m := t])
  }

  /** atomic_fetch_or on boot_state */
  function Set(s: State, m: nat, b: Bits): State
    requires m < |s.bits|
  {
    s.(bits := s.bits[m := Bits(s.bits[m].exit || b.exit, s.bits[m].ready || b.ready, s.bits[m].loaded || b.loaded)])
  }

  const EXIT := Bits(true, false, false)
  const READY := Bits(false, true, false)
  const LOADED := Bits(false, false, true)

  /** There is a medium after m that the user can have instead of it. */
  predicate Later(available: seq<bool>, m: nat)
  {
    exists k :: m < k < |available| && available[k]
  }

  function Apply(s: State, act: Action): State
    requires Enabled(s, act)
  {
    match act
    case Fail(m) => Set(To(s, m, Gone), m, EXIT)
    case Ready(m) => Set(To(s, m, Waiting), m, READY)
    case Look(m) =>
      if s.cue == ExitCue then To(s, m, Leaving)
      else if s.cue == Cue(m) then To(s, m, Using).(user := Cue(m))
      else s
    case Retry(m) => Set(To(s, m, Waiting), m, READY)
    case ReportLoaded(m) => Set(To(s, m, Loaded), m, LOADED)
    case Exit(m) => Set(To(s, m, Gone), m, EXIT)
    case Load => s.(snap := s.bits)
    case Skip => if s.mon.i >= |s.threads| then s.(mon := Died) else s.(mon := Scan(s.mon.i + 1))
    case CueUp => s.(cue := Cue(s.mon.i), mon := Cued(s.mon.i), cues := s.cues + [s.mon.i])
    case Settle(pressed) =>
      if s.snap[s.mon.i].loaded && !(pressed && Later(s.available, s.mon.i)) then s.(mon := Commit(s.mon.i))
      else s.(mon := Scan(s.mon.i + 1))
    case TellAll => s.(cue := ExitCue, mon := Committed(s.mon.m))
  }

  // ---- the invariant -------------------------------------------------------

  /** A thread's bits agree with where it is. */
  predicate ThreadOk(t: Thread, b: Bits)
  {
    && (b.exit <==> t == Gone)
    && (t == Start ==> !b.ready && !b.loaded)
    && (t == Waiting || t == Using || t == Leaving ==> b.ready && !b.loaded)
    && (t == Loaded ==> b.ready && b.loaded)
  }

  /** Media from here on have not been cued. */
  function Frontier(mon: Monitor, n: nat): nat
  {
    match mon
    case Scan(i) => i
    case Cued(i) => i + 1
    case Commit(m) => m + 1
    case Committed(m) => m + 1
    case Died => n
  }

  predicate Older(a: Bits, b: Bits)
  {
    (a.exit ==> b.exit) && (a.ready ==> b.ready) && (a.loaded ==> b.loaded)
  }

  ghost predicate MediaOk(s: State)
    requires Sized(s)
  {
    forall m :: 0 <= m < |s.threads| && s.available[m] ==> ThreadOk(s.threads[m], s.bits[m]) && Older(s.snap[m], s.bits[m])
  }

  /**
   What is behind the frontier is done with, except for the medium that is cued; what is beyond
   has never been cued.
   */
  ghost predicate TurnsOk(s: State)
    requires Sized(s)
  {
    && (forall m :: 0 <= m < |s.threads| && s.threads[m] == Using ==> s.mon == Cued(m) && s.cue == Cue(m) && s.user == Cue(m))
    && (forall m :: 0 <= m < |s.threads| && s.available[m] && m < Frontier(s.mon, |s.threads|) && s.mon != Cued(m) ==>
          s.bits[m].exit || s.bits[m].loaded || s.mon.Committed?)
    && (forall m :: Frontier(s.mon, |s.threads|) <= m < |s.threads| && s.available[m] ==> !s.bits[m].loaded)
    && (s.cue.Cue? ==> s.cue.m < Frontier(s.mon, |s.threads|))
    && (s.cue == ExitCue <==> s.mon.Committed?)
  }

  ghost predicate MonitorOk(s: State)
    requires Sized(s)
  {
    match s.mon
    case Scan(i) => i <= |s.threads|
    case Cued(i) => i < |s.threads| && s.available[i] && s.cue == Cue(i) && (s.bits[i].loaded ==> s.user == Cue(i))
    case Commit(m) => m < |s.threads| && s.available[m] && s.cue == Cue(m) && s.bits[m].loaded && s.user == Cue(m)
    case Committed(m) => m < |s.threads| && s.available[m] && s.bits[m].loaded && s.user == Cue(m)
    case Died => true
  }

  /** Unavailable media have no thread and count as having exited from the beginning. */
  ghost predicate AbsentOk(s: State)
    requires Sized(s)
  {
    forall m :: 0 <= m < |s.threads| && !s.available[m] ==> s.threads[m] == Gone
  }

  /** Media were cued in order, each after it had reported ready. */
  ghost predicate CuesOk(s: State)
    requires Sized(s)
  {
    && (forall j, k :: 0 <= j < k < |s.cues| ==> s.cues[j] < s.cues[k])
    && (forall k :: 0 <= k < |s.cues| ==> s.cues[k] < Frontier(s.mon, |s.threads|) && s.cues[k] < |s.threads| && s.bits[s.cues[k]].ready)
  }

  ghost predicate Inv(s: State)
  {
    Sized(s) && MediaOk(s) && TurnsOk(s) && MonitorOk(s) && AbsentOk(s) && CuesOk(s)
  }

  /** A step of a medium's thread that goes from where it may go to a place with the bits b. */
  lemma {:induction false} MediumStep(s: State, s': State, m: nat, t: Thread, b: Bits)
    requires Inv(s) && m < |s.threads| && s.threads[m] != Gone && s' == Set(To(s, m, t), m, b)
    requires t != Using && ThreadOk(t, s'.bits[m])
    requires s'.bits[m].loaded ==> s.bits[m].loaded || s.mon == Cued(m)
    requires s'.bits[m].loaded && !s.bits[m].loaded ==> s.user == Cue(m)
    ensures Inv(s')
  {
    assert s.available[m];
    assert MediaOk(s') && AbsentOk(s');
    assert TurnsOk(s');
    assert MonitorOk(s');
    assert CuesOk(s');
  }

  lemma {:induction false} LookKeeps(s: State, m: nat)
    requires Inv(s) && Enabled(s, Look(m))
    ensures Inv(Apply(s, Look(m)))
  {
    var s' := Apply(s, Look(m));
    assert s.available[m] && ThreadOk(s.threads[m], s.bits[m]);
    if s.cue == Cue(m) {
      assert s.mon == Cued(m);
    }
    assert MediaOk(s') && AbsentOk(s');
    assert TurnsOk(s');
    assert CuesOk(s');
  }

  lemma {:induction false} MonitorKeeps(s: State, act: Action)
    requires Inv(s) && Enabled(s, act) && (act.Load? || act.Skip? || act.TellAll? || act.Settle?)
    ensures Inv(Apply(s, act))
  {
    var s' := Apply(s, act);
    assert MediaOk(s') && AbsentOk(s') && CuesOk(s');
    assert TurnsOk(s');
  }

  lemma {:induction false} CueUpKeeps(s: State)
    requires Inv(s) && Enabled(s, CueUp)
    ensures Inv(Apply(s, CueUp))
  {
    var s' := Apply(s, CueUp);
    assert MediaOk(s') && AbsentOk(s');
    assert TurnsOk(s');
  }

  lemma {:induction false} StepKeepsInv(s: State, act: Action)
    requires Inv(s) && Enabled(s, act)
    ensures Inv(Apply(s, act))
  {
    match act
    case Fail(m) =>
      assert s.available[m] && ThreadOk(s.threads[m], s.bits[m]);
      MediumStep(s, Apply(s, act), m, Gone, EXIT);
    case Ready(m) =>
      assert s.available[m] && ThreadOk(s.threads[m], s.bits[m]);
      MediumStep(s, Apply(s, act), m, Waiting, READY);
    case Look(m) => LookKeeps(s, m);
    case Retry(m) =>
      assert s.available[m] && ThreadOk(s.threads[m], s.bits[m]);
      MediumStep(s, Apply(s, act), m, Waiting, READY);
    case ReportLoaded(m) =>
      assert s.available[m] && ThreadOk(s.threads[m], s.bits[m]);
      MediumStep(s, Apply(s, act), m, Loaded, LOADED);
    case Exit(m) =>
      assert s.available[m] && ThreadOk(s.threads[m], s.bits[m]);
      MediumStep(s, Apply(s, act), m, Gone, EXIT);
    case CueUp => CueUpKeeps(s);
    case _ => MonitorKeeps(s, act);
  }

  // ---- all runs ------------------------------------------------------------

  ghost predicate Initial(s: State)
  {
    && Sized(s) && s.cue == NoCue && s.mon == Scan(0) && s.cues == [] && s.user == NoCue
    && forall m :: 0 <= m < |s.threads| ==>
         && s.threads[m] == (if s.available[m] then Start else Gone)
         && s.bits[m] == Bits(!s.available[m], false, false) && s.snap[m] == s.bits[m]
  }

  ghost predicate Run(s: State, acts: seq<Action>)
    decreases |acts|
  {
    acts == [] || (Enabled(s, acts[0]) && Run(Apply(s, acts[0]), acts[1..]))
  }

  ghost function After(s: State, acts: seq<Action>): State
    requires Run(s, acts)
    decreases |acts|
  {
    if acts == [] then s else After(Apply(s, acts[0]), acts[1..])
  }

  lemma {:induction false} RunKeepsInv(s: State, acts: seq<Action>)
    requires Inv(s) && Run(s, acts)
    ensures Inv(After(s, acts))
    decreases |acts|
  {
    if acts != [] {
      StepKeepsInv(s, acts[0]);
      RunKeepsInv(Apply(s, acts[0]), acts[1..]);
    }
  }

  /** At most one medium uses the payload area; media are cued in order of priority, after reporting ready. */
  ghost predicate Orderly(s: State)
  {
    && Sized(s) && CuesOk(s)
    && (forall m, k :: 0 <= m < |s.threads| && 0 <= k < |s.threads| && s.threads[m] == Using && s.threads[k] == Using ==> m == k)
    && (s.mon.Committed? ==> s.user == Cue(s.mon.m) && forall m :: 0 <= m < |s.threads| ==> s.threads[m] != Using)
  }

  lemma {:induction false} RunIsOrderly(s: State, acts: seq<Action>)
    requires Initial(s) && Run(s, acts)
    ensures Orderly(After(s, acts))
  {
    assert Inv(s);
    RunKeepsInv(s, acts);
  }

  /** After the commitment nobody enters any more: the payload stays that of the committed medium. */
  lemma {:induction false} CommitmentLasts(s: State, acts: seq<Action>, m: nat)
    requires Inv(s) && s.mon == Committed(m) && Run(s, acts)
    ensures After(s, acts).mon == Committed(m) && After(s, acts).user == Cue(m) && After(s, acts).cues == s.cues
    decreases |acts|
  {
    if acts != [] {
      StepKeepsInv(s, acts[0]);
      CommitmentLasts(Apply(s, acts[0]), acts[1..], m);
    }
  }

  // ---- who is committed to -------------------------------------------------

  /** The monitor is dealing with m. */
  predicate At(mon: Monitor, m: nat)
  {
    mon == Cued(m) || mon == Commit(m) || mon == Committed(m)
  }

  /** A medium that has exited does not change any more. */
  ghost predicate ExitsLast(s: State)
    requires Sized(s)
  {
    forall m :: 0 <= m < |s.threads| && s.available[m] && s.snap[m].exit ==> s.snap[m] == s.bits[m]
  }

  /**
   Whoever was passed over has exited without having loaded anything; or, if the button may have
   been pressed, others were to come.
   */
  ghost predicate PassedOver(s: State, button: bool)
    requires Sized(s)
  {
    forall m :: 0 <= m < |s.threads| && s.available[m] && m < Frontier(s.mon, |s.threads|) && !At(s.mon, m) ==>
      DoneWith(s, m, button)
  }

  predicate DoneWith(s: State, m: nat, button: bool)
    requires m < |s.bits|
  {
    (s.bits[m].exit && !s.bits[m].loaded) || (button && s.bits[m].loaded && Later(s.available, m))
  }

  lemma {:induction false} StepKeepsExits(s: State, act: Action)
    requires Inv(s) && Enabled(s, act) && ExitsLast(s)
    ensures Sized(Apply(s, act)) && ExitsLast(Apply(s, act))
  {
    var s' := Apply(s, act);
    forall m | 0 <= m < |s'.threads| && s'.available[m] && s'.snap[m].exit
      ensures s'.snap[m] == s'.bits[m]
    {
      assert ThreadOk(s.threads[m], s.bits[m]) && Older(s.snap[m], s.bits[m]);
    }
  }

  /** Bits are never taken back, and after the exit none is added. */
  lemma {:induction false} BitsStay(s: State, act: Action, m: nat)
    requires Inv(s) && Enabled(s, act) && m < |s.threads| && s.available[m]
    ensures var s' := Apply(s, act);
            && Sized(s') && s'.available == s.available && |s'.threads| == |s.threads| && Older(s.bits[m], s'.bits[m])
            && (s.bits[m].exit ==> s'.bits[m] == s.bits[m])
  {
    assert ThreadOk(s.threads[m], s.bits[m]);
  }

  lemma {:induction false} StepPassesOver(s: State, act: Action, button: bool)
    requires Inv(s) && Enabled(s, act) && ExitsLast(s) && PassedOver(s, button) && (act == Settle(true) ==> button)
    ensures Sized(Apply(s, act)) && PassedOver(Apply(s, act), button)
  {
    var s' := Apply(s, act);
    forall m | 0 <= m < |s'.threads| && s'.available[m] && m < Frontier(s'.mon, |s'.threads|) && !At(s'.mon, m)
      ensures DoneWith(s', m, button)
    {
      BitsStay(s, act, m);
      assert Older(s.snap[m], s.bits[m]);
      if m < Frontier(s.mon, |s.threads|) && !At(s.mon, m) {
        assert DoneWith(s, m, button);
      }
    }
  }

  lemma {:induction false} RunPassesOver(s: State, acts: seq<Action>, button: bool)
    requires Inv(s) && Run(s, acts) && ExitsLast(s) && PassedOver(s, button) && (Settle(true) in acts ==> button)
    ensures Inv(After(s, acts)) && PassedOver(After(s, acts), button)
    decreases |acts|
  {
    if acts != [] {
      StepKeepsInv(s, acts[0]);
      StepKeepsExits(s, acts[0]);
      StepPassesOver(s, acts[0], button);
      RunPassesOver(Apply(s, acts[0]), acts[1..], button);
    }
  }

  /** Where an available medium has loaded a payload, the monitor is dealing with this medium. */
  ghost predicate LoadedIsTaken(s: State)
    requires Sized(s)
  {
    forall m :: 0 <= m < |s.threads| && s.available[m] && s.bits[m].loaded ==> At(s.mon, m)
  }

  /** Unless the button is pressed, the medium that is committed to is the first one to load a payload. */
  lemma {:induction false} FirstLoadedWins(s: State, acts: seq<Action>)
    requires Initial(s) && Run(s, acts) && Settle(true) !in acts
    ensures Sized(After(s, acts)) && LoadedIsTaken(After(s, acts))
  {
    assert Inv(s);
    RunPassesOver(s, acts, false);
  }

  /**
   The monitor gives up only when every medium has had its turn; the last one, and without the
   button every one, has then exited without having loaded anything.
   */
  lemma {:induction false} DiesLast(s: State, acts: seq<Action>, m: nat)
    requires Initial(s) && Run(s, acts) && After(s, acts).mon == Died && m < |After(s, acts).threads|
    ensures var e := After(s, acts);
            && Sized(e)
            && (e.available[m] ==> e.bits[m].exit || e.bits[m].loaded)
            && (e.available[m] && (Settle(true) !in acts || !Later(e.available, m)) ==>
                  e.bits[m].exit && !e.bits[m].loaded)
  {
    assert Inv(s);
    RunPassesOver(s, acts, Settle(true) in acts);
  }
}
