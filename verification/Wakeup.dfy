/**
 lib/sched.c: waiting for a value to change. A thread that goes to sleep is put on the list
 first and the value looked at again afterwards (sched_finish_u32, sched_finish_u8); whoever
 changes the value empties the list afterwards (sched_queue_list).

 Any number of agents take these steps in any order. Putting on a list and emptying it are
 one step each, the one that changes the head of the list.
 */
module Wakeup {
  type Word = bv32

  /** A sleeping thread, what it waits for to change, and the agent that put it to sleep. */
  datatype Waiter = Waiter(thread: nat, mask: Word, expected: Word, agent: nat)

  datatype Pc =
    | Idle
      // the thread is on the list, the value has not been looked at again
    | Enqueued(w: Waiter)
      // it was not the expected one, the list is to be emptied
    | Mismatch
      // a notifier has stored a new value and is about to empty the list
    | Stored

  datatype State = State(val: Word, list: seq<Waiter>, ready: seq<nat>, pcs: seq<Pc>)

  datatype Action =
    | Sleep(c: nat, thread: nat, mask: Word, expected: Word)
    | Recheck(c: nat)
    | Notify(c: nat, val: Word)
    | Flush(c: nat)
    | Dispatch(i: nat)

  predicate Matches(val: Word, w: Waiter)
  {
    val & w.mask == w.expected
  }

  predicate Enabled(s: State, act: Action)
  {
    match act
    case Sleep(c, _, _, _) => c < |s.pcs| && s.pcs[c].Idle?
    case Recheck(c) => c < |s.pcs| && s.pcs[c].Enqueued?
    case Notify(c, _) => c < |s.pcs| && s.pcs[c].Idle?
    case Flush(c) => c < |s.pcs| && (s.pcs[c].Mismatch? || s.pcs[c].Stored?)
    case Dispatch(i) => i < |s.ready|
  }

  function Threads(list: seq<Waiter>): (t: seq<nat>)
    ensures |t| == |list| && forall i :: 0 <= i < |list| ==> t[i] == list[|list| - 1 - i].thread
  {
    seq(|list|, i requires 0 <= i < |list| => list[|list| - 1 - i].thread)
  }

  function Apply(s: State, act: Action): State
    requires Enabled(s, act)
  {
    match act
    case Sleep(c, thread, mask, expected) =>
      var w := Waiter(thread, mask, expected, c);
      s.(list := [w] + s.list, pcs := s.pcs[c := Enqueued(w)])
    case Recheck(c) => s.(pcs := s.pcs[c := if Matches(s.val, s.pcs[c].w) then Idle else Mismatch])
    case Notify(c, val) => s.(val := val, pcs := s.pcs[c := Stored])
    case Flush(c) => s.(list := [], ready := s.ready + Threads(s.list), pcs := s.pcs[c := Idle])
    case Dispatch(i) => s.(ready := s.ready[..i] + s.ready[i + 1..])
  }

  /** Some agent is going to empty the list. */
  ghost predicate FlushDue(pcs: seq<Pc>)
  {
    exists c :: 0 <= c < |pcs| && (pcs[c].Stored? || pcs[c].Mismatch?)
  }

  ghost predicate RecheckDue(pcs: seq<Pc>, w: Waiter)
  {
    w.agent < |pcs| && pcs[w.agent] == Enqueued(w)
  }

  ghost predicate Inv(s: State)
  {
    forall i :: 0 <= i < |s.list| ==> Matches(s.val, s.list[i]) || FlushDue(s.pcs) || RecheckDue(s.pcs, s.list[i])
  }

  lemma {:induction false} FlushStaysDue(pcs: seq<Pc>, c: nat, pc: Pc)
    requires c < |pcs| && FlushDue(pcs) && (pcs[c].Stored? || pcs[c].Mismatch? ==> pc.Stored? || pc.Mismatch?)
    ensures FlushDue(pcs[c := pc])
  {
    var d :| 0 <= d < |pcs| && (pcs[d].Stored? || pcs[d].Mismatch?);
    var pcs' := pcs[c := pc];
    assert pcs'[d].Stored? || pcs'[d].Mismatch?;
  }

  lemma {:induction false} StepKeepsInv(s: State, act: Action)
    requires Inv(s) && Enabled(s, act)
    ensures Inv(Apply(s, act))
  {
    var s' := Apply(s, act);
    match act
    case Sleep(c, _, _, _) =>
      forall i | 0 <= i < |s'.list| ensures Matches(s'.val, s'.list[i]) || FlushDue(s'.pcs) || RecheckDue(s'.pcs, s'.list[i]) {
        if FlushDue(s.pcs) {
          FlushStaysDue(s.pcs, c, s'.pcs[c]);
        } else if i > 0 {
          assert s'.list[i] == s.list[i - 1];
        }
      }
    case Recheck(c) =>
      if FlushDue(s.pcs) {
        FlushStaysDue(s.pcs, c, s'.pcs[c]);
      }
      if !Matches(s.val, s.pcs[c].w) {
        assert s'.pcs[c].Mismatch?;
      }
    case Notify(c, _) =>
      assert s'.pcs[c].Stored?;
    case Flush(_) =>
    case Dispatch(_) =>
  }

  ghost predicate Run(s: State, acts: seq<Action>)
    decreases |acts|
  {
    acts == [] || (Enabled(s, acts[0]) && Run(Apply(s, acts[0]), acts[1..]))
  }

  ghost function After(s: State, acts: seq<Action>): State
    requires Run(s, acts)
    decreases |acts|
  {
    if acts == [] then s else After(Apply(s, acts[0]), acts[1..])
  }

  /** Nobody is between a store and the flush that follows it, or between going to sleep and looking again. */
  ghost predicate Quiet(s: State)
  {
    forall c :: 0 <= c < |s.pcs| ==> s.pcs[c].Idle?
  }

  lemma {:induction false} RunKeepsInv(s: State, acts: seq<Action>)
    requires Inv(s) && Run(s, acts)
    ensures Inv(After(s, acts))
    decreases |acts|
  {
    if acts != [] {
      StepKeepsInv(s, acts[0]);
      RunKeepsInv(Apply(s, acts[0]), acts[1..]);
    }
  }

  // ---- nobody gets lost ----------------------------------------------------

  /** Those who wait to run, first come first: the ready ones, then the sleepers in the order they came. */
  function Waiting(s: State): seq<nat>
  {
    s.ready + Threads(s.list)
  }

  /** What becomes of a queue: going to sleep adds a thread at the end, dispatching takes one out. */
  function Queued(q: seq<nat>, act: Action): seq<nat>
  {
    match act
    case Sleep(_, thread, _, _) => q + [thread]
    case Dispatch(i) => if i < |q| then q[..i] + q[i + 1..] else q
    case _ => q
  }

  /** Every step does that and nothing else; in particular a flush makes the sleepers ready in the order they came. */
  lemma {:induction false} StepKeepsOrder(s: State, act: Action)
    requires Enabled(s, act)
    ensures Waiting(Apply(s, act)) == Queued(Waiting(s), act)
    ensures act.Flush? ==> Apply(s, act).ready == Waiting(s)
    ensures act.Dispatch? ==> Waiting(s)[act.i] == s.ready[act.i]
  {
  }

  function QueuedAll(q: seq<nat>, acts: seq<Action>): seq<nat>
    decreases |acts|
  {
    if acts == [] then q else QueuedAll(Queued(q, acts[0]), acts[1..])
  }

  lemma {:induction false} RunKeepsOrder(s: State, acts: seq<Action>)
    requires Run(s, acts)
    ensures Waiting(After(s, acts)) == QueuedAll(Waiting(s), acts)
    decreases |acts|
  {
    if acts != [] {
      StepKeepsOrder(s, acts[0]);
      RunKeepsOrder(Apply(s, acts[0]), acts[1..]);
    }
  }

  /** The threads that went to sleep. */
  function Slept(acts: seq<Action>): multiset<nat>
  {
    if acts == [] then multiset{}
    else (if acts[0].Sleep? then multiset{acts[0].thread} else multiset{}) + Slept(acts[1..])
  }

  /** The threads that were dispatched. */
  ghost function Dispatched(s: State, acts: seq<Action>): multiset<nat>
    requires Run(s, acts)
    decreases |acts|
  {
    if acts == [] then multiset{}
    else
      (if acts[0].Dispatch? then multiset{s.ready[acts[0].i]} else multiset{}) + Dispatched(Apply(s, acts[0]), acts[1..])
  }

  lemma {:induction false} StepKeepsThreads(s: State, act: Action)
    requires Enabled(s, act)
    ensures multiset(Waiting(Apply(s, act))) + (if act.Dispatch? then multiset{s.ready[act.i]} else multiset{})
         == multiset(Waiting(s)) + (if act.Sleep? then multiset{act.thread} else multiset{})
  {
    StepKeepsOrder(s, act);
    if act.Dispatch? {
      var q, i := Waiting(s), act.i;
      assert q == q[..i] + [q[i]] + q[i + 1..];
    }
  }

  lemma {:induction false} Balance(a: multiset<nat>, d: multiset<nat>, w: multiset<nat>, s: multiset<nat>,
                                   d0: multiset<nat>, w0: multiset<nat>, s0: multiset<nat>)
    requires a + d == w + s && w + d0 == w0 + s0
    ensures a + (d0 + d) == w0 + (s0 + s)
  {
    assert a + (d0 + d) == (a + d) + d0;
    assert (w + s) + d0 == (w + d0) + s;
    assert w0 + (s0 + s) == (w0 + s0) + s;
  }

  /** Over all runs: a thread that went to sleep sleeps, is ready, or has been dispatched, as often as it did. */
  lemma {:induction false} RunKeepsThreads(s: State, acts: seq<Action>)
    requires Run(s, acts)
    ensures multiset(Waiting(After(s, acts))) + Dispatched(s, acts) == multiset(Waiting(s)) + Slept(acts)
    decreases |acts|
  {
    if acts != [] {
      var act, s' := acts[0], Apply(s, acts[0]);
      StepKeepsThreads(s, act);
      RunKeepsThreads(s', acts[1..]);
      Balance(multiset(Waiting(After(s, acts))), Dispatched(s', acts[1..]), multiset(Waiting(s')), Slept(acts[1..]),
              if act.Dispatch? then multiset{s.ready[act.i]} else multiset{},
              multiset(Waiting(s)), if act.Sleep? then multiset{act.thread} else multiset{});
    }
  }

  /** Every sleeper has gone to sleep, and waits for what it said then. */
  lemma {:induction false} SleeperCame(s: State, acts: seq<Action>, w: Waiter)
    requires Run(s, acts) && w in After(s, acts).list && w !in s.list
    ensures Sleep(w.agent, w.thread, w.mask, w.expected) in acts
    decreases |acts|
  {
    if acts != [] {
      var s' := Apply(s, acts[0]);
      if w !in s'.list {
        SleeperCame(s', acts[1..], w);
      }
    }
  }

  /** No lost wakeup: whoever sleeps while nothing is going on sleeps because the value is still the one it expects. */
  lemma {:induction false} NoLostWakeup(s: State, acts: seq<Action>)
    requires s.list == [] && Run(s, acts) && Quiet(After(s, acts))
    ensures forall w :: w in After(s, acts).list ==> Matches(After(s, acts).val, w)
  {
    RunKeepsInv(s, acts);
  }

  /** The value is none that the thread has gone to sleep on. */
  ghost predicate Changed(val: Word, acts: seq<Action>, thread: nat)
  {
    forall c, mask, expected :: Sleep(c, thread, mask, expected) in acts ==> val & mask != expected
  }

  lemma {:induction false} NotAsleep(list: seq<Waiter>, thread: nat)
    requires forall w :: w in list ==> w.thread != thread
    ensures multiset(Threads(list))[thread] == 0
  {
    assert thread !in Threads(list);
  }

  /**
   Hence when nothing is going on, a thread whose value has changed is ready or has been
   dispatched, as often as it slept.
   */
  lemma {:induction false} WokenUp(s: State, acts: seq<Action>, thread: nat)
    requires s.list == [] && Run(s, acts) && Quiet(After(s, acts)) && Changed(After(s, acts).val, acts, thread)
    ensures multiset(After(s, acts).ready)[thread] + Dispatched(s, acts)[thread] ==
            multiset(s.ready)[thread] + Slept(acts)[thread]
  {
    var e := After(s, acts);
    NoLostWakeup(s, acts);
    forall w | w in e.list
      ensures w.thread != thread
    {
      SleeperCame(s, acts, w);
    }
    NotAsleep(e.list, thread);
    RunKeepsThreads(s, acts);
    assert Waiting(s) == s.ready;
    assert multiset(Waiting(e)) == multiset(e.ready) + multiset(Threads(e.list));
    assert (multiset(Waiting(e)) + Dispatched(s, acts))[thread] == (multiset(s.ready) + Slept(acts))[thread];
  }

  /** The look after going to sleep is needed: without it a notifier that came in between is missed. */
  lemma {:induction false} RecheckNeeded(s: State, thread: nat)
    requires s == State(0, [], [], [Idle, Idle])
    ensures var acts := [Notify(0, 1), Flush(0), Sleep(1, thread, 0xffff_ffff, 0)];
            var w := Waiter(thread, 0xffff_ffff, 0, 1);
            Run(s, acts) && After(s, acts) == State(1, [w], [], [Idle, Enqueued(w)]) && !Matches(1, w)
  {
    var s1 := Apply(s, Notify(0, 1));
    var s2 := Apply(s1, Flush(0));
    var s3 := Apply(s2, Sleep(1, thread, 0xffff_ffff, 0));
    var acts := [Notify(0, 1), Flush(0), Sleep(1, thread, 0xffff_ffff, 0)];
    assert acts[1..] == [Flush(0), Sleep(1, thread, 0xffff_ffff, 0)];
    assert acts[1..][1..] == [Sleep(1, thread, 0xffff_ffff, 0)];
    assert acts[1..][1..][1..] == [];
    assert Run(s3, []) && Run(s2, acts[1..][1..]) && Run(s1, acts[1..]);
    assert After(s2, acts[1..][1..]) == s3;
    assert After(s1, acts[1..]) == s3;
  }
}
