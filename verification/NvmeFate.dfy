/**
 lib/nvme.c: what becomes of one request over a run. Other requests come and go meanwhile, and
 may use the same command ID as soon as it is free.
 */
module NvmeFate {
  import opened Basics
  import opened Nvme

  /** The controller has not completed the request's command; it has; the host has seen that. */
  datatype Fate = Pending | Answered(v: nat) | Finished(v: nat)

  /** The request r was submitted as command c of queue i. */
  ghost predicate Meets(s: State, r: nat, i: nat, c: nat, f: Fate)
  {
    && Sized(s) && r < |s.status| && i < |s.sqs| && c < |s.place[i]|
    && match f
       case Pending => s.holder[r] == Slot(i, c) && (s.place[i][c].Queued? || s.place[i][c] == Flight)
       case Answered(v) =>
         && s.holder[r] == Slot(i, c) && s.place[i][c].Posted? && s.place[i][c].p < |s.posted|
         && s.posted[s.place[i][c].p].status == v
       case Finished(v) => s.holder[r] == Nowhere && s.status[r] == 2 * v + 1
  }

  /** Not about this request, on the side of the host. */
  predicate Apart(act: Action, r: nat)
  {
    (act.Submit? ==> act.r != r) && (act.Mark? ==> act.r != r)
  }

  /** How a request goes on: it is answered by the completion of its command, and by no other. */
  predicate GoesOn(f: Fate, f': Fate, i: nat, c: nat, act: Action)
  {
    match f
    case Pending => f' == if act.Complete? && act.i == i && act.c == c then Answered(act.status) else Pending
    case Answered(v) => f' == f || f' == Finished(v)
    case Finished(_) => f' == f
  }

  lemma {:induction false} ConsumeFate(s: State, r: nat, i: nat, c: nat, f: Fate) returns (f': Fate)
    requires Inv(s) && Enabled(s, Consume) && Meets(s, r, i, c, f)
    ensures Meets(Apply(s, Consume), r, i, c, f') && GoesOn(f, f', i, c, Consume)
  {
    AtPos(s);
    ReadyToConsume(s);
    var e := s.cqBuf[s.pos];
    f' := if f.Answered? && e.sqid == i && e.cid == c then Finished(f.v) else f;
  }

  lemma {:induction false} FetchFate(s: State, j: nat, r: nat, i: nat, c: nat, f: Fate)
    requires Inv(s) && Enabled(s, Fetch(j)) && Meets(s, r, i, c, f)
    ensures Meets(Apply(s, Fetch(j)), r, i, c, f)
  {
    ReadyToFetch(s, j);
  }

  lemma {:induction false} StepFate(s: State, act: Action, r: nat, i: nat, c: nat, f: Fate) returns (f': Fate)
    requires Inv(s) && Enabled(s, act) && Apart(act, r) && Meets(s, r, i, c, f)
    ensures Meets(Apply(s, act), r, i, c, f') && GoesOn(f, f', i, c, act)
  {
    f' := f;
    match act
    case Submit(_, _, _) =>
    case Mark(_, _) =>
    case Consume => f' := ConsumeFate(s, r, i, c, f);
    case Fetch(j) => FetchFate(s, j, r, i, c, f);
    case Complete(j, d, status) =>
      if f.Pending? && j == i && d == c {
        f' := Answered(status);
      }
  }

  /** With which status the controller first completes command c of queue i. */
  function FirstStatus(acts: seq<Action>, i: nat, c: nat): Option<nat>
  {
    if acts == [] then None
    else if acts[0].Complete? && acts[0].i == i && acts[0].c == c then Some(acts[0].status)
    else FirstStatus(acts[1..], i, c)
  }

  lemma {:induction false} RunFate(s: State, acts: seq<Action>, r: nat, i: nat, c: nat, f: Fate) returns (f': Fate)
    requires Inv(s) && Run(s, acts) && Meets(s, r, i, c, f) && forall k :: 0 <= k < |acts| ==> Apart(acts[k], r)
    ensures Meets(After(s, acts), r, i, c, f')
    ensures f.Pending? ==> FirstStatus(acts, i, c) == if f'.Pending? then None else Some(f'.v)
    ensures !f.Pending? ==> !f'.Pending? && f'.v == f.v
    decreases |acts|
  {
    f' := f;
    if acts != [] {
      var mid := StepFate(s, acts[0], r, i, c, f);
      f' := RunFate(Apply(s, acts[0]), acts[1..], r, i, c, mid);
    }
  }

  /**
   A request that has been submitted stays in its slot until the host has seen the completion of
   its command; then it has the status with which the controller completed it.
   */
  lemma {:induction false} RequestAnswered(s: State, i: nat, c: nat, r: nat, acts: seq<Action>)
    requires Inv(s) && Enabled(s, Submit(i, c, r)) && Run(Apply(s, Submit(i, c, r)), acts)
    requires forall k :: 0 <= k < |acts| ==> Apart(acts[k], r)
    ensures var e := After(Apply(s, Submit(i, c, r)), acts);
            && r < |e.status| == |e.holder|
            && if e.holder[r] == Nowhere then
                 FirstStatus(acts, i, c).Some? && e.status[r] == 2 * FirstStatus(acts, i, c).value + 1
               else e.holder[r] == Slot(i, c) && e.status[r] == SUBMITTED
  {
    var s1 := Apply(s, Submit(i, c, r));
    assert Meets(s1, r, i, c, Pending);
    var f := RunFate(s1, acts, r, i, c, Pending);
  }
}
