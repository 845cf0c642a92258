/**
 lib/nvme.c: submission and completion queues (sections 4.1 and 4.6 of NVMe 1.3), with a
 controller that conforms to the standard on the other side.

 Any number of submission queues share one completion queue. A step of the host or of the
 controller is a function of the state; a run takes them in any order. Beside the queues the
 state holds the history: everything submitted, everything posted, and how far each side has
 got. The class has the host's fields and code.
 */
module Nvme {
  import opened Basics

  const SUBMITTED := 2

  /** A slot of the command ID table. */
  datatype Slot = Empty | Held(req: nat)

  /** struct nvme_sq; size is one less than the number of entries. buf holds the command IDs. */
  datatype Sq = Sq(size: nat, tail: nat, head: nat, cmd: seq<Slot>, buf: seq<nat>)

  datatype Cqe = Cqe(status: nat, phase: bool, sqid: nat, cid: nat, sqhd: nat)

  /** All command IDs ever submitted, how many the controller has fetched, and how many of those the host knows of. */
  datatype Log = Log(cids: seq<nat>, fetched: nat, seen: nat)

  /** Where a command ID is: with submission k, being executed, or with completion p. */
  datatype Place = Free | Queued(k: nat) | Flight | Posted(p: nat)

  // ---- rings ---------------------------------------------------------------

  function Next(i: nat, size: nat): nat
  {
    if i == size then 0 else i + 1
  }

  lemma {:induction false} NextIsMod(k: nat, size: nat)
    ensures Next(k % (size + 1), size) == (k + 1) % (size + 1)
  {
    var n := size + 1;
    DivBounds(k, n);
    if k % n == size {
      assert (k / n + 1) * n == k / n * n + n;
      DivModUnique(k + 1, k / n + 1, 0, n);
    } else {
      DivModUnique(k + 1, k / n, k % n + 1, n);
    }
  }

  /** Less than a round apart, two positions of a ring are equal only if they are the same. */
  lemma {:induction false} SameModulo(a: nat, b: nat, n: Pos)
    requires a <= b < a + n
    ensures a % n == b % n <==> a == b
  {
    DivBounds(a, n);
    DivBounds(b, n);
    assert (a / n + 1) * n == a / n * n + n;
    if a % n == b % n && a / n < b / n {
      MulMonotone(a / n + 1, b / n, n);
    } else if a % n == b % n {
      MulMonotone(b / n, a / n, n);
    }
  }

  /** The phase of the k-th entry that is written to a ring: it changes with every round. */
  predicate PhaseOf(k: nat, n: Pos)
  {
    k / n % 2 == 0
  }

  lemma {:induction false} PhaseStep(k: nat, size: nat)
    ensures PhaseOf(k + 1, size + 1) == if k % (size + 1) == size then !PhaseOf(k, size + 1) else PhaseOf(k, size + 1)
  {
    var n := size + 1;
    DivBounds(k, n);
    if k % n == size {
      assert (k / n + 1) * n == k / n * n + n;
      DivModUnique(k + 1, k / n + 1, 0, n);
    } else {
      DivModUnique(k + 1, k / n, k % n + 1, n);
    }
  }

  lemma {:induction false} PhaseRound(k: nat, n: Pos)
    requires k >= n
    ensures PhaseOf(k - n, n) != PhaseOf(k, n) && (k - n) % n == k % n
  {
    DivBounds(k, n);
    assert (k / n - 1) * n == k / n * n - n;
    DivModUnique(k - n, k / n - 1, k % n, n);
  }

  lemma {:induction false} PhaseFirst(k: nat, n: Pos)
    requires k < n
    ensures PhaseOf(k, n) && k % n == k
  {
    DivModUnique(k, 0, k, n);
  }

  // ---- the state -----------------------------------------------------------

  datatype Holder = Nowhere | Slot(i: nat, c: nat)

  /**
   The host's fields, the controller's, and the history. heads are how many commands of its
   queue the controller had fetched when it posted a completion; holder says in which slot a
   request is.
   */
  datatype State = State(sqs: seq<Sq>, cqSize: nat, pos: nat, phase: bool, cqBuf: seq<Cqe>, status: seq<nat>,
                         devHead: seq<nat>, devPos: nat, devPhase: bool,
                         logs: seq<Log>, posted: seq<Cqe>, heads: seq<nat>, consumed: nat, place: seq<seq<Place>>, holder: seq<Holder>)

  ghost predicate Sized(s: State)
  {
    && |s.sqs| == |s.devHead| == |s.logs| == |s.place| && |s.heads| == |s.posted| && |s.status| == |s.holder|
    && forall i :: 0 <= i < |s.sqs| ==> |s.place[i]| == |s.sqs[i].cmd|
  }

  /** The ring of a submission queue agrees with its history. */
  ghost predicate SqOk(sq: Sq, log: Log, devHead: nat)
  {
    var n, t := sq.size + 1, |log.cids|;
    && |sq.buf| == n && log.seen <= log.fetched <= t < log.seen + n
    && sq.tail == t % n && sq.head == log.seen % n && devHead == log.fetched % n
    && forall k :: log.fetched <= k < t ==> sq.buf[k % n] == log.cids[k]
  }

  ghost predicate SqsOk(s: State)
    requires Sized(s)
  {
    forall i :: 0 <= i < |s.sqs| ==> SqOk(s.sqs[i], s.logs[i], s.devHead[i])
  }

  ghost predicate CqOk(s: State)
  {
    var n, t := s.cqSize + 1, |s.posted|;
    && |s.cqBuf| == n && s.consumed <= t < s.consumed + n
    && s.pos == s.consumed % n && s.phase == PhaseOf(s.consumed, n) && s.devPos == t % n && s.devPhase == PhaseOf(t, n)
    && (forall p :: 0 <= p < t && t <= p + n ==> s.cqBuf[p % n] == s.posted[p])
    && (forall p :: 0 <= p < t ==> s.posted[p].phase == PhaseOf(p, n))
    && (forall j :: t <= j < n ==> !s.cqBuf[j].phase)
  }

  /** A command ID is in one place, and its slot is taken as long as it is in any. */
  ghost predicate CidOk(s: State, i: nat, c: nat)
    requires Sized(s) && i < |s.sqs| && c < |s.place[i]|
  {
    match s.place[i][c]
    case Free => s.sqs[i].cmd[c].Empty?
    case Queued(k) => s.sqs[i].cmd[c].Held? && s.logs[i].fetched <= k < |s.logs[i].cids| && s.logs[i].cids[k] == c
    case Flight => s.sqs[i].cmd[c].Held?
    case Posted(p) => s.sqs[i].cmd[c].Held? && s.consumed <= p < |s.posted| && s.posted[p].sqid == i && s.posted[p].cid == c
  }

  ghost predicate CidsOk(s: State)
    requires Sized(s)
  {
    forall i, c :: 0 <= i < |s.sqs| && 0 <= c < |s.place[i]| ==> CidOk(s, i, c)
  }

  /** What is in a queue is where it is said to be: so no command ID is there twice. */
  ghost predicate QueuedOk(s: State)
    requires Sized(s)
  {
    forall i, k :: 0 <= i < |s.sqs| && s.logs[i].fetched <= k < |s.logs[i].cids| ==> QueuedAt(s, i, k)
  }

  ghost predicate QueuedAt(s: State, i: nat, k: nat)
    requires Sized(s) && i < |s.sqs| && k < |s.logs[i].cids|
  {
    s.logs[i].cids[k] < |s.place[i]| && s.place[i][s.logs[i].cids[k]] == Queued(k)
  }

  ghost predicate PostedOk(s: State)
    requires Sized(s)
  {
    forall p :: s.consumed <= p < |s.posted| ==>
      var e := s.posted[p];
      && e.sqid < |s.sqs| && e.cid < |s.place[e.sqid]| && s.place[e.sqid][e.cid] == Posted(p)
      && s.logs[e.sqid].seen <= s.heads[p] <= s.logs[e.sqid].fetched && e.sqhd == s.heads[p] % (s.sqs[e.sqid].size + 1)
  }

  ghost predicate HeadsOk(s: State)
    requires Sized(s)
  {
    forall p, q :: s.consumed <= p < q < |s.posted| && s.posted[p].sqid == s.posted[q].sqid ==> s.heads[p] <= s.heads[q]
  }

  ghost predicate HoldersOk(s: State)
    requires Sized(s)
  {
    && (forall i, c :: 0 <= i < |s.sqs| && 0 <= c < |s.sqs[i].cmd| && s.sqs[i].cmd[c].Held? ==>
          var r := s.sqs[i].cmd[c].req;
          r < |s.status| && s.holder[r] == Slot(i, c) && s.status[r] == SUBMITTED)
    && (forall r :: 0 <= r < |s.holder| && s.holder[r].Slot? ==>
          var h := s.holder[r];
          h.i < |s.sqs| && h.c < |s.sqs[h.i].cmd| && s.sqs[h.i].cmd[h.c] == Held(r))
  }

  ghost predicate Inv(s: State)
  {
    Sized(s) && SqsOk(s) && CqOk(s) && CidsOk(s) && QueuedOk(s) && PostedOk(s) && HeadsOk(s) && HoldersOk(s)
  }

  // ---- the host's steps ----------------------------------------------------

  predicate Full(sq: Sq)
  {
    Next(sq.tail, sq.size) == sq.head
  }

  /** The command goes to slot c; c is free. */
  function Submitted(s: State, i: nat, c: nat, r: nat): State
    requires i < |s.sqs| == |s.logs| == |s.place| && c < |s.sqs[i].cmd| == |s.place[i]| && r < |s.status| == |s.holder|
    requires s.sqs[i].tail < |s.sqs[i].buf|
  {
    var sq := s.sqs[i];
    s.(sqs := s.sqs[i := sq.(cmd := sq.cmd[c := Held(r)], buf := sq.buf[sq.tail := c], tail := Next(sq.tail, sq.size))],
       status := s.status[r := SUBMITTED],
       logs := s.logs[i := s.logs[i].(cids := s.logs[i].cids + [c])],
       place := s.place[i := s.place[i][c := Queued(|s.logs[i].cids|)]],
       holder := s.holder[r := Slot(i, c)])
  }

  predicate NoneFree(sq: Sq)
  {
    forall c :: 0 <= c < |sq.cmd| ==> sq.cmd[c].Held?
  }

  /** A submission that fails for lack of a command ID has already marked the request. */
  function Marked(s: State, r: nat): State
    requires r < |s.status|
  {
    s.(status := s.status[r := SUBMITTED])
  }

  /** The completion at pos is consumed. */
  function Consumed(s: State): State
    requires s.pos < |s.cqBuf| && s.cqBuf[s.pos].sqid < |s.sqs| == |s.logs| == |s.place|
    requires s.cqBuf[s.pos].cid < |s.sqs[s.cqBuf[s.pos].sqid].cmd|
    requires |s.place[s.cqBuf[s.pos].sqid]| == |s.sqs[s.cqBuf[s.pos].sqid].cmd| && s.consumed < |s.heads|
    requires var slot := s.sqs[s.cqBuf[s.pos].sqid].cmd[s.cqBuf[s.pos].cid];
             slot.Held? && slot.req < |s.status| == |s.holder|
  {
    var e := s.cqBuf[s.pos];
    var sq := s.sqs[e.sqid];
    var r := sq.cmd[e.cid].req;
    s.(sqs := s.sqs[e.sqid := sq.(cmd := sq.cmd[e.cid := Empty], head := e.sqhd)],
       status := s.status[r := 2 * e.status + 1],
       pos := Next(s.pos, s.cqSize), phase := if s.pos == s.cqSize then !s.phase else s.phase,
       logs := s.logs[e.sqid := s.logs[e.sqid].(seen := s.heads[s.consumed])],
       place := s.place[e.sqid := s.place[e.sqid][e.cid := Free]],
       consumed := s.consumed + 1, holder := s.holder[r := Nowhere])
  }

  // ---- the controller's steps ----------------------------------------------

  /** The next command of queue i is fetched. */
  function Fetched(s: State, i: nat): State
    requires i < |s.sqs| == |s.logs| == |s.place| == |s.devHead| && s.devHead[i] < |s.sqs[i].buf|
    requires s.sqs[i].buf[s.devHead[i]] < |s.place[i]|
  {
    s.(devHead := s.devHead[i := Next(s.devHead[i], s.sqs[i].size)],
       logs := s.logs[i := s.logs[i].(fetched := s.logs[i].fetched + 1)],
       place := s.place[i := s.place[i][s.sqs[i].buf[s.devHead[i]] := Flight]])
  }

  /** The command c of queue i is completed. */
  function Completed(s: State, i: nat, c: nat, status: nat): State
    requires i < |s.sqs| == |s.logs| == |s.place| == |s.devHead| && c < |s.place[i]| && s.devPos < |s.cqBuf|
  {
    var e := Cqe(status, s.devPhase, i, c, s.devHead[i]);
    s.(cqBuf := s.cqBuf[s.devPos := e], devPos := Next(s.devPos, s.cqSize),
       devPhase := if s.devPos == s.cqSize then !s.devPhase else s.devPhase,
       posted := s.posted + [e], heads := s.heads + [s.logs[i].fetched],
       place := s.place[i := s.place[i][c := Posted(|s.posted|)]])
  }

  // ---- every step keeps the invariant --------------------------------------

  lemma {:induction false} SubmitRing(sq: Sq, log: Log, devHead: nat, c: nat)
    requires SqOk(sq, log, devHead) && !Full(sq)
    ensures sq.tail < |sq.buf|
    ensures SqOk(sq.(buf := sq.buf[sq.tail := c], tail := Next(sq.tail, sq.size)), log.(cids := log.cids + [c]), devHead)
  {
    var n, t := sq.size + 1, |log.cids|;
    NextIsMod(t, sq.size);
    if t + 1 == log.seen + n {
      PhaseRound(t + 1, n);
    }
    forall k | log.fetched <= k < t ensures k % n != t % n {
      SameModulo(k, t, n);
    }
  }

  ghost predicate CanSubmit(s: State, i: nat, c: nat, r: nat)
  {
    && Sized(s) && i < |s.sqs| && c < |s.sqs[i].cmd| && s.sqs[i].cmd[c].Empty? && r < |s.status| && s.holder[r] == Nowhere
    && s.sqs[i].tail < |s.sqs[i].buf|
  }

  lemma {:induction false} SubmitSqs(s: State, i: nat, c: nat, r: nat)
    requires CanSubmit(s, i, c, r) && SqsOk(s) && !Full(s.sqs[i])
    ensures Sized(Submitted(s, i, c, r)) && SqsOk(Submitted(s, i, c, r))
  {
    var s' := Submitted(s, i, c, r);
    SubmitRing(s.sqs[i], s.logs[i], s.devHead[i], c);
    forall j | 0 <= j < |s'.sqs| ensures SqOk(s'.sqs[j], s'.logs[j], s'.devHead[j]) {
      assert SqOk(s.sqs[j], s.logs[j], s.devHead[j]);
    }
  }

  lemma {:induction false} SubmitCids(s: State, i: nat, c: nat, r: nat)
    requires CanSubmit(s, i, c, r) && Sized(Submitted(s, i, c, r)) && CidsOk(s) && s.logs[i].fetched <= |s.logs[i].cids|
    ensures CidsOk(Submitted(s, i, c, r))
  {
    var s' := Submitted(s, i, c, r);
    forall j, d | 0 <= j < |s'.sqs| && 0 <= d < |s'.place[j]| ensures CidOk(s', j, d) {
      assert CidOk(s, j, d);
    }
  }

  lemma {:induction false} SubmitQueued(s: State, i: nat, c: nat, r: nat)
    requires CanSubmit(s, i, c, r) && Sized(Submitted(s, i, c, r)) && CidsOk(s) && QueuedOk(s)
    ensures QueuedOk(Submitted(s, i, c, r))
  {
    assert CidOk(s, i, c);
    var s' := Submitted(s, i, c, r);
    forall j, k | 0 <= j < |s'.sqs| && s'.logs[j].fetched <= k < |s'.logs[j].cids| ensures QueuedAt(s', j, k) {
      if k < |s.logs[j].cids| {
        assert QueuedAt(s, j, k);
      }
    }
  }

  lemma {:induction false} SubmitPosted(s: State, i: nat, c: nat, r: nat)
    requires CanSubmit(s, i, c, r) && Sized(Submitted(s, i, c, r)) && CidsOk(s) && PostedOk(s)
    ensures PostedOk(Submitted(s, i, c, r))
  {
    assert CidOk(s, i, c);
  }

  lemma {:induction false} SubmitHolders(s: State, i: nat, c: nat, r: nat)
    requires CanSubmit(s, i, c, r) && Sized(Submitted(s, i, c, r)) && HoldersOk(s)
    ensures HoldersOk(Submitted(s, i, c, r))
  {
  }

  lemma {:induction false} SubmitKeeps(s: State, i: nat, c: nat, r: nat)
    requires Inv(s) && i < |s.sqs| && c < |s.sqs[i].cmd| && s.sqs[i].cmd[c].Empty? && r < |s.status|
    requires s.holder[r] == Nowhere && !Full(s.sqs[i])
    ensures s.sqs[i].tail < |s.sqs[i].buf| && Inv(Submitted(s, i, c, r))
  {
    assert SqOk(s.sqs[i], s.logs[i], s.devHead[i]);
    SubmitRing(s.sqs[i], s.logs[i], s.devHead[i], c);
    SubmitSqs(s, i, c, r);
    SubmitCids(s, i, c, r);
    SubmitQueued(s, i, c, r);
    SubmitPosted(s, i, c, r);
    SubmitHolders(s, i, c, r);
    KeepsRest(s, Submitted(s, i, c, r));
  }

  /** A step that leaves the completion queue alone. */
  lemma {:induction false} KeepsRest(s: State, s': State)
    requires Sized(s) && Sized(s') && CqOk(s) && HeadsOk(s)
    requires s'.cqSize == s.cqSize && s'.pos == s.pos && s'.phase == s.phase && s'.cqBuf == s.cqBuf
    requires s'.devPos == s.devPos && s'.devPhase == s.devPhase
    requires s'.posted == s.posted && s'.heads == s.heads && s'.consumed == s.consumed
    ensures CqOk(s') && HeadsOk(s')
  {
  }

  // -- consuming

  /** What the host finds at pos: the first completion it has not consumed, or an entry of the wrong phase. */
  lemma {:induction false} AtPos(s: State)
    requires Sized(s) && CqOk(s)
    ensures s.pos < |s.cqBuf|
    ensures s.consumed < |s.posted| ==> s.cqBuf[s.pos] == s.posted[s.consumed] && s.cqBuf[s.pos].phase == s.phase
    ensures s.consumed == |s.posted| ==> s.cqBuf[s.pos].phase != s.phase
  {
    var n, h := s.cqSize + 1, s.consumed;
    if h == |s.posted| {
      if h >= n {
        PhaseRound(h, n);
        assert s.cqBuf[(h - n) % n] == s.posted[h - n];
      } else {
        PhaseFirst(h, n);
      }
    }
  }

  ghost predicate CanConsume(s: State, e: Cqe)
  {
    && Sized(s) && s.pos < |s.cqBuf| && s.consumed < |s.posted| && s.cqBuf[s.pos] == e == s.posted[s.consumed]
    && e.sqid < |s.sqs| && e.cid < |s.sqs[e.sqid].cmd| && s.sqs[e.sqid].cmd[e.cid].Held? && s.sqs[e.sqid].cmd[e.cid].req < |s.status|
    && s.place[e.sqid][e.cid] == Posted(s.consumed)
  }

  lemma {:induction false} ReadyToConsume(s: State)
    requires Inv(s) && s.consumed < |s.posted|
    ensures s.pos < |s.cqBuf| && CanConsume(s, s.cqBuf[s.pos])
  {
    AtPos(s);
    var e := s.cqBuf[s.pos];
    assert s.place[e.sqid][e.cid] == Posted(s.consumed);
    assert CidOk(s, e.sqid, e.cid);
  }

  lemma {:induction false} ConsumeSqs(s: State, e: Cqe)
    requires CanConsume(s, e) && SqsOk(s) && PostedOk(s)
    ensures Sized(Consumed(s)) && SqsOk(Consumed(s))
  {
    var s' := Consumed(s);
    forall j | 0 <= j < |s'.sqs| ensures SqOk(s'.sqs[j], s'.logs[j], s'.devHead[j]) {
      assert SqOk(s.sqs[j], s.logs[j], s.devHead[j]);
    }
  }

  lemma {:induction false} ConsumeCq(s: State, e: Cqe)
    requires CanConsume(s, e) && CqOk(s)
    ensures CqOk(Consumed(s))
  {
    NextIsMod(s.consumed, s.cqSize);
    PhaseStep(s.consumed, s.cqSize);
  }

  lemma {:induction false} ConsumeCids(s: State, e: Cqe)
    requires CanConsume(s, e) && Sized(Consumed(s)) && CidsOk(s)
    ensures CidsOk(Consumed(s))
  {
    var s' := Consumed(s);
    forall j, d | 0 <= j < |s'.sqs| && 0 <= d < |s'.place[j]| ensures CidOk(s', j, d) {
      assert CidOk(s, j, d);
    }
  }

  lemma {:induction false} ConsumeQueued(s: State, e: Cqe)
    requires CanConsume(s, e) && Sized(Consumed(s)) && QueuedOk(s)
    ensures QueuedOk(Consumed(s))
  {
    var s' := Consumed(s);
    forall j, k | 0 <= j < |s'.sqs| && s'.logs[j].fetched <= k < |s'.logs[j].cids| ensures QueuedAt(s', j, k) {
      assert QueuedAt(s, j, k);
    }
  }

  lemma {:induction false} ConsumePosted(s: State, e: Cqe)
    requires CanConsume(s, e) && Sized(Consumed(s)) && PostedOk(s) && HeadsOk(s)
    ensures PostedOk(Consumed(s)) && HeadsOk(Consumed(s))
  {
  }

  lemma {:induction false} ConsumeHolders(s: State, e: Cqe)
    requires CanConsume(s, e) && Sized(Consumed(s)) && HoldersOk(s)
    ensures HoldersOk(Consumed(s))
  {
  }

  lemma {:induction false} ConsumeKeeps(s: State)
    requires Inv(s) && s.consumed < |s.posted|
    ensures s.pos < |s.cqBuf| && CanConsume(s, s.cqBuf[s.pos]) && Inv(Consumed(s))
  {
    ReadyToConsume(s);
    var e := s.cqBuf[s.pos];
    ConsumeSqs(s, e);
    ConsumeCq(s, e);
    ConsumeCids(s, e);
    ConsumeQueued(s, e);
    ConsumePosted(s, e);
    ConsumeHolders(s, e);
  }

  // -- fetching

  ghost predicate CanFetch(s: State, i: nat, c: nat)
  {
    && Sized(s) && i < |s.sqs| && s.devHead[i] < |s.sqs[i].buf| && s.sqs[i].buf[s.devHead[i]] == c < |s.place[i]|
    && s.logs[i].fetched < |s.logs[i].cids| && s.logs[i].cids[s.logs[i].fetched] == c && s.place[i][c] == Queued(s.logs[i].fetched)
  }

  /** There is something to fetch exactly if head and tail differ. */
  lemma {:induction false} ReadyToFetch(s: State, i: nat)
    requires Inv(s) && i < |s.sqs|
    ensures s.devHead[i] != s.sqs[i].tail <==> s.logs[i].fetched < |s.logs[i].cids|
    ensures s.devHead[i] != s.sqs[i].tail ==> s.devHead[i] < |s.sqs[i].buf|
    ensures s.devHead[i] != s.sqs[i].tail ==> CanFetch(s, i, s.sqs[i].buf[s.devHead[i]])
  {
    assert SqOk(s.sqs[i], s.logs[i], s.devHead[i]);
    FetchRing(s.sqs[i], s.logs[i], s.devHead[i]);
    if s.logs[i].fetched < |s.logs[i].cids| {
      assert QueuedAt(s, i, s.logs[i].fetched);
    }
  }

  lemma {:induction false} FetchRing(sq: Sq, log: Log, devHead: nat)
    requires SqOk(sq, log, devHead)
    ensures devHead != sq.tail <==> log.fetched < |log.cids|
    ensures devHead < |sq.buf| && (log.fetched < |log.cids| ==> sq.buf[devHead] == log.cids[log.fetched])
  {
    SameModulo(log.fetched, |log.cids|, sq.size + 1);
  }

  lemma {:induction false} FetchSqs(s: State, i: nat, c: nat)
    requires CanFetch(s, i, c) && SqsOk(s)
    ensures Sized(Fetched(s, i)) && SqsOk(Fetched(s, i))
  {
    var s' := Fetched(s, i);
    NextIsMod(s.logs[i].fetched, s.sqs[i].size);
    forall j | 0 <= j < |s'.sqs| ensures SqOk(s'.sqs[j], s'.logs[j], s'.devHead[j]) {
      assert SqOk(s.sqs[j], s.logs[j], s.devHead[j]);
    }
  }

  lemma {:induction false} FetchCids(s: State, i: nat, c: nat)
    requires CanFetch(s, i, c) && Sized(Fetched(s, i)) && CidsOk(s)
    ensures CidsOk(Fetched(s, i))
  {
    var s' := Fetched(s, i);
    forall j, d | 0 <= j < |s'.sqs| && 0 <= d < |s'.place[j]| ensures CidOk(s', j, d) {
      assert CidOk(s, j, d);
    }
  }

  lemma {:induction false} FetchQueued(s: State, i: nat, c: nat)
    requires CanFetch(s, i, c) && Sized(Fetched(s, i)) && QueuedOk(s) && PostedOk(s)
    ensures QueuedOk(Fetched(s, i)) && PostedOk(Fetched(s, i))
  {
    var s' := Fetched(s, i);
    forall j, k | 0 <= j < |s'.sqs| && s'.logs[j].fetched <= k < |s'.logs[j].cids| ensures QueuedAt(s', j, k) {
      assert QueuedAt(s, j, k);
    }
  }

  lemma {:induction false} FetchKeeps(s: State, i: nat)
    requires Inv(s) && i < |s.sqs| && s.devHead[i] != s.sqs[i].tail
    ensures s.devHead[i] < |s.sqs[i].buf| && CanFetch(s, i, s.sqs[i].buf[s.devHead[i]]) && Inv(Fetched(s, i))
  {
    ReadyToFetch(s, i);
    var c := s.sqs[i].buf[s.devHead[i]];
    FetchSqs(s, i, c);
    FetchCids(s, i, c);
    FetchQueued(s, i, c);
    KeepsRest(s, Fetched(s, i));
  }

  // -- completing

  ghost predicate CanComplete(s: State, i: nat, c: nat)
  {
    Sized(s) && i < |s.sqs| && c < |s.place[i]| && s.place[i][c] == Flight && s.devPos < |s.cqBuf| && Next(s.devPos, s.cqSize) != s.pos
  }

  /** One entry more in the ring. */
  lemma {:induction false} PostRing(buf: seq<Cqe>, n: Pos, posted: seq<Cqe>, e: Cqe)
    requires |buf| == n && (forall p :: 0 <= p < |posted| && |posted| <= p + n ==> buf[p % n] == posted[p])
    requires forall j :: |posted| <= j < n ==> !buf[j].phase
    ensures var buf', posted' := buf[|posted| % n := e], posted + [e];
            && (forall p :: 0 <= p < |posted'| && |posted'| <= p + n ==> buf'[p % n] == posted'[p])
            && (forall j :: |posted'| <= j < n ==> !buf'[j].phase)
  {
    var t, buf', posted' := |posted|, buf[|posted| % n := e], posted + [e];
    if t < n {
      PhaseFirst(t, n);
    }
    forall p | 0 <= p < |posted'| && |posted'| <= p + n ensures buf'[p % n] == posted'[p] {
      SameModulo(p, t, n);
    }
  }

  lemma {:induction false} PostIndex(consumed: nat, t: nat, size: nat)
    requires consumed <= t < consumed + (size + 1) && Next(t % (size + 1), size) != consumed % (size + 1)
    ensures t + 1 < consumed + (size + 1) && Next(t % (size + 1), size) == (t + 1) % (size + 1)
    ensures PhaseOf(t + 1, size + 1) == if t % (size + 1) == size then !PhaseOf(t, size + 1) else PhaseOf(t, size + 1)
  {
    NextIsMod(t, size);
    PhaseStep(t, size);
    if t + 1 == consumed + (size + 1) {
      PhaseRound(t + 1, size + 1);
    }
  }

  lemma {:induction false} CompleteCq(s: State, i: nat, c: nat, status: nat)
    requires CanComplete(s, i, c) && CqOk(s)
    ensures Sized(Completed(s, i, c, status)) && CqOk(Completed(s, i, c, status))
  {
    PostIndex(s.consumed, |s.posted|, s.cqSize);
    PostRing(s.cqBuf, s.cqSize + 1, s.posted, Cqe(status, s.devPhase, i, c, s.devHead[i]));
  }

  lemma {:induction false} CompleteCids(s: State, i: nat, c: nat, status: nat)
    requires CanComplete(s, i, c) && Sized(Completed(s, i, c, status)) && CidsOk(s) && QueuedOk(s)
    requires s.consumed <= |s.posted|
    ensures CidsOk(Completed(s, i, c, status)) && QueuedOk(Completed(s, i, c, status))
  {
    var s' := Completed(s, i, c, status);
    forall j, d | 0 <= j < |s'.sqs| && 0 <= d < |s'.place[j]| ensures CidOk(s', j, d) {
      assert CidOk(s, j, d);
    }
    forall j, k | 0 <= j < |s'.sqs| && s'.logs[j].fetched <= k < |s'.logs[j].cids| ensures QueuedAt(s', j, k) {
      assert QueuedAt(s, j, k);
    }
  }

  lemma {:induction false} CompletePosted(s: State, i: nat, c: nat, status: nat)
    requires CanComplete(s, i, c) && Sized(Completed(s, i, c, status)) && PostedOk(s) && HeadsOk(s) && SqsOk(s)
    ensures PostedOk(Completed(s, i, c, status)) && HeadsOk(Completed(s, i, c, status))
  {
    assert SqOk(s.sqs[i], s.logs[i], s.devHead[i]);
  }

  lemma {:induction false} CompleteKeeps(s: State, i: nat, c: nat, status: nat)
    requires Inv(s) && i < |s.sqs| && c < |s.place[i]| && s.place[i][c] == Flight && Next(s.devPos, s.cqSize) != s.pos
    ensures CanComplete(s, i, c) && Inv(Completed(s, i, c, status))
  {
    CompleteCq(s, i, c, status);
    CompleteCids(s, i, c, status);
    CompletePosted(s, i, c, status);
  }

  // ---- all runs ------------------------------------------------------------

  datatype Action = Submit(i: nat, c: nat, r: nat) | Mark(i: nat, r: nat) | Consume | Fetch(i: nat) | Complete(i: nat, c: nat, status: nat)

  ghost predicate Enabled(s: State, act: Action)
  {
    match act
    case Submit(i, c, r) => CanSubmit(s, i, c, r) && !Full(s.sqs[i])
    case Mark(i, r) => i < |s.sqs| && !Full(s.sqs[i]) && NoneFree(s.sqs[i]) && r < |s.status| == |s.holder| && s.holder[r] == Nowhere
    case Consume => s.pos < |s.cqBuf| && s.cqBuf[s.pos].phase == s.phase
    case Fetch(i) => i < |s.sqs| == |s.devHead| && s.devHead[i] != s.sqs[i].tail
    case Complete(i, c, _) => CanComplete(s, i, c)
  }

  ghost function Apply(s: State, act: Action): (s': State)
    requires Inv(s) && Enabled(s, act)
    ensures Inv(s')
  {
    match act
    case Submit(i, c, r) => SubmitKeeps(s, i, c, r); Submitted(s, i, c, r)
    case Mark(_, r) => MarkKeeps(s, r); Marked(s, r)
    case Consume => AtPos(s); ConsumeKeeps(s); Consumed(s)
    case Fetch(i) => FetchKeeps(s, i); Fetched(s, i)
    case Complete(i, c, status) => CompleteKeeps(s, i, c, status); Completed(s, i, c, status)
  }

  ghost predicate Run(s: State, acts: seq<Action>)
    requires Inv(s)
    decreases |acts|
  {
    acts == [] || (Enabled(s, acts[0]) && Run(Apply(s, acts[0]), acts[1..]))
  }

  ghost function After(s: State, acts: seq<Action>): (s': State)
    requires Inv(s) && Run(s, acts)
    ensures Inv(s')
    decreases |acts|
  {
    if acts == [] then s else After(Apply(s, acts[0]), acts[1..])
  }

  /** Queues without entries, a completion queue full of zeros, requests that have not been submitted. */
  ghost predicate Initial(s: State)
  {
    && Sized(s) && s.pos == 0 && s.phase && s.devPos == 0 && s.devPhase && s.posted == [] && s.consumed == 0 && |s.cqBuf| == s.cqSize + 1
    && (forall j :: 0 <= j < |s.cqBuf| ==> !s.cqBuf[j].phase)
    && (forall r :: 0 <= r < |s.holder| ==> s.holder[r] == Nowhere)
    && (forall i :: 0 <= i < |s.sqs| ==> EmptyQueue(s.sqs[i], s.logs[i], s.devHead[i]))
    && (forall i, c :: 0 <= i < |s.sqs| && 0 <= c < |s.place[i]| ==> s.place[i][c] == Free && s.sqs[i].cmd[c].Empty?)
  }

  ghost predicate EmptyQueue(sq: Sq, log: Log, devHead: nat)
  {
    sq.tail == 0 && sq.head == 0 && |sq.buf| == sq.size + 1 && devHead == 0 && log == Log([], 0, 0)
  }

  lemma {:induction false} InitialInv(s: State)
    requires Initial(s)
    ensures Inv(s)
  {
    PhaseFirst(0, s.cqSize + 1);
    forall i | 0 <= i < |s.sqs| ensures SqOk(s.sqs[i], s.logs[i], s.devHead[i]) && s.logs[i].cids == [] {
      assert EmptyQueue(s.sqs[i], s.logs[i], s.devHead[i]);
      PhaseFirst(0, s.sqs[i].size + 1);
    }
    forall i, c | 0 <= i < |s.sqs| && 0 <= c < |s.place[i]| ensures CidOk(s, i, c) {
    }
  }

  /** What the host finds at pos whenever it consumes. */
  ghost function Taken(s: State, acts: seq<Action>): seq<Cqe>
    requires Inv(s) && Run(s, acts)
    decreases |acts|
  {
    if acts == [] then []
    else (if acts[0].Consume? then [s.cqBuf[s.pos]] else []) + Taken(Apply(s, acts[0]), acts[1..])
  }

  lemma {:induction false} StepTakes(s: State, act: Action, s': State)
    requires Inv(s) && Enabled(s, act) && s' == Apply(s, act)
    ensures s.posted <= s'.posted && s'.consumed <= |s'.posted|
    ensures act.Consume? ==> s.consumed < |s.posted| && s.cqBuf[s.pos] == s.posted[s.consumed]
    ensures act.Consume? ==> s'.consumed == s.consumed + 1
    ensures !act.Consume? ==> s'.consumed == s.consumed
  {
    AtPos(s);
  }

  lemma {:induction false} OneMoreTaken(p: seq<Cqe>, q: seq<Cqe>, a: nat, b: nat)
    requires p <= q && a < |p| && a + 1 <= b <= |q|
    ensures [p[a]] + q[a + 1..b] == q[a..b]
  {
  }

  lemma {:induction false} TakenFrom(s: State, acts: seq<Action>, e: State)
    requires Inv(s) && Run(s, acts) && e == After(s, acts)
    ensures s.posted <= e.posted && s.consumed <= e.consumed <= |e.posted|
    ensures Taken(s, acts) == e.posted[s.consumed..e.consumed]
    decreases |acts|
  {
    if acts == [] {
      AtPos(s);
    } else {
      var s' := Apply(s, acts[0]);
      StepTakes(s, acts[0], s');
      TakenFrom(s', acts[1..], e);
      if acts[0].Consume? {
        OneMoreTaken(s.posted, e.posted, s.consumed, e.consumed);
      }
    }
  }

  /** Every completion is consumed once, and in the order of posting. */
  lemma {:induction false} ConsumedInOrder(s: State, acts: seq<Action>)
    requires Initial(s) && Inv(s) && Run(s, acts)
    ensures Taken(s, acts) == After(s, acts).posted[..After(s, acts).consumed]
  {
    TakenFrom(s, acts, After(s, acts));
  }

  /**
   Whatever host and controller have done: no two outstanding commands of a queue have the
   same ID, the ring has not been overrun, the entry at pos has the phase exactly if a
   completion waits, and a request in a slot is still submitted.
   */
  lemma {:induction false} RunIsOrderly(s: State, acts: seq<Action>, i: nat)
    requires Initial(s) && Inv(s) && Run(s, acts) && i < |After(s, acts).sqs|
    ensures var e := After(s, acts);
            && |e.logs[i].cids| - e.logs[i].seen <= e.sqs[i].size
            && e.pos < |e.cqBuf| && (e.cqBuf[e.pos].phase == e.phase <==> e.consumed < |e.posted|)
            && (forall j, k :: e.logs[i].fetched <= j < k < |e.logs[i].cids| ==> e.logs[i].cids[j] != e.logs[i].cids[k])
            && (forall p, q :: e.consumed <= p < q < |e.posted| && e.posted[p].sqid == e.posted[q].sqid ==> e.posted[p].cid != e.posted[q].cid)
            && (forall k, p :: e.logs[i].fetched <= k < |e.logs[i].cids| && e.consumed <= p < |e.posted| && e.posted[p].sqid == i ==>
                  e.logs[i].cids[k] != e.posted[p].cid)
            && (forall c :: 0 <= c < |e.place[i]| && e.place[i][c] == Flight ==> OnlyExecuted(e, i, c))
            && (forall c :: 0 <= c < |e.sqs[i].cmd| && e.sqs[i].cmd[c].Held? ==>
                  e.sqs[i].cmd[c].req < |e.status| && e.status[e.sqs[i].cmd[c].req] == SUBMITTED)
  {
    var e := After(s, acts);
    assert SqOk(e.sqs[i], e.logs[i], e.devHead[i]);
    AtPos(e);
    Distinct(e, i);
    forall c | 0 <= c < |e.place[i]| && e.place[i][c] == Flight ensures OnlyExecuted(e, i, c) {
      Executed(e, i, c);
    }
  }

  /** The command ID c is neither queued nor in a completion that waits. */
  ghost predicate OnlyExecuted(e: State, i: nat, c: nat)
    requires i < |e.sqs| == |e.logs| && e.consumed <= |e.posted|
  {
    && (forall k :: e.logs[i].fetched <= k < |e.logs[i].cids| ==> e.logs[i].cids[k] != c)
    && (forall p :: e.consumed <= p < |e.posted| && e.posted[p].sqid == i ==> e.posted[p].cid != c)
  }

  lemma {:induction false} Executed(e: State, i: nat, c: nat)
    requires Inv(e) && i < |e.sqs| && c < |e.place[i]| && e.place[i][c] == Flight
    ensures OnlyExecuted(e, i, c)
  {
    forall k | e.logs[i].fetched <= k < |e.logs[i].cids| ensures e.logs[i].cids[k] != c {
      assert QueuedAt(e, i, k);
    }
  }

  /** With one command ID and room for two commands, the second request is marked and never submitted. */
  lemma {:induction false} CommandIdsRunOut(s: State)
    requires Initial(s) && Inv(s) && |s.sqs| == 1 && |s.sqs[0].cmd| == 1 && s.sqs[0].size == 2 && |s.status| == 2
    ensures var acts := [Submit(0, 0, 0), Mark(0, 1)];
            Run(s, acts) && After(s, acts).status[1] == SUBMITTED && After(s, acts).holder[1] == Nowhere && !Full(After(s, acts).sqs[0])
  {
    assert EmptyQueue(s.sqs[0], s.logs[0], s.devHead[0]);
    assert s.place[0][0] == Free && s.sqs[0].cmd[0].Empty?;
    var s1 := Apply(s, Submit(0, 0, 0));
    assert Enabled(s1, Mark(0, 1));
    assert [Submit(0, 0, 0), Mark(0, 1)][1..] == [Mark(0, 1)] && [Mark(0, 1)][1..] == [];
    assert Run(Apply(s1, Mark(0, 1)), []);
    assert Run(s1, [Mark(0, 1)]);
    assert After(s1, [Mark(0, 1)]) == Apply(s1, Mark(0, 1));
  }

  lemma {:induction false} Distinct(e: State, i: nat)
    requires Inv(e) && i < |e.sqs|
    ensures forall j, k :: e.logs[i].fetched <= j < k < |e.logs[i].cids| ==> e.logs[i].cids[j] != e.logs[i].cids[k]
    ensures forall p, q :: e.consumed <= p < q < |e.posted| && e.posted[p].sqid == e.posted[q].sqid ==> e.posted[p].cid != e.posted[q].cid
    ensures forall k, p :: e.logs[i].fetched <= k < |e.logs[i].cids| && e.consumed <= p < |e.posted| && e.posted[p].sqid == i ==>
              e.logs[i].cids[k] != e.posted[p].cid
  {
    forall j, k | e.logs[i].fetched <= j < k < |e.logs[i].cids| ensures e.logs[i].cids[j] != e.logs[i].cids[k] {
      assert QueuedAt(e, i, j) && QueuedAt(e, i, k);
    }
    forall k, p | e.logs[i].fetched <= k < |e.logs[i].cids| && e.consumed <= p < |e.posted| && e.posted[p].sqid == i
      ensures e.logs[i].cids[k] != e.posted[p].cid
    {
      assert QueuedAt(e, i, k);
    }
  }

  // ---- the host's code -----------------------------------------------------

  datatype Iost = Transient | Global | Ok

  /** The host's fields; view is the state of the whole, controller and history included. */
  class Queues {
    var sqs: seq<Sq>
    var cqSize: nat
    var pos: nat
    var phase: bool
    var cqBuf: seq<Cqe>
    var status: seq<nat>
    ghost var view: State

    ghost predicate Seen()
      reads this
    {
      && view.sqs == sqs && view.cqSize == cqSize && view.pos == pos && view.phase == phase && view.cqBuf == cqBuf && view.status == status
    }

    /** nvme_submit_single_command. Without a free command ID the request is left marked as submitted. */
    method SubmitSingleCommand(sqid: nat, r: nat) returns (ok: bool, ghost cid: nat)
      requires Seen() && Sized(view) && sqid < |sqs| && sqs[sqid].tail < |sqs[sqid].buf| && r < |status|
      requires view.holder[r] == Nowhere
      modifies this
      ensures Seen()
      ensures ok ==> CanSubmit(old(view), sqid, cid, r) && !Full(old(sqs[sqid]))
      ensures ok ==> view == Submitted(old(view), sqid, cid, r)
      ensures ok ==> forall c :: 0 <= c < cid ==> old(sqs[sqid]).cmd[c].Held?
      ensures !ok && Full(old(sqs[sqid])) ==> view == old(view)
      ensures !ok && !Full(old(sqs[sqid])) ==> view == Marked(old(view), r) && NoneFree(sqs[sqid])
    {
      var sq := sqs[sqid];
      var next := if sq.tail == sq.size then 0 else sq.tail + 1;
      cid := 0;
      if next == sq.head {
        return false, 0;
      }
      ghost var before := view;
      status := status[r := SUBMITTED];
      view := view.(status := status);
      for i := 0 to |sq.cmd|
        invariant Seen() && view == Marked(before, r)
        invariant forall c :: 0 <= c < i ==> sq.cmd[c].Held?
      {
        if sq.cmd[i].Empty? {
          cid := i;
          view := Submitted(before, sqid, cid, r);
          sqs := sqs[sqid := sq.(cmd := sq.cmd[i := Held(r)], buf := sq.buf[sq.tail := i], tail := next)];
          return true, cid;
        }
      }
      ok := false;
    }

    /**
     nvme_process_cqe. With a conforming controller there is no error: either there is nothing
     to consume, or the first completion that has not been consumed is.
     */
    method ProcessCqe() returns (res: Iost)
      requires Seen() && HostReady(view)
      modifies this
      ensures Seen() && res != Global
      ensures res == Transient <==> old(view).consumed == |old(view).posted|
      ensures res == Transient ==> view == old(view)
      ensures res == Ok ==> view == Consumed(old(view))
    {
      var cqe := cqBuf[pos];
      if cqe.phase != phase {
        return Transient;
      }
      if cqe.sqid >= |sqs| {
        return Global;
      }
      var sq := sqs[cqe.sqid];
      if cqe.cid >= |sq.cmd| {
        return Global;
      }
      var r := sq.cmd[cqe.cid].req;
      view := Consumed(view);
      sqs := sqs[cqe.sqid := sq.(cmd := sq.cmd[cqe.cid := Empty], head := cqe.sqhd)];
      status := status[r := 2 * cqe.status + 1];
      if pos < cqSize {
        pos := pos + 1;
      } else {
        pos := 0;
        phase := !phase;
      }
      return Ok;
    }
  }

  /** What the host relies on when it looks at the completion queue; every state of a run has it. */
  ghost predicate HostReady(s: State)
  {
    && Sized(s) && s.pos < |s.cqBuf| && s.pos <= s.cqSize && s.consumed <= |s.posted|
    && (s.cqBuf[s.pos].phase == s.phase <==> s.consumed < |s.posted|)
    && (s.consumed < |s.posted| ==> CanConsume(s, s.cqBuf[s.pos]))
  }

  lemma {:induction false} InvHostReady(s: State)
    requires Inv(s)
    ensures HostReady(s)
  {
    AtPos(s);
    if s.consumed < |s.posted| {
      ReadyToConsume(s);
    }
  }

  /** Marking a request that is in no slot. */
  lemma {:induction false} MarkKeeps(s: State, r: nat)
    requires Inv(s) && r < |s.status| && s.holder[r] == Nowhere
    ensures Inv(Marked(s, r))
  {
    var s' := Marked(s, r);
    forall i, c | 0 <= i < |s'.sqs| && 0 <= c < |s'.place[i]| ensures CidOk(s', i, c) {
      assert CidOk(s, i, c);
    }
    forall i, k | 0 <= i < |s'.sqs| && s'.logs[i].fetched <= k < |s'.logs[i].cids| ensures QueuedAt(s', i, k) {
      assert QueuedAt(s, i, k);
    }
  }
}
