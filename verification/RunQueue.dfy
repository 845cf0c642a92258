/**
 lib/sched.c: lists of runnable threads, linked through the threads themselves, and the run queue.

 A transition system: any number of agents (processors and interrupt handlers) take steps in
 any order, one memory access of shared data to a step. Threads are numbers, 0 is the null
 pointer, list 0 is the run queue's list of fresh threads. Agent 0 owns the run queue.
 */
module RunQueue {
  // ---- memory --------------------------------------------------------------

  /** The two places a tail pointer can point to. */
  datatype Link = NoLink | HeadLink | NextOf(id: nat)

  datatype Op =
    | Idle
      // sched_queue_many: list head loaded into seen; stored into the last thread
    | Push(list: nat, first: nat, last: nat, seen: nat)
    | Linked(list: nat, first: nat, last: nat, seen: nat)
      // sched_queue_list: looking for the last thread
    | Walk(dest: nat, first: nat, last: nat)
      // sched_unqueue: in the loop, before *old_tail = next, before taking the first thread
    | Reverse(oldTail: Link, done: nat, todo: nat)
    | Attach(oldTail: Link, done: nat)
    | Pop

  datatype Mem = Mem(next: seq<nat>, lists: seq<nat>, head: nat, tail: Link, ops: seq<Op>)

  datatype Action =
    | Queue(c: nat, list: nat, thread: nat)
    | Store(c: nat)
    | Cas(c: nat, spurious: bool)
    | Take(c: nat, dest: nat, src: nat)
    | Advance(c: nat)
    | Exchange
    | ReverseOne
    | AttachAll
    | PopFirst

  ghost predicate Enabled(m: Mem, act: Action, a: Abs)
  {
    0 < |m.ops| &&
    match act
    case Queue(c, l, t) => c < |m.ops| && m.ops[c].Idle? && l < |m.lists| && 0 < t < |a.place| && a.place[t] == Outside
    case Store(c) => c < |m.ops| && m.ops[c].Push?
    case Cas(c, _) => c < |m.ops| && m.ops[c].Linked?
    case Take(c, dest, src) => c < |m.ops| && m.ops[c].Idle? && dest < |m.lists| && 0 < src < |m.lists|
    case Advance(c) => c < |m.ops| && m.ops[c].Walk?
    case Exchange => m.ops[0].Idle?
    case ReverseOne => m.ops[0].Reverse?
    case AttachAll => m.ops[0].Attach?
    case PopFirst => m.ops[0].Pop?
  }

  function Put<T>(s: seq<T>, i: nat, x: T): (r: seq<T>)
    ensures |r| == |s| && forall j :: 0 <= j < |s| ==> r[j] == if j == i then x else s[j]
  {
    if i < |s| then s[i := x] else s
  }

  function Get(s: seq<nat>, i: nat): nat
  {
    if i < |s| then s[i] else 0
  }

  function OpOf(m: Mem, c: nat): Op
  {
    if c < |m.ops| then m.ops[c] else Idle
  }

  /** The memory after a step. */
  function Apply(m: Mem, act: Action): Mem
  {
    match act
    case Queue(c, l, t) => m.(ops := Put(m.ops, c, Push(l, t, t, Get(m.lists, l))))
    case Store(c) =>
      (match OpOf(m, c)
       case Push(l, first, last, seen) => m.(next := Put(m.next, last, seen), ops := Put(m.ops, c, Linked(l, first, last, seen)))
       case _ => m)
    case Cas(c, spurious) =>
      (match OpOf(m, c)
       case Linked(l, first, last, seen) =>
         if !spurious && Get(m.lists, l) == seen then m.(lists := Put(m.lists, l, first), ops := Put(m.ops, c, Idle))
         else m.(ops := Put(m.ops, c, Push(l, first, last, Get(m.lists, l))))
       case _ => m)
    case Take(c, dest, src) =>
      var h := Get(m.lists, src);
      m.(lists := Put(m.lists, src, 0), ops := Put(m.ops, c, if h == 0 then Idle else Walk(dest, h, h)))
    case Advance(c) =>
      (match OpOf(m, c)
       case Walk(dest, first, last) =>
         var n := Get(m.next, last);
         m.(ops := Put(m.ops, c, if n != 0 then Walk(dest, first, n) else Push(dest, first, last, Get(m.lists, dest))))
       case _ => m)
    case Exchange =>
      var top := Get(m.lists, 0);
      if top == 0 then m.(ops := Put(m.ops, 0, Pop))
      else
        m.(lists := Put(m.lists, 0, 0), tail := NextOf(top),
           ops := Put(m.ops, 0, Reverse(if m.tail == NoLink then HeadLink else m.tail, 0, top)))
    case ReverseOne =>
      (match OpOf(m, 0)
       case Reverse(oldTail, done, todo) =>
         var tmp := Get(m.next, todo);
         m.(next := Put(m.next, todo, done), ops := Put(m.ops, 0, if tmp != 0 then Reverse(oldTail, todo, tmp) else Attach(oldTail, todo)))
       case _ => m)
    case AttachAll =>
      (match OpOf(m, 0)
       case Attach(oldTail, done) =>
         var m' := m.(ops := Put(m.ops, 0, Pop));
         if oldTail.NextOf? then m'.(next := Put(m.next, oldTail.id, done)) else m'.(head := done)
       case _ => m)
    case PopFirst =>
      var m' := m.(ops := Put(m.ops, 0, Idle));
      if m.head == 0 then m'
      else m'.(head := Get(m.next, m.head), tail := if Get(m.next, m.head) == 0 then HeadLink else m.tail)
  }

  // ---- what the memory stands for ------------------------------------------

  /** Where a thread is. */
  datatype Place = Outside | InList(l: nat) | InQueue | Held(c: nat)

  /**
   lists[l] is the list l from its head on, queue the run queue's own list, held[c] what agent c
   has taken or is about to hand over. cut says how many of the threads being reversed are done.
   entered and gone are the threads that came into the run queue and left it, over the whole run.
   */
  datatype Abs = Abs(lists: seq<seq<nat>>, queue: seq<nat>, held: seq<seq<nat>>, place: seq<Place>, cut: nat,
                     entered: seq<nat>, gone: seq<nat>)

  function Rev(s: seq<nat>): (r: seq<nat>)
    ensures |r| == |s| && forall i :: 0 <= i < |s| ==> r[i] == s[|s| - 1 - i]
  {
    seq(|s|, i requires 0 <= i < |s| => s[|s| - 1 - i])
  }

  function Move(place: seq<Place>, s: seq<nat>, p: Place): (r: seq<Place>)
    ensures |r| == |place| && forall i :: 0 <= i < |place| ==> r[i] == if i in s then p else place[i]
  {
    seq(|place|, i requires 0 <= i < |place| => if i in s then p else place[i])
  }

  function At(s: seq<seq<nat>>, i: nat): seq<nat>
  {
    if i < |s| then s[i] else []
  }

  /** The meaning of a step. */
  function Meaning(a: Abs, m: Mem, act: Action): Abs
  {
    match act
    case Queue(c, l, t) => a.(held := Put(a.held, c, [t]), place := Move(a.place, [t], Held(c)))
    case Cas(c, spurious) =>
      (match OpOf(m, c)
       case Linked(l, first, last, seen) =>
         if !spurious && Get(m.lists, l) == seen then
           var s := At(a.held, c);
           a.(lists := Put(a.lists, l, s + At(a.lists, l)), held := Put(a.held, c, []), place := Move(a.place, s, InList(l)),
              entered := if l == 0 then a.entered + Rev(s) else a.entered)
         else a
       case _ => a)
    case Take(c, dest, src) =>
      var s := At(a.lists, src);
      a.(lists := Put(a.lists, src, []), held := Put(a.held, c, s), place := Move(a.place, s, Held(c)))
    case Exchange =>
      var s := At(a.lists, 0);
      a.(lists := Put(a.lists, 0, []), held := Put(a.held, 0, s), place := Move(a.place, s, Held(0)), cut := 0)
    case ReverseOne => a.(cut := a.cut + 1)
    case AttachAll =>
      var s := At(a.held, 0);
      a.(queue := a.queue + Rev(s), held := Put(a.held, 0, []), place := Move(a.place, s, InQueue))
    case PopFirst =>
      if a.queue == [] then a
      else a.(queue := a.queue[1..], place := Move(a.place, [a.queue[0]], Outside), gone := a.gone + [a.queue[0]])
    case _ => a
  }

  /** h is a null-terminated list of exactly the threads s. */
  ghost predicate IsList(next: seq<nat>, h: nat, s: seq<nat>)
  {
    && h == (if s == [] then 0 else s[0])
    && (forall i :: 0 <= i < |s| ==> 0 < s[i] < |next|)
    && (forall i {:trigger next[s[i]]} :: 0 <= i < |s| ==> next[s[i]] == if i + 1 < |s| then s[i + 1] else 0)
  }

  /** s is linked from its first to its last thread. */
  ghost predicate IsChain(next: seq<nat>, first: nat, last: nat, s: seq<nat>)
  {
    && s != [] && first == s[0] && last == s[|s| - 1]
    && (forall i :: 0 <= i < |s| ==> 0 < s[i] < |next|)
    && (forall i {:trigger next[s[i]]} :: 0 <= i < |s| - 1 ==> next[s[i]] == s[i + 1])
  }

  /** s is, without repetition, the threads that are at p. */
  ghost predicate Holds(place: seq<Place>, s: seq<nat>, p: Place)
  {
    && (forall i, j :: 0 <= i < j < |s| ==> s[i] != s[j])
    && (forall i :: 0 <= i < |s| ==> 0 < s[i] < |place| && place[s[i]] == p)
    && (forall x :: 0 <= x < |place| && place[x] == p ==> x in s)
  }

  ghost predicate GoodTail(tail: Link, queue: seq<nat>)
  {
    if queue == [] then tail == NoLink || tail == HeadLink else tail == NextOf(queue[|queue| - 1])
  }

  ghost predicate OpOk(m: Mem, a: Abs, c: nat)
    requires c < |m.ops| && c < |a.held|
  {
    var s := a.held[c];
    match m.ops[c]
    case Idle => s == []
    case Push(l, first, last, _) => l < |m.lists| && IsChain(m.next, first, last, s)
    case Linked(l, first, last, seen) => l < |m.lists| && IsChain(m.next, first, last, s) && m.next[last] == seen
    case Walk(dest, first, last) => dest < |m.lists| && s != [] && IsList(m.next, first, s) && last in s
    case Reverse(oldTail, done, todo) =>
      && c == 0 && a.cut < |s| && IsList(m.next, done, Rev(s[..a.cut])) && IsList(m.next, todo, s[a.cut..])
      && oldTail != NoLink && GoodTail(oldTail, a.queue) && m.tail == NextOf(s[0])
    case Attach(oldTail, done) =>
      && c == 0 && s != [] && IsList(m.next, done, Rev(s)) && oldTail != NoLink && GoodTail(oldTail, a.queue) && m.tail == NextOf(s[0])
    case Pop => c == 0 && s == []
  }

  /** What agent 0 holds on its way into the queue, in the order it will get there. */
  ghost function Moving(m: Mem, a: Abs): seq<nat>
    requires 0 < |m.ops| == |a.held|
  {
    if m.ops[0].Reverse? || m.ops[0].Attach? then Rev(a.held[0]) else []
  }

  ghost predicate Sizes(m: Mem, a: Abs)
  {
    |m.next| == |a.place| && 0 < |m.lists| == |a.lists| && 0 < |m.ops| == |a.held|
  }

  ghost predicate ListsOk(m: Mem, a: Abs)
    requires Sizes(m, a)
  {
    forall l :: 0 <= l < |m.lists| ==> IsList(m.next, m.lists[l], a.lists[l]) && Holds(a.place, a.lists[l], InList(l))
  }

  ghost predicate OpsOk(m: Mem, a: Abs)
    requires Sizes(m, a)
  {
    forall c :: 0 <= c < |m.ops| ==> OpOk(m, a, c) && Holds(a.place, a.held[c], Held(c))
  }

  ghost predicate QueueOk(m: Mem, a: Abs)
    requires Sizes(m, a)
  {
    && IsList(m.next, m.head, a.queue) && Holds(a.place, a.queue, InQueue)
    && (m.ops[0].Reverse? || m.ops[0].Attach? || GoodTail(m.tail, a.queue))
  }

  /** The threads that came in are those that left, then those in the queue, then the fresh ones, latest last. */
  ghost predicate Fifo(m: Mem, a: Abs)
    requires Sizes(m, a)
  {
    a.entered == a.gone + a.queue + Moving(m, a) + Rev(a.lists[0])
  }

  ghost predicate Inv(m: Mem, a: Abs)
  {
    Sizes(m, a) && ListsOk(m, a) && OpsOk(m, a) && QueueOk(m, a) && Fifo(m, a)
  }

  // ---- frames --------------------------------------------------------------

  ghost predicate SameOn(next: seq<nat>, next': seq<nat>, s: seq<nat>)
  {
    |next| == |next'| && forall x :: 0 <= x < |next| && x in s ==> next'[x] == next[x]
  }

  lemma {:induction false} PutSame(next: seq<nat>, x: nat, v: nat, place: seq<Place>, s: seq<nat>, p: Place)
    requires |next| == |place| && x < |place| && place[x] != p && Holds(place, s, p)
    ensures SameOn(next, Put(next, x, v), s)
  {
  }

  lemma {:induction false} ListSame(next: seq<nat>, next': seq<nat>, h: nat, s: seq<nat>)
    requires IsList(next, h, s) && SameOn(next, next', s)
    ensures IsList(next', h, s)
  {
  }

  lemma {:induction false} ChainSame(next: seq<nat>, next': seq<nat>, first: nat, last: nat, s: seq<nat>)
    requires IsChain(next, first, last, s) && SameOn(next, next', s)
    ensures IsChain(next', first, last, s) && next'[last] == next[last]
  {
  }

  /** What an agent is doing stays in order when its threads, and for agent 0 the queue, stay as they are. */
  lemma {:induction false} OpSame(m: Mem, a: Abs, m': Mem, a': Abs, c: nat)
    requires c < |m.ops| == |m'.ops| && c < |a.held| == |a'.held| && OpOk(m, a, c)
    requires m'.ops[c] == m.ops[c] && a'.held[c] == a.held[c] && SameOn(m.next, m'.next, a.held[c])
    requires |m.lists| == |m'.lists|
    requires c == 0 ==> a'.queue == a.queue && a'.cut == a.cut && m'.tail == m.tail
    ensures OpOk(m', a', c)
  {
    var s := a.held[c];
    match m.ops[c]
    case Idle =>
    case Pop =>
    case Push(l, first, last, _) => ChainSame(m.next, m'.next, first, last, s);
    case Linked(l, first, last, seen) => ChainSame(m.next, m'.next, first, last, s);
    case Walk(dest, first, last) => ListSame(m.next, m'.next, first, s);
    case Reverse(_, done, todo) =>
      ListSame(m.next, m'.next, done, Rev(s[..a.cut]));
      ListSame(m.next, m'.next, todo, s[a.cut..]);
    case Attach(_, done) => ListSame(m.next, m'.next, done, Rev(s));
  }

  lemma {:induction false} HoldsOther(place: seq<Place>, s: seq<nat>, p: Place, t: seq<nat>, q: Place, r: Place)
    requires Holds(place, s, p) && Holds(place, t, q) && p != q && p != r
    ensures Holds(Move(place, t, r), s, p)
  {
  }

  lemma {:induction false} HoldsJoined(place: seq<Place>, s: seq<nat>, p: Place, t: seq<nat>, q: Place, u: seq<nat>)
    requires Holds(place, s, p) && Holds(place, t, q) && p != q
    requires u == s + t || u == t + Rev(s)
    ensures Holds(Move(place, s, q), u, q)
  {
    RevMembers(s);
  }

  lemma {:induction false} RevMembers(s: seq<nat>)
    ensures forall x :: x in s <==> x in Rev(s)
  {
    forall x | x in s ensures x in Rev(s) {
      var i :| 0 <= i < |s| && s[i] == x;
      assert Rev(s)[|s| - 1 - i] == x;
    }
  }

  lemma {:induction false} HoldsLeft(place: seq<Place>, s: seq<nat>, p: Place, q: Place)
    requires Holds(place, s, p) && p != q
    ensures Holds(Move(place, s, q), [], p)
  {
  }

  /** Handing s over from p to q changes what nobody else holds. */
  lemma {:induction false} OthersKeep(m: Mem, a: Abs, s: seq<nat>, p: Place, q: Place, place': seq<Place>)
    requires Sizes(m, a) && ListsOk(m, a) && OpsOk(m, a) && Holds(a.place, a.queue, InQueue)
    requires Holds(a.place, s, p) && p != q && place' == Move(a.place, s, q)
    ensures forall l :: 0 <= l < |m.lists| && p != InList(l) && q != InList(l) ==> Holds(place', a.lists[l], InList(l))
    ensures forall c :: 0 <= c < |m.ops| && p != Held(c) && q != Held(c) ==> Holds(place', a.held[c], Held(c))
    ensures p != InQueue && q != InQueue ==> Holds(place', a.queue, InQueue)
  {
    forall l | 0 <= l < |m.lists| && p != InList(l) && q != InList(l) ensures Holds(place', a.lists[l], InList(l)) {
      HoldsOther(a.place, a.lists[l], InList(l), s, p, q);
    }
    forall c | 0 <= c < |m.ops| && p != Held(c) && q != Held(c) ensures Holds(place', a.held[c], Held(c)) {
      HoldsOther(a.place, a.held[c], Held(c), s, p, q);
    }
    if p != InQueue && q != InQueue {
      HoldsOther(a.place, a.queue, InQueue, s, p, q);
    }
  }

  /** Agents other than c go on undisturbed when c writes to its own threads. */
  lemma {:induction false} OthersGoOn(m: Mem, a: Abs, m': Mem, a': Abs, c: nat)
    requires Sizes(m, a) && Sizes(m', a') && OpsOk(m, a) && |m.ops| == |m'.ops| && |m.lists| == |m'.lists|
    requires forall d :: 0 <= d < |m.ops| && d != c ==> m'.ops[d] == m.ops[d] && a'.held[d] == a.held[d] && SameOn(m.next, m'.next, a.held[d])
    requires c != 0 ==> a'.queue == a.queue && a'.cut == a.cut && m'.tail == m.tail
    ensures forall d :: 0 <= d < |m.ops| && d != c ==> OpOk(m', a', d)
  {
    forall d | 0 <= d < |m.ops| && d != c ensures OpOk(m', a', d) {
      OpSame(m, a, m', a', d);
    }
  }

  // ---- every step keeps the invariant --------------------------------------

  lemma {:induction false} RevConcat(s: seq<nat>, t: seq<nat>)
    ensures Rev(s + t) == Rev(t) + Rev(s)
  {
  }

  ghost predicate Shape(m: Mem, a: Abs)
  {
    Sizes(m, a) && ListsOk(m, a) && OpsOk(m, a) && QueueOk(m, a)
  }

  /** Everyone's threads are where place says. */
  ghost predicate AllHold(a: Abs)
  {
    && (forall l :: 0 <= l < |a.lists| ==> Holds(a.place, a.lists[l], InList(l)))
    && (forall c :: 0 <= c < |a.held| ==> Holds(a.place, a.held[c], Held(c)))
    && Holds(a.place, a.queue, InQueue)
  }

  lemma {:induction false} HoldsNew(place: seq<Place>, s: seq<nat>, p: Place, t: nat, q: Place)
    requires Holds(place, s, p) && t < |place| && place[t] == Outside && p != Outside && p != q
    ensures Holds(Move(place, [t], q), s, p)
  {
  }

  lemma {:induction false} QueueHolds(a: Abs, a': Abs, c: nat, t: nat)
    requires AllHold(a) && c < |a.held| && a.held[c] == [] && 0 < t < |a.place| && a.place[t] == Outside
    requires a' == a.(held := Put(a.held, c, [t]), place := Move(a.place, [t], Held(c)))
    ensures AllHold(a')
  {
    forall l | 0 <= l < |a.lists| ensures Holds(a'.place, a'.lists[l], InList(l)) {
      HoldsNew(a.place, a.lists[l], InList(l), t, Held(c));
    }
    forall d | 0 <= d < |a.held| ensures Holds(a'.place, a'.held[d], Held(d)) {
      if d != c {
        HoldsNew(a.place, a.held[d], Held(d), t, Held(c));
      } else {
        assert Holds(a.place, a.held[c], Held(c));
      }
    }
    HoldsNew(a.place, a.queue, InQueue, t, Held(c));
  }

  lemma {:induction false} QueueShape(m: Mem, a: Abs, m': Mem, a': Abs, c: nat, l: nat, t: nat)
    requires Shape(m, a) && c < |m.ops| && m.ops[c].Idle? && l < |m.lists| && 0 < t < |a.place| && a.place[t] == Outside
    requires m' == m.(ops := Put(m.ops, c, Push(l, t, t, m.lists[l])))
    requires a' == a.(held := Put(a.held, c, [t]), place := Move(a.place, [t], Held(c)))
    ensures Shape(m', a')
  {
    assert OpOk(m, a, c) && Holds(a.place, a.held[c], Held(c));
    QueueHolds(a, a', c, t);
    OthersGoOn(m, a, m', a', c);
  }

  /** A write to the next pointer of a thread that c holds. */
  lemma {:induction false} OwnWrite(m: Mem, a: Abs, m': Mem, x: nat, v: nat, c: nat)
    requires Sizes(m, a) && Sizes(m', a) && ListsOk(m, a) && OpsOk(m, a) && x < |a.place| && a.place[x] == Held(c)
    requires c < |m.ops|
    requires IsList(m.next, m.head, a.queue) && Holds(a.place, a.queue, InQueue)
    requires m'.next == Put(m.next, x, v) && m'.lists == m.lists && m'.tail == m.tail && m'.head == m.head
    requires |m'.ops| == |m.ops| && forall d :: 0 <= d < |m.ops| && d != c ==> m'.ops[d] == m.ops[d]
    ensures ListsOk(m', a) && IsList(m'.next, m'.head, a.queue)
    ensures forall d :: 0 <= d < |m.ops| && d != c ==> OpOk(m', a, d)
  {
    forall l | 0 <= l < |m.lists| ensures IsList(m'.next, m'.lists[l], a.lists[l]) {
      PutSame(m.next, x, v, a.place, a.lists[l], InList(l));
      ListSame(m.next, m'.next, m.lists[l], a.lists[l]);
    }
    forall d | 0 <= d < |m.ops| && d != c ensures SameOn(m.next, m'.next, a.held[d]) {
      PutSame(m.next, x, v, a.place, a.held[d], Held(d));
    }
    OthersGoOn(m, a, m', a, c);
    PutSame(m.next, x, v, a.place, a.queue, InQueue);
    ListSame(m.next, m'.next, m.head, a.queue);
  }

  lemma {:induction false} StoreShape(m: Mem, a: Abs, m': Mem, c: nat)
    requires Shape(m, a) && c < |m.ops| && m.ops[c].Push?
    requires var op := m.ops[c];
             m' == m.(next := Put(m.next, op.last, op.seen), ops := Put(m.ops, c, Linked(op.list, op.first, op.last, op.seen)))
    ensures Shape(m', a)
  {
    var s := a.held[c];
    assert OpOk(m, a, c) && Holds(a.place, s, Held(c));
    assert s[|s| - 1] == m.ops[c].last;
    OwnWrite(m, a, m', m.ops[c].last, m.ops[c].seen, c);
  }

  lemma {:induction false} AdvanceShape(m: Mem, a: Abs, m': Mem, c: nat)
    requires Shape(m, a) && c < |m.ops| && m.ops[c].Walk?
    requires var op, n := m.ops[c], Get(m.next, m.ops[c].last);
             m' == m.(ops := Put(m.ops, c, if n != 0 then Walk(op.dest, op.first, n) else Push(op.dest, op.first, op.last, Get(m.lists, op.dest))))
    ensures Shape(m', a)
  {
    var s := a.held[c];
    assert OpOk(m, a, c) && Holds(a.place, s, Held(c));
    OthersGoOn(m, a, m', a, c);
    var i :| 0 <= i < |s| && s[i] == m.ops[c].last;
    assert m.next[s[i]] == if i + 1 < |s| then s[i + 1] else 0;
  }

  lemma {:induction false} ChainOntoList(next: seq<nat>, first: nat, last: nat, s: seq<nat>, h: nat, t: seq<nat>)
    requires IsChain(next, first, last, s) && IsList(next, h, t) && next[last] == h
    ensures IsList(next, first, s + t)
  {
    var u := s + t;
    forall i | 0 <= i < |u| ensures next[u[i]] == if i + 1 < |u| then u[i + 1] else 0 {
      if i < |s| {
        assert next[s[i]] == next[u[i]];
      } else {
        assert next[t[i - |s|]] == next[u[i]];
      }
    }
  }

  lemma {:induction false} CasShape(m: Mem, a: Abs, m': Mem, a': Abs, c: nat)
    requires Shape(m, a) && c < |m.ops| && m.ops[c].Linked? && Get(m.lists, m.ops[c].list) == m.ops[c].seen
    requires m' == m.(lists := Put(m.lists, m.ops[c].list, m.ops[c].first), ops := Put(m.ops, c, Idle))
    requires a'.lists == Put(a.lists, m.ops[c].list, a.held[c] + At(a.lists, m.ops[c].list))
    requires a'.held == Put(a.held, c, [])
    requires a'.place == Move(a.place, a.held[c], InList(m.ops[c].list)) && a'.queue == a.queue && a'.cut == a.cut
    ensures Shape(m', a')
  {
    var s, op := a.held[c], m.ops[c];
    assert OpOk(m, a, c) && Holds(a.place, s, Held(c));
    var l, t := op.list, a.lists[op.list];
    assert IsList(m.next, m.lists[l], t) && Holds(a.place, t, InList(l));
    OthersGoOn(m, a, m', a', c);
    ChainOntoList(m.next, op.first, op.last, s, op.seen, t);
    HoldsJoined(a.place, s, Held(c), t, InList(l), s + t);
    HoldsLeft(a.place, s, Held(c), InList(l));
    OthersKeep(m, a, s, Held(c), InList(l), a'.place);
  }

  /** A compare-and-exchange that fails has loaded the head again. */
  lemma {:induction false} RetryShape(m: Mem, a: Abs, m': Mem, c: nat)
    requires Shape(m, a) && c < |m.ops| && m.ops[c].Linked?
    requires var op := m.ops[c];
             m' == m.(ops := Put(m.ops, c, Push(op.list, op.first, op.last, Get(m.lists, op.list))))
    ensures Shape(m', a)
  {
    assert OpOk(m, a, c) && Holds(a.place, a.held[c], Held(c));
    OthersGoOn(m, a, m', a, c);
  }

  lemma {:induction false} TakeHolds(a: Abs, a': Abs, c: nat, src: nat)
    requires AllHold(a) && c < |a.held| && a.held[c] == [] && src < |a.lists|
    requires a'.lists == Put(a.lists, src, []) && a'.held == Put(a.held, c, a.lists[src]) && a'.queue == a.queue
    requires a'.place == Move(a.place, a.lists[src], Held(c))
    ensures AllHold(a')
  {
    var s := a.lists[src];
    assert Holds(a.place, a.held[c], Held(c));
    HoldsJoined(a.place, s, InList(src), [], Held(c), s + []);
    assert s + [] == s;
    HoldsLeft(a.place, s, InList(src), Held(c));
    forall l | 0 <= l < |a.lists| && l != src ensures Holds(a'.place, a'.lists[l], InList(l)) {
      HoldsOther(a.place, a.lists[l], InList(l), s, InList(src), Held(c));
    }
    forall d | 0 <= d < |a.held| && d != c ensures Holds(a'.place, a'.held[d], Held(d)) {
      HoldsOther(a.place, a.held[d], Held(d), s, InList(src), Held(c));
    }
    HoldsOther(a.place, a.queue, InQueue, s, InList(src), Held(c));
  }

  lemma {:induction false} TakeShape(m: Mem, a: Abs, m': Mem, a': Abs, c: nat, dest: nat, src: nat)
    requires Shape(m, a) && c < |m.ops| && m.ops[c].Idle? && dest < |m.lists| && 0 < src < |m.lists|
    requires m' == m.(lists := Put(m.lists, src, 0), ops := Put(m.ops, c, if m.lists[src] == 0 then Idle else Walk(dest, m.lists[src], m.lists[src])))
    requires a' == a.(lists := Put(a.lists, src, []), held := Put(a.held, c, a.lists[src]), place := Move(a.place, a.lists[src], Held(c)))
    ensures Shape(m', a')
  {
    assert OpOk(m, a, c);
    assert IsList(m.next, m.lists[src], a.lists[src]);
    TakeHolds(a, a', c, src);
    OthersGoOn(m, a, m', a', c);
  }

  lemma {:induction false} ExchangeShape(m: Mem, a: Abs, m': Mem, a': Abs)
    requires Shape(m, a) && m.ops[0].Idle? && m.lists[0] != 0
    requires m' == m.(lists := Put(m.lists, 0, 0), tail := NextOf(m.lists[0]),
                      ops := Put(m.ops, 0, Reverse(if m.tail == NoLink then HeadLink else m.tail, 0, m.lists[0])))
    requires a' == a.(lists := Put(a.lists, 0, []), held := Put(a.held, 0, a.lists[0]), place := Move(a.place, a.lists[0], Held(0)), cut := 0)
    ensures Shape(m', a')
  {
    var s := a.lists[0];
    assert OpOk(m, a, 0);
    assert IsList(m.next, m.lists[0], s);
    assert s[0..] == s && Rev(s[..0]) == [];
    TakeHolds(a, a', 0, 0);
    OthersGoOn(m, a, m', a', 0);
  }

  /** Agent 0 goes on to, or is done with, a step of sched_unqueue that holds no threads. */
  lemma {:induction false} OwnerRests(m: Mem, a: Abs, m': Mem, a': Abs, op: Op)
    requires Shape(m, a) && (m.ops[0].Idle? || m.ops[0].Pop?) && (op.Idle? || op.Pop?)
    requires m' == m.(ops := Put(m.ops, 0, op))
    requires a'.lists == a.lists && a'.held == a.held && a'.queue == a.queue && a'.place == a.place
    ensures Shape(m', a')
  {
    assert OpOk(m, a, 0);
    OthersGoOn(m, a, m', a', 0);
  }

  lemma {:induction false} EmptyExchangeShape(m: Mem, a: Abs, m': Mem, a': Abs)
    requires Shape(m, a) && m.ops[0].Idle? && m.lists[0] == 0
    requires m' == m.(ops := Put(m.ops, 0, Pop))
    requires a' == a.(lists := Put(a.lists, 0, []), held := Put(a.held, 0, a.lists[0]), place := Move(a.place, a.lists[0], Held(0)), cut := 0)
    ensures Shape(m', a')
  {
    assert IsList(m.next, m.lists[0], a.lists[0]) && OpOk(m, a, 0);
    assert a.lists[0] == [] && a'.lists == a.lists && a'.held == a.held && a'.place == a.place;
    OwnerRests(m, a, m', a', Pop);
  }

  /** One thread moves from the front of what is left to the front of what is reversed. */
  lemma {:induction false} ReverseLists(next: seq<nat>, s: seq<nat>, k: nat, done: nat, todo: nat)
    requires k < |s| && IsList(next, done, Rev(s[..k])) && IsList(next, todo, s[k..])
    requires forall i, j :: 0 <= i < j < |s| ==> s[i] != s[j]
    ensures IsList(Put(next, todo, done), todo, Rev(s[..k + 1]))
    ensures k + 1 < |s| ==> IsList(Put(next, todo, done), s[k + 1], s[k + 1..])
    ensures todo == s[k] && Get(next, todo) == if k + 1 < |s| then s[k + 1] else 0
  {
    var rest, next' := s[k..], Put(next, todo, done);
    assert next[rest[0]] == if 1 < |rest| then rest[1] else 0;
    var d, d' := Rev(s[..k]), Rev(s[..k + 1]);
    assert d' == [s[k]] + d;
    assert IsList(next', done, d) by {
      assert forall i :: 0 <= i < |d| ==> d[i] == s[k - 1 - i];
      ListSame(next, next', done, d);
    }
    forall i | 0 <= i < |d'| ensures next'[d'[i]] == if i + 1 < |d'| then d'[i + 1] else 0 {
      if i > 0 {
        assert next'[d[i - 1]] == next'[d'[i]];
      }
    }
    if k + 1 < |s| {
      var tail := s[k + 1..];
      forall i | 0 <= i < |tail| ensures next'[tail[i]] == if i + 1 < |tail| then tail[i + 1] else 0 {
        assert next[rest[i + 1]] == next[tail[i]];
      }
    }
  }

  lemma {:induction false} ReverseShape(m: Mem, a: Abs, m': Mem, a': Abs)
    requires Shape(m, a) && m.ops[0].Reverse?
    requires var op, tmp := m.ops[0], Get(m.next, m.ops[0].todo);
             m' == m.(next := Put(m.next, op.todo, op.done), ops := Put(m.ops, 0, if tmp != 0 then Reverse(op.oldTail, op.todo, tmp) else Attach(op.oldTail, op.todo)))
    requires a' == a.(cut := a.cut + 1)
    ensures Shape(m', a')
  {
    assert OpOk(m, a, 0) && Holds(a.place, a.held[0], Held(0));
    ReverseOwn(m, a, m', a');
    assert a.held[0][a.cut..][0] == m.ops[0].todo;
    OwnWrite(m, a, m', m.ops[0].todo, m.ops[0].done, 0);
    forall d | 0 < d < |m.ops| ensures OpOk(m', a', d) {
      OpSame(m', a, m', a', d);
    }
  }

  lemma {:induction false} ReverseOwn(m: Mem, a: Abs, m': Mem, a': Abs)
    requires Sizes(m, a) && Sizes(m', a') && m.ops[0].Reverse? && OpOk(m, a, 0) && Holds(a.place, a.held[0], Held(0))
    requires var op, tmp := m.ops[0], Get(m.next, m.ops[0].todo);
             m' == m.(next := Put(m.next, op.todo, op.done), ops := Put(m.ops, 0, if tmp != 0 then Reverse(op.oldTail, op.todo, tmp) else Attach(op.oldTail, op.todo)))
    requires a' == a.(cut := a.cut + 1)
    ensures OpOk(m', a', 0)
  {
    var s, op := a.held[0], m.ops[0];
    ReverseLists(m.next, s, a.cut, op.done, op.todo);
    assert a.cut + 1 == |s| ==> s[..a.cut + 1] == s;
  }

  lemma {:induction false} AttachLists(next: seq<nat>, head: nat, q: seq<nat>, done: nat, r: seq<nat>)
    requires q != [] && r != [] && IsList(next, head, q) && IsList(next, done, r)
    requires forall i, j :: 0 <= i < j < |q| ==> q[i] != q[j]
    requires forall i, j :: 0 <= i < |q| && 0 <= j < |r| ==> q[i] != r[j]
    ensures IsList(Put(next, q[|q| - 1], done), head, q + r)
  {
    var next', u := Put(next, q[|q| - 1], done), q + r;
    forall i | 0 <= i < |u| ensures next'[u[i]] == if i + 1 < |u| then u[i + 1] else 0 {
      if i < |q| {
        assert next[q[i]] == next[u[i]];
      } else {
        assert next[r[i - |q|]] == next[u[i]];
      }
    }
  }

  lemma {:induction false} AttachHolds(a: Abs, a': Abs)
    requires AllHold(a) && 0 < |a.held|
    requires a' == a.(queue := a.queue + Rev(a.held[0]), held := Put(a.held, 0, []), place := Move(a.place, a.held[0], InQueue))
    ensures AllHold(a')
  {
    var s := a.held[0];
    HoldsJoined(a.place, s, Held(0), a.queue, InQueue, a.queue + Rev(s));
    HoldsLeft(a.place, s, Held(0), InQueue);
    forall l | 0 <= l < |a.lists| ensures Holds(a'.place, a'.lists[l], InList(l)) {
      HoldsOther(a.place, a.lists[l], InList(l), s, Held(0), InQueue);
    }
    forall d | 0 < d < |a.held| ensures Holds(a'.place, a'.held[d], Held(d)) {
      HoldsOther(a.place, a.held[d], Held(d), s, Held(0), InQueue);
    }
  }

  /** The write to *old_tail, as it concerns everyone but the run queue. */
  lemma {:induction false} AttachFrame(m: Mem, a: Abs, m': Mem, a': Abs)
    requires Shape(m, a) && Sizes(m', a') && m.ops[0].Attach? && |m'.ops| == |m.ops| && m'.lists == m.lists
    requires a'.lists == a.lists
    requires a.queue == [] ==> m'.next == m.next
    requires a.queue != [] ==> m'.next == Put(m.next, a.queue[|a.queue| - 1], m.ops[0].done)
    requires forall d :: 0 < d < |m.ops| ==> m'.ops[d] == m.ops[d] && a'.held[d] == a.held[d]
    ensures forall d :: 0 < d < |m.ops| ==> OpOk(m', a', d)
    ensures forall l :: 0 <= l < |m.lists| ==> IsList(m'.next, m'.lists[l], a'.lists[l])
  {
    assert Holds(a.place, a.queue, InQueue);
    forall d | 0 < d < |m.ops| ensures SameOn(m.next, m'.next, a.held[d]) {
      if a.queue != [] {
        PutSame(m.next, a.queue[|a.queue| - 1], m.ops[0].done, a.place, a.held[d], Held(d));
      }
    }
    OthersGoOn(m, a, m', a', 0);
    forall l | 0 <= l < |m.lists| ensures IsList(m'.next, m'.lists[l], a'.lists[l]) {
      if a.queue != [] {
        PutSame(m.next, a.queue[|a.queue| - 1], m.ops[0].done, a.place, a.lists[l], InList(l));
        ListSame(m.next, m'.next, m.lists[l], a.lists[l]);
      }
    }
  }

  lemma {:induction false} AttachShape(m: Mem, a: Abs, m': Mem, a': Abs)
    requires Shape(m, a) && m.ops[0].Attach?
    requires var op, m1 := m.ops[0], m.(ops := Put(m.ops, 0, Pop));
             m' == if op.oldTail.NextOf? then m1.(next := Put(m.next, op.oldTail.id, op.done)) else m1.(head := op.done)
    requires a' == a.(queue := a.queue + Rev(a.held[0]), held := Put(a.held, 0, []), place := Move(a.place, a.held[0], InQueue))
    ensures Shape(m', a')
  {
    assert OpOk(m, a, 0) && Holds(a.place, a.held[0], Held(0));
    AttachQueue(m.next, m.head, a.queue, m.ops[0].oldTail, m.ops[0].done, a.held[0], a.place);
    AttachParts(m, a, m', a');
  }

  lemma {:induction false} AttachParts(m: Mem, a: Abs, m': Mem, a': Abs)
    requires Shape(m, a) && m.ops[0].Attach? && m'.ops == Put(m.ops, 0, Pop) && m'.lists == m.lists
    requires |m'.next| == |m.next|
    requires a.queue == [] ==> m'.next == m.next
    requires a.queue != [] ==> m'.next == Put(m.next, a.queue[|a.queue| - 1], m.ops[0].done)
    requires a' == a.(queue := a.queue + Rev(a.held[0]), held := Put(a.held, 0, []), place := Move(a.place, a.held[0], InQueue))
    requires IsList(m'.next, m'.head, a'.queue) && GoodTail(m'.tail, a'.queue)
    ensures Shape(m', a')
  {
    AttachHolds(a, a');
    AttachFrame(m, a, m', a');
    assert ListsOk(m', a');
    assert OpOk(m', a', 0);
  }

  /** The write to *old_tail, as it concerns the run queue. */
  lemma {:induction false} AttachQueue(next: seq<nat>, head: nat, q: seq<nat>, oldTail: Link, done: nat, s: seq<nat>,
                                       place: seq<Place>)
    requires s != [] && IsList(next, head, q) && IsList(next, done, Rev(s)) && oldTail != NoLink && GoodTail(oldTail, q)
    requires Holds(place, s, Held(0)) && Holds(place, q, InQueue)
    ensures oldTail.NextOf? <==> q != []
    ensures oldTail.NextOf? ==> IsList(Put(next, oldTail.id, done), head, q + Rev(s))
    ensures !oldTail.NextOf? ==> IsList(next, done, q + Rev(s))
    ensures GoodTail(NextOf(s[0]), q + Rev(s))
  {
    if q == [] {
      assert q + Rev(s) == Rev(s);
    } else {
      RevMembers(s);
      AttachLists(next, head, q, done, Rev(s));
    }
  }

  lemma {:induction false} PopShape(m: Mem, a: Abs, m': Mem, a': Abs)
    requires Shape(m, a) && m.ops[0].Pop? && m.head != 0 && a.queue != []
    requires m' == m.(ops := Put(m.ops, 0, Idle), head := Get(m.next, m.head), tail := if Get(m.next, m.head) == 0 then HeadLink else m.tail)
    requires a'.queue == a.queue[1..] && a'.place == Move(a.place, [a.queue[0]], Outside) && a'.lists == a.lists
    requires a'.held == a.held
    ensures Shape(m', a')
  {
    var q := a.queue;
    assert OpOk(m, a, 0);
    PopHolds(a, a');
    OthersGoOn(m, a, m', a', 0);
    PopList(m.next, m.head, q);
  }

  lemma {:induction false} PopList(next: seq<nat>, head: nat, q: seq<nat>)
    requires q != [] && IsList(next, head, q)
    ensures IsList(next, Get(next, head), q[1..])
  {
    var r := q[1..];
    assert next[q[0]] == if 1 < |q| then q[1] else 0;
    forall i | 0 <= i < |r| ensures next[r[i]] == if i + 1 < |r| then r[i + 1] else 0 {
      assert next[q[i + 1]] == next[r[i]];
    }
  }

  lemma {:induction false} PopHolds(a: Abs, a': Abs)
    requires AllHold(a) && a.queue != []
    requires a'.queue == a.queue[1..] && a'.place == Move(a.place, [a.queue[0]], Outside) && a'.lists == a.lists
    requires a'.held == a.held
    ensures AllHold(a')
  {
    forall l | 0 <= l < |a.lists| ensures Holds(a'.place, a'.lists[l], InList(l)) {
      assert Holds(a.place, a.lists[l], InList(l));
    }
    forall d | 0 <= d < |a.held| ensures Holds(a'.place, a'.held[d], Held(d)) {
      assert Holds(a.place, a.held[d], Held(d));
    }
    assert Holds(a'.place, a'.queue, InQueue);
  }

  // ---- all runs ------------------------------------------------------------

  /** A run queue with nothing in it, lists without threads, all threads running somewhere. */
  ghost predicate Initial(m: Mem, a: Abs)
  {
    && Sizes(m, a) && m.head == 0 && GoodTail(m.tail, []) && a.queue == [] && a.entered == [] && a.gone == []
    && (forall l :: 0 <= l < |m.lists| ==> m.lists[l] == 0 && a.lists[l] == [])
    && (forall c :: 0 <= c < |m.ops| ==> m.ops[c].Idle? && a.held[c] == [])
    && (forall x :: 0 <= x < |a.place| ==> a.place[x] == Outside)
  }

  lemma {:induction false} QueueKept(m: Mem, a: Abs, c: nat, l: nat, t: nat)
    requires Shape(m, a) && Enabled(m, Queue(c, l, t), a)
    ensures Shape(Apply(m, Queue(c, l, t)), Meaning(a, m, Queue(c, l, t)))
  {
    QueueShape(m, a, Apply(m, Queue(c, l, t)), Meaning(a, m, Queue(c, l, t)), c, l, t);
  }

  lemma {:induction false} StoreKept(m: Mem, a: Abs, c: nat)
    requires Shape(m, a) && Enabled(m, Store(c), a)
    ensures Shape(Apply(m, Store(c)), Meaning(a, m, Store(c)))
  {
    StoreShape(m, a, Apply(m, Store(c)), c);
  }

  lemma {:induction false} CasKept(m: Mem, a: Abs, c: nat, spurious: bool)
    requires Shape(m, a) && Enabled(m, Cas(c, spurious), a)
    ensures Shape(Apply(m, Cas(c, spurious)), Meaning(a, m, Cas(c, spurious)))
  {
    var m', a' := Apply(m, Cas(c, spurious)), Meaning(a, m, Cas(c, spurious));
    if !spurious && Get(m.lists, m.ops[c].list) == m.ops[c].seen {
      CasShape(m, a, m', a', c);
    } else {
      RetryShape(m, a, m', c);
    }
  }

  lemma {:induction false} TakeKept(m: Mem, a: Abs, c: nat, dest: nat, src: nat)
    requires Shape(m, a) && Enabled(m, Take(c, dest, src), a)
    ensures Shape(Apply(m, Take(c, dest, src)), Meaning(a, m, Take(c, dest, src)))
  {
    TakeShape(m, a, Apply(m, Take(c, dest, src)), Meaning(a, m, Take(c, dest, src)), c, dest, src);
  }

  lemma {:induction false} AdvanceKept(m: Mem, a: Abs, c: nat)
    requires Shape(m, a) && Enabled(m, Advance(c), a)
    ensures Shape(Apply(m, Advance(c)), Meaning(a, m, Advance(c)))
  {
    AdvanceShape(m, a, Apply(m, Advance(c)), c);
  }

  lemma {:induction false} ExchangeKept(m: Mem, a: Abs)
    requires Shape(m, a) && Enabled(m, Exchange, a)
    ensures Shape(Apply(m, Exchange), Meaning(a, m, Exchange))
  {
    if m.lists[0] != 0 {
      ExchangeShape(m, a, Apply(m, Exchange), Meaning(a, m, Exchange));
    } else {
      EmptyExchangeShape(m, a, Apply(m, Exchange), Meaning(a, m, Exchange));
    }
  }

  lemma {:induction false} UnqueueKept(m: Mem, a: Abs, act: Action)
    requires Shape(m, a) && Enabled(m, act, a) && (act.ReverseOne? || act.AttachAll?)
    ensures Shape(Apply(m, act), Meaning(a, m, act))
  {
    if act.ReverseOne? {
      ReverseShape(m, a, Apply(m, act), Meaning(a, m, act));
    } else {
      AttachShape(m, a, Apply(m, act), Meaning(a, m, act));
    }
  }

  lemma {:induction false} PopKept(m: Mem, a: Abs)
    requires Shape(m, a) && Enabled(m, PopFirst, a)
    ensures Shape(Apply(m, PopFirst), Meaning(a, m, PopFirst))
  {
    if m.head != 0 {
      PopShape(m, a, Apply(m, PopFirst), Meaning(a, m, PopFirst));
    } else {
      OwnerRests(m, a, Apply(m, PopFirst), Meaning(a, m, PopFirst), Idle);
    }
  }

  lemma {:induction false} ShapeKept(m: Mem, a: Abs, act: Action)
    requires Shape(m, a) && Enabled(m, act, a)
    ensures Shape(Apply(m, act), Meaning(a, m, act))
  {
    match act
    case Queue(c, l, t) => QueueKept(m, a, c, l, t);
    case Store(c) => StoreKept(m, a, c);
    case Cas(c, spurious) => CasKept(m, a, c, spurious);
    case Take(c, dest, src) => TakeKept(m, a, c, dest, src);
    case Advance(c) => AdvanceKept(m, a, c);
    case Exchange => ExchangeKept(m, a);
    case ReverseOne => UnqueueKept(m, a, act);
    case AttachAll => UnqueueKept(m, a, act);
    case PopFirst => PopKept(m, a);
  }

  lemma {:induction false} JoinPush(g: seq<nat>, q: seq<nat>, mv: seq<nat>, s: seq<nat>, t: seq<nat>, e: seq<nat>)
    requires e == g + q + mv + Rev(t)
    ensures e + Rev(s) == g + q + mv + Rev(s + t)
  {
    RevConcat(s, t);
  }

  lemma {:induction false} JoinMoves(g: seq<nat>, q: seq<nat>, t: seq<nat>)
    ensures g + q + [] + Rev(t) == g + q + Rev(t) + Rev([])
    ensures g + q + Rev(t) == g + (q + Rev(t)) + []
    ensures q != [] ==> g + q == g + [q[0]] + q[1..]
  {
  }

  lemma {:induction false} CasFifo(m: Mem, a: Abs, c: nat, spurious: bool)
    requires Sizes(m, a) && Fifo(m, a) && Enabled(m, Cas(c, spurious), a) && OpOk(m, a, 0)
    ensures Fifo(Apply(m, Cas(c, spurious)), Meaning(a, m, Cas(c, spurious)))
  {
    if !spurious && m.ops[c].list == 0 {
      JoinPush(a.gone, a.queue, Moving(m, a), a.held[c], a.lists[0], a.entered);
    }
  }

  lemma {:induction false} ExchangeFifo(m: Mem, a: Abs)
    requires Sizes(m, a) && Fifo(m, a) && Enabled(m, Exchange, a) && OpOk(m, a, 0)
    requires IsList(m.next, m.lists[0], a.lists[0])
    ensures Fifo(Apply(m, Exchange), Meaning(a, m, Exchange))
  {
    JoinMoves(a.gone, a.queue, a.lists[0]);
  }

  lemma {:induction false} AttachFifo(m: Mem, a: Abs)
    requires Sizes(m, a) && Fifo(m, a) && Enabled(m, AttachAll, a)
    ensures Sizes(Apply(m, AttachAll), Meaning(a, m, AttachAll)) && Fifo(Apply(m, AttachAll), Meaning(a, m, AttachAll))
  {
    JoinMoves(a.gone, a.queue, a.held[0]);
  }

  lemma {:induction false} PopFifo(m: Mem, a: Abs)
    requires Sizes(m, a) && Fifo(m, a) && Enabled(m, PopFirst, a)
    ensures Fifo(Apply(m, PopFirst), Meaning(a, m, PopFirst))
  {
    JoinMoves(a.gone, a.queue, []);
  }

  lemma {:induction false} FifoSame(m: Mem, a: Abs, m': Mem, a': Abs)
    requires Sizes(m, a) && Sizes(m', a') && Fifo(m, a) && Moving(m', a') == Moving(m, a)
    requires a'.entered == a.entered && a'.gone == a.gone && a'.queue == a.queue && a'.lists[0] == a.lists[0]
    ensures Fifo(m', a')
  {
  }

  lemma {:induction false} FifoKept(m: Mem, a: Abs, act: Action)
    requires Sizes(m, a) && Fifo(m, a) && Enabled(m, act, a) && OpOk(m, a, 0) && IsList(m.next, m.lists[0], a.lists[0])
    requires Sizes(Apply(m, act), Meaning(a, m, act))
    ensures Fifo(Apply(m, act), Meaning(a, m, act))
  {
    match act
    case Cas(c, spurious) => CasFifo(m, a, c, spurious);
    case Exchange => ExchangeFifo(m, a);
    case AttachAll => AttachFifo(m, a);
    case PopFirst => PopFifo(m, a);
    case _ => FifoSame(m, a, Apply(m, act), Meaning(a, m, act));
  }

  lemma {:induction false} StepKeepsInv(m: Mem, a: Abs, act: Action)
    requires Inv(m, a) && Enabled(m, act, a)
    ensures Inv(Apply(m, act), Meaning(a, m, act))
  {
    ShapeKept(m, a, act);
    assert OpOk(m, a, 0) && IsList(m.next, m.lists[0], a.lists[0]);
    FifoKept(m, a, act);
  }

  /** The steps of a run, each possible where it is taken. */
  ghost predicate Run(m: Mem, a: Abs, acts: seq<Action>)
    decreases |acts|
  {
    acts == [] || (Enabled(m, acts[0], a) && Run(Apply(m, acts[0]), Meaning(a, m, acts[0]), acts[1..]))
  }

  ghost function After(m: Mem, a: Abs, acts: seq<Action>): (Mem, Abs)
    decreases |acts|
  {
    if acts == [] then (m, a) else After(Apply(m, acts[0]), Meaning(a, m, acts[0]), acts[1..])
  }

  lemma {:induction false} RunKeepsInv(m: Mem, a: Abs, acts: seq<Action>)
    requires Inv(m, a) && Run(m, a, acts)
    ensures Inv(After(m, a, acts).0, After(m, a, acts).1)
    decreases |acts|
  {
    if acts != [] {
      StepKeepsInv(m, a, acts[0]);
      RunKeepsInv(Apply(m, acts[0]), Meaning(a, m, acts[0]), acts[1..]);
    }
  }

  lemma {:induction false} InitialInv(m: Mem, a: Abs)
    requires Initial(m, a)
    ensures Inv(m, a)
  {
    forall l | 0 <= l < |m.lists| ensures IsList(m.next, m.lists[l], a.lists[l]) && Holds(a.place, a.lists[l], InList(l)) {
    }
    forall c | 0 <= c < |m.ops| ensures OpOk(m, a, c) && Holds(a.place, a.held[c], Held(c)) {
    }
  }

  /** What leaves the run queue is what came into it, in the same order; and no thread is in two places or in none. */
  ghost predicate InOrder(m: Mem, a: Abs)
  {
    && Inv(m, a) && AllHold(a) && a.gone <= a.entered
    && (m.ops[0].Idle? ==> a.entered == a.gone + a.queue + Rev(a.lists[0]))
  }

  lemma {:induction false} InvInOrder(m: Mem, a: Abs)
    requires Inv(m, a)
    ensures InOrder(m, a)
  {
    assert a.entered == a.gone + (a.queue + Moving(m, a) + Rev(a.lists[0]));
  }

  lemma {:induction false} RunIsFifo(m: Mem, a: Abs, acts: seq<Action>)
    requires Initial(m, a) && Run(m, a, acts)
    ensures InOrder(After(m, a, acts).0, After(m, a, acts).1)
  {
    InitialInv(m, a);
    RunKeepsInv(m, a, acts);
    InvInOrder(After(m, a, acts).0, After(m, a, acts).1);
  }
}
