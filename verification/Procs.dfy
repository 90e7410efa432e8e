// The process table of kernel_proc.c, with the part of sys_ThreadExit
// (kernel_threads.c) that ends a process. Every stretch of a system call between
// two waits holds the kernel lock and is one step.
module Procs {
  import opened Lists

  type ThreadId = nat

  const NOPROC := -1
  const INIT_PID := 1

  datatype PState = FREE | ALIVE | ZOMBIE

  // `parent` is the pid of the parent or, on the free list, of the next free PCB;
  // NOPROC is the null pointer. `children` and `exited` are the two lists from
  // front to back.
  datatype PCB = PCB(state: PState, parent: int, exitval: int, threads: int, children: seq<nat>, exited: seq<nat>)

  // A thread inside WaitChild: for a child or (NOPROC) for any. `leaving` is
  // the loop of sys_Exit. `signalled` becomes true when child_exit is broadcast;
  // a thread may also run without that, and then looks again.
  datatype Wait = Wait(child: int, signalled: bool, leaving: bool)

  // `head` and `count` are pcb_freelist and process_count. `free` (the list that
  // starts at head) is auxiliary. `live` maps a thread to its process.
  datatype Procs = Procs(pt: seq<PCB>, head: int, count: int, free: seq<nat>,
                         live: map<ThreadId, nat>, waiting: map<ThreadId, Wait>)

  predicate Pid(s: Procs, q: int) { 0 <= q < |s.pt| }

  function Put(s: Procs, q: int, b: PCB): Procs
    requires Pid(s, q)
  {
    s.(pt := s.pt[q := b])
  }

  // Popping from the front of q and pushing to the front of r, until q is empty.
  function PushAll(q: seq<nat>, r: seq<nat>): seq<nat> {
    if q == [] then r else PushAll(q[1..], [q[0]] + r)
  }

  // ------------------------------------------------------------------
  // PCBs
  // ------------------------------------------------------------------

  // acquire_PCB
  function Acquire(s: Procs): Procs
    requires Pid(s, s.head) && s.free != []
  {
    s.(pt := s.pt[s.head := s.pt[s.head].(state := ALIVE)], head := s.pt[s.head].parent,
       count := s.count + 1, free := s.free[1..])
  }

  // release_PCB
  function Release(s: Procs, c: nat): Procs
    requires Pid(s, c)
  {
    s.(pt := s.pt[c := s.pt[c].(state := FREE, parent := s.head)], head := c,
       count := s.count - 1, free := [c] + s.free)
  }

  // cleanup_zombie. The two list nodes are unlinked from the lists they are on:
  // those of the parent.
  function Cleanup(s: Procs, c: nat): Procs
    requires Pid(s, c)
  {
    var p := s.pt[c].parent;
    var s1 := if Pid(s, p)
              then Put(s, p, s.pt[p].(children := Without(s.pt[p].children, c), exited := Without(s.pt[p].exited, c)))
              else s;
    Release(s1, c)
  }

  function AddThread(s: Procs, p: int, u: ThreadId): Procs
    requires Pid(s, p)
  {
    Put(s, p, s.pt[p].(threads := s.pt[p].threads + 1)).(live := s.live[u := p])
  }

  // sys_Exec by process p. Thread u is the main thread, if there is a task.
  function Exec(s: Procs, p: nat, hasTask: bool, u: ThreadId): Procs
    requires s.head != NOPROC ==> Pid(s, s.head) && s.free != []
    requires Pid(s, p)
  {
    if s.head == NOPROC then s else
    var c, s1 := s.head, Acquire(s);
    var s2 := if c <= INIT_PID then Put(s1, c, s1.pt[c].(parent := NOPROC))
              else var s0 := Put(s1, c, s1.pt[c].(parent := p));
                   Put(s0, p, s0.pt[p].(children := [c as nat] + s0.pt[p].children));
    if hasTask then AddThread(s2, c, u) else s2
  }

  // kernel_broadcast(& PT[p].child_exit)
  function SignalAll(waiting: map<ThreadId, Wait>, live: map<ThreadId, nat>, p: int): map<ThreadId, Wait> {
    map t | t in waiting :: if t in live && live[t] == p then waiting[t].(signalled := true) else waiting[t]
  }

  function Broadcast(s: Procs, p: int): Procs { s.(waiting := SignalAll(s.waiting, s.live, p)) }

  // What becomes of PCB q when the last thread of p has left (p is not init):
  // the children of p go to init, p goes to the exited list of its parent.
  function Moved(s: Procs, p: nat, q: nat): PCB
    requires Pid(s, p) && Pid(s, q) && Pid(s, INIT_PID)
  {
    var b, dead := s.pt[q], s.pt[p];
    if q == p then b.(state := ZOMBIE, children := [], exited := [])
    else b.(parent := if q in dead.children then INIT_PID else b.parent,
            children := if q == INIT_PID then PushAll(dead.children, b.children) else b.children,
            exited := (if q == dead.parent then [p] else [])
                      + (b.exited + if q == INIT_PID then dead.exited else []))
  }

  // The table after that.
  function Died(s: Procs, p: nat): Procs
    requires Pid(s, p) && Pid(s, INIT_PID)
  {
    s.(pt := seq(|s.pt|, q requires 0 <= q < |s.pt| => Moved(s, p, q)))
  }

  function Die(s: Procs, p: nat): Procs
    requires Pid(s, p) && Pid(s, INIT_PID)
  {
    var s1 := Died(s, p);
    var s2 := if s.pt[p].exited != [] then Broadcast(s1, INIT_PID) else s1;
    Broadcast(s2, s.pt[p].parent)
  }

  // A thread leaves its process.
  function Gone(s: Procs, t: ThreadId): Procs
    requires t in s.live && Pid(s, s.live[t])
  {
    var p := s.live[t];
    Put(s, p, s.pt[p].(threads := s.pt[p].threads - 1)).(live := s.live - {t})
  }

  // sys_ThreadExit
  function ThreadExit(s: Procs, t: ThreadId): Procs
    requires t in s.live && Pid(s, s.live[t]) && Pid(s, INIT_PID)
  {
    var p, s1 := s.live[t], Gone(s, t);
    if s1.pt[p].threads != 0 then s1
    else if p != INIT_PID then Die(s1, p)
    else Put(s1, p, s1.pt[p].(state := ZOMBIE))
  }

  // ------------------------------------------------------------------
  // WaitChild
  // ------------------------------------------------------------------

  function Awake(s: Procs, t: ThreadId): Procs { s.(waiting := s.waiting - {t}) }

  // The loop of wait_for_specific_child, from its guard to a wait or the end.
  function LoopSpecific(s: Procs, t: ThreadId, c: nat): Procs
    requires Pid(s, c)
  {
    if s.pt[c].state == ALIVE then s.(waiting := s.waiting[t := Wait(c, false, false)])
    else Cleanup(Awake(s, t), c)
  }

  // One round of the loop of wait_for_any_child. In sys_Exit the call is made
  // again until it finds no children.
  function LoopAny(s: Procs, t: ThreadId, leaving: bool): Procs
    requires t in s.live && Pid(s, s.live[t]) && Pid(s, INIT_PID)
    requires s.pt[s.live[t]].exited != [] ==> Pid(s, s.pt[s.live[t]].exited[0])
  {
    var b := s.pt[s.live[t]];
    if b.children == [] then if leaving then ThreadExit(Awake(s, t), t) else Awake(s, t)
    else if b.exited == [] then s.(waiting := s.waiting[t := Wait(NOPROC, false, leaving)])
    else
      var s1 := Cleanup(Awake(s, t), b.exited[0]);
      if leaving then s1.(waiting := s1.waiting[t := Wait(NOPROC, true, true)]) else s1
  }

  // The legality checks of wait_for_specific_child.
  predicate Legal(s: Procs, t: ThreadId, cpid: int)
    requires t in s.live
  {
    Pid(s, cpid) && s.pt[cpid].state != FREE && s.pt[cpid].parent == s.live[t]
  }

  datatype Step =
    | DoExec(t: ThreadId, hasTask: bool, u: ThreadId)
    | DoCreateThread(t: ThreadId, u: ThreadId)
    | DoThreadExit(t: ThreadId)
    | DoExit(t: ThreadId, v: int)
    | DoWaitChild(t: ThreadId, cpid: int)
    | DoResume(t: ThreadId)

  // No other thread of the process of t waits for what t is to wait for.
  ghost predicate Alone(s: Procs, t: ThreadId, cpid: int) {
    forall u :: u in s.waiting && u != t && u in s.live && t in s.live && s.live[u] == s.live[t]
      ==> !Clash(s.waiting[u].child, cpid)
  }

  // Two waits that may be for the same child. Two waits for any child do not
  // clash: such a waiter looks at the list again when it runs.
  predicate Clash(c: int, d: int) {
    if c == NOPROC then d != NOPROC else d == NOPROC || d == c
  }

  // Exits that would stop at the assertions of sys_ThreadExit (lines 204-205)
  // are not steps; a call of WaitChild is made by one thread per child.
  ghost predicate Enabled(s: Procs, step: Step) {
    && step.t in s.live
    && (!step.DoResume? ==> step.t !in s.waiting)
    && match step
       case DoExec(t, hasTask, u) => u !in s.live
       case DoCreateThread(t, u) => u !in s.live
       case DoThreadExit(t) => Pid(s, s.live[t]) && NoAbort(s, t)
       case DoExit(t, v) => s.live[t] == INIT_PID ==> Alone(s, t, NOPROC)
       case DoWaitChild(t, cpid) => (cpid == NOPROC || Legal(s, t, cpid)) ==> Alone(s, t, cpid)
       case DoResume(t) => t in s.waiting
  }

  predicate NoAbort(s: Procs, t: ThreadId)
    requires t in s.live && Pid(s, s.live[t])
  {
    s.live[t] == INIT_PID && s.pt[INIT_PID].threads == 1 ==> s.pt[INIT_PID].children == []
  }

  function SetExit(s: Procs, p: int, v: int): Procs
    requires Pid(s, p)
  {
    Put(s, p, s.pt[p].(exitval := v))
  }

  ghost function Apply(s: Procs, step: Step): Procs
    requires Inv(s) && Enabled(s, step)
  {
    InvPids(s, step.t);
    var p := s.live[step.t];
    match step
    case DoExec(t, hasTask, u) => Exec(s, p, hasTask, u)
    case DoCreateThread(t, u) => AddThread(s, p, u)
    case DoThreadExit(t) => ThreadExit(s, t)
    case DoExit(t, v) => if p == INIT_PID then LoopAny(SetExit(s, p, v), t, true) else ThreadExit(SetExit(s, p, v), t)
    case DoWaitChild(t, cpid) =>
      if cpid == NOPROC then LoopAny(s, t, false) else if Legal(s, t, cpid) then LoopSpecific(s, t, cpid) else s
    case DoResume(t) =>
      var w := s.waiting[t];
      if w.child == NOPROC then LoopAny(s, t, w.leaving) else LoopSpecific(s, t, w.child)
  }

  // ------------------------------------------------------------------
  // The invariant
  // ------------------------------------------------------------------

  ghost predicate PcbOk(s: Procs, q: nat)
    requires q < |s.pt|
  {
    var b := s.pt[q];
    && (q in s.free <==> b.state == FREE)
    && (b.state != ALIVE ==> b.threads == 0 && b.children == [] && b.exited == [])
    && (b.state != FREE && q >= 2 ==> 1 <= b.parent < |s.pt| && q in s.pt[b.parent].children)
    && (q < 2 ==> b.state != FREE && b.parent == NOPROC)
    && (q == 0 ==> b.state == ALIVE && b.threads == 0 && b.children == [] && b.exited == [])
  }

  // Process c is a child of process p.
  ghost predicate Child(s: Procs, p: nat, c: nat) {
    2 <= c < |s.pt| && s.pt[c].state != FREE && s.pt[c].parent == p
  }

  ghost predicate ListOk(s: Procs, p: nat)
    requires p < |s.pt|
  {
    var b := s.pt[p];
    && Distinct(b.children) && Distinct(b.exited)
    && (forall c {:trigger Child(s, p, c)} :: c in b.children ==> Child(s, p, c))
    && (forall c {:trigger c in b.exited} ::
          c in b.exited <==> c in b.children && c < |s.pt| && s.pt[c].state == ZOMBIE)
  }

  // The i-th PCB of the free list links to the next one.
  ghost predicate LinkOk(s: Procs, i: nat)
    requires i < |s.free|
  {
    && s.free[i] < |s.pt|
    && s.pt[s.free[i]].parent == if i + 1 < |s.free| then s.free[i + 1] else NOPROC
  }

  ghost predicate FreeOk(s: Procs) {
    && Distinct(s.free)
    && s.head == (if s.free == [] then NOPROC else s.free[0])
    && (forall i {:trigger LinkOk(s, i)} :: 0 <= i < |s.free| ==> LinkOk(s, i))
    && s.count == |s.pt| - |s.free|
  }

  // Parents are nearer to init than their children.
  ghost predicate Ranked(s: Procs, rank: seq<nat>) {
    && |rank| == |s.pt| >= 2 && rank[1] == 0
    && (forall q {:trigger rank[q]} :: 2 <= q < |s.pt| && s.pt[q].state != FREE && 0 <= s.pt[q].parent < |s.pt|
          ==> rank[s.pt[q].parent] < rank[q])
  }

  ghost predicate Table(s: Procs) {
    && |s.pt| >= 2
    && (forall q {:trigger PcbOk(s, q)} :: 0 <= q < |s.pt| ==> PcbOk(s, q))
    && (forall p {:trigger ListOk(s, p)} :: 0 <= p < |s.pt| ==> ListOk(s, p))
  }

  ghost function ThreadsOf(s: Procs, p: int): set<ThreadId> {
    set t | t in s.live && s.live[t] == p
  }

  ghost predicate CountOk(s: Procs, p: nat)
    requires p < |s.pt|
  {
    s.pt[p].threads == |ThreadsOf(s, p)|
  }

  ghost predicate ThreadsOk(s: Procs) {
    && (forall t :: t in s.live ==> s.live[t] < |s.pt|)
    && (forall p {:trigger CountOk(s, p)} :: 0 <= p < |s.pt| ==> CountOk(s, p))
  }

  ghost predicate WaitOk(s: Procs, t: ThreadId)
    requires t in s.waiting
  {
    var w := s.waiting[t];
    && t in s.live && s.live[t] < |s.pt|
    && (w.child != NOPROC ==> w.child >= 0 && Child(s, s.live[t], w.child) && !w.leaving)
    && (w.child != NOPROC && !w.signalled ==> s.pt[w.child].state == ALIVE)
    && (w.child == NOPROC && !w.signalled ==> s.pt[s.live[t]].children != [] && s.pt[s.live[t]].exited == [])
    && (w.leaving ==> s.live[t] == INIT_PID)
  }

  ghost predicate Peaceful(s: Procs, t: ThreadId, u: ThreadId)
    requires t in s.waiting && u in s.waiting
  {
    t != u && t in s.live && u in s.live && s.live[t] == s.live[u]
    ==> !Clash(s.waiting[t].child, s.waiting[u].child)
  }

  ghost predicate WaitsOk(s: Procs) {
    && (forall t {:trigger WaitOk(s, t)} :: t in s.waiting ==> WaitOk(s, t))
    && (forall t, u {:trigger Peaceful(s, t, u)} :: t in s.waiting && u in s.waiting ==> Peaceful(s, t, u))
  }

  ghost predicate Tree(s: Procs) {
    exists rank :: Ranked(s, rank)
  }

  ghost predicate Inv(s: Procs) {
    Table(s) && FreeOk(s) && Tree(s) && ThreadsOk(s) && WaitsOk(s)
  }

  // A live thread belongs to an ALIVE process other than 0.
  lemma LiveProcess(s: Procs, t: ThreadId)
    requires Table(s) && ThreadsOk(s) && t in s.live
    ensures 1 <= s.live[t] < |s.pt| && s.pt[s.live[t]].state == ALIVE && s.pt[s.live[t]].threads >= 1
  {
    var p := s.live[t];
    assert PcbOk(s, p);
    assert t in ThreadsOf(s, p);
    assert CountOk(s, p);
  }

  lemma InvPids(s: Procs, t: ThreadId)
    requires Inv(s) && t in s.live
    ensures 1 <= s.live[t] < |s.pt| && s.pt[s.live[t]].state == ALIVE
    ensures s.pt[s.live[t]].exited != [] ==> Pid(s, s.pt[s.live[t]].exited[0])
    ensures s.head != NOPROC ==> Pid(s, s.head) && s.free != []
    ensures t in s.waiting && s.waiting[t].child != NOPROC ==> Pid(s, s.waiting[t].child)
  {
    LiveProcess(s, t);
    var p := s.live[t];
    assert ListOk(s, p);
    if s.pt[p].exited != [] { assert s.pt[p].exited[0] in s.pt[p].exited; }
    if s.free != [] { assert LinkOk(s, 0); }
    if t in s.waiting { assert WaitOk(s, t); }
  }
}
