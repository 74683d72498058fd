/** The counted lock (lock.h): a counter changed with atomic_add in front of a semaphore.

    LOCK:    if (atomic_add(&c, -1) <= 0) acquire_sem(s)
    UNLOCK:  if (atomic_add(&c, 1) < 0) release_sem(s)

    Each macro is two atomic steps when it reaches the semaphore; threads interleave at every step. */
module CountedLock {

  /** Where a thread is: outside, about to acquire the semaphore, inside, or about to release it. */
  datatype Place = Outside | Waiting | Inside | Releasing

  datatype State = State(c: int, sem: nat, threads: seq<Place>)

  datatype Action = Lock | Acquire | Unlock | Release

  function Count(threads: seq<Place>, p: Place): nat {
    if threads == [] then 0 else (if threads[0] == p then 1 else 0) + Count(threads[1..], p)
  }

  /** The state new_lock sets up, with n threads. */
  function Initial(n: nat): State {
    State(1, 0, seq(n, _ => Outside))
  }

  /** Thread t takes a step it is at, and which the semaphore does not hold up. */
  function Step(s: State, t: nat, a: Action): (r: State)
    requires Enabled(s, t, a)
  {
    match a
    case Lock => State(s.c - 1, s.sem, s.threads[t := if s.c <= 0 then Waiting else Inside])
    case Acquire => State(s.c, s.sem - 1, s.threads[t := Inside])
    case Unlock => State(s.c + 1, s.sem, s.threads[t := if s.c < 0 then Releasing else Outside])
    case Release => State(s.c, s.sem + 1, s.threads[t := Outside])
  }

  predicate Enabled(s: State, t: nat, a: Action) {
    && t < |s.threads|
    && match a
       case Lock => s.threads[t].Outside?
       case Acquire => s.threads[t].Waiting? && s.sem > 0
       case Unlock => s.threads[t].Inside?
       case Release => s.threads[t].Releasing?
  }

  predicate Takes(s: State, t: nat, a: Action, s': State) {
    Enabled(s, t, a) && s' == Step(s, t, a)
  }

  /** Some thread's step leads from s to s'. */
  ghost predicate Next(s: State, s': State) {
    exists t: nat, a :: Takes(s, t, a, s')
  }

  /** A run from the state of a new lock, with any number of threads taking steps in any order. */
  ghost predicate IsRun(run: seq<State>) {
    && |run| > 0 && run[0] == Initial(|run[0].threads|)
    && forall i :: 0 < i < |run| ==> Next(run[i - 1], run[i])
  }

  /** One permit is in play as soon as somebody has locked: inside, in the semaphore, or on its way there. */
  ghost predicate Inv(s: State) {
    var inside, waiting, releasing := Count(s.threads, Inside), Count(s.threads, Waiting), Count(s.threads, Releasing);
    && s.c == 1 - inside - waiting
    && inside + s.sem + releasing == if s.c <= 0 then 1 else 0
  }

  lemma {:induction false} CountUpdate(threads: seq<Place>, t: nat, q: Place, p: Place)
    requires t < |threads|
    ensures Count(threads[t := q], p) == Count(threads, p) - (if threads[t] == p then 1 else 0) + (if q == p then 1 else 0)
  {
    if t > 0 {
      CountUpdate(threads[1..], t - 1, q, p);
      assert threads[t := q][1..] == threads[1..][t - 1 := q];
    }
  }

  lemma {:induction false} CountNone(n: nat, p: Place)
    requires p != Outside
    ensures Count(seq(n, _ => Outside), p) == 0
  {
    if n > 0 {
      assert seq(n, _ => Outside)[1..] == seq(n - 1, _ => Outside);
      CountNone(n - 1, p);
    }
  }

  lemma {:induction false} CountSome(threads: seq<Place>, t: nat, p: Place)
    requires t < |threads| && threads[t] == p
    ensures Count(threads, p) >= 1
  {
    if t > 0 { CountSome(threads[1..], t - 1, p); }
  }

  lemma {:induction false} CountTwo(threads: seq<Place>, t: nat, u: nat, p: Place)
    requires t < u < |threads| && threads[t] == threads[u] == p
    ensures Count(threads, p) >= 2
  {
    if t > 0 {
      CountTwo(threads[1..], t - 1, u - 1, p);
    } else {
      CountSome(threads[1..], u - 1, p);
    }
  }

  lemma {:induction false} Find(threads: seq<Place>, p: Place) returns (t: nat)
    requires Count(threads, p) > 0
    ensures t < |threads| && threads[t] == p
  {
    if threads[0] == p { t := 0; } else { t := Find(threads[1..], p); t := t + 1; }
  }

  lemma StepKeepsInv(s: State, t: nat, a: Action)
    requires Inv(s) && Enabled(s, t, a)
    ensures Inv(Step(s, t, a))
  {
    var q := Step(s, t, a).threads[t];
    CountUpdate(s.threads, t, q, Inside);
    CountUpdate(s.threads, t, q, Waiting);
    CountUpdate(s.threads, t, q, Releasing);
    CountSome(s.threads, t, s.threads[t]);
  }

  lemma {:induction false} RunKeepsInv(run: seq<State>, i: nat)
    requires IsRun(run) && i < |run|
    ensures Inv(run[i]) && |run[i].threads| == |run[0].threads|
  {
    if i == 0 {
      CountNone(|run[0].threads|, Inside);
      CountNone(|run[0].threads|, Waiting);
      CountNone(|run[0].threads|, Releasing);
    } else {
      RunKeepsInv(run, i - 1);
      var t: nat, a :| Takes(run[i - 1], t, a, run[i]);
      StepKeepsInv(run[i - 1], t, a);
    }
  }

  /** At no point of any run are two threads inside. */
  lemma MutualExclusion(run: seq<State>, i: nat, t: nat, u: nat)
    requires IsRun(run) && i < |run| && t < |run[i].threads| && u < |run[i].threads|
    requires run[i].threads[t] == run[i].threads[u] == Inside
    ensures t == u
  {
    RunKeepsInv(run, i);
    if t < u {
      CountTwo(run[i].threads, t, u, Inside);
    } else if u < t {
      CountTwo(run[i].threads, u, t, Inside);
    }
  }

  /** No wake-up is lost: a thread waits only while another is inside, or the semaphore is positive, or some
      thread is about to release it; never are two permits on the way. */
  lemma NoLostWakeup(run: seq<State>, i: nat, t: nat)
    requires IsRun(run) && i < |run| && t < |run[i].threads| && run[i].threads[t] == Waiting
    ensures run[i].sem <= 1
    ensures run[i].sem == 1 || exists u: nat :: u < |run[i].threads| && run[i].threads[u] in {Inside, Releasing}
  {
    RunKeepsInv(run, i);
    var s := run[i];
    CountSome(s.threads, t, Waiting);
    if s.sem == 0 {
      var u;
      if Count(s.threads, Inside) > 0 { u := Find(s.threads, Inside); } else { u := Find(s.threads, Releasing); }
    }
  }

  /** Hence a lock somebody waits for never gets stuck: some thread other than by locking can take a step. */
  lemma Progress(run: seq<State>, i: nat, t: nat)
    requires IsRun(run) && i < |run| && t < |run[i].threads| && run[i].threads[t] == Waiting
    ensures exists u: nat, a :: a != Lock && Enabled(run[i], u, a)
  {
    NoLostWakeup(run, i, t);
    var s := run[i];
    if s.sem == 1 {
      assert Enabled(s, t, Acquire);
    } else {
      var u: nat :| u < |s.threads| && s.threads[u] in {Inside, Releasing};
      assert Enabled(s, u, if s.threads[u].Inside? then Unlock else Release);
    }
  }

  /** When no thread is inside, waiting or releasing, the lock is as new_lock left it. */
  lemma QuiescentIsInitial(run: seq<State>, i: nat)
    requires IsRun(run) && i < |run| && forall t :: 0 <= t < |run[i].threads| ==> run[i].threads[t] == Outside
    ensures run[i] == run[0]
  {
    RunKeepsInv(run, i);
    var s := run[i];
    assert s.threads == seq(|s.threads|, _ => Outside);
    CountNone(|s.threads|, Inside);
    CountNone(|s.threads|, Waiting);
    CountNone(|s.threads|, Releasing);
  }
}
