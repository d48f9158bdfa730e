/** The event queue of iaxclient/lib/iaxclient_lib.c as a state machine. Locking, unlocking, posting and
    delivering one event are atomic steps; several threads may be delivering what they found when they
    unlocked. */
module Events {

  /** An event, and whether it was posted under the lock. */
  datatype Event = Event(id: nat, held: bool)

  /** What the library and the threads hold: the events queued, the events each unlocking thread still has
      to post, and those delivered so far. */
  datatype State = State(locked: bool, queue: seq<Event>, drains: seq<seq<Event>>, delivered: seq<Event>)

  datatype Step = Lock | Unlock | Post(id: nat) | Drain(thread: nat)

  const Start := State(false, [], [], [])

  predicate Enabled(s: State, step: Step) {
    match step
    case Lock => !s.locked
    case Unlock => s.locked
    case Post(_) => true
    case Drain(t) => t < |s.drains| && s.drains[t] != []
  }

  /** iaxc_post_event: queued while the lock is held, delivered at once otherwise. */
  function Posted(s: State, e: Event): State {
    if s.locked then s.(queue := s.queue + [e]) else s.(delivered := s.delivered + [e])
  }

  function Next(s: State, step: Step): State
    requires Enabled(s, step)
  {
    match step
    case Lock => s.(locked := true)
    case Unlock => s.(locked := false, drains := s.drains + [s.queue], queue := [])
    case Post(id) => Posted(s, Event(id, s.locked))
    case Drain(t) => Posted(s.(drains := s.drains[t := s.drains[t][1..]]), s.drains[t][0])
  }

  /** Steps that can be taken one after another. */
  predicate IsRun(s: State, steps: seq<Step>)
    decreases |steps|
  {
    steps == [] || (Enabled(s, steps[0]) && IsRun(Next(s, steps[0]), steps[1..]))
  }

  function After(s: State, steps: seq<Step>): State
    requires IsRun(s, steps)
    decreases |steps|
  {
    if steps == [] then s else After(Next(s, steps[0]), steps[1..])
  }

  /** The events posted in a run, in order. */
  function PostedIn(s: State, steps: seq<Step>): seq<Event>
    requires IsRun(s, steps)
    decreases |steps|
  {
    if steps == [] then []
    else (if steps[0].Post? then [Event(steps[0].id, s.locked)] else []) + PostedIn(Next(s, steps[0]), steps[1..])
  }

  function Flat(d: seq<seq<Event>>): seq<Event> {
    if d == [] then [] else d[0] + Flat(d[1..])
  }

  /** All that is still to be delivered, or has been. */
  function All(s: State): multiset<Event> {
    multiset(s.delivered) + multiset(Flat(s.drains)) + multiset(s.queue)
  }

  lemma {:induction false} FlatAppend(d: seq<seq<Event>>, e: seq<seq<Event>>)
    ensures Flat(d + e) == Flat(d) + Flat(e)
  {
    if d == [] {
      assert d + e == e;
    } else {
      assert (d + e)[1..] == d[1..] + e;
      FlatAppend(d[1..], e);
    }
  }

  lemma FlatOne(q: seq<Event>)
    ensures Flat([q]) == q
  {
    assert [q][1..] == [];
    assert q + [] == q;
  }

  lemma FlatAt(d: seq<seq<Event>>, t: nat)
    requires t < |d| && d[t] != []
    ensures Flat(d) == Flat(d[..t]) + d[t] + Flat(d[t + 1..])
    ensures Flat(d[t := d[t][1..]]) == Flat(d[..t]) + d[t][1..] + Flat(d[t + 1..])
  {
    hide Flat;
    assert d == d[..t] + ([d[t]] + d[t + 1..]);
    assert d[t := d[t][1..]] == d[..t] + ([d[t][1..]] + d[t + 1..]);
    FlatAppend(d[..t], [d[t]] + d[t + 1..]);
    FlatAppend([d[t]], d[t + 1..]);
    FlatAppend(d[..t], [d[t][1..]] + d[t + 1..]);
    FlatAppend([d[t][1..]], d[t + 1..]);
    FlatOne(d[t]);
    FlatOne(d[t][1..]);
  }

  // ----- every event once -----

  lemma StepKeepsAll(s: State, step: Step)
    requires Enabled(s, step)
    ensures All(Next(s, step)) == All(s) + if step.Post? then multiset{Event(step.id, s.locked)} else multiset{}
  {
    hide Flat;
    match step {
      case Unlock =>
        FlatAppend(s.drains, [s.queue]);
        FlatOne(s.queue);
      case Drain(t) =>
        DrainKeepsAll(s, t);
      case _ =>
    }
  }

  lemma DrainKeepsAll(s: State, t: nat)
    requires Enabled(s, Drain(t))
    ensures All(Next(s, Drain(t))) == All(s)
  {
    hide Flat;
    FlatAt(s.drains, t);
    var d := s.drains[t];
    assert d == [d[0]] + d[1..];
  }

  /** In every run, every event posted is delivered or still waiting, exactly once. */
  lemma {:induction false} EachOnce(s: State, steps: seq<Step>)
    requires IsRun(s, steps)
    ensures All(After(s, steps)) == All(s) + multiset(PostedIn(s, steps))
    decreases |steps|
  {
    hide All, Next, Enabled;
    if steps != [] {
      StepKeepsAll(s, steps[0]);
      EachOnce(Next(s, steps[0]), steps[1..]);
    }
  }

  /** When nothing is left waiting, what has been delivered is what has been posted. */
  lemma AllDelivered(steps: seq<Step>)
    requires IsRun(Start, steps)
    ensures var e := After(Start, steps);
            e.queue == [] && Flat(e.drains) == [] ==> multiset(e.delivered) == multiset(PostedIn(Start, steps))
  {
    EachOnce(Start, steps);
    assert All(Start) == multiset{};
    var e := After(Start, steps);
    if e.queue == [] && Flat(e.drains) == [] {
      assert multiset(e.queue) == multiset{} && multiset(Flat(e.drains)) == multiset{};
      assert All(e) == multiset(e.delivered);
      assert All(Start) + multiset(PostedIn(Start, steps)) == multiset(PostedIn(Start, steps));
    }
  }

  // ----- in order -----

  function Held(s: seq<Event>): seq<Event> {
    if s == [] then [] else (if s[0].held then [s[0]] else []) + Held(s[1..])
  }

  lemma {:induction false} HeldAppend(s: seq<Event>, t: seq<Event>)
    ensures Held(s + t) == Held(s) + Held(t)
  {
    hide Held;
    if s == [] {
      assert s + t == t;
      HeldNothing();
      assert [] + Held(t) == Held(t);
    } else {
      HeldStep(s);
      HeldStep(s + t);
      assert (s + t)[1..] == s[1..] + t;
      HeldAppend(s[1..], t);
      var first := if s[0].held then [s[0]] else [];
      assert first + (Held(s[1..]) + Held(t)) == first + Held(s[1..]) + Held(t);
    }
  }

  lemma HeldStep(s: seq<Event>)
    requires s != []
    ensures Held(s) == (if s[0].held then [s[0]] else []) + Held(s[1..])
  {
  }

  lemma HeldOne(e: Event)
    ensures Held([e]) == if e.held then [e] else []
  {
    assert [e][1..] == [];
  }

  /** Nobody locks while events are being delivered. */
  predicate Calm(s: State, steps: seq<Step>)
    requires IsRun(s, steps)
    decreases |steps|
  {
    steps == [] || ((steps[0].Lock? ==> Flat(s.drains) == []) && Calm(Next(s, steps[0]), steps[1..]))
  }

  /** At most one thread has something to deliver. */
  predicate OneAtMost(d: seq<seq<Event>>) {
    forall i, j :: 0 <= i < j < |d| ==> d[i] == [] || d[j] == []
  }

  /** The lock is held, or nothing is queued; and not both held and being delivered. */
  predicate Settled(s: State) {
    && (s.locked ==> Flat(s.drains) == [])
    && (!s.locked ==> s.queue == [])
    && Held(s.queue) == s.queue && Held(Flat(s.drains)) == Flat(s.drains)
    && OneAtMost(s.drains)
  }

  /** The events posted under the lock, delivered and waiting, in their order. */
  function Line(s: State): seq<Event> {
    Held(s.delivered) + Flat(s.drains) + s.queue
  }

  lemma HeldTail(s: seq<Event>)
    requires s != [] && Held(s) == s
    ensures s[0].held && Held(s[1..]) == s[1..]
  {
    HeldLength(s[1..]);
    assert Held(s) == (if s[0].held then [s[0]] else []) + Held(s[1..]);
    assert Held(s)[1..] == s[1..];
  }

  lemma {:induction false} HeldLength(s: seq<Event>)
    ensures |Held(s)| <= |s|
  {
    if s != [] {
      HeldLength(s[1..]);
    }
  }

  lemma {:induction false} FlatEmpty(d: seq<seq<Event>>)
    ensures Flat(d) == [] <==> forall i :: 0 <= i < |d| ==> d[i] == []
  {
    if d != [] {
      FlatEmpty(d[1..]);
      assert (forall i :: 0 <= i < |d| ==> d[i] == []) <==> d[0] == [] && forall i :: 0 <= i < |d[1..]| ==> d[1..][i] == [] by {
        assert forall i :: 1 <= i < |d| ==> d[i] == d[1..][i - 1];
      }
    }
  }

  /** With one thread delivering, the events waiting are its own. */
  lemma OnlyDrain(d: seq<seq<Event>>, t: nat)
    requires t < |d| && d[t] != [] && OneAtMost(d)
    ensures Flat(d) == d[t] && Flat(d[t := d[t][1..]]) == d[t][1..] && OneAtMost(d[t := d[t][1..]])
  {
    FlatAt(d, t);
    FlatEmpty(d[..t]);
    FlatEmpty(d[t + 1..]);
    hide Flat;
    assert Flat(d[..t]) == [] && Flat(d[t + 1..]) == [];
    assert [] + d[t] + [] == d[t] && [] + d[t][1..] + [] == d[t][1..];
  }

  lemma StepKeepsLine(s: State, step: Step)
    requires Enabled(s, step) && Settled(s) && (step.Lock? ==> Flat(s.drains) == [])
    ensures Settled(Next(s, step))
    ensures Line(Next(s, step)) == Line(s) + if step.Post? && s.locked then [Event(step.id, true)] else []
  {
    hide Flat, Held, OneAtMost;
    match step {
      case Lock =>
      case Unlock =>
        UnlockedDrains(s.drains, s.queue);
        HeldNothing();
        assert Held(s.delivered) + s.queue + [] == Held(s.delivered) + [] + s.queue;
      case Post(id) =>
        var e := Event(id, s.locked);
        HeldOne(e);
        if s.locked {
          HeldAppend(s.queue, [e]);
        } else {
          HeldAppend(s.delivered, [e]);
        }
      case Drain(t) =>
        DrainUnlocked(s, t);
        OnlyDrain(s.drains, t);
        var d := s.drains[t];
        HeldTail(d);
        HeldOne(d[0]);
        HeldAppend(s.delivered, [d[0]]);
        assert d == [d[0]] + d[1..];
    }
  }

  lemma HeldNothing()
    ensures Held([]) == []
  {
  }

  lemma UnlockedDrains(d: seq<seq<Event>>, q: seq<Event>)
    requires Flat(d) == []
    ensures Flat(d + [q]) == q && OneAtMost(d + [q])
  {
    FlatAppend(d, [q]);
    FlatOne(q);
    FlatEmpty(d);
    assert [] + q == q;
  }

  lemma DrainUnlocked(s: State, t: nat)
    requires Settled(s) && t < |s.drains| && s.drains[t] != []
    ensures !s.locked && s.queue == []
  {
    FlatEmpty(s.drains);
  }

  /** In every run in which nobody locks while events are being delivered, the events posted under the lock
      are delivered in the order in which they were posted. */
  lemma {:induction false} InOrder(s: State, steps: seq<Step>)
    requires IsRun(s, steps) && Settled(s) && Calm(s, steps)
    ensures Settled(After(s, steps))
    ensures Line(After(s, steps)) == Line(s) + Held(PostedIn(s, steps))
    decreases |steps|
  {
    hide Settled, Line, Next, Enabled, Flat, Held;
    if steps == [] {
      HeldNothing();
      assert Line(s) + [] == Line(s);
    } else {
      StepKeepsLine(s, steps[0]);
      InOrder(Next(s, steps[0]), steps[1..]);
      var first := if steps[0].Post? then [Event(steps[0].id, s.locked)] else [];
      HeldAppend(first, PostedIn(Next(s, steps[0]), steps[1..]));
      HeldNothing();
      HeldOne(Event(0, s.locked));
      if steps[0].Post? {
        HeldOne(Event(steps[0].id, s.locked));
      }
      var f := Held(first);
      assert Line(s) + f + Held(PostedIn(Next(s, steps[0]), steps[1..]))
          == Line(s) + (f + Held(PostedIn(Next(s, steps[0]), steps[1..])));
    }
  }

  lemma DeliveredInOrder(steps: seq<Step>)
    requires IsRun(Start, steps) && Calm(Start, steps)
    ensures var e := After(Start, steps);
            Held(e.delivered) <= Held(PostedIn(Start, steps))
  {
    hide Flat, Held, IsRun, Calm, After, PostedIn;
    StartSettled();
    InOrder(Start, steps);
    var e := After(Start, steps);
    Prefix(Held(e.delivered), Flat(e.drains), e.queue, Held(PostedIn(Start, steps)));
  }

  lemma StartSettled()
    ensures Settled(Start) && Line(Start) == []
  {
  }

  lemma Prefix(a: seq<Event>, b: seq<Event>, c: seq<Event>, d: seq<Event>)
    requires a + b + c == [] + d
    ensures a <= d
  {
    assert [] + d == d;
    assert a + b + c == a + (b + c);
  }

  lemma {:induction false} Chain(states: seq<State>, steps: seq<Step>)
    requires |states| == |steps| + 1
    requires forall i :: 0 <= i < |steps| ==> Enabled(states[i], steps[i]) && Next(states[i], steps[i]) == states[i + 1]
    ensures IsRun(states[0], steps) && After(states[0], steps) == states[|steps|]
    decreases |steps|
  {
    if steps != [] {
      assert Enabled(states[0], steps[0]) && Next(states[0], steps[0]) == states[1];
      Chain(states[1..], steps[1..]);
    }
  }

  /** When somebody does, the order can change: the event that was waiting is queued again, behind the later
      one. */
  lemma LockedWhileDelivering()
    ensures var steps := [Lock, Post(1), Unlock, Lock, Post(2), Drain(0), Unlock, Drain(1), Drain(1)];
            IsRun(Start, steps) && After(Start, steps).delivered == [Event(2, true), Event(1, true)]
  {
    var a, b := Event(1, true), Event(2, true);
    var steps := [Lock, Post(1), Unlock, Lock, Post(2), Drain(0), Unlock, Drain(1), Drain(1)];
    var states := [
      Start,
      State(true, [], [], []),
      State(true, [a], [], []),
      State(false, [], [[a]], []),
      State(true, [], [[a]], []),
      State(true, [b], [[a]], []),
      State(true, [b, a], [[]], []),
      State(false, [], [[], [b, a]], []),
      State(false, [], [[], [a]], [b]),
      State(false, [], [[], []], [b, a])];
    assert [] + [a] == [a] && [] + [b] == [b] && [b] + [a] == [b, a];
    assert [b, a][1..] == [a] && [a][1..] == [];
    assert [] + [[a]] == [[a]] && [[]] + [[b, a]] == [[], [b, a]];
    assert [[a]][0 := []] == [[]];
    assert [[], [b, a]][1 := [a]] == [[], [a]] && [[], [a]][1 := []] == [[], []];
    forall i | 0 <= i < |steps|
      ensures Enabled(states[i], steps[i]) && Next(states[i], steps[i]) == states[i + 1]
    {
      assert i == 0 || i == 1 || i == 2 || i == 3 || i == 4 || i == 5 || i == 6 || i == 7 || i == 8;
    }
    Chain(states, steps);
  }

  // ----- and only then -----

  predicate AllHeld(s: seq<Event>) {
    forall i :: 0 <= i < |s| ==> s[i].held
  }

  /** Whatever waits was posted under the lock. */
  predicate WaitingHeld(s: State) {
    && (!s.locked ==> s.queue == [])
    && AllHeld(s.queue) && forall t :: 0 <= t < |s.drains| ==> AllHeld(s.drains[t])
  }

  lemma {:induction false} RunHeld(s: State, steps: seq<Step>)
    requires IsRun(s, steps) && WaitingHeld(s)
    ensures WaitingHeld(After(s, steps))
    decreases |steps|
  {
    if steps != [] {
      StepHeld(s, steps[0]);
      hide Next, Enabled, WaitingHeld;
      RunHeld(Next(s, steps[0]), steps[1..]);
    }
  }

  lemma StepHeld(s: State, step: Step)
    requires Enabled(s, step) && WaitingHeld(s)
    ensures WaitingHeld(Next(s, step))
  {
  }

  lemma {:induction false} AllHeldIsHeld(s: seq<Event>)
    requires AllHeld(s)
    ensures Held(s) == s
  {
    if s != [] {
      AllHeldIsHeld(s[1..]);
    }
  }

  lemma {:induction false} HeldIn(s: seq<Event>, e: Event)
    requires e in Held(s)
    ensures e in s
  {
    if !(s[0].held && e == s[0]) {
      HeldIn(s[1..], e);
    }
  }

  /** Runs one after another. */
  lemma {:induction false} RunAppend(s: State, a: seq<Step>, b: seq<Step>)
    requires IsRun(s, a)
    ensures IsRun(s, a + b) <==> IsRun(After(s, a), b)
    ensures IsRun(s, a + b) ==>
              && After(s, a + b) == After(After(s, a), b)
              && PostedIn(s, a + b) == PostedIn(s, a) + PostedIn(After(s, a), b)
              && (Calm(s, a + b) <==> Calm(s, a) && Calm(After(s, a), b))
    decreases |a|
  {
    hide Next, Enabled, Flat;
    if a == [] {
      assert a + b == b;
      if IsRun(s, b) {
        assert [] + PostedIn(s, b) == PostedIn(s, b);
      }
    } else {
      assert (a + b)[0] == a[0] && (a + b)[1..] == a[1..] + b;
      RunAppend(Next(s, a[0]), a[1..], b);
    }
  }

  predicate NoLock(steps: seq<Step>) {
    steps == [] || (!steps[0].Lock? && NoLock(steps[1..]))
  }

  lemma {:induction false} NoLockIsCalm(s: State, steps: seq<Step>)
    requires IsRun(s, steps) && NoLock(steps)
    ensures Calm(s, steps)
    decreases |steps|
  {
    hide Next, Enabled;
    if steps != [] {
      NoLockIsCalm(Next(s, steps[0]), steps[1..]);
    }
  }

  /** A thread delivers all it has. */
  lemma {:induction false} DrainWhole(s: State, t: nat) returns (steps: seq<Step>)
    requires !s.locked && t < |s.drains|
    ensures NoLock(steps) && IsRun(s, steps) && PostedIn(s, steps) == []
    ensures After(s, steps).delivered == s.delivered + s.drains[t]
    decreases |s.drains[t]|
  {
    steps := [];
    var d := s.drains[t];
    if d != [] {
      var next := Next(s, Drain(t));
      var rest := DrainWhole(next, t);
      steps := [Drain(t)] + rest;
      assert steps[1..] == rest;
      assert d == [d[0]] + d[1..] && next.delivered == s.delivered + [d[0]];
      assert s.delivered + [d[0]] + d[1..] == s.delivered + d;
    } else {
      assert s.delivered + d == s.delivered;
    }
  }

  /** A number larger than those of some events. */
  function NewId(s: seq<Event>): (id: nat)
    ensures forall e :: e in s ==> e.id < id
  {
    if s == [] then 0 else
      var n := NewId(s[1..]);
      if n > s[0].id then n else s[0].id + 1
  }

  /** While the lock is held and an event waits to be delivered, one more event posted can overtake it: the
      continuation, which does not lock. */
  lemma Overtaking(s: State, id: nat) returns (steps: seq<Step>, early: seq<Event>, late: Event)
    requires s.locked && Flat(s.drains) != [] && WaitingHeld(s)
    ensures NoLock(steps) && IsRun(s, steps) && PostedIn(s, steps) == [Event(id, true)]
    ensures After(s, steps).delivered == early + [Event(id, true), late] && late.held
  {
    FlatEmpty(s.drains);
    var t :| 0 <= t < |s.drains| && s.drains[t] != [];
    late := s.drains[t][0];
    var e := Event(id, true);
    var s1 := Next(s, Post(id));
    var s2 := Next(s1, Drain(t));
    var s3 := Next(s2, Unlock);
    assert s2.queue == s.queue + [e, late];
    var n := |s2.drains|;
    assert s3.drains[n] == s2.queue && !s3.locked;
    var rest := DrainWhole(s3, n);
    steps := [Post(id)] + ([Drain(t)] + ([Unlock] + rest));
    OneStep(s2, Unlock, rest);
    OneStep(s1, Drain(t), [Unlock] + rest);
    OneStep(s, Post(id), [Drain(t)] + ([Unlock] + rest));
    early := s.delivered + s.queue;
    assert s.delivered + (s.queue + [e, late]) == early + [e, late];
  }

  lemma OneStep(s: State, step: Step, rest: seq<Step>)
    requires Enabled(s, step) && IsRun(Next(s, step), rest)
    ensures IsRun(s, [step] + rest) && After(s, [step] + rest) == After(Next(s, step), rest)
    ensures PostedIn(s, [step] + rest)
            == (if step.Post? then [Event(step.id, s.locked)] else []) + PostedIn(Next(s, step), rest)
    ensures NoLock([step] + rest) <==> !step.Lock? && NoLock(rest)
  {
    assert ([step] + rest)[1..] == rest;
  }

  /** Delivered in the order of posting, as far as the events posted under the lock go. */
  predicate OrderKept(steps: seq<Step>)
    requires IsRun(Start, steps)
  {
    Held(After(Start, steps).delivered) <= Held(PostedIn(Start, steps))
  }

  /** From every reachable state in which the lock is held while an event waits to be delivered, some
      continuation without another lock changes the order. */
  lemma CanReorder(steps: seq<Step>) returns (more: seq<Step>)
    requires IsRun(Start, steps) && After(Start, steps).locked && Flat(After(Start, steps).drains) != []
    ensures NoLock(more) && IsRun(Start, steps + more) && !OrderKept(steps + more)
  {
    hide Held, Flat, IsRun, After, PostedIn, Calm, WaitingHeld, NoLock;
    StartHeld();
    RunHeld(Start, steps);
    var posted := PostedIn(Start, steps);
    var id := NewId(posted);
    var early, late;
    more, early, late := Overtaking(After(Start, steps), id);
    RunAppend(Start, steps, more);
    NoPrefix(posted, early, Event(id, true), late);
  }

  lemma StartHeld()
    ensures WaitingHeld(Start)
  {
  }

  /** Where the last event posted is new and another is delivered after it, the order is not kept. */
  lemma NoPrefix(posted: seq<Event>, early: seq<Event>, e: Event, late: Event)
    requires e !in posted && e.held && late.held
    ensures !(Held(early + [e, late]) <= Held(posted + [e]))
  {
    hide Held;
    HeldAppend(early, [e, late]);
    HeldAppend(posted, [e]);
    HeldOne(e);
    HeldTwo(e, late);
    var k := |Held(early)|;
    if Held(early + [e, late]) <= Held(posted + [e]) {
      assert Held(early + [e, late])[k] == e;
      assert Held(posted + [e])[k] == e && k < |Held(posted)|;
      assert Held(posted)[k] == e;
      HeldIn(posted, e);
      assert false;
    }
  }

  lemma HeldTwo(e: Event, f: Event)
    requires e.held && f.held
    ensures Held([e, f]) == [e, f]
  {
    AllHeldIsHeld([e, f]);
  }

  /** Where a run is not calm, somebody locks at a step while an event waits. */
  lemma {:induction false} LockedAt(s: State, steps: seq<Step>) returns (k: nat)
    requires IsRun(s, steps) && !Calm(s, steps)
    ensures k < |steps| && steps[k] == Lock && IsRun(s, steps[..k]) && IsRun(s, steps[..k + 1])
    ensures After(s, steps[..k + 1]).locked && Flat(After(s, steps[..k + 1]).drains) != []
    decreases |steps|
  {
    if steps[0].Lock? && Flat(s.drains) != [] {
      k := 0;
      assert steps[..1] == [Lock] && [Lock][1..] == [] && steps[..0] == [];
    } else {
      var j := LockedAt(Next(s, steps[0]), steps[1..]);
      k := j + 1;
      assert steps[..k] == [steps[0]] + steps[1..][..j] && steps[..k + 1] == [steps[0]] + steps[1..][..j + 1];
      OneStep(s, steps[0], steps[1..][..j]);
      OneStep(s, steps[0], steps[1..][..j + 1]);
    }
  }

  /** Calm is the exact condition: a run is calm exactly when, wherever it is broken off, every continuation
      that does not lock delivers in order. */
  lemma CalmExactly(steps: seq<Step>)
    requires IsRun(Start, steps)
    ensures Calm(Start, steps)
            <==> forall k: nat, more :: k <= |steps| && NoLock(more) && IsRun(Start, steps[..k] + more) ==> OrderKept(steps[..k] + more)
  {
    hide IsRun, After, PostedIn, Calm, Held, Flat, NoLock;
    if Calm(Start, steps) {
      forall k: nat, more | k <= |steps| && NoLock(more) && IsRun(Start, steps[..k] + more)
        ensures OrderKept(steps[..k] + more)
      {
        assert steps == steps[..k] + steps[k..];
        PrefixRuns(Start, steps, k);
        RunAppend(Start, steps[..k], steps[k..]);
        RunAppend(Start, steps[..k], more);
        NoLockIsCalm(After(Start, steps[..k]), more);
        DeliveredInOrder(steps[..k] + more);
      }
    } else {
      var k := LockedAt(Start, steps);
      var more := CanReorder(steps[..k + 1]);
    }
  }

  lemma {:induction false} PrefixRuns(s: State, steps: seq<Step>, k: nat)
    requires IsRun(s, steps) && k <= |steps|
    ensures IsRun(s, steps[..k])
    decreases k
  {
    if k > 0 {
      PrefixRuns(Next(s, steps[0]), steps[1..], k - 1);
      assert steps[..k] == [steps[0]] + steps[1..][..k - 1];
      OneStep(s, steps[0], steps[1..][..k - 1]);
    }
  }

  /** The queue as one thread meets it. The callback is what receives the events delivered. */
  class EventQueue {
    var locked: bool
    var queue: seq<Event>
    ghost var delivered: seq<Event>

    ghost function Library(): State
      reads this
    {
      State(locked, queue, [], delivered)
    }

    constructor ()
      ensures Library() == Start
    {
      locked, queue, delivered := false, [], [];
    }

    /** get_iaxc_lock */
    method GetLock()
      requires !locked
      modifies this
      ensures Library() == Next(old(Library()), Lock)
    {
      locked := true;
    }

    /** iaxc_post_event */
    method PostEvent(e: Event)
      modifies this
      ensures Library() == Posted(old(Library()), e)
    {
      if locked {
        queue := queue + [e];
        return;
      }
      delivered := delivered + [e];
    }

    /** put_iaxc_lock: what was queued under the lock is delivered, in order, and nothing stays behind. */
    method PutLock()
      requires locked
      modifies this
      ensures !locked && queue == [] && delivered == old(delivered) + old(queue)
    {
      var events := queue;
      queue := [];
      locked := false;
      ghost var done := [];
      while events != []
        invariant !locked && queue == [] && done + events == old(queue)
        invariant delivered == old(delivered) + done
        decreases |events|
      {
        PostEvent(events[0]);
        done := done + [events[0]];
        events := events[1..];
      }
    }
  }
}
