/** The call table of iaxclient/lib/iaxclient_lib.c: calls, their sessions, the selected call and the
    registrations. The network layer is a parameter: it supplies sessions that are not in use. */
module Calls {

  const Free: bv8 := 0
  const Active: bv8 := 2
  const Outgoing: bv8 := 4
  const Ringing: bv8 := 8
  const Complete: bv8 := 16
  const Selected: bv8 := 32
  const Busy: bv8 := 64
  const Transfer: bv8 := 128

  predicate Has(state: bv8, bit: bv8) {
    state & bit != 0
  }

  function Set(state: bv8, bit: bv8): bv8 {
    state | bit
  }

  function Cleared(state: bv8, bit: bv8): bv8 {
    state & !bit
  }

  /** A session; 0 is none. */
  type Session = nat

  datatype Call = Call(state: bv8, session: Session, format: int)

  datatype Registration = Registration(id: nat, session: Session)

  /** Events from the network. */
  datatype NetEvent =
    | Nothing | Hangup | Reject | Accept(format: int) | Answer | IsBusy | Voice | Text | RingA | Pong | Url | Cng
    | Timeout | Transferred | Connect | RegAck | RegRej | RegReq | Other

  predicate IsBit(bit: bv8) {
    bit == 2 || bit == 4 || bit == 8 || bit == 16 || bit == 32 || bit == 64 || bit == 128
  }

  lemma Bits(state: bv8, a: bv8, b: bv8)
    requires IsBit(a) && IsBit(b)
    ensures Has(Set(state, a), b) <==> a == b || Has(state, b)
    ensures Has(Cleared(state, a), b) <==> a != b && Has(state, b)
    ensures !Has(Free, a)
  {
  }

  lemma NewCallBits()
    ensures Has(Set(Active, Outgoing), Active) && !Has(Set(Active, Outgoing), Selected)
    ensures Has(Set(Active, Ringing), Active) && !Has(Set(Active, Ringing), Selected)
  {
  }

  // ----- what every reachable table satisfies -----

  /** A call is active exactly when it holds a session. */
  predicate ActiveHoldsSession(calls: seq<Call>) {
    forall i :: 0 <= i < |calls| ==> (Has(calls[i].state, Active) <==> calls[i].session != 0)
  }

  predicate OnlySelectedMarked(calls: seq<Call>, selected: int) {
    forall i :: 0 <= i < |calls| && i != selected ==> !Has(calls[i].state, Selected)
  }

  /** No live session is held twice. */
  predicate Distinct(calls: seq<Call>, regs: seq<Registration>) {
    && (forall i, j :: 0 <= i < j < |calls| && calls[i].session != 0 ==> calls[i].session != calls[j].session)
    && (forall i, j :: 0 <= i < j < |regs| && regs[i].session != 0 ==> regs[i].session != regs[j].session)
    && (forall i, j :: 0 <= i < |calls| && 0 <= j < |regs| && calls[i].session != 0 ==> calls[i].session != regs[j].session)
  }

  predicate InUse(calls: seq<Call>, regs: seq<Registration>, s: Session) {
    (exists i :: 0 <= i < |calls| && calls[i].session == s) || (exists j :: 0 <= j < |regs| && regs[j].session == s)
  }

  predicate Table(calls: seq<Call>, regs: seq<Registration>, selected: int) {
    && selected < |calls|
    && ActiveHoldsSession(calls) && OnlySelectedMarked(calls, selected) && Distinct(calls, regs)
  }

  /** A call changes, but neither its session nor whether it is active. */
  lemma TableSame(calls: seq<Call>, regs: seq<Registration>, selected: int, k: nat, c: Call)
    requires Table(calls, regs, selected) && k < |calls|
    requires c.session == calls[k].session && (Has(c.state, Active) <==> Has(calls[k].state, Active))
    requires k != selected ==> !Has(c.state, Selected)
    ensures Table(calls[k := c], regs, selected)
  {
    hide Has;
  }

  /** A call is given up. */
  lemma TableFreed(calls: seq<Call>, regs: seq<Registration>, selected: int, k: nat)
    requires Table(calls, regs, selected) && k < |calls|
    ensures Table(calls[k := Call(Free, 0, 0)], regs, selected)
  {
    Bits(Free, Active, Active);
    Bits(Free, Selected, Selected);
    hide Has;
  }

  /** A call without a session gets one that is not in use. */
  lemma TableTaken(calls: seq<Call>, regs: seq<Registration>, selected: int, k: nat, c: Call)
    requires Table(calls, regs, selected) && k < |calls| && calls[k].session == 0
    requires c.session != 0 && Has(c.state, Active) && !Has(c.state, Selected) && !InUse(calls, regs, c.session)
    ensures Table(calls[k := c], regs, selected)
  {
    hide Has;
  }

  /** Another call is selected, after the mark of the one selected before is gone. */
  lemma TableSelected(calls: seq<Call>, regs: seq<Registration>, selected: int, next: int)
    requires Table(calls, regs, selected) && next < |calls|
    requires 0 <= selected ==> !Has(calls[selected].state, Selected)
    ensures Table(calls, regs, next)
  {
    hide Has;
  }

  /** Registrations change: each session they now hold is one they held, or one not in use. */
  lemma TableRegs(calls: seq<Call>, regs: seq<Registration>, next: seq<Registration>, selected: int, k: nat, r: Registration)
    requires Table(calls, regs, selected)
    requires r.session != 0 ==> !InUse(calls, regs, r.session)
    ensures next == [r] + regs ==> Table(calls, next, selected)
    ensures k < |regs| && next == regs[k := r] ==> Table(calls, next, selected)
    ensures k < |regs| && next == regs[..k] + regs[k + 1..] ==> Table(calls, next, selected)
  {
    hide ActiveHoldsSession, OnlySelectedMarked;
  }

  class Client {
    const calls: array<Call>
    var selected: int
    var registrations: seq<Registration>
    var nextId: nat
    ghost var told: seq<bv8>   // the state of each call that was last reported

    ghost predicate Valid()
      reads this, calls
    {
      Table(calls[..], registrations, selected) && |told| == calls.Length
    }

    /** The calls of which the last report is right. */
    ghost predicate Right(i: nat)
      reads this, calls
    {
      i < calls.Length == |told| && told[i] == calls[i].state
    }

    constructor (n: nat)
      requires n > 0
      ensures Valid() && (forall i :: 0 <= i < n ==> Right(i) && calls[i] == Call(Free, 0, 0)) && calls.Length == n && selected == 0 && fresh(calls) && registrations == []
    {
      calls := new Call[n](_ => Call(Free, 0, 0));
      selected := 0;
      registrations := [];
      nextId := 0;
      told := seq(n, _ => Free);
      new;
      NewTable(calls[..]);
    }

    /** iaxc_first_free_call */
    method FirstFree() returns (k: int)
      ensures -1 <= k < calls.Length
      ensures k >= 0 ==> calls[k].state == Free && forall i :: 0 <= i < k ==> calls[i].state != Free
      ensures k == -1 ==> forall i :: 0 <= i < calls.Length ==> calls[i].state != Free
    {
      var i := 0;
      while i < calls.Length
        invariant 0 <= i <= calls.Length && forall j :: 0 <= j < i ==> calls[j].state != Free
      {
        if calls[i].state == Free {
          return i;
        }
        i := i + 1;
      }
      return -1;
    }

    /** iaxc_do_state_callback */
    method Report(k: int)
      requires |told| == calls.Length
      modifies this`told
      ensures told == if 0 <= k < calls.Length then old(told)[k := calls[k].state] else old(told)
    {
      if k < 0 || k >= calls.Length {
        return;
      }
      told := told[k := calls[k].state];
    }

    /** A call is changed. */
    method Change(k: nat, c: Call)
      requires Valid() && k < calls.Length
      requires c.session == calls[k].session && (Has(c.state, Active) <==> Has(calls[k].state, Active))
      requires k != selected ==> !Has(c.state, Selected)
      modifies calls
      ensures Valid() && calls[..] == old(calls[..])[k := c]
    {
      hide Table, Has;
      TableSame(calls[..], registrations, selected, k, c);
      ghost var was := calls[..];
      calls[k] := c;
      assert calls[..] == was[k := c];
    }

    /** A call is changed, and the user told. */
    method ChangeReported(k: nat, c: Call)
      requires Valid() && k < calls.Length
      requires c.session == calls[k].session && (Has(c.state, Active) <==> Has(calls[k].state, Active))
      requires k != selected ==> !Has(c.state, Selected)
      modifies this`told, calls
      ensures Valid() && calls[..] == old(calls[..])[k := c] && calls[k] == c
      ensures Right(k) && forall i :: old(Right(i)) ==> Right(i)
    {
      hide Table, Has;
      Change(k, c);
      Report(k);
    }

    /** iaxc_clear_call */
    method ClearCall(k: nat)
      requires Valid() && k < calls.Length
      modifies this`told, calls
      ensures Valid() && calls[..] == old(calls[..])[k := Call(Free, 0, 0)]
      ensures Right(k) && forall i :: i != k && old(Right(i)) ==> Right(i)
    {
      hide Table, Has;
      ghost var was := calls[..];
      TableFreed(was, registrations, selected, k);
      calls[k] := Call(Free, 0, 0);
      assert calls[..] == was[k := Call(Free, 0, 0)];
      Report(k);
    }

    /** iaxc_answer_call */
    method AnswerCall(k: int)
      requires Valid() && k < calls.Length
      modifies this`told, calls
      ensures Valid()
      ensures k < 0 ==> calls[..] == old(calls[..]) && told == old(told)
      ensures k >= 0 ==> calls[..] == old(calls[..])[k := Answered(old(calls[k]))] && Right(k)
      ensures k >= 0 ==> Happened(NetEvent.Answer, old(calls[k]), calls[k])
      ensures forall i :: i != k && old(Right(i)) ==> Right(i)
    {
      hide Table, Has, Set, Cleared, Happened;
      if k < 0 {
        return;
      }
      AnsweredHappens(calls[k]);
      AnsweredBits(calls[k]);
      TableMarks(calls[..], registrations, selected, k);
      Change(k, Answered(calls[k]));
      Report(k);
    }

    /** The mark of the selected call is taken off. */
    method Deselect()
      requires Valid() && 0 <= selected
      modifies calls
      ensures Valid() && calls[..] == Deselected(old(calls[..]), selected)
      ensures !Has(calls[selected].state, Selected)
    {
      hide Table, Has, Set, Cleared;
      TableMarks(calls[..], registrations, selected, selected);
      Bits(calls[selected].state, Selected, Active);
      Bits(calls[selected].state, Selected, Selected);
      Change(selected, calls[selected].(state := Cleared(calls[selected].state, Selected)));
    }

    /** iaxc_select_call: below 0, none. An incoming call that rings is answered. */
    method SelectCall(k: int) returns (r: int)
      requires Valid()
      modifies this`selected, this`told, calls
      ensures Valid()
      ensures k >= calls.Length ==> r == -1 && calls[..] == old(calls[..]) && selected == old(selected) && told == old(told)
      ensures k < calls.Length ==> r == 0 && selected == k
      ensures k < 0 ==> calls[..] == Deselected(old(calls[..]), old(selected)) && told == old(told)
      // Nothing is reported then: the call selected before stays rightly reported exactly when it was not marked.
      ensures k < 0 && old(selected) >= 0 && old(Right(selected)) ==>
                (Right(old(selected)) <==> !Has(old(calls[selected]).state, Selected))
      ensures k < 0 ==> forall i :: i != old(selected) ==> (Right(i) <==> old(Right(i)))
      ensures k >= calls.Length ==> forall i :: Right(i) <==> old(Right(i))
      ensures 0 <= k < calls.Length ==>
                && calls[..] == AnsweredIfRinging(Marked(old(calls[..]), old(selected), k), k)
                && Right(k) && forall i :: i != k && old(Right(i)) ==> Right(i)
    {
      hide Table, Has, Set, Cleared;
      TableMarks(calls[..], registrations, selected, 0);
      if k >= calls.Length {
        return -1;
      }
      if k < 0 {
        if selected >= 0 {
          DeselectedUnreported(calls[selected]);
          Deselect();
        }
        TableSelected(calls[..], registrations, selected, k);
        selected := k;
        return 0;
      }
      if k != selected {
        if selected >= 0 {
          Deselect();
          Report(selected);
        }
        TableSelected(calls[..], registrations, selected, k);
        selected := k;
        Bits(calls[k].state, Selected, Active);
        Change(k, calls[k].(state := Set(calls[k].state, Selected)));
      }
      if !Has(calls[k].state, Outgoing) && Has(calls[k].state, Ringing) {
        AnswerCall(k);
      } else {
        Report(k);
      }
      return 0;
    }

    /** iaxc_call. `session`: the new session, if the network layer has one. Gives the call used. */
    method PlaceCall(session: Session) returns (k: int)
      requires Valid() && (session != 0 ==> !InUse(calls[..], registrations, session))
      modifies this`selected, this`told, calls
      ensures Valid() && -1 <= k < calls.Length
      ensures k == -1 ==> calls[..] == old(calls[..]) && selected == old(selected) && told == old(told)
      ensures k == -1 <==> session == 0 || ((old(selected) < 0 || Has(old(calls[selected]).state, Active))
                                            && forall i :: 0 <= i < calls.Length ==> old(calls[i]).state != Free)
      ensures k >= 0 ==>
                && old(calls[k]).session == 0 && session != 0 && selected == k
                && calls[..] == Marked(old(calls[..])[k := Call(Set(Active, Outgoing), session, old(calls[k]).format)], old(selected), k)
                && Right(k) && forall i :: i != k && old(Right(i)) ==> Right(i)
    {
      hide Table, Has, Set, Cleared, InUse;
      TableMarks(calls[..], registrations, selected, 0);
      if selected < 0 || Has(calls[selected].state, Active) {
        k := FirstFree();
      } else {
        k := selected;
      }
      if k < 0 {
        return;
      }
      if session == 0 {
        return -1;
      }
      TableMarks(calls[..], registrations, selected, k);
      Bits(Free, Active, Active);
      NewCallBits();
      ghost var was := calls[..];
      var c := Call(Set(Active, Outgoing), session, calls[k].format);
      TableTaken(was, registrations, selected, k, c);
      calls[k] := c;
      assert calls[..] == was[k := c];
      MarkedNewCall(was[k := c], selected, k);
      var r := SelectCall(k);
    }

    /** iaxc_dump_one_call */
    method DumpCall(k: int)
      requires Valid() && k < calls.Length
      modifies this`told, calls
      ensures Valid()
      ensures k < 0 ==> calls[..] == old(calls[..])
      ensures k >= 0 ==> calls[..] == old(calls[..])[k := calls[k]] && calls[k].state == Free && calls[k].session == 0
      ensures forall i :: old(Right(i)) ==> Right(i)
    {
      hide Table, Has;
      if k < 0 {
        return;
      }
      if calls[k].state == Free {
        TableMarks(calls[..], registrations, selected, k);
        Bits(Free, Active, Active);
        return;
      }
      ClearCall(k);
    }

    /** iaxc_dump_all_calls */
    method DumpAll()
      requires Valid()
      modifies this`told, calls
      ensures Valid() && forall i :: 0 <= i < calls.Length ==> calls[i].state == Free && calls[i].session == 0
      ensures forall i :: old(Right(i)) ==> Right(i)
    {
      hide Table, Has;
      var k := 0;
      while k < calls.Length
        invariant 0 <= k <= calls.Length && Valid()
        invariant forall i :: 0 <= i < k ==> calls[i].state == Free && calls[i].session == 0
        invariant forall i :: old(Right(i)) ==> Right(i)
      {
        ghost var was := calls[..];
        DumpCall(k);
        assert calls[..] == was[k := calls[k]];
        k := k + 1;
      }
    }

    /** iaxc_reject_call_number */
    method RejectCall(k: int)
      requires Valid() && k < calls.Length
      modifies this`told, calls
      ensures Valid()
      ensures calls[..] == if k < 0 then old(calls[..]) else old(calls[..])[k := Call(Free, 0, 0)]
      ensures forall i :: old(Right(i)) ==> Right(i)
    {
      if k >= 0 {
        ClearCall(k);
      }
    }

    /** iaxc_handle_network_event */
    method HandleEvent(e: NetEvent, k: int)
      requires Valid() && k < calls.Length
      modifies this`told, calls
      ensures Valid()
      ensures calls[..] == if k < 0 then old(calls[..]) else old(calls[..])[k := AfterEvent(old(calls[k]), e)]
      ensures k >= 0 ==> Happened(e, old(calls[k]), calls[k])
      ensures k >= 0 && calls[k].state != old(calls[k]).state ==> Right(k)
      ensures forall i :: old(Right(i)) ==> Right(i)
    {
      hide Table, Has, Set, Cleared, Happened;
      if k < 0 {
        return;
      }
      EventHappens(calls[k], e);
      EventBits(calls[k], e);
      TableMarks(calls[..], registrations, selected, k);
      match e {
        case Hangup =>
          ClearCall(k);
        case Reject =>
          ClearCall(k);
        case Timeout =>
          ClearCall(k);
        case Accept(format) =>
          Change(k, calls[k].(format := format));
        case Answer =>
          ChangeReported(k, AfterEvent(calls[k], e));
        case IsBusy =>
          ChangeReported(k, AfterEvent(calls[k], e));
        case Voice =>
          if Has(calls[k].state, Ringing) {
            ChangeReported(k, AfterEvent(calls[k], e));
          }
        case RingA =>
          ChangeReported(k, AfterEvent(calls[k], e));
        case Transferred =>
          ChangeReported(k, AfterEvent(calls[k], e));
        case _ =>
      }
    }

    /** iaxc_find_call_by_session */
    method FindCall(session: Session) returns (k: int)
      ensures -1 <= k < calls.Length
      ensures k >= 0 ==> calls[k].session == session
      ensures k == -1 ==> forall i :: 0 <= i < calls.Length ==> calls[i].session != session
    {
      var i := 0;
      while i < calls.Length
        invariant 0 <= i <= calls.Length && forall j :: 0 <= j < i ==> calls[j].session != session
      {
        if calls[i].session == session {
          return i;
        }
        i := i + 1;
      }
      return -1;
    }

    /** iaxc_find_registration_by_session */
    method FindRegistration(session: Session) returns (r: nat)
      ensures r <= |registrations| && (r < |registrations| ==> registrations[r].session == session)
      ensures forall i :: 0 <= i < r ==> registrations[i].session != session
    {
      r := 0;
      while r < |registrations|
        invariant r <= |registrations| && forall i :: 0 <= i < r ==> registrations[i].session != session
      {
        if registrations[r].session == session {
          return;
        }
        r := r + 1;
      }
    }

    /** iaxc_remove_registration_by_id */
    method RemoveRegistration(id: nat) returns (count: nat)
      requires Valid()
      modifies this`registrations
      ensures Valid() && registrations == WithoutId(old(registrations), id)
      ensures count == |old(registrations)| - |registrations|
    {
      hide Table;
      var r := 0;
      count := 0;
      while r < |registrations|
        invariant r <= |registrations| && forall i :: 0 <= i < r ==> registrations[i].id != id
      {
        if registrations[r].id == id {
          break;
        }
        r := r + 1;
      }
      WithoutIdIs(registrations, id, r);
      if r < |registrations| {
        count := 1;
        TableRegs(calls[..], registrations, registrations[..r] + registrations[r + 1..], selected, r, Registration(0, 0));
        registrations := registrations[..r] + registrations[r + 1..];
      }
    }

    /** iaxc_register. `session`: the new session, if the network layer has one. */
    method Register(session: Session) returns (id: int)
      requires Valid() && (session != 0 ==> !InUse(calls[..], registrations, session))
      modifies this`registrations, this`nextId
      ensures Valid()
      ensures session == 0 ==> id == -1 && registrations == old(registrations)
      ensures session != 0 ==> id == old(nextId) + 1 == nextId && registrations == [Registration(nextId, session)] + old(registrations)
    {
      hide Table, InUse;
      if session == 0 {
        return -1;
      }
      nextId := nextId + 1;
      var reg := Registration(nextId, session);
      TableRegs(calls[..], registrations, [reg] + registrations, selected, 0, reg);
      registrations := [reg] + registrations;
      return nextId;
    }

    /** One registration refreshed: its session is given up for a new one, if there is one. */
    method Refresh(r: nat, session: Session)
      requires Valid() && r < |registrations| && (session != 0 ==> !InUse(calls[..], registrations, session))
      modifies this`registrations
      ensures Valid() && registrations == old(registrations)[r := old(registrations)[r].(session := session)]
    {
      hide Table, InUse;
      var reg := registrations[r].(session := session);
      TableRegs(calls[..], registrations, registrations[r := reg], selected, r, reg);
      registrations := registrations[r := reg];
    }

    /** iaxc_handle_regreply */
    method HandleReply(e: NetEvent, r: nat)
      requires Valid() && r < |registrations|
      modifies this`registrations
      ensures Valid()
      ensures registrations == Replied(old(registrations), r, e)
    {
      hide Table;
      Refresh(r, 0);
      if e.RegRej? {
        var n := RemoveRegistration(registrations[r].id);
      }
    }

    /** iaxc_service_network, one event. `format`: the codec agreed on with a caller, or 0. */
    method ServiceEvent(e: NetEvent, session: Session, format: int) returns (k: int)
      requires Valid() && session != 0
      modifies this`told, this`registrations, calls
      ensures Valid() && -1 <= k < calls.Length
      ensures forall i :: old(Right(i)) ==> Right(i)
      // An event for a call.
      ensures k >= 0 && old(calls[k]).session == session ==>
                && calls[..] == old(calls[..])[k := AfterEvent(old(calls[k]), e)] && registrations == old(registrations)
                && Happened(e, old(calls[k]), calls[k]) && (calls[k].state != old(calls[k]).state ==> Right(k))
      // A new call, in the first free appearance.
      ensures k >= 0 && old(calls[k]).session != session ==>
                && e.Connect? && format != 0 && !old(InUse(calls[..], registrations, session))
                && old(calls[k]).state == Free && old(calls[k]).session == 0
                && (forall i :: 0 <= i < k ==> old(calls[i]).state != Free)
                && calls[..] == old(calls[..])[k := Call(Set(Active, Ringing), session, format)]
                && registrations == old(registrations)
      ensures k == -1 ==>
                && calls[..] == old(calls[..])
                && (forall i :: 0 <= i < calls.Length ==> old(calls[i]).session != session)
                && (e.Connect? && format != 0 && !old(InUse(calls[..], registrations, session)) ==>
                      forall i :: 0 <= i < calls.Length ==> old(calls[i]).state != Free)
      // A reply to the registration of that session, if there is one.
      ensures k == -1 ==> forall r :: 0 <= r < |old(registrations)| && old(registrations)[r].session == session ==>
                registrations == Replied(old(registrations), r, e)
      ensures k == -1 && (forall r :: 0 <= r < |old(registrations)| ==> old(registrations)[r].session != session) ==>
                registrations == old(registrations)
    {
      hide Table, Has, Set, Cleared, Happened, AfterEvent;
      k := FindCall(session);
      if k >= 0 {
        HandleEvent(e, k);
        return;
      }
      var r := FindRegistration(session);
      if r < |registrations| {
        ghost var regs := registrations;
        forall q | 0 <= q < |regs| && regs[q].session == session
          ensures q == r
        {
          OneOfSession(calls[..], regs, selected, q, r);
        }
        HandleReply(e, r);
        return;
      }
      if e.Connect? {
        k := FirstFree();
        if k < 0 || format == 0 {
          return -1;
        }
        AcceptCall(k, session, format);
      }
    }

    /** An incoming call takes a free appearance. */
    method AcceptCall(k: nat, session: Session, format: int)
      requires Valid() && k < calls.Length && calls[k].state == Free
      requires session != 0 && !InUse(calls[..], registrations, session)
      modifies this`told, calls
      ensures Valid() && calls[..] == old(calls[..])[k := Call(Set(Active, Ringing), session, format)]
      ensures old(calls[k]).session == 0 && forall i :: old(Right(i)) ==> Right(i)
    {
      hide Table, Has, Set, Cleared, InUse;
      TableMarks(calls[..], registrations, selected, k);
      Bits(Free, Active, Active);
      NewCallBits();
      ghost var was := calls[..];
      var c := Call(Set(Active, Ringing), session, format);
      TableTaken(was, registrations, selected, k, c);
      calls[k] := c;
      assert calls[..] == was[k := c];
      Report(k);
    }
  }

  // ----- what the operations make of the table -----

  function Answered(c: Call): Call {
    c.(state := Cleared(Set(c.state, Complete), Ringing))
  }

  function Deselected(calls: seq<Call>, selected: int): (r: seq<Call>)
    requires selected < |calls|
    ensures |r| == |calls|
  {
    if selected < 0 then calls
    else calls[selected := calls[selected].(state := Cleared(calls[selected].state, Selected))]
  }

  /** Only call k carries the mark, unless it was selected already. */
  function Marked(calls: seq<Call>, selected: int, k: int): (r: seq<Call>)
    requires selected < |calls| && 0 <= k < |calls|
    ensures |r| == |calls|
  {
    if k == selected then calls
    else
      var d := Deselected(calls, selected);
      d[k := d[k].(state := Set(d[k].state, Selected))]
  }

  function AnsweredIfRinging(calls: seq<Call>, k: int): seq<Call>
    requires 0 <= k < |calls|
  {
    if !Has(calls[k].state, Outgoing) && Has(calls[k].state, Ringing) then calls[k := Answered(calls[k])] else calls
  }

  /** The bits of a state other than one or two are as before. */
  ghost predicate SameBut(before: bv8, after: bv8, a: bv8, b: bv8) {
    forall bit :: IsBit(bit) && bit != a && bit != b ==> (Has(after, bit) <==> Has(before, bit))
  }

  /** What an event makes of a call, bit by bit. */
  ghost predicate Happened(e: NetEvent, before: Call, after: Call) {
    match e
    case Hangup => after.state == Free && after.session == 0 && after.format == 0
    case Reject => after.state == Free && after.session == 0 && after.format == 0
    case Timeout => after.state == Free && after.session == 0 && after.format == 0
    case Accept(format) => after.state == before.state && after.session == before.session && after.format == format
    case Answer =>
      && Has(after.state, Complete) && !Has(after.state, Ringing) && SameBut(before.state, after.state, Complete, Ringing)
      && after.session == before.session && after.format == before.format
    case IsBusy =>
      && Has(after.state, Busy) && !Has(after.state, Ringing) && SameBut(before.state, after.state, Busy, Ringing)
      && after.session == before.session && after.format == before.format
    case Voice =>
      && !Has(after.state, Ringing) && SameBut(before.state, after.state, Ringing, Ringing)
      && after.session == before.session && after.format == before.format
    case RingA =>
      && Has(after.state, Ringing) && SameBut(before.state, after.state, Ringing, Ringing)
      && after.session == before.session && after.format == before.format
    case Transferred =>
      && Has(after.state, Transfer) && SameBut(before.state, after.state, Transfer, Transfer)
      && after.session == before.session && after.format == before.format
    case _ => after == before
  }

  /** The events do that. */
  lemma EventHappens(c: Call, e: NetEvent)
    ensures Happened(e, c, AfterEvent(c, e))
  {
    hide Has, Set, Cleared;
    var rest := Cleared(c.state, Ringing);
    assert IsBit(Ringing) && IsBit(Complete) && IsBit(Busy) && IsBit(Transfer);
    forall bit | IsBit(bit)
      ensures Has(rest, bit) <==> bit != Ringing && Has(c.state, bit)
      ensures Has(Set(rest, Complete), bit) <==> bit == Complete || Has(rest, bit)
      ensures Has(Set(rest, Busy), bit) <==> bit == Busy || Has(rest, bit)
      ensures Has(Set(c.state, Ringing), bit) <==> bit == Ringing || Has(c.state, bit)
      ensures Has(Set(c.state, Transfer), bit) <==> bit == Transfer || Has(c.state, bit)
    {
      Bits(c.state, Ringing, bit);
      Bits(rest, Complete, bit);
      Bits(rest, Busy, bit);
      Bits(c.state, Transfer, bit);
    }
  }

  /** Answering a call is what the event of its being answered does. */
  lemma AnsweredHappens(c: Call)
    ensures Happened(NetEvent.Answer, c, Answered(c))
  {
    hide Has, Set, Cleared;
    assert IsBit(Ringing) && IsBit(Complete);
    forall bit | IsBit(bit)
      ensures Has(Cleared(Set(c.state, Complete), Ringing), bit) <==> bit != Ringing && (bit == Complete || Has(c.state, bit))
    {
      Bits(c.state, Complete, bit);
      Bits(Set(c.state, Complete), Ringing, bit);
    }
  }

  function AfterEvent(c: Call, e: NetEvent): Call {
    match e
    case Hangup => Call(Free, 0, 0)
    case Reject => Call(Free, 0, 0)
    case Timeout => Call(Free, 0, 0)
    case Accept(format) => c.(format := format)
    case Answer => c.(state := Set(Cleared(c.state, Ringing), Complete))
    case IsBusy => c.(state := Set(Cleared(c.state, Ringing), Busy))
    case Voice => if Has(c.state, Ringing) then c.(state := Cleared(c.state, Ringing)) else c
    case RingA => c.(state := Set(c.state, Ringing))
    case Transferred => c.(state := Set(c.state, Transfer))
    case _ => c
  }

  /** An event ends a call, or leaves its session and the bits that matter to the table. */
  lemma EventBits(c: Call, e: NetEvent)
    ensures var d := AfterEvent(c, e);
            || e.Hangup? || e.Reject? || e.Timeout?
            || (d.session == c.session && (Has(d.state, Active) <==> Has(c.state, Active))
                && (Has(d.state, Selected) <==> Has(c.state, Selected)))
  {
    Bits(c.state, Ringing, Active);
    Bits(c.state, Ringing, Selected);
    Bits(c.state, Transfer, Active);
    Bits(c.state, Transfer, Selected);
    Bits(Cleared(c.state, Ringing), Complete, Active);
    Bits(Cleared(c.state, Ringing), Complete, Selected);
    Bits(Cleared(c.state, Ringing), Busy, Active);
    Bits(Cleared(c.state, Ringing), Busy, Selected);
    hide Has, Set, Cleared;
  }

  /** Selecting no call changes the call selected before without a report: what was reported of it stays
      right exactly when it was not marked. */
  lemma DeselectedUnreported(c: Call)
    ensures c.state == Cleared(c.state, Selected) <==> !Has(c.state, Selected)
  {
  }

  /** Two calls, none in use: one is selected, and then none. The last report of it says that it is selected. */
  method SelectThenNone() returns (c: Client)
    ensures fresh(c) && c.Valid() && c.selected == -1 && c.calls.Length == 2
    ensures c.Right(0) && !c.Right(1) && Has(c.told[1], Selected) && !Has(c.calls[1].state, Selected)
  {
    hide Table, Has, Set, Cleared;
    c := new Client(2);
    var none := c.calls[1].state;
    var r := c.SelectCall(1);
    FreshlySelected(c.calls[1], none);
    Bits(Set(none, Selected), Selected, Selected);
    r := c.SelectCall(-1);
  }

  /** A first call, in the numbers a user sees: active and outgoing, then ringing as well, then complete. It is the
      call selected from the start, and so is never marked as selected. */
  method FirstCall() returns (placed: bv8, ringing: bv8, answered: bv8)
    ensures placed == 2 + 4 && ringing == 2 + 4 + 8 && answered == 2 + 4 + 16
  {
    hide Table, InUse, Has, Set, Cleared;
    var c := new Client(1);
    NotInUse(c.calls[..], 7);
    Numbers();
    var k := c.PlaceCall(7);
    assert k == 0;
    placed := c.calls[0].state;
    c.HandleEvent(RingA, 0);
    ringing := c.calls[0].state;
    c.HandleEvent(NetEvent.Answer, 0);
    answered := c.calls[0].state;
  }

  lemma NotInUse(calls: seq<Call>, session: Session)
    requires session != 0 && forall i :: 0 <= i < |calls| ==> calls[i] == Call(Free, 0, 0)
    ensures !InUse(calls, [], session)
  {
  }

  lemma Numbers()
    ensures Set(Active, Outgoing) == 6 && Set(6, Ringing) == 14 && Set(Cleared(14, Ringing), Complete) == 22
    ensures !Has(Free, Active)
  {
  }

  lemma FreshlySelected(c: Call, was: bv8)
    ensures was == Free ==> !Has(Set(was, Selected), Outgoing) && !Has(Set(was, Selected), Ringing) && Has(Set(was, Selected), Selected)
  {
  }

  /** A new outgoing call is not answered when it is selected. */
  lemma MarkedNewCall(calls: seq<Call>, selected: int, k: int)
    requires selected < |calls| && 0 <= k < |calls| && calls[k].state == Set(Active, Outgoing)
    ensures AnsweredIfRinging(Marked(calls, selected, k), k) == Marked(calls, selected, k)
  {
    Bits(calls[k].state, Selected, Outgoing);
    assert Has(calls[k].state, Outgoing);
  }

  /** Registrations without the first of an id. */
  function WithoutId(regs: seq<Registration>, id: nat): (r: seq<Registration>)
    ensures |regs| - 1 <= |r| <= |regs|
  {
    if regs == [] then [] else if regs[0].id == id then regs[1..] else [regs[0]] + WithoutId(regs[1..], id)
  }

  /** Registration r after a reply: it gives up its session, and a rejected one is removed. */
  function Replied(regs: seq<Registration>, r: nat, e: NetEvent): seq<Registration>
    requires r < |regs|
  {
    var done := regs[r := regs[r].(session := 0)];
    if e.RegRej? then WithoutId(done, done[r].id) else done
  }

  lemma OneOfSession(calls: seq<Call>, regs: seq<Registration>, selected: int, i: nat, j: nat)
    requires Table(calls, regs, selected) && i < |regs| && j < |regs| && regs[i].session == regs[j].session != 0
    ensures i == j
  {
  }

  lemma {:induction false} WithoutIdIs(regs: seq<Registration>, id: nat, r: nat)
    requires r <= |regs| && forall i :: 0 <= i < r ==> regs[i].id != id
    requires r < |regs| ==> regs[r].id == id
    ensures WithoutId(regs, id) == if r < |regs| then regs[..r] + regs[r + 1..] else regs
    decreases r
  {
    if r > 0 {
      WithoutIdIs(regs[1..], id, r - 1);
      assert regs == [regs[0]] + regs[1..];
    }
  }

  lemma NewTable(calls: seq<Call>)
    requires calls != [] && forall i :: 0 <= i < |calls| ==> calls[i] == Call(Free, 0, 0)
    ensures Table(calls, [], 0)
  {
    Bits(Free, Active, Active);
    Bits(Free, Selected, Selected);
  }

  lemma AnsweredBits(c: Call)
    ensures (Has(Answered(c).state, Active) <==> Has(c.state, Active))
            && (Has(Answered(c).state, Selected) <==> Has(c.state, Selected))
  {
    Bits(c.state, Complete, Active);
    Bits(c.state, Complete, Selected);
    Bits(Set(c.state, Complete), Ringing, Active);
    Bits(Set(c.state, Complete), Ringing, Selected);
  }

  lemma TableMarks(calls: seq<Call>, regs: seq<Registration>, selected: int, k: nat)
    requires Table(calls, regs, selected)
    ensures k < |calls| && k != selected ==> !Has(calls[k].state, Selected)
    ensures k < |calls| ==> (Has(calls[k].state, Active) <==> calls[k].session != 0)
    ensures selected < |calls|
  {
  }
}
