/**
 * Software timers: a table of 15 slots, each counting down once per millisecond
 * (timer_check) and flagging its expiry, which the main loop (timer_loop) turns into
 * a callback carrying the slot number.
 */
module Timer {
  import opened Common

  const MAX_TIMERS: int := 15

  /** One entry of `timers`. The callback is an opaque identifier. */
  datatype Slot = Slot(running: bool, repeat: bool, timedOut: bool, msecs: u32, msecsToLive: u32, callback: nat)

  /** A callback made by timer_loop: which callback, and the slot number passed to it. */
  datatype Call = Call(callback: nat, event: nat)

  /** The zero-initialised slot of the static table. */
  const IDLE: Slot := Slot(false, false, false, 0, 0, 0)

  /** The countdown never exceeds its reload value. */
  predicate Bounded(s: Slot)
  {
    s.msecsToLive <= s.msecs
  }

  /** The slot left by timer_start. The repeat bit-field keeps only the low bit of the argument. */
  function Started(msecs: u32, callback: nat, repeat: u8): (s: Slot)
    ensures s.msecs == msecs && s.msecsToLive == msecs && s.callback == callback
    ensures s.repeat <==> repeat % 2 == 1
    ensures msecs > 0 ==> s.running && !s.timedOut
    ensures msecs == 0 ==> !s.running && s.timedOut
    ensures Bounded(s)
  {
    Slot(msecs > 0, repeat % 2 == 1, msecs == 0, msecs, msecs, callback)
  }

  /** A repeat argument of 2 gives a one-shot timer, although it is non-zero. */
  lemma RepeatTwoIsOneShot(msecs: u32, callback: nat)
    ensures !Started(msecs, callback, 2).repeat
    ensures Started(msecs, callback, 1).repeat
  {
  }

  /** One millisecond of timer_check for one slot. */
  function Tick(s: Slot): (r: Slot)
    ensures r.msecs == s.msecs && r.callback == s.callback && r.repeat == s.repeat
    ensures !s.running || s.msecsToLive == 0 ==> r == s
    ensures s.running && s.msecsToLive > 1 ==>
      r == s.(msecsToLive := s.msecsToLive - 1)
    ensures s.running && s.msecsToLive == 1 ==>
      r.timedOut && (if s.repeat then r.running && r.msecsToLive == s.msecs else !r.running && r.msecsToLive == 0)
    ensures Bounded(s) ==> Bounded(r)
  {
    if !s.running || s.msecsToLive == 0 then s
    else if s.msecsToLive > 1 then s.(msecsToLive := s.msecsToLive - 1)
    else if s.repeat then s.(msecsToLive := s.msecs, timedOut := true)
    else s.(msecsToLive := 0, timedOut := true, running := false)
  }

  /** `k` consecutive ticks. */
  function Ticks(s: Slot, k: nat): Slot
  {
    if k == 0 then s else Tick(Ticks(s, k - 1))
  }

  /**
   * A one-shot timer started with n > 0 and neither paused nor stopped runs and is not
   * timed out for the first n - 1 ticks, with n - k milliseconds left after tick k; it is
   * timed out and stopped after tick n.
   */
  lemma {:induction false} OneShotExpires(n: u32, callback: nat, k: nat)
    requires 0 < n && k <= n
    ensures var s := Ticks(Started(n, callback, 0), k);
      && !s.repeat && s.msecs == n
      && if k < n then s.running && !s.timedOut && s.msecsToLive == n - k
         else !s.running && s.timedOut && s.msecsToLive == 0
  {
    if k > 0 {
      OneShotExpires(n, callback, k - 1);
    }
  }

  /** After its period a repeating timer is back where it started, but flagged as timed out. */
  lemma {:induction false} RepeatingReloads(n: u32, callback: nat, k: nat)
    requires 0 < n && k <= n
    ensures var s := Ticks(Started(n, callback, 1), k);
      if k < n then s == Started(n, callback, 1).(msecsToLive := n - k)
      else s == Started(n, callback, 1).(timedOut := true)
  {
    if k > 0 {
      RepeatingReloads(n, callback, k - 1);
    }
  }

  /** The calls timer_loop makes for slots `from` onwards: the timed-out ones, in index order. */
  function Dispatched(table: seq<Slot>, from: nat): (calls: seq<Call>)
    requires from <= |table|
    ensures |calls| <= |table| - from
    decreases |table| - from
  {
    if from == |table| then []
    else if table[from].timedOut then [Call(table[from].callback, from)] + Dispatched(table, from + 1)
    else Dispatched(table, from + 1)
  }

  /** Every call timer_loop makes is for a timed-out slot, with that slot's callback and number. */
  lemma {:induction false} DispatchedSound(table: seq<Slot>, from: nat, j: nat)
    requires from <= |table| && j < |Dispatched(table, from)|
    ensures var c := Dispatched(table, from)[j];
      from <= c.event < |table| && table[c.event].timedOut && c.callback == table[c.event].callback
    decreases |table| - from
  {
    if table[from].timedOut {
      if j > 0 {
        DispatchedSound(table, from + 1, j - 1);
      }
    } else {
      DispatchedSound(table, from + 1, j);
    }
  }

  /** The calls come in strictly ascending slot order, so no slot is called back twice. */
  lemma {:induction false} DispatchedAscending(table: seq<Slot>, from: nat, j: nat, j': nat)
    requires from <= |table| && j < j' < |Dispatched(table, from)|
    ensures Dispatched(table, from)[j].event < Dispatched(table, from)[j'].event
    decreases |table| - from
  {
    if table[from].timedOut {
      DispatchedSound(table, from + 1, j' - 1);
      if j > 0 {
        DispatchedAscending(table, from + 1, j - 1, j' - 1);
      }
    } else {
      DispatchedAscending(table, from + 1, j, j');
    }
  }

  /** Every timed-out slot is called back. */
  lemma {:induction false} DispatchedComplete(table: seq<Slot>, from: nat, i: nat)
    requires from <= i < |table| && table[i].timedOut
    ensures exists j :: 0 <= j < |Dispatched(table, from)| && Dispatched(table, from)[j] == Call(table[i].callback, i)
    decreases |table| - from
  {
    var all := Dispatched(table, from);
    if i == from {
      assert all[0] == Call(table[i].callback, i);
    } else {
      DispatchedComplete(table, from + 1, i);
      var rest := Dispatched(table, from + 1);
      var j :| 0 <= j < |rest| && rest[j] == Call(table[i].callback, i);
      if table[from].timedOut {
        assert all[j + 1] == rest[j];
      }
    }
  }

  /** With slot `e` the only timed-out one, timer_loop makes exactly one call; with none, no call. */
  lemma {:induction false} DispatchedSingle(table: seq<Slot>, from: nat, e: int)
    requires from <= |table|
    requires forall i :: from <= i < |table| && i != e ==> !table[i].timedOut
    ensures from <= e < |table| && table[e].timedOut ==> Dispatched(table, from) == [Call(table[e].callback, e)]
    ensures !(from <= e < |table| && table[e].timedOut) ==> Dispatched(table, from) == []
    decreases |table| - from
  {
    if from < |table| {
      DispatchedSingle(table, from + 1, e);
    }
  }

  /** The module state of timer.c: the static `timers` array. */
  class TimerTable {
    var slots: array<Slot>

    ghost predicate Valid()
      reads this, slots
    {
      slots.Length == MAX_TIMERS && forall i :: 0 <= i < MAX_TIMERS ==> Bounded(slots[i])
    }

    constructor ()
      ensures Valid() && fresh(slots)
      ensures forall i :: 0 <= i < MAX_TIMERS ==> slots[i] == IDLE
    {
      slots := new Slot[MAX_TIMERS](_ => IDLE);
    }

    /** timer_start: the slot is (re)initialised from the arguments. */
    method Start(eventNumber: u8, msecs: u32, callback: nat, repeat: u8)
      requires Valid() && eventNumber < MAX_TIMERS
      modifies slots
      ensures Valid()
      ensures slots[eventNumber] == Started(msecs, callback, repeat)
      ensures forall i :: 0 <= i < MAX_TIMERS && i != eventNumber ==> slots[i] == old(slots[i])
    {
      var s := slots[eventNumber].(msecs := msecs, msecsToLive := msecs, repeat := repeat % 2 == 1,
                                   callback := callback);
      if msecs > 0 {
        s := s.(timedOut := false, running := true);
      } else {
        s := s.(timedOut := true, running := false);
      }
      slots[eventNumber] := s;
    }

    /** timer_pause: only `running` is cleared. */
    method Pause(eventNumber: u8)
      requires Valid() && eventNumber < MAX_TIMERS
      modifies slots
      ensures Valid()
      ensures slots[eventNumber] == old(slots[eventNumber]).(running := false)
      ensures forall i :: 0 <= i < MAX_TIMERS && i != eventNumber ==> slots[i] == old(slots[i])
    {
      slots[eventNumber] := slots[eventNumber].(running := false);
    }

    /** timer_resume: only `running` is set. */
    method Resume(eventNumber: u8)
      requires Valid() && eventNumber < MAX_TIMERS
      modifies slots
      ensures Valid()
      ensures slots[eventNumber] == old(slots[eventNumber]).(running := true)
      ensures forall i :: 0 <= i < MAX_TIMERS && i != eventNumber ==> slots[i] == old(slots[i])
    {
      slots[eventNumber] := slots[eventNumber].(running := true);
    }

    /** timer_stop: `running` and the countdown are cleared; a pending timeout stays pending. */
    method Stop(eventNumber: u8)
      requires Valid() && eventNumber < MAX_TIMERS
      modifies slots
      ensures Valid()
      ensures slots[eventNumber] == old(slots[eventNumber]).(running := false, msecsToLive := 0)
      ensures forall i :: 0 <= i < MAX_TIMERS && i != eventNumber ==> slots[i] == old(slots[i])
    {
      slots[eventNumber] := slots[eventNumber].(running := false, msecsToLive := 0);
    }

    /** timer_check, the 1 ms tick: every slot advances by one Tick. */
    method Check()
      requires Valid()
      modifies slots
      ensures Valid()
      ensures forall i :: 0 <= i < MAX_TIMERS ==> slots[i] == Tick(old(slots[i]))
    {
      var counter := 0;
      while counter < MAX_TIMERS
        invariant 0 <= counter <= MAX_TIMERS && Valid()
        invariant forall i :: 0 <= i < counter ==> slots[i] == Tick(old(slots[i]))
        invariant forall i :: counter <= i < MAX_TIMERS ==> slots[i] == old(slots[i])
      {
        var s := slots[counter];
        if s.running {
          if s.msecsToLive > 0 {
            s := s.(msecsToLive := s.msecsToLive - 1);
            if s.msecsToLive == 0 {
              s := s.(timedOut := true);
              if s.repeat {
                s := s.(msecsToLive := s.msecs);
              } else {
                s := s.(running := false);
              }
            }
          }
        }
        slots[counter] := s;
        counter := counter + 1;
      }
    }

    /** timer_loop: clears every timed-out flag and returns the callbacks it makes, in order. */
    method Loop() returns (calls: seq<Call>)
      requires Valid()
      modifies slots
      ensures Valid()
      ensures calls == Dispatched(old(slots[..]), 0)
      ensures forall i :: 0 <= i < MAX_TIMERS ==> slots[i] == old(slots[i]).(timedOut := false)
    {
      calls := [];
      var counter := 0;
      while counter < MAX_TIMERS
        invariant 0 <= counter <= MAX_TIMERS && Valid()
        invariant forall i :: 0 <= i < counter ==> slots[i] == old(slots[i]).(timedOut := false)
        invariant forall i :: counter <= i < MAX_TIMERS ==> slots[i] == old(slots[i])
        invariant calls + Dispatched(old(slots[..]), counter) == Dispatched(old(slots[..]), 0)
      {
        if slots[counter].timedOut {
          slots[counter] := slots[counter].(timedOut := false);
          calls := calls + [Call(slots[counter].callback, counter)];
        }
        counter := counter + 1;
      }
    }
  }

  /**
   * A one-shot timer of 3 ms in slot 4, checked three times from reset, makes exactly one
   * call on the following loop, to its callback with slot number 4.
   */
  method OneShotScenario() returns (before: seq<Call>, after: seq<Call>)
    ensures before == []
    ensures after == [Call(7, 4)]
  {
    var t := new TimerTable();
    t.Start(4, 3, 7, 0);
    t.Check();
    t.Check();
    assert t.slots[4] == Started(3, 7, 0).(msecsToLive := 1);
    DispatchedSingle(t.slots[..], 0, 4);
    before := t.Loop();
    t.Check();
    assert t.slots[4].timedOut;
    DispatchedSingle(t.slots[..], 0, 4);
    after := t.Loop();
  }
}
