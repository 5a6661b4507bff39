/** src/timer.c: the shared `done`, `fsh` and `_time` fields, updated in place. Each method is
    one section that runs under a device's lock; a condition wait is a method that says
    whether the wait is over. */
module TimerDevices {
  import opened Wrappers
  import B = Barrier

  /** `timer_id_t`; the ghost fields record where the device's thread is. */
  class Device {
    var done: bool
    var fsh: bool
    ghost var mode: B.Mode
    ghost var calls: nat
    ghost var resumes: nat

    constructor ()
      ensures Value() == B.IDLE
    {
      done, fsh := false, false;
      mode, calls, resumes := B.Working, 0, 0;
    }

    ghost function Value(): B.Device
      reads this
    {
      B.Device(done, fsh, mode, calls, resumes)
    }
  }

  function Released(vs: seq<B.Device>): (rs: seq<B.Device>)
    ensures |rs| == |vs| && forall i | 0 <= i < |vs| :: rs[i] == vs[i].(done := false)
  {
    seq(|vs|, i requires 0 <= i < |vs| => vs[i].(done := false))
  }

  predicate AllDetached(vs: seq<B.Device>) {
    forall i | 0 <= i < |vs| :: vs[i].fsh
  }

  lemma ReleasedDetached(vs: seq<B.Device>)
    ensures AllDetached(Released(vs)) <==> AllDetached(vs)
  {
    forall i | 0 <= i < |vs| ensures Released(vs)[i].fsh == vs[i].fsh {}
  }

  class Timer {
    var devList: seq<Device>
    var time: nat
    var started: bool
    var stopping: bool
    // Where timer_routine is, and its local counters.
    var pc: B.Pc
    var fsh: nat
    var event: nat

    /** No device is attached twice. */
    ghost predicate Valid()
      reads this
    {
      forall i, j | 0 <= i < j < |devList| :: devList[i] != devList[j]
    }

    ghost function Values(): (vs: seq<B.Device>)
      reads this, devList
      ensures |vs| == |devList| && forall i | 0 <= i < |vs| :: vs[i] == devList[i].Value()
    {
      seq(|devList|, i requires 0 <= i < |devList| reads this, devList => devList[i].Value())
    }

    ghost function Contents(): B.State
      reads this, devList
    {
      B.State(Values(), time, pc, fsh, event, stopping)
    }

    constructor ()
      ensures Valid() && Contents() == B.Init(0) && !started && devList == []
    {
      devList, time, started, stopping := [], 0, false, false;
      pc, fsh, event := B.Scan(0), 0, 0;
    }

    /** `attach_event`: refused once the timer runs, else a new device comes first. */
    method AttachEvent() returns (id: Option<Device>)
      requires Valid()
      modifies this`devList
      ensures Valid() && (id == None <==> started)
      ensures id == None ==> devList == old(devList)
      ensures id.Some? ==> fresh(id.value) && devList == [id.value] + old(devList)
      ensures Contents() == old(Contents()).(devs := (if started then [] else [B.IDLE]) + old(Contents()).devs)
    {
      if started {
        return None;
      }
      var container := new Device();
      devList := [container] + devList;
      assert Values() == [B.IDLE] + old(Values());
      return Some(container);
    }

    /** `start_timer`. */
    method StartTimer()
      modifies this`started
      ensures started && Contents() == old(Contents())
    {
      started := true;
    }

    /** `next_slot`, first section: the device's job in this slot is done. */
    method Arrive(d: nat)
      requires Valid() && B.Enabled(Contents(), B.Arrive(d))
      modifies devList[d]
      ensures Contents() == B.Next(old(Contents()), B.Arrive(d))
    {
      var id := devList[d];
      id.done := true;
      id.mode, id.calls := B.Waiting, id.calls + 1;
      assert Values() == old(Values())[d := id.Value()];
    }

    /** `next_slot`, second section: whether the wait for the next slot is over. */
    method Resume(d: nat) returns (over: bool)
      requires Valid() && d < |devList| && devList[d].mode == B.Waiting
      modifies devList[d]
      ensures over == B.Enabled(old(Contents()), B.Resume(d))
      ensures Contents() == if over then B.Next(old(Contents()), B.Resume(d)) else old(Contents())
    {
      var id := devList[d];
      if id.done {
        assert Values() == old(Values());
        return false;
      }
      id.mode, id.resumes := B.Working, id.resumes + 1;
      assert Values() == old(Values())[d := id.Value()];
      return true;
    }

    /** `detach_event`. */
    method DetachEvent(d: nat)
      requires Valid() && B.Enabled(Contents(), B.Detach(d))
      modifies devList[d]
      ensures Contents() == B.Next(old(Contents()), B.Detach(d))
    {
      var id := devList[d];
      id.fsh := true;
      id.mode := B.Gone;
      assert Values() == old(Values())[d := id.Value()];
    }

    /** `timer_routine`, scan: count the device the timer looks at, unless it is still at
        work. */
    method ScanOne() returns (ready: bool)
      requires Valid() && pc.Scan? && pc.i < |devList|
      modifies this`pc, this`fsh, this`event
      ensures ready == B.Enabled(old(Contents()), B.ScanOne)
      ensures Contents() == if ready then B.Next(old(Contents()), B.ScanOne) else old(Contents())
    {
      var temp := devList[pc.i];
      if !temp.done && !temp.fsh {
        return false;
      }
      if temp.fsh {
        fsh := fsh + 1;
      }
      event := event + 1;
      pc := B.Scan(pc.i + 1);
      return true;
    }

    /** `timer_routine`: increase the time slot. */
    method Tick()
      requires Valid() && pc == B.Scan(|devList|)
      modifies this`time, this`pc
      ensures Contents() == B.Next(old(Contents()), B.Tick)
    {
      time := time + 1;
      pc := B.Release(0);
    }

    /** `timer_routine`, release: let one device continue. */
    method ReleaseOne()
      requires Valid() && pc.Release? && pc.i < |devList|
      modifies this`pc, devList[pc.i]
      ensures Contents() == B.Next(old(Contents()), B.ReleaseOne)
    {
      var i := pc.i;
      devList[i].done := false;
      pc := B.Release(i + 1);
      assert Values() == old(Values())[i := devList[i].Value()];
    }

    /** `timer_routine`: leave the loop, or start the next round. */
    method NextRound()
      requires Valid() && pc == B.Release(|devList|)
      modifies this`pc, this`fsh, this`event
      ensures Contents() == B.Next(old(Contents()), B.NextRound)
    {
      if fsh == event || stopping {
        pc := B.Exited;
      } else {
        pc, fsh, event := B.Scan(0), 0, 0;
      }
    }

    /** The next section of `timer_routine`, wherever it is. */
    method Step()
      requires Valid() && (pc == B.Exited || pc.i <= |devList|)
      modifies this`time, this`pc, this`fsh, this`event, devList
      ensures var e := B.TimerTurn(old(Contents()));
              Contents() == if B.Enabled(old(Contents()), e) then B.Next(old(Contents()), e) else old(Contents())
    {
      match pc
      case Scan(i) =>
        if i < |devList| {
          var ready := ScanOne();
        } else {
          Tick();
        }
      case Release(i) =>
        if i < |devList| {
          ReleaseOne();
        } else {
          NextRound();
        }
      case Exited =>
    }

    /** `stop_timer`, up to the join with the timer thread. */
    method StopTimer()
      requires Valid() && B.Enabled(Contents(), B.RequestStop)
      modifies this`stopping
      ensures Contents() == B.Next(old(Contents()), B.RequestStop)
    {
      stopping := true;
    }

    /** The device has done its job in this slot or has detached. */
    predicate Ready(i: nat)
      requires i < |devList|
      reads this`devList, devList
    {
      devList[i].done || devList[i].fsh
    }

    ghost predicate AllReady()
      reads this`devList, devList
    {
      forall i | 0 <= i < |devList| :: Ready(i)
    }

    /** The scan loop of `timer_routine` as far as it gets when nobody else moves: up to the
        first device that is still at work, for which it waits. If there is none, the two
        counts agree exactly when every device has detached. */
    method ScanAll()
      requires Valid() && pc == B.Scan(0) && fsh == 0 && event == 0
      modifies this`pc, this`fsh, this`event
      ensures pc.Scan? && pc.i <= |devList| && event == pc.i
      ensures (forall i | 0 <= i < pc.i :: Ready(i)) && (pc.i < |devList| ==> !Ready(pc.i))
      ensures pc.i == |devList| ==> (fsh == event <==> AllDetached(Values()))
    {
      while pc.i < |devList|
        invariant pc.Scan? && pc.i <= |devList| && event == pc.i && fsh <= event
        invariant forall i | 0 <= i < pc.i :: Ready(i)
        invariant fsh == event <==> forall i | 0 <= i < event :: devList[i].fsh
        decreases |devList| - pc.i
      {
        ghost var i := pc.i;
        var ready := ScanOne();
        if !ready {
          return;
        }
        assert pc == B.Scan(i + 1) && event == i + 1 && Ready(i);
      }
      assert forall i | 0 <= i < |devList| :: Values()[i].fsh == devList[i].fsh;
    }

    /** The release loop of `timer_routine`, uninterrupted. */
    method ReleaseAll()
      requires Valid() && pc == B.Release(0)
      modifies this`pc, devList
      ensures pc == B.Release(|devList|)
      ensures Values() == Released(old(Values()))
    {
      ghost var vs := Values();
      while pc.i < |devList|
        invariant pc.Release? && pc.i <= |devList|
        invariant forall i | 0 <= i < |devList| :: Values()[i] == if i < pc.i then vs[i].(done := false) else vs[i]
        decreases |devList| - pc.i
      {
        ghost var d, us := pc.i, Values();
        ReleaseOne();
        assert Values() == us[d := us[d].(done := false)];
      }
    }

    /** The round after a completed scan: one tick, every device released, and the routine
        goes on unless it was told to stop or its counts agree. */
    method FinishRound()
      requires Valid() && pc == B.Scan(|devList|)
      modifies this`pc, this`fsh, this`event, this`time, devList
      ensures time == old(time) + 1 && Values() == Released(old(Values()))
      ensures pc == if stopping || old(fsh == event) then B.Exited else B.Scan(0)
    {
      hide Released, AllDetached, B.Enabled;
      Tick();
      assert Values() == old(Values());
      ReleaseAll();
      NextRound();
    }

    /** One round of `timer_routine` as far as it gets when nobody else moves. If every
        device has done its job or detached: one tick, every device released, and the routine
        goes on unless it was told to stop or every device has detached. Otherwise it waits for
        the first device still at work, and no device and no time changes. */
    method TimerRound()
      requires Valid() && pc == B.Scan(0) && fsh == 0 && event == 0
      modifies this`pc, this`fsh, this`event, this`time, devList
      ensures old(AllReady()) ==>
                && time == old(time) + 1 && Values() == Released(old(Values()))
                && pc == if stopping || AllDetached(Values()) then B.Exited else B.Scan(0)
      ensures !old(AllReady()) ==>
                && time == old(time) && Values() == old(Values())
                && pc.Scan? && pc.i < |devList| && !Ready(pc.i) && forall i | 0 <= i < pc.i :: Ready(i)
    {
      ReleasedDetached(Values());
      hide Released, AllDetached, B.Enabled, B.Next;
      ScanAll();
      assert Values() == old(Values());
      assert AllReady() == old(AllReady());
      if pc.i == |devList| {
        assert AllReady();
        FinishRound();
      }
    }
  }
}
