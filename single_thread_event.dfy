/**
 * FSingleThreadEvent: the event used when there is a single thread.  A
 * wait can only be made on a signalled event (nothing else could signal
 * it); it consumes the signal unless the event is manual-reset.
 */
module SingleThreadEvents {

  /** The event's two flags. */
  datatype EventState = EventState(Triggered: bool, ManualReset: bool)

  function AfterTrigger(s: EventState): (r: EventState)
    ensures r.Triggered && r.ManualReset == s.ManualReset
  {
    s.(Triggered := true)
  }

  function AfterReset(s: EventState): (r: EventState)
    ensures !r.Triggered && r.ManualReset == s.ManualReset
  {
    s.(Triggered := false)
  }

  /** A wait on a signalled event: the signal stays only on a manual-reset event. */
  function AfterWait(s: EventState): (r: EventState)
    requires s.Triggered
    ensures r.ManualReset == s.ManualReset
    ensures r.Triggered <==> s.ManualReset
  {
    s.(Triggered := s.ManualReset)
  }

  /**
   * A trigger is followed by exactly one successful wait on an auto-reset
   * event, and by any number on a manual-reset one; a reset undoes a trigger.
   */
  lemma {:induction false} TriggerWaitCycle(s: EventState)
    ensures !s.ManualReset ==> !AfterWait(AfterTrigger(s)).Triggered
    ensures s.ManualReset ==> AfterWait(AfterTrigger(s)) == AfterTrigger(s)
    ensures AfterReset(AfterTrigger(s)) == AfterReset(s)
    ensures AfterTrigger(AfterTrigger(s)) == AfterTrigger(s)
    ensures !s.Triggered ==> AfterReset(AfterTrigger(s)) == s
  {
    var t := AfterTrigger(s);
    assert t == EventState(true, s.ManualReset);
  }

  class SingleThreadEvent {
    var Triggered: bool
    var ManualReset: bool

    function State(): EventState
      reads this
    {
      EventState(Triggered, ManualReset)
    }

    /** A new event is untriggered and auto-reset. */
    constructor()
      ensures State() == EventState(false, false)
    {
      Triggered := false;
      ManualReset := false;
    }

    /** Create: record the reset mode (auto-reset unless asked); always succeeds. */
    method Create(isManualReset: bool := false) returns (ok: bool)
      modifies this
      ensures ok && ManualReset == isManualReset && Triggered == old(Triggered)
    {
      ManualReset := isManualReset;
      ok := true;
    }

    /** IsManualReset: the recorded reset mode. */
    method IsManualReset() returns (r: bool)
      ensures r == ManualReset
    {
      r := ManualReset;
    }

    method Trigger()
      modifies this
      ensures State() == AfterTrigger(old(State()))
    {
      Triggered := true;
    }

    method Reset()
      modifies this
      ensures State() == AfterReset(old(State()))
    {
      Triggered := false;
    }

    /** Wait: the event must be signalled; the wait time is irrelevant; succeeds. */
    method Wait(waitTime: nat) returns (ok: bool)
      requires Triggered
      modifies this
      ensures ok && State() == AfterWait(old(State()))
    {
      Triggered := ManualReset;
      ok := true;
    }
  }
}
