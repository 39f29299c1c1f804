/** The libuv timer of an asynchronous command and the lifetime of the command's memory.

libuv's rules are preconditions of its operations: a handle is initialised once, started and stopped only while it is
open, closed once, and the memory it lies in must not be freed before the close callback has run. */
module UvTimer {

  /** The timer handle inside the command. */
  datatype Handle = Raw | Open(running: bool, repeating: bool) | Closing | Closed

  class Command {
    var hasTimer: bool
    var usingSocketTimer: bool
    var timer: Handle
    var freed: bool
    ghost var inits: nat
    ghost var closes: nat
    ghost var frees: nat

    /** The flag says whether the handle was initialised; memory is only gone with the handle raw or closed. */
    ghost predicate Valid()
      reads this
    {
      && (hasTimer <==> !timer.Raw?)
      && inits == (if timer.Raw? then 0 else 1)
      && closes == (if timer.Closing? || timer.Closed? then 1 else 0)
      && frees == (if freed then 1 else 0)
      && (freed ==> timer.Raw? || timer.Closed?)
      && (timer.Closed? ==> freed)
    }

    /** The command is in use: not freed and not being released. */
    ghost predicate Live()
      reads this
    {
      Valid() && !freed && (timer.Raw? || timer.Open?)
    }

    constructor ()
      ensures Live() && !hasTimer && !usingSocketTimer
    {
      hasTimer, usingSocketTimer, timer, freed := false, false, Raw, false;
      inits, closes, frees := 0, 0, 0;
    }

    // ---------- libuv ----------

    method UvTimerInit()
      requires !freed && timer.Raw?
      modifies this`timer, this`inits
      ensures timer == Open(false, false) && inits == old(inits) + 1
    {
      timer := Open(false, false);
      inits := inits + 1;
    }

    method UvTimerStart(repeat: bool)
      requires !freed && timer.Open?
      modifies this`timer
      ensures timer == Open(true, repeat)
    {
      timer := Open(true, repeat);
    }

    method UvTimerStop()
      requires !freed && timer.Open?
      modifies this`timer
      ensures timer == Open(false, old(timer).repeating)
    {
      timer := Open(false, timer.repeating);
    }

    method UvClose()
      requires !freed && timer.Open?
      modifies this`timer, this`closes
      ensures timer.Closing? && closes == old(closes) + 1
    {
      timer := Closing;
      closes := closes + 1;
    }

    /** `as_event_command_free`; the handle must not be open. */
    method Free()
      requires !freed && (timer.Raw? || timer.Closed?)
      modifies this`freed, this`frees
      ensures freed && frees == old(frees) + 1
    {
      freed := true;
      frees := frees + 1;
    }

    // ---------- the client ----------

    /** `as_event_timer_once` */
    method TimerOnce()
      requires Live()
      modifies this
      ensures Live() && hasTimer && timer == Open(true, false) && usingSocketTimer == old(usingSocketTimer)
    {
      if !hasTimer {
        UvTimerInit();
      }
      UvTimerStart(false);
      hasTimer := true;
    }

    /** `as_event_timer_repeat` */
    method TimerRepeat()
      requires Live()
      modifies this
      ensures Live() && hasTimer && usingSocketTimer && timer == Open(true, true)
    {
      if !hasTimer {
        UvTimerInit();
      }
      UvTimerStart(true);
      hasTimer, usingSocketTimer := true, true;
    }

    /** `as_event_timer_stop` */
    method TimerStop()
      requires Live()
      modifies this
      ensures Live() && hasTimer == old(hasTimer) && usingSocketTimer == old(usingSocketTimer)
      ensures timer == if hasTimer then Open(false, old(timer).repeating) else old(timer)
    {
      if hasTimer {
        UvTimerStop();
      }
    }

    /** `as_event_command_release` */
    method Release()
      requires Live()
      modifies this
      ensures Valid()
      ensures if old(hasTimer) then timer.Closing? && !freed else timer.Raw? && freed
    {
      if hasTimer {
        UvClose();
      } else {
        Free();
      }
    }

    /** `as_uv_timer_closed`, called by libuv after a close. */
    method TimerClosed()
      requires Valid() && timer.Closing? && !freed
      modifies this
      ensures Valid() && freed && timer.Closed?
    {
      timer := Closed;
      Free();
    }

    /** Any calls, then the release and what libuv does afterwards: the handle is initialised at most once, and is
        initialised and closed exactly if a timer was ever started; the memory is freed exactly once, and directly
        only if there never was a timer. */
    method Lifetime(calls: seq<Call>) returns (direct: bool)
      requires Live() && !hasTimer
      modifies this
      ensures Valid() && freed && frees == 1
      ensures inits == closes == if Starts(calls) then 1 else 0
      ensures direct == !Starts(calls)
    {
      for i := 0 to |calls|
        invariant Live() && hasTimer == Starts(calls[..i])
      {
        match calls[i] {
          case Once => TimerOnce();
          case Repeat => TimerRepeat();
          case Halt => TimerStop();
        }
        assert calls[..i + 1] == calls[..i] + [calls[i]];
        StartsSnoc(calls[..i], calls[i]);
      }
      assert calls[..|calls|] == calls;
      Release();
      direct := freed;
      if timer.Closing? {
        TimerClosed();
      }
    }
  }

  datatype Call = Once | Repeat | Halt

  /** Does any of the calls start a timer? */
  predicate Starts(calls: seq<Call>) { exists i :: 0 <= i < |calls| && calls[i] != Halt }

  lemma StartsSnoc(calls: seq<Call>, c: Call)
    ensures Starts(calls + [c]) <==> Starts(calls) || c != Halt
  {
    var all := calls + [c];
    if Starts(calls) {
      var i :| 0 <= i < |calls| && calls[i] != Halt;
      assert all[i] != Halt;
    }
    if c != Halt { assert all[|calls|] != Halt; }
    if Starts(all) && c == Halt {
      var i :| 0 <= i < |all| && all[i] != Halt;
      assert calls[i] != Halt;
    }
  }
}
