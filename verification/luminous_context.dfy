/*
 * The controller's context record in static storage and the procedures that
 * update it in place on every 64 ms tick.
 */
module LuminousContext {
  import opened LuminousCommon
  import opened LuminousControl

  /** The controller's context record, kept in static storage between ticks. */
  class Context {
    var timestamp: Uint32
    var masterFlag: Uint8
    var dummy: Dummy

    /** The `is_keyboard_master()` value of every main call so far, oldest first. */
    ghost var history: seq<bool>
    /** The display action of every main call so far, oldest first. */
    ghost var actions: seq<OledAction>

    /** The record is what the main calls so far made of the zero-initialised one. */
    ghost predicate Valid()
      reads this
    {
      Run(ZeroContext, history) == (Value(), actions)
    }

    /** The record's current value. */
    function Value(): ContextValue
      reads this
    {
      ContextValue(timestamp, masterFlag, dummy)
    }

    /** The static record starts zero-initialised. */
    constructor ()
      ensures Valid() && history == [] && actions == []
      ensures Value() == ZeroContext
    {
      timestamp := 0;
      masterFlag := 0;
      dummy := [0, 0, 0];
      history := [];
      actions := [];
    }

    /**
     * Context management (#100): reads the timestamp into a local, clip
     * increments it, decides the master flag, then writes both fields back.
     * The padding bytes are not in the frame.
     */
    method ManageContext(isMaster: bool)
      modifies this`timestamp, this`masterFlag
      ensures Value() == Managed(old(Value()), isMaster)
      ensures dummy == old(dummy)
    {
      var ts := timestamp;
      var flag: Uint8;
      ts := ClipInc32(ts, UINT32_MAX);
      if isMaster {
        flag := Y_ON;
      } else {
        flag := Y_OFF;
      }
      timestamp := ts;
      masterFlag := flag;
    }

    /**
     * The OLED step: reads the record through a read-only view (no frame) and
     * decides the startup-logo action on its timestamp.
     */
    method OledMain() returns (action: OledAction)
      ensures action == WriteLogo <==> timestamp < STARTUP_TIME
      ensures action == Clear <==> timestamp == STARTUP_TIME
      ensures action == Nothing <==> timestamp > STARTUP_TIME
    {
      action := StartupLogo(timestamp);
    }

    /**
     * One 64 ms tick of the controller: management first, then the display.
     * The `n`-th tick since power-on writes the logo for n < 64, clears the
     * display at n == 64 and does nothing afterwards.
     */
    method Tick(isMaster: bool) returns (action: OledAction)
      requires Valid()
      modifies this`timestamp, this`masterFlag, this`history, this`actions
      ensures Valid()
      ensures history == old(history) + [isMaster] && actions == old(actions) + [action]
      ensures (Value(), action) == MainStep(old(Value()), isMaster)
      ensures action == StartupLogo(timestamp)
      ensures |history| < 64 ==> action == WriteLogo
      ensures |history| == 64 ==> action == Clear
      ensures |history| > 64 ==> action == Nothing
    {
      ManageContext(isMaster);
      action := OledMain();
      RunAppend(ZeroContext, history, isMaster);
      history := history + [isMaster];
      actions := actions + [action];
      ScheduleFromZero(history, |history| - 1);
    }
  }
}
