/*
 * The luminous controller: a context that persists across 64 ms ticks, its
 * management step (#100) and the startup-logo step of the OLED display (#1200).
 *
 * The QMK calls are abstracted: `is_keyboard_master()` is a boolean input and
 * the display calls `oled_write_P(logo)` / `oled_clear()` are the action the
 * tick returns.
 */
module LuminousControl {
  import opened LuminousCommon

  /** Ticks the startup logo stays up (64 ticks of 64 ms, about 4 s). */
  const STARTUP_TIME: Uint32 := 64

  /** What one tick does to the OLED display. */
  datatype OledAction =
    | WriteLogo   // oled_write_P(Xc_logo_indices, false)
    | Clear       // oled_clear()
    | Nothing     // no display call

  /** The three reserved padding bytes of the context. */
  type Dummy = s: seq<Uint8> | |s| == 3 witness [0, 0, 0]

  /** The value held in the controller's context record. */
  datatype ContextValue = ContextValue(timestamp: Uint32, masterFlag: Uint8, dummy: Dummy)

  /** The zero-initialised context the controller starts from. */
  const ZeroContext: ContextValue := ContextValue(0, 0, [0, 0, 0])

  /**
   * Context management (#100): the tick counter is clip-incremented up to
   * UINT32_MAX, the master flag is refreshed from `isMaster`, the padding is
   * kept.
   */
  function Managed(c: ContextValue, isMaster: bool): (r: ContextValue)
    ensures c.timestamp < UINT32_MAX ==> r.timestamp == c.timestamp + 1
    ensures c.timestamp == UINT32_MAX ==> r.timestamp == UINT32_MAX
    ensures r.timestamp >= c.timestamp
    ensures r.masterFlag == Y_ON <==> isMaster
    ensures r.masterFlag == Y_OFF <==> !isMaster
    ensures r.dummy == c.dummy
  {
    c.(timestamp := ClipInc32(c.timestamp, UINT32_MAX), masterFlag := FlagOf(isMaster))
  }

  /**
   * The startup-logo decision (#1200) on the context's timestamp: the logo
   * before the startup time, one clear exactly at it, nothing afterwards.
   */
  function StartupLogo(timestamp: Uint32): (a: OledAction)
    ensures a == WriteLogo <==> timestamp < STARTUP_TIME
    ensures a == Clear <==> timestamp == STARTUP_TIME
    ensures a == Nothing <==> timestamp > STARTUP_TIME
  {
    if timestamp < STARTUP_TIME then WriteLogo
    else if timestamp == STARTUP_TIME then Clear
    else Nothing
  }

  /**
   * One call of the controller's main function on a context value: the
   * context is managed first and the display step sees the new timestamp, so
   * the action depends on the timestamp before the call shifted by one.
   */
  function MainStep(c: ContextValue, isMaster: bool): (r: (ContextValue, OledAction))
    ensures r.0 == Managed(c, isMaster)
    ensures r.1 == WriteLogo <==> c.timestamp < STARTUP_TIME - 1
    ensures r.1 == Clear <==> c.timestamp == STARTUP_TIME - 1
    ensures r.1 == Nothing <==> c.timestamp >= STARTUP_TIME
  {
    var c' := Managed(c, isMaster);
    (c', StartupLogo(c'.timestamp))
  }

  /**
   * The context after a run of main-function calls, one per element of
   * `inputs` (the value `is_keyboard_master()` returns on that call), and the
   * display action of each call, in order.
   */
  function Run(c: ContextValue, inputs: seq<bool>): (r: (ContextValue, seq<OledAction>))
    ensures |r.1| == |inputs|
    decreases |inputs|
  {
    if inputs == [] then (c, [])
    else
      var (c', a) := MainStep(c, inputs[0]);
      var (c'', rest) := Run(c', inputs[1..]);
      (c'', [a] + rest)
  }

  /** One more call extends a run by one main step from where the run ended. */
  lemma {:induction false} RunAppend(c: ContextValue, inputs: seq<bool>, isMaster: bool)
    ensures Run(c, inputs + [isMaster]).0 == MainStep(Run(c, inputs).0, isMaster).0
    ensures Run(c, inputs + [isMaster]).1 == Run(c, inputs).1 + [MainStep(Run(c, inputs).0, isMaster).1]
    decreases |inputs|
  {
    if inputs != [] {
      assert (inputs + [isMaster])[1..] == inputs[1..] + [isMaster];
      RunAppend(MainStep(c, inputs[0]).0, inputs[1..], isMaster);
    }
  }

  /** The value a counter starting at zero shows after `n` saturating ticks. */
  function Saturated(n: nat): Uint32
  {
    if n <= UINT32_MAX then n else UINT32_MAX
  }

  /**
   * After a run, the timestamp has gone up by the number of calls, saturating
   * at UINT32_MAX: it is the clip increment repeated once per call.
   */
  lemma {:induction false} RunTimestamp(c: ContextValue, inputs: seq<bool>)
    ensures Run(c, inputs).0.timestamp == Saturated(c.timestamp + |inputs|)
    ensures Run(c, inputs).0.timestamp == ClipIncN(c.timestamp, UINT32_MAX, |inputs|)
    decreases |inputs|
  {
    if inputs != [] {
      RunTimestamp(Managed(c, inputs[0]), inputs[1..]);
    }
    ClipIncNSaturates(c.timestamp, UINT32_MAX, |inputs|);
  }

  /** The `k`-th action of a run is the startup-logo decision on the counter after `k + 1` calls. */
  lemma {:induction false} RunActionAt(c: ContextValue, inputs: seq<bool>, k: nat)
    requires k < |inputs|
    ensures Run(c, inputs).1[k] == StartupLogo(Saturated(c.timestamp + k + 1))
    decreases |inputs|
  {
    if k > 0 {
      RunActionAt(Managed(c, inputs[0]), inputs[1..], k - 1);
    }
  }

  /**
   * From the zero-initialised context, call `k + 1` writes the logo when
   * `k + 1 < 64`, clears at `k + 1 == 64` and does nothing afterwards.
   */
  lemma {:induction false} ScheduleFromZero(inputs: seq<bool>, k: nat)
    requires k < |inputs|
    ensures k + 1 < 64 ==> Run(ZeroContext, inputs).1[k] == WriteLogo
    ensures k + 1 == 64 ==> Run(ZeroContext, inputs).1[k] == Clear
    ensures k + 1 > 64 ==> Run(ZeroContext, inputs).1[k] == Nothing
  {
    RunActionAt(ZeroContext, inputs, k);
  }

  /**
   * The timestamp never goes down: over the prefixes of a run it is
   * non-decreasing.
   */
  lemma RunTimestampMonotone(c: ContextValue, inputs: seq<bool>, i: nat, j: nat)
    requires i <= j <= |inputs|
    ensures Run(c, inputs[..i]).0.timestamp <= Run(c, inputs[..j]).0.timestamp
  {
    RunTimestamp(c, inputs[..i]);
    RunTimestamp(c, inputs[..j]);
  }

  /**
   * The display is cleared at most once in any run, whatever context it
   * starts from: the counter passes 64 at most once and saturates at
   * UINT32_MAX, which is not 64.
   */
  lemma ClearAtMostOnce(c: ContextValue, inputs: seq<bool>, i: nat, j: nat)
    requires i < |inputs| && j < |inputs|
    requires Run(c, inputs).1[i] == Clear && Run(c, inputs).1[j] == Clear
    ensures i == j
  {
    RunActionAt(c, inputs, i);
    RunActionAt(c, inputs, j);
  }

  /**
   * How many calls of a run write the logo: one per call while the counter
   * after the call is still below 64.
   */
  lemma {:induction false} RunLogoCount(c: ContextValue, inputs: seq<bool>)
    ensures var room := if c.timestamp < STARTUP_TIME - 1 then STARTUP_TIME - 1 - c.timestamp else 0;
            multiset(Run(c, inputs).1)[WriteLogo] == if |inputs| < room then |inputs| else room
    decreases |inputs|
  {
    if inputs != [] {
      var (c', a) := MainStep(c, inputs[0]);
      RunLogoCount(c', inputs[1..]);
      assert Run(c, inputs).1 == [a] + Run(c', inputs[1..]).1;
    }
  }

  /** A run clears the display exactly once if it takes the counter from below 64 to 64 or more, else never. */
  lemma {:induction false} RunClearCount(c: ContextValue, inputs: seq<bool>)
    ensures multiset(Run(c, inputs).1)[Clear]
         == if c.timestamp < STARTUP_TIME <= c.timestamp + |inputs| then 1 else 0
    decreases |inputs|
  {
    if inputs != [] {
      var (c', a) := MainStep(c, inputs[0]);
      RunClearCount(c', inputs[1..]);
      assert Run(c, inputs).1 == [a] + Run(c', inputs[1..]).1;
    }
  }

  /**
   * From power-on, `n` calls write the logo min(n, 63) times (not 64) and
   * clear the display once as soon as there have been 64 calls.
   */
  lemma StartupCountsFromZero(inputs: seq<bool>)
    ensures multiset(Run(ZeroContext, inputs).1)[WriteLogo] == if |inputs| < 63 then |inputs| else 63
    ensures multiset(Run(ZeroContext, inputs).1)[Clear] == if |inputs| >= 64 then 1 else 0
  {
    RunLogoCount(ZeroContext, inputs);
    RunClearCount(ZeroContext, inputs);
  }

  /**
   * After a run the master flag encodes what `is_keyboard_master()` returned
   * on the last call (and is unchanged by an empty run); the padding bytes
   * are never written.
   */
  lemma {:induction false} RunFlags(c: ContextValue, inputs: seq<bool>)
    ensures inputs == [] ==> Run(c, inputs).0.masterFlag == c.masterFlag
    ensures inputs != [] ==> (Run(c, inputs).0.masterFlag == Y_ON <==> inputs[|inputs| - 1])
    ensures Run(c, inputs).0.masterFlag == Y_ON || Run(c, inputs).0.masterFlag == Y_OFF || inputs == []
    ensures Run(c, inputs).0.dummy == c.dummy
    decreases |inputs|
  {
    if inputs != [] {
      RunFlags(Managed(c, inputs[0]), inputs[1..]);
    }
  }
}
