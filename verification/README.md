# Luminous controller of the shirosha2 keymap

This project models the "luminous" controller of the `crkbd/keymaps/shirosha2` keymap. The keyboard firmware calls its main function every 64 ms. The controller keeps a context record in static storage, zero-initialised at power-on. Each call does two things, in this order:

1. **Context management (#100).** The application timestamp is a tick counter. It is clip-incremented (saturating increment) up to `UINT32_MAX`. The master-mode flag is refreshed from `is_keyboard_master()`: it becomes `Y_ON` or `Y_OFF`. The three padding bytes are not touched.
2. **OLED startup logo (#1200).** The step reads the context without changing it. It writes the logo while the timestamp is below 64 (`Y_LMCTL_STARTUP_TIME`). It clears the display when the timestamp equals 64. After that it does nothing.

The model is split into three modules:

- `LuminousCommon` (`luminous_common.dfy`): the `Y_ON`/`Y_OFF` flag values and the `M_CLIP_INC` macro.
  - `ClipInc` is the macro on unbounded integers.
  - `ClipInc32` is the macro as C evaluates it on `uint32_t`, with modulo-2^32 addition. It is proved equal to `ClipInc`, so the counter never wraps.
- `LuminousControl` (`luminous_control.dfy`): the logic of one call and of a run of calls, as pure functions and lemmas.
  - The context value, the management step and the startup-logo decision.
  - One main call (`MainStep`) and a run of calls from any context (`Run`).
  - The lemmas about the tick schedule.
- `LuminousContext` (`luminous_context.dfy`): the static context record as a class whose methods update its fields in place.
  - `ManageContext` may write only the timestamp and the master flag. The padding bytes are outside its frame.
  - `OledMain` has no frame, just like the source's `const` pointer.
  - `Tick` (the main function) runs the two steps in order. Two ghost fields record the history of calls, and the class invariant ties the record to `Run` from the zero context. So `Tick` states which action the n-th call since power-on performs.

The project models the keyboard's hardware like this:

- `is_keyboard_master()` is a boolean input to each call.
- `oled_write_P(Xc_logo_indices, false)` and `oled_clear()` become the returned `OledAction`: `WriteLogo`, `Clear` or `Nothing`.
- Time is counted in calls, not in milliseconds.

## Model

| member | source | states |
|---|---|---|
| LuminousCommon.ClipInc | crkbd/keymaps/shirosha2/luminous_common.h:44 | The value never decreases and moves by at most one. It moves by one exactly when it is below the cap. A value at or under the cap stays at or under it. A value above the cap is left as it is, not pulled down. |
| LuminousCommon.ClipInc32 | crkbd/keymaps/shirosha2/luminous_control.c:108 | The macro applied to a `uint32_t` with the C addition wrapping modulo 2^32 equals the unbounded clip increment: the guard prevents any wrap-around. |
| LuminousCommon.ClipIncSaturated | crkbd/keymaps/shirosha2/luminous_common.h:44 | Once the value is at or past the cap, the clip increment is a no-op, and applying it again changes nothing (idempotent at saturation). |
| LuminousCommon.ClipIncNSaturates | crkbd/keymaps/shirosha2/luminous_common.h:44 | Start from a value at or under the cap and apply the increment n times. The result is min(value + n, cap): the value counts up, then stays at the cap. |
| LuminousCommon.FlagOf | crkbd/keymaps/shirosha2/luminous_control.c:110-114 | The flag is always `Y_ON` or `Y_OFF`. It is `Y_ON` exactly when the condition holds and `Y_OFF` exactly when it does not. This makes it a faithful boolean encoding, since `Y_ON` (1) and `Y_OFF` (0) differ. |
| LuminousControl.Managed | crkbd/keymaps/shirosha2/luminous_control.c:103-119 | The timestamp goes up by exactly one below `UINT32_MAX` and stays put at `UINT32_MAX`, so it never decreases. The master flag is `Y_ON` exactly when the board is master, otherwise `Y_OFF`. The padding bytes are unchanged. |
| LuminousControl.StartupLogo | crkbd/keymaps/shirosha2/luminous_control.c:150-162 | Exactly one action per timestamp: the logo below 64, a clear at exactly 64, nothing above 64. The three cases are exhaustive and exclusive. |
| LuminousControl.MainStep | crkbd/keymaps/shirosha2/luminous_control.c:81-90 | Management runs before the display step. So the call writes the logo when the timestamp before the call is below 63. It clears when that timestamp is exactly 63. It does nothing when that timestamp is 64 or more. |
| LuminousControl.Run | crkbd/keymaps/shirosha2/luminous_control.c:81-90 | A run of main calls produces exactly one display action per call. |
| LuminousControl.RunAppend | crkbd/keymaps/shirosha2/luminous_control.c:82-87 | One more call continues from the context the run left behind. It adds exactly that call's action to the end of the run's actions. |
| LuminousControl.RunTimestamp | crkbd/keymaps/shirosha2/luminous_control.c:104-117 | After n calls the timestamp is min(start + n, `UINT32_MAX`), which equals n clip increments. It never wraps to 0. |
| LuminousControl.RunActionAt | crkbd/keymaps/shirosha2/luminous_control.c:84-87 | The action of call k + 1 is the startup-logo decision on the saturated counter after k + 1 increments. |
| LuminousControl.ScheduleFromZero | crkbd/keymaps/shirosha2/luminous_control.c:154-160 | From the zero-initialised context, calls 1 to 63 write the logo, call 64 clears, and every later call does nothing. |
| LuminousControl.RunTimestampMonotone | crkbd/keymaps/shirosha2/luminous_control.c:108-117 | Across the prefixes of any run, the timestamp is non-decreasing. |
| LuminousControl.ClearAtMostOnce | crkbd/keymaps/shirosha2/luminous_control.c:156-157 | In any run, from any starting context, at most one call clears the display. |
| LuminousControl.RunLogoCount | crkbd/keymaps/shirosha2/luminous_control.c:154-155 | The number of logo writes in a run is min(n, max(0, 63 - start)). |
| LuminousControl.RunClearCount | crkbd/keymaps/shirosha2/luminous_control.c:156-157 | A run clears exactly once if it takes the counter from below 64 to 64 or more, and never otherwise. |
| LuminousControl.StartupCountsFromZero | crkbd/keymaps/shirosha2/luminous_control.c:82-87 | From power-on, n calls write the logo min(n, 63) times, not 64. They clear exactly once when n is at least 64, and never before. |
| LuminousControl.RunFlags | crkbd/keymaps/shirosha2/luminous_control.c:110-118 | After a non-empty run, the master flag encodes the last call's `is_keyboard_master()`. An empty run leaves it unchanged. The padding bytes are never changed. |
| LuminousContext.Context.constructor | crkbd/keymaps/shirosha2/luminous_control.c:82 | The static context starts zero-initialised, with an empty call history: its value is `ZeroContext`, the `= {0}` initialiser of the record, whose fields are those of `lmctl_context_t` (`luminous_control.c:48-52`) as modelled by the datatype `ContextValue`. |
| LuminousContext.Context.ManageContext | crkbd/keymaps/shirosha2/luminous_control.c:103-119 | The new record is `Managed` of the old one. Only the timestamp and master-flag fields may be written; the padding bytes are unchanged. |
| LuminousContext.Context.OledMain | crkbd/keymaps/shirosha2/luminous_control.c:132-134 | It returns the logo, clear or nothing action for the record's timestamp (below, at, or above 64), and it changes nothing. |
| LuminousContext.Context.Tick | crkbd/keymaps/shirosha2/luminous_control.c:81-90 | It manages the context and then decides the display action on the new timestamp. The record stays equal to the run of all calls so far from the zero context. The n-th call since power-on writes the logo for n < 64, clears at n = 64, and does nothing afterwards. |

## Left out

- The maze/labyrinth animation is not modelled. No code for it exists: its enable flag `LMCTL_1501_LABYRINTH_ENABLE` is 0 (`crkbd/keymaps/shirosha2/luminous_config.h:30`), and "#19xx" appears only in a comment (`luminous_control.c:33`).
- RGB LED control (#2xx) is not modelled. It is named in a comment but has no code.
- `m_lmctl_record` is not modelled. It is declared at `luminous_control.h:44`; `luminous_control.c` defines no body for it.
- The logo bitmap `Xc_logo_indices` and the panel contents are not modelled. Writing the logo is the single action `WriteLogo`.
- The `OLED_DRIVER_ENABLE` build switches are not modelled; the OLED is assumed enabled. These switches are `#ifdef` at `luminous_control.c:86` and `#if (... == 1)` at `:121`.
- Real time is not modelled. The 64 ms period is the caller's schedule (the `Period: 64ms` comment on `m_lmctl_main`), and `Y_LMCTL_TASK_INTERVAL` is never used. The model counts calls.
- `lmkbd/Advanced/keymaps/luminous_a/keymap.c` is not modelled. It is keymap tables and a `SEND_STRING` wrapper, with no controller logic.
- The QMK functions `is_keyboard_master`, `oled_write_P` and `oled_clear` are outside the model. They appear only as the boolean input and the returned action.
- Concurrency is not modelled. The caller of `m_lmctl_main` is not modelled; calls are taken to be sequential and never overlapping.
