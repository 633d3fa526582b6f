# Silly Walk watch face — a Dafny model

The Silly Walk watch face draws an analog clock on a 144 × 168 pixel wearable screen. Each of
its hour, minute and second hands is a pair of rotated bitmap layers: a white one and a black
one. The face can also show an info panel with the Bluetooth link state and the battery
charge. Three settings arrive from the phone as (key, byte) messages: whether the second hand
runs, whether the background is simple or rich, and whether the info panel is shown. Each
setting is kept in memory, written to the persistent key/value store, and mirrored on the
display.

The model has four modules:

- `CInt` (`c_int.dfy`): the fixed-width C integer types the code uses (`uint8_t`, `int16_t`,
  `uint32_t`, the `int32_t` range). It also has C's `/` and `%`, which round toward zero.
- `HandGeometry` (`hand_geometry.dfy`): the three rotation-angle expressions of `update_time`,
  each also evaluated with 32-bit overflow checks. It includes the frame-centring arithmetic and
  `Placed`, which gives the six hand layers' angles and frames after a redraw.
  `TRIG_MAX_ANGLE` is the constant `0x10000`.
- `InfoText` (`info_text.dfy`): `%d` as decimal digits, `snprintf` truncation into the 27-byte
  battery buffer, and the battery and Bluetooth texts. `ParseBattery` is a parser that reads a
  battery text back, as the partner of the formatter.
- `WatchFace` (`watch_face.dfy`): the settings as values and one settings message as a function
  (`Apply`), plus a class `Face` for the running face. `Face` keeps the fields `seconds`,
  `background`, `info`, the persistent `store`, `tickUnit`, `secondHandsShown`, `infoShown`,
  `backgroundSimple`, the hand layers and the info texts. Its methods are the start-up and
  settings code, written as updates of those fields.

`Face.Valid()` is the object invariant that start-up establishes and every settings message
keeps. It holds three things:

- every stored setting holds its current value (each `persist_write_int` is taken to succeed);
- the tick unit, second-hand layers, info panel and background follow from the settings;
- each hand's two layers share one centred frame, with every angle in range.

Platform services are inputs. The current time (`time`/`localtime`, or the tick's `struct tm`)
is a `Tm` parameter. The Bluetooth and battery readings form a `Peek` parameter. The newly
created hand layers are a constructor parameter. The time is required to lie in the ranges
`struct tm` guarantees: hour 0–23, minute 0–59, second 0–60.

Behaviour the model makes explicit:

- A leap second (`tm_sec == 60`) sets the second hand to exactly `TRIG_MAX_ANGLE`, one full
  turn. For every other valid time, each angle is below one full turn.
- Both layers of a hand get the centred frame of the white layer. The black layer's own frame
  size is replaced by the white layer's size.
- Only the seconds setting re-runs `update_time`, which moves the hands and refreshes the
  texts. The background and info settings only swap a bitmap or attach or detach the panel.
  Switching the info panel on shows whatever texts
  were last written there. If the panel has been off since start-up, those are the empty texts.
- Only value 0 turns seconds or info on, and only value 1 selects the simple background. Every
  other byte value selects the other state.

## Model

| member | source | states |
|---|---|---|
| `CInt.Div` | silly_walk_2_0/src/silly_walk.c:24 | C integer division: the quotient is the exact quotient rounded toward zero |
| `CInt.Rem` | silly_walk_2_0/src/silly_walk.c:24 | C `%`: the remainder satisfies `a == b*(a/b) + r` and has the sign of `a` |
| `CInt.NonNegativeAgrees` | silly_walk_2_0/src/silly_walk.c:24 | for non-negative operands, C's `/` and `%` agree with the mathematical ones |
| `HandGeometry.HourDegrees` | silly_walk_2_0/src/silly_walk.c:24 | no contract of its own: the hour hand's degrees, `(h % 12) * 30 + m / 2` with C's operators; its range is stated in `HourAngleRange` |
| `HandGeometry.HourAngle` | silly_walk_2_0/src/silly_walk.c:24 | no contract of its own: the hour angle. Its range is in `HourAngleRange`, its 12-hour period in `HourAnglePeriodic`, its monotonicity in `HourAngleWithinHour`/`HourAngleMonotone`, and its agreement with the 32-bit evaluation in `NoOverflow` |
| `HandGeometry.MinuteAngle` | silly_walk_2_0/src/silly_walk.c:38 | no contract of its own: the minute angle. Its range and strict increase are in `MinuteAngleRangeStrict`, and its 32-bit agreement in `NoOverflow` |
| `HandGeometry.SecondAngle` | silly_walk_2_0/src/silly_walk.c:52 | no contract of its own: the second angle. `SecondMatchesMinute` shows it is the minute formula; the leap second is covered by `LeapSecondFullTurn`; its 32-bit agreement is in `NoOverflow` |
| `HandGeometry.HourAngle32` | silly_walk_2_0/src/silly_walk.c:24 | no contract of its own: the hour expression evaluated step by step in `int32_t`, with `None` on overflow; `NoOverflow` shows it equals `Some(HourAngle(...))` for every valid time |
| `HandGeometry.SixtiethAngle32` | silly_walk_2_0/src/silly_walk.c:38-52 | no contract of its own: the minute and second expression evaluated step by step in `int32_t`, with `None` on overflow; `NoOverflow` shows it equals the unbounded angle for every valid minute and second |
| `HandGeometry.HourAngleRange` | silly_walk_2_0/src/silly_walk.c:24 | for hours 0–23 and minutes 0–59, the inner term lies in 0..359 and the hour angle in `[0, TRIG_MAX_ANGLE)` |
| `HandGeometry.HourAnglePeriodic` | silly_walk_2_0/src/silly_walk.c:24 | hours `h` and `h + 12` give the same hour angle |
| `HandGeometry.HourAngleWithinHour` | silly_walk_2_0/src/silly_walk.c:24 | within an hour the angle never decreases; at minute 0 it is that hour's mark `TRIG_MAX_ANGLE*30*(h%12)/360`; it stays below the next hour's mark |
| `HandGeometry.HourAngleMonotone` | silly_walk_2_0/src/silly_walk.c:24 | across a half day, a later time gives an hour angle at least as large |
| `HandGeometry.ScaledMonotone` | silly_walk_2_0/src/silly_walk.c:24 | the scale-and-truncate step `TRIG_MAX_ANGLE * x / 360` preserves order |
| `HandGeometry.ScaledStrict` | silly_walk_2_0/src/silly_walk.c:38 | values at least one degree apart give strictly ordered angles |
| `HandGeometry.MinuteAngleRangeStrict` | silly_walk_2_0/src/silly_walk.c:38 | for 0..59 the minute angle lies in `[0, TRIG_MAX_ANGLE)` and is strictly increasing |
| `HandGeometry.SecondMatchesMinute` | silly_walk_2_0/src/silly_walk.c:52 | the second angle of `n` equals the minute angle of `n` |
| `HandGeometry.LeapSecondFullTurn` | silly_walk_2_0/src/silly_walk.c:52 | `tm_sec == 60` gives exactly `TRIG_MAX_ANGLE` |
| `HandGeometry.NoOverflow` | silly_walk_2_0/src/silly_walk.c:24-52 | for every valid time, no step of the hour, minute or second expression overflows `int32_t`; in particular `TRIG_MAX_ANGLE * 359` and `TRIG_MAX_ANGLE * 354` fit |
| `HandGeometry.CenterFrame` | silly_walk_2_0/src/silly_walk.c:26-27 | the frame keeps its size; twice the origin plus the size equals the screen size plus the C remainder of the size by 2, so it is centred to within half a pixel; the result fits `int16_t` |
| `HandGeometry.CenterFrameUnique` | silly_walk_2_0/src/silly_walk.c:40-41 | `CenterFrame` gives the only centred frame of a given size, so centring twice equals centring once |
| `HandGeometry.Placed` | silly_walk_2_0/src/silly_walk.c:25-63 | no contract of its own: the six hand layers after `update_time`; `PlacedCentred` and `ShownAnglesInRange` state what it guarantees |
| `HandGeometry.PlacedCentred` | silly_walk_2_0/src/silly_walk.c:25-63 | after a redraw, both layers of each hand share the centred white frame and show that hand's angle; the white sizes are unchanged; a redraw of centred hands moves no frame |
| `HandGeometry.ShownAnglesInRange` | silly_walk_2_0/src/silly_walk.c:53-61 | hands showing a valid time lie within one full turn; the second hand reaches a full turn only at a leap second |
| `InfoText.Dec` | silly_walk_2_0/src/silly_walk.c:77-79 | `%d` of a non-negative number: non-empty, starts with a digit, no leading zero |
| `InfoText.DecDigits` | silly_walk_2_0/src/silly_walk.c:77-79 | every character `%d` writes is a decimal digit |
| `InfoText.ParseDecOfDec` | silly_walk_2_0/src/silly_walk.c:77-79 | reading the digits back gives the number |
| `InfoText.DecInjective` | silly_walk_2_0/src/silly_walk.c:77-79 | distinct levels give distinct texts |
| `InfoText.DecLength` | silly_walk_2_0/src/silly_walk.c:77-79 | a number below 10^k takes at most k digits |
| `InfoText.Snprintf` | silly_walk_2_0/src/silly_walk.c:77 | the buffer holds a prefix of the formatted text, shorter than the buffer size, and the whole text when it fits |
| `InfoText.BatteryText` | silly_walk_2_0/src/silly_walk.c:76-79 | for a `uint8_t` level the text fits the 27-byte buffer of line 10 without truncation: it is `"! " + dec + "%"` when plugged, `dec + "%"` otherwise; 2–6 characters long, ending in `%`, starting with `!` exactly when plugged |
| `InfoText.BatteryTextRoundTrip` | silly_walk_2_0/src/silly_walk.c:76-79 | parsing the battery text gives back the plugged flag and the level |
| `InfoText.DigitValueOfChar` | silly_walk_2_0/src/silly_walk.c:77 | each digit character written stands for its digit |
| `InfoText.BluetoothText` | silly_walk_2_0/src/silly_walk.c:67-70 | no contract of its own: "Linked" or "Offline"; `BluetoothTextDetermines` states that the text determines the link state |
| `InfoText.BluetoothTextDetermines` | silly_walk_2_0/src/silly_walk.c:67-70 | the two Bluetooth texts differ, so equal texts mean equal link states |
| `InfoText.BatteryFormat` | silly_walk_2_0/src/silly_walk.c:77-79 | no contract of its own: the two formats `"! %d%%"` and `"%d%%"`; `BatteryText` shows the buffer holds exactly this text |
| `WatchFace.InfoFor` | silly_walk_2_0/src/silly_walk.c:66-81 | no contract of its own: the Bluetooth and battery texts for one service reading; the properties of its parts are in `BluetoothTextDetermines`, `BatteryText` and `BatteryTextRoundTrip` |
| `WatchFace.DisplayFor` | silly_walk_2_0/src/silly_walk.c:137-156 | no contract of its own: the tick unit, second hands, info panel and background each setting selects; `ApplyDisplay` states each message's effect on it, and `Face.Valid()` keeps the face's display equal to it |
| `WatchFace.Apply` | silly_walk_2_0/src/silly_walk.c:130-159 | no contract of its own: one settings message. Its effect is stated in `ApplySetting`, `ApplyDisplay` and `ApplyOtherKey`, and its algebra in `ApplyCommutes` and `ApplyOverrides` |
| `WatchFace.ApplyAll` | silly_walk_2_0/src/silly_walk.c:130-159 | no contract of its own: a series of messages handled in order; `ApplyAllPersisted`, `LastWriteWins` and `UntouchedSetting` state what it guarantees |
| `WatchFace.ApplySetting` | silly_walk_2_0/src/silly_walk.c:133-157 | on keys 1, 2 and 3, the setting and its store entry both become the value; the other settings and store entries are unchanged; the store stays in step with the settings |
| `WatchFace.ApplyDisplay` | silly_walk_2_0/src/silly_walk.c:130-159 | key 1: tick unit SECOND with second hands shown iff the value is 0, otherwise MINUTE with them hidden; key 2: background simple iff the value is 1; key 3: info panel shown iff the value is 0; other keys: display unchanged |
| `WatchFace.ApplyOtherKey` | silly_walk_2_0/src/silly_walk.c:132-158 | a key other than 1, 2 or 3 changes nothing |
| `WatchFace.ApplyCommutes` | silly_walk_2_0/src/silly_walk.c:130-159 | messages for different keys give the same settings in either order |
| `WatchFace.ApplyOverrides` | silly_walk_2_0/src/silly_walk.c:130-159 | a second message for the same key overrides the first |
| `WatchFace.ApplyAllPersisted` | silly_walk_2_0/src/silly_walk.c:135-151 | after any series of messages, every stored setting holds its current value |
| `WatchFace.LastWriteWins` | silly_walk_2_0/src/silly_walk.c:130-159 | after a series of messages, a setting and its store entry hold the value of the last message for that key |
| `WatchFace.UntouchedSetting` | silly_walk_2_0/src/silly_walk.c:130-159 | a setting that no message names keeps its value and its store entry |
| `WatchFace.Face.Init` | silly_walk_2_0/src/silly_walk.c:165-276 | start-up from stored settings: the background follows the background setting, the info panel follows the info setting, and the second hand and tick unit follow the seconds setting. The hands are drawn for the current time, texts are written when info is on, and the invariant holds |
| `WatchFace.Face.UpdateTime` | silly_walk_2_0/src/silly_walk.c:22-89 | the hands become `Placed(old hands, t)`; the Bluetooth and battery texts are refreshed only while info is on; the hand invariant holds |
| `WatchFace.Face.HandleTick` | silly_walk_2_0/src/silly_walk.c:91-93 | a tick redraws for the tick's time |
| `WatchFace.Face.EnableSeconds` | silly_walk_2_0/src/silly_walk.c:95-106 | the second hands are attached, the face is redrawn, and the tick unit is SECOND |
| `WatchFace.Face.DisableSeconds` | silly_walk_2_0/src/silly_walk.c:108-118 | the second hands are detached, the face is redrawn, and the tick unit is MINUTE |
| `WatchFace.Face.FollowSecondsSetting` | silly_walk_2_0/src/silly_walk.c:137-140 | the second hand and tick unit follow the seconds setting (0 is on), with a redraw |
| `WatchFace.Face.EnableInfo` | silly_walk_2_0/src/silly_walk.c:120-123 | the info panel is attached and nothing else changes |
| `WatchFace.Face.DisableInfo` | silly_walk_2_0/src/silly_walk.c:125-128 | the info panel is detached and nothing else changes |
| `WatchFace.Face.FollowInfoSetting` | silly_walk_2_0/src/silly_walk.c:153-156 | the info panel follows the info setting (0 is on) |
| `WatchFace.Face.OnTupleChanged` | silly_walk_2_0/src/silly_walk.c:130-159 | the settings become `Apply(old settings, key, value)`, so the setting and its store entry change; the display follows the new settings through the invariant; only key 1 redraws the hands and texts; any other key changes nothing |

## Left out

- Bitmap and resource loading, layer creation and destruction, compositing modes, rotation centres, `layer_mark_dirty` and `deinit`: these are platform calls with no logic of their own. A hand layer is modelled by its angle and frame; the background layer by which bitmap it shows.
- The settings transport (`app_message_open`, `app_sync_init` and its buffer, `app_error_callback`'s log line) and `main`'s event loop. Initial callbacks that the synchroniser might make during `app_sync_init` are not modelled.
- `persist_write_int` is assumed to succeed: the source ignores the status it returns. A failed write would leave the store behind the setting, and then `Persisted`, `Face.Valid()` and `ApplyAllPersisted` would not hold.
- `persist_read_int`'s value for a missing key: start-up takes the stored settings as given values, and requires each value to agree with its store entry when there is one.
- `time`/`localtime`, `bluetooth_connection_service_peek` and `battery_state_service_peek` are inputs (`Tm`, `Peek`), not behaviour.
- The actual tick-timer scheduling: only the subscribed unit is modelled.
- The tuple's value is taken as the byte the callback reads from it; other widths a tuple may carry are not modelled.
- WatchFace.Face.UpdateTime: does not model the day (`%a`) and date (`%b %e`) texts, because `strftime`'s output depends on the locale.
- WatchFace.Face.OnTupleChanged: states its per-key effects on the settings through `Apply` and on the display through `Valid()`, rather than field by field; `ApplySetting` and `ApplyDisplay` spell out what that means for each key.
- For times outside the `struct tm` ranges, C's signed overflow is undefined behaviour. The angle functions compute with unbounded integers there, and `HourAngle32`/`SixtiethAngle32` report the overflow as `None`.
