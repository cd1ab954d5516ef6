# Helmet charades controller — a Dafny model

This project models the firmware of a word-guessing helmet, `src/main.cpp`. The player
wears a helmet with an accelerometer, a microphone, a distance sensor, a buzzer and an
83-pixel LED strip. A dashboard talks to it over a websocket: it sends words, a countdown
length, a melody name, a start command and LED palettes with an effect name. The helmet
shows one word at a time. A nod or a shout moves to the next word. Running out of words
or out of time announces "Game Over".

The model has six modules:

- `Colors`: the `#RRGGBB` decoding of palette strings (`strtol` followed by shifts and
  masks), the countdown alert band, the per-word hue and the palette's layout along the
  strip.
- `Melodies`: the four note tables looked up by name, and the wrapping note index of the
  non-blocking player.
- `LedEffects`: the encoder's cycling through the four effects, and the bouncing
  brightness counter used by the fade and breathing effects.
- `WordLists`: a reference definition of "remove the first exact match" on sequences,
  and the in-place left shift of the ten-slot array.
- `Game`: the sketch's globals as one value `State`. Each part of the websocket handler
  and each stage of `loop()` is a function from the old state and its inputs to a
  `Step`. A `Step` holds the new state, the broadcasts sent to the dashboard
  (`Word`, `GameOver`, `Log`) and the hardware actions taken (`Tone`, `NoTone`, `Pause`
  for a blocking `delay`, `SetBrightness`, `Show`, `ShowHue`, `Display`). `Run`
  interleaves loop passes with dashboard messages. Lemmas about runs state what holds
  over any history.
- `Device`: class `Controller`, whose fields are the sketch's globals. The ten word
  slots are a fixed array. The countdown's, the melody player's and the strip's globals
  are each grouped in one record-valued field. Every method updates the object in place
  and is proved to produce exactly the state, broadcasts and actions that the matching
  `Game` function computes from the old state (`Snap()`). So everything proved about
  `Game` holds of the object.

Clock readings (`millis()`) and sensor readings are parameters (`Readings`, one value
per stage of the loop that reads them; a stage that calls `millis()` twice gets one
reading, see "## Left out"). A clock reading is a 32-bit unsigned value. Elapsed
time is the unsigned difference modulo 2^32, so the model stays correct when the clock
wraps.

### Behaviour of the code worth knowing

- Running out of words stops the game but not the countdown (`src/main.cpp:289-292`
  leave `timerRunning` set). When that countdown reaches zero, lines 270-278 announce
  "Game Over" again and sound the one-second expiry beep. `Game.LastWordLeavesCountdown`
  and `Game.GameOverTwice` prove this for every state where it can happen. Within one
  loop pass "Game Over" is announced at most once (`Game.TickWithinRules`).
- The one-second nod gate restarts only when a nod is detected: line 297 is inside the
  `if` at line 286. `Game.CheckNod` states that `lastNodTime` changes only on a nod.
- The `start` key starts the game whenever it is present with at least one word,
  whatever its value (line 149 tests `containsKey`). It always restarts at the first
  word, even in the middle of a game.
- The final-beep latch `buzzerTriggered` is cleared whenever the timer is armed and set
  only when the timer stops. So the sub-ten-second alert's `!buzzerTriggered` test
  (line 265) is always true while the timer runs, and the alert repeats on every pass.
  `Game.TimerInv` states this.
- A `remove` during a game can leave `currentWordIndex` at or past `wordCount`. The next
  nod then ends the game, since its test is `>=` (line 289). The next shout does the
  same (line 305) unless the list is now empty: line 303 requires `wordCount > 0`, so
  with no words left only a nod or the countdown ends the game.

## Model

| member | source | states |
|---|---|---|
| Colors.AlertBand | src/main.cpp:101-105 | red exactly at 3 s or less, orange exactly above 3 s up to 6 s, yellow exactly above 6 s |
| Colors.AlertBandEscalates | src/main.cpp:101-105 | as the remaining time falls the band never gets less alarming, and it is red from 3 s down |
| Colors.WordHue | src/main.cpp:95 | the 8-bit hue of a word is below 255, a multiple of 5, and `hue * 256` fits the 16-bit hue argument |
| Colors.WordHuesDistinct | src/main.cpp:95 | the ten word slots get ten different hues, so every advance changes the strip's colour |
| Colors.Pixels | src/main.cpp:227 | the strip gets one colour per pixel, each taken from the palette |
| Colors.Uniform | src/main.cpp:88-91 | `setAllLEDs` gives every pixel the same colour |
| Colors.PixelsShowPalette | src/main.cpp:227 | a palette no longer than the strip is laid out from pixel 0 in order, so every palette colour is shown |
| Colors.HexValue | src/main.cpp:162 | the hex digits read most significant first give a value below 16^n |
| Colors.DecodeHex | src/main.cpp:162-163 | the three channels put back together give exactly the value `strtol` read: the shifts and masks lose nothing |
| Colors.DecodeHexChannels | src/main.cpp:162-163 | the shifts and masks take red from the first digit pair, green from the second and blue from the third |
| Colors.DecodeEncodeHex | src/main.cpp:161-163 | every colour written as `#RRGGBB` is well formed and decodes back to itself |
| Colors.DecodeAll | src/main.cpp:159-164 | the palette has one decoded colour per string, in order |
| Melodies.GetMelody | src/main.cpp:68-74 | a name yields a non-empty table exactly when it is one of the four known names; each table has 8 notes of 100-300 ms and ends with a 100 ms rest |
| Melodies.NextNoteIndex | src/main.cpp:83 | the next index stays in the table, is 0 exactly after the last note, and is one more otherwise |
| Melodies.NoteAfterFirstPass | src/main.cpp:77-85 | during the first pass the player plays the notes in table order |
| Melodies.NoteAfterPeriodic | src/main.cpp:77-85 | after a whole table the player is back on note 0 and repeats with period equal to the table length |
| LedEffects.CycleEffect | src/main.cpp:211-215 | one detent moves one effect forward or back, wrapping at both ends, and stays among the four |
| LedEffects.CycleEffectUndo | src/main.cpp:214 | a detent and a detent back restore the effect |
| LedEffects.CycleEffectFullTurn | src/main.cpp:214 | four detents in one direction come back to the same effect |
| LedEffects.Bounce | src/main.cpp:234-235 | from any reachable counter the new level stays in [0, 255], and the direction flips exactly when the new level is 0 or 255 |
| LedEffects.BounceFirstPeriod | src/main.cpp:233-241 | from (0, +5) the counter follows the triangle wave 0, 5, ..., 255, ..., 5 without overshooting or sticking |
| LedEffects.BouncePeriodic | src/main.cpp:233-241 | after 102 steps the counter is back at its start and repeats |
| WordLists.FirstIndex | src/main.cpp:133-134 | the search stops at the first slot holding the word, or at the end when no slot does |
| WordLists.RemoveFirstCutsFirstMatch | src/main.cpp:131-139 | removal cuts out exactly the first match and keeps the other words in order; with no match nothing changes |
| WordLists.RemoveFirstCounts | src/main.cpp:131-139 | the list shrinks by one exactly when the word is present, and exactly one copy of it disappears |
| WordLists.ShiftOut | src/main.cpp:135 | after the shift, each slot from `i` up to the last live one holds its successor's old word; the other slots keep theirs |
| WordLists.ShiftOutRemovesFirst | src/main.cpp:133-137 | shifting out the first match leaves exactly the reference removal in the live slots; a word is found exactly when it is present |
| Game.Elapsed | src/main.cpp:261 | the unsigned 32-bit difference added back to the start gives the reading, and equals the plain difference when the clock has not wrapped |
| Game.Boot | src/main.cpp:44-61 | the initial globals satisfy the invariant: no words, index -1, no game, no timer, helmet not seen, no manual LEDs |
| Game.Remaining | src/main.cpp:261-262 | the seconds left never exceed the length, equal it during the first second, and are the length minus the whole seconds elapsed |
| Game.SetTimer | src/main.cpp:119-123 | arming sets the countdown to the new length started at `now` with the latch cleared, so the whole length remains at that moment; the length is displayed and nothing else changes |
| Game.AddWord | src/main.cpp:126-128 | the word is appended while fewer than ten are held, otherwise the list is unchanged; the slots after the new count and the rest of the round are untouched |
| Game.RemoveWord | src/main.cpp:131-139 | the live words become the reference first-match removal, the count drops exactly when the word is present, and the stale slots are untouched |
| Game.SelectMelody | src/main.cpp:142-146 | the named table is loaded and restarted at note 0; it is non-empty exactly for a known name |
| Game.Start | src/main.cpp:149-153 | with no words nothing happens; otherwise the game runs from word 0, the first word is announced and its hue painted |
| Game.SetLeds | src/main.cpp:165-168 | the palette and effect are replaced, a repaint is requested and manual control is on; nothing else on the strip changes |
| Game.TimerStage | src/main.cpp:119-123 | without a `timer` key nothing changes; with one the countdown restarts from `now` with the message's length and the latch cleared, and only the timer changes |
| Game.EditStage | src/main.cpp:126-146 | the live words become the list the `word` then `remove` fields leave, and the melody changes exactly when `melody` is present |
| Game.StartStage | src/main.cpp:148-153 | a word is announced exactly when `start` is present and words are held, and the game then runs from word 0 |
| Game.LedStage | src/main.cpp:156-169 | the strip changes only when both `colors` and `effect` are present, and then holds the decoded palette, the effect and a pending repaint |
| Game.HandleMessage | src/main.cpp:118-169 | a message never touches the helmet latch, arms the countdown exactly when `timer` is present, leaves the edited word list, announces at most one word and only on `start`, and never sounds the final beep |
| Game.MelodyIdle | src/main.cpp:78-79 | when the player is not idle its index points into the note table, so the note read at line 79 exists |
| Game.NoteSound | src/main.cpp:80-81 | a note sounds its frequency, and a rest (frequency 0) silences the buzzer |
| Game.PlayMelody | src/main.cpp:77-85 | with a game running and a known melody, once a note's duration plus 50 ms has passed, that note sounds and the index moves to the next note, wrapping; otherwise nothing happens |
| Game.TurnEncoder | src/main.cpp:209-221 | a changed position is remembered; in manual mode with no game it also steps the effect in the turn's direction, requests a repaint and logs the effect's name |
| Game.Paint | src/main.cpp:226-245 | at most one effect repaints per pass (each effect's repaint is stated by the five lemmas below); fade and breathing each step only their own counter by one bounce; only the solid effect clears the pending repaint |
| Game.PaintSolid | src/main.cpp:226-228 | solid repaints exactly while a repaint is pending, showing the palette at full brightness, and then clears the pending flag |
| Game.PaintBlink | src/main.cpp:229-232 | blink toggles exactly when more than 300 ms have passed, showing the palette when it turns on and a dark strip when it turns off |
| Game.PaintFade | src/main.cpp:233-238 | fade repaints exactly when more than 20 ms have passed: one bounce step of its own counter, whose new level becomes the brightness |
| Game.PaintBreathing | src/main.cpp:239-244 | breathing repaints exactly when more than 30 ms have passed, stepping only its own counter |
| Game.PaintUnknownEffect | src/main.cpp:226-245 | an effect name outside the four never repaints and changes nothing |
| Game.PaintKeepsInv | src/main.cpp:233-245 | a repaint keeps both brightness counters where a bounce from (0, +5) can be |
| Game.RenderEffect | src/main.cpp:224-246 | the manual effects run only in manual mode with no game running, and change nothing but the strip |
| Game.CheckHelmet | src/main.cpp:250-257 | the latch becomes set exactly when the distance is 1 or 2 cm and it was clear; only then is the helmet logged and the strip flashed green twice |
| Game.Expire | src/main.cpp:270-279 | expiry stops the timer and the game, clears the melody, announces "Game Over" and flashes red; the one-second beep sounds exactly when the latch was clear, and the latch is then set |
| Game.AlertBeep | src/main.cpp:266-268 | the alert paints the band colour, beeps 200 ms and stays silent 800 ms, and is never the one-second final beep |
| Game.Countdown | src/main.cpp:260-280 | while seconds remain it shows them and alerts in the last ten; at zero it stops the timer and the game, announces "Game Over" and sounds the final beep; the beep sounds exactly when it stops a running timer |
| Game.AdvanceWord | src/main.cpp:288-296 | past the last word the game stops at index 0 with "Game Over" and the melody cleared; otherwise the next word is announced and its hue painted; the countdown is untouched |
| Game.CheckNod | src/main.cpp:283-299 | a nod (beyond +-15000) more than a second after the last one advances the word while a game runs; the gate restarts only on a nod |
| Game.CheckShout | src/main.cpp:303-314 | a level above 3000 with a game, words, the helmet and the timer all on advances the word and then stalls 500 ms; otherwise nothing happens |
| Game.PlayMelodyQuiet | src/main.cpp:77-85 | the melody player leaves the countdown, the round and the helmet latch alone and announces no "Game Over" |
| Game.TurnEncoderQuiet | src/main.cpp:209-221 | the encoder leaves the countdown, the round and the helmet latch alone and announces no "Game Over" |
| Game.RenderEffectQuiet | src/main.cpp:224-246 | the LED effects leave the countdown, the round and the helmet latch alone and announce no "Game Over" |
| Game.CheckHelmetQuiet | src/main.cpp:250-257 | the helmet check never clears its latch and leaves the countdown and the round alone |
| Game.AdvanceWordAdvancing | src/main.cpp:288-296 | an advance never starts a game or touches the word list, the countdown or the helmet latch, and announces "Game Over" at most once and only when the game is over |
| Game.CheckNodAdvancing | src/main.cpp:283-299 | the nod check obeys the same rules as an advance |
| Game.CheckShoutAdvancing | src/main.cpp:303-314 | the shout check obeys the same rules as an advance |
| Game.Housekeeping | src/main.cpp:203-257 | melody, encoder, LED effect and helmet check together leave the countdown and the round alone and announce no "Game Over" |
| Game.Judge | src/main.cpp:283-314 | the nod check then the shout check keep the invariant |
| Game.JudgeAdvancing | src/main.cpp:283-314 | the pair obeys the advance rules (at most one "Game Over"), says nothing with no game running, and when the nod ends the game the shout check after it does nothing: the pair is the nod check alone |
| Game.Referee | src/main.cpp:260-314 | countdown, nod and shout in order keep the invariant |
| Game.RefereeWithinRules | src/main.cpp:260-314 | countdown, nod and shout together keep the per-pass rules, so the countdown's and the players' "Game Over" never come in the same pass |
| Game.ExpirySilencesPlayers | src/main.cpp:260-314 | when the countdown announces "Game Over" the nod and shout checks after it do and say nothing: the rest of the pass is the expiry alone |
| Game.Tick | src/main.cpp:202-315 | one pass of `loop()` keeps the invariant |
| Game.TickWithinRules | src/main.cpp:202-315 | one pass never touches the word list, never starts a game or the countdown, never clears the helmet latch, announces "Game Over" at most once, and sounds the final beep exactly when it stops a running countdown |
| Game.LastWordLeavesCountdown | src/main.cpp:288-292 | a nod on the last word ends the game with "Game Over" but leaves the countdown running |
| Game.GameOverTwice | src/main.cpp:260-292 | a round whose words run out before its time announces "Game Over" twice, the second time with the final beep |
| Game.Apply | src/main.cpp:108-315 | a loop pass or a dashboard message keeps the invariant |
| Game.Run | src/main.cpp:108-315 | any sequence of passes and messages keeps the invariant |
| Game.HelmetLatchHolds | src/main.cpp:250-251 | once the helmet is detected it stays detected over any sequence of passes and messages |
| Game.RunWordList | src/main.cpp:126-139 | over any history the word list is exactly what the messages' `word` and `remove` fields make of it; the loop never changes it |
| Game.FinalBeepOnce | src/main.cpp:275-278 | between arming messages a stopped countdown stays stopped, and the final beep sounds exactly once if the countdown stopped, however many passes follow |
| Device.DecodePalette | src/main.cpp:159-164 | the decoding loop yields one decoded colour per string, in order |
| Device.Controller.constructor | src/main.cpp:44-61 | the new controller holds the initial globals |
| Device.Controller.SetTimer | src/main.cpp:119-123 | updates the object exactly as `Game.SetTimer` says |
| Device.Controller.AddWord | src/main.cpp:126-128 | stores into the next free slot exactly as `Game.AddWord` says |
| Device.Controller.ShiftDown | src/main.cpp:135 | the in-place loop leaves the array equal to `WordLists.ShiftOut` of its old contents |
| Device.Controller.FindWord | src/main.cpp:133-134 | the search loop stops at the first live slot holding the word, or at the count when none does |
| Device.Controller.RemoveWord | src/main.cpp:131-139 | the search and in-place shift update the array and count exactly as `Game.RemoveWord` says |
| Device.Controller.SelectMelody | src/main.cpp:142-146 | updates the player exactly as `Game.SelectMelody` says |
| Device.Controller.Start | src/main.cpp:149-153 | updates the object and announces exactly as `Game.Start` says |
| Device.Controller.SetLeds | src/main.cpp:165-168 | updates the strip exactly as `Game.SetLeds` says |
| Device.Controller.EditStage | src/main.cpp:126-146 | applies `word`, `remove` and `melody` exactly as `Game.EditStage` says |
| Device.Controller.HandleMessage | src/main.cpp:118-169 | handles a message exactly as `Game.HandleMessage` says |
| Device.Controller.PlayMelody | src/main.cpp:77-85 | steps the player exactly as `Game.PlayMelody` says |
| Device.Controller.TurnEncoder | src/main.cpp:207-221 | handles the encoder exactly as `Game.TurnEncoder` says |
| Device.Controller.Paint | src/main.cpp:226-245 | repaints exactly as `Game.Paint` says |
| Device.Controller.RenderEffect | src/main.cpp:224-246 | runs the effects exactly as `Game.RenderEffect` says |
| Device.Controller.CheckHelmet | src/main.cpp:249-257 | the two-iteration flash loop produces exactly `Game.CheckHelmet`'s actions and latch |
| Device.Controller.Expire | src/main.cpp:270-279 | expires exactly as `Game.Expire` says |
| Device.Controller.Countdown | src/main.cpp:260-280 | runs the countdown exactly as `Game.Countdown` says |
| Device.Controller.AdvanceWord | src/main.cpp:288-296 | advances exactly as `Game.AdvanceWord` says |
| Device.Controller.CheckNod | src/main.cpp:283-299 | runs the nod check exactly as `Game.CheckNod` says |
| Device.Controller.CheckShout | src/main.cpp:302-314 | runs the shout check exactly as `Game.CheckShout` says |
| Device.Controller.Tick | src/main.cpp:202-315 | one pass of `loop()` updates the object, broadcasts and acts exactly as `Game.Tick` says, so `Game.TickWithinRules` holds of it |

## Left out

- WiFi, the web server, SPIFFS, `setup()`'s hardware initialisation and `ws.cleanupClients()` are not modelled. The initial state is the globals' initial values.
- JSON parsing is not modelled. A message is given already decoded as `Game.Message`: each field is present when its key is, `start` is the key's presence, and values already have their string or integer form. A message that fails to parse is dropped by the sketch and never reaches the model.
- Game.HandleMessage: requires a `colors` list (when `effect` is also present) to be non-empty and made of well-formed `#RRGGBB` strings. The sketch divides by the palette size (undefined on an empty palette), and `strtol` on malformed text is not modelled.
- Device.Controller.HandleMessage: has the same requirement on `colors`, for the same reason.
- Game.SetTimer: `timerDuration` is kept as an unbounded integer. The conversion of a negative `int` to `unsigned long`, and of the unsigned difference back to `int` at line 262, are not modelled.
- `ColorHSV` is not modelled. A word's colour is recorded as `ShowHue(hue)`, the hue the sketch passes in.
- The per-pixel loops of `setAllLEDs` and of the effects are collapsed into one `Show` of the whole pixel sequence. The sketch's final `leds.show()` is the only point where the strip changes visibly.
- `tone`, `noTone`, `delay` and `display.showNumberDec` are recorded as actions and not simulated. A blocking `delay` is a `Pause`, and the time it takes is reflected only in the later clock readings.
- Serial console output (line 217) is not modelled. It is not visible to the dashboard.
- Each stage of a pass gets its own clock reading and sensor reading (`Readings`). Where one stage calls `millis()` twice, the two calls are taken as one reading. This applies to the melody player's gate and `lastNoteTime` (lines 79 and 82), and to the nod gate and `lastNodTime` (lines 283 and 297).
- The websocket handler is registered with the asynchronous web server (line 197), whose network task can call it while `loop()` is in the middle of a pass. The model takes each message to run whole between two passes (`Game.Run`). A message arriving mid-pass is not modelled, and `Game.TickWithinRules` depends on this. For example, with one word, a `start` arriving between the nod check and the shout check can give two "Game Over" in one pass.
- The accelerometer's x and y axes are not modelled. Only `az` is read by the nod check.
- Device.Controller: the countdown's, the player's and the strip's globals are grouped into record-valued fields rather than kept as separate fields. The composite steps are split into helper methods (`Paint`, `Expire`, `ShiftDown`, `EditStage`) so that each proof stays small. The update order inside each group is the sketch's.
