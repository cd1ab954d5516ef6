/** The helmet charades controller as a state machine on values. `State` holds the
    sketch's globals, grouped by the part of the sketch that owns them; every piece of the
    dashboard handler and of one pass of the main loop is a function from the old state
    (and its inputs) to a `Step`: the new state, the broadcasts sent to the dashboard and
    the hardware actions performed. The class in module Device is proved to implement
    exactly these functions. */
module Game {
  import opened Colors
  import opened Melodies
  import opened LedEffects
  import opened WordLists

  const MAX_WORDS: nat := 10
  const NOD_GAP_MS: nat := 1000
  const NOD_THRESHOLD: int := 15000
  const SHOUT_THRESHOLD: int := 3000
  const HELMET_MAX_CM: int := 2
  const ALERT_SECONDS: int := 10
  const BLINK_MS: nat := 300
  const FADE_MS: nat := 20
  const BREATHE_MS: nat := 30
  const BEEP_HZ: nat := 1000
  const FINAL_BEEP_MS: nat := 1000
  const SHOUT_PAUSE_MS: nat := 500

  const TURN_LOG: string := "Rotary Encoder turned — Effect: "
  const HELMET_LOG: string := "Helmet worn detected"
  const NOD_LOG: string := "MPU6050: Head nod detected"

  /** A `millis()` reading: an `unsigned long`, 32 bits wide on the ESP32. */
  type Millis = x: int | 0 <= x < 0x1_0000_0000

  /** `now - since` in unsigned 32-bit arithmetic: correct across a wrap of the clock. */
  function Elapsed(now: Millis, since: Millis): (d: Millis)
    ensures (since + d) % 0x1_0000_0000 == now
    ensures since <= now ==> d == now - since
  {
    (now - since) % 0x1_0000_0000
  }

  datatype Option<T> = None | Some(value: T)

  /** A notification broadcast to every dashboard: `{"word": ...}` for a new word,
      `{"word": "Game Over"}`, or `{"log": ...}`. */
  datatype Broadcast = Word(text: string) | GameOver | Log(text: string)

  /** What the sketch does to its hardware. `Pause` is a blocking `delay`; `ShowHue` paints
      the whole strip with `ColorHSV(hue * 256)`. */
  datatype Action =
    | Tone(freq: nat)
    | NoTone
    | Pause(ms: nat)
    | SetBrightness(level: byte)
    | Show(pixels: seq<Rgb>)
    | ShowHue(hue: nat)
    | Display(n: int)

  /** `setAllLEDs(c)`. */
  function Fill(c: Rgb): Action
  {
    Show(Uniform(c))
  }

  /** A decoded dashboard message: each field present when its key is. */
  datatype Message = Message(
    timer: Option<int>,
    word: Option<string>,
    remove: Option<string>,
    melody: Option<string>,
    start: bool,
    colors: Option<seq<string>>,
    effect: Option<string>)

  /** The colors of a message that carries both `colors` and `effect` are a non-empty list
      of `#RRGGBB` strings. */
  predicate WellFormed(m: Message)
  {
    m.colors.Some? && m.effect.Some? ==>
      |m.colors.value| > 0 && forall i :: 0 <= i < |m.colors.value| ==> IsHexColor(m.colors.value[i])
  }

  /** The sensor readings and clock readings of one pass of the main loop, in the order
      the loop takes them. */
  datatype Readings = Readings(
    melodyTime: Millis,
    position: int,
    ledTime: Millis,
    distance: int,
    timerTime: Millis,
    nodTime: Millis,
    az: int,
    micLevel: int)

  // ===========================================================================
  // The globals
  // ===========================================================================

  /** `timerDuration`, `startTime`, `timerRunning`, `buzzerTriggered`. */
  datatype Timer = Timer(duration: int, startTime: Millis, running: bool, buzzerTriggered: bool)

  /** `gameStarted`, the ten slots of `wordList`, `wordCount`, `currentWordIndex`,
      `lastNodTime`. */
  datatype Round = Round(started: bool, words: seq<string>, count: int, index: int, lastNodTime: Millis)

  /** `selectedMelody`, `melodyNotes`, `melodyIndex`, `lastNoteTime`. */
  datatype Player = Player(selected: string, notes: seq<Note>, index: int, lastNoteTime: Millis)

  /** `currentColors`, `currentEffect`, `ledNeedsUpdate`, `ledManualControl`,
      `lastLedUpdate`, `blinkState`, (`fadeBrightness`, `fadeDelta`),
      (`breatheBrightness`, `breatheDelta`), the loop's `static effectIndex` and the
      encoder's `lastPosition`. */
  datatype Strip = Strip(
    colors: seq<Rgb>,
    effect: string,
    needsUpdate: bool,
    manual: bool,
    lastUpdate: Millis,
    blinkOn: bool,
    fade: (int, int),
    breathe: (int, int),
    effectIndex: int,
    lastPosition: int)

  datatype State = State(timer: Timer, helmetDetectedOnce: bool, round: Round, player: Player, strip: Strip)

  datatype Step = Step(state: State, out: seq<Broadcast>, acts: seq<Action>)

  /** The final-beep latch is only ever set by stopping the countdown, and arming clears it. */
  predicate TimerInv(t: Timer)
  {
    t.running ==> !t.buzzerTriggered
  }

  /** Ten slots, at most ten words, and a word index that is -1 or a slot while playing. */
  predicate RoundInv(r: Round)
  {
    && |r.words| == MAX_WORDS
    && 0 <= r.count <= MAX_WORDS
    && -1 <= r.index < MAX_WORDS
    && (r.started ==> 0 <= r.index)
  }

  /** The note index points into the table (or is 0). */
  predicate PlayerInv(p: Player)
  {
    0 <= p.index && (p.index == 0 || p.index < |p.notes|)
  }

  /** Manual control always has a palette; the effect index is one of the four; both
      brightness counters are where a bounce from (0, +5) can be. */
  predicate StripInv(l: Strip)
  {
    && (l.manual ==> |l.colors| > 0)
    && 0 <= l.effectIndex < MODE_COUNT
    && BounceInv(l.fade.0, l.fade.1)
    && BounceInv(l.breathe.0, l.breathe.1)
  }

  /** What holds of every state the controller reaches. */
  predicate Inv(g: State)
  {
    TimerInv(g.timer) && RoundInv(g.round) && PlayerInv(g.player) && StripInv(g.strip)
  }

  /** The words in play: the first `wordCount` slots. */
  function Live(r: Round): seq<string>
    requires 0 <= r.count <= |r.words|
  {
    r.words[..r.count]
  }

  /** The globals' initial values. */
  function Boot(): (g: State)
    ensures Inv(g)
    ensures Live(g.round) == [] && g.round.index == -1
    ensures !g.round.started && !g.timer.running && !g.helmetDetectedOnce && !g.strip.manual
  {
    State(Timer(0, 0, false, false), false,
          Round(false, seq(MAX_WORDS, _ => ""), 0, -1, 0),
          Player("none", [], 0, 0),
          Strip([], "solid", false, false, 0, false, BounceStart, BounceStart, 0, 0))
  }

  // ===========================================================================
  // Dashboard messages
  // ===========================================================================

  /** Whole seconds left on the countdown. */
  function Remaining(t: Timer, now: Millis): (r: int)
    ensures r <= t.duration
    ensures Elapsed(now, t.startTime) < 1000 ==> r == t.duration
    ensures t.startTime <= now ==> r == t.duration - (now - t.startTime) / 1000
  {
    t.duration - Elapsed(now, t.startTime) / 1000
  }

  /** `timer`: (re)arm the countdown from `now` with the final-beep latch cleared, and
      show its length; right after arming the whole length remains. */
  function SetTimer(g: State, seconds: int, now: Millis): (s: Step)
    requires Inv(g)
    ensures Inv(s.state)
    ensures s.state.timer == Timer(seconds, now, true, false)
    ensures s.state.timer.running && !s.state.timer.buzzerTriggered
    ensures Remaining(s.state.timer, now) == seconds
    ensures s.state.(timer := g.timer) == g
    ensures s.out == [] && s.acts == [Display(seconds)]
  {
    Step(g.(timer := Timer(seconds, now, true, false)), [], [Display(seconds)])
  }

  /** `word`: append while fewer than ten words are held, otherwise drop it silently. */
  function AddWord(r: Round, w: string): (r': Round)
    requires RoundInv(r)
    ensures RoundInv(r')
    ensures Live(r') == if |Live(r)| < MAX_WORDS then Live(r) + [w] else Live(r)
    ensures r'.words[r'.count..] == r.words[r'.count..]
    ensures r'.(words := r.words, count := r.count) == r
  {
    if r.count < MAX_WORDS then
      var r' := r.(words := r.words[r.count := w], count := r.count + 1);
      assert Live(r') == Live(r) + [w];
      r'
    else r
  }

  /** `remove`: delete the first exact match, closing the gap in order; no match, no
      change. The slots from the old count on are not touched. */
  function RemoveWord(r: Round, w: string): (r': Round)
    requires RoundInv(r)
    ensures RoundInv(r')
    ensures Live(r') == RemoveFirst(Live(r), w)
    ensures r'.count == if w in Live(r) then r.count - 1 else r.count
    ensures r'.words[r.count..] == r.words[r.count..]
    ensures r'.(words := r.words, count := r.count) == r
  {
    var i := FirstIndex(Live(r), w);
    ShiftOutRemovesFirst(r.words, r.count, w);
    if i == r.count then r
    else r.(words := ShiftOut(r.words, i, r.count), count := r.count - 1)
  }

  /** `melody`: load the named table (empty for an unknown name) and restart it. */
  function SelectMelody(p: Player, name: string): (p': Player)
    requires PlayerInv(p)
    ensures PlayerInv(p')
    ensures p'.selected == name && p'.index == 0
    ensures p'.notes != [] <==> IsKnownMelody(name)
    ensures p'.notes == GetMelody(name) && p'.lastNoteTime == p.lastNoteTime
  {
    Player(name, GetMelody(name), 0, p.lastNoteTime)
  }

  /** `start`: with at least one word, begin at the first word, announce it and paint its
      hue; with none, nothing happens. */
  function Start(g: State): (s: Step)
    requires Inv(g)
    ensures Inv(s.state)
    ensures g.round.count == 0 ==> s == Step(g, [], [])
    ensures g.round.count > 0 ==>
      && s.state == g.(round := g.round.(started := true, index := 0))
      && s.out == [Word(Live(g.round)[0])]
      && s.acts == [ShowHue(WordHue(0))]
  {
    if g.round.count > 0 then
      Step(g.(round := g.round.(started := true, index := 0)), [Word(g.round.words[0])], [ShowHue(WordHue(0))])
    else Step(g, [], [])
  }

  /** `colors` with `effect`: replace the palette and the effect, ask for a repaint and
      hand the strip to the manual effects. */
  function SetLeds(l: Strip, palette: seq<Rgb>, effect: string): (l': Strip)
    requires StripInv(l) && |palette| > 0
    ensures StripInv(l')
    ensures l'.manual && l'.needsUpdate && l'.colors == palette && l'.effect == effect
    ensures l'.(colors := l.colors, effect := l.effect, needsUpdate := l.needsUpdate, manual := l.manual) == l
  {
    l.(colors := palette, effect := effect, needsUpdate := true, manual := true)
  }

  /** The `timer` field of a message. */
  function TimerStage(g: State, m: Message, now: Millis): (s: Step)
    requires Inv(g)
    ensures Inv(s.state) && s.out == []
    ensures s.state.(timer := g.timer) == g
    ensures m.timer.None? ==> s == Step(g, [], [])
    ensures m.timer.Some? ==>
      s.state.timer == Timer(m.timer.value, now, true, false) && s.acts == [Display(m.timer.value)]
  {
    if m.timer.Some? then SetTimer(g, m.timer.value, now) else Step(g, [], [])
  }

  /** The list a message's `word` and then its `remove` field leave behind. */
  function EditedList(live: seq<string>, m: Message): seq<string>
  {
    var added := if m.word.Some? && |live| < MAX_WORDS then live + [m.word.value] else live;
    if m.remove.Some? then RemoveFirst(added, m.remove.value) else added
  }

  /** The `word`, `remove` and `melody` fields of a message. */
  function EditStage(g: State, m: Message): (r: State)
    requires Inv(g)
    ensures Inv(r)
    ensures r.(round := g.round, player := g.player) == g
    ensures Live(r.round) == EditedList(Live(g.round), m)
    ensures r.round.(words := g.round.words, count := g.round.count) == g.round
    ensures m.melody.None? ==> r.player == g.player
    ensures m.melody.Some? ==> r.player == SelectMelody(g.player, m.melody.value)
  {
    var r1 := if m.word.Some? then AddWord(g.round, m.word.value) else g.round;
    var r2 := if m.remove.Some? then RemoveWord(r1, m.remove.value) else r1;
    g.(round := r2, player := if m.melody.Some? then SelectMelody(g.player, m.melody.value) else g.player)
  }

  /** The `start` field of a message. */
  function StartStage(g: State, m: Message): (s: Step)
    requires Inv(g)
    ensures Inv(s.state)
    ensures s.state.(round := g.round) == g
    ensures s.state.round.words == g.round.words && s.state.round.count == g.round.count
    ensures |s.out| <= 1 && (forall b :: b in s.out ==> b.Word?)
    ensures s.out != [] <==> m.start && g.round.count > 0
    ensures m.start && g.round.count > 0 ==> s.state.round.started && s.state.round.index == 0
    ensures Pause(FINAL_BEEP_MS) !in s.acts
  {
    if m.start then Start(g) else Step(g, [], [])
  }

  /** The `colors` and `effect` fields of a message: both must be present. */
  function LedStage(l: Strip, m: Message): (l': Strip)
    requires StripInv(l) && WellFormed(m)
    ensures StripInv(l')
    ensures !(m.colors.Some? && m.effect.Some?) ==> l' == l
    ensures m.colors.Some? && m.effect.Some? ==>
      && l'.manual && l'.needsUpdate && l'.effect == m.effect.value
      && |l'.colors| == |m.colors.value|
      && forall i :: 0 <= i < |l'.colors| ==> l'.colors[i] == DecodeHex(m.colors.value[i])
  {
    if m.colors.Some? && m.effect.Some? then SetLeds(l, DecodeAll(m.colors.value), m.effect.value) else l
  }

  /** One dashboard message: its fields are applied in the handler's order (timer, word,
      remove, melody, start, colors with effect), each seeing the previous ones' effect. */
  function HandleMessage(g: State, m: Message, now: Millis): (s: Step)
    requires Inv(g) && WellFormed(m)
    ensures Inv(s.state)
    ensures s.state.helmetDetectedOnce == g.helmetDetectedOnce
    ensures m.timer.None? ==> s.state.timer == g.timer
    ensures m.timer.Some? ==> s.state.timer.running && !s.state.timer.buzzerTriggered
    ensures Live(s.state.round) == EditedList(Live(g.round), m)
    ensures |s.out| <= 1 && (forall b :: b in s.out ==> b.Word?)
    ensures s.out != [] <==> m.start && s.state.round.count > 0
    ensures multiset(s.acts)[Pause(FINAL_BEEP_MS)] == 0
  {
    var s1 := TimerStage(g, m, now);
    var s2 := StartStage(EditStage(s1.state, m), m);
    Step(s2.state.(strip := LedStage(s2.state.strip, m)), s2.out, s1.acts + s2.acts)
  }

  // ===========================================================================
  // One pass of the main loop
  // ===========================================================================

  /** The player has nothing to play. */
  predicate MelodyIdle(g: State)
    ensures !MelodyIdle(g) && PlayerInv(g.player) ==> 0 <= g.player.index < |g.player.notes|
  {
    !g.round.started || g.player.selected == "none" || g.player.notes == []
  }

  /** The buzzer output for a note: a tone, or silence for a rest. */
  function NoteSound(n: Note): (a: Action)
    ensures a == NoTone <==> n.freq == 0
    ensures a != NoTone ==> a == Tone(n.freq)
  {
    if n.freq > 0 then Tone(n.freq) else NoTone
  }

  /** `playMelodyNonBlocking`: once the current note's duration plus the gap has passed
      since the last note, sound the current note and move to the next, wrapping. */
  function PlayMelody(g: State, now: Millis): (s: Step)
    requires Inv(g)
    ensures Inv(s.state)
    ensures s.out == [] && s.state.(player := g.player) == g
    ensures MelodyIdle(g) ==> s == Step(g, [], [])
    ensures s.state.player.index != g.player.index ==> s.state.player.lastNoteTime == now
    ensures !MelodyIdle(g) ==>
      var note := g.player.notes[g.player.index];
      if Elapsed(now, g.player.lastNoteTime) > note.duration + NOTE_GAP_MS then
        && s.state.player == g.player.(lastNoteTime := now, index := NextNoteIndex(g.player.index, |g.player.notes|))
        && s.acts == [NoteSound(note)]
      else s == Step(g, [], [])
  {
    if MelodyIdle(g) then Step(g, [], [])
    else
      var p := g.player;
      var note := p.notes[p.index];
      if Elapsed(now, p.lastNoteTime) > note.duration + NOTE_GAP_MS then
        Step(g.(player := p.(lastNoteTime := now, index := NextNoteIndex(p.index, |p.notes|))),
             [], [NoteSound(note)])
      else Step(g, [], [])
  }

  /** The encoder moved: in manual LED mode with no game running, step the effect one
      place in the direction of the turn, ask for a repaint and log it; in any case
      remember the new position. */
  function TurnEncoder(g: State, position: int): (s: Step)
    requires Inv(g)
    ensures Inv(s.state)
    ensures s.state.(strip := g.strip) == g
    ensures s.state.strip.lastPosition == position
    ensures s.acts == []
    ensures position == g.strip.lastPosition ==> s == Step(g, [], [])
    ensures s.state.strip.effectIndex != g.strip.effectIndex ==> g.strip.manual && !g.round.started
    ensures position != g.strip.lastPosition && g.strip.manual && !g.round.started ==>
      var e := CycleEffect(g.strip.effectIndex, position > g.strip.lastPosition);
      && s.state.strip == g.strip.(effectIndex := e, effect := EffectNames[e], needsUpdate := true, lastPosition := position)
      && s.out == [Log(TURN_LOG + EffectNames[e])]
    ensures !(g.strip.manual && !g.round.started) ==> s.out == [] && s.state.strip == g.strip.(lastPosition := position)
  {
    var l := g.strip;
    if position == l.lastPosition then Step(g, [], [])
    else if l.manual && !g.round.started then
      var e := CycleEffect(l.effectIndex, position > l.lastPosition);
      Step(g.(strip := l.(effectIndex := e, effect := EffectNames[e], needsUpdate := true, lastPosition := position)),
           [Log(TURN_LOG + EffectNames[e])], [])
    else Step(g.(strip := l.(lastPosition := position)), [], [])
  }

  /** One repaint decision of the manual effects, at most one per pass: solid when a
      repaint is pending, blink every 300 ms, fade every 20 ms, breathing every 30 ms.
      Only the animation variables change. */
  function Paint(l: Strip, now: Millis): (r: (Strip, seq<Action>))
    requires StripInv(l) && l.manual
    ensures |r.1| <= 2
    ensures r.0.(needsUpdate := l.needsUpdate, lastUpdate := l.lastUpdate, blinkOn := l.blinkOn,
                 fade := l.fade, breathe := l.breathe) == l
    ensures r.0.fade != l.fade ==> l.effect == "fade" && r.0.fade == Bounce(l.fade.0, l.fade.1)
    ensures r.0.breathe != l.breathe ==> l.effect == "breathing" && r.0.breathe == Bounce(l.breathe.0, l.breathe.1)
    ensures r.0.blinkOn != l.blinkOn ==> l.effect == "blink"
    ensures r.0.lastUpdate != l.lastUpdate ==> r.0.lastUpdate == now
    ensures r.0.needsUpdate != l.needsUpdate ==> l.effect == "solid" && !r.0.needsUpdate
    ensures r.1 == [] <==> r.0 == l
    ensures forall a :: a in r.1 ==> a.SetBrightness? || a.Show?
  {
    if l.effect == "solid" && l.needsUpdate then
      (l.(needsUpdate := false), [SetBrightness(255), Show(Pixels(l.colors))])
    else if l.effect == "blink" && Elapsed(now, l.lastUpdate) > BLINK_MS then
      var on := !l.blinkOn;
      (l.(blinkOn := on, lastUpdate := now), [Show(if on then Pixels(l.colors) else Uniform(Off))])
    else if l.effect == "fade" && Elapsed(now, l.lastUpdate) > FADE_MS then
      var b := Bounce(l.fade.0, l.fade.1);
      (l.(fade := b, lastUpdate := now), [SetBrightness(b.0), Show(Pixels(l.colors))])
    else if l.effect == "breathing" && Elapsed(now, l.lastUpdate) > BREATHE_MS then
      var b := Bounce(l.breathe.0, l.breathe.1);
      (l.(breathe := b, lastUpdate := now), [SetBrightness(b.0), Show(Pixels(l.colors))])
    else (l, [])
  }

  /** A repaint keeps the brightness counters where a bounce can take them. */
  lemma PaintKeepsInv(l: Strip, now: Millis)
    requires StripInv(l) && l.manual
    ensures StripInv(Paint(l, now).0)
  {
  }

  /** Solid repaints exactly while a repaint is pending: the palette at full brightness,
      after which nothing is pending. */
  lemma PaintSolid(l: Strip, now: Millis)
    requires StripInv(l) && l.manual && l.effect == "solid"
    ensures var r := Paint(l, now);
      && (r.1 != [] <==> l.needsUpdate)
      && (l.needsUpdate ==> r.1 == [SetBrightness(255), Show(Pixels(l.colors))] && !r.0.needsUpdate)
  {
  }

  /** Blink toggles exactly when more than 300 ms have passed since the last repaint, and
      then shows the palette when it turns on and a dark strip when it turns off. */
  lemma PaintBlink(l: Strip, now: Millis)
    requires StripInv(l) && l.manual && l.effect == "blink"
    ensures var r := Paint(l, now);
      && (r.0.blinkOn != l.blinkOn <==> Elapsed(now, l.lastUpdate) > BLINK_MS)
      && (r.1 != [] <==> r.0.blinkOn != l.blinkOn)
      && (r.1 != [] ==> r.0.lastUpdate == now && r.1 == [Show(if r.0.blinkOn then Pixels(l.colors) else Uniform(Off))])
  {
  }

  /** Fade repaints exactly when more than 20 ms have passed: one bounce step of its own
      counter, whose new level becomes the brightness of the palette. */
  lemma PaintFade(l: Strip, now: Millis)
    requires StripInv(l) && l.manual && l.effect == "fade"
    ensures var r := Paint(l, now);
      && (r.1 != [] <==> Elapsed(now, l.lastUpdate) > FADE_MS)
      && (r.1 != [] ==>
            && r.0.fade == Bounce(l.fade.0, l.fade.1) && r.0.breathe == l.breathe && r.0.lastUpdate == now
            && r.1 == [SetBrightness(r.0.fade.0), Show(Pixels(l.colors))])
  {
  }

  /** Breathing repaints exactly when more than 30 ms have passed, stepping only its own
      counter. */
  lemma PaintBreathing(l: Strip, now: Millis)
    requires StripInv(l) && l.manual && l.effect == "breathing"
    ensures var r := Paint(l, now);
      && (r.1 != [] <==> Elapsed(now, l.lastUpdate) > BREATHE_MS)
      && (r.1 != [] ==>
            && r.0.breathe == Bounce(l.breathe.0, l.breathe.1) && r.0.fade == l.fade && r.0.lastUpdate == now
            && r.1 == [SetBrightness(r.0.breathe.0), Show(Pixels(l.colors))])
  {
  }

  /** An effect name outside the four never repaints and changes nothing. */
  lemma PaintUnknownEffect(l: Strip, now: Millis)
    requires StripInv(l) && l.manual && l.effect !in EffectNames
    ensures Paint(l, now) == (l, [])
  {
    assert l.effect != EffectNames[0] && l.effect != EffectNames[1];
    assert l.effect != EffectNames[2] && l.effect != EffectNames[3];
  }

  /** The manual LED effects run only while the dashboard has the strip and no game runs. */
  function RenderEffect(g: State, now: Millis): (s: Step)
    requires Inv(g)
    ensures Inv(s.state)
    ensures s.state.(strip := g.strip) == g && s.out == []
    ensures !(g.strip.manual && !g.round.started) ==> s == Step(g, [], [])
    ensures g.strip.manual && !g.round.started ==>
      var p := Paint(g.strip, now); s.state.strip == p.0 && s.acts == p.1
  {
    if !(g.strip.manual && !g.round.started) then Step(g, [], [])
    else
      var p := Paint(g.strip, now);
      PaintKeepsInv(g.strip, now);
      Step(g.(strip := p.0), [], p.1)
  }

  /** The green double flash that greets the helmet. */
  const HelmetFlash: seq<Action> :=
    [Fill(Green), Pause(200), Fill(Off), Pause(200), Fill(Green), Pause(200), Fill(Off), Pause(200)]

  /** The helmet is worn when the distance sensor reads 1 or 2 cm; this is reported once
      and then latched. */
  function CheckHelmet(g: State, distance: int): (s: Step)
    requires Inv(g)
    ensures Inv(s.state)
    ensures s.state.(helmetDetectedOnce := g.helmetDetectedOnce) == g
    ensures s.state.helmetDetectedOnce == (g.helmetDetectedOnce || 0 < distance <= HELMET_MAX_CM)
    ensures s.state.helmetDetectedOnce == g.helmetDetectedOnce ==> s == Step(g, [], [])
    ensures s.state.helmetDetectedOnce != g.helmetDetectedOnce ==> s.out == [Log(HELMET_LOG)] && s.acts == HelmetFlash
  {
    if 0 < distance <= HELMET_MAX_CM && !g.helmetDetectedOnce then
      Step(g.(helmetDetectedOnce := true), [Log(HELMET_LOG)], HelmetFlash)
    else Step(g, [], [])
  }

  /** The near-expiry alert: band colour, a 200 ms beep, then 800 ms of silence. */
  function AlertBeep(remaining: int): (acts: seq<Action>)
    ensures |acts| == 5 && acts[0] == Fill(AlertBand(remaining))
    ensures acts[1..] == [Tone(BEEP_HZ), Pause(200), NoTone, Pause(800)]
    ensures Pause(FINAL_BEEP_MS) !in acts
  {
    [Fill(AlertBand(remaining)), Tone(BEEP_HZ), Pause(200), NoTone, Pause(800)]
  }

  /** The one-second expiry beep. */
  const FinalBeep: seq<Action> := [Tone(BEEP_HZ), Pause(FINAL_BEEP_MS), NoTone]

  /** The countdown reaching zero: stop the timer and the game, clear the melody, zero the
      display, announce "Game Over", flash red and sound the final beep unless the latch
      says it has sounded, then set the latch. */
  function Expire(g: State): (s: Step)
    requires Inv(g)
    ensures Inv(s.state)
    ensures s.state.helmetDetectedOnce == g.helmetDetectedOnce && s.state.strip == g.strip
    ensures s.state.round == g.round.(started := false)
    ensures !s.state.timer.running && s.state.timer.buzzerTriggered
    ensures s.state.player.notes == [] && s.state.player.index == 0
    ensures s.out == [GameOver]
    ensures s.acts == [NoTone, Display(0), Fill(Red)] + (if g.timer.buzzerTriggered then [] else FinalBeep)
    ensures multiset(s.acts)[Pause(FINAL_BEEP_MS)] == if g.timer.buzzerTriggered then 0 else 1
  {
    var t := g.timer;
    var beep := if !t.buzzerTriggered then FinalBeep else [];
    Step(g.(timer := t.(running := false, buzzerTriggered := true),
            round := g.round.(started := false),
            player := g.player.(notes := [], index := 0)),
         [GameOver], [NoTone, Display(0), Fill(Red)] + beep)
  }

  /** The countdown: show the seconds left, alert in the last ten seconds, and at zero stop
      the timer and the game, clear the melody, announce "Game Over", flash red and sound
      the final beep unless it has sounded already. Since arming clears the latch, a
      running countdown always alerts and always sounds the final beep. */
  function Countdown(g: State, now: Millis): (s: Step)
    requires Inv(g)
    ensures Inv(s.state)
    ensures s.state.helmetDetectedOnce == g.helmetDetectedOnce && s.state.strip == g.strip
    ensures s.state.round.(started := g.round.started) == g.round
    ensures !g.timer.running ==> s == Step(g, [], [])
    ensures g.timer.running && Remaining(g.timer, now) > 0 ==>
      var rem := Remaining(g.timer, now);
      && s.state == g && s.out == []
      && s.acts == [Display(rem)] + (if rem <= ALERT_SECONDS then AlertBeep(rem) else [])
    ensures g.timer.running && Remaining(g.timer, now) <= 0 ==>
      && !s.state.timer.running && s.state.timer.buzzerTriggered && !s.state.round.started
      && s.state.player.notes == [] && s.state.player.index == 0
      && s.out == [GameOver]
      && s.acts == [NoTone, Display(0), Fill(Red)] + FinalBeep
    ensures multiset(s.acts)[Pause(FINAL_BEEP_MS)] == if g.timer.running && !s.state.timer.running then 1 else 0
  {
    var t := g.timer;
    if !t.running then Step(g, [], [])
    else
      var remaining := Remaining(t, now);
      if remaining > 0 then
        Step(g, [], [Display(remaining)] + (if remaining <= ALERT_SECONDS && !t.buzzerTriggered then AlertBeep(remaining) else []))
      else Expire(g)
  }

  /** Move to the next word (shared by the nod and the shout): past the last word the game
      stops with "Game Over" and the index goes back to 0, otherwise the next word is
      announced and its hue painted. The countdown is not touched. */
  function AdvanceWord(g: State): (s: Step)
    requires Inv(g)
    ensures Inv(s.state)
    ensures s.state.(round := g.round, player := g.player) == g
    ensures s.state.round.words == g.round.words && s.state.round.count == g.round.count
    ensures s.state.round.lastNodTime == g.round.lastNodTime
    ensures |s.out| == 1
    ensures GameOver in s.out <==> g.round.index + 1 >= g.round.count
    ensures g.round.index + 1 >= g.round.count ==>
      && !s.state.round.started && s.state.round.index == 0
      && s.state.player == g.player.(notes := [], index := 0)
      && s.acts == [NoTone]
    ensures g.round.index + 1 < g.round.count ==>
      && s.state.round == g.round.(index := g.round.index + 1)
      && s.state.player == g.player
      && s.out == [Word(Live(g.round)[g.round.index + 1])]
      && s.acts == [ShowHue(WordHue(g.round.index + 1))]
  {
    var r := g.round;
    var i := r.index + 1;
    if i >= r.count then
      Step(g.(round := r.(index := 0, started := false), player := g.player.(notes := [], index := 0)),
           [GameOver], [NoTone])
    else
      Step(g.(round := r.(index := i)), [Word(r.words[i])], [ShowHue(WordHue(i))])
  }

  /** A nod is a vertical acceleration beyond +-15000. */
  predicate IsNod(az: int)
  {
    az < -NOD_THRESHOLD || az > NOD_THRESHOLD
  }

  /** The nod check: while a game runs and more than a second has passed since the last
      detected nod, a nod advances the word. The gate restarts only when a nod is seen. */
  function CheckNod(g: State, now: Millis, az: int): (s: Step)
    requires Inv(g)
    ensures Inv(s.state)
    ensures s.state.(round := g.round, player := g.player) == g
    ensures s.state.round.words == g.round.words && s.state.round.count == g.round.count
    ensures s.state.round.lastNodTime != g.round.lastNodTime ==> IsNod(az) && s.state.round.lastNodTime == now
    ensures !(g.round.started && Elapsed(now, g.round.lastNodTime) > NOD_GAP_MS && IsNod(az)) ==> s == Step(g, [], [])
    ensures g.round.started && Elapsed(now, g.round.lastNodTime) > NOD_GAP_MS && IsNod(az) ==>
      var a := AdvanceWord(g);
      s == Step(a.state.(round := a.state.round.(lastNodTime := now)), [Log(NOD_LOG)] + a.out, a.acts)
  {
    if g.round.started && Elapsed(now, g.round.lastNodTime) > NOD_GAP_MS && IsNod(az) then
      var a := AdvanceWord(g);
      Step(a.state.(round := a.state.round.(lastNodTime := now)), [Log(NOD_LOG)] + a.out, a.acts)
    else Step(g, [], [])
  }

  /** The shout check: while a game runs with the helmet on and the timer going, a
      microphone level above 3000 advances the word, then the loop stalls for 500 ms. */
  function CheckShout(g: State, micLevel: int): (s: Step)
    requires Inv(g)
    ensures Inv(s.state)
    ensures s.state.(round := g.round, player := g.player) == g
    ensures s.state.round.words == g.round.words && s.state.round.count == g.round.count
    ensures !(g.round.started && micLevel > SHOUT_THRESHOLD && g.round.count > 0 && g.helmetDetectedOnce && g.timer.running) ==>
      s == Step(g, [], [])
    ensures g.round.started && micLevel > SHOUT_THRESHOLD && g.round.count > 0 && g.helmetDetectedOnce && g.timer.running ==>
      var a := AdvanceWord(g);
      s == Step(a.state, a.out, a.acts + [Pause(SHOUT_PAUSE_MS)])
  {
    if g.round.started && micLevel > SHOUT_THRESHOLD && g.round.count > 0 && g.helmetDetectedOnce && g.timer.running then
      var a := AdvanceWord(g);
      Step(a.state, a.out, a.acts + [Pause(SHOUT_PAUSE_MS)])
    else Step(g, [], [])
  }

  // ---------------------------------------------------------------------------
  // What each part of the loop leaves alone
  // ---------------------------------------------------------------------------

  /** A part of the loop that leaves the countdown and the round alone, never clears the
      helmet latch, announces no game over and sounds no final beep. */
  predicate Quiet(g: State, s: Step)
  {
    && s.state.timer == g.timer && s.state.round == g.round
    && (g.helmetDetectedOnce ==> s.state.helmetDetectedOnce)
    && GameOver !in s.out && Pause(FINAL_BEEP_MS) !in s.acts
  }

  /** The melody player, the encoder, the LED effects and the helmet check are quiet. */
  lemma PlayMelodyQuiet(g: State, now: Millis)
    requires Inv(g)
    ensures Quiet(g, PlayMelody(g, now))
  {
  }

  lemma TurnEncoderQuiet(g: State, position: int)
    requires Inv(g)
    ensures Quiet(g, TurnEncoder(g, position))
  {
  }

  lemma RenderEffectQuiet(g: State, now: Millis)
    requires Inv(g)
    ensures Quiet(g, RenderEffect(g, now))
  {
  }

  lemma CheckHelmetQuiet(g: State, distance: int)
    requires Inv(g)
    ensures Quiet(g, CheckHelmet(g, distance))
  {
  }

  /** A part of the loop that may end the game but never starts one, leaves the word list,
      the countdown and the helmet latch alone, sounds no final beep and announces
      "Game Over" at most once, leaving no game running after it. */
  predicate Advancing(g: State, s: Step)
  {
    && s.state.timer == g.timer && s.state.helmetDetectedOnce == g.helmetDetectedOnce
    && s.state.round.words == g.round.words && s.state.round.count == g.round.count
    && (s.state.round.started ==> g.round.started)
    && multiset(s.out)[GameOver] <= 1
    && (GameOver in s.out ==> !s.state.round.started)
    && Pause(FINAL_BEEP_MS) !in s.acts
  }

  lemma AdvanceWordAdvancing(g: State)
    requires Inv(g)
    ensures Advancing(g, AdvanceWord(g))
  {
  }

  lemma CheckNodAdvancing(g: State, now: Millis, az: int)
    requires Inv(g)
    ensures Advancing(g, CheckNod(g, now, az))
  {
    AdvanceWordAdvancing(g);
  }

  lemma CheckShoutAdvancing(g: State, micLevel: int)
    requires Inv(g)
    ensures Advancing(g, CheckShout(g, micLevel))
  {
    AdvanceWordAdvancing(g);
  }

  /** The first half of a pass: melody, encoder, LED effect and helmet check. */
  function Housekeeping(g: State, r: Readings): (s: Step)
    requires Inv(g)
    ensures Inv(s.state) && Quiet(g, s)
  {
    var s1 := PlayMelody(g, r.melodyTime);
    var s2 := TurnEncoder(s1.state, r.position);
    var s3 := RenderEffect(s2.state, r.ledTime);
    var s4 := CheckHelmet(s3.state, r.distance);
    PlayMelodyQuiet(g, r.melodyTime);
    TurnEncoderQuiet(s1.state, r.position);
    RenderEffectQuiet(s2.state, r.ledTime);
    CheckHelmetQuiet(s3.state, r.distance);
    Step(s4.state, s1.out + s2.out + s3.out + s4.out, s1.acts + s2.acts + s3.acts + s4.acts)
  }

  /** What a pass of the loop, or its second half, may do: it never touches the word
      list, never starts a game or the countdown and never clears the helmet latch; it
      announces "Game Over" at most once, and it sounds the one-second final beep exactly
      when it stops a running countdown. */
  predicate WithinRules(g: State, s: Step)
  {
    && s.state.round.words == g.round.words && s.state.round.count == g.round.count
    && (g.helmetDetectedOnce ==> s.state.helmetDetectedOnce)
    && (s.state.round.started ==> g.round.started)
    && (s.state.timer.running ==> g.timer.running)
    && multiset(s.out)[GameOver] <= 1
    && multiset(s.acts)[Pause(FINAL_BEEP_MS)] == if g.timer.running && !s.state.timer.running then 1 else 0
  }

  /** The players' half of a pass: the nod check, then the shout check. */
  function Judge(g: State, r: Readings): (s: Step)
    requires Inv(g)
    ensures Inv(s.state)
  {
    var s6 := CheckNod(g, r.nodTime, r.az);
    var s7 := CheckShout(s6.state, r.micLevel);
    Step(s7.state, s6.out + s7.out, s6.acts + s7.acts)
  }

  /** A nod that ends the game silences the shout check after it, so the two together
      still announce "Game Over" at most once; with no game running neither says anything. */
  lemma JudgeAdvancing(g: State, r: Readings)
    requires Inv(g)
    ensures Advancing(g, Judge(g, r))
    ensures !g.round.started ==> Judge(g, r).out == []
    ensures GameOver in CheckNod(g, r.nodTime, r.az).out ==> Judge(g, r) == CheckNod(g, r.nodTime, r.az)
  {
    var s6 := CheckNod(g, r.nodTime, r.az);
    CheckNodAdvancing(g, r.nodTime, r.az);
    CheckShoutAdvancing(s6.state, r.micLevel);
    if GameOver in s6.out {
      assert CheckShout(s6.state, r.micLevel) == Step(s6.state, [], []);
      assert s6.out + [] == s6.out && s6.acts + [] == s6.acts;
    }
  }

  /** The second half of a pass: countdown, nod and shout. */
  function Referee(g: State, r: Readings): (s: Step)
    requires Inv(g)
    ensures Inv(s.state)
  {
    var s5 := Countdown(g, r.timerTime);
    var s7 := Judge(s5.state, r);
    Step(s7.state, s5.out + s7.out, s5.acts + s7.acts)
  }

  /** The countdown's and the players' "Game Over" never come in the same pass. */
  lemma RefereeWithinRules(g: State, r: Readings)
    requires Inv(g)
    ensures WithinRules(g, Referee(g, r))
  {
    var s5 := Countdown(g, r.timerTime);
    JudgeAdvancing(s5.state, r);
    ExpirySilencesPlayers(g, r);
  }

  /** Once the countdown has announced "Game Over" no game runs, so the nod and the shout
      checks after it do and say nothing: the rest of the pass is the expiry alone. */
  lemma ExpirySilencesPlayers(g: State, r: Readings)
    requires Inv(g)
    ensures GameOver in Countdown(g, r.timerTime).out ==> Referee(g, r) == Countdown(g, r.timerTime)
  {
    var s5 := Countdown(g, r.timerTime);
    if GameOver in s5.out {
      assert CheckNod(s5.state, r.nodTime, r.az) == Step(s5.state, [], []);
      assert CheckShout(s5.state, r.micLevel) == Step(s5.state, [], []);
      assert Judge(s5.state, r) == Step(s5.state, [], []);
      assert s5.out + [] == s5.out && s5.acts + [] == s5.acts;
    }
  }

  /** One pass of the main loop: melody, encoder, LED effect, helmet, countdown, nod,
      shout, each seeing what the earlier ones changed. */
  function Tick(g: State, r: Readings): (s: Step)
    requires Inv(g)
    ensures Inv(s.state)
  {
    var a := Housekeeping(g, r);
    var b := Referee(a.state, r);
    Step(b.state, a.out + b.out, a.acts + b.acts)
  }

  /** A quiet step followed by one within the rules is within the rules. */
  lemma QuietThenWithinRules(g: State, a: Step, b: Step)
    requires Quiet(g, a) && WithinRules(a.state, b)
    ensures WithinRules(g, Step(b.state, a.out + b.out, a.acts + b.acts))
  {
    assert multiset(a.out)[GameOver] == 0 && multiset(a.acts)[Pause(FINAL_BEEP_MS)] == 0;
  }

  /** A whole pass keeps the rules: its first half is quiet. */
  lemma TickWithinRules(g: State, r: Readings)
    requires Inv(g)
    ensures WithinRules(g, Tick(g, r))
  {
    var a := Housekeeping(g, r);
    RefereeWithinRules(a.state, r);
    QuietThenWithinRules(g, a, Referee(a.state, r));
  }

  /** A nod on the last word ends the game with "Game Over" but leaves the countdown
      running: running out of words does not stop the timer. */
  lemma LastWordLeavesCountdown(g: State, r: Readings)
    requires Inv(g) && g.round.started && g.round.index + 1 >= g.round.count
    requires g.timer.running && Remaining(g.timer, r.timerTime) > 0
    requires Elapsed(r.nodTime, g.round.lastNodTime) > NOD_GAP_MS && IsNod(r.az)
    ensures var s := Tick(g, r);
      && GameOver in s.out && !s.state.round.started
      && s.state.timer == g.timer
  {
    var a := Housekeeping(g, r);
    var s5 := Countdown(a.state, r.timerTime);
    assert s5.state == a.state && s5.out == [];
    var s6 := CheckNod(s5.state, r.nodTime, r.az);
    assert GameOver in s6.out && !s6.state.round.started;
    CheckNodAdvancing(s5.state, r.nodTime, r.az);
    CheckShoutAdvancing(s6.state, r.micLevel);
  }

  /** So a round whose words run out before its time does announce "Game Over" twice:
      once for the last word and once more, with the final beep, when the countdown it
      left running reaches zero. */
  lemma GameOverTwice(g: State, r1: Readings, r2: Readings)
    requires Inv(g) && g.round.started && g.round.index + 1 >= g.round.count
    requires g.timer.running && Remaining(g.timer, r1.timerTime) > 0
    requires Elapsed(r1.nodTime, g.round.lastNodTime) > NOD_GAP_MS && IsNod(r1.az)
    requires Remaining(g.timer, r2.timerTime) <= 0
    ensures var s1 := Tick(g, r1); var s2 := Tick(s1.state, r2);
      && GameOver in s1.out && GameOver in s2.out
      && multiset(s2.acts)[Pause(FINAL_BEEP_MS)] == 1
  {
    LastWordLeavesCountdown(g, r1);
    var s1 := Tick(g, r1);
    var a := Housekeeping(s1.state, r2);
    assert a.state.timer == g.timer;
    assert GameOver in Countdown(a.state, r2.timerTime).out;
    TickWithinRules(s1.state, r2);
  }

  // ===========================================================================
  // Runs: passes of the loop interleaved with dashboard messages
  // ===========================================================================

  /** What happens to the controller: a pass of the main loop, or a dashboard message
      handled at time `at`, taken to run whole between two passes. */
  datatype Event = Pass(readings: Readings) | Inbound(msg: Message, at: Millis)

  predicate Acceptable(e: Event)
  {
    e.Inbound? ==> WellFormed(e.msg)
  }

  predicate AllAcceptable(evs: seq<Event>)
  {
    forall e :: e in evs ==> Acceptable(e)
  }

  function Apply(g: State, e: Event): (s: Step)
    requires Inv(g) && Acceptable(e)
    ensures Inv(s.state)
  {
    match e
    case Pass(r) => Tick(g, r)
    case Inbound(m, at) => HandleMessage(g, m, at)
  }

  /** The events in order, each seeing the state the previous ones left; broadcasts and
      actions are collected in order. */
  function Run(g: State, evs: seq<Event>): (s: Step)
    requires Inv(g) && AllAcceptable(evs)
    ensures Inv(s.state)
    decreases |evs|
  {
    if evs == [] then Step(g, [], [])
    else
      var a := Apply(g, evs[0]);
      var rest := Run(a.state, evs[1..]);
      Step(rest.state, a.out + rest.out, a.acts + rest.acts)
  }

  /** What one event does to the helmet latch, the word list and the countdown. */
  lemma ApplyFacts(g: State, e: Event)
    requires Inv(g) && Acceptable(e)
    ensures var a := Apply(g, e);
      && (g.helmetDetectedOnce ==> a.state.helmetDetectedOnce)
      && Live(a.state.round) == (if e.Inbound? then EditedList(Live(g.round), e.msg) else Live(g.round))
      && (!(e.Inbound? && e.msg.timer.Some?) ==>
            && (a.state.timer.running ==> g.timer.running)
            && multiset(a.acts)[Pause(FINAL_BEEP_MS)] == if g.timer.running && !a.state.timer.running then 1 else 0)
  {
    if e.Pass? {
      TickWithinRules(g, e.readings);
    }
  }

  /** Once the helmet has been detected it stays detected: nothing ever clears the latch. */
  lemma {:induction false} HelmetLatchHolds(g: State, evs: seq<Event>)
    requires Inv(g) && AllAcceptable(evs)
    requires g.helmetDetectedOnce
    ensures Run(g, evs).state.helmetDetectedOnce
    decreases |evs|
  {
    if evs != [] {
      var a := Apply(g, evs[0]);
      ApplyFacts(g, evs[0]);
      HelmetLatchHolds(a.state, evs[1..]);
    }
  }

  /** The word list that the `word` and `remove` fields of the messages among `evs` leave
      behind, starting from `live`. */
  function EditedAll(live: seq<string>, evs: seq<Event>): seq<string>
    decreases |evs|
  {
    if evs == [] then live
    else
      var next := if evs[0].Inbound? then EditedList(live, evs[0].msg) else live;
      EditedAll(next, evs[1..])
  }

  /** Only dashboard messages change the word list, and each changes it exactly as its
      `word` and `remove` fields say: the loop itself never adds, drops or reorders a
      word, whatever the game does. */
  lemma {:induction false} RunWordList(g: State, evs: seq<Event>)
    requires Inv(g) && AllAcceptable(evs)
    ensures Live(Run(g, evs).state.round) == EditedAll(Live(g.round), evs)
    decreases |evs|
  {
    if evs != [] {
      var a := Apply(g, evs[0]);
      ApplyFacts(g, evs[0]);
      RunWordList(a.state, evs[1..]);
    }
  }

  /** No message among the events re-arms the countdown. */
  predicate NoRearm(evs: seq<Event>)
  {
    forall e :: e in evs ==> !(e.Inbound? && e.msg.timer.Some?)
  }

  /** Between two arming messages the countdown, once stopped, stays stopped, and the
      one-second final beep sounds at most once: exactly once if the countdown was running
      at the start and has stopped by the end, however many passes follow the expiry. */
  lemma {:induction false} FinalBeepOnce(g: State, evs: seq<Event>)
    requires Inv(g) && AllAcceptable(evs) && NoRearm(evs)
    ensures var s := Run(g, evs);
      && (s.state.timer.running ==> g.timer.running)
      && multiset(s.acts)[Pause(FINAL_BEEP_MS)] == if g.timer.running && !s.state.timer.running then 1 else 0
    decreases |evs|
  {
    if evs != [] {
      var a := Apply(g, evs[0]);
      ApplyFacts(g, evs[0]);
      FinalBeepOnce(a.state, evs[1..]);
    }
  }
}
