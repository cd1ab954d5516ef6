/** The controller as the sketch keeps it: one object whose fields are the sketch's
    globals, updated in place by the dashboard handler and by the main loop. The globals
    of the round are fields of their own and the ten word slots a fixed array; the
    countdown's, the melody player's and the LED strip's globals are each held in one
    record-valued field, grouped as the sketch groups them. Every method is proved to
    leave the object in exactly the state, and to send exactly the broadcasts and
    hardware actions, that the matching function of module Game computes from the old
    state, so everything proved there about the functions holds of the object. */
module Device {
  import opened Colors
  import opened Melodies
  import opened LedEffects
  import opened WordLists
  import opened Game

  /** The colours of a `colors` message, decoded one string after the other into a new
      palette. */
  method DecodePalette(hexes: seq<string>) returns (colors: seq<Rgb>)
    requires forall i :: 0 <= i < |hexes| ==> IsHexColor(hexes[i])
    ensures |colors| == |hexes|
    ensures forall i :: 0 <= i < |hexes| ==> colors[i] == DecodeHex(hexes[i])
    ensures colors == DecodeAll(hexes)
  {
    colors := [];
    var i := 0;
    while i < |hexes|
      invariant 0 <= i <= |hexes|
      invariant |colors| == i
      invariant forall k :: 0 <= k < i ==> colors[k] == DecodeHex(hexes[k])
    {
      colors := colors + [DecodeHex(hexes[i])];
      i := i + 1;
    }
  }

  class Controller {
    /** `timerDuration`, `startTime`, `timerRunning`, `buzzerTriggered`. */
    var timer: Timer
    var helmetDetectedOnce: bool

    var gameStarted: bool
    const wordList: array<string>
    var wordCount: int
    var currentWordIndex: int
    var lastNodTime: Millis

    /** `selectedMelody`, `melodyNotes`, `melodyIndex`, `lastNoteTime`. */
    var player: Player

    /** `currentColors`, `currentEffect`, `ledNeedsUpdate`, `ledManualControl`, the
        animation variables, the loop's `effectIndex` and the encoder's `lastPosition`. */
    var strip: Strip

    /** The globals as a value of module Game. */
    ghost function Snap(): State
      reads this, wordList
    {
      State(timer, helmetDetectedOnce,
            Round(gameStarted, wordList[..], wordCount, currentWordIndex, lastNodTime),
            player, strip)
    }

    ghost predicate Valid()
      reads this, wordList
    {
      wordList.Length == MAX_WORDS && Inv(Snap())
    }

    /** The globals' initial values. */
    constructor()
      ensures Valid() && fresh(wordList)
      ensures Snap() == Boot()
    {
      timer := Timer(0, 0, false, false);
      helmetDetectedOnce := false;
      gameStarted := false;
      wordList := new string[MAX_WORDS](_ => "");
      wordCount, currentWordIndex, lastNodTime := 0, -1, 0;
      player := Player("none", [], 0, 0);
      strip := Strip([], "solid", false, false, 0, false, BounceStart, BounceStart, 0, 0);
      new;
      assert wordList[..] == seq(MAX_WORDS, _ => "");
    }

    // -------------------------------------------------------------------------
    // The dashboard handler
    // -------------------------------------------------------------------------

    method SetTimer(seconds: int, now: Millis) returns (acts: seq<Action>)
      requires Valid()
      modifies this`timer
      ensures Valid()
      ensures Game.SetTimer(old(Snap()), seconds, now) == Step(Snap(), [], acts)
    {
      timer := timer.(duration := seconds);
      acts := [Display(seconds)];
      timer := timer.(startTime := now, running := true, buzzerTriggered := false);
    }

    method AddWord(w: string)
      requires Valid()
      modifies wordList, this`wordCount
      ensures Valid()
      ensures Snap() == old(Snap()).(round := Game.AddWord(old(Snap()).round, w))
    {
      ghost var g := Snap();
      if wordCount < MAX_WORDS {
        wordList[wordCount] := w;
        wordCount := wordCount + 1;
        assert wordList[..] == g.round.words[g.round.count := w];
      }
    }

    /** Close the gap at slot `i`: every live word after it moves one slot down. */
    method ShiftDown(i: int)
      requires wordList.Length == MAX_WORDS && 0 <= i < wordCount <= MAX_WORDS
      modifies wordList
      ensures wordList[..] == ShiftOut(old(wordList[..]), i, wordCount)
    {
      ghost var a := wordList[..];
      var j := i;
      while j < wordCount - 1
        invariant i <= j <= wordCount - 1
        invariant forall k :: 0 <= k < i ==> wordList[k] == a[k]
        invariant forall k :: i <= k < j ==> wordList[k] == a[k + 1]
        invariant forall k :: j <= k < MAX_WORDS ==> wordList[k] == a[k]
      {
        wordList[j] := wordList[j + 1];
        j := j + 1;
      }
      assert wordList[..] == ShiftOut(a, i, wordCount);
    }

    /** The first live slot holding `w`, or `wordCount` when none does. */
    method FindWord(w: string) returns (i: int)
      requires wordList.Length == MAX_WORDS && 0 <= wordCount <= MAX_WORDS
      ensures i == FirstIndex(wordList[..wordCount], w)
    {
      i := 0;
      while i < wordCount
        invariant 0 <= i <= wordCount
        invariant forall k :: 0 <= k < i ==> wordList[k] != w
      {
        if wordList[i] == w {
          return;
        }
        i := i + 1;
      }
    }

    /** Find the first slot holding `w`; if there is one, close the gap and drop the
        count. */
    method RemoveWord(w: string)
      requires Valid()
      modifies wordList, this`wordCount
      ensures Valid()
      ensures Snap() == old(Snap()).(round := Game.RemoveWord(old(Snap()).round, w))
    {
      var i := FindWord(w);
      if i < wordCount {
        ShiftDown(i);
        wordCount := wordCount - 1;
      }
    }

    method SelectMelody(name: string)
      requires Valid()
      modifies this`player
      ensures Valid()
      ensures Snap() == old(Snap()).(player := Game.SelectMelody(old(Snap()).player, name))
    {
      player := player.(selected := name);
      player := player.(notes := GetMelody(name));
      player := player.(index := 0);
    }

    method Start() returns (out: seq<Broadcast>, acts: seq<Action>)
      requires Valid()
      modifies this`gameStarted, this`currentWordIndex
      ensures Valid()
      ensures Game.Start(old(Snap())) == Step(Snap(), out, acts)
    {
      out, acts := [], [];
      if wordCount > 0 {
        gameStarted := true;
        currentWordIndex := 0;
        out := [Word(wordList[currentWordIndex])];
        acts := [ShowHue(WordHue(currentWordIndex))];
      }
    }

    method SetLeds(palette: seq<Rgb>, effect: string)
      requires Valid() && |palette| > 0
      modifies this`strip
      ensures Valid()
      ensures Snap() == old(Snap()).(strip := Game.SetLeds(old(Snap()).strip, palette, effect))
    {
      strip := strip.(colors := palette);
      strip := strip.(effect := effect);
      strip := strip.(needsUpdate := true);
      strip := strip.(manual := true);
    }

    /** The `word`, `remove` and `melody` fields of a message, in that order. */
    method EditStage(m: Message)
      requires Valid()
      modifies wordList, this`wordCount, this`player
      ensures Valid()
      ensures Snap() == Game.EditStage(old(Snap()), m)
    {
      if m.word.Some? {
        AddWord(m.word.value);
      }
      if m.remove.Some? {
        RemoveWord(m.remove.value);
      }
      if m.melody.Some? {
        SelectMelody(m.melody.value);
      }
    }

    /** One dashboard message, its fields handled in the handler's order. */
    method HandleMessage(m: Message, now: Millis) returns (out: seq<Broadcast>, acts: seq<Action>)
      requires Valid() && WellFormed(m)
      modifies wordList, this`timer, this`wordCount, this`player, this`gameStarted, this`currentWordIndex, this`strip
      ensures Valid()
      ensures Game.HandleMessage(old(Snap()), m, now) == Step(Snap(), out, acts)
    {
      ghost var g := Snap();
      var timerActs: seq<Action> := [];
      if m.timer.Some? {
        timerActs := SetTimer(m.timer.value, now);
      }
      assert TimerStage(g, m, now) == Step(Snap(), [], timerActs);
      EditStage(m);
      ghost var e := Snap();
      var startActs: seq<Action> := [];
      out := [];
      if m.start {
        out, startActs := Start();
      }
      assert StartStage(e, m) == Step(Snap(), out, startActs);
      if m.colors.Some? && m.effect.Some? {
        var palette := DecodePalette(m.colors.value);
        SetLeds(palette, m.effect.value);
      }
      acts := timerActs + startActs;
    }

    // -------------------------------------------------------------------------
    // One pass of the main loop
    // -------------------------------------------------------------------------

    method PlayMelody(now: Millis) returns (acts: seq<Action>)
      requires Valid()
      modifies this`player
      ensures Valid()
      ensures Game.PlayMelody(old(Snap()), now) == Step(Snap(), [], acts)
    {
      acts := [];
      if !gameStarted || player.selected == "none" || player.notes == [] {
        return;
      }
      var note := player.notes[player.index];
      if Elapsed(now, player.lastNoteTime) > note.duration + NOTE_GAP_MS {
        acts := [NoteSound(note)];
        player := player.(lastNoteTime := now);
        player := player.(index := NextNoteIndex(player.index, |player.notes|));
      }
    }

    method TurnEncoder(newPosition: int) returns (out: seq<Broadcast>)
      requires Valid()
      modifies this`strip
      ensures Valid()
      ensures Game.TurnEncoder(old(Snap()), newPosition) == Step(Snap(), out, [])
    {
      out := [];
      if newPosition != strip.lastPosition {
        if strip.manual && !gameStarted {
          var e := CycleEffect(strip.effectIndex, newPosition > strip.lastPosition);
          strip := strip.(effectIndex := e, effect := EffectNames[e], needsUpdate := true);
          out := [Log(TURN_LOG + strip.effect)];
        }
        strip := strip.(lastPosition := newPosition);
      }
    }

    /** One repaint decision of the manual effects; only the strip's globals change. */
    method Paint(now: Millis) returns (acts: seq<Action>)
      requires StripInv(strip) && strip.manual
      modifies this`strip
      ensures Game.Paint(old(strip), now) == (strip, acts)
    {
      acts := [];
      if strip.effect == "solid" && strip.needsUpdate {
        acts := [SetBrightness(255), Show(Pixels(strip.colors))];
        strip := strip.(needsUpdate := false);
      } else if strip.effect == "blink" && Elapsed(now, strip.lastUpdate) > BLINK_MS {
        strip := strip.(blinkOn := !strip.blinkOn);
        acts := [Show(if strip.blinkOn then Pixels(strip.colors) else Uniform(Off))];
        strip := strip.(lastUpdate := now);
      } else if strip.effect == "fade" && Elapsed(now, strip.lastUpdate) > FADE_MS {
        var level := strip.fade.0 + strip.fade.1;
        var delta := if level >= MAX_BRIGHTNESS || level <= 0 then -strip.fade.1 else strip.fade.1;
        strip := strip.(fade := (level, delta));
        acts := [SetBrightness(level), Show(Pixels(strip.colors))];
        strip := strip.(lastUpdate := now);
      } else if strip.effect == "breathing" && Elapsed(now, strip.lastUpdate) > BREATHE_MS {
        var level := strip.breathe.0 + strip.breathe.1;
        var delta := if level >= MAX_BRIGHTNESS || level <= 0 then -strip.breathe.1 else strip.breathe.1;
        strip := strip.(breathe := (level, delta));
        acts := [SetBrightness(level), Show(Pixels(strip.colors))];
        strip := strip.(lastUpdate := now);
      }
    }

    method RenderEffect(now: Millis) returns (acts: seq<Action>)
      requires Valid()
      modifies this`strip
      ensures Valid()
      ensures Game.RenderEffect(old(Snap()), now) == Step(Snap(), [], acts)
    {
      acts := [];
      if strip.manual && !gameStarted {
        PaintKeepsInv(strip, now);
        acts := Paint(now);
      }
    }

    method CheckHelmet(distance: int) returns (out: seq<Broadcast>, acts: seq<Action>)
      requires Valid()
      modifies this`helmetDetectedOnce
      ensures Valid()
      ensures Game.CheckHelmet(old(Snap()), distance) == Step(Snap(), out, acts)
    {
      out, acts := [], [];
      if 0 < distance <= HELMET_MAX_CM && !helmetDetectedOnce {
        helmetDetectedOnce := true;
        out := [Log(HELMET_LOG)];
        var i := 0;
        while i < 2
          invariant 0 <= i <= 2
          invariant acts == HelmetFlash[..4 * i]
        {
          acts := acts + [Fill(Green), Pause(200), Fill(Off), Pause(200)];
          i := i + 1;
        }
      }
    }

    /** The countdown reaching zero. */
    method Expire() returns (out: seq<Broadcast>, acts: seq<Action>)
      requires Valid()
      modifies this`timer, this`gameStarted, this`player
      ensures Valid()
      ensures Game.Expire(old(Snap())) == Step(Snap(), out, acts)
    {
      var beep := if timer.buzzerTriggered then [] else FinalBeep;
      timer := timer.(running := false, buzzerTriggered := true);
      gameStarted := false;
      player := player.(notes := [], index := 0);
      out := [GameOver];
      acts := [NoTone, Display(0), Fill(Red)] + beep;
    }

    method Countdown(now: Millis) returns (out: seq<Broadcast>, acts: seq<Action>)
      requires Valid()
      modifies this`timer, this`gameStarted, this`player
      ensures Valid()
      ensures Game.Countdown(old(Snap()), now) == Step(Snap(), out, acts)
    {
      ghost var g := Snap();
      out, acts := [], [];
      if !timer.running {
        return;
      }
      var remaining := Remaining(timer, now);
      if remaining > 0 {
        acts := [Display(remaining)] + (if remaining <= ALERT_SECONDS && !timer.buzzerTriggered then AlertBeep(remaining) else []);
      } else {
        assert Game.Countdown(g, now) == Game.Expire(g);
        out, acts := Expire();
      }
    }

    /** The word advance shared by the nod and the shout. */
    method AdvanceWord() returns (out: seq<Broadcast>, acts: seq<Action>)
      requires Valid()
      modifies this`currentWordIndex, this`gameStarted, this`player
      ensures Valid()
      ensures Game.AdvanceWord(old(Snap())) == Step(Snap(), out, acts)
    {
      currentWordIndex := currentWordIndex + 1;
      if currentWordIndex >= wordCount {
        currentWordIndex, gameStarted := 0, false;
        player := player.(notes := [], index := 0);
        out, acts := [GameOver], [NoTone];
      } else {
        out := [Word(wordList[currentWordIndex])];
        acts := [ShowHue(WordHue(currentWordIndex))];
      }
    }

    method CheckNod(now: Millis, az: int) returns (out: seq<Broadcast>, acts: seq<Action>)
      requires Valid()
      modifies this`currentWordIndex, this`gameStarted, this`player, this`lastNodTime
      ensures Valid()
      ensures Game.CheckNod(old(Snap()), now, az) == Step(Snap(), out, acts)
    {
      out, acts := [], [];
      if gameStarted && Elapsed(now, lastNodTime) > NOD_GAP_MS && IsNod(az) {
        var o, a := AdvanceWord();
        out, acts := [Log(NOD_LOG)] + o, a;
        lastNodTime := now;
      }
    }

    method CheckShout(micLevel: int) returns (out: seq<Broadcast>, acts: seq<Action>)
      requires Valid()
      modifies this`currentWordIndex, this`gameStarted, this`player
      ensures Valid()
      ensures Game.CheckShout(old(Snap()), micLevel) == Step(Snap(), out, acts)
    {
      out, acts := [], [];
      if gameStarted && micLevel > SHOUT_THRESHOLD && wordCount > 0 && helmetDetectedOnce && timer.running {
        out, acts := AdvanceWord();
        acts := acts + [Pause(SHOUT_PAUSE_MS)];
      }
    }

    /** One pass of `loop()`. */
    method Tick(r: Readings) returns (out: seq<Broadcast>, acts: seq<Action>)
      requires Valid()
      modifies this`player, this`strip, this`helmetDetectedOnce, this`timer, this`gameStarted, this`currentWordIndex, this`lastNodTime
      ensures Valid()
      ensures Game.Tick(old(Snap()), r) == Step(Snap(), out, acts)
    {
      ghost var g := Snap();
      var a1 := PlayMelody(r.melodyTime);
      var o2 := TurnEncoder(r.position);
      var a3 := RenderEffect(r.ledTime);
      var o4, a4 := CheckHelmet(r.distance);
      ghost var h := Snap();
      assert Housekeeping(g, r) == Step(h, [] + o2 + [] + o4, a1 + [] + a3 + a4);
      var o5, a5 := Countdown(r.timerTime);
      ghost var c := Snap();
      var o6, a6 := CheckNod(r.nodTime, r.az);
      var o7, a7 := CheckShout(r.micLevel);
      assert Judge(c, r) == Step(Snap(), o6 + o7, a6 + a7);
      assert Referee(h, r) == Step(Snap(), o5 + (o6 + o7), a5 + (a6 + a7));
      out := ([] + o2 + [] + o4) + (o5 + (o6 + o7));
      acts := (a1 + [] + a3 + a4) + (a5 + (a6 + a7));
    }
  }
}
