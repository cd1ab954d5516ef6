/** The buzzer melodies: four fixed note tables looked up by name, and the rule by which
    the non-blocking player steps through a table. */
module Melodies {

  /** One buzzer note; frequency 0 is a rest (`noTone`). */
  datatype Note = Note(freq: nat, duration: nat)

  /** Silence the player keeps after each note's own duration before the next one. */
  const NOTE_GAP_MS: nat := 50

  const Nokia: seq<Note> :=
    [Note(1318, 200), Note(1174, 200), Note(1046, 200), Note(0, 100),
     Note(1046, 200), Note(988, 200), Note(880, 300), Note(0, 100)]
  const Wipwup: seq<Note> :=
    [Note(784, 200), Note(880, 200), Note(988, 200), Note(1046, 200),
     Note(0, 100), Note(1174, 200), Note(988, 300), Note(0, 100)]
  const Ateez: seq<Note> :=
    [Note(659, 200), Note(698, 200), Note(784, 200), Note(0, 100),
     Note(880, 200), Note(988, 200), Note(1046, 300), Note(0, 100)]
  const Baby: seq<Note> :=
    [Note(784, 150), Note(784, 150), Note(659, 150), Note(0, 100),
     Note(784, 150), Note(587, 200), Note(659, 300), Note(0, 100)]

  /** The names the dashboard may select a melody by. */
  predicate IsKnownMelody(name: string)
  {
    name == "nokia" || name == "wipwup" || name == "ateez" || name == "baby"
  }

  /** `getMelody`: the note table for a name, empty for any name it does not know. */
  function GetMelody(name: string): (notes: seq<Note>)
    ensures IsKnownMelody(name) <==> notes != []
    ensures IsKnownMelody(name) ==> |notes| == 8
    ensures forall i :: 0 <= i < |notes| ==> 100 <= notes[i].duration <= 300
    ensures notes != [] ==> notes[|notes| - 1] == Note(0, 100)
  {
    if name == "nokia" then Nokia
    else if name == "wipwup" then Wipwup
    else if name == "ateez" then Ateez
    else if name == "baby" then Baby
    else []
  }

  /** The note index after the current note has sounded: the next one, or back to the
      first after the last, so a melody loops for as long as the game runs. */
  function NextNoteIndex(index: nat, count: nat): (next: nat)
    requires index < count
    ensures next < count
    ensures next == 0 <==> index == count - 1
    ensures index < count - 1 ==> next == index + 1
  {
    (index + 1) % count
  }

  /** The note the player is on after `k` steps from note 0. */
  function NoteAfter(k: nat, count: nat): (index: nat)
    requires count > 0
    ensures index < count
  {
    if k == 0 then 0 else NextNoteIndex(NoteAfter(k - 1, count), count)
  }

  /** During the first pass the player plays the notes in table order. */
  lemma {:induction false} NoteAfterFirstPass(k: nat, count: nat)
    requires k < count
    ensures NoteAfter(k, count) == k
  {
    if k > 0 {
      NoteAfterFirstPass(k - 1, count);
    }
  }

  /** After a full pass the player is back on the first note and repeats itself: the
      melody loops with period `count`. */
  lemma {:induction false} NoteAfterPeriodic(k: nat, count: nat)
    requires count > 0
    ensures NoteAfter(count, count) == 0
    ensures NoteAfter(k + count, count) == NoteAfter(k, count)
  {
    NoteAfterFirstPass(count - 1, count);
    if k > 0 {
      NoteAfterPeriodic(k - 1, count);
      assert k + count - 1 == (k - 1) + count;
    }
  }
}
