/**
 * The journal teaser: an in-memory list of dated mood notes, seeded with one
 * sample entry, to which a non-blank note can be added in front.
 */
module JournalTeaser {
  import opened Text
  import opened Records

  const FirstNote := "Grateful for a quiet morning."
  /** The slightly smiling face of the sample entry. */
  const FirstMood := "\U{1F642}"
  /** The person in lotus position every added entry carries. */
  const AddedMood := "\U{1F9D8}"

  /** One journal card: `{ date, mood, note }`. */
  datatype JournalEntry = JournalEntry(date: string, mood: string, note: string)

  /** What `addEntry` puts in front: the calm mood and a note that is not blank. */
  predicate IsAdded(e: JournalEntry) {
    e.mood == AddedMood && !IsBlank(e.note)
  }

  class Journal {
    var entries: seq<JournalEntry>
    var note: string
    /** The sample entry of the first render. */
    ghost const first: JournalEntry

    /** The sample entry stays last, and everything in front of it was added by `addEntry`. */
    ghost predicate Valid()
      reads this
    {
      && entries != [] && entries[|entries| - 1] == first
      && forall i :: 0 <= i < |entries| - 1 ==> IsAdded(entries[i])
    }

    /** First render: the sample entry dated today, and an empty note. */
    constructor (now: string)
      ensures Valid()
      ensures entries == [JournalEntry(TodayIso(now), FirstMood, FirstNote)] && note == []
      ensures first == entries[0]
    {
      entries := [JournalEntry(TodayIso(now), FirstMood, FirstNote)];
      note := [];
      first := JournalEntry(TodayIso(now), FirstMood, FirstNote);
    }

    /** The note field's `onChange`. */
    method SetNote(text: string)
      requires Valid()
      modifies this
      ensures Valid()
      ensures note == text && entries == old(entries)
    {
      note := text;
    }

    /**
     * `addEntry`: a blank note changes nothing; otherwise the note, as typed
     * (untrimmed), goes in front with today's date and the calm mood, and the
     * field is cleared.
     */
    method AddEntry(now: string)
      requires Valid()
      modifies this
      ensures Valid()
      ensures IsBlank(old(note)) ==> entries == old(entries) && note == old(note)
      ensures !IsBlank(old(note)) ==>
        entries == [JournalEntry(TodayIso(now), AddedMood, old(note))] + old(entries) && note == []
    {
      // `!note.trim()`: trimming leaves nothing exactly when the note is blank.
      if IsBlank(note) {
        return;
      }
      var added := JournalEntry(TodayIso(now), AddedMood, note);
      var next := [added] + entries;
      forall i | 0 <= i < |next| - 1
        ensures IsAdded(next[i])
      {
        if i > 0 {
          assert next[i] == entries[i - 1];
        }
      }
      entries, note := next, [];
    }
  }
}
