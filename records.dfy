/**
 * The records the components keep in state and in local storage, and the
 * calendar day they stamp on new records.
 */
module Records {

  /** Who wrote a chat message. */
  datatype Role = User | Assistant

  /** One line of a chat transcript: `{ role, content }`. */
  datatype Message = Message(role: Role, content: string)

  /**
   * One logged activity. `createdAt` is the creation instant as a number
   * (what `new Date(createdAt)` yields when the entries are ordered).
   */
  datatype ActivityEntry = ActivityEntry(id: string, date: string, tags: seq<string>, note: string, createdAt: int)

  /**
   * `todayISO`: the calendar day of an instant, read off its ISO 8601 text
   * (`toISOString().slice(0, 10)`); `now` is that text.
   */
  function TodayIso(now: string): (day: string)
    ensures |day| == if |now| < 10 then |now| else 10
    ensures day == now[..|day|]
  {
    if |now| < 10 then now else now[..10]
  }

  /** `entries.filter(e => e.date === day)`: the entries of one day, in their stored order. */
  function EntriesOn(entries: seq<ActivityEntry>, day: string): (r: seq<ActivityEntry>)
    ensures |r| <= |entries|
    ensures forall i :: 0 <= i < |r| ==> r[i].date == day
  {
    if entries == [] then []
    else (if entries[0].date == day then [entries[0]] else []) + EntriesOn(entries[1..], day)
  }

  /** The filter keeps exactly the entries dated `day`: none is dropped, none is made up. */
  lemma {:induction false} EntriesOnMembers(entries: seq<ActivityEntry>, day: string)
    ensures forall e :: e in EntriesOn(entries, day) <==> e in entries && e.date == day
  {
    if entries != [] {
      EntriesOnMembers(entries[1..], day);
      assert entries == [entries[0]] + entries[1..];
    }
  }

  /** Filtering a concatenation filters each half. */
  lemma {:induction false} EntriesOnConcat(a: seq<ActivityEntry>, b: seq<ActivityEntry>, day: string)
    ensures EntriesOn(a + b, day) == EntriesOn(a, day) + EntriesOn(b, day)
  {
    if a == [] {
      assert a + b == b;
    } else {
      assert (a + b)[1..] == a[1..] + b;
      EntriesOnConcat(a[1..], b, day);
    }
  }
}
