/**
 * The daily activity log: a tag selection and a note that become a new entry
 * on Save, the stored list of entries, and the "Today" view of that list.
 */
module DailyActivities {
  import opened Wrappers
  import opened Text
  import opened Records
  import Storage

  const StorageKey := "mindmate_activities"

  /** The keys of the quick-tag buttons, in display order. */
  const QuickTags: seq<string> := ["exercise", "work", "study", "rest", "social"]

  predicate NoDuplicates(s: seq<string>) {
    forall i, j :: 0 <= i < j < |s| ==> s[i] != s[j]
  }

  // ---------------------------------------------------------------------------
  // Tag selection

  /** `s.filter(k => k !== key)`. */
  function Without(s: seq<string>, key: string): (r: seq<string>)
    ensures forall x :: x in r <==> x in s && x != key
    ensures NoDuplicates(s) ==> NoDuplicates(r)
  {
    if s == [] then []
    else
      var rest := Without(s[1..], key);
      assert NoDuplicates(s) ==> s[0] !in s[1..];
      (if s[0] == key then [] else [s[0]]) + rest
  }

  /**
   * The click handler of a quick-tag button:
   * `s.includes(key) ? s.filter(k => k !== key) : [...s, key]`.
   */
  function Toggled(s: seq<string>, key: string): (r: seq<string>)
    ensures key in r <==> key !in s
    ensures forall x :: x != key ==> (x in r <==> x in s)
    ensures key !in s ==> r == s + [key]
    ensures key in s ==> r == Without(s, key)
  {
    if key in s then Without(s, key) else s + [key]
  }

  /** A selection without repeated tags keeps that property through a toggle. */
  lemma ToggledKeepsDistinct(s: seq<string>, key: string)
    requires NoDuplicates(s)
    ensures NoDuplicates(Toggled(s, key))
  {
  }

  /** Toggling the same tag twice gives back the selection, up to the position of that tag. */
  lemma ToggleTwice(s: seq<string>, key: string)
    requires key !in s
    ensures Toggled(Toggled(s, key), key) == s
  {
    WithoutLast(s, key);
  }

  lemma {:induction false} WithoutLast(s: seq<string>, key: string)
    requires key !in s
    ensures Without(s + [key], key) == s
  {
    if s != [] {
      assert (s + [key])[1..] == s[1..] + [key];
      WithoutLast(s[1..], key);
    } else {
      assert [key][1..] == [];
    }
  }

  // ---------------------------------------------------------------------------
  // The "Today" view

  /** Ordered newest first (by `createdAt`, descending). */
  predicate NewestFirstOrder(s: seq<ActivityEntry>) {
    forall i, j :: 0 <= i < j < |s| ==> s[i].createdAt >= s[j].createdAt
  }

  /** The entries created at instant `t`, in their order. */
  function CreatedAt(s: seq<ActivityEntry>, t: int): seq<ActivityEntry> {
    if s == [] then []
    else (if s[0].createdAt == t then [s[0]] else []) + CreatedAt(s[1..], t)
  }

  /** Place `e` in front of the first entry that is not newer than it. */
  function Insert(e: ActivityEntry, sorted: seq<ActivityEntry>): seq<ActivityEntry> {
    if sorted == [] || sorted[0].createdAt <= e.createdAt then [e] + sorted
    else [sorted[0]] + Insert(e, sorted[1..])
  }

  /**
   * `sort((a, b) => new Date(b.createdAt) - new Date(a.createdAt))`: newest
   * first; `Array.prototype.sort` is stable, so entries created at the same
   * instant keep their order.
   */
  function NewestFirst(s: seq<ActivityEntry>): seq<ActivityEntry> {
    if s == [] then [] else Insert(s[0], NewestFirst(s[1..]))
  }

  /** `CreatedAt` unfolded once on a list built by prepending. */
  lemma CreatedAtCons(x: ActivityEntry, s: seq<ActivityEntry>, t: int)
    ensures CreatedAt([x] + s, t) == (if x.createdAt == t then [x] else []) + CreatedAt(s, t)
  {
    assert ([x] + s)[1..] == s;
  }

  /** Inserting adds exactly `e`. */
  lemma {:induction false} InsertAdds(e: ActivityEntry, sorted: seq<ActivityEntry>)
    ensures multiset(Insert(e, sorted)) == multiset(sorted) + multiset{e}
  {
    if sorted != [] && sorted[0].createdAt > e.createdAt {
      assert sorted == [sorted[0]] + sorted[1..];
      InsertAdds(e, sorted[1..]);
    }
  }

  /** A newest-first list stays so under an entry no older than all of it. */
  lemma ConsOrder(head: ActivityEntry, tail: seq<ActivityEntry>)
    requires NewestFirstOrder(tail)
    requires forall k :: 0 <= k < |tail| ==> head.createdAt >= tail[k].createdAt
    ensures NewestFirstOrder([head] + tail)
  {
    var s := [head] + tail;
    forall i, j | 0 <= i < j < |s|
      ensures s[i].createdAt >= s[j].createdAt
    {
      assert s[j] == tail[j - 1];
      if i > 0 {
        assert s[i] == tail[i - 1];
      }
    }
  }

  /** Inserting into a newest-first list keeps it newest first. */
  lemma {:induction false} InsertOrder(e: ActivityEntry, sorted: seq<ActivityEntry>)
    requires NewestFirstOrder(sorted)
    ensures NewestFirstOrder(Insert(e, sorted))
  {
    if sorted != [] && sorted[0].createdAt > e.createdAt {
      var head, rest := sorted[0], sorted[1..];
      InsertOrder(e, rest);
      InsertAdds(e, rest);
      var tail := Insert(e, rest);
      forall k | 0 <= k < |tail|
        ensures head.createdAt >= tail[k].createdAt
      {
        assert tail[k] in multiset(rest) + multiset{e};
        if tail[k] != e {
          assert tail[k] in rest;
        }
      }
      ConsOrder(head, tail);
    } else {
      ConsOrder(e, sorted);
    }
  }

  /** Inserting `e` puts it in front of every entry created at the same instant. */
  lemma {:induction false} InsertStable(e: ActivityEntry, sorted: seq<ActivityEntry>, t: int)
    ensures CreatedAt(Insert(e, sorted), t) == (if e.createdAt == t then [e] else []) + CreatedAt(sorted, t)
  {
    if sorted != [] && sorted[0].createdAt > e.createdAt {
      var head, rest := sorted[0], sorted[1..];
      assert sorted == [head] + rest;
      InsertStable(e, rest, t);
      CreatedAtCons(head, Insert(e, rest), t);
      CreatedAtCons(head, rest, t);
    } else {
      CreatedAtCons(e, sorted, t);
    }
  }

  /**
   * The sort is newest first, keeps exactly the entries it was given, and is
   * stable: for every instant, the entries created then appear in input order.
   */
  lemma {:induction false} NewestFirstSpec(s: seq<ActivityEntry>)
    ensures NewestFirstOrder(NewestFirst(s))
    ensures multiset(NewestFirst(s)) == multiset(s)
    ensures forall t :: CreatedAt(NewestFirst(s), t) == CreatedAt(s, t)
  {
    if s != [] {
      NewestFirstSpec(s[1..]);
      InsertOrder(s[0], NewestFirst(s[1..]));
      InsertAdds(s[0], NewestFirst(s[1..]));
      forall t
        ensures CreatedAt(NewestFirst(s), t) == CreatedAt(s, t)
      {
        InsertStable(s[0], NewestFirst(s[1..]), t);
      }
      assert s == [s[0]] + s[1..];
    }
  }

  /** `todayEntries`: the entries dated `day`, newest first. */
  function TodayEntries(entries: seq<ActivityEntry>, day: string): seq<ActivityEntry> {
    NewestFirst(EntriesOn(entries, day))
  }

  /**
   * The "Today" view holds exactly the entries dated `day`, each as often as it
   * is stored, newest first, with ties in stored order.
   */
  lemma TodayEntriesSpec(entries: seq<ActivityEntry>, day: string)
    ensures forall e :: e in TodayEntries(entries, day) <==> e in entries && e.date == day
    ensures multiset(TodayEntries(entries, day)) == multiset(EntriesOn(entries, day))
    ensures NewestFirstOrder(TodayEntries(entries, day))
    ensures forall t :: CreatedAt(TodayEntries(entries, day), t) == CreatedAt(EntriesOn(entries, day), t)
  {
    var list := EntriesOn(entries, day);
    EntriesOnMembers(entries, day);
    NewestFirstSpec(list);
    assert forall e :: e in TodayEntries(entries, day) <==> e in multiset(list);
  }

  // ---------------------------------------------------------------------------
  // The component's state

  class ActivityLog {
    var tags: seq<string>
    var note: string
    var entries: seq<ActivityEntry>
    /** How many `mindmate-activities-updated` events have been dispatched. */
    var updates: nat
    const store: Storage.Store<ActivityEntry>

    /** The selection only ever holds quick-tag keys, each at most once. */
    ghost predicate Valid()
      reads this
    {
      NoDuplicates(tags) && forall t :: t in tags ==> t in QuickTags
    }

    constructor (store: Storage.Store<ActivityEntry>)
      requires store.key == StorageKey
      ensures Valid() && this.store == store
      ensures tags == [] && note == [] && entries == [] && updates == 0
    {
      this.store := store;
      tags, note, entries, updates := [], [], [], 0;
    }

    /** The mount effect: a stored array replaces the empty list; a failed read keeps it. */
    method Mount(readable: bool)
      requires Valid()
      modifies this
      ensures Valid()
      ensures entries == store.Load(readable).GetOr(old(entries))
      ensures tags == old(tags) && note == old(note) && updates == old(updates)
    {
      entries := store.Load(readable).GetOr(entries);
    }

    /** A quick-tag button's click. */
    method ToggleTag(key: string)
      requires Valid() && key in QuickTags
      modifies this
      ensures Valid()
      ensures tags == Toggled(old(tags), key)
      ensures note == old(note) && entries == old(entries) && updates == old(updates)
    {
      tags := Toggled(tags, key);
    }

    /** The note field's `onChange`. */
    method SetNote(text: string)
      requires Valid()
      modifies this
      ensures Valid()
      ensures note == text && tags == old(tags) && entries == old(entries) && updates == old(updates)
    {
      note := text;
    }

    /** The Clear button. */
    method ClearForm()
      requires Valid()
      modifies this
      ensures Valid()
      ensures tags == [] && note == [] && entries == old(entries) && updates == old(updates)
    {
      tags, note := [], [];
    }

    /** `save`: new list in state, written to storage when it can be, and an update event. */
    method Save(next: seq<ActivityEntry>, writable: bool)
      requires Valid()
      modifies this, store
      ensures Valid()
      ensures entries == next && updates == old(updates) + 1
      ensures tags == old(tags) && note == old(note)
      ensures store.slot == if writable then Storage.Holds(next) else old(store.slot)
    {
      entries := next;
      store.Save(next, writable);
      updates := updates + 1;
    }

    /**
     * `addEntry`: nothing happens when no tag is selected and the note is
     * blank; otherwise a new entry with the selection, the trimmed note and
     * the current day goes in front of the list, and the form is cleared.
     */
    method AddEntry(now: string, id: string, createdAt: int, writable: bool)
      requires Valid()
      modifies this, store
      ensures Valid()
      ensures old(tags) == [] && IsBlank(old(note)) ==>
        && tags == old(tags) && note == old(note) && entries == old(entries)
        && updates == old(updates) && store.slot == old(store.slot)
      ensures !(old(tags) == [] && IsBlank(old(note))) ==>
        && entries == [ActivityEntry(id, TodayIso(now), old(tags), Trim(old(note)), createdAt)] + old(entries)
        && tags == [] && note == [] && updates == old(updates) + 1
        && store.slot == (if writable then Storage.Holds(entries) else old(store.slot))
    {
      if tags == [] && Trim(note) == [] {
        return;
      }
      var entry := ActivityEntry(id, TodayIso(now), tags, Trim(note), createdAt);
      Save([entry] + entries, writable);
      tags, note := [], [];
    }

    /** The entries the "Today" list shows at instant `now`. */
    function Today(now: string): (r: seq<ActivityEntry>)
      reads this
      ensures forall e :: e in r <==> e in entries && e.date == TodayIso(now)
      ensures NewestFirstOrder(r)
    {
      TodayEntriesSpec(entries, TodayIso(now));
      TodayEntries(entries, TodayIso(now))
    }
  }
}
