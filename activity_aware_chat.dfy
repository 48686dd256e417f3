/**
 * The activity-aware chat panel: today's activity summary, the choice of
 * reply for a message (summary, details, or a web instant answer), and the
 * transcript it keeps in state and in local storage.
 */
module ActivityAwareChat {
  import opened Wrappers
  import opened Text
  import opened Records
  import Storage

  const ChatKey := "mindmate_chat"
  const ActivityKey := "mindmate_activities"

  const NoActivitiesYet := "No activities logged yet today."
  const NoConciseAnswer := "I couldn't find a concise answer right now. Try rephrasing or ask for a summary. \U{1F50E}"

  // ---------------------------------------------------------------------------
  // Today's summary

  /** `list.flatMap(a => a.tags)`. */
  function AllTags(list: seq<ActivityEntry>): (r: seq<string>)
    ensures r == [] <==> forall i :: 0 <= i < |list| ==> list[i].tags == []
  {
    if list == [] then [] else list[0].tags + AllTags(list[1..])
  }

  /** One tag and how many times it was seen: an own property of the reduce's accumulator. */
  datatype TagCount = TagCount(tag: string, count: nat)

  /** The tally has a counter for `t`. */
  predicate HasTag(tally: seq<TagCount>, t: string) {
    exists i :: 0 <= i < |tally| && tally[i].tag == t
  }

  /** No tag has two counters. */
  predicate DistinctTags(tally: seq<TagCount>) {
    forall i, j :: 0 <= i < j < |tally| ==> tally[i].tag != tally[j].tag
  }

  /**
   * One step of the reduce, `acc[t] = (acc[t] || 0) + 1`: the counter of `t`
   * goes up by one, and a tag seen for the first time becomes the last property.
   */
  function Bump(tally: seq<TagCount>, t: string): seq<TagCount> {
    if tally == [] then [TagCount(t, 1)]
    else if tally[0].tag == t then [TagCount(t, tally[0].count + 1)] + tally[1..]
    else [tally[0]] + Bump(tally[1..], t)
  }

  /**
   * One step of the reduce keeps every existing counter in place, adds one to
   * the counter of `t`, and appends a counter of 1 when `t` is new.
   */
  lemma {:induction false} BumpSpec(tally: seq<TagCount>, t: string)
    requires DistinctTags(tally)
    ensures |Bump(tally, t)| == |tally| + (if HasTag(tally, t) then 0 else 1)
    ensures forall i :: 0 <= i < |tally| ==> Bump(tally, t)[i].tag == tally[i].tag
    ensures forall i :: 0 <= i < |tally| ==>
      Bump(tally, t)[i].count == tally[i].count + (if tally[i].tag == t then 1 else 0)
    ensures !HasTag(tally, t) ==> Bump(tally, t)[|tally|] == TagCount(t, 1)
  {
    if tally != [] && tally[0].tag != t {
      var rest := tally[1..];
      BumpSpec(rest, t);
      assert HasTag(tally, t) <==> HasTag(rest, t) by {
        if HasTag(rest, t) {
          var i :| 0 <= i < |rest| && rest[i].tag == t;
          assert tally[i + 1].tag == t;
        }
      }
      var b := Bump(tally, t);
      assert forall i :: 1 <= i < |b| ==> b[i] == Bump(rest, t)[i - 1];
    }
  }

  /**
   * `tags.reduce((acc, t) => (acc[t] = (acc[t] || 0) + 1, acc), {})`, read back
   * as its `Object.entries`: a left fold of `Bump` from the empty tally.
   */
  function Tally(tags: seq<string>): seq<TagCount> {
    if tags == [] then [] else Bump(Tally(tags[..|tags| - 1]), tags[|tags| - 1])
  }

  /** Index of the first occurrence of `x` in `s`. */
  function FirstIndex(s: seq<string>, x: string): (k: nat)
    requires x in s
    ensures k < |s| && s[k] == x
    ensures forall j :: 0 <= j < k ==> s[j] != x
  {
    FirstIndexFrom(s, x, 0)
  }

  /** Index of the first occurrence of `x` in `s` at or after `i`. */
  function FirstIndexFrom(s: seq<string>, x: string, i: nat): (k: nat)
    requires i <= |s| && exists j :: i <= j < |s| && s[j] == x
    ensures i <= k < |s| && s[k] == x
    ensures forall j :: i <= j < k ==> s[j] != x
    decreases |s| - i
  {
    if s[i] == x then i else FirstIndexFrom(s, x, i + 1)
  }

  /** Some tag means some counter. */
  lemma TallyNonEmpty(tags: seq<string>)
    requires tags != []
    ensures Tally(tags) != []
  {
  }

  /** One step of the fold, in terms of the tally before it. */
  lemma TallyStep(tags: seq<string>)
    requires tags != []
    ensures Tally(tags) == Bump(Tally(tags[..|tags| - 1]), tags[|tags| - 1])
  {
  }

  /**
   * The tally has one counter per distinct tag of `tags`, and each counter is
   * the number of times its tag occurs.
   */
  lemma {:induction false} TallyCounts(tags: seq<string>)
    ensures DistinctTags(Tally(tags))
    ensures forall i :: 0 <= i < |Tally(tags)| ==>
      Tally(tags)[i].tag in tags && Tally(tags)[i].count == multiset(tags)[Tally(tags)[i].tag]
    ensures forall t :: t in tags ==> HasTag(Tally(tags), t)
  {
    if tags != [] {
      var init, t := tags[..|tags| - 1], tags[|tags| - 1];
      TallyCounts(init);
      TallyStep(tags);
      BumpSpec(Tally(init), t);
      BumpStep(init, t, tags, Tally(init), Tally(tags));
    }
  }

  /**
   * The induction step of `TallyCounts`: what one step of the reduce does,
   * applied to a tally that already counts `init`.
   */
  lemma BumpStep(init: seq<string>, t: string, tags: seq<string>, before: seq<TagCount>, after: seq<TagCount>)
    requires tags == init + [t]
    requires DistinctTags(before)
    requires forall i :: 0 <= i < |before| ==>
      before[i].tag in init && before[i].count == multiset(init)[before[i].tag]
    requires forall u :: u in init ==> HasTag(before, u)
    requires |after| == |before| + (if HasTag(before, t) then 0 else 1)
    requires forall i :: 0 <= i < |before| ==> after[i].tag == before[i].tag
    requires forall i :: 0 <= i < |before| ==>
      after[i].count == before[i].count + (if before[i].tag == t then 1 else 0)
    requires !HasTag(before, t) ==> after[|before|] == TagCount(t, 1)
    ensures DistinctTags(after)
    ensures forall i :: 0 <= i < |after| ==>
      after[i].tag in tags && after[i].count == multiset(tags)[after[i].tag]
    ensures forall u :: u in tags ==> HasTag(after, u)
  {
    forall u | u in tags
      ensures HasTag(after, u)
    {
      if HasTag(before, u) {
        var i :| 0 <= i < |before| && before[i].tag == u;
        assert after[i].tag == u;
      } else {
        assert u == t;
        assert after[|before|].tag == u;
      }
    }
    forall i | 0 <= i < |after|
      ensures after[i].tag in tags && after[i].count == multiset(tags)[after[i].tag]
    {
    }
    forall i, j | 0 <= i < j < |after|
      ensures after[i].tag != after[j].tag
    {
      if j == |before| {
        assert after[i].tag == before[i].tag;
      }
    }
  }

  /** The counters are exactly the distinct tags of `tags`. */
  predicate Covers(tags: seq<string>, tally: seq<TagCount>) {
    && DistinctTags(tally)
    && (forall i :: 0 <= i < |tally| ==> tally[i].tag in tags)
    && (forall u :: u in tags ==> HasTag(tally, u))
  }

  /**
   * The part of `TallyCounts` that `TallyFirstSeenOrder` needs, as one
   * predicate, so that the ordering proof does not carry the counts.
   */
  lemma TallyCovers(tags: seq<string>)
    ensures Covers(tags, Tally(tags))
  {
    TallyCounts(tags);
  }

  /** Every counter's tag occurs in `tags`, and the counters follow the order in which their tags first occur. */
  predicate FirstSeenOrder(tags: seq<string>, tally: seq<TagCount>) {
    && (forall i :: 0 <= i < |tally| ==> tally[i].tag in tags)
    && (forall i, j :: 0 <= i < j < |tally| ==>
          FirstIndex(tags, tally[i].tag) < FirstIndex(tags, tally[j].tag))
  }

  /** The counters come in the order in which their tags first occur in `tags`. */
  lemma {:induction false} TallyFirstSeenOrder(tags: seq<string>)
    ensures FirstSeenOrder(tags, Tally(tags))
  {
    if tags != [] {
      var init, t := tags[..|tags| - 1], tags[|tags| - 1];
      TallyCovers(init);
      TallyFirstSeenOrder(init);
      TallyStep(tags);
      BumpSpec(Tally(init), t);
      OrderStep(init, t, tags, Tally(init), Tally(tags));
    }
  }

  /** The induction step of `TallyFirstSeenOrder`. */
  lemma OrderStep(init: seq<string>, t: string, tags: seq<string>, before: seq<TagCount>, after: seq<TagCount>)
    requires tags == init + [t]
    requires Covers(init, before) && FirstSeenOrder(init, before)
    requires |after| == |before| + (if HasTag(before, t) then 0 else 1)
    requires forall i :: 0 <= i < |before| ==> after[i].tag == before[i].tag
    requires !HasTag(before, t) ==> after[|before|] == TagCount(t, 1)
    ensures FirstSeenOrder(tags, after)
  {
    forall i, j | 0 <= i < j < |after|
      ensures FirstIndex(tags, after[i].tag) < FirstIndex(tags, after[j].tag)
    {
      FirstIndexExtend(init, t, after[i].tag);
      if j < |before| {
        FirstIndexExtend(init, t, after[j].tag);
      } else {
        assert t !in init;
        assert FirstIndex(tags, t) == |init|;
      }
    }
  }

  /** Appending does not move a first occurrence already present. */
  lemma FirstIndexExtend(s: seq<string>, t: string, x: string)
    requires x in s
    ensures FirstIndex(s + [t], x) == FirstIndex(s, x)
  {
    var k := FirstIndex(s, x);
    assert (s + [t])[k] == x;
    var k' := FirstIndex(s + [t], x);
    assert k' <= k;
  }

  /** `${k} x${v}`. */
  function Part(c: TagCount): string {
    c.tag + " x" + NatToString(c.count)
  }

  /** `Object.entries(tagCounts).map(([k, v]) => ...)`. */
  function Parts(tally: seq<TagCount>): (r: seq<string>)
    ensures |r| == |tally|
    ensures forall i :: 0 <= i < |tally| ==> r[i] == Part(tally[i])
  {
    if tally == [] then [] else [Part(tally[0])] + Parts(tally[1..])
  }

  /** `list.some(a => a.note)`: some entry has a non-empty note. */
  predicate SomeNote(list: seq<ActivityEntry>) {
    exists i :: 0 <= i < |list| && list[i].note != []
  }

  /** The text `todaySummary` builds from today's entries. */
  function ListSummary(list: seq<ActivityEntry>): (r: string)
    ensures r == NoActivitiesYet <==> list == []
  {
    if list == [] then NoActivitiesYet
    else
      var r := "Today: " + Join(Parts(Tally(AllTags(list))), ", ") + (if SomeNote(list) then " + notes." else ".");
      assert r[0] != NoActivitiesYet[0];
      r
  }

  /**
   * `todaySummary`: the fixed sentence when nothing is dated `day`, otherwise
   * `Today: tag xN, ...` followed by ` + notes.` or `.`.
   */
  function DaySummary(entries: seq<ActivityEntry>, day: string): (r: string)
    ensures r == NoActivitiesYet <==> EntriesOn(entries, day) == []
  {
    ListSummary(EntriesOn(entries, day))
  }

  /** Leaving out an entry dated another day does not change which entries are dated `day`. */
  lemma EntriesOnSkip(before: seq<ActivityEntry>, e: ActivityEntry, after: seq<ActivityEntry>, day: string)
    requires e.date != day
    ensures EntriesOn(before + [e] + after, day) == EntriesOn(before + after, day)
  {
    assert EntriesOn([e], day) == [] by {
      assert [e][1..] == [];
    }
    calc {
      EntriesOn(before + [e] + after, day);
    == { EntriesOnConcat(before + [e], after, day); }
      EntriesOn(before + [e], day) + EntriesOn(after, day);
    == { EntriesOnConcat(before, [e], day); }
      EntriesOn(before, day) + [] + EntriesOn(after, day);
    == { EntriesOnConcat(before, after, day); }
      EntriesOn(before + after, day);
    }
  }

  /** An entry dated another day can be added anywhere without changing the summary. */
  lemma SummaryIgnoresOtherDays(before: seq<ActivityEntry>, e: ActivityEntry, after: seq<ActivityEntry>, day: string)
    requires e.date != day
    ensures DaySummary(before + [e] + after, day) == DaySummary(before + after, day)
  {
    EntriesOnSkip(before, e, after, day);
  }

  predicate EndsWith(s: string, suffix: string) {
    |suffix| <= |s| && s[|s| - |suffix|..] == suffix
  }

  /** With entries today, the summary ends in ` + notes.` exactly when one of them has a note. */
  lemma SummaryEndsWithNotes(entries: seq<ActivityEntry>, day: string)
    requires EntriesOn(entries, day) != []
    ensures EndsWith(DaySummary(entries, day), " + notes.") <==> SomeNote(EntriesOn(entries, day))
  {
    ListEndsWithNotes(EntriesOn(entries, day));
  }

  /**
   * A non-empty list's text ends in ` + notes.` exactly when some entry has a
   * note, and in `.` otherwise; with at least one tag, that `.` follows a count.
   */
  lemma ListEndsWithNotes(list: seq<ActivityEntry>)
    requires list != []
    ensures EndsWith(ListSummary(list), " + notes.") <==> SomeNote(list)
    ensures !SomeNote(list) ==> EndsWith(ListSummary(list), ".")
    ensures !SomeNote(list) && AllTags(list) != [] ==>
      var r := ListSummary(list); |r| >= 2 && IsDigit(r[|r| - 2])
  {
    var parts := Parts(Tally(AllTags(list)));
    var joined := Join(parts, ", ");
    var r := ListSummary(list);
    if !SomeNote(list) {
      assert r == "Today: " + joined + ".";
      if AllTags(list) != [] {
        TallyNonEmpty(AllTags(list));
      }
      if parts != [] {
        var last := parts[|parts| - 1];
        var n := Tally(AllTags(list))[|parts| - 1].count;
        assert last == Tally(AllTags(list))[|parts| - 1].tag + " x" + NatToString(n);
        assert last[|last| - 1] == NatToString(n)[|NatToString(n)| - 1];
        JoinEndsWithLast(parts, ", ");
        assert IsDigit(r[|r| - 2]);
        assert !IsDigit(" + notes."[7]);
      } else {
        assert |r| < |" + notes."|;
      }
      assert r[|r| - 1..] == ".";
    }
  }

  /** Every tag logged today appears in the summary as `tag xN`, N its number of occurrences today. */
  lemma SummaryCountsEachTag(entries: seq<ActivityEntry>, day: string, t: string)
    requires t in AllTags(EntriesOn(entries, day))
    ensures Contains(DaySummary(entries, day), t + " x" + NatToString(multiset(AllTags(EntriesOn(entries, day)))[t]))
  {
    ListCountsEachTag(EntriesOn(entries, day), t);
  }

  lemma ListCountsEachTag(list: seq<ActivityEntry>, t: string)
    requires t in AllTags(list)
    ensures Contains(ListSummary(list), t + " x" + NatToString(multiset(AllTags(list))[t]))
  {
    var joined := Join(Parts(Tally(AllTags(list))), ", ");
    JoinedCountsEachTag(AllTags(list), t);
    var r := ListSummary(list);
    assert r == "Today: " + joined + (if SomeNote(list) then " + notes." else ".");
    assert r[7..7 + |joined|] == joined;
    ContainsInfix(r, 7, joined, t + " x" + NatToString(multiset(AllTags(list))[t]));
  }

  /** The joined parts contain `tag xN` for every tag, N its number of occurrences. */
  lemma JoinedCountsEachTag(tags: seq<string>, t: string)
    requires t in tags
    ensures Contains(Join(Parts(Tally(tags)), ", "), t + " x" + NatToString(multiset(tags)[t]))
  {
    var tally := Tally(tags);
    TallyCounts(tags);
    var i :| 0 <= i < |tally| && tally[i].tag == t;
    var parts := Parts(tally);
    var part := parts[i];
    assert part == t + " x" + NatToString(multiset(tags)[t]);
    var joined := Join(parts, ", ");
    JoinContainsPart(parts, ", ", i);
    ContainsIffOccurs(joined, part);
  }

  // ---------------------------------------------------------------------------
  // Choosing the reply

  /** What a message asks for, tested on its lower-cased text in this order. */
  datatype Intent = DaySoFar | Details | WebQuestion

  function Classify(message: string): (intent: Intent)
    ensures intent == DaySoFar <==>
      Contains(ToLower(message), "what did i do") || Contains(ToLower(message), "summary")
    ensures intent == Details <==>
      !Contains(ToLower(message), "what did i do") && !Contains(ToLower(message), "summary")
      && Contains(ToLower(message), "details")
  {
    var lower := ToLower(message);
    if Contains(lower, "what did i do") || Contains(lower, "summary") then DaySoFar
    else if Contains(lower, "details") then Details
    else WebQuestion
  }

  /** The body of a response from the answer endpoint: `{ answer, source_url }`, or text that is not JSON. */
  datatype Body = Json(answer: Option<string>, sourceUrl: Option<string>) | NotJson

  /** What `fetch` produced: a response with a status, or a network failure. */
  datatype Fetch = Response(status: int, body: Body) | NetworkError

  /** The lookup result `respond` sees. */
  datatype Answer = Answer(answer: Option<string>, sourceUrl: Option<string>)

  /**
   * `fetchInstantAnswer`: a 2xx response's JSON body; a non-2xx status, a body
   * that is not JSON or a network failure become an empty answer.
   */
  function InstantAnswer(f: Fetch): (web: Answer)
    ensures web.answer.Some? ==> f.Response? && 200 <= f.status <= 299 && f.body.Json?
    ensures f.Response? && 200 <= f.status <= 299 && f.body.Json? ==>
      web == Answer(f.body.answer, f.body.sourceUrl)
  {
    match f
    case Response(status, body) =>
      if 200 <= status <= 299 && body.Json? then Answer(body.answer, body.sourceUrl)
      else Answer(None, None)
    case NetworkError => Answer(None, None)
  }

  /** JavaScript truthiness of a nullable string. */
  predicate Truthy(s: Option<string>) {
    s.Some? && s.value != []
  }

  /** The reply to a general question. */
  function WebReply(web: Answer): (reply: string)
    ensures Truthy(web.answer) && Truthy(web.sourceUrl) ==>
      reply == web.answer.value + "\nSource: " + web.sourceUrl.value
    ensures Truthy(web.answer) && !Truthy(web.sourceUrl) ==> reply == web.answer.value
    ensures !Truthy(web.answer) ==> reply == NoConciseAnswer
  {
    if Truthy(web.answer) then
      web.answer.value + (if Truthy(web.sourceUrl) then "\nSource: " + web.sourceUrl.value else "")
    else NoConciseAnswer
  }

  /** The reply `respond` computes for `message`, given today's summary and the lookup result. */
  function Reply(message: string, summary: string, web: Answer): (reply: string)
    ensures Classify(message) == WebQuestion ==> reply == WebReply(web)
    ensures Classify(message) != WebQuestion ==> |reply| > |summary|
  {
    match Classify(message)
    case DaySoFar => "Here's your day so far: " + summary + " \U{1F60A}"
    case Details => "Details for today:\n- " + summary + "\n- Energy: consider hydration and a short walk. \U{1F6B6}"
    case WebQuestion => WebReply(web)
  }

  /**
   * The summary phrases win over `details`; `details` wins over the lookup;
   * the summary and details replies carry today's summary and ignore the
   * lookup, and the lookup reply ignores the summary.
   */
  lemma ReplyDispatch(message: string, summary: string, web: Answer, web': Answer, summary': string)
    ensures var lower := ToLower(message);
      (Contains(lower, "what did i do") || Contains(lower, "summary")) ==>
        Reply(message, summary, web) == "Here's your day so far: " + summary + " \U{1F60A}"
    ensures var lower := ToLower(message);
      !Contains(lower, "what did i do") && !Contains(lower, "summary") && Contains(lower, "details") ==>
        Reply(message, summary, web) == "Details for today:\n- " + summary + "\n- Energy: consider hydration and a short walk. \U{1F6B6}"
    ensures Classify(message) != WebQuestion ==>
      Contains(Reply(message, summary, web), summary) && Reply(message, summary, web) == Reply(message, summary, web')
    ensures Classify(message) == WebQuestion ==> Reply(message, summary, web) == Reply(message, summary', web)
    ensures Classify(message) == WebQuestion ==> Reply(message, summary, web) == WebReply(web)
  {
    var r := Reply(message, summary, web);
    ContainsSelf(summary);
    if Classify(message) == DaySoFar {
      assert r[24..24 + |summary|] == summary;
      ContainsInfix(r, 24, summary, summary);
    } else if Classify(message) == Details {
      assert r[21..21 + |summary|] == summary;
      ContainsInfix(r, 21, summary, summary);
    }
  }

  /** Lower-casing a message first does not change what it asks for. */
  lemma ClassifyIgnoresCase(message: string)
    ensures Classify(ToLower(message)) == Classify(message)
  {
    assert ToLower(ToLower(message)) == ToLower(message);
  }

  // ---------------------------------------------------------------------------
  // The panel's state

  class ChatPanel {
    var chat: seq<Message>
    var activities: seq<ActivityEntry>
    var input: string
    const chatStore: Storage.Store<Message>
    const activityStore: Storage.Store<ActivityEntry>

    /** First render: both arrays start empty, as does the input. */
    constructor (chatStore: Storage.Store<Message>, activityStore: Storage.Store<ActivityEntry>)
      requires chatStore.key == ChatKey && activityStore.key == ActivityKey
      ensures this.chatStore == chatStore && this.activityStore == activityStore
      ensures chat == [] && activities == [] && input == []
    {
      this.chatStore := chatStore;
      this.activityStore := activityStore;
      chat, activities, input := [], [], [];
    }

    /** The mount effects: each stored array replaces the initial one; a failed read keeps it. */
    method Mount(chatReadable: bool, activitiesReadable: bool)
      modifies this
      ensures chat == chatStore.Load(chatReadable).GetOr(old(chat))
      ensures activities == activityStore.Load(activitiesReadable).GetOr(old(activities))
      ensures input == old(input)
    {
      chat := chatStore.Load(chatReadable).GetOr(chat);
      activities := activityStore.Load(activitiesReadable).GetOr(activities);
    }

    /** The text field's `onChange`. */
    method SetInput(text: string)
      modifies this
      ensures input == text && chat == old(chat) && activities == old(activities)
    {
      input := text;
    }

    /** `save`: the new transcript becomes the state whether or not storage accepts it. */
    method Save(next: seq<Message>, writable: bool)
      modifies this, chatStore
      ensures chat == next && activities == old(activities) && input == old(input)
      ensures chatStore.slot == if writable then Storage.Holds(next) else old(chatStore.slot)
    {
      chat := next;
      chatStore.Save(next, writable);
    }

    /**
     * `respond`: the transcript grows by exactly the user's message and the
     * reply, and is written back to storage.
     */
    method Respond(message: string, now: string, fetched: Fetch, writable: bool)
      modifies this, chatStore
      ensures chat == old(chat) + [Message(User, message),
        Message(Assistant, Reply(message, DaySummary(activities, TodayIso(now)), InstantAnswer(fetched)))]
      ensures activities == old(activities) && input == old(input)
      ensures chatStore.slot == if writable then Storage.Holds(chat) else old(chatStore.slot)
    {
      var summary := DaySummary(activities, TodayIso(now));
      var reply := Reply(message, summary, InstantAnswer(fetched));
      Save(chat + [Message(User, message), Message(Assistant, reply)], writable);
    }

    /**
     * `onSend`: blank input is ignored; otherwise the input is cleared and the
     * trimmed text is answered.
     */
    method OnSend(now: string, fetched: Fetch, writable: bool)
      modifies this, chatStore
      ensures IsBlank(old(input)) ==>
        chat == old(chat) && input == old(input) && chatStore.slot == old(chatStore.slot)
      ensures !IsBlank(old(input)) ==>
        var msg := Trim(old(input));
        && input == []
        && chat == old(chat) + [Message(User, msg),
             Message(Assistant, Reply(msg, DaySummary(activities, TodayIso(now)), InstantAnswer(fetched)))]
        && chatStore.slot == (if writable then Storage.Holds(chat) else old(chatStore.slot))
      ensures activities == old(activities)
    {
      var msg := Trim(input);
      if msg == [] {
        return;
      }
      input := [];
      Respond(msg, now, fetched, writable);
    }
  }
}
