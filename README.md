# MindMate components in Dafny

This project models the logic inside five React components of the MindMate
wellness app:

- **ActivityAwareChat**: a chat panel. It summarises today's logged
  activities, picks a reply to each message (the day so far, details, or a
  web instant answer), and keeps the transcript in state and in local
  storage.
- **DailyActivities**: an activity log. A tag selection and a note become a
  new entry on Save, and the "Today" list shows today's entries newest first.
- **ChatPreview**: an offline chat. A transcript is restored from storage or
  starts with a greeting. Each message gets a canned friendly reply built
  from a random template, at most one keyword clause and an optional nudge,
  and the reply is delivered after a delay.
- **JournalTeaser**: an in-memory list of dated mood notes. A non-blank note
  is added in front.
- **DaypartBanner**: a heading that greets according to the part of the day.

Each component is one module:

- Components with state are classes. Their fields are the component's
  `useState` values, and their methods are its event handlers and effects.
- Values that are computed are pure functions. The lemmas beside those
  functions state the properties.

Shared modules:

- `Text` holds the JavaScript string built-ins the components use: `trim`,
  `toLowerCase`, `includes`, `join`, and the number-to-text rendering of a
  template literal.
- `Storage` is a fail-soft local-storage key.
- `Records` holds the message and activity-entry records and `todayISO`.

The browser's inputs are parameters:

- the ISO text of "now";
- the creation instant and id of a new entry;
- the stream of `Math.random()` results;
- the outcome of the instant-answer request;
- whether storage can be read or written.

## Model

| member | source | states |
|---|---|---|
| Records.TodayIso | src/components/ActivityAwareChat.jsx:6 | The day is the first ten characters of the instant's ISO text (all of it if shorter). |
| Records.EntriesOn | src/components/ActivityAwareChat.jsx:28 | Every kept entry is dated `day`, and the filter never lengthens the list. |
| Records.EntriesOnMembers | src/components/ActivityAwareChat.jsx:28 | An entry survives the filter exactly when it is stored and dated `day`. |
| Records.EntriesOnConcat | src/components/ActivityAwareChat.jsx:28 | Filtering a concatenation is the concatenation of the filtered halves, so stored order is kept. |
| Storage.Store.Load | src/components/ActivityAwareChat.jsx:10-12 | A read yields the stored array exactly when storage is readable and the key holds an array. A missing key, a malformed value or a throwing read all yield nothing. |
| Storage.Store.Save | src/components/ActivityAwareChat.jsx:13 | A write that succeeds stores the array, which then reads back unchanged. A refused write leaves the key as it was. |
| Text.SkipWhitespace | src/components/ActivityAwareChat.jsx:125 | The scan from the front stops at the first non-whitespace character, having passed only whitespace. |
| Text.DropTrailing | src/components/ActivityAwareChat.jsx:125 | The scan from the back stops after the last non-whitespace character, having passed only whitespace. |
| Text.Trim | src/components/ActivityAwareChat.jsx:125 | The result is an infix with only whitespace cut from either side, and it neither starts nor ends with whitespace. It is empty exactly when the input is blank, which is the `!msg` guard. |
| Text.ToLower | src/components/ActivityAwareChat.jsx:100 | Lower-casing keeps the length and maps each character by itself. |
| Text.ContainsFromIff | src/components/ActivityAwareChat.jsx:104 | Searching from index i finds the substring exactly when it occurs at some index at or after i. |
| Text.ContainsIffOccurs | src/components/ActivityAwareChat.jsx:104 | `includes` holds exactly when the substring occurs at some index. |
| Text.ContainsInfix | src/components/ActivityAwareChat.jsx:104 | A string contains whatever any of its pieces contains. |
| Text.ContainsSelf | src/components/ActivityAwareChat.jsx:104 | Every string includes itself. |
| Text.NatToString | src/components/ActivityAwareChat.jsx:31 | A count renders as a non-empty string of decimal digits with no leading zero. |
| Text.NatToStringValue | src/components/ActivityAwareChat.jsx:31 | Reading the rendered digits back gives the count. |
| Text.Join | src/components/ActivityAwareChat.jsx:32 | A non-empty join starts with its first part. |
| Text.JoinEndsWithLast | src/components/ActivityAwareChat.jsx:32 | A join ends with the last character of its last part. |
| Text.JoinContainsPart | src/components/ActivityAwareChat.jsx:32 | Every part occurs in the joined string. |
| ActivityAwareChat.AllTags | src/components/ActivityAwareChat.jsx:30 | The flattened tag list is empty exactly when no entry has a tag. |
| ActivityAwareChat.BumpSpec | src/components/ActivityAwareChat.jsx:30 | `Bump`, one reduce step, keeps every counter in its place and adds one to the counter of the tag. A new tag gets a counter of 1 at the end. |
| ActivityAwareChat.TallyNonEmpty | src/components/ActivityAwareChat.jsx:30 | At least one tag gives at least one counter. |
| ActivityAwareChat.TallyCounts | src/components/ActivityAwareChat.jsx:30 | `Tally`, the whole reduce, has exactly one counter per distinct tag, and each count is the tag's number of occurrences. |
| ActivityAwareChat.TallyFirstSeenOrder | src/components/ActivityAwareChat.jsx:30-31 | The counters are listed in the order in which their tags first occur. |
| ActivityAwareChat.Parts | src/components/ActivityAwareChat.jsx:31 | There is one `tag xN` part per counter, in counter order. |
| ActivityAwareChat.ListSummary | src/components/ActivityAwareChat.jsx:29-32 | The text built from a list of entries is the "No activities logged yet today." sentence exactly when the list is empty. |
| ActivityAwareChat.DaySummary | src/components/ActivityAwareChat.jsx:26-33 | The summary is the "No activities logged yet today." sentence exactly when no entry is dated today. |
| ActivityAwareChat.EntriesOnSkip | src/components/ActivityAwareChat.jsx:28 | An entry dated another day, inserted anywhere, does not change what the filter keeps. |
| ActivityAwareChat.SummaryIgnoresOtherDays | src/components/ActivityAwareChat.jsx:28 | Inserting an entry dated another day anywhere leaves the summary unchanged. |
| ActivityAwareChat.SummaryEndsWithNotes | src/components/ActivityAwareChat.jsx:32 | When there are entries today, the summary ends in ` + notes.` iff one of them has a non-empty note. |
| ActivityAwareChat.ListEndsWithNotes | src/components/ActivityAwareChat.jsx:32 | For a non-empty list, the text ends in ` + notes.` iff some entry has a non-empty note, and in `.` otherwise. When no entry has a note and some entry has a tag, that `.` follows a count digit. |
| ActivityAwareChat.SummaryCountsEachTag | src/components/ActivityAwareChat.jsx:30-32 | Every tag logged today appears in the summary as `tag xN`, where N is its number of occurrences today. |
| ActivityAwareChat.ListCountsEachTag | src/components/ActivityAwareChat.jsx:30-32 | Every tag of the list appears in its text as `tag xN`, N its number of occurrences in the list. |
| ActivityAwareChat.JoinedCountsEachTag | src/components/ActivityAwareChat.jsx:30-32 | The comma-joined parts contain `tag xN` for every tag, N its number of occurrences. |
| ActivityAwareChat.Classify | src/components/ActivityAwareChat.jsx:100-106 | The day-so-far reply is chosen iff the lower-cased message contains `what did i do` or `summary`. The details reply is chosen iff it contains `details` and neither of those. Otherwise the message is a general question. |
| ActivityAwareChat.InstantAnswer | src/components/ActivityAwareChat.jsx:88-97 | Only a 2xx response with a JSON body can yield an answer, and such a body passes through. A bad status, a non-JSON body or a network failure yield an empty answer. |
| ActivityAwareChat.WebReply | src/components/ActivityAwareChat.jsx:111-116 | A non-empty answer is the reply, followed by `\nSource: url` iff the url is non-empty. Otherwise the reply is the fixed "couldn't find a concise answer" text. |
| ActivityAwareChat.ReplyDispatch | src/components/ActivityAwareChat.jsx:100-117 | `what did i do` or `summary` (any case) wins over `details`, which wins over the lookup. The summary and details replies carry today's summary and ignore the lookup. A general question's reply is exactly the lookup reply, whatever the summary. |
| ActivityAwareChat.Reply | src/components/ActivityAwareChat.jsx:104-117 | A general question gets the lookup reply. The other replies are longer than the summary they quote. |
| ActivityAwareChat.ClassifyIgnoresCase | src/components/ActivityAwareChat.jsx:100 | The choice of reply does not depend on letter case. |
| ActivityAwareChat.ChatPanel.constructor | src/components/ActivityAwareChat.jsx:18-20 | The transcript, the activities and the input all start empty. |
| ActivityAwareChat.ChatPanel.Mount | src/components/ActivityAwareChat.jsx:10-12 | Each stored array replaces its initial value. A failed read keeps the initial value. |
| ActivityAwareChat.ChatPanel.SetInput | src/components/ActivityAwareChat.jsx:156 | Typing replaces the input and nothing else. |
| ActivityAwareChat.ChatPanel.Save | src/components/ActivityAwareChat.jsx:13 | The new transcript becomes the state. Storage holds it iff the write succeeds. |
| ActivityAwareChat.ChatPanel.Respond | src/components/ActivityAwareChat.jsx:99-122 | The transcript becomes the old transcript followed by exactly the user's message and the reply for today's summary and the lookup. It is written back to storage. |
| ActivityAwareChat.ChatPanel.OnSend | src/components/ActivityAwareChat.jsx:124-129 | Blank input changes nothing. Otherwise the input is cleared and the trimmed text is answered. |
| DailyActivities.Without | src/components/DailyActivities.jsx:64 | Removing a tag keeps exactly the other tags and keeps a duplicate-free selection duplicate-free. |
| DailyActivities.Toggled | src/components/DailyActivities.jsx:64 | A toggle flips the tag's membership and leaves every other tag's membership unchanged. An absent tag is appended at the end. |
| DailyActivities.ToggledKeepsDistinct | src/components/DailyActivities.jsx:64 | A selection without duplicates has none after a toggle. |
| DailyActivities.ToggleTwice | src/components/DailyActivities.jsx:64 | Selecting an unselected tag and then deselecting it restores the selection. |
| DailyActivities.InsertAdds | src/components/DailyActivities.jsx:24 | One insertion step adds exactly the inserted entry. |
| DailyActivities.InsertOrder | src/components/DailyActivities.jsx:24 | One insertion step keeps a newest-first list newest first. |
| DailyActivities.InsertStable | src/components/DailyActivities.jsx:24 | The inserted entry goes in front of the entries created at the same instant. |
| DailyActivities.NewestFirstSpec | src/components/DailyActivities.jsx:24 | `NewestFirst`, the sort, orders by `createdAt` descending, is a permutation of its input, and keeps entries created at the same instant in input order. |
| DailyActivities.TodayEntriesSpec | src/components/DailyActivities.jsx:22-25 | `TodayEntries` holds exactly the entries dated today, each as often as stored, newest first, with ties in stored order. |
| DailyActivities.ActivityLog.constructor | src/components/DailyActivities.jsx:18-20 | The selection, the note and the entries all start empty. |
| DailyActivities.ActivityLog.Mount | src/components/DailyActivities.jsx:27-32 | A stored array replaces the empty list. A failed read keeps the empty list. |
| DailyActivities.ActivityLog.ToggleTag | src/components/DailyActivities.jsx:64 | The selection becomes its toggle and stays duplicate-free quick tags. Nothing else changes. |
| DailyActivities.ActivityLog.SetNote | src/components/DailyActivities.jsx:74 | Typing replaces the note and nothing else. |
| DailyActivities.ActivityLog.ClearForm | src/components/DailyActivities.jsx:82 | Clear empties the selection and the note and keeps the entries. |
| DailyActivities.ActivityLog.Save | src/components/DailyActivities.jsx:34-38 | The new list becomes the state and goes to storage when it can. One update event is dispatched. |
| DailyActivities.ActivityLog.AddEntry | src/components/DailyActivities.jsx:40-52 | No tag and a blank note change nothing. Otherwise an entry with today's date, the selection and the trimmed note goes in front of the unchanged old list, and the form is cleared. |
| DailyActivities.ActivityLog.Today | src/components/DailyActivities.jsx:22-25 | The list shown under "Today" holds exactly the stored entries dated the current day, newest first. |
| ChatPreview.InitialTranscript | src/components/ChatPreview.jsx:70-77 | A stored transcript is used as it is. Without one, the transcript is the single greeting. |
| ChatPreview.PickIndex | src/components/ChatPreview.jsx:53 | `Math.floor(r * n)` is a valid index for every draw in [0, 1). |
| ChatPreview.Pick | src/components/ChatPreview.jsx:53 | A pick is always an element of its array. |
| ChatPreview.Clauses | src/components/ChatPreview.jsx:58-62 | Each clause is present iff one of its keywords occurs in the lower-cased text. There are at most three clauses, all from the fixed table. |
| ChatPreview.FriendlyReplyParts | src/components/ChatPreview.jsx:36-66 | The base is the template the first draw selects. A clause is present iff a keyword matched, and it is a space followed by a matched clause. A nudge is present iff the coin is above 0.5, and it is a space followed by one of the three nudges. |
| ChatPreview.FriendlyReply | src/components/ChatPreview.jsx:54-65 | The reply starts with one of the six templates, so it is never empty. |
| ChatPreview.MatchedClauses | src/components/ChatPreview.jsx:58-62 | The pushes into `tags` produce exactly the clauses whose keywords occur, in table order. |
| ChatPreview.GenerateFriendlyReply | src/components/ChatPreview.jsx:36-66 | The step-by-step reply (pushes into `tags`, then picks) equals the specified reply. |
| ChatPreview.ClauseIndependentOfDraws | src/components/ChatPreview.jsx:59-63 | Chance never decides whether a clause is added. With a single matched category the clause is fixed. |
| ChatPreview.FriendlyReplyLayout | src/components/ChatPreview.jsx:65 | The reply is template, then clause, then nudge, with the nudge last. |
| ChatPreview.ChatWindow.constructor | src/components/ChatPreview.jsx:70-79 | The first transcript is the stored one or the greeting, with no input and no pending reply. |
| ChatPreview.ChatWindow.Mount | src/components/ChatPreview.jsx:82-84 | The save effect's first run writes the transcript when storage accepts it. |
| ChatPreview.ChatWindow.SetInput | src/components/ChatPreview.jsx:141 | Typing replaces the input and nothing else. |
| ChatPreview.ChatWindow.Send | src/components/ChatPreview.jsx:86-97 | Blank input changes nothing. Otherwise the trimmed text is appended as the user's message, the input is cleared, the reply is scheduled and the transcript is saved. |
| ChatPreview.ChatWindow.Post | src/components/ChatPreview.jsx:89-96 | After the guard: exactly one user message is appended, and the friendly reply joins the pending replies. |
| ChatPreview.ChatWindow.DeliverReply | src/components/ChatPreview.jsx:94-96 | When the timer fires, the oldest pending reply is appended as one assistant message and saved. |
| JournalTeaser.Journal.constructor | src/components/JournalTeaser.jsx:6-9 | The list starts as exactly the sample entry dated today, and the note starts empty. |
| JournalTeaser.Journal.SetNote | src/components/JournalTeaser.jsx:34 | Typing replaces the note and keeps the entries. |
| JournalTeaser.Journal.AddEntry | src/components/JournalTeaser.jsx:11-18 | A blank note changes nothing. Otherwise one entry goes in front of the unchanged old list, with today's date, the calm mood and the untrimmed note, and the note is cleared. The sample entry stays last and the list never shrinks. |
| DaypartBanner.GreetingFor | src/components/DaypartBanner.jsx:4-9 | `morning`, `afternoon`, `evening` and `night` get "Good morning", "Good afternoon", "Good evening" and "Good night". A missing part or any other plain key gets "Hello". A key naming an `Object.prototype` method finds that method, and `__proto__` finds the prototype object. |
| DaypartBanner.Heading | src/components/DaypartBanner.jsx:16 | The heading is the greeting followed by `, MindMate`. It cannot be rendered only for `__proto__`. |

## Left out

- Speech recognition, speech synthesis and the wake-word listener are browser
  event plumbing and are not modelled. `WakeWordListener.jsx` is not part of
  this model.
- The HTTP request behind `fetchInstantAnswer` is not modelled: its outcome
  is a parameter (a status with a JSON or non-JSON body, or a network
  failure). A JSON body is assumed to be an object with string-or-null
  `answer` and `source_url` fields.
- `respond` awaits the lookup and then appends to the transcript it captured
  when it started. Two overlapping requests can therefore lose a message.
  The model runs each `respond` to completion, so it does not show that race.
- ActivityAwareChat.ChatPanel.Respond: the summary is computed from the day
  passed in. The component memoises it on `activities` alone, so after
  midnight it can still show the previous day until the activities change.
- ActivityAwareChat.ChatPanel.Mount: the activities are read only when the
  panel mounts. Nothing listens to the `mindmate-activities-updated` event
  that DailyActivities dispatches, so entries saved later in the same session
  do not reach the summary until the page is reloaded.
- Text.ToLower: lower-cases ASCII letters only. This does not change any
  keyword match: the only non-ASCII characters whose JavaScript lower case
  contains an ASCII letter are U+212A (to `k`) and U+0130 (to `i` plus a
  combining dot). No keyword contains a `k`, and the `i` of U+0130 is always
  followed by the combining dot.
- ActivityAwareChat.TallyFirstSeenOrder: `Object.entries` lists
  integer-like keys (such as a tag `"2"`) in ascending numeric order before
  all other keys. The model keeps first-seen order for every tag, and the
  quick tags are never integer-like.
- ActivityAwareChat.TallyCounts: a tag named after an `Object.prototype`
  member (`constructor`, `__proto__`, …) does not count correctly in the
  component's `{}` accumulator. The model counts it like any other tag.
- JSON serialisation is not modelled: a storage slot holds the parsed array,
  and a stored value that parses to something other than an array is not
  distinguished from one.
- DailyActivities.NewestFirstSpec: `createdAt` is the creation instant in
  milliseconds. The component stores its ISO text and compares the parsed
  instants. A stored entry whose `createdAt` does not parse gives a NaN
  comparison, which is not modelled.
- ChatPreview.PickIndex: draws are exact reals in [0, 1), not IEEE doubles.
  For the array lengths used here (at most six), a double draw times the
  length also rounds to a value below the length, so the picked index is the
  same kind of valid index.
- The 450 ms `setTimeout` in ChatPreview is the explicit `DeliverReply` step
  over a queue of pending replies. Timing is not modelled.
- DailyActivities.ActivityLog.Today: the view is computed for the day
  passed in. The component memoises it on `entries` alone, so after
  midnight it keeps showing the previous day until the entries change.
- `useOnlineStatus`, all markup and animation, and the Navbar, Hero, Footer
  and App components are presentation only and are not modelled.
