/**
 * The offline chat preview: a transcript restored from local storage (or a
 * greeting), and a friendly canned reply built from a random template, at
 * most one keyword-driven clause and an optional calming nudge, delivered
 * after a short delay.
 */
module ChatPreview {
  import opened Wrappers
  import opened Text
  import opened Records
  import Storage

  const StorageKey := "mindmate_chat"

  const Greeting := "Hey, I\U{2019}m here with you. No rush \U{2014} we can just take a breath together."

  const Templates: seq<string> := [
    "I hear you. Let's take a slow breath together. I'm with you.",
    "That sounds like a lot. One small step at a time \U{2014} you\U{2019}ve got this.",
    "Thanks for sharing that. I\U{2019}m here, no pressure, just company.",
    "You\U{2019}re not alone in this. Let\U{2019}s keep it gentle today.",
    "Proud of you for opening up. Let\U{2019}s do what feels doable right now.",
    "I\U{2019}m staying with you. A sip of water and a breath can help."
  ]

  const SoftNudges: seq<string> := [
    "If it helps, place a hand on your chest and notice the warmth for a few seconds.",
    "Maybe relax your shoulders and unclench your jaw \U{2014} I\U{2019}ll wait with you.",
    "Try a slow inhale for 4, hold 2, exhale for 6. Nice and easy."
  ]

  const SafeHere := "You\U{2019}re safe here."
  const RestCounts := "Rest counts as progress."
  const FeelingsMakeSense := "Your feelings make sense."

  // ---------------------------------------------------------------------------
  // Loading

  /**
   * `loadMessages` followed by `stored || [greeting]`: the stored transcript
   * when there is one (even an empty one), otherwise the single greeting.
   */
  function InitialTranscript(loaded: Option<seq<Message>>): (t: seq<Message>)
    ensures loaded.None? ==> t == [Message(Assistant, Greeting)]
    ensures loaded.Some? ==> t == loaded.value
  {
    loaded.GetOr([Message(Assistant, Greeting)])
  }

  // ---------------------------------------------------------------------------
  // The friendly reply

  /** A value `Math.random()` can return. */
  predicate IsDraw(r: real) {
    0.0 <= r < 1.0
  }

  /** A stream of `Math.random()` results, consumed from the front. */
  predicate IsDraws(draws: seq<real>) {
    forall i :: 0 <= i < |draws| ==> IsDraw(draws[i])
  }

  /** `Math.floor(r * n)`: the index a draw selects among `n` choices. */
  function PickIndex(n: nat, r: real): (k: nat)
    requires n > 0 && IsDraw(r)
    ensures k < n
  {
    assert r * n as real < n as real by {
      assert (1.0 - r) * n as real > 0.0;
    }
    (r * n as real).Floor
  }

  /** `arr[Math.floor(Math.random() * arr.length)]`. */
  function Pick(arr: seq<string>, r: real): (x: string)
    requires arr != [] && IsDraw(r)
    ensures x in arr
  {
    arr[PickIndex(|arr|, r)]
  }

  /** The personalisation clauses whose keywords occur in the lower-cased text, in table order. */
  function Clauses(lowered: string): (r: seq<string>)
    ensures |r| <= 3
    ensures SafeHere in r <==> Contains(lowered, "anx") || Contains(lowered, "worry")
    ensures RestCounts in r <==> Contains(lowered, "tired") || Contains(lowered, "exhaust")
    ensures FeelingsMakeSense in r <==> Contains(lowered, "angry") || Contains(lowered, "mad")
    ensures forall c :: c in r ==> c == SafeHere || c == RestCounts || c == FeelingsMakeSense
  {
    (if Contains(lowered, "anx") || Contains(lowered, "worry") then [SafeHere] else [])
    + (if Contains(lowered, "tired") || Contains(lowered, "exhaust") then [RestCounts] else [])
    + (if Contains(lowered, "angry") || Contains(lowered, "mad") then [FeelingsMakeSense] else [])
  }

  /** Some keyword of one of the three categories occurs in the lower-cased text. */
  predicate HasKeyword(lowered: string) {
    || Contains(lowered, "anx") || Contains(lowered, "worry")
    || Contains(lowered, "tired") || Contains(lowered, "exhaust")
    || Contains(lowered, "angry") || Contains(lowered, "mad")
  }

  /** The three pieces a friendly reply is concatenated from. */
  datatype ReplyParts = ReplyParts(base: string, clause: string, nudge: string)

  /**
   * `generateFriendlyReply`, with its `Math.random()` calls taken from `draws`
   * in the order the code makes them: the template, the nudge coin, the nudge
   * (only when the coin says so), then the clause (only when one matched).
   */
  function FriendlyReplyParts(text: string, draws: seq<real>): (p: ReplyParts)
    requires |draws| >= 4 && IsDraws(draws)
    ensures p.base == Templates[PickIndex(|Templates|, draws[0])]
    ensures p.clause == [] <==> !HasKeyword(ToLower(text))
    ensures p.clause != [] ==> p.clause[0] == ' ' && p.clause[1..] in Clauses(ToLower(text))
    ensures p.nudge == [] <==> !(draws[1] > 0.5)
    ensures p.nudge != [] ==> p.nudge[0] == ' ' && p.nudge[1..] in SoftNudges
  {
    var base := Pick(Templates, draws[0]);
    var withNudge := draws[1] > 0.5;
    var nudge := if withNudge then " " + Pick(SoftNudges, draws[2]) else "";
    var next := if withNudge then 3 else 2;
    var clauses := Clauses(ToLower(text));
    var clause := if clauses != [] then " " + Pick(clauses, draws[next]) else "";
    assert clause != [] ==> clause[1..] == Pick(clauses, draws[next]);
    assert nudge != [] ==> nudge[1..] == Pick(SoftNudges, draws[2]);
    ReplyParts(base, clause, nudge)
  }

  /** The reply text: `${base}${tag}${addNudge}`. */
  function FriendlyReply(text: string, draws: seq<real>): (r: string)
    requires |draws| >= 4 && IsDraws(draws)
    ensures StartsWith(r, Templates[PickIndex(|Templates|, draws[0])])
    ensures r != []
  {
    var p := FriendlyReplyParts(text, draws);
    assert (p.base + p.clause + p.nudge)[..|p.base|] == p.base;
    p.base + p.clause + p.nudge
  }

  /**
   * The `tags.push(...)` block: one push per category whose keywords occur, in
   * table order. The source builds the list by mutation; `Clauses` is the
   * value it must end up as, and is what the lemmas about replies use.
   */
  method MatchedClauses(lowered: string) returns (tags: seq<string>)
    ensures tags == Clauses(lowered)
  {
    tags := [];
    if Contains(lowered, "anx") || Contains(lowered, "worry") {
      tags := tags + [SafeHere];
    }
    if Contains(lowered, "tired") || Contains(lowered, "exhaust") {
      tags := tags + [RestCounts];
    }
    if Contains(lowered, "angry") || Contains(lowered, "mad") {
      tags := tags + [FeelingsMakeSense];
    }
  }

  /**
   * `generateFriendlyReply` step by step as the code runs it: pick the
   * template, flip the nudge coin and pick a nudge, push the matched clauses
   * into `tags`, pick one of them, concatenate. `FriendlyReplyParts` is the
   * specification it is proved against; functions and lemmas use that one.
   */
  method GenerateFriendlyReply(userText: string, draws: seq<real>) returns (reply: string)
    requires |draws| >= 4 && IsDraws(draws)
    ensures reply == FriendlyReply(userText, draws)
  {
    var base := Pick(Templates, draws[0]);
    var withNudge := draws[1] > 0.5;
    var addNudge := if withNudge then " " + Pick(SoftNudges, draws[2]) else "";
    var next := if withNudge then 3 else 2;
    var tags := MatchedClauses(ToLower(userText));
    var tag := if tags != [] then " " + Pick(tags, draws[next]) else "";
    assert ReplyParts(base, tag, addNudge) == FriendlyReplyParts(userText, draws);
    reply := base + tag + addNudge;
  }

  predicate StartsWith(s: string, prefix: string) {
    |prefix| <= |s| && s[..|prefix|] == prefix
  }

  /**
   * The draws decide the template, the nudge and which matched clause is
   * used, never whether a clause is used; with a single matched category the
   * clause is fixed.
   */
  lemma ClauseIndependentOfDraws(text: string, d1: seq<real>, d2: seq<real>)
    requires |d1| >= 4 && IsDraws(d1) && |d2| >= 4 && IsDraws(d2)
    ensures (FriendlyReplyParts(text, d1).clause == []) == (FriendlyReplyParts(text, d2).clause == [])
    ensures |Clauses(ToLower(text))| == 1 ==>
      FriendlyReplyParts(text, d1).clause == FriendlyReplyParts(text, d2).clause == " " + Clauses(ToLower(text))[0]
  {
    var clauses := Clauses(ToLower(text));
    if |clauses| == 1 {
      var p1, p2 := FriendlyReplyParts(text, d1), FriendlyReplyParts(text, d2);
      assert p1.clause[1..] in clauses && p2.clause[1..] in clauses;
      assert p1.clause == [' '] + p1.clause[1..];
      assert p2.clause == [' '] + p2.clause[1..];
    }
  }

  /** The reply is the text's parts put back together: the template comes first and the nudge last. */
  lemma FriendlyReplyLayout(text: string, draws: seq<real>)
    requires |draws| >= 4 && IsDraws(draws)
    ensures var p := FriendlyReplyParts(text, draws); var r := FriendlyReply(text, draws);
      StartsWith(r, p.base) && r[|r| - |p.nudge|..] == p.nudge
      && r[|p.base|..|r| - |p.nudge|] == p.clause
  {
    var p := FriendlyReplyParts(text, draws);
    var r := FriendlyReply(text, draws);
    assert r == p.base + p.clause + p.nudge;
  }

  // ---------------------------------------------------------------------------
  // The component's state

  class ChatWindow {
    var messages: seq<Message>
    var input: string
    /** Replies whose 450 ms timer has not fired yet, in the order they were scheduled. */
    var scheduled: seq<string>
    const store: Storage.Store<Message>

    /** First render: the transcript `loadMessages` restores, or the greeting. */
    constructor (store: Storage.Store<Message>, readable: bool)
      requires store.key == StorageKey
      ensures this.store == store
      ensures messages == InitialTranscript(store.Load(readable))
      ensures input == [] && scheduled == []
    {
      this.store := store;
      messages := InitialTranscript(store.Load(readable));
      input, scheduled := [], [];
    }

    /** The save effect's first run, right after mounting. */
    method Mount(writable: bool)
      modifies store
      ensures store.slot == if writable then Storage.Holds(messages) else old(store.slot)
    {
      store.Save(messages, writable);
    }

    /** The text field's `onChange`. */
    method SetInput(text: string)
      modifies this
      ensures input == text && messages == old(messages) && scheduled == old(scheduled)
    {
      input := text;
    }

    /**
     * `send`: blank input is ignored; otherwise the trimmed text is appended as
     * the user's message, the input is cleared, and the reply is scheduled.
     * The save effect writes the new transcript.
     */
    method Send(draws: seq<real>, writable: bool)
      requires |draws| >= 4 && IsDraws(draws)
      modifies this, store
      ensures IsBlank(old(input)) ==>
        messages == old(messages) && input == old(input) && scheduled == old(scheduled)
        && store.slot == old(store.slot)
      ensures !IsBlank(old(input)) ==>
        var text := Trim(old(input));
        && messages == old(messages) + [Message(User, text)]
        && input == []
        && scheduled == old(scheduled) + [FriendlyReply(text, draws)]
        && store.slot == (if writable then Storage.Holds(messages) else old(store.slot))
    {
      var text := Trim(input);
      if text == [] {
        return;
      }
      Post(text, draws, writable);
    }

    /** The part of `send` after the guard, for a non-blank trimmed text. */
    method Post(text: string, draws: seq<real>, writable: bool)
      requires |draws| >= 4 && IsDraws(draws)
      modifies this, store
      ensures messages == old(messages) + [Message(User, text)]
      ensures input == [] && scheduled == old(scheduled) + [FriendlyReply(text, draws)]
      ensures store.slot == if writable then Storage.Holds(messages) else old(store.slot)
    {
      var reply := GenerateFriendlyReply(text, draws);
      messages, input, scheduled := messages + [Message(User, text)], [], scheduled + [reply];
      store.Save(messages, writable);
    }

    /** The oldest pending timer fires: its reply is appended as the assistant's message and saved. */
    method DeliverReply(writable: bool)
      requires scheduled != []
      modifies this, store
      ensures messages == old(messages) + [Message(Assistant, old(scheduled)[0])]
      ensures scheduled == old(scheduled)[1..] && input == old(input)
      ensures store.slot == if writable then Storage.Holds(messages) else old(store.slot)
    {
      messages := messages + [Message(Assistant, scheduled[0])];
      scheduled := scheduled[1..];
      store.Save(messages, writable);
    }
  }
}
