/** The chatbot endpoints: a keyword-rule reply (or a language-model reply
    when a client is configured), the two-row chat log each message leaves,
    the history of a chat session, and the context the model is given. */
module ChatApi {
  import opened Wrappers
  import opened DbOps
  import opened Db
  import Sorting
  import opened PyText

  // --------------------------------------------------------- generate_reply

  const Greeting := "Hi! How can I help you with cars or picnic destinations today?"
  const PricesLine := "Our car prices vary by model; you can view details on the car page."
  const DestinationsLine := "Browse our destinations for photos, descriptions, and starting prices."
  const DefaultLine := "Thanks for your message! We'll get back with more details."

  /** The text the rules look at: stripped and lower-cased. */
  function Normalized(message: string): string
  {
    Lower(Strip(message))
  }

  predicate Greets(text: string)
  {
    Contains(text, "hello") || Contains(text, "hi") || Contains(text, "hey")
  }

  /** `generate_reply`: the first rule that matches decides. */
  function GenerateReply(message: string): (r: string)
    ensures r == Greeting <==> Greets(Normalized(message))
    ensures r == PricesLine <==>
              !Greets(Normalized(message)) && Contains(Normalized(message), "car") && Contains(Normalized(message), "price")
    ensures r == DestinationsLine <==>
              !Greets(Normalized(message)) && !(Contains(Normalized(message), "car") && Contains(Normalized(message), "price")) &&
              (Contains(Normalized(message), "spot") || Contains(Normalized(message), "destination"))
    ensures r in {Greeting, PricesLine, DestinationsLine, DefaultLine}
  {
    var text := Normalized(message);
    assert |Greeting| == 62 && |PricesLine| == 67 && |DestinationsLine| == 70 && |DefaultLine| == 58;
    if Greets(text) then Greeting
    else if Contains(text, "car") && Contains(text, "price") then PricesLine
    else if Contains(text, "spot") || Contains(text, "destination") then DestinationsLine
    else DefaultLine
  }

  /** A keyword inside a longer one matches wherever the longer one does. */
  lemma ContainsWithin(text: string, outer: string, inner: string, at: int)
    requires Contains(text, outer) && OccursAt(outer, inner, at)
    ensures Contains(text, inner)
  {
    var i :| 0 <= i <= |text| - |outer| && OccursAt(text, outer, i);
    forall k | 0 <= k < |inner|
      ensures text[i + at + k] == inner[k]
    {
      assert text[i + k + at] == text[i..i + |outer|][k + at];
      assert inner[k] == outer[at..at + |inner|][k];
    }
    assert OccursAt(text, inner, i + at);
  }

  /** Matching is by substring: a message mentioning any word that holds
      "hi" is greeted, whatever else it asks. */
  lemma HiInsideGreets(message: string, word: string, at: int)
    requires Contains(Normalized(message), word) && OccursAt(word, "hi", at)
    ensures GenerateReply(message) == Greeting
  {
    ContainsWithin(Normalized(message), word, "hi", at);
  }

  /** "this" is such a word, so "this car price" is greeted rather than
      told about prices. */
  lemma ThisHoldsHi()
    ensures OccursAt("this", "hi", 1)
  {
    assert "this"[1..3] == "hi";
  }

  // ------------------------------------------------------------- chat logs

  /** A row of `chat_logs`. */
  datatype ChatLog = ChatLog(sessionId: string, userEmail: Option<string>, role: string, message: string,
                             createdAt: string)

  /** The row as SQL returns it, for `row_to_dict`. */
  function LogRow(l: ChatLog): (r: Row)
    ensures r.Keys == {"session_id", "user_email", "role", "message", "created_at"}
  {
    map["session_id" := SqlText(l.sessionId),
        "user_email" := (if l.userEmail.Some? then SqlText(l.userEmail.value) else SqlNull),
        "role" := SqlText(l.role), "message" := SqlText(l.message), "created_at" := SqlText(l.createdAt)]
  }

  /** The ids of a chat session's rows, in id order. */
  function SessionScan(logs: map<int, ChatLog>, nextId: int, sessionId: string): seq<int>
  {
    Sorting.ScanOrder(set id | id in logs && logs[id].sessionId == sessionId, 1, nextId)
  }

  /** `LIMIT n`: SQLite reads a negative limit as no limit. */
  function Limit(xs: seq<int>, n: int): (r: seq<int>)
    ensures n < 0 ==> r == xs
    ensures n >= 0 ==> |r| == if n < |xs| then n else |xs|
    ensures r == xs[..|r|]
  {
    if n < 0 || n >= |xs| then xs else xs[..n]
  }

  function Reverse(xs: seq<int>): (r: seq<int>)
    ensures |r| == |xs| && forall i | 0 <= i < |xs| :: r[i] == xs[|xs| - 1 - i]
  {
    seq(|xs|, i requires 0 <= i < |xs| => xs[|xs| - 1 - i])
  }

  /** `ORDER BY id DESC LIMIT n`, then `reversed(...)`. */
  function RecentIds(logs: map<int, ChatLog>, nextId: int, sessionId: string, n: int): seq<int>
  {
    Reverse(Limit(Sorting.SortByIdDesc(SessionScan(logs, nextId, sessionId)), n))
  }

  /** Inserting `x` below every key puts it last. */
  lemma {:induction false} InsertSmallest(x: int, ys: seq<int>)
    requires forall k | 0 <= k < |ys| :: x < ys[k]
    ensures Sorting.InsertDesc(x, ys, y => y) == ys + [x]
    decreases |ys|
  {
    if ys != [] {
      InsertSmallest(x, ys[1..]);
      assert ys == [ys[0]] + ys[1..];
    }
  }

  /** Over distinct ids, `ORDER BY id DESC` reverses the scan. */
  lemma {:induction false} ByIdDescReverses(xs: seq<int>)
    requires Sorting.Ascending(xs)
    ensures Sorting.SortByIdDesc(xs) == Reverse(xs)
    decreases |xs|
  {
    if xs != [] {
      var tail := xs[1..];
      assert Sorting.Ascending(tail);
      ByIdDescReverses(tail);
      InsertSmallest(xs[0], Reverse(tail));
      assert Sorting.SortByIdDesc(xs) == Sorting.InsertDesc(xs[0], Sorting.SortByIdDesc(tail), y => y);
      assert Reverse(tail) + [xs[0]] == Reverse(xs);
    }
  }

  /** The most recent `n` rows of the session, oldest first: a suffix of
      the session's rows in id order (all of them when `n` is negative). */
  lemma RecentIdsSuffix(logs: map<int, ChatLog>, nextId: int, sessionId: string, n: int)
    ensures var scan := SessionScan(logs, nextId, sessionId);
            var m := if n < 0 || n > |scan| then |scan| else n;
            RecentIds(logs, nextId, sessionId, n) == scan[|scan| - m..]
  {
    var scan := SessionScan(logs, nextId, sessionId);
    ByIdDescReverses(scan);
    var m := if n < 0 || n > |scan| then |scan| else n;
    var recent := RecentIds(logs, nextId, sessionId, n);
    assert |recent| == m;
    forall i | 0 <= i < m
      ensures recent[i] == scan[|scan| - m + i]
    {
    }
  }

  /** Every recent id is a row of the session. */
  lemma RecentIdsIn(logs: map<int, ChatLog>, nextId: int, sessionId: string, n: int)
    ensures forall i | 0 <= i < |RecentIds(logs, nextId, sessionId, n)| ::
              RecentIds(logs, nextId, sessionId, n)[i] in logs &&
              logs[RecentIds(logs, nextId, sessionId, n)[i]].sessionId == sessionId
  {
    RecentIdsSuffix(logs, nextId, sessionId, n);
    var scan := SessionScan(logs, nextId, sessionId);
    assert forall k | 0 <= k < |scan| :: scan[k] in scan;
  }

  /** `history`: the last `limit` rows of the session, oldest first. */
  function History(logs: map<int, ChatLog>, nextId: int, sessionId: string, limit: int)
    : (r: seq<map<string, PyValue>>)
    ensures |r| == |RecentIds(logs, nextId, sessionId, limit)|
    ensures forall i | 0 <= i < |r| ::
              var id := RecentIds(logs, nextId, sessionId, limit)[i];
              id in logs && logs[id].sessionId == sessionId && r[i] == DictOf(LogRow(logs[id]))
  {
    var ids := RecentIds(logs, nextId, sessionId, limit);
    RecentIdsIn(logs, nextId, sessionId, limit);
    FetchAllDicts(seq(|ids|, i requires 0 <= i < |ids| => LogRow(logs[ids[i]])))
  }

  /** The history is chronological, holds only the session's rows, and
      ends with its newest row. */
  lemma HistoryChronological(logs: map<int, ChatLog>, nextId: int, sessionId: string, limit: int)
    ensures var ids := RecentIds(logs, nextId, sessionId, limit);
            Sorting.Ascending(ids) &&
            forall i | 0 <= i < |ids| :: ids[i] in logs && logs[ids[i]].sessionId == sessionId
    ensures var scan := SessionScan(logs, nextId, sessionId);
            var ids := RecentIds(logs, nextId, sessionId, limit);
            scan != [] && limit != 0 ==> ids != [] && ids[|ids| - 1] == scan[|scan| - 1]
  {
    RecentIdsSuffix(logs, nextId, sessionId, limit);
    RecentIdsIn(logs, nextId, sessionId, limit);
  }

  // ---------------------------------------------------- generate_ai_reply

  /** One entry of the `messages` list sent to the model. */
  datatype ChatMessage = ChatMessage(role: string, content: string)

  const SystemPrompt := ChatMessage("system",
    "You are a helpful travel and car rental assistant for a website. " +
    "Help users choose cars and picnic destinations around India. " +
    "Be concise and friendly. Prices are in INR unless stated.")

  /** The rows the context loop keeps: user and assistant turns, in order. */
  function Turns(logs: map<int, ChatLog>, ids: seq<int>): (r: seq<ChatMessage>)
    requires forall i | 0 <= i < |ids| :: ids[i] in logs
    ensures |r| <= |ids|
    ensures forall i | 0 <= i < |r| :: r[i].role == "user" || r[i].role == "assistant"
    decreases |ids|
  {
    if ids == [] then []
    else
      var l := logs[ids[0]];
      (if l.role == "user" || l.role == "assistant" then [ChatMessage(l.role, l.message)] else []) +
      Turns(logs, ids[1..])
  }

  /** Filtering a concatenation filters each part. */
  lemma {:induction false} TurnsAppend(logs: map<int, ChatLog>, a: seq<int>, b: seq<int>)
    requires forall i | 0 <= i < |a| :: a[i] in logs
    requires forall i | 0 <= i < |b| :: b[i] in logs
    ensures forall i | 0 <= i < |a + b| :: (a + b)[i] in logs
    ensures Turns(logs, a + b) == Turns(logs, a) + Turns(logs, b)
    decreases |a|
  {
    assert forall i | 0 <= i < |a + b| :: (a + b)[i] in logs by {
      forall i | 0 <= i < |a + b|
        ensures (a + b)[i] in logs
      {
        if i < |a| { assert (a + b)[i] == a[i]; } else { assert (a + b)[i] == b[i - |a|]; }
      }
    }
    if a == [] {
      assert a + b == b;
    } else {
      assert (a + b)[1..] == a[1..] + b;
      TurnsAppend(logs, a[1..], b);
    }
  }

  /** The loop of `generate_ai_reply` over the rows in chronological order:
      user and assistant rows become messages, other roles are skipped. */
  method BuildHistory(logs: map<int, ChatLog>, ids: seq<int>) returns (history: seq<ChatMessage>)
    requires forall i | 0 <= i < |ids| :: ids[i] in logs
    ensures history == Turns(logs, ids)
  {
    history := [];
    var i := 0;
    while i < |ids|
      invariant 0 <= i <= |ids|
      invariant history == Turns(logs, ids[..i])
    {
      var l := logs[ids[i]];
      TurnsAppend(logs, ids[..i], [ids[i]]);
      assert ids[..i + 1] == ids[..i] + [ids[i]];
      if l.role == "user" || l.role == "assistant" {
        history := history + [ChatMessage(if l.role == "assistant" then "assistant" else "user", l.message)];
      }
      i := i + 1;
    }
    assert ids[..i] == ids;
  }

  /** The messages `generate_ai_reply` sends: the system prompt, the
      session's user and assistant turns among its last 8 rows, and the
      current message. */
  function Context(logs: map<int, ChatLog>, nextId: int, sessionId: string, message: string)
    : (r: seq<ChatMessage>)
    ensures 2 <= |r| <= 10 && r[0] == SystemPrompt && r[|r| - 1] == ChatMessage("user", message)
    ensures forall i | 0 < i < |r| :: r[i].role == "user" || r[i].role == "assistant"
  {
    var ids := RecentIds(logs, nextId, sessionId, 8);
    RecentIdsIn(logs, nextId, sessionId, 8);
    [SystemPrompt] + Turns(logs, ids) + [ChatMessage("user", message)]
  }

  /** What the model call gives back: it raises, returns no choices, or
      the first choice's content (possibly `None`). */
  datatype Completion = Raised | NoChoices | Choice(content: Option<string>)

  /** `generate_ai_reply`: the model's answer cut to 1200 characters, "" for
      no answer, and the rule-based reply when the call raises. */
  function AiReply(logs: map<int, ChatLog>, nextId: int, sessionId: string, message: string,
                   complete: seq<ChatMessage> -> Completion)
    : (r: string)
    ensures |r| <= 1200 || r == GenerateReply(message)
    ensures complete(Context(logs, nextId, sessionId, message)).Raised? ==> r == GenerateReply(message)
    ensures complete(Context(logs, nextId, sessionId, message)).NoChoices? ==> r == ""
    ensures complete(Context(logs, nextId, sessionId, message)) == Choice(None) ==> r == ""
  {
    match complete(Context(logs, nextId, sessionId, message))
    case Raised => GenerateReply(message)
    case NoChoices => ""
    case Choice(content) =>
      var text := if content.Some? then content.value else "";
      if |text| <= 1200 then text else text[..1200]
  }

  /** A model answer is returned as a prefix of itself, at most 1200 long. */
  lemma AiReplyCut(logs: map<int, ChatLog>, nextId: int, sessionId: string, message: string,
                   complete: seq<ChatMessage> -> Completion, answer: string)
    requires complete(Context(logs, nextId, sessionId, message)) == Choice(Some(answer))
    ensures var r := AiReply(logs, nextId, sessionId, message, complete);
            |r| == (if |answer| <= 1200 then |answer| else 1200) && r == answer[..|r|]
  {
  }

  // ------------------------------------------------------------------ chat

  /** `user_email` of the request: looked up only for a non-empty token
      that names a session. `sessions` maps each token to its session's
      (nullable) `user_email`. */
  function UserEmail(sessions: map<string, Option<string>>, token: Option<string>): (r: Option<string>)
    ensures r.Some? ==> token.Some? && token.value != "" && token.value in sessions
    ensures token.Some? && token.value in sessions && token.value != "" ==> r == sessions[token.value]
  {
    if token.Some? && token.value != "" && token.value in sessions then sessions[token.value] else None
  }

  datatype ChatReply = ChatReply(reply: string, userEmail: Option<string>)

  /** The reply as `chat` computes it, from the log that already holds the
      user's message. */
  function ReplyText(logs: map<int, ChatLog>, nextId: int, sessionId: string, message: string,
                     client: bool, complete: seq<ChatMessage> -> Completion): string
  {
    if client then AiReply(logs, nextId, sessionId, message, complete) else GenerateReply(message)
  }

  /** `chat`: log the user's message, compute the reply, log the reply;
      both rows carry the request's session and e-mail, and the returned
      reply is the logged one. `now1`/`now2` are the two clock readings. */
  method Chat(logs: Table<ChatLog>, sessions: map<string, Option<string>>, sessionId: string, message: string,
              token: Option<string>, client: bool, complete: seq<ChatMessage> -> Completion,
              now1: string, now2: string)
    returns (r: ChatReply)
    requires logs.Valid()
    modifies logs
    ensures logs.Valid() && logs.nextId == old(logs.nextId) + 2
    ensures var email := UserEmail(sessions, token);
            var afterUser := old(logs.rows)[old(logs.nextId) := ChatLog(sessionId, email, "user", message, now1)];
            var text := ReplyText(afterUser, old(logs.nextId) + 1, sessionId, message, client, complete);
            r == ChatReply(text, email) &&
            logs.rows == afterUser[old(logs.nextId) + 1 := ChatLog(sessionId, email, "assistant", text, now2)]
  {
    var email := UserEmail(sessions, token);
    var userId := logs.Insert(ChatLog(sessionId, email, "user", message, now1));
    var text := ReplyText(logs.rows, logs.nextId, sessionId, message, client, complete);
    var replyId := logs.Insert(ChatLog(sessionId, email, "assistant", text, now2));
    r := ChatReply(text, email);
  }

  /** Rows outside `[lo, hi)` do not affect a scan of that range. */
  lemma {:induction false} ScanOrderWithin(s1: set<int>, s2: set<int>, lo: int, hi: int)
    requires forall x | lo <= x < hi :: x in s1 <==> x in s2
    ensures Sorting.ScanOrder(s1, lo, hi) == Sorting.ScanOrder(s2, lo, hi)
    decreases hi - lo
  {
    if lo < hi {
      ScanOrderWithin(s1, s2, lo, hi - 1);
    }
  }

  /** Logging a row of the session appends its id to the session's scan. */
  lemma ScanAfterLog(logs: map<int, ChatLog>, nextId: int, l: ChatLog)
    requires 1 <= nextId && forall id | id in logs :: 1 <= id < nextId
    ensures SessionScan(logs[nextId := l], nextId + 1, l.sessionId) == SessionScan(logs, nextId, l.sessionId) + [nextId]
  {
    var after := logs[nextId := l];
    var s1 := set id | id in after && after[id].sessionId == l.sessionId;
    var s0 := set id | id in logs && logs[id].sessionId == l.sessionId;
    assert nextId in s1;
    ScanOrderWithin(s1, s0, 1, nextId);
  }

  /** As written, the model sees the current message twice: `chat` logs it
      before `generate_ai_reply` reads the last rows, and the loop then
      appends it again. */
  lemma ContextRepeatsMessage(logs: map<int, ChatLog>, nextId: int, sessionId: string, email: Option<string>,
                              message: string, now: string)
    requires 1 <= nextId && forall id | id in logs :: 1 <= id < nextId
    ensures var afterUser := logs[nextId := ChatLog(sessionId, email, "user", message, now)];
            var ctx := Context(afterUser, nextId + 1, sessionId, message);
            |ctx| >= 3 && ctx[|ctx| - 2] == ChatMessage("user", message) && ctx[|ctx| - 1] == ChatMessage("user", message)
  {
    var l := ChatLog(sessionId, email, "user", message, now);
    var afterUser := logs[nextId := l];
    var ids := RecentIds(afterUser, nextId + 1, sessionId, 8);
    assert ids != [] && ids[|ids| - 1] == nextId by {
      ScanAfterLog(logs, nextId, l);
      HistoryChronological(afterUser, nextId + 1, sessionId, 8);
    }
    assert afterUser[nextId] == l;
    ContextLastTurn(afterUser, nextId + 1, sessionId, message);
  }

  /** When the newest recent row is a user turn, the context's next-to-last
      message is that turn. */
  lemma ContextLastTurn(logs: map<int, ChatLog>, nextId: int, sessionId: string, message: string)
    requires var ids := RecentIds(logs, nextId, sessionId, 8);
             ids != [] && ids[|ids| - 1] in logs && logs[ids[|ids| - 1]].role == "user"
    ensures var ids := RecentIds(logs, nextId, sessionId, 8);
            var ctx := Context(logs, nextId, sessionId, message);
            |ctx| >= 3 && ctx[|ctx| - 2] == ChatMessage("user", logs[ids[|ids| - 1]].message)
  {
    var ids := RecentIds(logs, nextId, sessionId, 8);
    RecentIdsIn(logs, nextId, sessionId, 8);
    var t := Turns(logs, ids);
    TurnsEndWith(logs, ids);
    var ctx := Context(logs, nextId, sessionId, message);
    assert ctx == [SystemPrompt] + t + [ChatMessage("user", message)];
    assert ctx[|ctx| - 2] == t[|t| - 1];
  }

  /** The turns of ids ending in a user row end with that row's message. */
  lemma {:induction false} TurnsEndWith(logs: map<int, ChatLog>, ids: seq<int>)
    requires ids != [] && forall i | 0 <= i < |ids| :: ids[i] in logs
    requires logs[ids[|ids| - 1]].role == "user"
    ensures var t := Turns(logs, ids);
            t != [] && t[|t| - 1] == ChatMessage("user", logs[ids[|ids| - 1]].message)
    decreases |ids|
  {
    if |ids| > 1 {
      TurnsEndWith(logs, ids[1..]);
    }
  }

  /** The context as intended: built before the user's message is logged,
      so its history holds only earlier rows of the session. */
  function ContextIds(logs: map<int, ChatLog>, nextId: int, sessionId: string): seq<int>
  {
    RecentIds(logs, nextId, sessionId, 8)
  }

  /** `chat` with the reply computed from the log as it was before the
      request, so the current message is sent once, last. */
  method ChatFixed(logs: Table<ChatLog>, sessions: map<string, Option<string>>, sessionId: string, message: string,
                   token: Option<string>, client: bool, complete: seq<ChatMessage> -> Completion,
                   now1: string, now2: string)
    returns (r: ChatReply)
    requires logs.Valid()
    modifies logs
    ensures logs.Valid() && logs.nextId == old(logs.nextId) + 2
    ensures var email := UserEmail(sessions, token);
            var text := ReplyText(old(logs.rows), old(logs.nextId), sessionId, message, client, complete);
            r == ChatReply(text, email) &&
            logs.rows == old(logs.rows)[old(logs.nextId) := ChatLog(sessionId, email, "user", message, now1)]
                                       [old(logs.nextId) + 1 := ChatLog(sessionId, email, "assistant", text, now2)]
  {
    var email := UserEmail(sessions, token);
    var text := ReplyText(logs.rows, logs.nextId, sessionId, message, client, complete);
    var userId := logs.Insert(ChatLog(sessionId, email, "user", message, now1));
    var replyId := logs.Insert(ChatLog(sessionId, email, "assistant", text, now2));
    r := ChatReply(text, email);
  }

  /** In the fixed order every history turn comes from a row logged
      before the request, so the new message is not among them. */
  lemma FixedContextIsEarlier(logs: map<int, ChatLog>, nextId: int, sessionId: string)
    requires forall id | id in logs :: 1 <= id < nextId
    ensures forall i | 0 <= i < |ContextIds(logs, nextId, sessionId)| :: ContextIds(logs, nextId, sessionId)[i] < nextId
    ensures forall i | 0 <= i < |ContextIds(logs, nextId, sessionId)| :: ContextIds(logs, nextId, sessionId)[i] in logs
  {
    RecentIdsIn(logs, nextId, sessionId, 8);
  }
}
