/** Context compression of a coding-agent session and the ledger of its counters. */
module SessionContext {
  import opened Common

  const RECENT_MESSAGE_KEEP: nat := 6
  const COMPRESS_THRESHOLD: real := 0.85
  const MIN_TOKEN_BUDGET: nat := 4096
  const MAX_TOKEN_BUDGET: nat := 200000

  function Clamped(budget: int): (r: nat)
    ensures MIN_TOKEN_BUDGET <= r <= MAX_TOKEN_BUDGET
    ensures MIN_TOKEN_BUDGET <= budget <= MAX_TOKEN_BUDGET ==> r == budget
  {
    if budget < MIN_TOKEN_BUDGET then MIN_TOKEN_BUDGET
    else if budget > MAX_TOKEN_BUDGET then MAX_TOKEN_BUDGET
    else budget
  }

  /** The budget of a new session: what the caller asks for, or 80 percent of the context length found
      for the model; neither gets past the bounds. */
  function BudgetFor(asked: int, contextLength: int): (r: nat)
    ensures 4096 <= r <= 200000
    ensures 4096 <= asked <= 200000 ==> r == asked
    ensures 0 < asked < 4096 || (asked <= 0 && 4 * contextLength < 5 * 4096) ==> r == 4096
    ensures asked > 200000 || (asked <= 0 && 4 * contextLength > 5 * 200000) ==> r == 200000
    ensures asked <= 0 && 5 * 4096 <= 4 * contextLength <= 5 * 200000 ==>
              5 * r <= 4 * contextLength < 5 * (r + 1)
  {
    if asked > 0 then Clamped(asked) else Clamped((contextLength as real * 0.8).Floor)
  }

  /** One token per four bytes, at least one for any text. */
  function EstimateTokens(text: string): nat {
    if |text| == 0 then 0
    else if |text| / 4 < 1 then 1
    else |text| / 4
  }

  /** No text costs nothing, up to seven characters one token, and from there on four a token. */
  lemma TokensOf(text: string)
    ensures EstimateTokens(text) == 0 <==> text == ""
    ensures 1 <= |text| < 8 ==> EstimateTokens(text) == 1
    ensures |text| >= 4 ==> 4 * EstimateTokens(text) <= |text| < 4 * EstimateTokens(text) + 4
  {
  }

  // The stored token_count of every message is EstimateTokens of its content.
  datatype Message = Message(id: string, role: string, content: string, isSummary: bool) {
    function TokenCount(): nat {
      EstimateTokens(content)
    }
  }

  predicate Original(m: Message) {
    m.role == "system" && !m.isSummary
  }

  // ---------------------------------------------------------------- the split point

  /** Messages other than original system messages. */
  function Conversation(msgs: seq<Message>): nat {
    if msgs == [] then 0
    else Conversation(msgs[..|msgs| - 1]) + if Original(msgs[|msgs| - 1]) then 0 else 1
  }

  /** Index of the `k`-th message other than the original system messages. */
  function PositionOf(msgs: seq<Message>, k: nat): (i: nat)
    requires 1 <= k <= Conversation(msgs)
    ensures i < |msgs| && !Original(msgs[i]) && Conversation(msgs[..i]) == k - 1
  {
    var prefix := msgs[..|msgs| - 1];
    if Conversation(prefix) >= k then
      var i := PositionOf(prefix, k);
      assert prefix[..i] == msgs[..i];
      i
    else |prefix|
  }

  /** One past the last original system message, 0 if there is none. */
  function AfterLastOriginal(msgs: seq<Message>): (i: nat)
    ensures i <= |msgs|
  {
    if msgs == [] then 0
    else if Original(msgs[|msgs| - 1]) then |msgs|
    else AfterLastOriginal(msgs[..|msgs| - 1])
  }

  /** Where compression cuts: at the sixth conversation message, or after the last original
      system message when there are fewer than six. */
  function SplitIdx(msgs: seq<Message>): (i: nat)
    ensures i <= |msgs|
  {
    if Conversation(msgs) >= RECENT_MESSAGE_KEEP then PositionOf(msgs, RECENT_MESSAGE_KEEP)
    else AfterLastOriginal(msgs)
  }

  method FindSplit(msgs: seq<Message>) returns (splitIdx: nat)
    ensures splitIdx == SplitIdx(msgs)
  {
    splitIdx := 0;
    var keepCount := 0;
    for i := 0 to |msgs|
      invariant keepCount == Conversation(msgs[..i]) < RECENT_MESSAGE_KEEP
      invariant splitIdx == AfterLastOriginal(msgs[..i])
    {
      Extend(msgs, i);
      if msgs[i].role == "system" && !msgs[i].isSummary {
        splitIdx := i + 1;
        continue;
      }
      keepCount := keepCount + 1;
      if keepCount >= RECENT_MESSAGE_KEEP {
        PositionIs(msgs, RECENT_MESSAGE_KEEP, i);
        return i;
      }
    }
    assert msgs[..|msgs|] == msgs;
  }

  lemma Extend(msgs: seq<Message>, i: nat)
    requires i < |msgs|
    ensures Conversation(msgs[..i + 1]) == Conversation(msgs[..i]) + if Original(msgs[i]) then 0 else 1
    ensures AfterLastOriginal(msgs[..i + 1]) == if Original(msgs[i]) then i + 1 else AfterLastOriginal(msgs[..i])
  {
    assert msgs[..i + 1][..i] == msgs[..i];
  }

  lemma {:induction false} ConversationGrows(msgs: seq<Message>, i: nat, k: nat)
    requires i <= k <= |msgs|
    ensures Conversation(msgs[..i]) <= Conversation(msgs[..k]) <= Conversation(msgs[..i]) + k - i
    decreases k - i
  {
    if i < k {
      ConversationGrows(msgs, i, k - 1);
      Extend(msgs, k - 1);
    }
  }

  lemma PositionIs(msgs: seq<Message>, k: nat, i: nat)
    requires i < |msgs| && !Original(msgs[i]) && Conversation(msgs[..i]) == k - 1
    ensures Conversation(msgs) >= k && PositionOf(msgs, k) == i
  {
    Extend(msgs, i);
    ConversationGrows(msgs, i + 1, |msgs|);
    assert msgs[..|msgs|] == msgs;
    var p := PositionOf(msgs, k);
    Extend(msgs, p);
    if p < i {
      ConversationGrows(msgs, p + 1, i);
    } else if i < p {
      ConversationGrows(msgs, i + 1, p);
    }
  }

  /** When there are more than eight messages the cut removes at least three of them, message 0
      stays, and at most five of those removed are not original system messages. */
  lemma CompressionShape(msgs: seq<Message>)
    requires |msgs| > RECENT_MESSAGE_KEEP + 2
    ensures 4 <= SplitIdx(msgs)
    ensures Conversation(msgs[..SplitIdx(msgs)]) <= RECENT_MESSAGE_KEEP - 1
  {
    var i := SplitIdx(msgs);
    ConversationGrows(msgs, 0, i);
    if Conversation(msgs) < RECENT_MESSAGE_KEEP {
      ConversationGrows(msgs, i, |msgs|);
      assert msgs[..|msgs|] == msgs;
      AllConversationAfter(msgs);
    }
  }

  lemma {:induction false} AllConversationAfter(msgs: seq<Message>)
    ensures var i := AfterLastOriginal(msgs);
            Conversation(msgs) == Conversation(msgs[..i]) + |msgs| - i
    decreases |msgs|
  {
    assert msgs[..|msgs|] == msgs;
    if msgs != [] && !Original(msgs[|msgs| - 1]) {
      var prefix := msgs[..|msgs| - 1];
      AllConversationAfter(prefix);
      assert prefix[..AfterLastOriginal(prefix)] == msgs[..AfterLastOriginal(prefix)];
    }
  }

  lemma CutLeavesSixIff(msgs: seq<Message>)
    requires |msgs| > RECENT_MESSAGE_KEEP + 2
    ensures SplitIdx(msgs) <= |msgs| - RECENT_MESSAGE_KEEP
            <==> Conversation(msgs[..|msgs| - RECENT_MESSAGE_KEEP + 1]) >= RECENT_MESSAGE_KEEP
  {
    var i := SplitIdx(msgs);
    var n := |msgs| - RECENT_MESSAGE_KEEP + 1;
    assert msgs[..|msgs|] == msgs;
    if Conversation(msgs) >= RECENT_MESSAGE_KEEP {
      Extend(msgs, i);
      if i < n {
        ConversationGrows(msgs, i + 1, n);
      } else {
        ConversationGrows(msgs, n, i);
      }
    } else {
      AllConversationAfter(msgs);
      ConversationGrows(msgs, n, |msgs|);
    }
  }

  // ---------------------------------------------------------------- the message table

  predicate HasId(rows: seq<Message>, id: string) {
    exists i :: 0 <= i < |rows| && rows[i].id == id
  }

  predicate PrimaryKey(rows: seq<Message>) {
    forall i, k | 0 <= i < k < |rows| :: rows[i].id != rows[k].id
  }

  // A statement on the database, and whether the database fails it.
  datatype Write = Write(m: Message, fault: bool)

  predicate Goes(rows: seq<Message>, w: Write) {
    !w.fault && !HasId(rows, w.m.id)
  }

  function Inserted(rows: seq<Message>, w: Write): seq<Message> {
    if Goes(rows, w) then rows + [w.m] else rows
  }

  /** The table after compression at `splitIdx`, if its transaction commits. */
  function CutAt(rows: seq<Message>, splitIdx: nat): seq<Message>
    requires 1 < splitIdx <= |rows|
  {
    [rows[0]] + rows[splitIdx..]
  }

  class MessageStore {
    var rows: seq<Message>

    constructor ()
      ensures rows == []
    {
      rows := [];
    }

    method Insert(w: Write) returns (ok: bool)
      modifies this
      ensures ok == Goes(old(rows), w) && rows == Inserted(old(rows), w)
    {
      ok := !w.fault && !HasId(rows, w.m.id);
      if ok {
        rows := rows + [w.m];
      }
    }

    method DeleteById(id: string)
      requires PrimaryKey(rows)
      modifies this
      ensures forall i | 0 <= i < |old(rows)| && old(rows)[i].id == id :: rows == RemoveAt(old(rows), i)
      ensures !HasId(old(rows), id) ==> rows == old(rows)
    {
      for i := 0 to |rows|
        invariant rows == old(rows)
        invariant !HasId(rows[..i], id)
      {
        if rows[i].id == id {
          rows := RemoveAt(rows, i);
          return;
        }
        assert forall k | 0 <= k <= i :: rows[..i + 1][k] == rows[k];
        assert forall k | 0 <= k < i :: rows[..i][k] == rows[k];
      }
      assert rows[..|rows|] == rows;
    }

    /** Deletes messages 1 to splitIdx-1 and appends the summary, in one transaction. */
    method CompressMessages(splitIdx: nat, summary: Write) returns (ok: bool)
      requires PrimaryKey(rows)
      modifies this
      ensures var n := if splitIdx > |old(rows)| then |old(rows)| else splitIdx;
              if n <= 1 then ok && rows == old(rows)
              else
                && ok == Goes(CutAt(old(rows), n), summary)
                && rows == if ok then CutAt(old(rows), n) + [summary.m] else old(rows)
    {
      var msgs := rows;
      var n := if splitIdx > |msgs| then |msgs| else splitIdx;
      if n <= 1 {
        return true;
      }
      for i := 1 to n
        invariant rows == [msgs[0]] + msgs[i..]
      {
        assert rows[1] == msgs[i];
        DistinctCut(msgs, i);
        DeleteById(msgs[i].id);
        assert RemoveAt([msgs[0]] + msgs[i..], 1) == [msgs[0]] + msgs[i + 1..];
      }
      ok := Insert(summary);
      if !ok {
        rows := msgs;
      }
    }
  }

  lemma InsertKeepsKey(rows: seq<Message>, w: Write)
    requires PrimaryKey(rows)
    ensures PrimaryKey(Inserted(rows, w))
  {
  }

  lemma DistinctCut(rows: seq<Message>, i: nat)
    requires PrimaryKey(rows) && 1 <= i <= |rows|
    ensures PrimaryKey([rows[0]] + rows[i..])
  {
    var t := [rows[0]] + rows[i..];
    assert forall k | 0 < k < |t| :: t[k] == rows[i + k - 1];
  }

  // ---------------------------------------------------------------- the session

  datatype Session = Session(
    rows: seq<Message>, totalMessages: nat, totalTokens: nat, compressions: nat, tokenBudget: nat)

  function TokenSum(rows: seq<Message>): nat {
    if rows == [] then 0 else TokenSum(rows[..|rows| - 1]) + rows[|rows| - 1].TokenCount()
  }

  function Threshold(budget: nat): int {
    (budget as real * COMPRESS_THRESHOLD).Floor
  }

  predicate OverThreshold(s: Session) {
    s.totalTokens > Threshold(s.tokenBudget)
  }

  lemma OverByPercent(s: Session)
    ensures OverThreshold(s) <==> 100 * s.totalTokens > 85 * s.tokenBudget
  {
  }

  /** Compression goes through with this summary; None stands for a failed summary call. */
  predicate Compresses(s: Session, summary: Option<Write>) {
    && OverThreshold(s) && |s.rows| > RECENT_MESSAGE_KEEP + 2
    && summary.Some? && summary.value.m.content != ""
    && SplitIdx(s.rows) > 1 && Goes(CutAt(s.rows, SplitIdx(s.rows)), summary.value)
  }

  /** Above 85 percent of the budget and with more than eight messages, a summary that is neither empty
      nor fails to be stored always compresses; nothing else does. */
  lemma CompressesIff(s: Session, summary: Option<Write>)
    ensures Compresses(s, summary) <==>
            && 100 * s.totalTokens > 85 * s.tokenBudget && |s.rows| > 8
            && summary.Some? && summary.value.m.content != "" && !summary.value.fault
            && s.rows[0].id != summary.value.m.id
            && forall k | SplitIdx(s.rows) <= k < |s.rows| :: s.rows[k].id != summary.value.m.id
  {
    OverByPercent(s);
    if |s.rows| > 8 {
      CompressionShape(s.rows);
      if summary.Some? {
        IdAfterCut(s.rows, SplitIdx(s.rows), summary.value.m.id);
      }
    }
  }

  lemma IdAfterCut(rows: seq<Message>, cut: nat, id: string)
    requires 1 < cut <= |rows|
    ensures HasId(CutAt(rows, cut), id) <==>
            rows[0].id == id || exists k :: cut <= k < |rows| && rows[k].id == id
  {
    var t := CutAt(rows, cut);
    assert t[0] == rows[0];
    assert forall i | 0 < i < |t| :: t[i] == rows[cut + i - 1];
    assert forall k | cut <= k < |rows| :: rows[k] == t[k - cut + 1];
  }

  /** The token total is counted afresh only if the table can be read again after the commit. */
  function Compressed(s: Session, summary: Option<Write>, reread: bool): Session {
    if Compresses(s, summary) then
      var rows := CutAt(s.rows, SplitIdx(s.rows)) + [summary.value.m];
      s.(rows := rows, totalTokens := if reread then TokenSum(rows) else s.totalTokens)
    else s
  }

  /** An effective compression keeps message 0 and everything from the cut on, in order, puts one
      summary last, drops at most five conversation messages, and shortens the table by two or more. */
  lemma CompressionEffect(s: Session, summary: Option<Write>, reread: bool)
    requires Compresses(s, summary)
    ensures var rows := Compressed(s, summary, reread).rows;
            var cut := SplitIdx(s.rows);
            && 4 <= cut && |rows| == |s.rows| - cut + 2 <= |s.rows| - 2
            && rows[0] == s.rows[0] && rows[|rows| - 1] == summary.value.m
            && (forall k | cut <= k < |s.rows| :: rows[k - cut + 1] == s.rows[k])
            && Conversation(s.rows[1..cut]) <= RECENT_MESSAGE_KEEP - 1
  {
    CompressionShape(s.rows);
    ConversationTail(s.rows[..SplitIdx(s.rows)]);
    assert s.rows[..SplitIdx(s.rows)][1..] == s.rows[1..SplitIdx(s.rows)];
  }

  lemma {:induction false} ConversationTail(msgs: seq<Message>)
    requires msgs != []
    ensures Conversation(msgs[1..]) <= Conversation(msgs)
    decreases |msgs|
  {
    if |msgs| > 1 {
      ConversationTail(msgs[..|msgs| - 1]);
      assert msgs[1..][..|msgs| - 2] == msgs[..|msgs| - 1][1..];
    }
  }

  lemma SurvivesIff(rows: seq<Message>, cut: nat, m: Message, k: nat)
    requires PrimaryKey(rows) && !HasId(rows, m.id) && 1 < cut <= |rows| && 0 < k < |rows|
    ensures rows[k] in CutAt(rows, cut) + [m] <==> k >= cut
  {
    var t := CutAt(rows, cut) + [m];
    if k >= cut {
      assert t[k - cut + 1] == rows[k];
    } else {
      forall i | 0 <= i < |t| ensures t[i].id != rows[k].id {
        if 0 < i < |t| - 1 {
          assert t[i] == rows[i + cut - 1];
        }
      }
    }
  }

  /** "The six most recent messages are kept" holds exactly when at least six conversation
      messages come before the last five messages of all. */
  lemma KeepsRecentIff(s: Session, summary: Option<Write>, reread: bool)
    requires Compresses(s, summary) && PrimaryKey(s.rows) && !HasId(s.rows, summary.value.m.id)
    ensures (forall k | |s.rows| - RECENT_MESSAGE_KEEP <= k < |s.rows| ::
               s.rows[k] in Compressed(s, summary, reread).rows)
            <==> Conversation(s.rows[..|s.rows| - RECENT_MESSAGE_KEEP + 1]) >= RECENT_MESSAGE_KEEP
  {
    var n, cut := |s.rows|, SplitIdx(s.rows);
    CutLeavesSixIff(s.rows);
    hide SplitIdx, Conversation, CutAt, PrimaryKey, HasId;
    forall k | n - RECENT_MESSAGE_KEEP <= k < n
      ensures s.rows[k] in Compressed(s, summary, reread).rows <==> k >= cut
    {
      SurvivesIff(s.rows, cut, summary.value.m, k);
    }
    assert s.rows[n - RECENT_MESSAGE_KEEP] in Compressed(s, summary, reread).rows <==> n - RECENT_MESSAGE_KEEP >= cut;
  }

  /** A system prompt and eight messages of other kinds, earlier summaries among them: besides the prompt
      only the last three survive. */
  lemma KeepsThreeOfNine(s: Session, summary: Option<Write>, reread: bool)
    requires |s.rows| == 9 && s.rows[0].role == "system" && !s.rows[0].isSummary
    requires forall k | 1 <= k < 9 :: s.rows[k].role != "system" || s.rows[k].isSummary
    requires Compresses(s, summary) && PrimaryKey(s.rows) && !HasId(s.rows, summary.value.m.id)
    ensures forall k | 1 <= k < 6 :: s.rows[k] !in Compressed(s, summary, reread).rows
    ensures forall k | 6 <= k < 9 :: s.rows[k] in Compressed(s, summary, reread).rows
  {
    CutOfNine(s.rows);
    hide SplitIdx, Conversation, CutAt, PrimaryKey, HasId;
    forall k | 1 <= k < 9 ensures s.rows[k] in Compressed(s, summary, reread).rows <==> k >= 6 {
      SurvivesIff(s.rows, 6, summary.value.m, k);
    }
  }

  lemma CutOfNine(rows: seq<Message>)
    requires |rows| == 9 && Original(rows[0]) && forall k | 1 <= k < 9 :: !Original(rows[k])
    ensures SplitIdx(rows) == 6
  {
    Extend(rows, 0);
    Extend(rows, 1);
    Extend(rows, 2);
    Extend(rows, 3);
    Extend(rows, 4);
    Extend(rows, 5);
    PositionIs(rows, RECENT_MESSAGE_KEEP, 6);
  }

  /** Messages 1 to 3 never survive, original system messages among them included. */
  lemma EarlyMessagesGo(s: Session, summary: Option<Write>, reread: bool, k: nat)
    requires Compresses(s, summary) && PrimaryKey(s.rows) && !HasId(s.rows, summary.value.m.id) && 1 <= k <= 3
    ensures s.rows[k] !in Compressed(s, summary, reread).rows
  {
    CompressionShape(s.rows);
    SurvivesIff(s.rows, SplitIdx(s.rows), summary.value.m, k);
  }

  /** A new session; a system prompt is counted whether or not its insert went through. */
  function Created(budget: nat, prompt: Option<Write>): Session {
    if prompt.None? || prompt.value.m.content == "" then Session([], 0, 0, 0, budget)
    else Session(Inserted([], prompt.value), 1, prompt.value.m.TokenCount(), 0, budget)
  }

  // A message sent to the session: what the database and Ollama make of it.  `reread` says whether
  // the table can be read again after a compression; `reply` None is a failed call.
  datatype Send = Send(incoming: Write, summary: Option<Write>, reread: bool, reply: Option<Write>)

  function Received(s: Session, w: Write): Session {
    s.(rows := s.rows + [w.m], totalMessages := s.totalMessages + 1, totalTokens := s.totalTokens + w.m.TokenCount())
  }

  function Replied(s: Session, w: Write, attempted: bool): Session {
    s.(rows := Inserted(s.rows, w), totalMessages := s.totalMessages + 1,
       totalTokens := s.totalTokens + w.m.TokenCount(), compressions := s.compressions + if attempted then 1 else 0)
  }

  function Sent(s: Session, e: Send): Session {
    if !Goes(s.rows, e.incoming) then s
    else
      var s1 := Received(s, e.incoming);
      var s2 := Compressed(s1, e.summary, e.reread);
      if e.reply.None? then s2 else Replied(s2, e.reply.value, OverThreshold(s1))
  }

  /** Without compression: the incoming message joins the stored ones if it can be stored, and then
      the reply likewise; both are counted, the reply even when it cannot be stored. */
  predicate Below85(s: Session, e: Send, s': Session) {
    if e.incoming.fault || HasId(s.rows, e.incoming.m.id) then s' == s
    else
      var rows := s.rows + [e.incoming.m];
      if e.reply.None? then
        s' == s.(rows := rows, totalMessages := s.totalMessages + 1,
                 totalTokens := s.totalTokens + e.incoming.m.TokenCount())
      else
        var m := e.reply.value.m;
        s' == s.(rows := if e.reply.value.fault || HasId(rows, m.id) then rows else rows + [m],
                 totalMessages := s.totalMessages + 2,
                 totalTokens := s.totalTokens + e.incoming.m.TokenCount() + m.TokenCount())
  }

  method CountTokens(rows: seq<Message>) returns (total: nat)
    ensures total == TokenSum(rows)
  {
    total := 0;
    for i := 0 to |rows|
      invariant total == TokenSum(rows[..i])
    {
      assert rows[..i + 1][..i] == rows[..i];
      total := total + rows[i].TokenCount();
    }
    assert rows[..|rows|] == rows;
  }

  class CodingAgent {
    const store: MessageStore
    const tokenBudget: nat
    var totalMessages: nat
    var totalTokens: nat
    var compressions: nat

    ghost function View(): Session
      reads this, store
    {
      Session(store.rows, totalMessages, totalTokens, compressions, tokenBudget)
    }

    constructor CreateSession(asked: int, contextLength: int, prompt: Option<Write>)
      ensures fresh(store) && View() == Created(BudgetFor(asked, contextLength), prompt)
    {
      store := new MessageStore();
      var budget := asked;
      if asked <= 0 {
        budget := (contextLength as real * 0.8).Floor;
      }
      if budget < MIN_TOKEN_BUDGET {
        budget := MIN_TOKEN_BUDGET;
      }
      if budget > MAX_TOKEN_BUDGET {
        budget := MAX_TOKEN_BUDGET;
      }
      tokenBudget := budget;
      totalMessages, totalTokens, compressions := 0, 0, 0;
      new;
      if prompt.Some? && prompt.value.m.content != "" {
        var _ := store.Insert(prompt.value);
        totalMessages := totalMessages + 1;
        totalTokens := totalTokens + prompt.value.m.TokenCount();
      }
    }

    /** compressContext: true unless some step failed. */
    method CompressContext(summary: Option<Write>, reread: bool) returns (ok: bool)
      requires PrimaryKey(store.rows) && OverThreshold(View())
      modifies this, store
      ensures View() == Compressed(old(View()), summary, reread)
    {
      var msgs := store.rows;
      if |msgs| <= RECENT_MESSAGE_KEEP + 2 {
        return true;
      }
      var splitIdx := FindSplit(msgs);
      if splitIdx <= 1 {
        return true;
      }
      if summary.None? || summary.value.m.content == "" {
        return false;
      }
      ok := store.CompressMessages(splitIdx, summary.value);
      if !ok {
        return;
      }
      if !reread {
        return true;
      }
      totalTokens := CountTokens(store.rows);
    }

    method MaybeCompress(summary: Option<Write>, reread: bool) returns (attempted: bool)
      requires PrimaryKey(store.rows)
      modifies this, store
      ensures attempted == old(OverThreshold(View())) && View() == Compressed(old(View()), summary, reread)
      ensures attempted <==> 100 * old(totalTokens) > 85 * tokenBudget
    {
      OverByPercent(View());
      var threshold := Threshold(tokenBudget);
      if totalTokens <= threshold {
        return false;
      }
      var _ := CompressContext(summary, reread);
      return true;
    }

    method SendMessage(e: Send) returns (ok: bool)
      requires PrimaryKey(store.rows)
      modifies this, store
      ensures View() == Sent(old(View()), e)
      ensures ok == (Goes(old(store.rows), e.incoming) && e.reply.Some?)
      ensures 100 * (old(totalTokens) + e.incoming.m.TokenCount()) <= 85 * tokenBudget ==>
                Below85(old(View()), e, View())
      ensures ok && !e.reply.value.fault && !HasId(Sent(old(View()), e.(reply := None)).rows, e.reply.value.m.id) ==>
                store.rows != [] && store.rows[|store.rows| - 1] == e.reply.value.m
      ensures ok ==>
                var over := 100 * (old(totalTokens) + e.incoming.m.TokenCount()) > 85 * tokenBudget;
                compressions == old(compressions) + if over then 1 else 0
    {
      ok := store.Insert(e.incoming);
      if !ok {
        return;
      }
      totalMessages := totalMessages + 1;
      totalTokens := totalTokens + e.incoming.m.TokenCount();
      InsertKeepsKey(old(store.rows), e.incoming);
      assert View() == Received(old(View()), e.incoming);
      OverByPercent(View());
      var attempted := MaybeCompress(e.summary, e.reread);
      if e.reply.None? {
        return false;
      }
      var _ := store.Insert(e.reply.value);
      totalMessages := totalMessages + 1;
      totalTokens := totalTokens + e.reply.value.m.TokenCount();
      if attempted {
        compressions := compressions + 1;
      }
      return true;
    }
  }

  // ---------------------------------------------------------------- the ledger over runs

  function SentRun(s: Session, es: seq<Send>): Session
    decreases |es|
  {
    if es == [] then s else SentRun(Sent(s, es[0]), es[1..])
  }

  // What the counters owe.  Since the token total was last counted afresh: `lostTokens`, counted for
  // messages whose insert failed, and `stale`, retired tokens still counted less summaries not yet
  // counted.  Over the whole run: messages lost, effective compressions, and messages they retired.
  datatype Audit = Audit(lostTokens: nat, stale: int, lostMessages: nat, effective: nat, retired: nat)

  function AfterInsert(a: Audit, rows: seq<Message>, w: Write): Audit {
    if Goes(rows, w) then a
    else a.(lostTokens := a.lostTokens + w.m.TokenCount(), lostMessages := a.lostMessages + 1)
  }

  function AfterCompression(a: Audit, s: Session, summary: Option<Write>, reread: bool): Audit {
    if !Compresses(s, summary) then a
    else
      var cut := SplitIdx(s.rows);
      var a' := a.(effective := a.effective + 1, retired := a.retired + cut - 2);
      if reread then a'.(lostTokens := 0, stale := 0)
      else a'.(stale := a.stale + TokenSum(s.rows[1..cut]) - summary.value.m.TokenCount())
  }

  function Opened(prompt: Option<Write>): Audit {
    var a := Audit(0, 0, 0, 0, 0);
    if prompt.None? || prompt.value.m.content == "" then a else AfterInsert(a, [], prompt.value)
  }

  function AfterSend(a: Audit, s: Session, e: Send): Audit {
    if !Goes(s.rows, e.incoming) then a
    else
      var s1 := Received(s, e.incoming);
      var a1 := AfterCompression(a, s1, e.summary, e.reread);
      if e.reply.None? then a1 else AfterInsert(a1, Compressed(s1, e.summary, e.reread).rows, e.reply.value)
  }

  function AuditRun(a: Audit, s: Session, es: seq<Send>): Audit
    decreases |es|
  {
    if es == [] then a else AuditRun(AfterSend(a, s, es[0]), Sent(s, es[0]), es[1..])
  }

  ghost predicate Balanced(s: Session, a: Audit) {
    && PrimaryKey(s.rows)
    && s.totalTokens == TokenSum(s.rows) + a.lostTokens + a.stale
    && s.totalMessages == |s.rows| + a.lostMessages + a.retired
    && a.retired >= 2 * a.effective
  }

  lemma TokenSumAppend(rows: seq<Message>, m: Message)
    ensures TokenSum(rows + [m]) == TokenSum(rows) + m.TokenCount()
  {
    assert (rows + [m])[..|rows|] == rows;
  }

  lemma {:induction false} TokenSumConcat(a: seq<Message>, b: seq<Message>)
    ensures TokenSum(a + b) == TokenSum(a) + TokenSum(b)
    decreases |b|
  {
    if b == [] {
      assert a + b == a;
    } else {
      TokenSumConcat(a, b[..|b| - 1]);
      assert (a + b)[..|a + b| - 1] == a + b[..|b| - 1];
    }
  }

  /** Cutting the table takes the tokens of the retired messages out of the sum. */
  lemma TokenSumCut(rows: seq<Message>, cut: nat, m: Message)
    requires 1 < cut <= |rows|
    ensures TokenSum(CutAt(rows, cut) + [m]) == TokenSum(rows) - TokenSum(rows[1..cut]) + m.TokenCount()
  {
    hide TokenSum;
    var first, gone, rest := [rows[0]], rows[1..cut], rows[cut..];
    InThree(rows, cut);
    TokenSumConcat(first + gone, rest);
    TokenSumConcat(first, gone);
    TokenSumConcat(first, rest);
    TokenSumAppend(first + rest, m);
  }

  lemma InThree(rows: seq<Message>, cut: nat)
    requires 1 < cut <= |rows|
    ensures rows == [rows[0]] + rows[1..cut] + rows[cut..]
  {
  }

  lemma CompressionBalanced(s: Session, a: Audit, summary: Option<Write>, reread: bool)
    requires Balanced(s, a)
    ensures Balanced(Compressed(s, summary, reread), AfterCompression(a, s, summary, reread))
  {
    if Compresses(s, summary) {
      CompressionShape(s.rows);
      var cut := SplitIdx(s.rows);
      DistinctCut(s.rows, cut);
      InsertKeepsKey(CutAt(s.rows, cut), summary.value);
      TokenSumCut(s.rows, cut, summary.value.m);
    }
  }

  lemma ReplyBalanced(s: Session, a: Audit, w: Write, attempted: bool)
    requires Balanced(s, a)
    ensures Balanced(Replied(s, w, attempted), AfterInsert(a, s.rows, w))
  {
    TokenSumAppend(s.rows, w.m);
    InsertKeepsKey(s.rows, w);
  }

  /** One message, whatever fails on the way, keeps the books. */
  lemma SendBalanced(s: Session, a: Audit, e: Send)
    requires Balanced(s, a)
    ensures Balanced(Sent(s, e), AfterSend(a, s, e))
  {
    if Goes(s.rows, e.incoming) {
      var s1 := Received(s, e.incoming);
      TokenSumAppend(s.rows, e.incoming.m);
      InsertKeepsKey(s.rows, e.incoming);
      CompressionBalanced(s1, a, e.summary, e.reread);
      if e.reply.Some? {
        ReplyBalanced(Compressed(s1, e.summary, e.reread), AfterCompression(a, s1, e.summary, e.reread),
                      e.reply.value, OverThreshold(s1));
      }
    }
  }

  lemma CreatedBalanced(budget: nat, prompt: Option<Write>)
    ensures Balanced(Created(budget, prompt), Opened(prompt))
  {
    if prompt.Some? {
      TokenSumAppend([], prompt.value.m);
      assert [] + [prompt.value.m] == [prompt.value.m];
    }
  }

  lemma {:induction false} RunBalanced(s: Session, a: Audit, es: seq<Send>)
    requires Balanced(s, a)
    ensures Balanced(SentRun(s, es), AuditRun(a, s, es))
    decreases |es|
  {
    if es != [] {
      SendBalanced(s, a, es[0]);
      RunBalanced(Sent(s, es[0]), AfterSend(a, s, es[0]), es[1..]);
    }
  }

  /** After any run from a new session: the token total is the stored tokens plus what was lost and
      what is stale since it was last counted afresh, so it is the stored sum exactly when these two
      cancel; and the message total accounts for every message stored, lost or retired. */
  lemma Ledger(budget: nat, prompt: Option<Write>, es: seq<Send>, s: Session, a: Audit)
    requires s == SentRun(Created(budget, prompt), es) && a == AuditRun(Opened(prompt), Created(budget, prompt), es)
    ensures s.totalTokens == TokenSum(s.rows) + a.lostTokens + a.stale
    ensures s.totalTokens == TokenSum(s.rows) <==> a.lostTokens + a.stale == 0
    ensures s.totalMessages == |s.rows| + a.lostMessages + a.retired
    ensures s.totalMessages >= |s.rows| + 2 * a.effective
  {
    CreatedBalanced(budget, prompt);
    RunBalanced(Created(budget, prompt), Opened(prompt), es);
  }

  /** Answered messages of the run after which the total was above 85 percent of the budget. */
  function Attempts(s: Session, es: seq<Send>): nat
    decreases |es|
  {
    if es == [] then 0
    else
      var e := es[0];
      var over := 100 * (s.totalTokens + e.incoming.m.TokenCount()) > 85 * s.tokenBudget;
      (if Goes(s.rows, e.incoming) && e.reply.Some? && over then 1 else 0) + Attempts(Sent(s, e), es[1..])
  }

  /** The compression counter counts these, whether or not the compression went through. */
  lemma {:induction false} CompressionsAreAttempts(s: Session, es: seq<Send>)
    ensures SentRun(s, es).compressions == s.compressions + Attempts(s, es)
    decreases |es|
  {
    if es != [] {
      CountsAttempt(s, es[0]);
      hide Sent;
      CompressionsAreAttempts(Sent(s, es[0]), es[1..]);
    }
  }

  lemma CountsAttempt(s: Session, e: Send)
    ensures var over := 100 * (s.totalTokens + e.incoming.m.TokenCount()) > 85 * s.tokenBudget;
            Sent(s, e).compressions == s.compressions
                                       + if Goes(s.rows, e.incoming) && e.reply.Some? && over then 1 else 0
  {
    OverByPercent(Received(s, e.incoming));
  }

  /** No reply is lost, and the table can be read again after every effective compression. */
  predicate NothingFails(s: Session, es: seq<Send>)
    decreases |es|
  {
    es != [] ==>
      var e := es[0];
      && (Goes(s.rows, e.incoming) ==>
            var s1 := Received(s, e.incoming);
            && (Compresses(s1, e.summary) ==> e.reread)
            && (e.reply.Some? ==> Goes(Compressed(s1, e.summary, e.reread).rows, e.reply.value)))
      && NothingFails(Sent(s, e), es[1..])
  }

  lemma {:induction false} NothingOwed(s: Session, a: Audit, es: seq<Send>)
    requires a.lostTokens == 0 && a.stale == 0 && NothingFails(s, es)
    ensures AuditRun(a, s, es).lostTokens == 0 && AuditRun(a, s, es).stale == 0
    decreases |es|
  {
    if es != [] {
      NothingOwed(Sent(s, es[0]), AfterSend(a, s, es[0]), es[1..]);
    }
  }

  /** When the prompt and every reply are stored and every re-read succeeds, the token total is the sum
      over the stored messages. */
  lemma LedgerExact(budget: nat, prompt: Option<Write>, es: seq<Send>)
    requires prompt.Some? ==> Goes([], prompt.value)
    requires NothingFails(Created(budget, prompt), es)
    ensures var s := SentRun(Created(budget, prompt), es); s.totalTokens == TokenSum(s.rows)
  {
    var s0 := Created(budget, prompt);
    Ledger(budget, prompt, es, SentRun(s0, es), AuditRun(Opened(prompt), s0, es));
    NothingOwed(s0, Opened(prompt), es);
  }

  // ---------------------------------------------------------------- a run that loses recent messages

  // A message whose call to Ollama fails.
  function Unanswered(m: Message): Send {
    Send(Write(m, false), None, true, None)
  }

  function AllUnanswered(msgs: seq<Message>): seq<Send> {
    seq(|msgs|, i requires 0 <= i < |msgs| => Unanswered(msgs[i]))
  }

  function Grown(s: Session, msgs: seq<Message>): Session {
    s.(rows := s.rows + msgs, totalMessages := s.totalMessages + |msgs|, totalTokens := s.totalTokens + TokenSum(msgs))
  }

  /** Below the threshold unanswered messages just pile up. */
  lemma {:induction false} UnansweredPileUp(s: Session, msgs: seq<Message>)
    requires PrimaryKey(s.rows + msgs) && s.totalTokens + TokenSum(msgs) <= Threshold(s.tokenBudget)
    ensures SentRun(s, AllUnanswered(msgs)) == Grown(s, msgs)
    decreases |msgs|
  {
    if msgs == [] {
      assert s.rows + msgs == s.rows;
    } else {
      var m, rest := msgs[0], msgs[1..];
      TokenSumFirst(msgs);
      assert (s.rows + [m]) + rest == s.rows + msgs;
      FreshNext(s.rows, m, rest);
      assert AllUnanswered(msgs)[0] == Unanswered(m) && AllUnanswered(msgs)[1..] == AllUnanswered(rest);
      assert Sent(s, Unanswered(m)) == Received(s, Write(m, false));
      UnansweredPileUp(Received(s, Write(m, false)), rest);
    }
  }

  lemma TokenSumFirst(msgs: seq<Message>)
    requires msgs != []
    ensures TokenSum(msgs) == msgs[0].TokenCount() + TokenSum(msgs[1..])
  {
    TokenSumConcat([msgs[0]], msgs[1..]);
    assert msgs == [msgs[0]] + msgs[1..];
    assert [msgs[0]][..0] == [];
  }

  lemma FreshNext(rows: seq<Message>, m: Message, rest: seq<Message>)
    requires PrimaryKey(rows + ([m] + rest)) || PrimaryKey((rows + [m]) + rest)
    ensures !HasId(rows, m.id)
  {
    var t := (rows + [m]) + rest;
    assert t == rows + ([m] + rest) && t[|rows|] == m;
    assert forall i | 0 <= i < |rows| :: t[i] == rows[i];
  }

  /** A one-token message; the digit `i` is its ID. */
  function Short(i: nat, role: string): Message
    requires i < 10
  {
    Message([(i + 48) as char], role, "q", false)
  }

  /** Seven short messages, the first one with the given role. */
  function SevenShort(role: string): (r: seq<Message>)
    ensures |r| == 7
    ensures forall i | 0 <= i < 7 :: r[i] == Short(i + 1, if i == 0 then role else "user")
  {
    seq(7, i requires 0 <= i < 7 => Short(i + 1, if i == 0 then role else "user"))
  }

  lemma {:induction false} ShortSum(msgs: seq<Message>)
    requires forall i | 0 <= i < |msgs| :: msgs[i].TokenCount() == 1
    ensures TokenSum(msgs) == |msgs|
    decreases |msgs|
  {
    if msgs != [] {
      ShortSum(msgs[..|msgs| - 1]);
    }
  }

  lemma DigitsDiffer(rows: seq<Message>)
    requires |rows| <= 10 && forall i | 0 <= i < |rows| :: rows[i].id == [(i + 48) as char]
    ensures PrimaryKey(rows) && !HasId(rows, "s")
  {
    assert forall i | 0 <= i < |rows| :: rows[i].id[0] == (i + 48) as char;
  }

  /** A prompt, seven unanswered one-token messages, and one long message. */
  function BeforeLong(budget: nat, role: string): Session {
    SentRun(Created(budget, Some(Write(Short(0, "system"), false))), AllUnanswered(SevenShort(role)))
  }

  lemma BeforeLongIs(budget: nat, role: string)
    requires budget >= MIN_TOKEN_BUDGET
    ensures BeforeLong(budget, role) == Session([Short(0, "system")] + SevenShort(role), 8, 8, 0, budget)
  {
    var prompt, msgs := Short(0, "system"), SevenShort(role);
    var s0 := Created(budget, Some(Write(prompt, false)));
    assert s0 == Session([prompt], 1, 1, 0, budget) by {
      assert [] + [prompt] == [prompt];
    }
    ShortSum(msgs);
    var rows := [prompt] + msgs;
    assert forall i | 1 <= i < 8 :: rows[i] == msgs[i - 1];
    DigitsDiffer(rows);
    UnansweredPileUp(s0, msgs);
  }

  function LongMessage(text: string): Message {
    Message("8", "user", text, false)
  }

  lemma NineRows(role: string, text: string, rows: seq<Message>)
    requires rows == [Short(0, "system")] + SevenShort(role) + [LongMessage(text)]
    ensures |rows| == 9 && PrimaryKey(rows) && rows[0].role == "system" && rows[1].role == role
    ensures forall k | 2 <= k < 9 :: rows[k].role == "user"
    ensures forall k | 0 <= k < 9 :: !rows[k].isSummary
    ensures !HasId(rows, "s") && rows[8] == LongMessage(text) && !HasId(rows[..8], "8")
  {
    var msgs := SevenShort(role);
    assert forall i | 1 <= i < 8 :: rows[i] == msgs[i - 1];
    assert "8" == [(8 + 48) as char];
    DigitsDiffer(rows);
    assert forall i | 0 <= i < 8 :: rows[..8][i] == rows[i];
  }

  /** In every session the code can create there is a run to a compression of a prompt and eight
      messages, whatever the role of message 1: the ninth message need only be long enough. */
  lemma NineCompress(budget: nat, role: string, text: string, s: Session, summary: Option<Write>)
    requires budget >= MIN_TOKEN_BUDGET && |text| >= 4 * budget
    requires s == Received(BeforeLong(budget, role), Write(LongMessage(text), false))
    requires summary == Some(Write(Message("s", "system", "t", true), false))
    ensures Goes(BeforeLong(budget, role).rows, Write(LongMessage(text), false))
    ensures |s.rows| == 9 && PrimaryKey(s.rows) && s.rows[0].role == "system" && s.rows[1].role == role
    ensures forall k | 2 <= k < 9 :: s.rows[k].role == "user"
    ensures forall k | 0 <= k < 9 :: !s.rows[k].isSummary
    ensures Compresses(s, summary) && !HasId(s.rows, summary.value.m.id)
  {
    BeforeLongIs(budget, role);
    hide BeforeLong, SplitIdx, CutAt, HasId, PrimaryKey, SevenShort, Compresses;
    NineRows(role, text, s.rows);
    assert s.rows[..8] == BeforeLong(budget, role).rows;
    LongEnough(budget, s, summary);
  }

  lemma LongEnough(budget: nat, s: Session, summary: Option<Write>)
    requires s.tokenBudget == budget >= MIN_TOKEN_BUDGET && s.totalTokens >= budget && |s.rows| > 8
    requires summary.Some? && summary.value.m.content != "" && !summary.value.fault
    requires !HasId(s.rows, summary.value.m.id)
    ensures Compresses(s, summary)
  {
    CompressionShape(s.rows);
    FreshAfterCut(s.rows, SplitIdx(s.rows), summary.value.m.id);
    CompressesIff(s, summary);
    hide SplitIdx, CutAt;
    assert forall k | 0 <= k < |s.rows| :: s.rows[k].id != summary.value.m.id;
  }

  lemma FreshAfterCut(rows: seq<Message>, cut: nat, id: string)
    requires 1 < cut <= |rows| && !HasId(rows, id)
    ensures !HasId(CutAt(rows, cut), id)
  {
    assert forall i | 0 < i < |CutAt(rows, cut)| :: CutAt(rows, cut)[i] == rows[cut + i - 1];
  }

  /** So at every budget some run loses three of the six most recent messages. */
  lemma RecentMessagesLost(budget: nat, text: string, s: Session, e: Send)
    requires budget >= MIN_TOKEN_BUDGET && |text| >= 4 * budget
    requires s == BeforeLong(budget, "user")
    requires e.incoming == Write(LongMessage(text), false) && e.reply.None?
    requires e.summary == Some(Write(Message("s", "system", "t", true), false))
    ensures |s.rows| == 8 && forall k | 3 <= k < 6 :: s.rows[k] !in Sent(s, e).rows
    ensures forall k | 6 <= k < 8 :: s.rows[k] in Sent(s, e).rows
    ensures e.incoming.m in Sent(s, e).rows
  {
    var s1 := Received(s, e.incoming);
    NineCompress(budget, "user", text, s1, e.summary);
    KeepsThreeOfNine(s1, e.summary, e.reread);
    assert s1.rows[8] == e.incoming.m && forall k | 0 <= k < 8 :: s1.rows[k] == s.rows[k];
  }
}
