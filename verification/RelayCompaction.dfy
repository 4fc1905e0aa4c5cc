/** Keeping the request to the paid relay within its two budgets by dropping the oldest conversation. */
module RelayCompaction {
  import opened Options

  const PROMPT_CHAR_BUDGET := 100_000
  const CONTEXT_BYTE_BUDGET := 320 * 1024

  datatype Role = System | User | Assistant | Tool

  /** A message with the two sizes that are budgeted: prompt characters and bytes of its JSON encoding. */
  datatype Message = Message(role: Role, promptChars: nat, encodedBytes: nat, toolCallIds: seq<string>,
                             toolCallId: Option<string>)

  // ------------------------------------------------------------- sizes

  function PromptChars(messages: seq<Message>): nat {
    if messages == [] then 0 else messages[0].promptChars + PromptChars(messages[1..])
  }

  function EncodedBytes(messages: seq<Message>): nat {
    if messages == [] then 0 else messages[0].encodedBytes + EncodedBytes(messages[1..])
  }

  /** Bytes of the JSON array of messages with its commas, plus everything around it. */
  function ContextBytes(messages: seq<Message>, overhead: nat): nat {
    overhead + EncodedBytes(messages) + (if messages == [] then 0 else |messages| - 1)
  }

  predicate Fits(messages: seq<Message>, overhead: nat) {
    PromptChars(messages) <= PROMPT_CHAR_BUDGET && ContextBytes(messages, overhead) <= CONTEXT_BYTE_BUDGET
  }

  // ------------------------------------------------------------- specification

  function FirstConversationIndex(messages: seq<Message>): nat {
    if messages != [] && messages[0].role == System then 1 else 0
  }

  /** The system message, if there is one, followed by everything from `start` on. */
  function KeptFrom(messages: seq<Message>, start: nat): seq<Message>
    requires FirstConversationIndex(messages) <= start <= |messages|
  {
    messages[..FirstConversationIndex(messages)] + messages[start..]
  }

  /** The messages after `a` are exactly the tool replies to the calls of the assistant message at `a`. */
  predicate TerminalExchange(messages: seq<Message>, a: int) {
    && 0 <= a < |messages| - 1
    && messages[a].role == Assistant && messages[a].toolCallIds != []
    && forall i :: a < i < |messages| ==>
         && messages[i].role == Tool && messages[i].toolCallId.Some?
         && messages[i].toolCallId.value in messages[a].toolCallIds
  }

  /** `p` is where the part that is never dropped for budget begins. */
  ghost predicate Protected(messages: seq<Message>, p: int) {
    TerminalExchange(messages, p)
    || (p == |messages| - 1 && forall a :: !TerminalExchange(messages, a))
  }

  /** A start that does not orphan a tool reply, and that is in budget unless it reaches the protected part. */
  ghost predicate Admissible(messages: seq<Message>, overhead: nat, p: int, start: int) {
    && FirstConversationIndex(messages) <= start <= |messages|
    && (start < |messages| ==> messages[start].role != Tool)
    && (start >= p || Fits(KeptFrom(messages, start), overhead))
  }

  ghost predicate NoneBefore(messages: seq<Message>, overhead: nat, p: int, start: int) {
    forall s :: s < start ==> !Admissible(messages, overhead, p, s)
  }

  /** Nothing more than necessary is dropped. */
  ghost predicate LeastAdmissible(messages: seq<Message>, overhead: nat, p: int, start: int) {
    Admissible(messages, overhead, p, start) && NoneBefore(messages, overhead, p, start)
  }

  // ------------------------------------------------------------- size lemmas

  lemma SizesSplit(a: seq<Message>, b: seq<Message>)
    ensures PromptChars(a + b) == PromptChars(a) + PromptChars(b)
    ensures EncodedBytes(a + b) == EncodedBytes(a) + EncodedBytes(b)
  {
    if a == [] {
      assert a + b == b;
    } else {
      assert (a + b)[1..] == a[1..] + b;
      SizesSplit(a[1..], b);
    }
  }

  /** Dropping one message that is not the last takes its sizes and one comma off. */
  lemma DropOne(messages: seq<Message>, start: nat, overhead: nat)
    requires FirstConversationIndex(messages) <= start < |messages| - 1
    ensures PromptChars(KeptFrom(messages, start))
         == messages[start].promptChars + PromptChars(KeptFrom(messages, start + 1))
    ensures ContextBytes(KeptFrom(messages, start), overhead)
         == messages[start].encodedBytes + 1 + ContextBytes(KeptFrom(messages, start + 1), overhead)
  {
    var head := messages[..FirstConversationIndex(messages)];
    assert messages[start..] == [messages[start]] + messages[start + 1..];
    SizesSplit(head, messages[start..]);
    SizesSplit(head, messages[start + 1..]);
    SizesSplit([messages[start]], messages[start + 1..]);
  }

  lemma {:induction false} ShorterFits(messages: seq<Message>, s: nat, t: nat, overhead: nat)
    requires FirstConversationIndex(messages) <= s <= t <= |messages|
    requires Fits(KeptFrom(messages, s), overhead)
    ensures Fits(KeptFrom(messages, t), overhead)
  {
    var head := messages[..FirstConversationIndex(messages)];
    assert messages[s..] == messages[s..t] + messages[t..];
    SizesSplit(head, messages[s..]);
    SizesSplit(head, messages[t..]);
    SizesSplit(messages[s..t], messages[t..]);
  }

  // ------------------------------------------------------------- the compaction loop

  method FindProtected(messages: seq<Message>) returns (p: int)
    ensures Protected(messages, p)
    ensures FirstConversationIndex(messages) - 1 <= p < |messages|
    ensures p < FirstConversationIndex(messages) ==> |messages| <= FirstConversationIndex(messages)
  {
    var newest := |messages| - 1;
    p := newest;
    if 0 <= newest && messages[newest].role == Tool {
      var first := FirstConversationIndex(messages);
      var terminal := newest;
      while terminal > first && messages[terminal - 1].role == Tool
        invariant first <= terminal <= newest
        invariant forall i :: terminal <= i <= newest ==> messages[i].role == Tool
      {
        terminal := terminal - 1;
      }
      var a := terminal - 1;
      if && 0 <= a && messages[a].role == Assistant && messages[a].toolCallIds != []
         && forall i :: terminal <= i < |messages| ==>
              messages[i].toolCallId.Some? && messages[i].toolCallId.value in messages[a].toolCallIds {
        p := a;
      }
    }
  }

  lemma KeptIs(messages: seq<Message>, start: nat)
    requires FirstConversationIndex(messages) <= start <= |messages|
    ensures KeptFrom(messages, start)
         == (if FirstConversationIndex(messages) == 1 then [messages[0]] else []) + messages[start..]
    ensures start == FirstConversationIndex(messages) ==> KeptFrom(messages, start) == messages
  {
  }

  lemma NothingBeforeFirst(messages: seq<Message>, overhead: nat, p: int)
    ensures NoneBefore(messages, overhead, p, FirstConversationIndex(messages))
  {
  }

  /** A tool reply, or a start over budget before the protected part, is not where the retained part begins. */
  lemma OneMoreDropped(messages: seq<Message>, overhead: nat, p: int, s: nat)
    requires FirstConversationIndex(messages) <= s < |messages| && NoneBefore(messages, overhead, p, s)
    requires messages[s].role == Tool || (s < p && !Fits(KeptFrom(messages, s), overhead))
    ensures NoneBefore(messages, overhead, p, s + 1)
  {
    hide Fits;
  }

  lemma StopsAdmissibly(messages: seq<Message>, overhead: nat, p: int, s: nat)
    requires FirstConversationIndex(messages) <= s <= |messages|
    requires s < |messages| ==> messages[s].role != Tool
    requires s >= p || Fits(KeptFrom(messages, s), overhead)
    ensures Admissible(messages, overhead, p, s)
  {
  }

  /** What is kept: everything from the least admissible start on. */
  ghost predicate Compacted(messages: seq<Message>, overhead: nat, kept: seq<Message>) {
    exists p: int, start: nat ::
      Protected(messages, p) && LeastAdmissible(messages, overhead, p, start) && kept == KeptFrom(messages, start)
  }

  method CompactMessagesForRelay(messages: seq<Message>, overhead: nat) returns (kept: seq<Message>)
    ensures Compacted(messages, overhead, kept)
  {
    hide PromptChars, EncodedBytes, ContextBytes, TerminalExchange, NoneBefore, Admissible, Protected, KeptFrom;
    var first := FirstConversationIndex(messages);
    var p := FindProtected(messages);
    var firstRetained := first;
    KeptIs(messages, first);
    NothingBeforeFirst(messages, overhead, p);
    var retainedChars: int, retainedBytes: int := PromptChars(messages), ContextBytes(messages, overhead);

    while (retainedChars > PROMPT_CHAR_BUDGET || retainedBytes > CONTEXT_BYTE_BUDGET) && firstRetained < p
      invariant first <= firstRetained <= |messages| && (firstRetained <= p || firstRetained == first)
      invariant retainedChars == PromptChars(KeptFrom(messages, firstRetained))
      invariant retainedBytes == ContextBytes(KeptFrom(messages, firstRetained), overhead)
      invariant NoneBefore(messages, overhead, p, firstRetained)
      decreases |messages| - firstRetained
    {
      DropOne(messages, firstRetained, overhead);
      OneMoreDropped(messages, overhead, p, firstRetained);
      retainedChars := retainedChars - messages[firstRetained].promptChars;
      retainedBytes := retainedBytes - (messages[firstRetained].encodedBytes + 1);
      firstRetained := firstRetained + 1;
      while firstRetained < p && messages[firstRetained].role == Tool
        invariant first <= firstRetained <= p < |messages|
        invariant retainedChars == PromptChars(KeptFrom(messages, firstRetained))
        invariant retainedBytes == ContextBytes(KeptFrom(messages, firstRetained), overhead)
        invariant NoneBefore(messages, overhead, p, firstRetained)
        decreases |messages| - firstRetained
      {
        DropOne(messages, firstRetained, overhead);
        OneMoreDropped(messages, overhead, p, firstRetained);
        retainedChars := retainedChars - messages[firstRetained].promptChars;
        retainedBytes := retainedBytes - (messages[firstRetained].encodedBytes + 1);
        firstRetained := firstRetained + 1;
      }
    }

    ghost var budgeted := firstRetained;
    while firstRetained < |messages| && messages[firstRetained].role == Tool
      invariant budgeted <= firstRetained <= |messages|
      invariant NoneBefore(messages, overhead, p, firstRetained)
      decreases |messages| - firstRetained
    {
      OneMoreDropped(messages, overhead, p, firstRetained);
      firstRetained := firstRetained + 1;
    }
    if budgeted < p {
      ShorterFits(messages, budgeted, firstRetained, overhead);
    }
    ghost var start: nat := firstRetained;
    StopsAdmissibly(messages, overhead, p, start);
    assert LeastAdmissible(messages, overhead, p, start);
    KeptIs(messages, start);
    kept := (if first == 1 then [messages[0]] else []) + messages[firstRetained..];
  }

  // ------------------------------------------------------------- what the result guarantees

  /** There is one protected part and one least start, so the result is determined. */
  lemma CompactionUnique(messages: seq<Message>, overhead: nat, p: int, q: int, s: int, t: int)
    requires Protected(messages, p) && LeastAdmissible(messages, overhead, p, s)
    requires Protected(messages, q) && LeastAdmissible(messages, overhead, q, t)
    ensures p == q && s == t
  {
    assert s >= t || !Admissible(messages, overhead, p, s);
  }

  /** A matching final exchange survives whole, and so does a newest message that is not a tool reply. */
  lemma ProtectedSurvives(messages: seq<Message>, overhead: nat, p: int, start: int)
    requires Protected(messages, p) && LeastAdmissible(messages, overhead, p, start)
    ensures forall a :: TerminalExchange(messages, a) ==> start <= a
    ensures |messages| > FirstConversationIndex(messages) && messages[|messages| - 1].role != Tool
         ==> start <= |messages| - 1
  {
    forall a | TerminalExchange(messages, a) ensures start <= a {
      assert a == p;
      assert Admissible(messages, overhead, p, a);
    }
    var newest := |messages| - 1;
    if newest >= FirstConversationIndex(messages) && messages[newest].role != Tool {
      assert Admissible(messages, overhead, p, newest);
    }
  }

  /** Every retained tool reply still follows the non-tool message it followed originally. */
  lemma {:induction false} RepliesKeepPredecessor(messages: seq<Message>, overhead: nat, p: int, start: int, i: int)
      returns (j: int)
    requires Admissible(messages, overhead, p, start) && start <= i < |messages| && messages[i].role == Tool
    ensures start <= j < i && messages[j].role != Tool
    ensures forall k :: j < k <= i ==> messages[k].role == Tool
  {
    if messages[i - 1].role == Tool {
      j := RepliesKeepPredecessor(messages, overhead, p, start, i - 1);
    } else {
      j := i - 1;
    }
  }

  /** Over budget only when nothing but the protected part (less orphaned replies) is left. */
  lemma OverBudgetOnlyProtected(messages: seq<Message>, overhead: nat, p: int, start: int)
    requires Protected(messages, p) && LeastAdmissible(messages, overhead, p, start)
    requires !Fits(KeptFrom(messages, start), overhead)
    ensures start == p || (start == |messages| && p < start)
    ensures forall s :: FirstConversationIndex(messages) <= s < start && messages[s].role != Tool
                     ==> !Fits(KeptFrom(messages, s), overhead)
  {
    forall s | FirstConversationIndex(messages) <= s < start && messages[s].role != Tool
      ensures !Fits(KeptFrom(messages, s), overhead)
    {
      assert !Admissible(messages, overhead, p, s);
    }
  }

  // ------------------------------------------------------------- the result, told of the messages alone

  /** Where the kept messages begin. */
  lemma CompactedAt(messages: seq<Message>, overhead: nat, kept: seq<Message>) returns (p: int, start: nat)
    requires Compacted(messages, overhead, kept)
    ensures Protected(messages, p) && LeastAdmissible(messages, overhead, p, start)
    ensures FirstConversationIndex(messages) <= start <= |messages| && kept == KeptFrom(messages, start)
    ensures kept == (if FirstConversationIndex(messages) == 1 then [messages[0]] else []) + messages[start..]
  {
    hide Protected, NoneBefore, Fits;
    p, start :|
      Protected(messages, p) && LeastAdmissible(messages, overhead, p, start) && kept == KeptFrom(messages, start);
    KeptIs(messages, start);
  }

  /** The system message in front is never dropped, and what else is kept is one run of messages up to the newest. */
  lemma SystemSurvives(messages: seq<Message>, overhead: nat, kept: seq<Message>) returns (i: nat)
    requires Compacted(messages, overhead, kept)
    ensures i <= |messages|
    ensures if messages != [] && messages[0].role == System
            then i >= 1 && kept == [messages[0]] + messages[i..]
            else kept == messages[i..]
  {
    hide LeastAdmissible, Protected, KeptFrom;
    var p, start := CompactedAt(messages, overhead, kept);
    i := start;
  }

  /** Bytes of the request: everything around the messages, each message, and a comma between any two. */
  lemma BytesTell(messages: seq<Message>, m: Message, overhead: nat)
    ensures ContextBytes([], overhead) == overhead && ContextBytes([m], overhead) == overhead + m.encodedBytes
    ensures messages != [] ==>
              ContextBytes(messages + [m], overhead) == ContextBytes(messages, overhead) + 1 + m.encodedBytes
    ensures PromptChars([]) == 0 && PromptChars(messages + [m]) == PromptChars(messages) + m.promptChars
  {
    SizesSplit(messages, [m]);
    assert [m][1..] == [];
  }

  /** A conversation within both budgets that does not begin with a tool reply is sent as it is. */
  lemma FittingIsKept(messages: seq<Message>, overhead: nat, kept: seq<Message>)
    requires Compacted(messages, overhead, kept)
    requires PromptChars(messages) <= 100_000 && ContextBytes(messages, overhead) <= 327_680
    requires var first := if messages != [] && messages[0].role == System then 1 else 0;
             first < |messages| ==> messages[first].role != Tool
    ensures kept == messages
  {
    var p, start := CompactedAt(messages, overhead, kept);
    var first := FirstConversationIndex(messages);
    KeptIs(messages, first);
    assert Admissible(messages, overhead, p, first);
  }

  /** An assistant message and tool replies to its calls at the end. */
  ghost predicate EndsWithExchange(messages: seq<Message>, front: seq<Message>, asked: Message, replies: seq<Message>) {
    && messages == front + [asked] + replies && replies != []
    && asked.role == Assistant && asked.toolCallIds != []
    && forall r :: r in replies ==> r.role == Tool && exists id :: r.toolCallId == Some(id) && id in asked.toolCallIds
  }

  /** What is sent is within both budgets, or nothing but the newest message or the final exchange is left. */
  lemma WithinBudgets(messages: seq<Message>, overhead: nat, kept: seq<Message>)
    requires Compacted(messages, overhead, kept)
    ensures || (PromptChars(kept) <= 100_000 && ContextBytes(kept, overhead) <= 327_680)
            || |kept| <= 2
            || exists front, asked, replies :: EndsWithExchange(messages, front, asked, replies)
                                            && kept in {[asked] + replies, [messages[0]] + ([asked] + replies)}
  {
    hide Compacted, PromptChars, ContextBytes, KeptFrom, TerminalExchange, EndsWithExchange, Admissible, NoneBefore;
    var p, start := CompactedAt(messages, overhead, kept);
    if !Fits(kept, overhead) && |kept| > 2 {
      OverBudgetOnlyProtected(messages, overhead, p, start);
      assert start == p && TerminalExchange(messages, p);
      var replies := ExchangeAt(messages, p);
      var end := [messages[p]] + replies;
      assert messages[start..] == end && [] + end == end;
      assert kept in {end, [messages[0]] + end};
    }
  }

  lemma ExchangeAt(messages: seq<Message>, a: int) returns (replies: seq<Message>)
    requires TerminalExchange(messages, a)
    ensures EndsWithExchange(messages, messages[..a], messages[a], replies) && messages[a..] == [messages[a]] + replies
  {
    replies := messages[a + 1..];
    assert messages == messages[..a] + [messages[a]] + replies;
    forall r | r in replies
      ensures r.role == Tool && exists id :: r.toolCallId == Some(id) && id in messages[a].toolCallIds
    {
      var i :| 0 <= i < |replies| && replies[i] == r;
      assert messages[a + 1 + i] == r;
    }
  }

  lemma ExchangeIsTerminal(messages: seq<Message>, front: seq<Message>, asked: Message, replies: seq<Message>)
    requires EndsWithExchange(messages, front, asked, replies)
    ensures TerminalExchange(messages, |front|)
  {
    var a := |front|;
    forall i | a < i < |messages| ensures messages[i] in replies {
      assert messages[i] == replies[i - a - 1];
    }
  }

  /** A final exchange whose replies all match survives as it is, however large it is. */
  lemma ExchangeSurvives(messages: seq<Message>, overhead: nat, kept: seq<Message>, front: seq<Message>,
                         asked: Message, replies: seq<Message>)
    requires Compacted(messages, overhead, kept) && EndsWithExchange(messages, front, asked, replies)
    ensures exists before :: kept == before + ([asked] + replies)
  {
    hide Compacted, TerminalExchange, Protected, LeastAdmissible, KeptFrom;
    var p, start := CompactedAt(messages, overhead, kept);
    ExchangeIsTerminal(messages, front, asked, replies);
    ProtectedSurvives(messages, overhead, p, start);
    var a, end := |front|, [asked] + replies;
    assert messages == front + end && start <= a;
    hide EndsWithExchange;
    assert messages[start..] == front[start..] + end;
    var head := if FirstConversationIndex(messages) == 1 then [messages[0]] else [];
    assert kept == (head + front[start..]) + end;
  }

  /** A tool reply at the end that answers no call just before it goes when nothing larger than it fits. */
  lemma UnmatchedGoes(messages: seq<Message>, overhead: nat, kept: seq<Message>, front: seq<Message>, asked: Message,
                      replies: seq<Message>, r: Message)
    requires Compacted(messages, overhead, kept) && messages == front + [asked] + replies && asked.role != Tool
    requires replies != [] && r in replies && forall x :: x in replies ==> x.role == Tool
    requires r.toolCallId.None? || asked.role != Assistant || r.toolCallId.value !in asked.toolCallIds
    requires forall s :: FirstConversationIndex(messages) <= s <= |front| ==> !Fits(KeptFrom(messages, s), overhead)
    ensures kept == if messages[0].role == System then [messages[0]] else []
  {
    var p, start := CompactedAt(messages, overhead, kept);
    hide Fits;
    var a := |front|;
    assert messages[a] == asked;
    var k :| 0 <= k < |replies| && replies[k] == r;
    assert messages[a + 1 + k] == r;
    forall i | a < i < |messages| ensures messages[i].role == Tool {
      assert messages[i] == replies[i - a - 1] && replies[i - a - 1] in replies;
    }
    forall b ensures !TerminalExchange(messages, b) {
      if b < a {
        assert messages[a].role != Tool;
      }
    }
    assert p == |messages| - 1;
    assert start < |messages| ==> start <= a;
  }
}
