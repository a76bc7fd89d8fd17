/** Per-session chat memory (backend/services/memory.py): the most recent
    messages of each user and session, reset after two hours without
    activity, and rendered as a transcript for the language model. */
module Memory {
  import opened Common
  import opened Text

  const MaxMessagesPerUser: nat := 20

  /** Two hours, in seconds. */
  const SessionTimeout: real := 7200.0

  datatype ChatMessage = ChatMessage(role: string, content: string, timestamp: Instant, messageType: string)

  datatype ChatMemory = ChatMemory(
    userId: string,
    messages: seq<ChatMessage>,
    createdAt: Instant,
    lastActivity: Instant,
    contextSummary: string)

  type Memories = map<string, ChatMemory>

  /** `f"{user_id}_{session_id}"`. */
  function MemoryKey(userId: string, sessionId: string): (k: string)
    ensures |k| == |userId| + 1 + |sessionId|
    ensures k[..|userId|] == userId && k[|userId|] == '_' && k[|userId| + 1..] == sessionId
  {
    userId + "_" + sessionId
  }

  /** The key is not injective: an underscore inside the user id lets two
      different pairs share a memory. */
  lemma MemoryKeyCollides()
    ensures MemoryKey("a_b", "c") == MemoryKey("a", "b_c")
  {
  }

  /** When neither user id holds an underscore, the key determines the pair. */
  lemma MemoryKeyInjective(u1: string, s1: string, u2: string, s2: string)
    requires '_' !in u1 && '_' !in u2
    requires MemoryKey(u1, s1) == MemoryKey(u2, s2)
    ensures u1 == u2 && s1 == s2
  {
    var k := MemoryKey(u1, s1);
    if |u1| < |u2| {
      assert false;
    } else if |u2| < |u1| {
      assert false;
    }
  }

  /** A memory with no messages, created at `now`. */
  function EmptyMemory(userId: string, now: Instant): ChatMemory {
    ChatMemory(userId, [], now, now, "")
  }

  /** More than two hours have passed since the last activity. */
  predicate Expired(m: ChatMemory, now: Instant) {
    now - m.lastActivity > SessionTimeout
  }

  /** `get_user_memory`: the stored memory, created for an unseen key and
      replaced by an empty one once expired. Reading does not refresh the
      last activity. */
  function Lookup(memories: Memories, userId: string, sessionId: string, now: Instant): (res: (Memories, ChatMemory))
    ensures var key := MemoryKey(userId, sessionId);
            && res.0.Keys == memories.Keys + {key}
            && key in res.0 && res.0[key] == res.1
            && (forall k :: k in memories && k != key ==> res.0[k] == memories[k])
  {
    var key := MemoryKey(userId, sessionId);
    var memories := if key !in memories then memories[key := EmptyMemory(userId, now)] else memories;
    var memory := memories[key];
    if Expired(memory, now) then
      (memories[key := EmptyMemory(userId, now)], EmptyMemory(userId, now))
    else (memories, memory)
  }

  /** An unseen key gets a fresh memory; a live one is returned and left as
      it is, its last activity untouched; an expired one is reset. */
  lemma LookupCases(memories: Memories, userId: string, sessionId: string, now: Instant)
    ensures var key := MemoryKey(userId, sessionId);
            var (memories', m) := Lookup(memories, userId, sessionId, now);
            && (key !in memories ==> m == EmptyMemory(userId, now))
            && (key in memories && Expired(memories[key], now) ==> m == EmptyMemory(userId, now))
            && (key in memories && !Expired(memories[key], now) ==>
                  m == memories[key] && memories' == memories && m.lastActivity == memories[key].lastActivity)
  {
  }

  /** The memory after `message` is appended at `now`. */
  function Append(m: ChatMemory, message: ChatMessage, now: Instant): (r: ChatMemory)
    ensures r.messages != [] && r.messages[|r.messages| - 1] == message
    ensures |r.messages| == Min(|m.messages| + 1, MaxMessagesPerUser)
    ensures r.messages == (m.messages + [message])[|m.messages| + 1 - |r.messages|..]
    ensures r.lastActivity == now
    ensures r.userId == m.userId && r.createdAt == m.createdAt && r.contextSummary == m.contextSummary
  {
    var messages := m.messages + [message];
    m.(messages := if |messages| > MaxMessagesPerUser then PyTail(messages, MaxMessagesPerUser) else messages,
       lastActivity := now)
  }

  /** `add_message`: the message, stamped `now`, goes into the caller's
      memory as it is after the lookup. */
  function AddMessageTo(memories: Memories, userId: string, sessionId: string, role: string, content: string, now: Instant)
    : (r: Memories)
    ensures var key := MemoryKey(userId, sessionId);
            && r.Keys == memories.Keys + {key}
            && (forall k :: k in memories && k != key ==> r[k] == memories[k])
            && r[key] == Append(Lookup(memories, userId, sessionId, now).1, ChatMessage(role, content, now, "text"), now)
  {
    var (memories', memory) := Lookup(memories, userId, sessionId, now);
    memories'[MemoryKey(userId, sessionId) := Append(memory, ChatMessage(role, content, now, "text"), now)]
  }

  /** No memory holds more than the message cap. */
  ghost predicate Bounded(memories: Memories) {
    forall k :: k in memories ==> |memories[k].messages| <= MaxMessagesPerUser
  }

  /** Lookups and appends keep every memory within the cap. */
  lemma BoundedPreserved(memories: Memories, userId: string, sessionId: string, role: string, content: string, now: Instant)
    requires Bounded(memories)
    ensures Bounded(Lookup(memories, userId, sessionId, now).0)
    ensures Bounded(AddMessageTo(memories, userId, sessionId, role, content, now))
  {
  }

  /** One transcript line. */
  function RenderLine(message: ChatMessage): (line: string)
    ensures line != ""
  {
    if message.role == "user" then "KULLANICI: " + message.content else "ASİSTANT: " + message.content
  }

  function RenderLines(messages: seq<ChatMessage>): (lines: seq<string>)
    ensures |lines| == |messages|
  {
    seq(|messages|, i requires 0 <= i < |messages| => RenderLine(messages[i]))
  }

  /** The transcript of a memory: "" when it has no messages, otherwise the
      last `maxMessages` lines, oldest first, joined by newlines. */
  function Context(m: ChatMemory, maxMessages: int): (r: string)
    ensures r == "" <==> PyTail(m.messages, maxMessages) == []
  {
    if m.messages == [] then ""
    else
      var lines := RenderLines(PyTail(m.messages, maxMessages));
      JoinNonEmpty("\n", lines);
      Join("\n", lines)
  }

  /** `get_conversation_context`: a lookup (which may create or reset the
      memory), then the transcript. */
  function ConversationContext(memories: Memories, userId: string, sessionId: string, maxMessages: int, now: Instant)
    : (res: (Memories, string))
    ensures res.0 == Lookup(memories, userId, sessionId, now).0
    ensures Lookup(memories, userId, sessionId, now).1.messages == [] ==> res.1 == ""
  {
    var (memories', memory) := Lookup(memories, userId, sessionId, now);
    (memories', Context(memory, maxMessages))
  }

  /** A transcript line holds a newline only where its message does. */
  lemma RenderLineNoNewline(message: ChatMessage)
    requires '\n' !in message.content
    ensures '\n' !in RenderLine(message)
  {
    assert '\n' !in "KULLANICI: " && '\n' !in "ASİSTANT: ";
  }

  /** When no message holds a newline, splitting the transcript on
      newlines gives back one line per recent message, in order. */
  lemma ContextLines(m: ChatMemory, maxMessages: int)
    requires forall i :: 0 <= i < |m.messages| ==> '\n' !in m.messages[i].content
    requires PyTail(m.messages, maxMessages) != []
    ensures SplitOn(Context(m, maxMessages), '\n') == RenderLines(PyTail(m.messages, maxMessages))
  {
    var recent := PyTail(m.messages, maxMessages);
    var lines := RenderLines(recent);
    forall k | 0 <= k < |lines| ensures '\n' !in lines[k] {
      assert recent[k] == m.messages[|m.messages| - |recent| + k];
      RenderLineNoNewline(recent[k]);
    }
    SplitOnJoin(lines, '\n');
  }

  /** For a positive count, the transcript has `Min(maxMessages, n)` lines
      for a memory of `n` messages. */
  lemma ContextLength(m: ChatMemory, maxMessages: int)
    requires 0 < maxMessages && m.messages != []
    ensures |RenderLines(PyTail(m.messages, maxMessages))| == Min(maxMessages, |m.messages|)
    ensures Context(m, maxMessages) != ""
  {
    var lines := RenderLines(PyTail(m.messages, maxMessages));
    JoinNonEmpty("\n", lines);
  }

  lemma {:induction false} JoinNonEmpty(sep: string, parts: seq<string>)
    requires parts != [] ==> parts[0] != ""
    ensures parts != [] ==> Join(sep, parts) != ""
  {
  }

  /** `clear_memory`. */
  function Clear(memories: Memories, userId: string, sessionId: string): (r: Memories)
    ensures r.Keys == memories.Keys - {MemoryKey(userId, sessionId)}
    ensures forall k :: k in r ==> r[k] == memories[k]
    ensures MemoryKey(userId, sessionId) !in memories ==> r == memories
  {
    var key := MemoryKey(userId, sessionId);
    if key in memories then memories - {key} else memories
  }

  /** The manager object: the map of memories it updates. */
  class ChatMemoryManager {
    var memories: Memories

    constructor()
      ensures memories == map[]
    {
      memories := map[];
    }

    method GetUserMemory(userId: string, sessionId: string, now: Instant) returns (memory: ChatMemory)
      modifies this
      ensures (memories, memory) == Lookup(old(memories), userId, sessionId, now)
    {
      var key := MemoryKey(userId, sessionId);
      if key !in memories {
        memories := memories[key := EmptyMemory(userId, now)];
      }
      memory := memories[key];
      if now - memory.lastActivity > SessionTimeout {
        memories := memories[key := EmptyMemory(userId, now)];
        memory := memories[key];
      }
    }

    method AddMessage(userId: string, sessionId: string, role: string, content: string, now: Instant)
      modifies this
      ensures memories == AddMessageTo(old(memories), userId, sessionId, role, content, now)
    {
      var memory := GetUserMemory(userId, sessionId, now);
      var newMessage := ChatMessage(role, content, now, "text");
      memory := memory.(messages := memory.messages + [newMessage]);
      memory := memory.(lastActivity := now);
      if |memory.messages| > MaxMessagesPerUser {
        memory := memory.(messages := PyTail(memory.messages, MaxMessagesPerUser));
      }
      memories := memories[MemoryKey(userId, sessionId) := memory];
    }

    method GetConversationContext(userId: string, sessionId: string, maxMessages: int, now: Instant)
      returns (context: string)
      modifies this
      ensures (memories, context) == ConversationContext(old(memories), userId, sessionId, maxMessages, now)
    {
      var memory := GetUserMemory(userId, sessionId, now);
      if memory.messages == [] {
        return "";
      }
      var recent := PyTail(memory.messages, maxMessages);
      var lines: seq<string> := [];
      var i := 0;
      while i < |recent|
        invariant 0 <= i <= |recent|
        invariant lines == RenderLines(recent[..i])
      {
        if recent[i].role == "user" {
          lines := lines + ["KULLANICI: " + recent[i].content];
        } else {
          lines := lines + ["ASİSTANT: " + recent[i].content];
        }
        i := i + 1;
      }
      assert recent[..|recent|] == recent;
      context := Join("\n", lines);
    }

    method ClearMemory(userId: string, sessionId: string)
      modifies this
      ensures memories == Clear(old(memories), userId, sessionId)
    {
      var key := MemoryKey(userId, sessionId);
      if key in memories {
        memories := memories - {key};
      }
    }
  }
}
