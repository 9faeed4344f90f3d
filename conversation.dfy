/**
 * The conversation: transcript entries, the turn list sent to the chat
 * service and the assistant text taken from its reply.
 */
module Conversation {

  import opened Common
  import opened Analysis

  /** Who wrote a transcript entry; the transcript only ever holds these two roles. */
  datatype Speaker = Assistant | User

  /** A transcript entry; `analytics` is present on the user's answers. */
  datatype Message = Message(speaker: Speaker, content: string, analytics: Option<Analytics>)

  /** One `{role, content}` entry of the request body. */
  datatype Turn = Turn(speaker: Speaker, content: string)

  /** One content block of the chat service's reply: its `type` and its `text`. */
  datatype Block = Block(kind: string, text: string)

  /**
   * What the awaited request produced: the reply's content blocks, or any
   * failure (network error, an error body without `content`, bad JSON),
   * all of which reach the same `catch`.
   */
  datatype Outcome = Reply(blocks: seq<Block>) | Failure

  const Greeting: string := "Hi! I'm your AI Interview Coach. I'll conduct a mock interview with you and provide feedback. What role are you preparing for? (e.g., Product Manager, Software Engineer, Designer)"

  const ErrorReply: string := "Sorry, I encountered an error. Please try again."

  const DefaultRole: string := "professional"

  const InstructionHead: string := "You are an expert interview coach. Conduct a realistic mock interview for a "

  const InstructionTail: string := " position. Ask relevant behavioral and technical questions one at a time. After the candidate answers, provide constructive feedback on their response (strengths and areas for improvement), then ask the next question. Keep responses concise and professional. Make it feel like a real interview."

  /** The opening transcript entry. */
  function GreetingMessage(): Message
  {
    Message(Assistant, Greeting, None)
  }

  /** The role the instruction names: the captured role, or "professional" while none is. */
  function RoleName(role: string): string
  {
    if role == "" then DefaultRole else role
  }

  /** The instruction that opens every request. */
  function Instruction(role: string): string
  {
    InstructionHead + RoleName(role) + InstructionTail
  }

  /** The middle part of `h + m + t` sits right after `h`. */
  lemma InfixAfter(h: string, m: string, t: string)
    ensures (h + m + t)[..|h|] == h
    ensures (h + m + t)[|h|..|h| + |m|] == m
  {
    assert h + m + t == h + (m + t);
    assert (m + t)[..|m|] == m;
  }

  /**
   * The instruction names the interview role right after its fixed opening
   * words: the captured role, or "professional" while none is captured.
   */
  lemma InstructionNamesRole(role: string)
    ensures var head := |InstructionHead|;
      Instruction(role)[..head] == InstructionHead
      && Instruction(role)[head..head + |RoleName(role)|] == (if role == "" then DefaultRole else role)
  {
    InfixAfter(InstructionHead, RoleName(role), InstructionTail);
  }

  /** A prior message as a turn: its role kept, its analytics and timestamp dropped. */
  function ToTurn(m: Message): Turn
  {
    Turn(m.speaker, m.content)
  }

  /** `messages.map(msg => ({role, content}))`. */
  function ToTurns(ms: seq<Message>): seq<Turn>
  {
    if ms == [] then [] else [ToTurn(ms[0])] + ToTurns(ms[1..])
  }

  lemma {:induction false} ToTurnsAt(ms: seq<Message>)
    ensures |ToTurns(ms)| == |ms|
    ensures forall i :: 0 <= i < |ms| ==> ToTurns(ms)[i] == Turn(ms[i].speaker, ms[i].content)
  {
    if ms != [] {
      ToTurnsAt(ms[1..]);
    }
  }

  /**
   * `conversationHistory`: the instruction, then the transcript as it stood
   * before this answer was appended, then the new answer.
   */
  function TurnList(role: string, history: seq<Message>, text: string): seq<Turn>
  {
    [Turn(User, Instruction(role))] + ToTurns(history) + [Turn(User, text)]
  }

  /**
   * The request holds two turns more than the transcript: first the
   * instruction naming the role, then every earlier entry with its role and
   * content, in order, and last the new answer.
   */
  lemma TurnListShape(role: string, history: seq<Message>, text: string)
    ensures var r := TurnList(role, history, text);
      && |r| == |history| + 2
      && r[0] == Turn(User, Instruction(role))
      && (forall i :: 0 <= i < |history| ==> r[i + 1].speaker == history[i].speaker && r[i + 1].content == history[i].content)
      && r[|r| - 1] == Turn(User, text)
  {
    ToTurnsAt(history);
  }

  /** `.filter(block => block.type === 'text').map(block => block.text)`. */
  function Texts(blocks: seq<Block>): (r: seq<string>)
    ensures |r| <= |blocks|
    ensures r == [] <==> forall i :: 0 <= i < |blocks| ==> blocks[i].kind != "text"
  {
    if blocks == [] then []
    else (if blocks[0].kind == "text" then [blocks[0].text] else []) + Texts(blocks[1..])
  }

  /** `parts.join(sep)`. */
  function Join(parts: seq<string>, sep: char): string
  {
    if parts == [] then ""
    else if |parts| == 1 then parts[0]
    else parts[0] + [sep] + Join(parts[1..], sep)
  }

  /** The assistant message text made from a reply. */
  function ReplyText(blocks: seq<Block>): string
  {
    Join(Texts(blocks), '\n')
  }

  /** The assistant entry a finished request appends. */
  function ReplyMessage(outcome: Outcome): Message
  {
    match outcome
    case Reply(blocks) => Message(Assistant, ReplyText(blocks), None)
    case Failure => Message(Assistant, ErrorReply, None)
  }

  /** Filtering distributes over concatenation: the texts keep the block order. */
  lemma {:induction false} TextsAppend(a: seq<Block>, b: seq<Block>)
    ensures Texts(a + b) == Texts(a) + Texts(b)
  {
    if a != [] {
      TextsAppend(a[1..], b);
      var head := if a[0].kind == "text" then [a[0].text] else [];
      assert (a + b)[0] == a[0] && (a + b)[1..] == a[1..] + b;
      calc {
        Texts(a + b);
        head + Texts(a[1..] + b);
        head + (Texts(a[1..]) + Texts(b));
        (head + Texts(a[1..])) + Texts(b);
        Texts(a) + Texts(b);
      }
    } else {
      assert a + b == b;
    }
  }

  /** `s.split(sep)` for a one-character separator. */
  function SplitOn(s: string, sep: char): (r: seq<string>)
    ensures |r| >= 1
  {
    if s == [] then [""]
    else if s[0] == sep then [""] + SplitOn(s[1..], sep)
    else
      var rest := SplitOn(s[1..], sep);
      [[s[0]] + rest[0]] + rest[1..]
  }

  lemma {:induction false} SplitOnPrefix(a: string, b: string, sep: char)
    requires forall j :: 0 <= j < |a| ==> a[j] != sep
    ensures SplitOn(a + b, sep) == [a + SplitOn(b, sep)[0]] + SplitOn(b, sep)[1..]
  {
    if a != [] {
      SplitOnPrefix(a[1..], b, sep);
      var r := SplitOn(b, sep);
      assert (a + b)[0] == a[0] != sep && (a + b)[1..] == a[1..] + b;
      var rest := SplitOn(a[1..] + b, sep);
      assert rest == [a[1..] + r[0]] + r[1..];
      assert SplitOn(a + b, sep) == [[a[0]] + rest[0]] + rest[1..];
      assert [a[0]] + (a[1..] + r[0]) == a + r[0];
    } else {
      var r := SplitOn(b, sep);
      assert a + b == b && a + r[0] == r[0];
      assert r == [r[0]] + r[1..];
    }
  }

  /**
   * Joining with a separator that no part contains can be undone by
   * splitting on it: the assistant message keeps each text block apart.
   */
  lemma {:induction false} SplitJoin(parts: seq<string>, sep: char)
    requires |parts| >= 1
    requires forall k, j :: 0 <= k < |parts| && 0 <= j < |parts[k]| ==> parts[k][j] != sep
    ensures SplitOn(Join(parts, sep), sep) == parts
  {
    if |parts| == 1 {
      SplitOnPrefix(parts[0], "", sep);
      assert parts[0] + "" == parts[0];
    } else {
      var rest := Join(parts[1..], sep);
      SplitJoin(parts[1..], sep);
      assert Join(parts, sep) == parts[0] + ([sep] + rest);
      SplitOnPrefix(parts[0], [sep] + rest, sep);
      assert ([sep] + rest)[1..] == rest;
      assert SplitOn([sep] + rest, sep) == [""] + parts[1..];
      assert parts[0] + "" == parts[0];
    }
  }

  /** A reply whose text blocks hold no newline can be split back into those blocks. */
  lemma ReplyTextSplitsIntoBlocks(blocks: seq<Block>)
    requires exists i :: 0 <= i < |blocks| && blocks[i].kind == "text"
    requires forall i, j :: 0 <= i < |blocks| && 0 <= j < |blocks[i].text| ==> blocks[i].text[j] != '\n'
    ensures SplitOn(ReplyText(blocks), '\n') == Texts(blocks)
  {
    TextsFromBlocks(blocks);
    SplitJoin(Texts(blocks), '\n');
  }

  /** Every text comes from a text block. */
  lemma {:induction false} TextsFromBlocks(blocks: seq<Block>)
    ensures forall k :: 0 <= k < |Texts(blocks)| ==>
      exists i :: 0 <= i < |blocks| && blocks[i].kind == "text" && blocks[i].text == Texts(blocks)[k]
  {
    if blocks != [] {
      TextsFromBlocks(blocks[1..]);
      var head := if blocks[0].kind == "text" then [blocks[0].text] else [];
      var r := Texts(blocks);
      assert r == head + Texts(blocks[1..]);
      forall k | 0 <= k < |r|
        ensures exists i :: 0 <= i < |blocks| && blocks[i].kind == "text" && blocks[i].text == r[k]
      {
        if k < |head| {
          assert blocks[0].kind == "text" && blocks[0].text == r[k];
        } else {
          assert r[k] == Texts(blocks[1..])[k - |head|];
          var i :| 0 <= i < |blocks[1..]| && blocks[1..][i].kind == "text" && blocks[1..][i].text == Texts(blocks[1..])[k - |head|];
          assert blocks[i + 1] == blocks[1..][i];
        }
      }
    } else {
      assert Texts(blocks) == [];
    }
  }
}
