/**
 Inbound text messages and how several of them become one: the text of a group is its texts joined, the
 empty ones left out, and everything about where and when is the latest message's.
 */
module InboundText {
  import opened Wrappers

  /** Where a message came from; `owner` is the key of the session it belongs to. */
  datatype Source = Source(owner: string, messageId: string, threadId: Option<string>)

  datatype Message = Message(
    text: string,
    isText: bool,
    source: Source,
    replyToId: Option<string>,
    replyToText: Option<string>,
    timestamp: int,
    raw: nat)

  function MergeBatchText(existing: string, incoming: string): string {
    if existing != "" && incoming != "" then existing + "\n" + incoming
    else if existing != "" then existing
    else incoming
  }

  predicate BatchCompatible(existing: Message, incoming: Message) {
    && existing.replyToId == incoming.replyToId
    && existing.replyToText == incoming.replyToText
    && existing.source.threadId == incoming.source.threadId
  }

  /** Text that is not a slash command. */
  predicate IsPlainText(m: Message) {
    m.isText && !("/" <= TrimStart(m.text, IsSpaceChar))
  }

  /** The fold of MergeBatchText over the texts of a group. */
  function MergedText(group: seq<Message>): string {
    if group == [] then "" else MergeBatchText(MergedText(group[..|group| - 1]), group[|group| - 1].text)
  }

  /** The one message a group becomes. */
  function Folded(group: seq<Message>): Message
    requires group != []
  {
    var latest := group[|group| - 1];
    group[0].(text := MergedText(group), source := latest.source, timestamp := latest.timestamp, raw := latest.raw)
  }

  // ---- what merging means ---------------------------------------------------------------------

  lemma MergeAssociative(a: string, b: string, c: string)
    ensures MergeBatchText(MergeBatchText(a, b), c) == MergeBatchText(a, MergeBatchText(b, c))
  {
    assert a + "\n" + b + "\n" + c == a + "\n" + (b + "\n" + c);
  }

  /** The length the merged text will have, as the replay queue adds it up without merging. */
  lemma MergedLength(existing: string, incoming: string)
    ensures |MergeBatchText(existing, incoming)|
         == |existing| + (if |existing| != 0 && |incoming| != 0 then 1 else 0) + |incoming|
  {
  }

  /** Groups merge as their members do: it does not matter in how many steps. */
  lemma {:induction false} MergedTextAppends(one: seq<Message>, other: seq<Message>)
    ensures MergedText(one + other) == MergeBatchText(MergedText(one), MergedText(other))
    decreases |other|
  {
    if other == [] {
      assert one + other == one;
    } else {
      var before, last := other[..|other| - 1], other[|other| - 1];
      MergedTextAppends(one, before);
      assert (one + other)[..|one + other| - 1] == one + before;
      MergeAssociative(MergedText(one), MergedText(before), last.text);
    }
  }

  function TextsOf(group: seq<Message>): seq<string> {
    if group == [] then []
    else TextsOf(group[..|group| - 1]) + (if group[|group| - 1].text == "" then [] else [group[|group| - 1].text])
  }

  function JoinLines(texts: seq<string>): string {
    if texts == [] then ""
    else if |texts| == 1 then texts[0]
    else JoinLines(texts[..|texts| - 1]) + "\n" + texts[|texts| - 1]
  }

  /** The merged text is the lines of the texts that are not empty, in order, and nothing else. */
  lemma {:induction false} MergedIsJoined(group: seq<Message>)
    ensures MergedText(group) == JoinLines(TextsOf(group))
    ensures forall text | text in TextsOf(group) :: text != ""
    ensures TextsOf(group) != [] ==> MergedText(group) != ""
  {
    if group != [] {
      var before, last := group[..|group| - 1], group[|group| - 1];
      MergedIsJoined(before);
      if last.text != "" {
        var texts := TextsOf(before) + [last.text];
        assert TextsOf(group) == texts && texts[..|texts| - 1] == TextsOf(before);
        if TextsOf(before) == [] {
          assert MergedText(before) == "";
          assert texts == [last.text];
        } else {
          assert JoinLines(texts) == JoinLines(TextsOf(before)) + "\n" + last.text;
        }
      } else {
        assert TextsOf(before) + [] == TextsOf(before);
      }
    }
  }

  /**
   The one message a group of messages is handed on as, field by field: the texts that are not empty, one
   to a line; source, time and raw event of the last; reply and kind of the first.
   */
  ghost predicate Becomes(group: seq<Message>, m: Message)
    requires group != []
  {
    var first, last := group[0], group[|group| - 1];
    && m.text == JoinLines(TextsOf(group))
    && m.source == last.source && m.timestamp == last.timestamp && m.raw == last.raw
    && m.replyToId == first.replyToId && m.replyToText == first.replyToText && m.isText == first.isText
  }

  lemma FoldedExactly(group: seq<Message>, m: Message)
    requires group != []
    ensures m == Folded(group) <==> Becomes(group, m)
  {
    MergedIsJoined(group);
  }

  /** Two messages of one thread, answering the same message. */
  predicate SameThread(a: Message, b: Message) {
    a.source.threadId == b.source.threadId && a.replyToId == b.replyToId && a.replyToText == b.replyToText
  }

  /** A slash behind nothing but white space. */
  ghost predicate IsCommand(text: string) {
    exists i :: 0 <= i < |text| && text[i] == '/' && forall k | 0 <= k < i :: IsSpaceChar(text[k])
  }

  lemma {:induction false} StartOf(text: string)
    ensures "/" <= TrimStart(text, IsSpaceChar) <==> IsCommand(text)
    decreases |text|
  {
    if text != "" && IsSpaceChar(text[0]) {
      var rest := text[1..];
      StartOf(rest);
      if IsCommand(rest) {
        var i :| 0 <= i < |rest| && rest[i] == '/' && forall k | 0 <= k < i :: IsSpaceChar(rest[k]);
        assert text[i + 1] == '/' && forall k | 0 < k <= i :: text[k] == rest[k - 1];
      }
      if IsCommand(text) {
        var i :| 0 <= i < |text| && text[i] == '/' && forall k | 0 <= k < i :: IsSpaceChar(text[k]);
        assert i > 0 && rest[i - 1] == '/' && forall k | 0 <= k < i - 1 :: rest[k] == text[k + 1];
      }
    } else if text != "" && text[0] == '/' {
      assert text[0] == '/';
    }
  }

  /** Plain text is text that is no slash command. */
  lemma PlainTextExactly(m: Message)
    ensures IsPlainText(m) <==> m.isText && !IsCommand(m.text)
  {
    StartOf(m.text);
  }
}
