/** The conversation history of glai/back_end/messages.py: single tagged messages (`AIMessage`), the
    dict-backed history that renders them into one prompt (`AIMessages`), and the list-backed form
    that `AIMessages.from_dict` produces (`LoadedMessages`). */
module Messages {
  import opened Wrappers
  import opened JsonValues
  import opened OrderedDict

  /** The three fields of an `AIMessage` as a value. */
  datatype Message = Message(content: string, tagOpen: string, tagClose: string)
  {
    /** `AIMessage.__str__`: the content wrapped in its open and close tags, without escaping. */
    function Text(): string
    {
      tagOpen + content + tagClose
    }

    /** The fields after `edit(new_content, new_tag_open, new_tag_close)`; None keeps a tag. */
    function Edited(newContent: string, newTagOpen: Option<string>, newTagClose: Option<string>): Message
    {
      Message(newContent,
              if newTagOpen.Some? then newTagOpen.value else tagOpen,
              if newTagClose.Some? then newTagClose.value else tagClose)
    }

    /** `AIMessage.to_dict`. */
    function ToDict(): (r: map<string, Json>)
      ensures r.Keys == MessageKeys
      ensures FromDict(r) == Success(this)
    {
      map["content" := JString(content), "tag_open" := JString(tagOpen), "tag_close" := JString(tagClose)]
    }

    /** `AIMessage.from_dict`: KeyError when one of the three keys is missing. A value that is not a
        string is refused with TypeError (Python would store it as it is). */
    static function FromDict(d: map<string, Json>): (r: Result<Message>)
      ensures r.Success? <==> MessageKeys <= d.Keys && d["content"].JString? && d["tag_open"].JString? && d["tag_close"].JString?
      ensures r.Success? ==> r.value == Message(d["content"].s, d["tag_open"].s, d["tag_close"].s)
      ensures r.Failure? ==> r.error == (if MessageKeys <= d.Keys then TypeError else KeyError)
    {
      if !("content" in d && "tag_open" in d && "tag_close" in d) then Failure(KeyError)
      else if !(d["content"].JString? && d["tag_open"].JString? && d["tag_close"].JString?) then Failure(TypeError)
      else Success(Message(d["content"].s, d["tag_open"].s, d["tag_close"].s))
    }
  }

  /** The rendering starts with the open tag and ends with the close tag, with the content between. */
  lemma TextParts(m: Message)
    ensures |m.Text()| == |m.tagOpen| + |m.content| + |m.tagClose|
    ensures m.Text()[..|m.tagOpen|] == m.tagOpen
    ensures m.Text()[|m.tagOpen|..|m.tagOpen| + |m.content|] == m.content
    ensures m.Text()[|m.tagOpen| + |m.content|..] == m.tagClose
  {
  }

  const MessageKeys: set<string> := {"content", "tag_open", "tag_close"}

  /** Editing replaces the content always and each tag only when a new one is given; editing
      again overrides the first edit wherever the second gives a value. */
  lemma EditedProperties(m: Message, c1: string, o1: Option<string>, x1: Option<string>,
                         c2: string, o2: Option<string>, x2: Option<string>)
    ensures m.Edited(c1, None, None) == Message(c1, m.tagOpen, m.tagClose)
    ensures m.Edited(c1, o1, x1).Edited(c2, o2, x2).content == c2
    ensures o2.Some? ==> m.Edited(c1, o1, x1).Edited(c2, o2, x2).tagOpen == o2.value
    ensures o2.None? ==> m.Edited(c1, o1, x1).Edited(c2, o2, x2).tagOpen == m.Edited(c1, o1, x1).tagOpen
    ensures x2.Some? ==> m.Edited(c1, o1, x1).Edited(c2, o2, x2).tagClose == x2.value
    ensures x2.None? ==> m.Edited(c1, o1, x1).Edited(c2, o2, x2).tagClose == m.Edited(c1, o1, x1).tagClose
  {
  }

  /** One turn of a conversation, a mutable object: the history stores references to it, so an
      edit through any reference shows in every entry that holds it. */
  class AIMessage {
    var content: string
    var tagOpen: string
    var tagClose: string

    constructor(content: string, tagOpen: string, tagClose: string)
      ensures Value() == Message(content, tagOpen, tagClose)
    {
      this.content := content;
      this.tagOpen := tagOpen;
      this.tagClose := tagClose;
    }

    function Value(): Message
      reads this
    {
      Message(content, tagOpen, tagClose)
    }

    /** `__str__`, `__repr__` and `text`: the open tag, the content and the close tag, in that
        order and nothing else. */
    function Text(): (r: string)
      reads this
      ensures |r| == |tagOpen| + |content| + |tagClose|
      ensures r[..|tagOpen|] == tagOpen
      ensures r[|tagOpen|..|tagOpen| + |content|] == content
      ensures r[|tagOpen| + |content|..] == tagClose
    {
      TextParts(Value());
      Value().Text()
    }

    /** `get_tags`: the pair the rendering starts and ends with. */
    function GetTags(): (r: (string, string))
      reads this
      ensures |r.0| + |r.1| <= |Text()|
      ensures Text()[..|r.0|] == r.0 && Text()[|Text()| - |r.1|..] == r.1
    {
      (tagOpen, tagClose)
    }

    /** `to_dict`: the three keys, and `from_dict` reads it back to this message's fields. */
    function ToDict(): (r: map<string, Json>)
      reads this
      ensures r.Keys == MessageKeys
      ensures Message.FromDict(r) == Success(Value())
    {
      Value().ToDict()
    }

    /** `edit`: the content is always replaced, each tag only when the argument is not None. */
    method Edit(newContent: string, newTagOpen: Option<string>, newTagClose: Option<string>)
      modifies this
      ensures Value() == old(Value()).Edited(newContent, newTagOpen, newTagClose)
    {
      content := newContent;
      if newTagOpen.Some? {
        tagOpen := newTagOpen.value;
      }
      if newTagClose.Some? {
        tagClose := newTagClose.value;
      }
    }

    /** `from_dict`: a new message from a message dict. */
    static method FromDict(messageDict: map<string, Json>) returns (r: Result<AIMessage>)
      ensures r.Failure? ==> Message.FromDict(messageDict) == Failure(r.error)
      ensures r.Success? ==> fresh(r.value) && Message.FromDict(messageDict) == Success(r.value.Value())
    {
      var parsed := Message.FromDict(messageDict);
      if parsed.Failure? {
        return Failure(parsed.error);
      }
      var m := new AIMessage(parsed.value.content, parsed.value.tagOpen, parsed.value.tagClose);
      r := Success(m);
    }
  }

  /** The concatenated renderings of a sequence of messages, in order. */
  function Render(messages: seq<Message>): string
  {
    if messages == [] then "" else Render(messages[..|messages| - 1]) + messages[|messages| - 1].Text()
  }

  /** The first message renders first: the rendering read from the front. */
  lemma {:induction false} RenderCons(messages: seq<Message>)
    requires messages != []
    ensures Render(messages) == messages[0].Text() + Render(messages[1..])
    decreases |messages|
  {
    if |messages| == 1 {
      assert messages[1..] == [];
      assert messages[..0] == [];
    } else {
      var front, last, rest := messages[..|messages| - 1], messages[|messages| - 1], messages[1..];
      assert Render(messages) == Render(front) + last.Text();
      RenderCons(front);
      assert front[0] == messages[0];
      assert rest[..|rest| - 1] == front[1..] && rest[|rest| - 1] == last;
      assert Render(rest) == Render(front[1..]) + last.Text();
    }
  }

  lemma RenderAppend(messages: seq<Message>, m: Message)
    ensures Render(messages + [m]) == Render(messages) + m.Text()
  {
    assert (messages + [m])[..|messages|] == messages;
  }

  /** The current fields of the messages an ordered dict holds, in iteration order. */
  function Snapshot(items: Items<AIMessage>): (r: seq<Message>)
    reads set i | 0 <= i < |items| :: items[i].1
    ensures |r| == |items|
    ensures forall i :: 0 <= i < |items| ==> r[i] == items[i].1.Value()
  {
    seq(|items|, i requires 0 <= i < |items| reads set j | 0 <= j < |items| :: items[j].1 => items[i].1.Value())
  }

  /** What a snapshot becomes when `target` is edited in place: every entry holding `target`
      shows the edit, every other entry keeps its fields. */
  function AfterEdit(items: Items<AIMessage>, before: seq<Message>, target: AIMessage,
                     newContent: string, newTagOpen: Option<string>, newTagClose: Option<string>): (r: seq<Message>)
    requires |before| == |items|
    ensures |r| == |items|
  {
    seq(|items|, i requires 0 <= i < |items| =>
      if items[i].1 == target then before[i].Edited(newContent, newTagOpen, newTagClose) else before[i])
  }

  /** When no other entry holds the edited object, an edit changes that entry only. */
  lemma AfterEditTouchesOnlyTarget(items: Items<AIMessage>, before: seq<Message>, k: nat,
                                   newContent: string, newTagOpen: Option<string>, newTagClose: Option<string>)
    requires |before| == |items| && k < |items|
    requires forall i :: 0 <= i < |items| && i != k ==> items[i].1 != items[k].1
    ensures AfterEdit(items, before, items[k].1, newContent, newTagOpen, newTagClose)[k] ==
      before[k].Edited(newContent, newTagOpen, newTagClose)
    ensures forall i :: 0 <= i < |items| && i != k ==>
      AfterEdit(items, before, items[k].1, newContent, newTagOpen, newTagClose)[i] == before[i]
  {
  }

  /** A tag-pair argument of the `AIMessages` constructor: a dict, a tuple or list, or anything else
      (a set, which Python cannot index, or a value of another type). */
  datatype TagArg = TagDict(fields: map<string, string>) | TagSequence(items: seq<string>) | TagOther

  datatype TagPair = TagPair(open: string, close: string)

  /** The tag configuration of a history; no system pair means the model has no system turn. */
  datatype TagConfig = TagConfig(user: TagPair, ai: TagPair, system: Option<TagPair>)

  /** The normalisation of one tag-pair argument: a dict needs both "open" and "close" (else
      ValueError), a sequence needs two elements (else IndexError), anything else is a TypeError. */
  function NormaliseTags(tags: TagArg): (r: Result<TagPair>)
    ensures tags.TagDict? ==> (r.Success? <==> "open" in tags.fields && "close" in tags.fields)
    ensures tags.TagDict? && r.Success? ==> r.value == TagPair(tags.fields["open"], tags.fields["close"])
    ensures tags.TagDict? && r.Failure? ==> r.error == ValueError
    ensures tags.TagSequence? ==> (r.Success? <==> |tags.items| >= 2)
    ensures tags.TagSequence? && r.Success? ==> r.value == TagPair(tags.items[0], tags.items[1])
    ensures tags.TagSequence? && r.Failure? ==> r.error == IndexError
    ensures tags.TagOther? ==> r == Failure(TypeError)
  {
    match tags
    case TagDict(fields) =>
      if "open" in fields && "close" in fields then Success(TagPair(fields["open"], fields["close"]))
      else Failure(ValueError)
    case TagSequence(items) =>
      if |items| >= 2 then Success(TagPair(items[0], items[1])) else Failure(IndexError)
    case TagOther => Failure(TypeError)
  }

  /** The tag handling of the `AIMessages` constructor: user, then AI, then system tags; the first
      malformed argument decides the exception, and a missing system argument means none. */
  function ParseTagConfig(userTags: TagArg, aiTags: TagArg, systemTags: Option<TagArg>): (r: Result<TagConfig>)
    ensures r.Success? <==>
      NormaliseTags(userTags).Success? && NormaliseTags(aiTags).Success? &&
      (systemTags.Some? ==> NormaliseTags(systemTags.value).Success?)
    ensures r.Success? ==> r.value.user == NormaliseTags(userTags).value && r.value.ai == NormaliseTags(aiTags).value
    ensures r.Success? ==> (r.value.system.Some? <==> systemTags.Some?)
    ensures r.Success? && systemTags.Some? ==> r.value.system.value == NormaliseTags(systemTags.value).value
    ensures r.Failure? && NormaliseTags(userTags).Failure? ==> r.error == NormaliseTags(userTags).error
    ensures r.Failure? && NormaliseTags(userTags).Success? && NormaliseTags(aiTags).Failure? ==>
      r.error == NormaliseTags(aiTags).error
    ensures r.Failure? && NormaliseTags(userTags).Success? && NormaliseTags(aiTags).Success? ==>
      r.error == NormaliseTags(systemTags.value).error
  {
    match NormaliseTags(userTags)
    case Failure(e) => Failure(e)
    case Success(user) =>
      match NormaliseTags(aiTags)
      case Failure(e) => Failure(e)
      case Success(ai) =>
        match systemTags
        case None => Success(TagConfig(user, ai, None))
        case Some(arg) =>
          match NormaliseTags(arg)
          case Failure(e) => Failure(e)
          case Success(system) => Success(TagConfig(user, ai, Some(system)))
  }

  /** The id invariant of a history: distinct non-negative ids, a generator of 0 on an empty
      history and otherwise equal to the largest id, which is present. */
  ghost predicate IdsValid(items: Items<AIMessage>, generator: int)
  {
    && DistinctKeys(items)
    && (forall i :: 0 <= i < |items| ==> 0 <= items[i].0 <= generator)
    && (items == [] ==> generator == 0)
    && (items != [] ==> generator in KeySet(items))
  }

  /** The next generated id is new, and storing under it keeps the invariant. */
  lemma IdsValidAppend(items: Items<AIMessage>, generator: int, m: AIMessage)
    requires IdsValid(items, generator)
    ensures generator + 1 !in KeySet(items) && generator >= 0
    ensures IdsValid(items + [(generator + 1, m)], generator + 1)
    ensures Get(items + [(generator + 1, m)], generator + 1) == Success(m)
  {
    var r := items + [(generator + 1, m)];
    assert r[|items|] == (generator + 1, m);
    assert generator + 1 in KeySet(r);
    assert forall i :: 0 <= i < |items| ==> r[i].0 != generator + 1;
  }

  /** Inserting under id 0 keeps the invariant, with the generator raised only on a non-empty
      history. */
  lemma IdsValidInsertFirst(items: Items<AIMessage>, generator: int, m: AIMessage)
    requires IdsValid(items, generator)
    ensures IdsValid(ShiftKeys(items, 0) + [(0, m)], generator + (if |items| > 0 then 1 else 0))
  {
    var r := ShiftKeys(items, 0) + [(0, m)];
    ShiftKeysAppendDistinct(items, 0, m);
    if items != [] {
      var j :| 0 <= j < |items| && items[j].0 == generator;
      assert r[j].0 == generator + 1;
      assert r[j].0 in KeySet(r);
    } else {
      assert r[0].0 in KeySet(r);
    }
  }

  lemma SnapshotAppend(items: Items<AIMessage>, key: int, m: AIMessage)
    ensures Snapshot(items + [(key, m)]) == Snapshot(items) + [m.Value()]
  {
  }

  lemma SnapshotShift(items: Items<AIMessage>, at: int)
    ensures Snapshot(ShiftKeys(items, at)) == Snapshot(items)
  {
  }

  /** The message argument of `add_message` and its relatives: plain content, to be wrapped in
      tags, or an existing `AIMessage`, stored as it is. */
  datatype Payload = Content(text: string) | Existing(message: AIMessage)

  /** The history: three tag pairs and an insertion-ordered dict from id to message, with the
      id generator. No method of the dict-backed history reassigns a tag after construction, so
      the tags are constant fields. */
  class AIMessages {
    const userTagOpen: string
    const userTagClose: string
    const aiTagOpen: string
    const aiTagClose: string
    const systemTagOpen: Option<string>
    const systemTagClose: Option<string>
    var messages: Items<AIMessage>
    var messageIdGenerator: int

    /** The id invariant kept by every operation: distinct non-negative ids, a generator of 0 on
        an empty history and otherwise equal to the largest id, which is present. */
    ghost predicate Valid()
      reads this`messages, this`messageIdGenerator
    {
      IdsValid(messages, messageIdGenerator)
    }

    /** The message objects the history holds. */
    ghost function Objects(): set<AIMessage>
      reads this`messages
    {
      set i | 0 <= i < |messages| :: messages[i].1
    }

    /** The history's message fields in iteration order. */
    function Values(): seq<Message>
      reads this`messages, Objects()
    {
      Snapshot(messages)
    }

    /** `__str__`, `__repr__` and `text`: the renderings joined in dict iteration order, which is
        insertion order and not id order. */
    function Text(): (r: string)
      reads this`messages, Objects()
      ensures messages == [] ==> r == ""
      ensures messages != [] ==> |Values()[0].Text()| <= |r| && r[..|Values()[0].Text()|] == Values()[0].Text()
    {
      if messages == [] then Render(Values())
      else
        RenderCons(Values());
        Render(Values())
    }

    /** The history that the constructor builds once the tag arguments are normalised. */
    constructor(config: TagConfig)
      ensures Valid() && messages == []
      ensures UserTags() == (config.user.open, config.user.close)
      ensures AiTags() == (config.ai.open, config.ai.close)
      ensures SystemTags() == if config.system.Some? then Some((config.system.value.open, config.system.value.close)) else None
      ensures HasSystemTags() <==> config.system.Some?
    {
      userTagOpen, userTagClose := config.user.open, config.user.close;
      aiTagOpen, aiTagClose := config.ai.open, config.ai.close;
      systemTagOpen := if config.system.Some? then Some(config.system.value.open) else None;
      systemTagClose := if config.system.Some? then Some(config.system.value.close) else None;
      messages := [];
      messageIdGenerator := 0;
    }

    /** `AIMessages(user_tags, ai_tags, system_tags)`, with its defaults; raises on a malformed
        tag argument. */
    static method Create(userTags: TagArg := TagSequence(["[INST]", "[/INST]"]),
                         aiTags: TagArg := TagSequence(["", ""]),
                         systemTags: Option<TagArg> := None)
      returns (r: Result<AIMessages>)
      ensures r.Failure? ==> ParseTagConfig(userTags, aiTags, systemTags) == Failure(r.error)
      ensures r.Success? ==> ParseTagConfig(userTags, aiTags, systemTags).Success?
      ensures r.Success? ==> fresh(r.value) && r.value.Valid() && r.value.messages == []
      ensures r.Success? ==> (r.value.HasSystemTags() <==> systemTags.Some?)
      ensures r.Success? ==>
        var c := ParseTagConfig(userTags, aiTags, systemTags).value;
        && r.value.UserTags() == (c.user.open, c.user.close)
        && r.value.AiTags() == (c.ai.open, c.ai.close)
        && r.value.SystemTags() == (if c.system.Some? then Some((c.system.value.open, c.system.value.close)) else None)
    {
      var config := ParseTagConfig(userTags, aiTags, systemTags);
      if config.Failure? {
        return Failure(config.error);
      }
      var history := new AIMessages(config.value);
      r := Success(history);
    }

    /** `user_tags`: the pair `to_dict` records under "user_tag_open" and "user_tag_close". */
    function UserTags(): (r: (string, string))
      reads this`messages
      ensures ToDict().Success? ==>
        ToDict().value["user_tag_open"] == JString(r.0) && ToDict().value["user_tag_close"] == JString(r.1)
    {
      (userTagOpen, userTagClose)
    }

    /** `ai_tags`: the pair `to_dict` records under "ai_tag_open" and "ai_tag_close". */
    function AiTags(): (r: (string, string))
      reads this`messages
      ensures ToDict().Success? ==>
        ToDict().value["ai_tag_open"] == JString(r.0) && ToDict().value["ai_tag_close"] == JString(r.1)
    {
      (aiTagOpen, aiTagClose)
    }

    /** `system_tags`: the pair only when both system tags are set. */
    function SystemTags(): (r: Option<(string, string)>)
      ensures r.Some? <==> systemTagOpen.Some? && systemTagClose.Some?
      ensures r.Some? ==> r.value == (systemTagOpen.value, systemTagClose.value)
    {
      if systemTagOpen.Some? && systemTagClose.Some? then Some((systemTagOpen.value, systemTagClose.value)) else None
    }

    /** `has_system_tags`: both system tags are set, and then `to_dict` records them as strings. */
    predicate HasSystemTags()
      reads this`messages
      ensures HasSystemTags() <==> systemTagOpen.Some? && systemTagClose.Some?
      ensures HasSystemTags() && ToDict().Success? ==>
        ToDict().value["system_tag_open"] == JString(systemTagOpen.value) &&
        ToDict().value["system_tag_close"] == JString(systemTagClose.value)
    {
      SystemTags().Some?
    }

    /** `_generate_message_id`: bumps the generator and returns its new value. */
    method GenerateMessageId() returns (id: int)
      modifies this`messageIdGenerator
      ensures messageIdGenerator == old(messageIdGenerator) + 1 && id == messageIdGenerator
    {
      messageIdGenerator := messageIdGenerator + 1;
      id := messageIdGenerator;
    }

    /** `add_message`: stores the message under a fresh id, one above the previous generator value,
        after every existing entry, and returns the stored message. */
    method AddMessage(message: Payload, tagOpen: string, tagClose: string) returns (m: AIMessage)
      requires Valid()
      modifies this`messages, this`messageIdGenerator
      ensures Valid()
      ensures messageIdGenerator == old(messageIdGenerator) + 1
      ensures messageIdGenerator !in KeySet(old(messages))
      ensures messages == old(messages) + [(messageIdGenerator, m)]
      ensures GetLastMessage() == Success(m)
      ensures message.Existing? ==> m == message.message
      ensures message.Content? ==> fresh(m) && m.Value() == Message(message.text, tagOpen, tagClose)
      ensures Values() == old(Values()) + [m.Value()]
      ensures Text() == old(Text()) + m.Text()
    {
      if message.Content? {
        m := new AIMessage(message.text, tagOpen, tagClose);
        assert m !in Objects();
      } else {
        m := message.message;
      }
      assert Values() == old(Values());
      m := Store(m);
    }

    /** The second half of `add_message`: `self.messages[self._generate_message_id()] = message`,
        then the stored entry is read back. */
    method Store(message: AIMessage) returns (m: AIMessage)
      requires Valid()
      modifies this`messages, this`messageIdGenerator
      ensures Valid()
      ensures messageIdGenerator == old(messageIdGenerator) + 1
      ensures messageIdGenerator !in KeySet(old(messages))
      ensures messages == old(messages) + [(messageIdGenerator, message)] && m == message
      ensures GetLastMessage() == Success(m)
      ensures Values() == old(Values()) + [m.Value()]
      ensures Text() == old(Text()) + m.Text()
    {
      ghost var before, generator, values := messages, messageIdGenerator, Values();
      IdsValidAppend(messages, messageIdGenerator, message);
      var id := GenerateMessageId();
      messages := Put(messages, id, message);
      assert messages == before + [(generator + 1, message)];
      IdsValidAppend(before, generator, message);
      m := Get(messages, messageIdGenerator).value;
      assert Snapshot(before) == values;
      SnapshotAppend(before, id, m);
      RenderAppend(values, m.Value());
    }

    /** `_insert_message`: rebuilds the dict, moving every id at or above `messageId` up by one,
        then stores the message under `messageId`, which therefore comes last in iteration order.
        The generator rises by one only when the history was not empty. */
    method InsertMessage(message: AIMessage, messageId: int)
      requires DistinctKeys(messages)
      modifies this`messages, this`messageIdGenerator
      ensures messageIdGenerator == old(messageIdGenerator) + (if |old(messages)| > 0 then 1 else 0)
      ensures messages == ShiftKeys(old(messages), messageId) + [(messageId, message)]
      ensures DistinctKeys(messages)
      ensures Values() == old(Values()) + [message.Value()]
      ensures Text() == old(Text()) + message.Text()
    {
      ghost var values := Values();
      messageIdGenerator := messageIdGenerator + (if |messages| > 0 then 1 else 0);
      ghost var generator := messageIdGenerator;
      var items := messages;
      var updated: Items<AIMessage> := [];
      for i := 0 to |items|
        invariant messages == items && messageIdGenerator == generator
        invariant updated == ShiftKeys(items[..i], messageId)
      {
        var (id, msg) := items[i];
        ShiftKeysFresh(items, messageId, i);
        assert ShiftKeys(items[..i + 1], messageId) == ShiftKeys(items[..i], messageId) + [(ShiftKey(id, messageId), msg)];
        if id < messageId {
          updated := Put(updated, id, msg);
        } else {
          updated := Put(updated, id + 1, msg);
        }
      }
      assert items[..|items|] == items;
      ShiftKeysFresh(items, messageId, |items|);
      ShiftKeysAppendDistinct(items, messageId, message);
      updated := Put(updated, messageId, message);
      messages := updated;
      assert Snapshot(items) == values;
      SnapshotShift(items, messageId);
      SnapshotAppend(ShiftKeys(items, messageId), messageId, message);
      RenderAppend(values, message.Value());
    }

    /** `add_user_message`. */
    method AddUserMessage(message: Payload) returns (m: AIMessage)
      requires Valid()
      modifies this`messages, this`messageIdGenerator
      ensures Valid()
      ensures messageIdGenerator == old(messageIdGenerator) + 1
      ensures messages == old(messages) + [(messageIdGenerator, m)]
      ensures GetLastMessage() == Success(m)
      ensures message.Existing? ==> m == message.message
      ensures message.Content? ==> fresh(m) && m.Value() == Message(message.text, userTagOpen, userTagClose)
      ensures Text() == old(Text()) + m.Text()
    {
      m := AddMessage(message, userTagOpen, userTagClose);
    }

    /** `add_ai_message`. */
    method AddAiMessage(message: Payload) returns (m: AIMessage)
      requires Valid()
      modifies this`messages, this`messageIdGenerator
      ensures Valid()
      ensures messageIdGenerator == old(messageIdGenerator) + 1
      ensures messages == old(messages) + [(messageIdGenerator, m)]
      ensures GetLastMessage() == Success(m)
      ensures message.Existing? ==> m == message.message
      ensures message.Content? ==> fresh(m) && m.Value() == Message(message.text, aiTagOpen, aiTagClose)
      ensures Text() == old(Text()) + m.Text()
    {
      m := AddMessage(message, aiTagOpen, aiTagClose);
    }

    /** `set_system_message`: without system tags nothing changes (Python only prints a warning);
        otherwise the message is inserted under id 0, every existing id moving up by one, and it
        renders last, so first only on an empty history. A second call adds a second entry.
        The Python method returns None in both cases, hence no result. */
    method SetSystemMessage(message: Payload)
      requires Valid()
      modifies this`messages, this`messageIdGenerator
      ensures Valid()
      ensures !HasSystemTags() ==> messages == old(messages) && messageIdGenerator == old(messageIdGenerator)
      ensures HasSystemTags() ==>
        && messages != []
        && messages == ShiftKeys(old(messages), 0) + [(0, Newest())]
        && messageIdGenerator == old(messageIdGenerator) + (if old(messages) == [] then 0 else 1)
        && Text() == old(Text()) + Newest().Text()
      ensures HasSystemTags() && message.Existing? ==> Newest() == message.message
      ensures HasSystemTags() && message.Content? ==>
        fresh(Newest()) && Newest().Value() == Message(message.text, systemTagOpen.value, systemTagClose.value)
    {
      if HasSystemTags() {
        var m: AIMessage;
        if message.Content? {
          m := new AIMessage(message.text, systemTagOpen.value, systemTagClose.value);
          assert m !in Objects();
        } else {
          m := message.message;
        }
        assert Text() == old(Text());
        InsertSystemMessage(m);
      }
    }

    /** The entry stored last, which renders last. */
    function Newest(): AIMessage
      requires messages != []
      reads this`messages
    {
      messages[|messages| - 1].1
    }

    /** `_insert_message(message, 0)` as `set_system_message` calls it, on a valid history. */
    method InsertSystemMessage(message: AIMessage)
      requires Valid()
      modifies this`messages, this`messageIdGenerator
      ensures Valid()
      ensures messages == ShiftKeys(old(messages), 0) + [(0, message)]
      ensures messageIdGenerator == old(messageIdGenerator) + (if old(messages) == [] then 0 else 1)
      ensures Text() == old(Text()) + message.Text()
    {
      ghost var before, generator := messages, messageIdGenerator;
      InsertMessage(message, 0);
      IdsValidInsertFirst(before, generator, message);
    }

    /** `reset_messages`. */
    method ResetMessages()
      modifies this`messages, this`messageIdGenerator
      ensures Valid() && messages == [] && messageIdGenerator == 0
      ensures Text() == ""
    {
      messages := [];
      messageIdGenerator := 0;
    }

    /** `get_last_message`: the message under the generator's id, which is the largest id;
        KeyError on an empty history. */
    function GetLastMessage(): (r: Result<AIMessage>)
      reads this`messages, this`messageIdGenerator
      ensures r.Failure? <==> messageIdGenerator !in KeySet(messages)
      ensures Valid() ==> (r.Failure? <==> messages == [])
      ensures r.Failure? ==> r.error == KeyError
      ensures r.Success? ==> (messageIdGenerator, r.value) in messages
      ensures Valid() && r.Success? ==> forall i :: 0 <= i < |messages| ==> messages[i].0 <= messageIdGenerator
    {
      Get(messages, messageIdGenerator)
    }

    /** `edit_message`: edits the message under `messageId` in place; KeyError and no change when
        there is none. */
    method EditMessage(messageId: int, newContent: string, newTagOpen: Option<string>, newTagClose: Option<string>)
      returns (r: Outcome)
      modifies Objects()
      ensures r.Fail? <==> messageId !in KeySet(messages)
      ensures r.Fail? ==> r.error == KeyError && Values() == old(Values())
      ensures r.Pass? ==>
        Values() == AfterEdit(messages, old(Values()), messages[Find(messages, messageId).value].1,
                              newContent, newTagOpen, newTagClose)
    {
      var found := Find(messages, messageId);
      if found.None? {
        return Fail(KeyError);
      }
      var target := messages[found.value].1;
      ghost var before := Values();
      target.Edit(newContent, newTagOpen, newTagClose);
      assert Values() == AfterEdit(messages, before, target, newContent, newTagOpen, newTagClose);
      r := Pass;
    }

    /** `edit_last_message`: edits the message `get_last_message` returns; KeyError on an empty
        history. */
    method EditLastMessage(newContent: string, newTagOpen: Option<string>, newTagClose: Option<string>)
      returns (r: Outcome)
      modifies Objects()
      ensures r.Fail? <==> GetLastMessage().Failure?
      ensures Valid() ==> (r.Fail? <==> messages == [])
      ensures r.Fail? ==> r.error == KeyError && Values() == old(Values())
      ensures r.Pass? ==>
        Values() == AfterEdit(messages, old(Values()), GetLastMessage().value, newContent, newTagOpen, newTagClose)
    {
      var last := GetLastMessage();
      if last.Failure? {
        return Fail(last.error);
      }
      var target := last.value;
      ghost var before := Values();
      target.Edit(newContent, newTagOpen, newTagClose);
      assert Values() == AfterEdit(messages, before, target, newContent, newTagOpen, newTagClose);
      r := Pass;
    }

    /** `edit_system_message`: ValueError without system tags; otherwise `messages[0]` is read,
        which raises KeyError when no id 0 exists; if that message carries the system tags its
        content is edited, else a new system message is inserted. */
    method EditSystemMessage(newContent: string) returns (r: Outcome)
      requires Valid()
      modifies this`messages, this`messageIdGenerator, Objects()
      ensures Valid()
      ensures SystemTags().None? ==> r == Fail(ValueError)
      ensures SystemTags().Some? && 0 !in KeySet(old(messages)) ==> r == Fail(KeyError)
      ensures r.Fail? ==> messages == old(messages) && messageIdGenerator == old(messageIdGenerator) && Values() == old(Values())
      ensures SystemTags().Some? && 0 in KeySet(old(messages)) ==> r == Pass
      ensures r.Pass? && old(HasSystemTagsAt0()) ==>
        && messages == old(messages) && messageIdGenerator == old(messageIdGenerator)
        && Values() == AfterEdit(messages, old(Values()), Get(messages, 0).value, newContent, None, None)
      ensures r.Pass? && !old(HasSystemTagsAt0()) ==>
        && |messages| == |old(messages)| + 1
        && messages[..|old(messages)|] == ShiftKeys(old(messages), 0)
        && messages[|old(messages)|].0 == 0
        && fresh(messages[|old(messages)|].1)
        && messages[|old(messages)|].1.Value() == Message(newContent, systemTagOpen.value, systemTagClose.value)
        && messageIdGenerator == old(messageIdGenerator) + 1
        && Text() == old(Text()) + messages[|old(messages)|].1.Text()
    {
      if SystemTags().None? {
        return Fail(ValueError);
      }
      var first := Get(messages, 0);
      if first.Failure? {
        return Fail(first.error);
      }
      if first.value.tagOpen == systemTagOpen.value && first.value.tagClose == systemTagClose.value {
        r := EditMessage(0, newContent, None, None);
      } else {
        SetSystemMessage(Content(newContent));
        r := Pass;
      }
    }

    /** Whether `messages[0]` exists and carries both system tags. */
    predicate HasSystemTagsAt0()
      reads this`messages, Objects()
    {
      && SystemTags().Some?
      && Get(messages, 0).Success?
      && Get(messages, 0).value.tagOpen == systemTagOpen.value
      && Get(messages, 0).value.tagClose == systemTagClose.value
    }

    /** `to_dict` on the dict-backed history: the list comprehension iterates the dict's int keys
        and calls `to_dict` on them, so only an empty history can be converted. */
    function ToDict(): (r: Result<map<string, Json>>)
      reads this`messages
      ensures r.Failure? <==> messages != []
      ensures r.Failure? ==> r.error == AttributeError
      ensures r.Success? ==> r.value.Keys == RecordKeys && r.value["messages"] == JArray([])
      ensures r.Success? ==> LoadedMessages.FromDict(r.value).Success?
    {
      if messages != [] then Failure(AttributeError)
      else
        var loaded := LoadedMessages(JString(userTagOpen), JString(userTagClose), JString(aiTagOpen), JString(aiTagClose),
                                     TagJson(systemTagOpen), TagJson(systemTagClose), []);
        FromDictOfToDict(loaded);
        Success(loaded.ToDict())
    }

    /** `create_single_message`. */
    static method CreateSingleMessage(message: string, tagOpen: string := "", tagClose: string := "")
      returns (m: AIMessage)
      ensures fresh(m) && m.Value() == Message(message, tagOpen, tagClose)
    {
      m := new AIMessage(message, tagOpen, tagClose);
    }
  }

  function TagJson(tag: Option<string>): Json
  {
    if tag.Some? then JString(tag.value) else JNull
  }

  const RecordKeys: set<string> :=
    {"user_tag_open", "user_tag_close", "ai_tag_open", "ai_tag_close", "system_tag_open", "system_tag_close", "messages"}

  /** The keys `from_dict` reads with `[]`, so that a missing one raises KeyError. */
  const RequiredKeys: set<string> := {"user_tag_open", "user_tag_close", "ai_tag_open", "ai_tag_close", "messages"}

  /** A history as `AIMessages.from_dict` leaves it: `load_messages` has replaced the dict by a
      list of messages. The tag fields hold whatever the record held. */
  datatype LoadedMessages = LoadedMessages(
    userTagOpen: Json, userTagClose: Json, aiTagOpen: Json, aiTagClose: Json,
    systemTagOpen: Json, systemTagClose: Json, messages: seq<Message>)
  {
    /** `to_dict` on the list-backed form. */
    function ToDict(): (r: map<string, Json>)
      ensures r.Keys == RecordKeys
      ensures r["messages"].JArray? && |r["messages"].items| == |messages|
    {
      map["user_tag_open" := userTagOpen, "user_tag_close" := userTagClose,
          "ai_tag_open" := aiTagOpen, "ai_tag_close" := aiTagClose,
          "system_tag_open" := systemTagOpen, "system_tag_close" := systemTagClose,
          "messages" := JArray(seq(|messages|, i requires 0 <= i < |messages| => JObject(messages[i].ToDict())))]
    }

    /** `AIMessages.from_dict`: KeyError when a required key is missing, absent system tags become
        None, and `load_messages` handles the "messages" value. A None value leaves the fresh
        history's empty dict, which `to_dict` converts like an empty list; it is kept here as no
        messages. Rendering the list form is not part of this model. */
    static function FromDict(d: map<string, Json>): (r: Result<LoadedMessages>)
      ensures !(RequiredKeys <= d.Keys) ==> r == Failure(KeyError)
      ensures RequiredKeys <= d.Keys ==>
        (r.Success? <==> LoadMessages(d["user_tag_open"], d["user_tag_close"], d["messages"]).Success?)
      ensures r.Success? ==>
        && r.value.userTagOpen == d["user_tag_open"] && r.value.userTagClose == d["user_tag_close"]
        && r.value.aiTagOpen == d["ai_tag_open"] && r.value.aiTagClose == d["ai_tag_close"]
        && r.value.systemTagOpen == (if "system_tag_open" in d then d["system_tag_open"] else JNull)
        && r.value.systemTagClose == (if "system_tag_close" in d then d["system_tag_close"] else JNull)
    {
      if !("user_tag_open" in d && "user_tag_close" in d && "ai_tag_open" in d && "ai_tag_close" in d && "messages" in d) then
        Failure(KeyError)
      else
        var systemOpen := if "system_tag_open" in d then d["system_tag_open"] else JNull;
        var systemClose := if "system_tag_close" in d then d["system_tag_close"] else JNull;
        match LoadMessages(d["user_tag_open"], d["user_tag_close"], d["messages"])
        case Failure(e) => Failure(e)
        case Success(loaded) =>
          Success(LoadedMessages(d["user_tag_open"], d["user_tag_close"], d["ai_tag_open"], d["ai_tag_close"],
                                 systemOpen, systemClose, if loaded.Some? then loaded.value else []))
    }
  }

  /** Strings wrapped in the user tags; the model refuses user tags that are not strings. */
  function WrapInUserTags(userTagOpen: Json, userTagClose: Json, contents: seq<string>): (r: Result<seq<Message>>)
    ensures r.Success? <==> userTagOpen.JString? && userTagClose.JString?
    ensures r.Failure? ==> r.error == TypeError
    ensures r.Success? ==> |r.value| == |contents|
    ensures r.Success? ==> forall i :: 0 <= i < |contents| ==> r.value[i] == Message(contents[i], userTagOpen.s, userTagClose.s)
  {
    if userTagOpen.JString? && userTagClose.JString? then
      Success(seq(|contents|, i requires 0 <= i < |contents| => Message(contents[i], userTagOpen.s, userTagClose.s)))
    else Failure(TypeError)
  }

  /** `[AIMessage.from_dict(d) for d in dicts]`: the first failing dict raises. */
  function MessagesFromDicts(dicts: seq<Json>): (r: Result<seq<Message>>)
    requires forall i :: 0 <= i < |dicts| ==> dicts[i].JObject?
    ensures r.Success? <==> forall i :: 0 <= i < |dicts| ==> Message.FromDict(dicts[i].fields).Success?
    ensures r.Success? ==> |r.value| == |dicts|
    ensures r.Success? ==> forall i :: 0 <= i < |dicts| ==> Message.FromDict(dicts[i].fields) == Success(r.value[i])
    ensures r.Failure? ==> exists i :: 0 <= i < |dicts| && Message.FromDict(dicts[i].fields) == Failure(r.error)
  {
    if dicts == [] then Success([])
    else
      match Message.FromDict(dicts[0].fields)
      case Failure(e) => Failure(e)
      case Success(m) =>
        match MessagesFromDicts(dicts[1..])
        case Failure(e) =>
          var i :| 0 <= i < |dicts[1..]| && Message.FromDict(dicts[1..][i].fields) == Failure(e);
          assert dicts[i + 1] == dicts[1..][i];
          Failure(e)
        case Success(ms) =>
          assert forall i :: 1 <= i < |dicts| ==> dicts[i] == dicts[1..][i - 1];
          Success([m] + ms)
  }

  /** `load_messages` for the values a record can hold: None leaves the history as it is
      (`Success(None)`); a string becomes one user message; a list must be all strings (user
      messages) or all dicts (`AIMessage.from_dict`); an empty list is kept as the empty list;
      anything else raises TypeError. */
  function LoadMessages(userTagOpen: Json, userTagClose: Json, messages: Json): (r: Result<Option<seq<Message>>>)
    ensures messages.JNull? ==> r == Success(None)
    ensures messages.JArray? && messages.items == [] ==> r == Success(Some([]))
    ensures messages.JArray? && messages.items != [] && (forall i :: 0 <= i < |messages.items| ==> messages.items[i].JObject?) ==>
      (r.Success? <==> MessagesFromDicts(messages.items).Success?) &&
      (r.Success? ==> r == Success(Some(MessagesFromDicts(messages.items).value)))
    ensures messages.JBool? || messages.JNumber? || messages.JObject? ==> r == Failure(TypeError)
    ensures messages.JString? ==>
      (r.Success? <==> userTagOpen.JString? && userTagClose.JString?) &&
      (r.Success? ==> r.value == Some([Message(messages.s, userTagOpen.s, userTagClose.s)]))
    ensures messages.JArray? && messages.items != [] && (forall i :: 0 <= i < |messages.items| ==> messages.items[i].JString?) ==>
      && (r.Success? <==> userTagOpen.JString? && userTagClose.JString?)
      && (r.Success? ==>
            && r.value.Some? && |r.value.value| == |messages.items|
            && forall i :: 0 <= i < |messages.items| ==> r.value.value[i] == Message(messages.items[i].s, userTagOpen.s, userTagClose.s))
    ensures (&& messages.JArray? && messages.items != []
             && !(forall i :: 0 <= i < |messages.items| ==> messages.items[i].JString?)
             && !(forall i :: 0 <= i < |messages.items| ==> messages.items[i].JObject?)) ==> r == Failure(TypeError)
    ensures r.Failure? && !(messages.JArray? && forall i :: 0 <= i < |messages.items| ==> messages.items[i].JObject?) ==> r.error == TypeError
  {
    match messages
    case JNull => Success(None)
    case JString(s) =>
      if userTagOpen.JString? && userTagClose.JString? then Success(Some([Message(s, userTagOpen.s, userTagClose.s)]))
      else Failure(TypeError)
    case JArray(items) =>
      if items == [] then Success(Some([]))
      else if forall i :: 0 <= i < |items| ==> items[i].JString? then
        (match WrapInUserTags(userTagOpen, userTagClose, seq(|items|, i requires 0 <= i < |items| => items[i].s))
         case Failure(e) => Failure(e)
         case Success(ms) => Success(Some(ms)))
      else if forall i :: 0 <= i < |items| ==> items[i].JObject? then
        (match MessagesFromDicts(items)
         case Failure(e) => Failure(e)
         case Success(ms) => Success(Some(ms)))
      else Failure(TypeError)
    case _ => Failure(TypeError)
  }

  /** Converting a loaded history to a record and loading it back gives the same history. */
  lemma FromDictOfToDict(loaded: LoadedMessages)
    ensures LoadedMessages.FromDict(loaded.ToDict()) == Success(loaded)
  {
    var d := loaded.ToDict();
    var items := d["messages"].items;
    if items != [] {
      assert items[0].JObject? && !items[0].JString?;
      assert forall i :: 0 <= i < |items| ==> items[i] == JObject(loaded.messages[i].ToDict());
      var parsed := MessagesFromDicts(items);
      assert parsed.Success?;
      assert parsed.value == loaded.messages;
    }
  }

  /** A record as `to_dict` writes it: exactly the seven keys, and a list of message dicts with
      exactly the three string-valued keys. */
  ghost predicate WellFormedRecord(d: map<string, Json>)
  {
    && d.Keys == RecordKeys
    && d["messages"].JArray?
    && forall i :: 0 <= i < |d["messages"].items| ==> WellFormedMessageDict(d["messages"].items[i])
  }

  ghost predicate WellFormedMessageDict(m: Json)
  {
    && m.JObject?
    && m.fields.Keys == MessageKeys
    && m.fields["content"].JString? && m.fields["tag_open"].JString? && m.fields["tag_close"].JString?
  }

  /** A message dict as `to_dict` writes it loads and converts back to itself. */
  lemma MessageDictRoundTrip(j: Json)
    requires WellFormedMessageDict(j)
    ensures Message.FromDict(j.fields).Success?
    ensures JObject(Message.FromDict(j.fields).value.ToDict()) == j
  {
    assert Message.FromDict(j.fields).value.ToDict() == j.fields;
  }

  /** Loading a well-formed record and converting it back gives the same record. */
  lemma ToDictOfFromDict(d: map<string, Json>)
    requires WellFormedRecord(d)
    ensures LoadedMessages.FromDict(d).Success?
    ensures LoadedMessages.FromDict(d).value.ToDict() == d
  {
    var items := d["messages"].items;
    forall i | 0 <= i < |items|
      ensures Message.FromDict(items[i].fields).Success?
      ensures JObject(Message.FromDict(items[i].fields).value.ToDict()) == items[i]
    {
      MessageDictRoundTrip(items[i]);
    }
    if items != [] {
      assert !items[0].JString?;
    }
    var loaded := LoadedMessages.FromDict(d).value;
    var back := loaded.ToDict();
    assert back["messages"].items == items;
    assert back.Keys == d.Keys;
  }
}
