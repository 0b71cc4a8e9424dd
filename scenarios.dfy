/** Call sequences that clients of the history perform, with the prompt each one yields. */
module Scenarios {
  import opened Wrappers
  import opened OrderedDict
  import opened Messages

  /** A conversation started afresh with a user turn and an AI turn: ids 1 and 2, and the prompt
      is the two renderings in order. */
  method TwoTurns(history: AIMessages, user: string, ai: string)
    returns (u: AIMessage, a: AIMessage, prompt: string)
    modifies history`messages, history`messageIdGenerator
    ensures history.Valid() && fresh(u) && fresh(a) && u != a
    ensures history.messages == [(1, u), (2, a)] && history.GetLastMessage() == Success(a)
    ensures u.Value() == Message(user, history.userTagOpen, history.userTagClose)
    ensures a.Value() == Message(ai, history.aiTagOpen, history.aiTagClose)
    ensures prompt == history.Text() == u.Text() + a.Text()
  {
    u := FirstTurn(history, user);
    a := SecondTurn(history, u, ai);
    prompt := history.Text();
  }

  /** An AI turn answering that first turn takes id 2, after it, and becomes the last message. */
  method SecondTurn(history: AIMessages, u: AIMessage, ai: string) returns (a: AIMessage)
    requires history.Valid() && history.messages == [(1, u)] && history.messageIdGenerator == 1
    modifies history`messages, history`messageIdGenerator
    ensures history.Valid() && fresh(a)
    ensures history.messages == [(1, u), (2, a)] && history.GetLastMessage() == Success(a)
    ensures a.Value() == Message(ai, history.aiTagOpen, history.aiTagClose)
    ensures history.Text() == old(history.Text()) + a.Text()
  {
    a := history.AddAiMessage(Content(ai));
    assert history.messages == [(1, u)] + [(2, a)];
  }

  /** A conversation started afresh with a user turn: the turn takes id 1 and is the whole prompt. */
  method FirstTurn(history: AIMessages, user: string) returns (u: AIMessage)
    modifies history`messages, history`messageIdGenerator
    ensures history.Valid() && fresh(u)
    ensures history.messages == [(1, u)] && history.messageIdGenerator == 1
    ensures u.Value() == Message(user, history.userTagOpen, history.userTagClose)
    ensures history.Text() == u.Text()
  {
    history.ResetMessages();
    u := history.AddUserMessage(Content(user));
  }

  /** Then editing the last turn changes only the AI turn. */
  method UserThenAi(history: AIMessages, user: string, ai: string, edited: string)
    returns (before: string, after: string)
    modifies history`messages, history`messageIdGenerator
    ensures before == Message(user, history.userTagOpen, history.userTagClose).Text()
                      + Message(ai, history.aiTagOpen, history.aiTagClose).Text()
    ensures after == Message(user, history.userTagOpen, history.userTagClose).Text()
                     + Message(edited, history.aiTagOpen, history.aiTagClose).Text()
  {
    var u, a;
    u, a, before := TwoTurns(history, user, ai);
    ghost var values := history.Values();
    assert values == [u.Value(), a.Value()];
    var r := history.EditLastMessage(edited, None, None);
    RenderEdit(history.messages, values, u, a, edited);
    after := history.Text();
  }

  /** Editing the second of two distinct messages re-renders only that one. */
  lemma RenderEdit(items: Items<AIMessage>, values: seq<Message>, u: AIMessage, a: AIMessage, edited: string)
    requires items == [(1, u), (2, a)] && u != a && |values| == 2
    ensures Render(AfterEdit(items, values, a, edited, None, None)) == values[0].Text() + values[1].Edited(edited, None, None).Text()
  {
    var e := values[1].Edited(edited, None, None);
    var after := AfterEdit(items, values, a, edited, None, None);
    assert after[0] == values[0] && after[1] == e;
    assert after == [values[0], e];
    assert Render([values[0], e]) == Render([values[0]]) + e.Text() by {
      assert [values[0], e][..1] == [values[0]];
    }
    assert Render([values[0]]) == values[0].Text() by {
      assert [values[0]][..0] == [];
    }
  }

  /** Without system tags, `set_system_message` leaves the prompt as it was. */
  method SystemMessageUnsupported(history: AIMessages, message: string) returns (before: string, after: string)
    requires history.Valid() && !history.HasSystemTags()
    modifies history`messages, history`messageIdGenerator
    ensures after == before
  {
    before := history.Text();
    history.SetSystemMessage(Content(message));
    after := history.Text();
  }

  /** A system message set on a history holding one user turn takes id 0 and moves the user turn
      from id 1 to id 2, yet renders after it, because rendering follows insertion order. */
  method SystemMessageAfterUserTurn(history: AIMessages, user: string, system: string)
    returns (prompt: string, ids: seq<int>)
    requires history.HasSystemTags()
    modifies history`messages, history`messageIdGenerator
    ensures prompt == Message(user, history.userTagOpen, history.userTagClose).Text()
                      + Message(system, history.systemTagOpen.value, history.systemTagClose.value).Text()
    ensures ids == [2, 0]
  {
    var u := FirstTurn(history, user);
    history.SetSystemMessage(Content(system));
    prompt := history.Text();
    assert prompt == u.Text() + history.Newest().Text();
    ids := [history.messages[0].0, history.messages[1].0];
  }

  /** The prompt-building sequence of a one-shot generation: reset, then the system message when
      the model supports one and it is given, then the user message. The system turn comes first
      under id 0 and the user turn under id 1. */
  method OneShotPrompt(history: AIMessages, systemMessage: Option<string>, userMessage: string)
    returns (prompt: string)
    modifies history`messages, history`messageIdGenerator
    ensures history.Valid()
    ensures history.HasSystemTags() && systemMessage.Some? ==>
      && prompt == Message(systemMessage.value, history.systemTagOpen.value, history.systemTagClose.value).Text()
                   + Message(userMessage, history.userTagOpen, history.userTagClose).Text()
      && |history.messages| == 2 && history.messages[0].0 == 0 && history.messages[1].0 == 1
    ensures !(history.HasSystemTags() && systemMessage.Some?) ==>
      && prompt == Message(userMessage, history.userTagOpen, history.userTagClose).Text()
      && |history.messages| == 1 && history.messages[0].0 == 1
  {
    history.ResetMessages();
    if history.HasSystemTags() && systemMessage.Some? {
      SystemFirst(history, systemMessage.value);
    }
    ghost var text := history.Text();
    var user := history.AddUserMessage(Content(userMessage));
    prompt := history.Text();
    assert prompt == text + user.Text();
  }

  /** A system message set on an empty history takes id 0, is the only entry and is the whole
      prompt; the generator stays at 0. */
  method SystemFirst(history: AIMessages, system: string)
    requires history.Valid() && history.messages == [] && history.HasSystemTags()
    modifies history`messages, history`messageIdGenerator
    ensures history.Valid() && |history.messages| == 1 && history.messages[0].0 == 0
    ensures history.messageIdGenerator == 0
    ensures history.Text() == Message(system, history.systemTagOpen.value, history.systemTagClose.value).Text()
  {
    history.SetSystemMessage(Content(system));
    assert history.Text() == history.Newest().Text();
  }
}
