/** The self-contained parts of glai/back_end/llama_ai.py: the newline clean-up of
    `try_fixing_format` (both flags false) and the token-limit bookkeeping of `LlamaAI`. */
module LlamaAi {
  import opened Wrappers
  import opened Strings

  /** First step of `try_fixing_format`: when the text has a blank line ("\n\n"), drop the piece
      before the first one and join the remaining pieces with single spaces. */
  function CollapseBlankLines(text: string): (r: string)
    ensures !Contains(text, "\n\n") ==> r == text
    ensures Contains(text, "\n\n") ==>
      var i := IndexOf(text, "\n\n").value;
      && !Contains(text[..i], "\n\n")
      && r == Replace(text[i + 2..], "\n\n", " ")
  {
    if Contains(text, "\n\n") then
      var i := IndexOf(text, "\n\n").value;
      var pieces := Split(text, "\n\n");
      assert pieces == [text[..i]] + Split(text[i + 2..], "\n\n");
      assert pieces[1..] == Split(text[i + 2..], "\n\n");
      SplitPiecesAvoidSep(text, "\n\n");
      assert pieces[0] == text[..i];
      Join(pieces[1..], " ")
    else text
  }

  /** Second step of `try_fixing_format`: every remaining "\n" becomes a space. */
  function FlattenNewlines(text: string): (r: string)
    ensures '\n' !in r
    ensures '\n' !in text ==> r == text
  {
    if '\n' in text then
      ReplaceRemovesChar(text, '\n', " ");
      Replace(text, "\n", " ")
    else text
  }

  /** `try_fixing_format(text)` with `only_letters` and `rem_list_formatting` both false. */
  function TryFixingFormat(text: string): (r: string)
    ensures '\n' !in r
    ensures '\n' !in text ==> r == text
  {
    ContainsHasFirstChar(text, "\n\n");
    FlattenNewlines(CollapseBlankLines(text))
  }

  /** On a text with a blank line, the result is built from what follows the first blank line
      only: the piece before it (which holds no blank line) is dropped, each later "\n\n" becomes
      one space, and then every other "\n" becomes one space. */
  lemma TryFixingFormatDropsLeadingPiece(text: string)
    requires Contains(text, "\n\n")
    ensures var i := IndexOf(text, "\n\n").value;
      && !Contains(text[..i], "\n\n")
      && CollapseBlankLines(text) == Replace(text[i + 2..], "\n\n", " ")
      && TryFixingFormat(text) == FlattenNewlines(Replace(text[i + 2..], "\n\n", " "))
  {
    assert CollapseBlankLines(text) == Replace(text[IndexOf(text, "\n\n").value + 2..], "\n\n", " ");
  }

  /** The token limits of a `LlamaAI` session. Loading the native model is not modelled: `load()`
      only records that the model was loaded with the current limits. */
  class LlamaAI {
    var modelPath: string
    var maxTokens: int
    var maxInputTokens: int
    var loaded: bool

    constructor(modelPath: string, maxTokens: int, maxInputTokens: int)
      ensures this.modelPath == modelPath && this.maxTokens == maxTokens
      ensures this.maxInputTokens == maxInputTokens && loaded
    {
      this.modelPath := modelPath;
      this.maxTokens := maxTokens;
      this.maxInputTokens := maxInputTokens;
      loaded := false;
      new;
      Load();
    }

    /** `load`: the native model and tokenizer are built with `n_ctx = max_tokens`. */
    method Load()
      modifies this
      ensures loaded
      ensures modelPath == old(modelPath) && maxTokens == old(maxTokens) && maxInputTokens == old(maxInputTokens)
    {
      loaded := true;
    }

    /** `_adjust_max_tokens`: stores the new limit and marks the model as needing a reload. */
    method AdjustMaxTokens(newMaxTokens: int)
      modifies this
      ensures maxTokens == newMaxTokens && !loaded
      ensures modelPath == old(modelPath) && maxInputTokens == old(maxInputTokens)
    {
      maxTokens := newMaxTokens;
      loaded := false;
    }

    /** `_adjust_max_input_tokens`: raises when the new input limit is below `max_tokens`
        (equal is accepted), leaving every field unchanged; otherwise stores it. */
    method AdjustMaxInputTokens(newMaxInputTokens: int) returns (r: Outcome)
      modifies this
      ensures r.Fail? <==> newMaxInputTokens < maxTokens
      ensures r.Fail? ==> r.error == Exception && maxInputTokens == old(maxInputTokens)
      ensures r.Pass? ==> maxInputTokens == newMaxInputTokens
      ensures modelPath == old(modelPath) && maxTokens == old(maxTokens) && loaded == old(loaded)
    {
      if newMaxInputTokens < maxTokens {
        return Fail(Exception);
      }
      maxInputTokens := newMaxInputTokens;
      r := Pass;
    }

    /** `adjust_tokens`: `max_tokens` is updated first, so the input limit is checked against the
        new `max_tokens`; a rejected input limit leaves the new `max_tokens` in place, the model
        unloaded and the old input limit; otherwise the model is reloaded. */
    method AdjustTokens(newMaxTokens: int, newMaxInputTokens: int) returns (r: Outcome)
      modifies this
      ensures maxTokens == newMaxTokens && modelPath == old(modelPath)
      ensures r.Fail? <==> newMaxInputTokens < newMaxTokens
      ensures r.Fail? ==> r.error == Exception && maxInputTokens == old(maxInputTokens) && !loaded
      ensures r.Pass? ==> maxInputTokens == newMaxInputTokens && loaded
    {
      AdjustMaxTokens(newMaxTokens);
      r := AdjustMaxInputTokens(newMaxInputTokens);
      if r.Fail? {
        return;
      }
      Load();
    }
  }
}
