/** The chunking helpers of glai/helpers/text_preprocessor.py. */
module TextPreprocessor {
  import opened Wrappers
  import opened Strings

  /** The slices `xs[i:i + k]` for `i in range(0, len(xs), k)`, for a positive step `k`. */
  function Chunks<T>(xs: seq<T>, k: nat): (r: seq<seq<T>>)
    requires k > 0
    ensures Flatten(r) == xs
    ensures forall i :: 0 <= i < |r| - 1 ==> |r[i]| == k
    ensures |r| > 0 ==> 0 < |r[|r| - 1]| <= k
    ensures |r| == 0 <==> |xs| == 0
    decreases |xs|
  {
    if |xs| == 0 then []
    else if |xs| <= k then
      assert Flatten([xs]) == Flatten([xs][..0]) + xs;
      [xs]
    else
      var rest := Chunks(xs[k..], k);
      FlattenCons(xs[..k], rest);
      assert xs == xs[..k] + xs[k..];
      [xs[..k]] + rest
  }

  /** There are ceil(|xs| / k) chunks. */
  lemma {:induction false} ChunksCount<T>(xs: seq<T>, k: nat)
    requires k > 0
    ensures |Chunks(xs, k)| == (|xs| + k - 1) / k
    decreases |xs|
  {
    var n := |xs|;
    if n == 0 {
      DivOfSmall(k - 1, k);
    } else if n <= k {
      DivStep(n - 1, k);
      DivOfSmall(n - 1, k);
    } else {
      ChunksCount(xs[k..], k);
      DivStep(n - 1, k);
    }
  }

  lemma DivOfSmall(a: nat, k: nat)
    requires a < k
    ensures a / k == 0
  {
  }

  lemma DivStep(a: int, k: nat)
    requires k > 0 && a >= 0
    ensures (a + k) / k == a / k + 1
  {
    var q, m := a / k, a % k;
    assert a == k * q + m && 0 <= m < k;
    assert a + k == k * (q + 1) + m;
    DivUnique(a + k, k, q + 1, m);
  }

  lemma DivUnique(n: int, k: nat, q: int, m: int)
    requires k > 0 && 0 <= m < k && n == k * q + m
    ensures n / k == q
  {
    var q', m' := n / k, n % k;
    assert n == k * q' + m' && 0 <= m' < k;
    if q' < q {
      assert k * q >= k * q' + k by { MulStep(k, q', q); }
    } else if q' > q {
      assert k * q' >= k * q + k by { MulStep(k, q, q'); }
    }
  }

  lemma MulStep(k: nat, x: int, y: int)
    requires x < y
    ensures k * y >= k * x + k
  {
    assert k * y - k * x == k * (y - x);
    assert y - x >= 1;
  }

  /** `split_by_letters`: batches of at most `maxLetters` characters. A zero step makes Python's
      `range` raise ValueError; a negative step gives an empty range. */
  function SplitByLetters(text: string, maxLetters: int := 1): (r: Result<seq<string>>)
    ensures r.Failure? <==> maxLetters == 0
    ensures r.Failure? ==> r.error == ValueError
    ensures maxLetters < 0 ==> r == Success([])
    ensures maxLetters > 0 ==> r.Success? && Flatten(r.value) == text
    ensures maxLetters > 0 ==> forall i :: 0 <= i < |r.value| - 1 ==> |r.value[i]| == maxLetters
    ensures maxLetters > 0 && |r.value| > 0 ==> 0 < |r.value[|r.value| - 1]| <= maxLetters
    ensures maxLetters > 0 ==> (|r.value| == 0 <==> text == "")
  {
    if maxLetters == 0 then Failure(ValueError)
    else if maxLetters < 0 then Success([])
    else Success(Chunks(text, maxLetters))
  }

  /** The body of `split_by_words` for a positive `maxWords`: the " "-separated pieces, regrouped
      `maxWords` at a time and joined back with " ". */
  function WordBatches(text: string, maxWords: nat): (r: seq<string>)
    requires maxWords > 0
    ensures Join(r, " ") == text
    ensures |r| == (|Split(text, " ")| + maxWords - 1) / maxWords
  {
    var words := Split(text, " ");
    var groups := Chunks(words, maxWords);
    JoinJoinEach(groups, " ");
    JoinSplit(text, " ");
    ChunksCount(words, maxWords);
    JoinEach(groups, " ")
  }

  /** With one word per batch, the batches are the " "-separated pieces themselves. */
  lemma WordBatchesOfOne(text: string)
    ensures WordBatches(text, 1) == Split(text, " ")
  {
    var words := Split(text, " ");
    var groups := Chunks(words, 1);
    ChunksCount(words, 1);
    assert |groups| == |words|;
    forall i | 0 <= i < |words| ensures WordBatches(text, 1)[i] == words[i] {
      ChunkAt(words, i);
    }
  }

  /** The i-th chunk of size one is the i-th element. */
  lemma {:induction false} ChunkAt<T>(xs: seq<T>, i: nat)
    requires i < |xs|
    ensures |Chunks(xs, 1)| == |xs|
    ensures Chunks(xs, 1)[i] == [xs[i]]
    decreases |xs|
  {
    ChunksCount(xs, 1);
    if i > 0 {
      ChunkAt(xs[1..], i - 1);
    }
  }

  /** `split_by_words`. */
  function SplitByWords(text: string, maxWords: int := 1): (r: Result<seq<string>>)
    ensures r.Failure? <==> maxWords == 0
    ensures r.Failure? ==> r.error == ValueError
    ensures maxWords < 0 ==> r == Success([])
    ensures maxWords > 0 ==> r.Success? && Join(r.value, " ") == text
    ensures maxWords > 0 ==> |r.value| == (|Split(text, " ")| + maxWords - 1) / maxWords
  {
    if maxWords == 0 then Failure(ValueError)
    else if maxWords < 0 then Success([])
    else Success(WordBatches(text, maxWords))
  }

  /** `split_by_lines`. */
  function SplitByLines(text: string): (r: seq<string>)
    ensures Join(r, "\n") == text
    ensures forall i :: 0 <= i < |r| ==> '\n' !in r[i]
  {
    JoinSplit(text, "\n");
    SplitPiecesAvoidSep(text, "\n");
    var lines := Split(text, "\n");
    forall i | 0 <= i < |lines| ensures '\n' !in lines[i] {
      ContainsChar(lines[i], '\n');
    }
    lines
  }

  /** `split_by_double_lines`. */
  function SplitByDoubleLines(text: string): (r: seq<string>)
    ensures Join(r, "\n\n") == text
    ensures forall i :: 0 <= i < |r| ==> !Contains(r[i], "\n\n")
  {
    JoinSplit(text, "\n\n");
    SplitPiecesAvoidSep(text, "\n\n");
    Split(text, "\n\n")
  }

  /** `split_by_sentences`. */
  function SplitBySentences(text: string): (r: seq<string>)
    ensures Join(r, ".") == text
    ensures forall i :: 0 <= i < |r| ==> '.' !in r[i]
  {
    JoinSplit(text, ".");
    SplitPiecesAvoidSep(text, ".");
    var sentences := Split(text, ".");
    forall i | 0 <= i < |sentences| ensures '.' !in sentences[i] {
      ContainsChar(sentences[i], '.');
    }
    sentences
  }

  /** The state of the loop of `batch_input_simple` after it has seen `words`: the groups it
      has closed and the group it is building. */
  function PackState(words: seq<string>, fits: string -> bool): (seq<seq<string>>, seq<string>)
    decreases |words|
  {
    if words == [] then ([], [])
    else
      var (closed, group) := PackState(words[..|words| - 1], fits);
      var word := words[|words| - 1];
      if fits(Join(group, " ") + " " + word) then (closed, group + [word])
      else (closed + [group], [word])
  }

  /** The word groups `batch_input_simple` produces from `words`: the closed groups, then the
      current group when it is not empty. */
  function PackGroups(words: seq<string>, fits: string -> bool): seq<seq<string>>
  {
    var (closed, group) := PackState(words, fits);
    if |group| > 0 then closed + [group] else closed
  }

  /** Every word placed into a group after its first was accepted by the predicate, appended to
      the words before it; so was the first word of the first group. */
  ghost predicate AcceptedWords(groups: seq<seq<string>>, fits: string -> bool)
  {
    forall j, t :: 0 <= j < |groups| && 0 <= t < |groups[j]| && (j == 0 || t > 0) ==>
      fits(Join(groups[j][..t], " ") + " " + groups[j][t])
  }

  /** Every group after the first is non-empty, and its first word was rejected when offered to
      the group before it. */
  ghost predicate RejectedStarts(groups: seq<seq<string>>, fits: string -> bool)
  {
    forall j :: 1 <= j < |groups| ==>
      |groups[j]| > 0 && !fits(Join(groups[j - 1], " ") + " " + groups[j][0])
  }

  lemma {:induction false} PackStateFlatten(words: seq<string>, fits: string -> bool)
    ensures Flatten(PackState(words, fits).0) + PackState(words, fits).1 == words
    ensures words != [] ==> |PackState(words, fits).1| > 0
    decreases |words|
  {
    if words != [] {
      var front := words[..|words| - 1];
      PackStateFlatten(front, fits);
      var word := words[|words| - 1];
      var (closed, group) := PackState(front, fits);
      assert Flatten(closed) + group == front;
      assert front + [word] == words;
      if fits(Join(group, " ") + " " + word) {
        assert PackState(words, fits) == (closed, group + [word]);
        assert Flatten(closed) + (group + [word]) == (Flatten(closed) + group) + [word];
      } else {
        assert PackState(words, fits) == (closed + [group], [word]);
        var gs := closed + [group];
        assert gs[..|closed|] == closed;
        assert Flatten(gs) == Flatten(closed) + group;
      }
    }
  }

  lemma {:induction false} PackStateGreedy(words: seq<string>, fits: string -> bool)
    ensures var (closed, group) := PackState(words, fits);
      AcceptedWords(closed + [group], fits) && RejectedStarts(closed + [group], fits)
    decreases |words|
  {
    if words != [] {
      var front := words[..|words| - 1];
      var word := words[|words| - 1];
      PackStateGreedy(front, fits);
      var (closed, group) := PackState(front, fits);
      if fits(Join(group, " ") + " " + word) {
        AppendWordKeepsGreedy(closed, group, word, fits);
      } else {
        StartGroupKeepsGreedy(closed, group, word, fits);
      }
    }
  }

  lemma AppendWordKeepsGreedy(closed: seq<seq<string>>, group: seq<string>, word: string, fits: string -> bool)
    requires AcceptedWords(closed + [group], fits) && RejectedStarts(closed + [group], fits)
    requires fits(Join(group, " ") + " " + word)
    ensures AcceptedWords(closed + [group + [word]], fits) && RejectedStarts(closed + [group + [word]], fits)
  {
    var old_ := closed + [group];
    var gs := closed + [group + [word]];
    forall j, t | 0 <= j < |gs| && 0 <= t < |gs[j]| && (j == 0 || t > 0)
      ensures fits(Join(gs[j][..t], " ") + " " + gs[j][t])
    {
      if j == |closed| && t == |group| {
        assert gs[j][..t] == group;
      } else if j == |closed| {
        assert gs[j][..t] == group[..t] && gs[j][t] == group[t];
        assert old_[j] == group;
      } else {
        assert gs[j] == old_[j];
      }
    }
    forall j | 1 <= j < |gs|
      ensures |gs[j]| > 0 && !fits(Join(gs[j - 1], " ") + " " + gs[j][0])
    {
      assert gs[j - 1] == old_[j - 1];
      if j == |closed| {
        assert old_[j] == group && gs[j][0] == group[0];
      } else {
        assert gs[j] == old_[j];
      }
    }
  }

  lemma StartGroupKeepsGreedy(closed: seq<seq<string>>, group: seq<string>, word: string, fits: string -> bool)
    requires AcceptedWords(closed + [group], fits) && RejectedStarts(closed + [group], fits)
    requires !fits(Join(group, " ") + " " + word)
    ensures AcceptedWords(closed + [group] + [[word]], fits) && RejectedStarts(closed + [group] + [[word]], fits)
  {
    var old_ := closed + [group];
    var gs := old_ + [[word]];
    forall j, t | 0 <= j < |gs| && 0 <= t < |gs[j]| && (j == 0 || t > 0)
      ensures fits(Join(gs[j][..t], " ") + " " + gs[j][t])
    {
      assert j < |old_|;
      assert gs[j] == old_[j];
    }
    forall j | 1 <= j < |gs|
      ensures |gs[j]| > 0 && !fits(Join(gs[j - 1], " ") + " " + gs[j][0])
    {
      if j == |old_| {
        assert gs[j - 1] == group && gs[j] == [word];
      } else {
        assert gs[j] == old_[j] && gs[j - 1] == old_[j - 1];
      }
    }
  }

  /** The groups, flattened in order, are exactly the words: none is lost, duplicated or moved;
      there is a group as soon as there is a word, and the groups are the greedy packing. */
  lemma PackGroupsProperties(words: seq<string>, fits: string -> bool)
    ensures Flatten(PackGroups(words, fits)) == words
    ensures words != [] ==> |PackGroups(words, fits)| >= 1
    ensures AcceptedWords(PackGroups(words, fits), fits)
    ensures RejectedStarts(PackGroups(words, fits), fits)
    ensures words != [] ==> (PackGroups(words, fits)[0] == [] <==> !fits(" " + words[0]))
  {
    PackStateFlatten(words, fits);
    PackStateGreedy(words, fits);
    var (closed, group) := PackState(words, fits);
    if words != [] {
      var gs := closed + [group];
      assert PackGroups(words, fits) == gs;
      assert gs[..|closed|] == closed;
      assert Flatten(gs) == Flatten(closed) + group;
      FirstGroup(words, fits);
    }
  }

  /** The first group is empty exactly when the predicate rejects the first word. */
  lemma {:induction false} FirstGroup(words: seq<string>, fits: string -> bool)
    requires words != []
    ensures var (closed, group) := PackState(words, fits);
      (closed + [group])[0] == [] <==> !fits(" " + words[0])
    decreases |words|
  {
    var front := words[..|words| - 1];
    if front == [] {
      assert Join([], " ") + " " + words[0] == " " + words[0];
    } else {
      FirstGroup(front, fits);
      PackStateFlatten(front, fits);
      assert front[0] == words[0];
    }
  }

  /** `batch_input_simple`: the whole text as one batch when the predicate accepts it; otherwise
      the words greedily packed into groups, each group joined with " ". */
  method BatchInputSimple(inputText: string, fits: string -> bool) returns (batches: seq<string>)
    ensures fits(inputText) ==> batches == [inputText]
    ensures !fits(inputText) ==> batches == JoinEach(PackGroups(WordBatches(inputText, 1), fits), " ")
    ensures !fits(inputText) ==> |batches| >= 1
  {
    if fits(inputText) {
      return [inputText];
    }
    var splitText := WordBatches(inputText, 1);
    var batched: seq<seq<string>> := [];
    var group: seq<string> := [];
    for i := 0 to |splitText|
      invariant (batched, group) == PackState(splitText[..i], fits)
    {
      var word := splitText[i];
      assert splitText[..i + 1][..i] == splitText[..i];
      var proposed := Join(group, " ") + " " + word;
      if fits(proposed) {
        group := group + [word];
      } else {
        batched := batched + [group];
        group := [word];
      }
    }
    assert splitText[..|splitText|] == splitText;
    if |group| > 0 {
      batched := batched + [group];
    }
    WordBatchesOfOne(inputText);
    PackGroupsProperties(splitText, fits);
    batches := JoinEach(batched, " ");
  }

  /** Outside the one-batch case, the batches of `batch_input_simple` rejoined with " " are the
      text: every word is kept, in order. */
  lemma BatchesKeepWords(inputText: string, fits: string -> bool)
    requires !fits(inputText)
    ensures Flatten(PackGroups(WordBatches(inputText, 1), fits)) == Split(inputText, " ")
  {
    WordBatchesOfOne(inputText);
    PackGroupsProperties(Split(inputText, " "), fits);
  }
}
