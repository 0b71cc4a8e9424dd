/** Python's `str.find`, `in`, `str.split`, `str.join`, `str.replace` and `str.endswith`,
    for the non-empty separators the modelled code uses. */
module Strings {
  import opened Wrappers

  /** `sub` occurs in `s` starting at index `i`. */
  predicate StartsAt(s: string, sub: string, i: nat)
  {
    i + |sub| <= |s| && s[i..i + |sub|] == sub
  }

  /** The first index at or after `from` where `sub` occurs (`s.find(sub, from)`). */
  function IndexFrom(s: string, sub: string, from: nat): (r: Option<nat>)
    requires |sub| > 0
    ensures r.Some? ==> from <= r.value && StartsAt(s, sub, r.value)
    ensures r.Some? ==> forall j :: from <= j < r.value ==> !StartsAt(s, sub, j)
    ensures r.None? ==> forall j :: from <= j ==> !StartsAt(s, sub, j)
    decreases |s| - from
  {
    if from + |sub| > |s| then None
    else if s[from..from + |sub|] == sub then Some(from)
    else IndexFrom(s, sub, from + 1)
  }

  /** The first index where `sub` occurs in `s`, if any. */
  function IndexOf(s: string, sub: string): (r: Option<nat>)
    requires |sub| > 0
    ensures r.Some? ==> StartsAt(s, sub, r.value) && forall j: nat :: j < r.value ==> !StartsAt(s, sub, j)
    ensures r.None? ==> forall j: nat :: !StartsAt(s, sub, j)
  {
    IndexFrom(s, sub, 0)
  }

  /** Python's `sub in s`. */
  predicate Contains(s: string, sub: string)
    requires |sub| > 0
  {
    IndexOf(s, sub).Some?
  }

  /** For a one-character needle, substring search is character membership. */
  lemma ContainsChar(s: string, c: char)
    ensures Contains(s, [c]) <==> c in s
  {
    if c in s {
      var i :| 0 <= i < |s| && s[i] == c;
      assert StartsAt(s, [c], i);
    }
    if Contains(s, [c]) {
      var i := IndexOf(s, [c]).value;
      assert s[i..i + 1] == [c];
      assert s[i] == c;
    }
  }

  /** A string containing `sub` contains its first character. */
  lemma ContainsHasFirstChar(s: string, sub: string)
    requires |sub| > 0
    ensures Contains(s, sub) ==> sub[0] in s
  {
    if Contains(s, sub) {
      var i := IndexOf(s, sub).value;
      assert s[i..i + |sub|][0] == s[i];
    }
  }

  /** Python's `s.split(sep)` for a non-empty separator: the pieces between the non-overlapping
      occurrences of `sep`, found from left to right. */
  function Split(s: string, sep: string): (r: seq<string>)
    requires |sep| > 0
    ensures |r| >= 1
    decreases |s|
  {
    match IndexOf(s, sep)
    case None => [s]
    case Some(i) => [s[..i]] + Split(s[i + |sep|..], sep)
  }

  /** Python's `sep.join(parts)`. */
  function Join(parts: seq<string>, sep: string): string
  {
    if |parts| == 0 then ""
    else if |parts| == 1 then parts[0]
    else parts[0] + sep + Join(parts[1..], sep)
  }

  /** Python's `s.replace(target, replacement)`: every non-overlapping occurrence, left to right. */
  function Replace(s: string, target: string, replacement: string): string
    requires |target| > 0
  {
    Join(Split(s, target), replacement)
  }

  /** Python's `s.endswith(suffix)`. */
  predicate EndsWith(s: string, suffix: string)
  {
    |suffix| <= |s| && s[|s| - |suffix|..] == suffix
  }

  /** Splitting and joining back with the same separator gives the original string. */
  lemma {:induction false} JoinSplit(s: string, sep: string)
    requires |sep| > 0
    ensures Join(Split(s, sep), sep) == s
    decreases |s|
  {
    match IndexOf(s, sep)
    case None =>
    case Some(i) =>
      var head, rest := s[..i], s[i + |sep|..];
      var tail := Split(rest, sep);
      var parts := [head] + tail;
      assert Split(s, sep) == parts;
      assert parts[0] == head && parts[1..] == tail && |parts| > 1;
      assert Join(parts, sep) == head + sep + Join(tail, sep);
      JoinSplit(rest, sep);
      assert s[i..i + |sep|] == sep;
      assert s == head + s[i..i + |sep|] + rest;
  }

  /** No piece produced by `Split` contains the separator. */
  lemma {:induction false} SplitPiecesAvoidSep(s: string, sep: string)
    requires |sep| > 0
    ensures forall k :: 0 <= k < |Split(s, sep)| ==> !Contains(Split(s, sep)[k], sep)
    decreases |s|
  {
    match IndexOf(s, sep)
    case None =>
    case Some(i) =>
      var rest := s[i + |sep|..];
      SplitPiecesAvoidSep(rest, sep);
      var head := s[..i];
      if Contains(head, sep) {
        var j := IndexOf(head, sep).value;
        assert StartsAt(head, sep, j);
        PrefixSlice(s, i, j, j + |sep|);
        assert StartsAt(s, sep, j);
        assert false;
      }
      assert Split(s, sep) == [head] + Split(rest, sep);
  }

  /** A slice of a prefix is the same slice of the whole string. */
  lemma PrefixSlice(s: string, n: nat, a: nat, b: nat)
    requires a <= b <= n <= |s|
    ensures s[..n][a..b] == s[a..b]
  {
  }

  /** A character occurring neither in the parts nor in the separator does not occur in their join. */
  lemma {:induction false} JoinAvoidsChar(parts: seq<string>, sep: string, c: char)
    requires forall k :: 0 <= k < |parts| ==> c !in parts[k]
    requires c !in sep
    ensures c !in Join(parts, sep)
    decreases |parts|
  {
    if |parts| > 1 {
      JoinAvoidsChar(parts[1..], sep, c);
    }
  }

  /** Joining a concatenation of two non-empty lists puts one separator between their joins. */
  lemma {:induction false} JoinConcat(a: seq<string>, b: seq<string>, sep: string)
    requires |a| > 0 && |b| > 0
    ensures Join(a + b, sep) == Join(a, sep) + sep + Join(b, sep)
    decreases |a|
  {
    if |a| == 1 {
      assert (a + b)[1..] == b;
    } else {
      JoinConcat(a[1..], b, sep);
      assert (a + b)[1..] == a[1..] + b;
    }
  }

  /** After `replace` with a one-character target absent from the replacement, that character is gone. */
  lemma ReplaceRemovesChar(s: string, c: char, replacement: string)
    requires c !in replacement
    ensures c !in Replace(s, [c], replacement)
  {
    var parts := Split(s, [c]);
    SplitPiecesAvoidSep(s, [c]);
    forall k | 0 <= k < |parts| ensures c !in parts[k] {
      ContainsChar(parts[k], c);
    }
    JoinAvoidsChar(parts, replacement, c);
  }

  /** The concatenation of a list of sequences, in order. */
  function Flatten<T>(xss: seq<seq<T>>): seq<T>
  {
    if xss == [] then [] else Flatten(xss[..|xss| - 1]) + xss[|xss| - 1]
  }

  lemma {:induction false} FlattenCons<T>(xs: seq<T>, xss: seq<seq<T>>)
    ensures Flatten([xs] + xss) == xs + Flatten(xss)
    decreases |xss|
  {
    if xss != [] {
      var front := xss[..|xss| - 1];
      FlattenCons(xs, front);
      assert ([xs] + xss)[..|xss|] == [xs] + front;
    }
  }

  lemma {:induction false} FlattenNonEmpty<T>(xss: seq<seq<T>>, i: nat)
    requires i < |xss| && |xss[i]| > 0
    ensures |Flatten(xss)| > 0
    decreases |xss|
  {
    if i < |xss| - 1 {
      FlattenNonEmpty(xss[..|xss| - 1], i);
    }
  }

  /** Python's `[sep.join(g) for g in groups]`. */
  function JoinEach(groups: seq<seq<string>>, sep: string): (r: seq<string>)
    ensures |r| == |groups|
    ensures forall i :: 0 <= i < |groups| ==> r[i] == Join(groups[i], sep)
  {
    seq(|groups|, i requires 0 <= i < |groups| => Join(groups[i], sep))
  }

  /** Joining the joins of non-empty groups is joining their concatenation. */
  lemma {:induction false} JoinJoinEach(groups: seq<seq<string>>, sep: string)
    requires forall i :: 0 <= i < |groups| ==> |groups[i]| > 0
    ensures Join(JoinEach(groups, sep), sep) == Join(Flatten(groups), sep)
    decreases |groups|
  {
    if |groups| == 1 {
      assert JoinEach(groups, sep) == [Join(groups[0], sep)];
      assert groups[..0] == [];
      assert Flatten(groups) == Flatten(groups[..0]) + groups[0];
      assert Flatten(groups) == groups[0];
      assert Join(JoinEach(groups, sep), sep) == Join(groups[0], sep);
    } else if |groups| > 1 {
      var first, rest := groups[0], groups[1..];
      JoinJoinEach(rest, sep);
      var joined := JoinEach(groups, sep);
      assert joined[1..] == JoinEach(rest, sep);
      FlattenNonEmpty(rest, 0);
      JoinConcat(first, Flatten(rest), sep);
      assert groups == [first] + rest;
      FlattenCons(first, rest);
    }
  }
}
