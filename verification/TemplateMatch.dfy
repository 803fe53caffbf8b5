/**
  * Which catalog keys a template literal can produce (gui/scripts/i18n-key-liveness.ts): the
  * pieces of a template with holes, and the greedy left-to-right match of a key against them.
  */
module TemplateMatch {
  import opened Options

  predicate Occurs(key: string, piece: string, i: nat) {
    i + |piece| <= |key| && key[i..i + |piece|] == piece
  }

  /** `key.indexOf(piece, from)`: it searches to the end of the key, and finds an empty piece at once. */
  function IndexOf(key: string, piece: string, from: nat): (r: Option<nat>)
    ensures r.Some? ==> from <= r.value && Occurs(key, piece, r.value)
    decreases |key| - from
  {
    if from + |piece| > |key| then None
    else if Occurs(key, piece, from) then Some(from)
    else IndexOf(key, piece, from + 1)
  }

  /** It is the leftmost occurrence. */
  lemma {:induction false} IndexOfIsLeftmost(key: string, piece: string, from: nat, i: nat)
    requires from <= i && Occurs(key, piece, i)
    ensures IndexOf(key, piece, from).Some? && IndexOf(key, piece, from).value <= i
    decreases i - from
  {
    if !Occurs(key, piece, from) {
      IndexOfIsLeftmost(key, piece, from + 1, i);
    }
  }

  // ---------------------------------------------------------------- what matching means

  /** The text with the gaps around the middles: gap, middle, gap, …, middle, gap. */
  function Weave(gaps: seq<string>, middles: seq<string>): string
    requires |gaps| == |middles| + 1
  {
    if middles == [] then gaps[0] else gaps[0] + middles[0] + Weave(gaps[1..], middles[1..])
  }

  /** The key is the prefix, some text and each middle in turn, some text, and the suffix. */
  ghost predicate Produces(prefix: string, suffix: string, middles: seq<string>, key: string) {
    exists gaps: seq<string> :: |gaps| == |middles| + 1 && key == prefix + Weave(gaps, middles) + suffix
  }

  /** The middles occur in order, without overlap, between `from` and `end`. */
  ghost predicate Fills(key: string, from: nat, end: nat, middles: seq<string>)
    decreases |middles|
  {
    if middles == [] then from <= end
    else exists i: nat :: from <= i && i + |middles[0]| <= end && Occurs(key, middles[0], i)
                       && Fills(key, i + |middles[0]|, end, middles[1..])
  }

  /** Taking the leftmost occurrence of the next middle loses nothing. */
  lemma GreedyStep(key: string, from: nat, end: nat, middles: seq<string>)
    requires middles != []
    ensures var at := IndexOf(key, middles[0], from);
            Fills(key, from, end, middles)
            <==> at.Some? && at.value + |middles[0]| <= end && Fills(key, at.value + |middles[0]|, end, middles[1..])
  {
    var m := middles[0];
    if Fills(key, from, end, middles) {
      var i: nat :| from <= i && i + |m| <= end && Occurs(key, m, i) && Fills(key, i + |m|, end, middles[1..]);
      IndexOfIsLeftmost(key, m, from, i);
      FillsFromEarlier(key, IndexOf(key, m, from).value + |m|, i + |m|, end, middles[1..]);
    }
  }

  lemma FillsFromEarlier(key: string, earlier: nat, from: nat, end: nat, middles: seq<string>)
    requires earlier <= from && Fills(key, from, end, middles)
    ensures Fills(key, earlier, end, middles)
  {
  }

  lemma {:induction false} FillsWithin(key: string, from: nat, end: nat, middles: seq<string>)
    requires Fills(key, from, end, middles)
    ensures from <= end
  {
  }

  lemma {:induction false} FilledWeaves(key: string, from: nat, end: nat, middles: seq<string>) returns (gaps: seq<string>)
    requires end <= |key| && Fills(key, from, end, middles)
    ensures |gaps| == |middles| + 1 && from <= end && key[from..end] == Weave(gaps, middles)
    decreases |middles|
  {
    FillsWithin(key, from, end, middles);
    if middles == [] {
      gaps := [key[from..end]];
    } else {
      var m := middles[0];
      var i: nat :| from <= i && i + |m| <= end && Occurs(key, m, i) && Fills(key, i + |m|, end, middles[1..]);
      var rest := FilledWeaves(key, i + |m|, end, middles[1..]);
      gaps := [key[from..i]] + rest;
      assert gaps[1..] == rest;
      JoinSlices(key, from, i, i + |m|, end);
    }
  }

  lemma {:induction false} WovenFills(key: string, from: nat, end: nat, middles: seq<string>, gaps: seq<string>)
    requires from <= end <= |key| && |gaps| == |middles| + 1 && key[from..end] == Weave(gaps, middles)
    ensures Fills(key, from, end, middles)
    decreases |middles|
  {
    if middles != [] {
      var m, g, rest := middles[0], gaps[0], Weave(gaps[1..], middles[1..]);
      SliceOfThree(key, from, end, g, m, rest);
      var i := from + |g|;
      WovenFills(key, i + |m|, end, middles[1..], gaps[1..]);
      assert Occurs(key, middles[0], i);
    }
  }

  lemma JoinSlices(key: string, a: nat, b: nat, c: nat, d: nat)
    requires a <= b <= c <= d <= |key|
    ensures key[a..d] == key[a..b] + key[b..c] + key[c..d]
  {
  }

  lemma SliceOfSlice(key: string, from: nat, end: nat, a: nat, b: nat)
    requires from <= end <= |key| && a <= b <= end - from
    ensures key[from..end][a..b] == key[from + a..from + b]
  {
    var s := key[from..end];
    forall k | 0 <= k < b - a ensures s[a..b][k] == key[from + a..from + b][k] {
      assert s[a..b][k] == s[a + k] == key[from + a + k];
    }
  }

  lemma SliceOfThree(key: string, from: nat, end: nat, g: string, m: string, rest: string)
    requires from <= end <= |key| && key[from..end] == g + m + rest
    ensures from + |g| + |m| + |rest| == end
    ensures Occurs(key, m, from + |g|) && key[from + |g| + |m|..end] == rest
  {
    var s := key[from..end];
    assert s[|g|..|g| + |m|] == m && s[|g| + |m|..] == rest;
    SliceOfSlice(key, from, end, |g|, |g| + |m|);
  }

  lemma ProducedFills(prefix: string, suffix: string, middles: seq<string>, key: string)
    requires Produces(prefix, suffix, middles, key)
    ensures Framed(key, prefix, suffix) && Fills(key, |prefix|, |key| - |suffix|, middles)
  {
    var gaps: seq<string> :| |gaps| == |middles| + 1 && key == prefix + Weave(gaps, middles) + suffix;
    FramedParts(key, prefix, Weave(gaps, middles), suffix);
    WovenFills(key, |prefix|, |key| - |suffix|, middles, gaps);
  }

  lemma FilledProduces(prefix: string, suffix: string, middles: seq<string>, key: string)
    requires Framed(key, prefix, suffix) && Fills(key, |prefix|, |key| - |suffix|, middles)
    ensures Produces(prefix, suffix, middles, key)
  {
    var end := |key| - |suffix|;
    var gaps := FilledWeaves(key, |prefix|, end, middles);
    assert key == key[..|prefix|] + key[|prefix|..end] + key[end..];
  }

  /** Filling the part between prefix and suffix is producing the key. */
  lemma FillsIsProduces(prefix: string, suffix: string, middles: seq<string>, key: string)
    ensures Produces(prefix, suffix, middles, key)
       <==> Framed(key, prefix, suffix) && Fills(key, |prefix|, |key| - |suffix|, middles)
  {
    if Produces(prefix, suffix, middles, key) {
      ProducedFills(prefix, suffix, middles, key);
    } else if Framed(key, prefix, suffix) && Fills(key, |prefix|, |key| - |suffix|, middles) {
      FilledProduces(prefix, suffix, middles, key);
    }
  }

  /** The key starts with the prefix, ends with the suffix, and they do not overlap in it. */
  predicate Framed(key: string, prefix: string, suffix: string) {
    prefix <= key && |suffix| <= |key| && key[|key| - |suffix|..] == suffix && |prefix| + |suffix| <= |key|
  }

  lemma FramedParts(key: string, prefix: string, inner: string, suffix: string)
    requires key == prefix + inner + suffix
    ensures Framed(key, prefix, suffix) && key[|prefix|..|key| - |suffix|] == inner
  {
  }

  // ---------------------------------------------------------------- the matcher

  /** The middles are found one after another, each at its leftmost occurrence after the last. */
  predicate Greedy(key: string, cursor: nat, end: nat, middles: seq<string>)
    decreases |middles|
  {
    if middles == [] then cursor <= end
    else
      var index := IndexOf(key, middles[0], cursor);
      index.Some? && index.value <= end && Greedy(key, index.value + |middles[0]|, end, middles[1..])
  }

  lemma {:induction false} GreedyIsExact(key: string, cursor: nat, end: nat, middles: seq<string>)
    ensures Greedy(key, cursor, end, middles) <==> Fills(key, cursor, end, middles)
    decreases |middles|
  {
    if middles != [] {
      GreedyStep(key, cursor, end, middles);
      var index := IndexOf(key, middles[0], cursor);
      if index.Some? {
        GreedyIsExact(key, index.value + |middles[0]|, end, middles[1..]);
        if index.value + |middles[0]| > end {
          PastTheEnd(key, index.value + |middles[0]|, end, middles[1..]);
        }
      }
    }
  }

  /** Once the cursor has passed the end nothing more fits. */
  lemma PastTheEnd(key: string, from: nat, end: nat, middles: seq<string>)
    requires end < from
    ensures !Fills(key, from, end, middles)
  {
  }

  predicate Accepts(key: string, prefix: string, suffix: string, middles: seq<string>) {
    Framed(key, prefix, suffix) && Greedy(key, |prefix|, |key| - |suffix|, middles)
  }

  lemma AcceptsIsProduces(key: string, prefix: string, suffix: string, middles: seq<string>)
    ensures Accepts(key, prefix, suffix, middles) <==> Produces(prefix, suffix, middles, key)
  {
    FillsIsProduces(prefix, suffix, middles, key);
    if Framed(key, prefix, suffix) {
      GreedyIsExact(key, |prefix|, |key| - |suffix|, middles);
    }
  }

  /** The greedy match accepts exactly the keys the pieces produce, overlapping and empty pieces included. */
  method MatchesTemplate(key: string, prefix: string, suffix: string, middles: seq<string>) returns (r: bool)
    ensures r <==> Produces(prefix, suffix, middles, key)
  {
    ghost var wanted := Accepts(key, prefix, suffix, middles);
    if !(prefix <= key) || !(|suffix| <= |key| && key[|key| - |suffix|..] == suffix) {
      AcceptsIsProduces(key, prefix, suffix, middles);
      return false;
    }
    if |key| < |prefix| + |suffix| {
      AcceptsIsProduces(key, prefix, suffix, middles);
      return false;
    }
    var cursor: nat := |prefix|;
    var end := |key| - |suffix|;
    assert middles[0..] == middles;
    var i := 0;
    while i < |middles|
      invariant 0 <= i <= |middles|
      invariant wanted <==> Greedy(key, cursor, end, middles[i..])
    {
      var middle := middles[i];
      var index := IndexOf(key, middle, cursor);
      assert middles[i..][1..] == middles[i + 1..];
      if index.None? || index.value > end {
        AcceptsIsProduces(key, prefix, suffix, middles);
        return false;
      }
      cursor := index.value + |middle|;
      i := i + 1;
    }
    AcceptsIsProduces(key, prefix, suffix, middles);
    return cursor <= end;
  }

  // ---------------------------------------------------------------- templates

  /** A template literal: its head, and for each hole the literal text that follows it. */
  datatype Template = Template(head: string, spans: seq<string>)

  datatype Pieces = Pieces(prefix: string, suffix: string, middles: seq<string>)

  function TemplatePieces(t: Template): Pieces {
    var n := |t.spans|;
    if n == 0 then Pieces(t.head, "", []) else Pieces(t.head, t.spans[n - 1], t.spans[..n - 1])
  }

  /** The string a template evaluates to with these hole values. */
  function Filled(spans: seq<string>, holes: seq<string>): string
    requires |holes| == |spans|
  {
    if spans == [] then "" else holes[0] + spans[0] + Filled(spans[1..], holes[1..])
  }

  /** Weaving around all spans but the last, then the last, is filling the holes in order. */
  lemma {:induction false} FilledIsWoven(spans: seq<string>, holes: seq<string>)
    requires |holes| == |spans| > 0
    ensures Filled(spans, holes) == Weave(holes, spans[..|spans| - 1]) + spans[|spans| - 1]
  {
    var n := |spans| - 1;
    if n == 0 {
      assert Filled(spans[1..], holes[1..]) == "";
      assert Filled(spans, holes) == holes[0] + spans[0] + "" == holes[0] + spans[0];
    } else {
      FilledIsWoven(spans[1..], holes[1..]);
      assert spans[1..][..n - 1] == spans[..n][1..];
      Associate(holes[0] + spans[0], Weave(holes[1..], spans[..n][1..]), spans[n]);
    }
  }

  lemma Associate(a: string, b: string, c: string)
    ensures a + (b + c) == a + b + c
  {
  }

  ghost predicate Evaluates(t: Template, key: string) {
    exists holes: seq<string> :: |holes| == |t.spans| && key == t.head + Filled(t.spans, holes)
  }

  /** A template with a hole matches exactly the strings it can evaluate to. */
  lemma PiecesAreTheTemplate(t: Template, key: string)
    requires t.spans != []
    ensures var p := TemplatePieces(t);
            Produces(p.prefix, p.suffix, p.middles, key) <==> Evaluates(t, key)
  {
    var p := TemplatePieces(t);
    if Produces(p.prefix, p.suffix, p.middles, key) {
      var gaps: seq<string> :| |gaps| == |p.middles| + 1 && key == p.prefix + Weave(gaps, p.middles) + p.suffix;
      FilledIsWoven(t.spans, gaps);
      Associate(p.prefix, Weave(gaps, p.middles), p.suffix);
    }
    if Evaluates(t, key) {
      var holes: seq<string> :| |holes| == |t.spans| && key == t.head + Filled(t.spans, holes);
      FilledIsWoven(t.spans, holes);
      Associate(p.prefix, Weave(holes, p.middles), p.suffix);
    }
  }
}
