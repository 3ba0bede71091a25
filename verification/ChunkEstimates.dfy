/**
 How many tokens a text chunk is estimated at, as opposed to the running count
 it was packed by: the words of a chunk, when it keeps within a budget, and
 which limit guarantees a budget.
 */
module ChunkEstimates {
  import opened Text
  import opened Chunker

  // ----- fields of a concatenation -----

  lemma {:induction false} WordLengthConcat(s: string, t: string)
    requires t == "" || IsSpace(t[0])
    ensures WordLength(s + t) == WordLength(s)
  {
    if s == "" {
      assert s + t == t;
    } else if !IsSpace(s[0]) {
      WordLengthConcat(s[1..], t);
      assert (s + t)[1..] == s[1..] + t;
    }
  }

  lemma {:induction false} FirstWord(s: string, t: string)
    requires s != "" && !IsSpace(s[0]) && (t == "" || IsSpace(t[0]))
    ensures var n := WordLength(s); Fields(s + t) == [s[..n]] + Fields(s[n..] + t)
  {
    var n := WordLength(s);
    WordLengthConcat(s, t);
    assert (s + t)[..n] == s[..n] && (s + t)[n..] == s[n..] + t;
  }

  /** A text that starts with white space ends the word before it. */
  lemma {:induction false} FieldsConcat(s: string, t: string)
    requires t == "" || IsSpace(t[0])
    ensures Fields(s + t) == Fields(s) + Fields(t)
    decreases |s|
  {
    if s == "" {
      assert s + t == t;
    } else if IsSpace(s[0]) {
      FieldsConcat(s[1..], t);
      assert (s + t)[1..] == s[1..] + t;
    } else {
      FieldsConcat(s[WordLength(s)..], t);
      FirstWord(s, t);
    }
  }

  /** Leading white space does not matter. */
  lemma {:induction false} FieldsFrom(s: string, i: nat)
    requires i <= |s| && forall k :: 0 <= k < i ==> IsSpace(s[k])
    ensures Fields(s[i..]) == Fields(s)
  {
    if i == 0 {
      assert s[0..] == s;
    } else {
      FieldsFrom(s, i - 1);
      var t := s[i - 1..];
      assert t[0] == s[i - 1] && t[1..] == s[i..];
    }
  }

  /** Nor does trailing white space. */
  lemma FieldsBefore(s: string, a: string, blank: string)
    requires s == a + blank && forall k :: 0 <= k < |blank| ==> IsSpace(blank[k])
    ensures Fields(a) == Fields(s)
  {
    FieldsConcat(a, blank);
    FieldsFrom(blank, |blank|);
    assert blank[|blank|..] == "";
  }

  lemma FieldsBetween(s: string, i: nat, j: nat)
    requires i <= j <= |s|
    requires (forall k :: 0 <= k < i ==> IsSpace(s[k])) && forall k :: j <= k < |s| ==> IsSpace(s[k])
    ensures Fields(s[i..j]) == Fields(s)
  {
    FieldsFrom(s, i);
    FieldsBefore(s[i..], s[i..j], s[j..]);
  }

  lemma FieldsOfTrim(s: string)
    ensures Fields(Trim(s)) == Fields(s)
  {
    var start := SkipSpace(s, 0);
    SkipSpaceSound(s, 0);
    DropSpaceSound(s, start, |s|);
    FieldsBetween(s, start, DropSpace(s, start, |s|));
  }

  lemma FieldsOfGap(a: string, b: string)
    ensures Fields(a + GAP + b) == Fields(a) + Fields(b)
  {
    FieldsConcat(a, GAP + b);
    assert a + (GAP + b) == a + GAP + b;
    FieldsFrom(GAP + b, 2);
    assert (GAP + b)[2..] == b;
  }

  // ----- the words of a chunk -----

  /** The words of some paragraphs, in order. */
  function Words(group: seq<string>): seq<string> {
    if group == [] then [] else Words(group[..|group| - 1]) + Fields(group[|group| - 1])
  }

  lemma {:induction false} WordsAppend(a: seq<string>, b: seq<string>)
    ensures Words(a + b) == Words(a) + Words(b)
  {
    if b == [] {
      assert a + b == a;
    } else {
      WordsAppend(a, b[..|b| - 1]);
      assert (a + b)[..|a + b| - 1] == a + b[..|b| - 1];
    }
  }

  lemma {:induction false} FieldsOfGroup(group: seq<string>)
    ensures Fields(Join(group, GAP)) == Words(group)
  {
    if |group| == 1 {
      assert group[..0] == [];
    } else if |group| > 1 {
      var rest, last := group[..|group| - 1], group[|group| - 1];
      FieldsOfGroup(rest);
      assert group == rest + [last];
      JoinAppend(rest, last, GAP);
      FieldsOfGap(Join(rest, GAP), last);
    }
  }

  /** The last n words, or all when there are fewer. */
  function Last(words: seq<string>, n: nat): seq<string> {
    if n >= |words| then words else words[|words| - n..]
  }

  lemma LastOfLast(a: seq<string>, b: seq<string>, n: nat)
    ensures Last(Last(a, n) + b, n) == Last(a + b, n)
  {
    if n < |a| {
      assert a + b == a[..|a| - n] + (Last(a, n) + b);
    }
  }

  lemma OverlapWords(text: string, overlap: nat)
    ensures Fields(OverlapText(text, overlap)) == Last(Fields(text), overlap * 3 / 4)
  {
    var words, n := Fields(text), overlap * 3 / 4;
    if n < |words| {
      FieldsAreWords(text);
      FieldsOfJoin(words[|words| - n..]);
    }
  }

  lemma FieldsOfGlue(a: string, b: string)
    ensures Fields(Glue(a, b)) == Fields(a) + Fields(b)
  {
    if a != "" {
      FieldsOfGap(a, b);
    }
  }

  lemma FirstText(groups: seq<seq<string>>, overlap: nat)
    requires |groups| == 1
    ensures Fields(TextOf(groups, overlap)) == Words(groups[0])
  {
    FieldsOfGroup(groups[0]);
  }

  lemma {:induction false} NextText(groups: seq<seq<string>>, overlap: nat)
    requires |groups| > 1
    ensures var m := |groups| - 1;
            Fields(TextOf(groups, overlap))
            == Last(Fields(TextOf(groups[..m], overlap)), overlap * 3 / 4) + Words(groups[m])
  {
    var m := |groups| - 1;
    var before := TextOf(groups[..m], overlap);
    FieldsOfGroup(groups[m]);
    FieldsOfGlue(OverlapText(before, overlap), Join(groups[m], GAP));
    OverlapWords(before, overlap);
  }

  lemma WordsBefore(groups: seq<seq<string>>, m: nat)
    requires m < |groups|
    ensures Words(Flatten(groups[..m + 1])) == Words(Flatten(groups[..m])) + Words(groups[m])
  {
    assert groups[..m + 1] == groups[..m] + [groups[m]];
    FlattenAppend(groups[..m], groups[m]);
    WordsAppend(Flatten(groups[..m]), groups[m]);
  }

  lemma {:induction false} FieldsOfText(groups: seq<seq<string>>, overlap: nat, m: nat)
    requires m < |groups|
    ensures Fields(TextOf(groups[..m + 1], overlap))
            == Last(Words(Flatten(groups[..m])), overlap * 3 / 4) + Words(groups[m])
  {
    var g := groups[..m + 1];
    assert g[m] == groups[m];
    if m == 0 {
      FirstText(g, overlap);
      assert groups[..0] == [];
    } else {
      FieldsOfText(groups, overlap, m - 1);
      NextText(g, overlap);
      assert g[..m] == groups[..m];
      WordsBefore(groups, m - 1);
      LastOfLast(Words(Flatten(groups[..m - 1])), Words(groups[m - 1]), overlap * 3 / 4);
    }
  }

  /** A chunk holds the last words of everything before it, as many as the overlap allows, and its own paragraphs' words. */
  lemma ChunkWords(groups: seq<seq<string>>, overlap: nat, k: nat)
    requires k < |groups|
    ensures Fields(TextChunks(groups, overlap)[k])
            == Last(Words(Flatten(groups[..k])), overlap * 3 / 4) + Words(groups[k])
  {
    FieldsOfTrim(TextOf(groups[..k + 1], overlap));
    FieldsOfText(groups, overlap, k);
  }

  function Min(a: nat, b: nat): nat {
    if a <= b then a else b
  }

  lemma EstimateIff(s: string, limit: nat)
    requires limit >= 1
    ensures EstimateTokens(s) <= limit <==> 4 * |Fields(s)| <= 3 * limit + 2
  {
  }

  /** When a chunk is estimated at no more than a limit, in word counts of the paragraphs alone. */
  lemma WithinLimitIff(groups: seq<seq<string>>, limit: nat, overlap: nat, k: nat)
    requires k < |groups| && limit >= 1
    ensures EstimateTokens(TextChunks(groups, overlap)[k]) <= limit
            <==> 4 * (Min(overlap * 3 / 4, |Words(Flatten(groups[..k]))|) + |Words(groups[k])|) <= 3 * limit + 2
  {
    ChunkWords(groups, overlap, k);
    EstimateIff(TextChunks(groups, overlap)[k], limit);
  }

  // ----- the running count and the estimate -----

  lemma WordsAtMostEstimate(s: string)
    ensures |Fields(s)| <= EstimateTokens(s)
  {
  }

  lemma {:induction false} WordsAtMostCount(group: seq<string>)
    ensures |Words(group)| <= Count(group)
  {
    if group != [] {
      WordsAtMostCount(group[..|group| - 1]);
      WordsAtMostEstimate(group[|group| - 1]);
    }
  }

  /** A chunk has no more words than its running count. */
  lemma WordsAtMostRunning(groups: seq<seq<string>>, overlap: nat, k: nat)
    requires k < |groups|
    ensures |Fields(TextChunks(groups, overlap)[k])| <= Running(groups[..k + 1], overlap)
  {
    var g := groups[..k + 1];
    assert g[k] == groups[k];
    FieldsOfTrim(TextOf(g, overlap));
    FieldsOfGroup(g[k]);
    WordsAtMostCount(g[k]);
    if k > 0 {
      var kept := OverlapText(TextOf(g[..k], overlap), overlap);
      FieldsOfGlue(kept, Join(g[k], GAP));
      WordsAtMostEstimate(kept);
    }
  }

  // ----- contents with given paragraphs -----

  /** A paragraph as an author writes it: trimmed, not blank, without an empty line. */
  ghost predicate IsParagraph(p: string) {
    IsBlock(p) && NoneIn(p, GAP, 0, |p|)
  }

  lemma HasGap(s: string, k: nat)
    ensures HasAt(s, GAP, k) <==> k + 2 <= |s| && s[k] == '\n' && s[k + 1] == '\n'
  {
    if HasAt(s, GAP, k) {
      assert s[k + 0] == GAP[0] && s[k + 1] == GAP[1];
    }
  }

  /** A paragraph at position n ends where the next gap or the text does. */
  lemma FindAfterParagraph(s: string, n: nat, p: string)
    requires IsParagraph(p) && n + |p| <= |s| && forall k :: 0 <= k < |p| ==> s[n + k] == p[k]
    requires n + |p| < |s| ==> HasAt(s, GAP, n + |p|)
    ensures Find(s, GAP, n) == n + |p|
  {
    forall k: nat | n <= k < n + |p| ensures !HasAt(s, GAP, k) {
      var l := k - n;
      assert !HasAt(p, GAP, l);
      HasGap(p, l);
      HasGap(s, k);
      assert s[n + l] == p[l] && !IsSpace(p[|p| - 1]);
      assert l + 1 < |p| ==> s[n + (l + 1)] == p[l + 1];
    }
    FindIs(s, GAP, n, n + |p|);
  }

  lemma JoinedAt(s: string, n: nat, p: string, rest: string)
    requires n <= |s| && s[n..] == p + GAP + rest
    ensures (forall k :: 0 <= k < |p| ==> s[n + k] == p[k]) && HasAt(s, GAP, n + |p|) && s[n + |p| + 2..] == rest
  {
    var b := s[n..];
    assert forall k :: 0 <= k < |p| ==> b[k] == p[k];
    assert s[n + |p|] == b[|p|] && s[n + (|p| + 1)] == b[|p| + 1];
    HasGap(s, n + |p|);
    assert s[n + |p| + 2..] == b[|p| + 2..];
  }

  lemma SplitLast(s: string, n: nat, p: string)
    requires IsParagraph(p) && n <= |s| && s[n..] == p
    ensures SplitFrom(s, GAP, n) == [p]
  {
    assert forall k :: 0 <= k < |p| ==> s[n..][k] == s[n + k];
    FindAfterParagraph(s, n, p);
  }

  lemma SplitMore(s: string, n: nat, p: string, rest: string)
    requires IsParagraph(p) && n <= |s| && s[n..] == p + GAP + rest
    ensures n + |p| + 2 <= |s| && s[n + |p| + 2..] == rest
    ensures SplitFrom(s, GAP, n) == [p] + SplitFrom(s, GAP, n + |p| + 2)
  {
    JoinedAt(s, n, p, rest);
    FindAfterParagraph(s, n, p);
    assert s[n..n + |p|] == p;
  }

  lemma {:induction false} SplitOfJoin(s: string, n: nat, paras: seq<string>)
    requires paras != [] && (forall k :: 0 <= k < |paras| ==> IsParagraph(paras[k]))
    requires n <= |s| && s[n..] == Join(paras, GAP)
    ensures SplitFrom(s, GAP, n) == paras
    decreases |paras|
  {
    var p := paras[0];
    if |paras| == 1 {
      SplitLast(s, n, p);
    } else {
      SplitMore(s, n, p, Join(paras[1..], GAP));
      SplitOfJoin(s, n + |p| + 2, paras[1..]);
    }
  }

  lemma {:induction false} BlocksKept(paras: seq<string>)
    requires forall k :: 0 <= k < |paras| ==> IsBlock(paras[k])
    ensures Blocks(paras) == paras
  {
    if paras != [] {
      BlocksKept(paras[..|paras| - 1]);
      TrimSound(paras[|paras| - 1]);
    }
  }

  /** Paragraphs joined by empty lines are the paragraphs the chunkers see. */
  lemma {:induction false} BlocksOfJoin(paras: seq<string>)
    requires paras != [] && forall k :: 0 <= k < |paras| ==> IsParagraph(paras[k])
    ensures BlocksOf(Join(paras, GAP)) == paras
  {
    SplitOfJoin(Join(paras, GAP), 0, paras);
    BlocksKept(paras);
  }

  // ----- which limit guarantees a budget -----

  /** Every paragraph leaves room for the overlap before it. */
  ghost predicate ShortParagraphs(content: string, limit: nat, overlap: nat) {
    forall p :: p in BlocksOf(content) ==> overlap + EstimateTokens(p) <= limit
  }

  /** Every chunk the content is cut into is estimated at no more than the budget. */
  ghost predicate WithinBudget(content: string, limit: nat, overlap: nat, budget: nat) {
    forall groups, k: nat :: TextPacking(BlocksOf(content), groups, limit, overlap) && k < |groups|
                             ==> EstimateTokens(TextChunks(groups, overlap)[k]) <= budget
  }

  lemma ShortStaysWithin(content: string, limit: nat, overlap: nat, budget: nat)
    requires overlap >= 1 && budget >= 1 && 4 * limit <= 3 * budget + 2 && ShortParagraphs(content, limit, overlap)
    ensures WithinBudget(content, limit, overlap, budget)
  {
    forall groups, k: nat | TextPacking(BlocksOf(content), groups, limit, overlap) && k < |groups|
      ensures EstimateTokens(TextChunks(groups, overlap)[k]) <= budget
    {
      ShortParagraphsFit(BlocksOf(content), groups, limit, overlap, k);
      WordsAtMostRunning(groups, overlap, k);
      EstimateIff(TextChunks(groups, overlap)[k], budget);
    }
  }

  function Max(a: nat, b: nat): nat {
    if a >= b then a else b
  }

  function OneWordParagraphs(n: nat): seq<string> {
    seq(n, _ => "a")
  }

  lemma OneWord()
    ensures IsParagraph("a") && Fields("a") == ["a"] && EstimateTokens("a") == 1
  {
    FieldsOfWordThen("a", "");
    assert "a" + "" == "a";
    assert forall k: nat :: k < 1 ==> !HasAt("a", GAP, k);
  }

  lemma {:induction false} OneWordCounts(n: nat)
    ensures |Words(OneWordParagraphs(n))| == n && Count(OneWordParagraphs(n)) == n
  {
    if n > 0 {
      OneWordCounts(n - 1);
      OneWord();
      assert OneWordParagraphs(n)[..n - 1] == OneWordParagraphs(n - 1);
    }
  }

  /**
   One-word paragraphs, as many as the limit, make one chunk that fits by its
   running count and is estimated at a third more than the limit.
   */
  lemma OneWordParagraphsOverrun(limit: nat, overlap: nat)
    requires limit >= 1
    ensures var content := Join(OneWordParagraphs(limit), GAP);
            var groups := [OneWordParagraphs(limit)];
            && BlocksOf(content) == OneWordParagraphs(limit)
            && TextPacking(BlocksOf(content), groups, limit, overlap)
            && Running(groups, overlap) == limit
            && EstimateTokens(TextChunks(groups, overlap)[0]) == Max(1, limit * 4 / 3)
  {
    var paras := OneWordParagraphs(limit);
    var groups := [paras];
    OneWord();
    BlocksOfJoin(paras);
    OneWordCounts(limit);
    assert groups[1..] == [] && Flatten(groups) == paras;
    assert groups[..0] == [];
    ChunkWords(groups, overlap, 0);
  }

  /** A code chunk holds 512 one-word blocks and not one more. */
  lemma CodeChunkHolds512(n: nat)
    requires n >= 2
    ensures Greedy(OneWordParagraphs(n), [OneWordParagraphs(n)]) <==> n <= 512
  {
    var g := [OneWordParagraphs(n)];
    OneWordCounts(n);
    assert g[1..] == [] && Flatten(g) == OneWordParagraphs(n);
    assert g[0] == OneWordParagraphs(n);
  }

  lemma OverrunBreaks(limit: nat, overlap: nat, budget: nat)
    requires 1 <= overlap < limit && budget >= 1 && 4 * limit > 3 * budget + 2
    ensures var content := Join(OneWordParagraphs(limit), GAP);
            ShortParagraphs(content, limit, overlap) && !WithinBudget(content, limit, overlap, budget)
  {
    OneWordParagraphsOverrun(limit, overlap);
    OneWord();
    var groups := [OneWordParagraphs(limit)];
    assert EstimateTokens(TextChunks(groups, overlap)[0]) > budget;
  }

  /**
   Whether a limit keeps every chunk of every content with short paragraphs
   within a budget. With the budget equal to the limit, as the comment on
   ChunkText has it, it does for a limit of at most 2.
   */
  lemma BudgetIff(limit: nat, overlap: nat, budget: nat)
    requires 1 <= overlap < limit && budget >= 1
    ensures (forall content :: ShortParagraphs(content, limit, overlap) ==> WithinBudget(content, limit, overlap, budget))
            <==> 4 * limit <= 3 * budget + 2
  {
    if 4 * limit <= 3 * budget + 2 {
      forall content | ShortParagraphs(content, limit, overlap) ensures WithinBudget(content, limit, overlap, budget) {
        ShortStaysWithin(content, limit, overlap, budget);
      }
    } else {
      OverrunBreaks(limit, overlap, budget);
    }
  }
}
