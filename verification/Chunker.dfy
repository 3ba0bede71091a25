/**
 The two greedy chunkers: code is cut into blocks and packed up to 512 estimated
 tokens a chunk; text is packed the same way, each chunk starting with the last
 words of the one before.
 */
module Chunker {
  import opened Text

  const GAP: string := "\n\n"

  const CODE_LIMIT: nat := 512

  // ----- words and tokens -----

  function WordLength(s: string): (n: nat)
    ensures n <= |s|
  {
    if s == "" || IsSpace(s[0]) then 0 else 1 + WordLength(s[1..])
  }

  /** strings.Fields */
  function Fields(s: string): seq<string>
    decreases |s|
  {
    if s == "" then []
    else if IsSpace(s[0]) then Fields(s[1..])
    else
      var n := WordLength(s);
      [s[..n]] + Fields(s[n..])
  }

  predicate IsWord(w: string) {
    w != "" && forall c :: c in w ==> !IsSpace(c)
  }

  /** int(words / 0.75), at least 1. */
  function EstimateTokens(s: string): (n: nat)
    ensures n >= 1
  {
    var tokens := |Fields(s)| * 4 / 3;
    if tokens < 1 then 1 else tokens
  }

  /** strings.Join */
  function Join(parts: seq<string>, sep: string): string {
    if parts == [] then ""
    else if |parts| == 1 then parts[0]
    else parts[0] + sep + Join(parts[1..], sep)
  }

  function OverlapText(text: string, overlapTokens: nat): string {
    var words := Fields(text);
    var n := overlapTokens * 3 / 4;
    if n >= |words| then text else Join(words[|words| - n..], " ")
  }

  lemma {:induction false} WordLengthIs(w: string, rest: string)
    requires (forall c :: c in w ==> !IsSpace(c)) && (rest == "" || IsSpace(rest[0]))
    ensures WordLength(w + rest) == |w|
  {
    if w == "" {
      assert w + rest == rest;
    } else {
      assert w[0] in w;
      assert (w + rest)[1..] == w[1..] + rest;
      WordLengthIs(w[1..], rest);
    }
  }

  lemma FieldsOfWordThen(w: string, rest: string)
    requires IsWord(w) && (rest == "" || IsSpace(rest[0]))
    ensures Fields(w + rest) == [w] + Fields(rest)
  {
    WordLengthIs(w, rest);
    assert w[0] in w && (w + rest)[0] == w[0];
    assert (w + rest)[..|w|] == w && (w + rest)[|w|..] == rest;
  }

  /** Joining words with spaces and splitting again gives the words back. */
  lemma {:induction false} FieldsOfJoin(words: seq<string>)
    requires forall k :: 0 <= k < |words| ==> IsWord(words[k])
    ensures Fields(Join(words, " ")) == words
  {
    if |words| == 1 {
      FieldsOfWordThen(words[0], "");
      assert words[0] + "" == words[0];
    } else if |words| > 1 {
      var rest := " " + Join(words[1..], " ");
      assert Join(words, " ") == words[0] + rest;
      FieldsOfWordThen(words[0], rest);
      assert rest[1..] == Join(words[1..], " ");
      FieldsOfJoin(words[1..]);
    }
  }

  lemma {:induction false} PrefixIsWord(s: string, k: nat)
    requires k < WordLength(s)
    ensures !IsSpace(s[k])
  {
    if k > 0 {
      PrefixIsWord(s[1..], k - 1);
    }
  }

  lemma {:induction false} FieldsAreWords(s: string)
    ensures forall k :: 0 <= k < |Fields(s)| ==> IsWord(Fields(s)[k])
    decreases |s|
  {
    if s != "" {
      if IsSpace(s[0]) {
        FieldsAreWords(s[1..]);
      } else {
        var n := WordLength(s);
        forall c | c in s[..n] ensures !IsSpace(c) {
          var k :| 0 <= k < n && s[k] == c;
          PrefixIsWord(s, k);
        }
        FieldsAreWords(s[n..]);
      }
    }
  }

  /** The overlap carried into the next chunk is estimated at no more than asked for. */
  lemma OverlapFits(text: string, overlapTokens: nat)
    requires overlapTokens >= 1
    ensures EstimateTokens(OverlapText(text, overlapTokens)) <= overlapTokens
  {
    var words := Fields(text);
    var n := overlapTokens * 3 / 4;
    if n < |words| {
      FieldsAreWords(text);
      FieldsOfJoin(words[|words| - n..]);
    }
  }

  // ----- pieces -----

  /** strings.Split from position i on. */
  function SplitFrom(s: string, sep: string, i: nat): (r: seq<string>)
    requires sep != "" && i <= |s|
    ensures |r| >= 1
    decreases |s| - i
  {
    var j := Find(s, sep, i);
    if j == |s| then [s[i..]] else [s[i..j]] + SplitFrom(s, sep, j + |sep|)
  }

  lemma CutAt(s: string, sep: string, i: nat, j: nat)
    requires i <= j && HasAt(s, sep, j)
    ensures s[i..j] + sep + s[j + |sep|..] == s[i..]
  {
    assert s[j..j + |sep|] == sep;
  }

  lemma JoinCons(p: string, rest: seq<string>, sep: string)
    requires rest != []
    ensures Join([p] + rest, sep) == p + sep + Join(rest, sep)
  {
    assert ([p] + rest)[1..] == rest;
  }

  lemma {:induction false} SplitJoins(s: string, sep: string, i: nat)
    requires sep != "" && i <= |s|
    ensures Join(SplitFrom(s, sep, i), sep) == s[i..]
    decreases |s| - i
  {
    var j := Find(s, sep, i);
    if j < |s| {
      SplitJoins(s, sep, j + |sep|);
      FindSound(s, sep, i);
      CutAt(s, sep, i, j);
      JoinCons(s[i..j], SplitFrom(s, sep, j + |sep|), sep);
    }
  }

  /** The trimmed pieces that are not blank. */
  function Blocks(pieces: seq<string>): seq<string> {
    if pieces == [] then []
    else
      var rest, last := Blocks(pieces[..|pieces| - 1]), Trim(pieces[|pieces| - 1]);
      if last == "" then rest else rest + [last]
  }

  function BlocksOf(content: string): seq<string> {
    Blocks(SplitFrom(content, GAP, 0))
  }

  predicate IsBlock(b: string) {
    b != "" && Trimmed(b)
  }

  // ----- groups -----

  function Flatten(groups: seq<seq<string>>): seq<string> {
    if groups == [] then [] else groups[0] + Flatten(groups[1..])
  }

  lemma {:induction false} FlattenAppend(groups: seq<seq<string>>, g: seq<string>)
    ensures Flatten(groups + [g]) == Flatten(groups) + g
  {
    if groups == [] {
      assert groups + [g] == [g] && [g][1..] == [];
    } else {
      FlattenAppend(groups[1..], g);
      assert (groups + [g])[1..] == groups[1..] + [g];
    }
  }

  /** The running count of a chunk: the sum of its blocks' estimates. */
  function Count(group: seq<string>): nat {
    if group == [] then 0 else Count(group[..|group| - 1]) + EstimateTokens(group[|group| - 1])
  }

  /** A group of one block, or one that fits. */
  predicate Fits(group: seq<string>) {
    |group| == 1 || Count(group) <= CODE_LIMIT
  }

  ghost predicate Tight(groups: seq<seq<string>>) {
    && (forall k :: 0 <= k < |groups| ==> groups[k] != [] && Fits(groups[k]))
    && (forall k, l :: 0 <= k && l == k + 1 && l < |groups| ==> Count(groups[k] + [groups[l][0]]) > CODE_LIMIT)
  }

  lemma TightAppend(groups: seq<seq<string>>, g: seq<string>)
    requires Tight(groups) && g != [] && Fits(g)
    requires groups != [] ==> Count(groups[|groups| - 1] + [g[0]]) > CODE_LIMIT
    ensures Tight(groups + [g])
  {
    var next := groups + [g];
    forall k, l | 0 <= k && l == k + 1 && l < |next| ensures Count(next[k] + [next[l][0]]) > CODE_LIMIT {
      if l < |groups| {
        assert Count(groups[k] + [groups[l][0]]) > CODE_LIMIT;
      }
    }
  }

  /** The blocks in order, packed so that no group could also take the next group's first block. */
  ghost predicate Greedy(blocks: seq<string>, groups: seq<seq<string>>) {
    Flatten(groups) == blocks && Tight(groups)
  }

  function Texts(groups: seq<seq<string>>): seq<string> {
    seq(|groups|, k requires 0 <= k < |groups| => Join(groups[k], GAP))
  }

  lemma {:induction false} JoinAppend(group: seq<string>, b: string, sep: string)
    requires group != []
    ensures Join(group + [b], sep) == Join(group, sep) + sep + b
  {
    if |group| == 1 {
      assert (group + [b])[1..] == [b];
    } else {
      JoinAppend(group[1..], b, sep);
      assert (group + [b])[1..] == group[1..] + [b];
    }
  }

  lemma {:induction false} JoinedIsBlock(group: seq<string>)
    requires group != [] && forall k :: 0 <= k < |group| ==> IsBlock(group[k])
    ensures IsBlock(Join(group, GAP))
  {
    if |group| > 1 {
      JoinedIsBlock(group[1..]);
      var rest := Join(group[1..], GAP);
      var s := group[0] + GAP + rest;
      assert s[0] == group[0][0] && s[|s| - 1] == rest[|rest| - 1];
    }
  }

  lemma CountAppend(group: seq<string>, b: string)
    ensures Count(group + [b]) == Count(group) + EstimateTokens(b)
  {
    assert (group + [b])[..|group|] == group;
  }

  /** What the packing loop knows: `done` groups, and one in the making. */
  ghost predicate Packing(blocks: seq<string>, done: seq<seq<string>>, cur: seq<string>) {
    && Flatten(done) + cur == blocks
    && Tight(done)
    && (cur != [] ==> Fits(cur) && (done != [] ==> Count(done[|done| - 1] + [cur[0]]) > CODE_LIMIT))
    && (cur == [] ==> done == [])
  }

  /** A block that no longer fits starts the next group. */
  lemma PackNext(blocks: seq<string>, done: seq<seq<string>>, cur: seq<string>, b: string)
    requires Packing(blocks, done, cur) && cur != [] && Count(cur) + EstimateTokens(b) > CODE_LIMIT
    ensures Packing(blocks + [b], done + [cur], [b])
  {
    FlattenAppend(done, cur);
    CountAppend(cur, b);
    TightAppend(done, cur);
    assert (done + [cur])[|done|] == cur;
  }

  lemma PackMore(blocks: seq<string>, done: seq<seq<string>>, cur: seq<string>, b: string)
    requires Packing(blocks, done, cur) && (cur == [] || Count(cur) + EstimateTokens(b) <= CODE_LIMIT)
    ensures Packing(blocks + [b], done, cur + [b])
  {
    CountAppend(cur, b);
    assert Flatten(done) + (cur + [b]) == Flatten(done) + cur + [b];
  }

  lemma TextsAppend(groups: seq<seq<string>>, g: seq<string>)
    ensures Texts(groups + [g]) == Texts(groups) + [Join(g, GAP)]
  {
  }

  lemma {:induction false} PackLast(blocks: seq<string>, done: seq<seq<string>>, cur: seq<string>)
    requires Packing(blocks, done, cur)
    ensures Greedy(blocks, if cur == [] then done else done + [cur])
  {
    if cur != [] {
      FlattenAppend(done, cur);
      TightAppend(done, cur);
    }
  }

  /** The builder and its running count hold the group in the making. */
  ghost predicate Holds(cur: seq<string>, current: string, tokens: nat) {
    && (forall k :: 0 <= k < |cur| ==> IsBlock(cur[k]))
    && current == Join(cur, GAP) && tokens == Count(cur)
  }

  lemma HoldsText(cur: seq<string>, current: string, tokens: nat)
    requires Holds(cur, current, tokens)
    ensures Trim(current) == current
    ensures current == "" <==> cur == []
    ensures tokens == 0 <==> cur == []
  {
    if cur != [] {
      JoinedIsBlock(cur);
    }
    TrimSound(current);
  }

  /** Write a block into the builder. */
  method WriteBlock(current: string, tokens: nat, block: string, ghost cur: seq<string>) returns (current': string, tokens': nat)
    requires Holds(cur, current, tokens) && IsBlock(block)
    ensures Holds(cur + [block], current', tokens')
  {
    HoldsText(cur, current, tokens);
    CountAppend(cur, block);
    if cur != [] {
      JoinAppend(cur, block, GAP);
    }
    current' := current;
    if |current| > 0 {
      current' := current' + GAP;
    }
    current' := current' + block;
    tokens' := tokens + EstimateTokens(block);
  }

  /** One turn of the packing loop, for a block that is not blank. */
  method PackBlock(block: string, chunks: seq<string>, current: string, tokens: nat,
                   ghost blocks: seq<string>, ghost groups: seq<seq<string>>, ghost cur: seq<string>)
    returns (chunks': seq<string>, current': string, tokens': nat, ghost groups': seq<seq<string>>, ghost cur': seq<string>)
    requires IsBlock(block) && Packing(blocks, groups, cur) && Holds(cur, current, tokens) && chunks == Texts(groups)
    ensures Packing(blocks + [block], groups', cur') && Holds(cur', current', tokens') && chunks' == Texts(groups')
  {
    chunks', current', tokens', groups', cur' := chunks, current, tokens, groups, cur;
    HoldsText(cur, current, tokens);
    if tokens + EstimateTokens(block) > CODE_LIMIT && tokens > 0 {
      PackNext(blocks, groups, cur, block);
      TextsAppend(groups, cur);
      chunks' := chunks + [Trim(current)];
      groups', cur' := groups + [cur], [];
      current', tokens' := "", 0;
      assert [] + [block] == [block];
    } else {
      PackMore(blocks, groups, cur, block);
    }
    current', tokens' := WriteBlock(current', tokens', block, cur');
    cur' := cur' + [block];
  }

  /** The packing loop over the pieces of the content. */
  method PackCode(pieces: seq<string>) returns (chunks: seq<string>, ghost groups: seq<seq<string>>)
    ensures Greedy(Blocks(pieces), groups) && chunks == Texts(groups)
  {
    var current, currentTokens: nat := "", 0;
    chunks, groups := [], [];
    ghost var cur: seq<string> := [];
    for i := 0 to |pieces|
      invariant Packing(Blocks(pieces[..i]), groups, cur)
      invariant Holds(cur, current, currentTokens)
      invariant chunks == Texts(groups)
    {
      assert pieces[..i + 1][..i] == pieces[..i];
      var block := Trim(pieces[i]);
      if block == "" {
        continue;
      }
      TrimSound(pieces[i]);
      chunks, current, currentTokens, groups, cur :=
        PackBlock(block, chunks, current, currentTokens, Blocks(pieces[..i]), groups, cur);
    }
    assert pieces[..|pieces|] == pieces;
    PackLast(Blocks(pieces), groups, cur);
    HoldsText(cur, current, currentTokens);
    TextsAppend(groups, cur);
    if |current| > 0 {
      chunks := chunks + [Trim(current)];
      groups := groups + [cur];
    }
  }

  /** ChunkCodeSimple, node types aside. */
  method ChunkCode(content: string) returns (chunks: seq<string>)
    ensures exists groups :: Greedy(BlocksOf(content), groups) && chunks == Texts(groups)
  {
    ghost var groups;
    chunks, groups := PackCode(SplitFrom(content, GAP, 0));
  }

  // ----- the packing is the only greedy one -----

  lemma {:induction false} CountOfPrefix(a: seq<string>, b: seq<string>)
    requires a <= b
    ensures Count(a) <= Count(b)
  {
    if a != b {
      var b' := b[..|b| - 1];
      assert a <= b';
      CountOfPrefix(a, b');
    }
  }

  lemma FlattenSize(groups: seq<seq<string>>)
    requires forall k :: 0 <= k < |groups| ==> groups[k] != []
    ensures Flatten(groups) == [] <==> groups == []
  {
  }

  /** The first group cannot be shorter than another greedy packing's. */
  lemma FirstNotShorter(blocks: seq<string>, g: seq<seq<string>>, h: seq<seq<string>>)
    requires Greedy(blocks, g) && Greedy(blocks, h) && g != [] && h != []
    ensures |g[0]| >= |h[0]|
  {
    assert Fits(h[0]);
    if |g[0]| < |h[0]| {
      assert g[0] == blocks[..|g[0]|] && h[0] == blocks[..|h[0]|];
      assert blocks[|g[0]|..] == Flatten(g[1..]);
      FlattenSize(g[1..]);
      var next := g[1][0];
      assert Flatten(g[1..])[0] == next;
      var p := g[0] + [next];
      assert p == blocks[..|p|];
      assert p <= h[0];
      CountOfPrefix(p, h[0]);
      assert false;
    }
  }

  /** There is exactly one greedy packing of a block list. */
  lemma {:induction false} GreedyIsUnique(blocks: seq<string>, g: seq<seq<string>>, h: seq<seq<string>>)
    requires Greedy(blocks, g) && Greedy(blocks, h)
    ensures g == h
    decreases |g|
  {
    FlattenSize(g);
    FlattenSize(h);
    if g != [] {
      FirstNotShorter(blocks, g, h);
      FirstNotShorter(blocks, h, g);
      var n := |g[0]|;
      assert g[0] == blocks[..n] && h[0] == blocks[..n];
      assert Flatten(g[1..]) == blocks[n..] && Flatten(h[1..]) == blocks[n..];
      GreedyIsUnique(blocks[n..], g[1..], h[1..]);
      assert g == [g[0]] + g[1..] && h == [h[0]] + h[1..];
    }
  }

  // ----- text with overlap -----

  function Glue(a: string, b: string): string {
    if a == "" then b else a + GAP + b
  }

  /** The builder's text when the last of these groups is complete. */
  function TextOf(groups: seq<seq<string>>, overlap: nat): string
    decreases |groups|
  {
    if groups == [] then ""
    else if |groups| == 1 then Join(groups[0], GAP)
    else
      var n := |groups| - 1;
      Glue(OverlapText(TextOf(groups[..n], overlap), overlap), Join(groups[n], GAP))
  }

  /** The running count the last group starts from: the estimate of its overlap. */
  function Carried(groups: seq<seq<string>>, overlap: nat): nat {
    if |groups| <= 1 then 0 else EstimateTokens(OverlapText(TextOf(groups[..|groups| - 1], overlap), overlap))
  }

  /** The running count when the last of these groups is complete. */
  function Running(groups: seq<seq<string>>, overlap: nat): nat {
    if groups == [] then 0 else Carried(groups, overlap) + Count(groups[|groups| - 1])
  }

  /** The last group is one paragraph, or its running count is within the limit. */
  predicate TextFits(groups: seq<seq<string>>, limit: nat, overlap: nat)
    requires groups != []
  {
    |groups[|groups| - 1]| == 1 || Running(groups, overlap) <= limit
  }

  /** Every group is non-empty and fits, and was closed only because the next paragraph did not fit. */
  ghost predicate TextPacked(groups: seq<seq<string>>, limit: nat, overlap: nat)
    decreases |groups|
  {
    groups != [] ==>
      var rest, last := groups[..|groups| - 1], groups[|groups| - 1];
      && last != [] && TextFits(groups, limit, overlap)
      && (rest != [] ==> Running(rest, overlap) + EstimateTokens(last[0]) > limit)
      && TextPacked(rest, limit, overlap)
  }

  ghost predicate TextPacking(paras: seq<string>, groups: seq<seq<string>>, limit: nat, overlap: nat) {
    Flatten(groups) == paras && TextPacked(groups, limit, overlap)
  }

  function TextChunks(groups: seq<seq<string>>, overlap: nat): seq<string> {
    seq(|groups|, k requires 0 <= k < |groups| => Trim(TextOf(groups[..k + 1], overlap)))
  }

  /** The groups with a paragraph added to the last one. */
  function Extend(groups: seq<seq<string>>, p: string): seq<seq<string>>
    requires groups != []
  {
    groups[..|groups| - 1] + [groups[|groups| - 1] + [p]]
  }

  lemma {:induction false} ExtendText(groups: seq<seq<string>>, p: string, overlap: nat)
    requires groups != [] && groups[|groups| - 1] != []
    ensures TextOf(Extend(groups, p), overlap) == TextOf(groups, overlap) + GAP + p
    ensures Running(Extend(groups, p), overlap) == Running(groups, overlap) + EstimateTokens(p)
  {
    var n := |groups| - 1;
    var g := groups[n];
    assert Extend(groups, p)[..n] == groups[..n];
    JoinAppend(g, p, GAP);
    CountAppend(g, p);
  }

  lemma {:induction false} StartText(groups: seq<seq<string>>, p: string, overlap: nat)
    requires groups != []
    ensures TextOf(groups + [[p]], overlap) == Glue(OverlapText(TextOf(groups, overlap), overlap), p)
    ensures Running(groups + [[p]], overlap)
            == EstimateTokens(OverlapText(TextOf(groups, overlap), overlap)) + EstimateTokens(p)
  {
    assert (groups + [[p]])[..|groups|] == groups;
    CountAppend([], p);
    assert [] + [p] == [p];
  }

  lemma {:induction false} ExtendFlatten(groups: seq<seq<string>>, p: string)
    requires groups != []
    ensures Flatten(Extend(groups, p)) == Flatten(groups) + [p]
  {
    var n := |groups| - 1;
    FlattenAppend(groups[..n], groups[n]);
    FlattenAppend(groups[..n], groups[n] + [p]);
    assert groups[..n] + [groups[n]] == groups;
  }

  lemma {:induction false} ExtendPacks(paras: seq<string>, groups: seq<seq<string>>, p: string, limit: nat, overlap: nat)
    requires groups != [] && TextPacking(paras, groups, limit, overlap)
    requires Running(groups, overlap) + EstimateTokens(p) <= limit
    ensures TextPacking(paras + [p], Extend(groups, p), limit, overlap)
  {
    ExtendFlatten(groups, p);
    ExtendText(groups, p, overlap);
    assert Extend(groups, p)[..|groups| - 1] == groups[..|groups| - 1];
  }

  lemma {:induction false} StartPacks(paras: seq<string>, groups: seq<seq<string>>, p: string, limit: nat, overlap: nat)
    requires TextPacking(paras, groups, limit, overlap)
    requires groups != [] ==> Running(groups, overlap) + EstimateTokens(p) > limit
    ensures TextPacking(paras + [p], groups + [[p]], limit, overlap)
  {
    FlattenAppend(groups, [p]);
    assert (groups + [[p]])[..|groups|] == groups;
  }

  lemma {:induction false} TextChunksAppend(groups: seq<seq<string>>, g: seq<string>, overlap: nat)
    ensures TextChunks(groups + [g], overlap) == TextChunks(groups, overlap) + [Trim(TextOf(groups + [g], overlap))]
  {
    var next := groups + [g];
    assert next[..|groups| + 1] == next;
    forall k | 0 <= k < |groups|
      ensures TextChunks(next, overlap)[k] == TextChunks(groups, overlap)[k]
    {
      assert next[..k + 1] == groups[..k + 1];
    }
  }

  /** The chunks whose text is complete: all but the last group. */
  function Emitted(groups: seq<seq<string>>, overlap: nat): seq<string> {
    if groups == [] then [] else TextChunks(groups[..|groups| - 1], overlap)
  }

  /** What the text loop knows: the groups so far, the last of them still in the builder. */
  ghost predicate Building(groups: seq<seq<string>>, current: string, tokens: nat, chunks: seq<string>, overlap: nat) {
    && current == TextOf(groups, overlap) && tokens == Running(groups, overlap)
    && chunks == Emitted(groups, overlap)
    && (groups != [] ==> current != "" && tokens > 0)
  }

  lemma FirstParagraph(p: string, overlap: nat)
    requires IsBlock(p)
    ensures Building([[p]], p, EstimateTokens(p), [], overlap)
  {
    CountAppend([], p);
    assert [] + [p] == [p];
  }

  lemma {:induction false} BuildMore(groups: seq<seq<string>>, current: string, tokens: nat, chunks: seq<string>, p: string, overlap: nat)
    requires groups != [] && groups[|groups| - 1] != [] && Building(groups, current, tokens, chunks, overlap)
    ensures Building(Extend(groups, p), current + GAP + p, tokens + EstimateTokens(p), chunks, overlap)
  {
    ExtendText(groups, p, overlap);
    assert Extend(groups, p)[..|groups| - 1] == groups[..|groups| - 1];
  }

  lemma {:induction false} LastChunk(groups: seq<seq<string>>, overlap: nat)
    requires groups != []
    ensures TextChunks(groups, overlap) == Emitted(groups, overlap) + [Trim(TextOf(groups, overlap))]
  {
    var n := |groups| - 1;
    assert groups[..n] + [groups[n]] == groups;
    TextChunksAppend(groups[..n], groups[n], overlap);
  }

  lemma {:induction false} BuildNext(groups: seq<seq<string>>, current: string, tokens: nat, chunks: seq<string>, p: string, overlap: nat)
    requires groups != [] && IsBlock(p) && Building(groups, current, tokens, chunks, overlap)
    ensures var kept := OverlapText(current, overlap);
            Building(groups + [[p]], Glue(kept, p), EstimateTokens(kept) + EstimateTokens(p), chunks + [Trim(current)], overlap)
  {
    StartText(groups, p, overlap);
    LastChunk(groups, overlap);
    assert (groups + [[p]])[..|groups|] == groups;
    assert Glue(OverlapText(current, overlap), p) != "";
  }

  /** One turn of the text loop. */
  method AddParagraph(para: string, limit: nat, overlap: nat, chunks: seq<string>, current: string, tokens: nat,
                      ghost paras: seq<string>, ghost groups: seq<seq<string>>)
    returns (chunks': seq<string>, current': string, tokens': nat, ghost groups': seq<seq<string>>)
    requires IsBlock(para) && TextPacking(paras, groups, limit, overlap) && Building(groups, current, tokens, chunks, overlap)
    ensures TextPacking(paras + [para], groups', limit, overlap) && Building(groups', current', tokens', chunks', overlap)
  {
    chunks', current', tokens' := chunks, current, tokens;
    var paraTokens := EstimateTokens(para);
    if tokens + paraTokens > limit && tokens > 0 {
      StartPacks(paras, groups, para, limit, overlap);
      BuildNext(groups, current, tokens, chunks, para, overlap);
      groups' := groups + [[para]];
      chunks' := chunks + [Trim(current)];
      current' := OverlapText(current, overlap);
      tokens' := EstimateTokens(current');
    } else if groups == [] {
      StartPacks(paras, groups, para, limit, overlap);
      FirstParagraph(para, overlap);
      groups' := [[para]];
    } else {
      ExtendPacks(paras, groups, para, limit, overlap);
      BuildMore(groups, current, tokens, chunks, para, overlap);
      groups' := Extend(groups, para);
    }
    if |current'| > 0 {
      current' := current' + GAP;
    }
    current' := current' + para;
    tokens' := tokens' + paraTokens;
  }

  /** The packing loop over the paragraphs. */
  method PackText(paragraphs: seq<string>, limit: nat, overlap: nat)
    returns (chunks: seq<string>, ghost groups: seq<seq<string>>)
    ensures TextPacking(Blocks(paragraphs), groups, limit, overlap) && chunks == TextChunks(groups, overlap)
  {
    var current, currentTokens: nat := "", 0;
    chunks, groups := [], [];
    for i := 0 to |paragraphs|
      invariant TextPacking(Blocks(paragraphs[..i]), groups, limit, overlap)
      invariant Building(groups, current, currentTokens, chunks, overlap)
    {
      assert paragraphs[..i + 1][..i] == paragraphs[..i];
      var para := Trim(paragraphs[i]);
      if para == "" {
        continue;
      }
      TrimSound(paragraphs[i]);
      chunks, current, currentTokens, groups :=
        AddParagraph(para, limit, overlap, chunks, current, currentTokens, Blocks(paragraphs[..i]), groups);
    }
    assert paragraphs[..|paragraphs|] == paragraphs;
    if |current| > 0 {
      LastChunk(groups, overlap);
      chunks := chunks + [Trim(current)];
    }
  }

  function LimitOf(maxTokens: int): (r: nat)
    ensures r >= 1
  {
    if maxTokens <= 0 then 512 else maxTokens
  }

  function OverlapOf(overlapTokens: int): (r: nat)
    ensures r >= 1
  {
    if overlapTokens <= 0 then 64 else overlapTokens
  }

  /** ChunkText; a limit or an overlap that is not positive falls back to 512 or 64. */
  method ChunkText(content: string, maxTokens: int, overlapTokens: int)
    returns (chunks: seq<string>)
    ensures exists groups :: && TextPacking(BlocksOf(content), groups, LimitOf(maxTokens), OverlapOf(overlapTokens))
                             && chunks == TextChunks(groups, OverlapOf(overlapTokens))
  {
    var limit: nat := if maxTokens <= 0 then 512 else maxTokens;
    var overlap: nat := if overlapTokens <= 0 then 64 else overlapTokens;
    ghost var groups;
    chunks, groups := PackText(SplitFrom(content, GAP, 0), limit, overlap);
    assert TextPacking(BlocksOf(content), groups, LimitOf(maxTokens), OverlapOf(overlapTokens));
  }

  lemma {:induction false} PackedPrefix(groups: seq<seq<string>>, k: nat, limit: nat, overlap: nat)
    requires k <= |groups| && TextPacked(groups, limit, overlap)
    ensures TextPacked(groups[..k], limit, overlap)
    decreases |groups| - k
  {
    if k < |groups| {
      PackedPrefix(groups, k + 1, limit, overlap);
      assert groups[..k + 1][..k] == groups[..k];
    } else {
      assert groups[..k] == groups;
    }
  }

  /** Every chunk's running count is at most max(limit, overlap + its last paragraph's estimate). */
  lemma RunningBound(groups: seq<seq<string>>, k: nat, limit: nat, overlap: nat)
    requires overlap >= 1 && k < |groups| && TextPacked(groups, limit, overlap)
    ensures groups[k] != []
    ensures var last := groups[k][|groups[k]| - 1];
            Running(groups[..k + 1], overlap) <= limit
            || Running(groups[..k + 1], overlap) <= overlap + EstimateTokens(last)
  {
    var g := groups[..k + 1];
    PackedPrefix(groups, k + 1, limit, overlap);
    assert g[|g| - 1] == groups[k];
    if |groups[k]| == 1 {
      assert groups[k][..0] == [];
      assert Count(groups[k]) == EstimateTokens(groups[k][0]);
      if |g| > 1 {
        OverlapFits(TextOf(g[..|g| - 1], overlap), overlap);
      }
    }
  }

  lemma {:induction false} GroupInFlatten(groups: seq<seq<string>>, k: nat, p: string)
    requires k < |groups| && p in groups[k]
    ensures p in Flatten(groups)
  {
    if k > 0 {
      GroupInFlatten(groups[1..], k - 1, p);
    }
  }

  /** If every paragraph leaves room for the overlap, every running count is within the limit. */
  lemma ShortParagraphsFit(paras: seq<string>, groups: seq<seq<string>>, limit: nat, overlap: nat, k: nat)
    requires overlap >= 1 && TextPacking(paras, groups, limit, overlap) && k < |groups|
    requires forall p :: p in paras ==> overlap + EstimateTokens(p) <= limit
    ensures Running(groups[..k + 1], overlap) <= limit
  {
    RunningBound(groups, k, limit, overlap);
    GroupInFlatten(groups, k, groups[k][|groups[k]| - 1]);
  }

  // ----- the text packing is the only one, too -----

  lemma {:induction false} FlattenSplit(g: seq<seq<string>>, k: nat)
    requires k <= |g|
    ensures Flatten(g) == Flatten(g[..k]) + Flatten(g[k..])
  {
    if k == 0 {
      assert g[..0] == [] && g[0..] == g;
    } else {
      FlattenSplit(g[1..], k - 1);
      assert g[1..][..k - 1] == g[..k][1..] && g[1..][k - 1..] == g[k..];
    }
  }

  /** What the packing says of its k-th group. */
  lemma {:induction false} PackedAt(g: seq<seq<string>>, k: nat, limit: nat, overlap: nat)
    requires k < |g| && TextPacked(g, limit, overlap)
    ensures g[k] != []
    ensures |g[k]| == 1 || Carried(g[..k + 1], overlap) + Count(g[k]) <= limit
    ensures k > 0 ==> Running(g[..k], overlap) + EstimateTokens(g[k][0]) > limit
  {
    PackedPrefix(g, k + 1, limit, overlap);
    assert g[..k + 1][..k] == g[..k] && g[..k + 1][k] == g[k];
  }

  lemma {:induction false} AllNonEmpty(g: seq<seq<string>>, limit: nat, overlap: nat)
    requires TextPacked(g, limit, overlap)
    ensures forall k :: 0 <= k < |g| ==> g[k] != []
  {
    forall k | 0 <= k < |g| ensures g[k] != [] {
      PackedAt(g, k, limit, overlap);
    }
  }

  /** Packings that agree on k groups have the same paragraphs left. */
  lemma {:induction false} SameRest(paras: seq<string>, g: seq<seq<string>>, h: seq<seq<string>>, k: nat, limit: nat, overlap: nat)
    requires TextPacking(paras, g, limit, overlap) && TextPacking(paras, h, limit, overlap)
    requires k <= |g| && k <= |h| && g[..k] == h[..k]
    ensures Flatten(g[k..]) == Flatten(h[k..])
    ensures k == |g| <==> k == |h|
  {
    FlattenSplit(g, k);
    FlattenSplit(h, k);
    var n := |Flatten(g[..k])|;
    assert Flatten(g[k..]) == paras[n..] && Flatten(h[k..]) == paras[n..];
    AllNonEmpty(g, limit, overlap);
    AllNonEmpty(h, limit, overlap);
    FlattenSize(g[k..]);
    FlattenSize(h[k..]);
  }

  lemma {:induction false} RestStarts(g: seq<seq<string>>, k: nat)
    requires k < |g|
    ensures Flatten(g[k..]) == g[k] + Flatten(g[k + 1..])
  {
    assert g[k..][1..] == g[k + 1..];
  }

  /** If paragraphs are left after the k-th group, the next group starts with the first of them. */
  lemma {:induction false} NextStarts(g: seq<seq<string>>, k: nat)
    requires k < |g| && |g[k]| < |Flatten(g[k..])| && forall i :: 0 <= i < |g| ==> g[i] != []
    ensures k + 1 < |g| && g[k] + [g[k + 1][0]] <= Flatten(g[k..])
  {
    RestStarts(g, k);
    RestStarts(g, k + 1);
  }

  lemma {:induction false} ClosedTooEarly(g: seq<seq<string>>, h: seq<seq<string>>, k: nat, limit: nat, overlap: nat)
    requires TextPacked(g, limit, overlap) && TextPacked(h, limit, overlap)
    requires k + 1 < |g| && k < |h| && g[..k] == h[..k]
    ensures g[k] != [] && g[k + 1] != [] && !(g[k] + [g[k + 1][0]] <= h[k])
  {
    PackedAt(g, k, limit, overlap);
    PackedAt(g, k + 1, limit, overlap);
    PackedAt(h, k, limit, overlap);
    var p := g[k] + [g[k + 1][0]];
    assert g[..k + 1][..k] == g[..k] == h[..k + 1][..k];
    assert Carried(g[..k + 1], overlap) == Carried(h[..k + 1], overlap);
    assert g[..k + 1][k] == g[k];
    CountAppend(g[k], g[k + 1][0]);
    if p <= h[k] {
      CountOfPrefix(p, h[k]);
    }
  }

  /** Where two packings have agreed so far, neither closes its group before the other. */
  lemma {:induction false} NextNotShorter(paras: seq<string>, g: seq<seq<string>>, h: seq<seq<string>>, k: nat, limit: nat, overlap: nat)
    requires TextPacking(paras, g, limit, overlap) && TextPacking(paras, h, limit, overlap)
    requires k < |g| && k < |h| && g[..k] == h[..k]
    ensures g[k] <= Flatten(g[k..]) && h[k] <= Flatten(g[k..])
    ensures |g[k]| >= |h[k]|
  {
    SameRest(paras, g, h, k, limit, overlap);
    RestStarts(g, k);
    RestStarts(h, k);
    if |g[k]| < |h[k]| {
      AllNonEmpty(g, limit, overlap);
      NextStarts(g, k);
      ClosedTooEarly(g, h, k, limit, overlap);
    }
  }

  ghost predicate Agree(g: seq<seq<string>>, h: seq<seq<string>>, k: nat) {
    k <= |g| && k <= |h| && forall i :: 0 <= i < k ==> g[i] == h[i]
  }

  lemma {:induction false} SameNext(paras: seq<string>, g: seq<seq<string>>, h: seq<seq<string>>, k: nat, limit: nat, overlap: nat)
    requires TextPacking(paras, g, limit, overlap) && TextPacking(paras, h, limit, overlap)
    requires k < |g| && Agree(g, h, k)
    ensures Agree(g, h, k + 1)
  {
    assert g[..k] == h[..k];
    SameRest(paras, g, h, k, limit, overlap);
    NextNotShorter(paras, g, h, k, limit, overlap);
    NextNotShorter(paras, h, g, k, limit, overlap);
    assert g[k] == h[k];
  }

  lemma {:induction false} PrefixesAgree(paras: seq<string>, g: seq<seq<string>>, h: seq<seq<string>>, k: nat, limit: nat, overlap: nat)
    requires TextPacking(paras, g, limit, overlap) && TextPacking(paras, h, limit, overlap)
    requires k <= |g|
    ensures Agree(g, h, k)
  {
    if k > 0 {
      PrefixesAgree(paras, g, h, k - 1, limit, overlap);
      SameNext(paras, g, h, k - 1, limit, overlap);
    }
  }

  /** There is exactly one packing of a paragraph list with a given limit and overlap. */
  lemma TextPackingIsUnique(paras: seq<string>, g: seq<seq<string>>, h: seq<seq<string>>, limit: nat, overlap: nat)
    requires TextPacking(paras, g, limit, overlap) && TextPacking(paras, h, limit, overlap)
    ensures g == h
  {
    PrefixesAgree(paras, g, h, |g|, limit, overlap);
    PrefixesAgree(paras, h, g, |h|, limit, overlap);
  }
}
