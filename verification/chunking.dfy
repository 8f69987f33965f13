/** `DocumentProcessor.chunk_text`: split on the sentence terminators 。！？ and greedily pack
    the fragments, each followed by "。", into buffers of roughly `chunk_size` characters. */
module Chunking {
  import opened Strings

  const Period: char := '\U{3002}'
  const Terminators: set<char> := {'\U{3002}', '\U{FF01}', '\U{FF1F}'}
  const DefaultChunkSize: int := 400

  /** `re.split(r'[。！？]', text)`. */
  function Sentences(text: string): (fs: seq<string>)
    ensures |fs| >= 1
    ensures forall k :: 0 <= k < |fs| ==> NoneIn(fs[k], Terminators)
    ensures JoinWith(fs, [Period]) == Normalize(text, Terminators, Period)
  {
    JoinSplit(text, Terminators, Period);
    SplitOn(text, Terminators)
  }

  /** The fragments `fs`, each followed by "。": what the buffer holds after they have been
      appended to an empty `current_chunk`. */
  function Terminated(fs: seq<string>): (r: string)
    ensures |r| >= |fs|
    ensures |fs| > 0 ==> r[|r| - 1] == Period
    decreases |fs|
  {
    if |fs| == 0 then "" else Terminated(fs[..|fs| - 1]) + fs[|fs| - 1] + [Period]
  }

  /** The loop of `chunk_text`, one fragment per step: `chunks` and `current` are the
      variables `chunks` and `current_chunk`; the final flush happens when no fragment is left. */
  function Pack(frags: seq<string>, size: int, chunks: seq<string>, current: string)
    : (r: seq<string>)
    ensures |chunks| <= |r| <= |chunks| + |frags| + (if current != "" then 1 else 0)
    ensures r[..|chunks|] == chunks
    ensures current != "" || |frags| > 0 ==> |r| > |chunks|
    decreases |frags|
  {
    if |frags| == 0 then
      if current != "" then chunks + [Strip(current)] else chunks
    else
      var sentence := frags[0];
      if |current + sentence| < size then
        Pack(frags[1..], size, chunks, current + sentence + [Period])
      else
        Pack(frags[1..], size, if current != "" then chunks + [Strip(current)] else chunks,
             sentence + [Period])
  }

  /** `chunk_text(text, chunk_size)`. Never empty, and every chunk is non-empty and ends in
      "。", whatever the input, the empty text included. */
  function ChunkText(text: string, size: int): (r: seq<string>)
    ensures |r| >= 1
    ensures forall i :: 0 <= i < |r| ==> |r[i]| >= 1 && r[i][|r[i]| - 1] == Period
  {
    var frags := Sentences(text);
    var gs := Packing(frags, size);
    assert Pack(frags, size, [], "") == RenderAll(gs) by {
      PackIsGroup(frags, size, [], []);
      assert RenderAll([]) == [] && Terminated([]) == "";
    }
    assert |gs| >= 1 && forall i :: 0 <= i < |gs| ==> |gs[i]| > 0 by {
      PackingIsGreedy(frags, size);
    }
    RenderedTerminated(gs);
    Pack(frags, size, [], "")
  }

  /** Rendering a non-empty group gives a non-empty chunk ending in "。". */
  lemma RenderedTerminated(gs: seq<seq<string>>)
    requires forall i :: 0 <= i < |gs| ==> |gs[i]| > 0
    ensures forall i :: 0 <= i < |gs| ==>
      |RenderAll(gs)[i]| >= 1 && RenderAll(gs)[i][|RenderAll(gs)[i]| - 1] == Period
  {
    forall i | 0 <= i < |gs|
      ensures |Render(gs[i])| >= 1 && Render(gs[i])[|Render(gs[i])| - 1] == Period
    {
      StripKeepsTerminator(Terminated(gs[i]));
    }
  }

  // ---------------------------------------------------------------------------------------
  // The same loop over groups of fragments

  /** Concatenation of a sequence of fragment groups. */
  function Flatten(gs: seq<seq<string>>): seq<string>
    decreases |gs|
  {
    if |gs| == 0 then [] else gs[0] + Flatten(gs[1..])
  }

  /** A chunk as emitted: the group's buffer, stripped. */
  function Render(g: seq<string>): string
  {
    Strip(Terminated(g))
  }

  function RenderAll(gs: seq<seq<string>>): (r: seq<string>)
    ensures |r| == |gs|
  {
    seq(|gs|, i requires 0 <= i < |gs| => Render(gs[i]))
  }

  /** The buffers before stripping. */
  function Buffers(gs: seq<seq<string>>): (r: seq<string>)
    ensures |r| == |gs|
  {
    seq(|gs|, i requires 0 <= i < |gs| => Terminated(gs[i]))
  }

  /** `Pack` with the buffer kept as the list of fragments it was built from. */
  function Group(frags: seq<string>, size: int, done: seq<seq<string>>, cur: seq<string>)
    : seq<seq<string>>
    decreases |frags|
  {
    if |frags| == 0 then
      if cur != [] then done + [cur] else done
    else if |Terminated(cur)| + |frags[0]| < size then
      Group(frags[1..], size, done, cur + [frags[0]])
    else
      Group(frags[1..], size, if cur != [] then done + [cur] else done, [frags[0]])
  }

  /** How `chunk_text` groups the fragments of one text. */
  function Packing(frags: seq<string>, size: int): seq<seq<string>>
  {
    Group(frags, size, [], [])
  }

  lemma TerminatedSnoc(cur: seq<string>, s: string)
    ensures Terminated(cur + [s]) == Terminated(cur) + s + [Period]
  {
    assert (cur + [s])[..|cur|] == cur;
  }

  lemma {:induction false} PackIsGroup(frags: seq<string>, size: int, done: seq<seq<string>>,
                                       cur: seq<string>)
    ensures Pack(frags, size, RenderAll(done), Terminated(cur))
         == RenderAll(Group(frags, size, done, cur))
    decreases |frags|
  {
    var current := Terminated(cur);
    assert current != "" <==> cur != [];
    assert RenderAll(done + [cur]) == RenderAll(done) + [Strip(current)];
    if |frags| > 0 {
      var s := frags[0];
      if |current + s| < size {
        TerminatedSnoc(cur, s);
        PackIsGroup(frags[1..], size, done, cur + [s]);
      } else {
        assert Terminated([s]) == s + [Period] by {
          TerminatedSnoc([], s);
        }
        var done' := if cur != [] then done + [cur] else done;
        PackIsGroup(frags[1..], size, done', [s]);
      }
    }
  }

  // ---------------------------------------------------------------------------------------
  // The greedy packing, stated independently of the loop

  /** Within a group, each fragment after the first was appended because the buffer plus the
      fragment stayed below `size`. */
  predicate ExtendsOk(g: seq<string>, size: int)
  {
    forall j :: 1 <= j < |g| ==> |Terminated(g[..j])| + |g[j]| < size
  }

  /** Group `i` was closed because its buffer plus the first fragment of group `i + 1`
      reached `size`. */
  predicate FlushOk(gs: seq<seq<string>>, i: int, size: int)
  {
    0 <= i < |gs| - 1 ==> |gs[i + 1]| > 0 && |Terminated(gs[i])| + |gs[i + 1][0]| >= size
  }

  /** `gs` cuts `frags`, in order and without splitting any fragment, into non-empty groups
      exactly where the greedy rule of `chunk_text` cuts. */
  predicate IsGreedyPacking(frags: seq<string>, size: int, gs: seq<seq<string>>)
  {
    && Flatten(gs) == frags
    && (forall i :: 0 <= i < |gs| ==> |gs[i]| > 0 && ExtendsOk(gs[i], size))
    && (forall i :: 0 <= i < |gs| ==> FlushOk(gs, i, size))
  }

  lemma {:induction false} FlattenSnoc(gs: seq<seq<string>>, g: seq<string>)
    ensures Flatten(gs + [g]) == Flatten(gs) + g
    decreases |gs|
  {
    if |gs| == 0 {
      assert gs + [g] == [g];
    } else {
      assert (gs + [g])[1..] == gs[1..] + [g];
      FlattenSnoc(gs[1..], g);
    }
  }

  /** The state of the grouping loop is always a correct partial packing. */
  predicate LoopState(done: seq<seq<string>>, cur: seq<string>, size: int)
  {
    && (forall i :: 0 <= i < |done| ==> |done[i]| > 0 && ExtendsOk(done[i], size))
    && (forall i :: 0 <= i < |done| ==> FlushOk(done, i, size))
    && ExtendsOk(cur, size)
    && (|done| > 0 ==> |cur| > 0 && |Terminated(done[|done| - 1])| + |cur[0]| >= size)
  }

  lemma LoopStateExtend(done: seq<seq<string>>, cur: seq<string>, s: string, size: int)
    requires LoopState(done, cur, size) && |Terminated(cur)| + |s| < size
    ensures LoopState(done, cur + [s], size)
  {
    var cur' := cur + [s];
    forall j | 1 <= j < |cur'|
      ensures |Terminated(cur'[..j])| + |cur'[j]| < size
    {
      if j < |cur| {
        assert cur'[..j] == cur[..j];
      } else {
        assert cur'[..j] == cur;
      }
    }
  }

  lemma LoopStateFlush(done: seq<seq<string>>, cur: seq<string>, s: string, size: int)
    requires LoopState(done, cur, size) && |cur| > 0 && |Terminated(cur)| + |s| >= size
    ensures LoopState(done + [cur], [s], size)
  {
    var done' := done + [cur];
    forall i | 0 <= i < |done'|
      ensures |done'[i]| > 0 && ExtendsOk(done'[i], size)
    {
      if i < |done| {
        assert done'[i] == done[i];
      } else {
        assert done'[i] == cur;
      }
    }
    forall i | 0 <= i < |done'|
      ensures FlushOk(done', i, size)
    {
      if i < |done| - 1 {
        assert FlushOk(done, i, size);
        assert done'[i] == done[i] && done'[i + 1] == done[i + 1];
      } else if i == |done| - 1 {
        assert done'[i] == done[|done| - 1] && done'[i + 1] == cur;
      }
    }
    assert ExtendsOk([s], size);
  }

  lemma LoopStateFinish(done: seq<seq<string>>, cur: seq<string>, size: int)
    requires LoopState(done, cur, size)
    ensures var gs := if cur != [] then done + [cur] else done;
      IsGreedyPacking(Flatten(done) + cur, size, gs)
  {
    if cur != [] {
      var gs := done + [cur];
      FlattenSnoc(done, cur);
      forall i | 0 <= i < |gs|
        ensures FlushOk(gs, i, size)
      {
        if 0 <= i < |gs| - 1 {
          assert FlushOk(done, i, size);
        }
      }
    } else {
      assert Flatten(done) + cur == Flatten(done);
    }
  }

  lemma {:induction false} GroupIsGreedy(frags: seq<string>, size: int, done: seq<seq<string>>,
                                         cur: seq<string>)
    requires LoopState(done, cur, size)
    ensures IsGreedyPacking(Flatten(done) + cur + frags, size, Group(frags, size, done, cur))
    decreases |frags|, 1
  {
    if |frags| == 0 {
      LoopStateFinish(done, cur, size);
      assert Flatten(done) + cur + frags == Flatten(done) + cur;
    } else if |Terminated(cur)| + |frags[0]| < size {
      GroupIsGreedyExtend(frags, size, done, cur);
    } else if cur != [] {
      GroupIsGreedyFlush(frags, size, done, cur);
    } else {
      GroupIsGreedyStart(frags, size, done, cur);
    }
  }

  lemma {:induction false} GroupIsGreedyExtend(frags: seq<string>, size: int,
                                               done: seq<seq<string>>, cur: seq<string>)
    requires LoopState(done, cur, size)
    requires |frags| > 0 && |Terminated(cur)| + |frags[0]| < size
    ensures IsGreedyPacking(Flatten(done) + cur + frags, size, Group(frags, size, done, cur))
    decreases |frags|, 0
  {
    LoopStateExtend(done, cur, frags[0], size);
    GroupIsGreedy(frags[1..], size, done, cur + [frags[0]]);
    ExtendStep(frags, size, done, cur);
  }

  /** One step of the loop that appends the fragment to the open group. */
  lemma ExtendStep(frags: seq<string>, size: int, done: seq<seq<string>>, cur: seq<string>)
    requires |frags| > 0 && |Terminated(cur)| + |frags[0]| < size
    requires IsGreedyPacking(Flatten(done) + (cur + [frags[0]]) + frags[1..], size,
                             Group(frags[1..], size, done, cur + [frags[0]]))
    ensures IsGreedyPacking(Flatten(done) + cur + frags, size, Group(frags, size, done, cur))
  {
    assert Group(frags, size, done, cur) == Group(frags[1..], size, done, cur + [frags[0]]);
    assert Flatten(done) + cur + frags == Flatten(done) + (cur + [frags[0]]) + frags[1..] by {
      assert frags == [frags[0]] + frags[1..];
    }
  }

  lemma {:induction false} GroupIsGreedyFlush(frags: seq<string>, size: int,
                                              done: seq<seq<string>>, cur: seq<string>)
    requires LoopState(done, cur, size)
    requires |frags| > 0 && |Terminated(cur)| + |frags[0]| >= size && cur != []
    ensures IsGreedyPacking(Flatten(done) + cur + frags, size, Group(frags, size, done, cur))
    decreases |frags|, 0
  {
    LoopStateFlush(done, cur, frags[0], size);
    GroupIsGreedy(frags[1..], size, done + [cur], [frags[0]]);
    FlushStep(frags, size, done, cur);
  }

  /** One step of the loop that closes the open group and starts a new one. */
  lemma FlushStep(frags: seq<string>, size: int, done: seq<seq<string>>, cur: seq<string>)
    requires |frags| > 0 && |Terminated(cur)| + |frags[0]| >= size && cur != []
    requires IsGreedyPacking(Flatten(done + [cur]) + [frags[0]] + frags[1..], size,
                             Group(frags[1..], size, done + [cur], [frags[0]]))
    ensures IsGreedyPacking(Flatten(done) + cur + frags, size, Group(frags, size, done, cur))
  {
    assert Group(frags, size, done, cur) == Group(frags[1..], size, done + [cur], [frags[0]]);
    assert Flatten(done) + cur + frags == Flatten(done + [cur]) + [frags[0]] + frags[1..] by {
      FlattenSnoc(done, cur);
      assert frags == [frags[0]] + frags[1..];
    }
  }

  lemma {:induction false} GroupIsGreedyStart(frags: seq<string>, size: int,
                                              done: seq<seq<string>>, cur: seq<string>)
    requires LoopState(done, cur, size)
    requires |frags| > 0 && |Terminated(cur)| + |frags[0]| >= size && cur == []
    ensures IsGreedyPacking(Flatten(done) + cur + frags, size, Group(frags, size, done, cur))
    decreases |frags|, 0
  {
    assert LoopState(done, [frags[0]], size);
    GroupIsGreedy(frags[1..], size, done, [frags[0]]);
    StartStep(frags, size, done);
  }

  /** One step of the loop that starts the first group of a run. */
  lemma StartStep(frags: seq<string>, size: int, done: seq<seq<string>>)
    requires |frags| > 0 && |Terminated([])| + |frags[0]| >= size
    requires IsGreedyPacking(Flatten(done) + [frags[0]] + frags[1..], size,
                             Group(frags[1..], size, done, [frags[0]]))
    ensures IsGreedyPacking(Flatten(done) + [] + frags, size, Group(frags, size, done, []))
  {
    assert Group(frags, size, done, []) == Group(frags[1..], size, done, [frags[0]]);
    assert Flatten(done) + [] + frags == Flatten(done) + [frags[0]] + frags[1..] by {
      assert frags == [frags[0]] + frags[1..];
    }
  }

  /** `chunk_text`'s grouping is a greedy packing of the fragments. */
  lemma PackingIsGreedy(frags: seq<string>, size: int)
    ensures IsGreedyPacking(frags, size, Packing(frags, size))
  {
    GroupIsGreedy(frags, size, [], []);
    assert Flatten([]) + [] + frags == frags;
  }

  // ---------------------------------------------------------------------------------------
  // Properties of the chunks

  /** A buffer ending in "。" loses at most leading whitespace to `strip()`. */
  lemma StripKeepsTerminator(b: string)
    requires |b| > 0 && b[|b| - 1] == Period
    ensures var r := Strip(b); |r| >= 1 && LeadingSpaces(b) + |r| == |b| && r == b[LeadingSpaces(b)..]
    ensures Strip(b)[|Strip(b)| - 1] == Period
  {
    assert !IsSpace(b[|b| - 1]);
  }

  lemma {:induction false} TerminatedAppend(a: seq<string>, b: seq<string>)
    ensures Terminated(a + b) == Terminated(a) + Terminated(b)
    decreases |b|
  {
    if |b| == 0 {
      assert a + b == a;
    } else {
      var b', x := b[..|b| - 1], b[|b| - 1];
      var ta, tb', tab' := Terminated(a), Terminated(b'), Terminated(a + b');
      assert Terminated(a + b) == tab' + x + [Period] by {
        assert a + b == (a + b') + [x];
        TerminatedSnoc(a + b', x);
      }
      assert Terminated(b) == tb' + x + [Period] by {
        assert b == b' + [x];
        TerminatedSnoc(b', x);
      }
      assert tab' == ta + tb' by {
        TerminatedAppend(a, b');
      }
      assert (ta + tb') + x + [Period] == ta + (tb' + x + [Period]);
    }
  }

  lemma {:induction false} TerminatedFlatten(gs: seq<seq<string>>)
    ensures Concat(Buffers(gs)) == Terminated(Flatten(gs))
    decreases |gs|
  {
    if |gs| > 0 {
      TerminatedFlatten(gs[1..]);
      TerminatedAppend(gs[0], Flatten(gs[1..]));
      assert Buffers(gs)[1..] == Buffers(gs[1..]);
    }
  }

  lemma {:induction false} TerminatedIsJoin(fs: seq<string>)
    requires |fs| > 0
    ensures Terminated(fs) == JoinWith(fs, [Period]) + [Period]
    decreases |fs|
  {
    var head, tail := fs[0], fs[1..];
    assert Terminated([head]) == head + [Period] by {
      TerminatedSnoc([], head);
      assert [] + [head] == [head];
    }
    if |fs| == 1 {
      assert fs == [head];
    } else {
      TerminatedIsJoin(tail);
      TerminatedAppend([head], tail);
      assert fs == [head] + tail;
      assert JoinWith(fs, [Period]) == head + [Period] + JoinWith(tail, [Period]);
      assert Terminated(fs) == (head + [Period]) + (JoinWith(tail, [Period]) + [Period]);
    }
  }

  /** The chunks are the stripped buffers of the greedy packing. */
  lemma ChunksAreRendered(text: string, size: int)
    ensures ChunkText(text, size) == RenderAll(Packing(Sentences(text), size))
  {
    PackIsGroup(Sentences(text), size, [], []);
    assert RenderAll([]) == [];
  }

  /** Chunk order: the chunks are the stripped buffers of the greedy packing, and the buffers
      concatenated give back the text with every terminator written as "。" plus one final
      "。" (the one appended after the last fragment). */
  lemma ChunkOrder(text: string, size: int)
    ensures var gs := Packing(Sentences(text), size);
      && ChunkText(text, size) == RenderAll(gs)
      && Concat(Buffers(gs)) == Normalize(text, Terminators, Period) + [Period]
  {
    var frags := Sentences(text);
    var gs := Packing(frags, size);
    ChunksAreRendered(text, size);
    PackingIsGreedy(frags, size);
    TerminatedFlatten(gs);
    TerminatedIsJoin(frags);
    JoinSplit(text, Terminators, Period);
  }

  /** A group is at most `size` long unless it is one fragment of `size` characters or more. */
  lemma GroupBound(g: seq<string>, size: int)
    requires |g| > 0 && ExtendsOk(g, size)
    ensures |Terminated(g)| <= size || (|g| == 1 && |g[0]| >= size)
  {
    if |g| >= 2 {
      assert |Terminated(g[..|g| - 1])| + |g[|g| - 1]| < size;
    } else {
      assert g[..0] == [];
    }
  }

  lemma {:induction false} FlattenSplit(gs: seq<seq<string>>, i: nat)
    requires i < |gs|
    ensures Flatten(gs) == Flatten(gs[..i]) + gs[i] + Flatten(gs[i + 1..])
    decreases i
  {
    if i == 0 {
      assert gs[..0] == [];
    } else {
      FlattenSplit(gs[1..], i - 1);
      assert gs[1..][..i - 1] == gs[1..i];
      assert gs[1..][i - 1] == gs[i];
      assert gs[1..][i..] == gs[i + 1..];
      assert Flatten(gs[..i]) == gs[0] + Flatten(gs[1..i]) by {
        assert gs[..i][1..] == gs[1..i];
      }
    }
  }

  /** Soft bound for one group of a greedy packing. */
  lemma GroupSoftBound(frags: seq<string>, size: int, gs: seq<seq<string>>, i: nat)
    requires IsGreedyPacking(frags, size, gs) && i < |gs|
    ensures || |Render(gs[i])| <= size
            || exists k :: 0 <= k < |frags| && |frags[k]| >= size && Render(gs[i]) == Strip(frags[k] + [Period])
  {
    GroupBound(gs[i], size);
    StripKeepsTerminator(Terminated(gs[i]));
    if |Terminated(gs[i])| > size {
      FlattenSplit(gs, i);
      var k := |Flatten(gs[..i])|;
      var g := gs[i];
      assert frags == Flatten(gs[..i]) + g + Flatten(gs[i + 1..]);
      assert frags[k] == g[0];
      assert g == [] + [g[0]];
      TerminatedSnoc([], g[0]);
      assert Terminated(g) == g[0] + [Period];
      assert 0 <= k < |frags| && |frags[k]| >= size && Render(g) == Strip(frags[k] + [Period]);
    }
  }

  /** Soft bound: every chunk is at most `chunk_size` long, except a chunk made of a single
      fragment of `chunk_size` characters or more, which is kept whole. */
  lemma ChunkSoftBound(text: string, size: int)
    ensures var chunks := ChunkText(text, size); var frags := Sentences(text);
      forall i :: 0 <= i < |chunks| ==>
        || |chunks[i]| <= size
        || exists k :: 0 <= k < |frags| && |frags[k]| >= size && chunks[i] == Strip(frags[k] + [Period])
  {
    var frags := Sentences(text);
    var gs := Packing(frags, size);
    var chunks := ChunkText(text, size);
    ChunkOrder(text, size);
    PackingIsGreedy(frags, size);
    forall i | 0 <= i < |chunks|
      ensures || |chunks[i]| <= size
              || exists k :: 0 <= k < |frags| && |frags[k]| >= size && chunks[i] == Strip(frags[k] + [Period])
    {
      assert chunks[i] == Render(gs[i]);
      GroupSoftBound(frags, size, gs, i);
    }
  }

  /** When the text is shorter than `chunk_size`, it yields a single chunk. */
  lemma ShortTextSingleChunk(text: string, size: int)
    requires |text| < size
    ensures ChunkText(text, size) == [Strip(Normalize(text, Terminators, Period) + [Period])]
  {
    var frags := Sentences(text);
    ChunkOrder(text, size);
    PackingIsSingle(text, size);
    var single := [frags];
    assert RenderAll(single)[0] == Render(frags);
    TerminatedIsJoin(frags);
    JoinSplit(text, Terminators, Period);
  }

  /** A text shorter than `size` is packed into a single group. */
  lemma PackingIsSingle(text: string, size: int)
    requires |text| < size
    ensures Packing(Sentences(text), size) == [Sentences(text)]
  {
    var frags := Sentences(text);
    TerminatedIsJoin(frags);
    JoinSplit(text, Terminators, Period);
    assert |Terminated(frags)| == |text| + 1;
    var f0 := frags[0];
    assert |Terminated([])| + |f0| < size by {
      assert [f0] + frags[1..] == frags;
      TerminatedAppend([f0], frags[1..]);
      TerminatedSnoc([], f0);
    }
    assert Group(frags, size, [], []) == Group(frags[1..], size, [], [f0]);
    assert [f0] + frags[1..] == frags;
    GroupAllFit(frags[1..], size, [f0]);
  }

  lemma {:induction false} GroupAllFit(frags: seq<string>, size: int, cur: seq<string>)
    requires |cur| > 0 && |Terminated(cur + frags)| <= size
    ensures Group(frags, size, [], cur) == [cur + frags]
    decreases |frags|
  {
    if |frags| > 0 {
      var cur' := cur + [frags[0]];
      TerminatedSnoc(cur, frags[0]);
      assert cur + frags == cur' + frags[1..];
      TerminatedAppend(cur', frags[1..]);
      GroupAllFit(frags[1..], size, cur');
    } else {
      assert cur + frags == cur;
    }
  }

  const SingleTerminator: string := [Period]

  /** The empty text gives the one chunk "。", not an empty list. */
  lemma EmptyTextChunks(size: int)
    ensures ChunkText("", size) == [SingleTerminator]
  {
    assert Sentences("") == [""];
    assert [""][1..] == [];
    assert "" + "" + [Period] == SingleTerminator;
    assert Pack([""], size, [], "") == Pack([], size, [], SingleTerminator);
    assert Strip(SingleTerminator) == SingleTerminator by {
      StripNoop(SingleTerminator);
    }
  }

  /** The last group of a greedy packing ends with the last fragment. */
  lemma LastGroupEndsLast(frags: seq<string>, gs: seq<seq<string>>)
    requires Flatten(gs) == frags && |frags| > 0
    requires forall i :: 0 <= i < |gs| ==> |gs[i]| > 0
    ensures |gs| > 0 && |gs[|gs| - 1]| > 0
    ensures gs[|gs| - 1][|gs[|gs| - 1]| - 1] == frags[|frags| - 1]
  {
    assert Flatten([]) == [];
    var n := |gs| - 1;
    FlattenSplit(gs, n);
    assert gs[n + 1..] == [];
    assert frags == Flatten(gs[..n]) + gs[n];
  }

  /** "。" alone, or anything ending in "。。". */
  predicate DoublyTerminated(c: string)
  {
    c == SingleTerminator || (|c| >= 2 && c[|c| - 2] == Period && c[|c| - 1] == Period)
  }

  /** The chunk of a group whose last fragment is empty is "。" or ends in "。。". */
  lemma RenderEmptyLast(g: seq<string>)
    requires |g| > 0 && g[|g| - 1] == ""
    ensures DoublyTerminated(Render(g))
  {
    var init := g[..|g| - 1];
    var ti, b := Terminated(init), Terminated(g);
    assert b == ti + [Period] by {
      assert g == init + [""];
      TerminatedSnoc(init, "");
      assert ti + "" + [Period] == ti + [Period];
    }
    if |g| == 1 {
      assert init == [];
      assert b == SingleTerminator;
      StripNoop(SingleTerminator);
    } else {
      assert |ti| > 0 && ti[|ti| - 1] == Period;
      assert b[|b| - 2] == Period && b[|b| - 1] == Period;
      RenderTwoPeriods(b);
    }
  }

  /** A buffer ending in "。。" keeps that ending through `strip()`. */
  lemma RenderTwoPeriods(b: string)
    requires |b| >= 2 && b[|b| - 2] == Period && b[|b| - 1] == Period
    ensures DoublyTerminated(Strip(b))
  {
    StripKeepsTerminator(b);
    var n, r := LeadingSpaces(b), Strip(b);
    assert n < |b| - 1 by {
      assert !IsSpace(b[|b| - 2]);
    }
    assert r[|r| - 2] == b[|b| - 2];
  }

  /** A text ending in a terminator has an empty last fragment, so its last chunk ends in
      "。。" unless that fragment was packed alone, giving the chunk "。". */
  lemma TrailingTerminator(text: string, size: int)
    requires |text| > 0 && text[|text| - 1] in Terminators
    ensures var cs := ChunkText(text, size); DoublyTerminated(cs[|cs| - 1])
  {
    var gs := Packing(Sentences(text), size);
    LastGroupEndsEmpty(text, size);
    var g := gs[|gs| - 1];
    RenderEmptyLast(g);
    ChunksAreRendered(text, size);
    assert RenderAll(gs)[|gs| - 1] == Render(g);
  }

  /** After a final terminator, the last group ends with the empty fragment. */
  lemma LastGroupEndsEmpty(text: string, size: int)
    requires |text| > 0 && text[|text| - 1] in Terminators
    ensures var gs := Packing(Sentences(text), size);
      |gs| > 0 && |gs[|gs| - 1]| > 0 && gs[|gs| - 1][|gs[|gs| - 1]| - 1] == ""
  {
    var frags := Sentences(text);
    LastSentenceEmpty(text);
    PackingPartitions(frags, size);
    LastGroupEndsLast(frags, Packing(frags, size));
  }

  /** The groups are non-empty and concatenate to the fragments. */
  lemma PackingPartitions(frags: seq<string>, size: int)
    ensures var gs := Packing(frags, size);
      Flatten(gs) == frags && forall i :: 0 <= i < |gs| ==> |gs[i]| > 0
  {
    PackingIsGreedy(frags, size);
  }

  /** After a final terminator comes one empty fragment. */
  lemma LastSentenceEmpty(text: string)
    requires |text| > 0 && text[|text| - 1] in Terminators
    ensures var frags := Sentences(text); frags[|frags| - 1] == ""
  {
    LastFieldSpec(text, Terminators);
  }

  /** A text of two short sentences, each closed by "。". */
  const TwoSentences: string := "人工智能正在改变世界。它影响教育、医疗和交通。"

  /** A short text whose only terminator is "。" and which does not start with whitespace
      comes back as one chunk: itself plus one more "。". */
  lemma ShortPlainText(t: string, size: int)
    requires 0 < |t| < size && !IsSpace(t[0])
    requires Normalize(t, Terminators, Period) == t
    ensures ChunkText(t, size) == [t + [Period]]
  {
    ShortTextSingleChunk(t, size);
    StripKeepsPeriod(t);
  }

  /** With the default size the two-sentence text `TwoSentences` stays in one chunk, which
      gains a second final "。" from the empty fragment after the last terminator. */
  lemma TwoSentencesOneChunk()
    ensures ChunkText(TwoSentences, DefaultChunkSize) == [TwoSentences + [Period]]
  {
    TwoSentencesNormal();
    assert !IsSpace(TwoSentences[0]);
    ShortPlainText(TwoSentences, DefaultChunkSize);
  }

  /** A text that does not start with whitespace survives `strip()` once "。" is appended. */
  lemma StripKeepsPeriod(t: string)
    requires |t| > 0 && !IsSpace(t[0])
    ensures Strip(t + [Period]) == t + [Period]
  {
    var b := t + [Period];
    assert b[0] == t[0];
    StripNoop(b);
  }

  /** The only terminator in `TwoSentences` is "。", so normalisation leaves it unchanged. */
  lemma TwoSentencesNormal()
    ensures Normalize(TwoSentences, Terminators, Period) == TwoSentences
  {
    var t := TwoSentences;
    forall i | 0 <= i < |t|
      ensures t[i] in Terminators ==> t[i] == Period
    {
    }
  }
}
