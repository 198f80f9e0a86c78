// Chains of DMA descriptors, built over several calls of dma_transfer_link and
// closed by the call that names a block (dma/dma.c).
module DmaChain {
  import opened Machine
  import Dataflow

  // CHx_BLOCK_TS, the LAST bit of CHx_CTL, and CHx_LLP as a descriptor's number.
  datatype Lli = Lli(blockTs: nat, last: bool, next: nat)

  datatype Msg = Msg(lli: nat, block: nat, tokens: seq<nat>)

  // The block sizes of one call's descriptors, in words of eight bytes: at most
  // 16384 bytes each, the last one whatever is left.
  function Chunks(len: nat): (ts: seq<nat>)
    ensures |ts| == len / 16384 + 1
  {
    if len < 16384 then [len / 8] else [2048] + Chunks(len - 16384)
  }

  function Sum(ns: seq<nat>): nat {
    if ns == [] then 0 else ns[0] + Sum(ns[1..])
  }

  lemma {:induction false} SumSplit(ms: seq<nat>, ns: seq<nat>)
    ensures Sum(ms + ns) == Sum(ms) + Sum(ns)
  {
    if ms == [] {
      assert ms + ns == ns;
    } else {
      assert (ms + ns)[1..] == ms[1..] + ns;
      SumSplit(ms[1..], ns);
    }
  }

  // No word of a transfer is lost or added by cutting it up.
  lemma {:induction false} ChunksSum(len: nat)
    ensures Sum(Chunks(len)) == len / 8
  {
    if len >= 16384 {
      ChunksSum(len - 16384);
      assert Chunks(len)[1..] == Chunks(len - 16384);
    } else {
      assert Chunks(len)[1..] == [];
    }
  }

  // Every descriptor but the last is filled up: 16384 bytes, which are 2048 words.
  lemma {:induction false} ChunkSizes(len: nat, i: nat)
    requires i < |Chunks(len)|
    ensures Chunks(len)[i] == if i < |Chunks(len)| - 1 then 2048 else len % 16384 / 8
  {
    if len >= 16384 {
      assert len % 16384 == (len - 16384) % 16384;
      if i > 0 { ChunkSizes(len - 16384, i - 1); }
    }
  }

  // The last descriptor of a call moves nothing exactly when less than a word is
  // left over, which includes every multiple of the largest transfer.
  lemma {:induction false} LastChunkEmpty(len: nat)
    ensures Chunks(len)[|Chunks(len)| - 1] == 0 <==> len % 16384 < 8
  {
    if len >= 16384 {
      LastChunkEmpty(len - 16384);
      assert len % 16384 == (len - 16384) % 16384;
    }
  }

  // ------------------------------------------------------------------ chains

  ghost predicate Known(llis: seq<Lli>, ids: seq<nat>) {
    && (forall i :: 0 <= i < |ids| ==> ids[i] < |llis|)
    && (forall i, j :: 0 <= i < j < |ids| ==> ids[i] != ids[j])
  }

  // All descriptors but the last are set up and linked.
  ghost predicate Linked(llis: seq<Lli>, ids: seq<nat>, ts: seq<nat>) {
    && ids != [] && |ts| == |ids| - 1 && Known(llis, ids)
    && (forall i :: 0 <= i < |ts| ==> llis[ids[i]] == Lli(ts[i], false, ids[i + 1]))
  }

  // The last one points at itself; it is marked LAST once the chain is closed.
  ghost predicate Chain(llis: seq<Lli>, ids: seq<nat>, ts: seq<nat>, closed: bool) {
    && ids != [] && |ts| == |ids| && Linked(llis, ids, ts[..|ts| - 1])
    && llis[ids[|ids| - 1]] == Lli(ts[|ts| - 1], closed, ids[|ids| - 1])
  }

  // What the controller visits from one descriptor on; it stops at a self-link.
  function Follow(llis: seq<Lli>, from: nat, fuel: nat): seq<nat>
    decreases fuel
  {
    if fuel == 0 || from >= |llis| then []
    else if llis[from].next == from then [from]
    else [from] + Follow(llis, llis[from].next, fuel - 1)
  }

  // From the head every descriptor is visited once, in order, and the walk ends.
  lemma {:induction false} FollowVisitsChain(llis: seq<Lli>, ids: seq<nat>, ts: seq<nat>, closed: bool, fuel: nat)
    requires Chain(llis, ids, ts, closed) && fuel >= |ids|
    ensures Follow(llis, ids[0], fuel) == ids
    decreases |ids|
  {
    if |ids| > 1 {
      var rest, tail := ids[1..], ts[1..];
      assert llis[ids[0]] == Lli(ts[..|ts| - 1][0], false, ids[0 + 1]);
      forall i | 0 <= i < |rest| - 1
        ensures llis[rest[i]] == Lli(tail[..|tail| - 1][i], false, rest[i + 1])
      {
        assert llis[ids[i + 1]] == Lli(ts[..|ts| - 1][i + 1], false, ids[i + 1 + 1]);
      }
      FollowVisitsChain(llis, rest, tail, closed, fuel - 1);
      assert ids == [ids[0]] + rest;
    }
  }

  // Of a closed chain only the last descriptor is marked LAST.
  lemma OnlyLastIsMarked(llis: seq<Lli>, ids: seq<nat>, ts: seq<nat>, i: nat)
    requires Chain(llis, ids, ts, true) && i < |ids|
    ensures llis[ids[i]].last <==> i == |ids| - 1
  {
    if i < |ids| - 1 { assert llis[ids[i]] == Lli(ts[..|ts| - 1][i], false, ids[i + 1]); }
  }

  // The descriptor at the end is set up and linked to a new one.
  lemma LinkNext(llis: seq<Lli>, ids: seq<nat>, ts: seq<nat>, t: nat, junk: Lli)
    requires Linked(llis, ids, ts)
    ensures Linked((llis + [junk])[ids[|ids| - 1] := Lli(t, false, |llis|)], ids + [|llis|], ts + [t])
  {
    var more, all, sizes := (llis + [junk])[ids[|ids| - 1] := Lli(t, false, |llis|)], ids + [|llis|], ts + [t];
    assert Known(more, all);
    forall i | 0 <= i < |sizes|
      ensures more[all[i]] == Lli(sizes[i], false, all[i + 1])
    {
      if i < |ts| { assert llis[ids[i]] == Lli(ts[i], false, ids[i + 1]); }
    }
  }

  // It is set up as the end of the chain.
  lemma LinkEnd(llis: seq<Lli>, ids: seq<nat>, ts: seq<nat>, t: nat, closed: bool)
    requires Linked(llis, ids, ts)
    ensures
      var d := ids[|ids| - 1];
      Chain(llis[d := Lli(t, closed, d)], ids, ts + [t], closed)
  {
    assert (ts + [t])[..|ts|] == ts;
  }

  // The first descriptor of a chain.
  lemma LinkFirst(llis: seq<Lli>, junk: Lli)
    ensures Linked(llis + [junk], [|llis|], [])
  {
  }

  // Two steps that touch the chain only, or descriptors made since.
  lemma UntouchedTwice(was: seq<Lli>, mid: seq<Lli>, now: seq<Lli>, ids: seq<nat>, more: seq<nat>)
    requires Untouched(was, mid, ids) && Untouched(mid, now, more)
    requires forall d :: d in more ==> d in ids || d >= |was|
    ensures Untouched(was, now, ids)
  {
    forall d | 0 <= d < |was| && d !in ids
      ensures now[d] == was[d]
    {
      assert d !in more;
    }
  }

  lemma SameUntouched(llis: seq<Lli>, ids: seq<nat>)
    ensures Untouched(llis, llis, ids)
  {
  }

  lemma OneTouched(was: seq<Lli>, now: seq<Lli>, d: nat)
    requires d < |was| == |now| && now == was[d := now[d]]
    ensures Untouched(was, now, [d])
  {
    assert d in [d];
  }

  lemma MoreChunks(ts: seq<nat>, left: nat)
    requires left >= 16384
    ensures ts + Chunks(left) == (ts + [2048]) + Chunks(left - 16384)
  {
  }

  lemma FinalChunk(ts: seq<nat>, left: nat)
    requires left < 16384
    ensures ts + Chunks(left) == ts + [left / 8]
  {
  }

  // An open end is relinked to a new descriptor.
  lemma LinkOn(llis: seq<Lli>, ids: seq<nat>, ts: seq<nat>, junk: Lli)
    requires Chain(llis, ids, ts, false)
    ensures
      var d := ids[|ids| - 1];
      d < |llis| && Linked((llis + [junk])[d := llis[d].(next := |llis|)], ids + [|llis|], ts)
  {
    var n := |ts| - 1;
    assert ts[..n] + [ts[n]] == ts;
    LinkNext(llis, ids, ts[..n], ts[n], junk);
  }

  // The tokens that a sequence of calls names, in call order.
  function Given(toks: seq<Option<nat>>): (ts: seq<nat>)
    ensures |ts| <= |toks|
  {
    if toks == [] then []
    else
      var n := |toks| - 1;
      Given(toks[..n]) + (if toks[n].Some? then [toks[n].value] else [])
  }

  // The first k calls name no token, all others do: k is 1 for a load, whose first
  // call is for the task's code, and 0 for results.
  ghost predicate GivenFrom(toks: seq<Option<nat>>, k: nat) {
    k <= |toks| && forall i :: 0 <= i < |toks| ==> (toks[i].Some? <==> k <= i)
  }

  lemma {:induction false} GivenAt(toks: seq<Option<nat>>, k: nat)
    requires GivenFrom(toks, k)
    ensures |Given(toks)| == |toks| - k && forall i :: k <= i < |toks| ==> Given(toks)[i - k] == toks[i].value
  {
    if toks != [] {
      var n := |toks| - 1;
      if k <= n {
        GivenAt(toks[..n], k);
      } else {
        GivenAt(toks[..n], n);
      }
    }
  }

  // The list from its last element.
  lemma GivenBackwards(toks: seq<Option<nat>>, list: seq<nat>)
    requires Dataflow.FromTail(list) == Given(toks)
    ensures forall k: nat :: GivenFrom(toks, k) ==>
      |list| == |toks| - k && forall i :: k <= i < |toks| ==> list[|toks| - 1 - i] == toks[i].value
  {
    forall k: nat | GivenFrom(toks, k)
      ensures |list| == |toks| - k && forall i :: k <= i < |toks| ==> list[|toks| - 1 - i] == toks[i].value
    {
      GivenAt(toks, k);
      assert forall i :: k <= i < |toks| ==> Dataflow.FromTail(list)[i - k] == toks[i].value;
    }
  }

  // A token joins the list at its head.
  lemma GivenNext(toks: seq<Option<nat>>, i: nat, list: seq<nat>)
    requires i < |toks| && Dataflow.FromTail(list) == Given(toks[..i])
    ensures Dataflow.FromTail((if toks[i].Some? then [toks[i].value] else []) + list) == Given(toks[..i + 1])
  {
    assert toks[..i + 1][..i] == toks[..i];
  }

  class Linker {
    var llis: seq<Lli>
    var head: Option<nat>
    var last: nat
    var tokens: seq<nat>
    ghost var ids: seq<nat>
    ghost var ts: seq<nat>

    // Between calls the open chain runs from head to last, newest link last.
    ghost predicate Valid()
      reads this
    {
      && (head.None? <==> ids == []) && (ids == [] ==> ts == [])
      && (head.Some? ==> head.value == ids[0] && last == ids[|ids| - 1] && Chain(llis, ids, ts, false))
    }

    constructor ()
      ensures Valid() && ids == [] && ts == []
    {
      llis, head, last, tokens, ids, ts := [], None, 0, [], [], [];
    }

    // malloc_LLI: a descriptor that nothing points at, with any contents.
    method MallocLLI(junk: Lli) returns (d: nat)
      modifies this`llis
      ensures d == |old(llis)| && llis == old(llis) + [junk]
    {
      d := |llis|;
      llis := llis + [junk];
    }

    method LliSetup(d: nat, len: nat, next: nat, isLast: bool)
      requires d < |llis|
      modifies this`llis
      ensures llis == old(llis)[d := Lli(len / 8, isLast, next)]
    {
      llis := llis[d := Lli(len / 8, isLast, next)];
    }

    // A chunk of the largest size, and the descriptor after it.
    method FullChunk(current: nat, junk: Lli) returns (next: nat)
      requires ids != [] && current == ids[|ids| - 1] < |llis| && Linked(llis, ids, ts)
      modifies this`llis, this`ids, this`ts
      ensures next == |old(llis)| < |llis| && llis[..next] == old(llis)[current := Lli(2048, false, next)]
      ensures ids == old(ids) + [next] && ts == old(ts) + [2048] && Linked(llis, ids, ts)
      ensures Untouched(old(llis), llis, [current])
    {
      LinkNext(llis, ids, ts, 2048, junk);
      hide Linked;
      next := MallocLLI(junk);
      LliSetup(current, 16384, next, false);
      ids, ts := ids + [next], ts + [2048];
    }

    // What is left of a transfer, in the descriptor that ends the chain.
    method LastChunk(d: nat, left: nat, closing: bool)
      requires ids != [] && d == ids[|ids| - 1] < |llis| && Linked(llis, ids, ts)
      modifies this`llis, this`last, this`ts
      ensures Chain(llis, ids, ts, closing) && ts == old(ts) + [left / 8]
      ensures last == (if closing then old(last) else d) && Untouched(old(llis), llis, [d])
    {
      LinkEnd(llis, ids, ts, left / 8, closing);
      hide Chain, Linked;
      LliSetup(d, left, d, closing);
      OneTouched(old(llis), llis, d);
      ts := ts + [left / 8];
      if !closing { last := d; }
    }

    // The chunks of one transfer from descriptor d on, which ends the open chain.
    method SetupChunks(d: nat, len: nat, closing: bool, junk: Lli)
      requires ids != [] && d == ids[|ids| - 1] < |llis| && Linked(llis, ids, ts)
      modifies this`llis, this`last, this`ids, this`ts
      ensures Chain(llis, ids, ts, closing) && ts == old(ts) + Chunks(len) && ids != []
      ensures old(ids) <= ids && last == if closing then old(last) else ids[|ids| - 1]
      ensures Untouched(old(llis), llis, old(ids))
    {
      var left, current := len, d;
      ghost var was, first, sizes := llis, ids, ts;
      hide Linked, Chain, Untouched, Chunks, Known;
      SameUntouched(llis, ids);
      while left >= 16384
        invariant ids != [] && current == ids[|ids| - 1] < |llis| && Linked(llis, ids, ts)
        invariant ts + Chunks(left) == sizes + Chunks(len) && last == old(last)
        invariant first <= ids && Untouched(was, llis, first)
        invariant |was| <= |llis| && (current in first || current >= |was|)
      {
        ghost var mid, before := llis, current;
        MoreChunks(ts, left);
        current := FullChunk(current, junk);
        left := left - 16384;
        UntouchedTwice(was, mid, llis, first, [before]);
      }
      ghost var mid := llis;
      FinalChunk(ts, left);
      LastChunk(current, left, closing);
      UntouchedTwice(was, mid, llis, first, [current]);
    }

    // The first part of dma_transfer_link: a new descriptor behind the open
    // chain, or a new chain, and the token joins the list.
    method OpenLink(token: Option<nat>, junk: Lli) returns (current: nat)
      requires Valid()
      modifies this
      ensures current < |llis| && ids == old(ids) + [current] && current >= |old(llis)| && ts == old(ts)
      ensures Linked(llis, ids, ts) && Untouched(old(llis), llis, old(ids))
      ensures head == Some(ids[0])
      ensures
        var held := if old(head).Some? then old(tokens) else [];
        tokens == if token.Some? then [token.value] + held else held
    {
      if head.Some? { LinkOn(llis, ids, ts, junk); } else { LinkFirst(llis, junk); }
      hide Chain, Linked, Known;
      current := MallocLLI(junk);
      if head.Some? {
        llis := llis[last := llis[last].(next := current)];
      } else {
        head, tokens := Some(current), [];
        assert ids + [current] == [current];
      }
      ids := ids + [current];
      if token.Some? { tokens := [token.value] + tokens; }
    }

    // One call of dma_transfer_link; with a block it closes the chain and hands
    // it to a channel.
    method TransferLink(len: nat, block: Option<nat>, token: Option<nat>, junk: Lli)
      returns (msg: Option<Msg>, ghost all: seq<nat>)
      requires Valid()
      modifies this
      ensures Valid() && old(ids) <= all && all != [] && Untouched(old(llis), llis, old(ids))
      ensures
        var before := if old(head).Some? then old(tokens) else [];
        var held := if token.Some? then [token.value] + before else before;
        if block.None? then msg == None && ids == all && ts == old(ts) + Chunks(len) && tokens == held
        else msg == Some(Msg(all[0], block.value, held)) && Chain(llis, all, old(ts) + Chunks(len), true) && ids == []
    {
      hide Linked, Untouched, Chunks, Chain, Known;
      var current := OpenLink(token, junk);
      ghost var mid := llis;
      SetupChunks(current, len, block.Some?, junk);
      UntouchedTwice(old(llis), mid, llis, old(ids), old(ids) + [current]);
      all := ids;
      msg := None;
      if block.Some? {
        msg := Some(Msg(head.value, block.value, tokens));
        head, tokens, ids, ts := None, [], [], [];
      }
    }

    // inform_dma and alloc_result: one transfer after the other, the last one
    // with the block.
    method TransferAll(lens: seq<nat>, block: nat, toks: seq<Option<nat>>, junk: Lli)
      returns (msg: Msg, ghost all: seq<nat>, ghost sizes: seq<nat>)
      requires Valid() && head.None? && |lens| == |toks| > 0
      modifies this
      ensures Valid() && head.None? && msg.block == block
      ensures Chain(llis, all, sizes, true) && sizes == AllChunks(lens) && Sum(sizes) == Words(lens)
      ensures forall i :: 0 <= i < |all| ==> (llis[all[i]].last <==> i == |all| - 1)
      ensures forall fuel :: fuel >= |all| ==> Follow(llis, msg.lli, fuel) == all
      ensures Dataflow.FromTail(msg.tokens) == Given(toks)
      ensures forall k: nat :: GivenFrom(toks, k) ==>
        |msg.tokens| == |toks| - k && forall i :: k <= i < |toks| ==> msg.tokens[|toks| - 1 - i] == toks[i].value
    {
      hide Chain, Follow, Chunks, Given, GivenFrom, Untouched, Sum, Words, AllChunks;
      var n := |lens| - 1;
      OpenCalls(lens[..n], toks[..n], junk);
      AllChunksAppend(lens);
      sizes := ts + Chunks(lens[n]);
      GivenNext(toks, n, if n == 0 then [] else tokens);
      assert toks[..n + 1] == toks;
      var m;
      m, all := TransferLink(lens[n], Some(block), toks[n], junk);
      msg := m.value;
      AllChunksSum(lens);
      GivenBackwards(toks, msg.tokens);
      ClosedChain(llis, all, sizes);
    }

    // The calls before the last, which leave the chain open.
    method OpenCalls(lens: seq<nat>, toks: seq<Option<nat>>, junk: Lli)
      requires Valid() && head.None? && |lens| == |toks|
      modifies this
      ensures Valid() && ts == AllChunks(lens) && (head.None? <==> lens == [])
      ensures Dataflow.FromTail(if lens == [] then [] else tokens) == Given(toks)
    {
      hide Chain, Chunks, Given, Untouched;
      for i := 0 to |lens|
        invariant Valid() && ts == AllChunks(lens[..i]) && (head.None? <==> i == 0)
        invariant Dataflow.FromTail(if i == 0 then [] else tokens) == Given(toks[..i])
      {
        assert lens[..i + 1][..i] == lens[..i];
        GivenNext(toks, i, if i == 0 then [] else tokens);
        var m, all := TransferLink(lens[i], None, toks[i], junk);
      }
      assert lens[..|lens|] == lens && toks[..|toks|] == toks;
    }
  }

  lemma AllChunksAppend(lens: seq<nat>)
    requires lens != []
    ensures AllChunks(lens) == AllChunks(lens[..|lens| - 1]) + Chunks(lens[|lens| - 1])
  {
  }

  // Of a closed chain only the last descriptor is marked, and the walk from the
  // head visits all.
  lemma ClosedChain(llis: seq<Lli>, all: seq<nat>, sizes: seq<nat>)
    requires Chain(llis, all, sizes, true)
    ensures Known(llis, all) && forall i :: 0 <= i < |all| ==> (llis[all[i]].last <==> i == |all| - 1)
    ensures forall fuel :: fuel >= |all| ==> Follow(llis, all[0], fuel) == all
  {
    forall i | 0 <= i < |all|
      ensures llis[all[i]].last <==> i == |all| - 1
    {
      OnlyLastIsMarked(llis, all, sizes, i);
    }
    forall fuel | fuel >= |all|
      ensures Follow(llis, all[0], fuel) == all
    {
      FollowVisitsChain(llis, all, sizes, true, fuel);
    }
  }

  function AllChunks(lens: seq<nat>): seq<nat> {
    if lens == [] then [] else AllChunks(lens[..|lens| - 1]) + Chunks(lens[|lens| - 1])
  }

  function Words(lens: seq<nat>): nat {
    if lens == [] then 0 else Words(lens[..|lens| - 1]) + lens[|lens| - 1] / 8
  }

  // All descriptors together move every whole word of every transfer.
  lemma {:induction false} AllChunksSum(lens: seq<nat>)
    ensures Sum(AllChunks(lens)) == Words(lens)
  {
    if lens != [] {
      AllChunksSum(lens[..|lens| - 1]);
      ChunksSum(lens[|lens| - 1]);
      SumSplit(AllChunks(lens[..|lens| - 1]), Chunks(lens[|lens| - 1]));
    }
  }

  // Descriptors outside the open chain keep their contents.
  ghost predicate Untouched(was: seq<Lli>, llis: seq<Lli>, ids: seq<nat>) {
    |was| <= |llis| && forall d :: 0 <= d < |was| && d !in ids ==> llis[d] == was[d]
  }
}
