// The streaming pipeline: dump, codec chain, pipe, storage (internal/core/pipeline.go,
// internal/codec/tar/tar.go, internal/dumper/execstream/execstream.go).
//
// A codec writer is stateful: what it emits for a chunk may depend on every chunk it
// got before, so it is given as a function of that whole history.  Any of its calls
// may fail.

module Pipeline {

  type Bytes = seq<bv8>

  datatype Option<+T> = None | Some(value: T)

  function Concat(cs: seq<Bytes>): Bytes {
    if cs == [] then [] else Concat(cs[..|cs| - 1]) + cs[|cs| - 1]
  }

  /** opens: NewWriter works; emit: what a Write passes on; finish: what Close passes on. */
  datatype Codec = Codec(opens: bool,
                         emit: (seq<Bytes>, Bytes) -> Option<Bytes>,
                         finish: seq<Bytes> -> Option<Bytes>)

  /** All a writer passed on for the chunks h, if no Write failed. */
  function Output(c: Codec, h: seq<Bytes>): Option<Bytes> {
    if h == [] then Some([])
    else
      var init, x := h[..|h| - 1], h[|h| - 1];
      var before, now := Output(c, init), c.emit(init, x);
      if before.None? || now.None? then None else Some(before.value + now.value)
  }

  /** However its input is cut into chunks, a closed writer has passed on enc(input). */
  ghost predicate Encodes(c: Codec, enc: Bytes -> Bytes) {
    forall h :: Output(c, h).Some? && c.finish(h).Some? ==>
      Output(c, h).value + c.finish(h).value == enc(Concat(h))
  }

  ghost predicate AllEncode(codecs: seq<Codec>, encs: seq<Bytes -> Bytes>) {
    |encs| == |codecs| && forall i | 0 <= i < |codecs| :: Encodes(codecs[i], encs[i])
  }

  /** enc_n(... enc_1(data)). */
  function EncodeAll(encs: seq<Bytes -> Bytes>, data: Bytes): Bytes {
    if encs == [] then data else encs[|encs| - 1](EncodeAll(encs[..|encs| - 1], data))
  }

  /** Undoing the codecs last to first. */
  function DecodeAll(decs: seq<Bytes -> Bytes>, data: Bytes): Bytes {
    if decs == [] then data else DecodeAll(decs[..|decs| - 1], decs[|decs| - 1](data))
  }

  lemma {:induction false} DecodeRestores(encs: seq<Bytes -> Bytes>, decs: seq<Bytes -> Bytes>, data: Bytes)
    requires |encs| == |decs|
    requires forall i, x | 0 <= i < |encs| :: decs[i](encs[i](x)) == x
    ensures DecodeAll(decs, EncodeAll(encs, data)) == data
  {
    if encs != [] {
      var n := |encs| - 1;
      var inner := EncodeAll(encs[..n], data);
      assert decs[n](encs[n](inner)) == inner;
      DecodeRestores(encs[..n], decs[..n], data);
    }
  }

  /** A dump: the chunks the copy loop reads, and whether it ended in EOF rather than an error. */
  datatype Dump = Dump(chunks: seq<Bytes>, clean: bool)

  // ---- one layer, chunk by chunk -------------------------------------------------------

  /** An empty output is not passed on. */
  function Add(cs: seq<Bytes>, x: Bytes): seq<Bytes> { if x == [] then cs else cs + [x] }

  function NonEmpty(cs: seq<Bytes>): seq<Bytes> {
    if cs == [] then [] else Add(NonEmpty(cs[..|cs| - 1]), cs[|cs| - 1])
  }

  /** The chunks an open writer has passed on for the chunks h; None if a Write failed. */
  function Outs(c: Codec, h: seq<Bytes>): Option<seq<Bytes>> {
    if h == [] then Some([])
    else
      var init, x := h[..|h| - 1], h[|h| - 1];
      var before, now := Outs(c, init), c.emit(init, x);
      if before.None? || now.None? then None else Some(Add(before.value, now.value))
  }

  /** The chunks it has passed on once it is closed. */
  function Whole(c: Codec, h: seq<Bytes>): Option<seq<Bytes>> {
    var before, last := Outs(c, h), c.finish(h);
    if before.None? || last.None? then None else Some(Add(before.value, last.value))
  }

  lemma {:induction false} OutsAreOutput(c: Codec, h: seq<Bytes>)
    ensures Outs(c, h).Some? <==> Output(c, h).Some?
    ensures Outs(c, h).Some? ==> Concat(Outs(c, h).value) == Output(c, h).value
  {
    if h != [] {
      OutsAreOutput(c, h[..|h| - 1]);
      var before, now := Outs(c, h[..|h| - 1]), c.emit(h[..|h| - 1], h[|h| - 1]);
      if before.Some? && now.Some? { AddConcat(before.value, now.value); }
    }
  }

  lemma AddConcat(cs: seq<Bytes>, x: Bytes)
    ensures Concat(Add(cs, x)) == Concat(cs) + x
  {
    assert x != [] ==> (cs + [x])[..|cs|] == cs;
  }

  lemma {:induction false} NonEmptyConcat(cs: seq<Bytes>)
    ensures Concat(NonEmpty(cs)) == Concat(cs)
  {
    if cs != [] {
      NonEmptyConcat(cs[..|cs| - 1]);
      AddConcat(NonEmpty(cs[..|cs| - 1]), cs[|cs| - 1]);
    }
  }

  lemma {:induction false} NonEmptyPrefix(cs: seq<Bytes>, n: nat)
    requires n <= |cs|
    ensures NonEmpty(cs[..n]) <= NonEmpty(cs)
  {
    if n < |cs| {
      NonEmptyPrefix(cs[..|cs| - 1], n);
      assert cs[..|cs| - 1][..n] == cs[..n];
    } else {
      assert cs[..n] == cs;
    }
  }

  /** What a writer passed on for the first chunks is the beginning of what it passes on for all. */
  lemma {:induction false} OutsPrefix(c: Codec, h: seq<Bytes>, n: nat)
    requires n <= |h| && Outs(c, h).Some?
    ensures Outs(c, h[..n]).Some? && Outs(c, h[..n]).value <= Outs(c, h).value
  {
    if n < |h| {
      OutsPrefix(c, h[..|h| - 1], n);
      assert h[..|h| - 1][..n] == h[..n];
    } else {
      assert h[..n] == h;
    }
  }

  // ---- the chain of writers ----------------------------------------------------------

  /** The chunks that reached layer i; layer |hist| is the pipe. */
  function At(hist: seq<seq<Bytes>>, pipe: seq<Bytes>, i: nat): seq<Bytes>
    requires i <= |hist|
  {
    if i == |hist| then pipe else hist[i]
  }

  /** Layer i has passed on exactly its output so far. */
  ghost predicate LinkOpen(codecs: seq<Codec>, hist: seq<seq<Bytes>>, pipe: seq<Bytes>, i: nat)
    requires i < |hist| == |codecs|
  {
    Outs(codecs[i], hist[i]) == Some(At(hist, pipe, i + 1))
  }

  /** Layer i is closed and has passed on its whole output. */
  ghost predicate LinkClosed(codecs: seq<Codec>, hist: seq<seq<Bytes>>, pipe: seq<Bytes>, i: nat)
    requires i < |hist| == |codecs|
  {
    Whole(codecs[i], hist[i]) == Some(At(hist, pipe, i + 1))
  }

  ghost predicate OpenFrom(codecs: seq<Codec>, hist: seq<seq<Bytes>>, pipe: seq<Bytes>, from: nat)
    requires |hist| == |codecs|
  {
    forall i: nat | from <= i < |codecs| :: LinkOpen(codecs, hist, pipe, i)
  }

  ghost predicate ClosedTo(codecs: seq<Codec>, hist: seq<seq<Bytes>>, pipe: seq<Bytes>, to: nat)
    requires |hist| == |codecs|
  {
    forall i: nat | i < to && i < |codecs| :: LinkClosed(codecs, hist, pipe, i)
  }

  /** A write of p into layer k went through: layers before k are as they were. */
  ghost predicate Wrote(codecs: seq<Codec>, hist: seq<seq<Bytes>>, pipe: seq<Bytes>,
                        hist': seq<seq<Bytes>>, pipe': seq<Bytes>, k: nat, p: Bytes)
    requires k <= |hist| == |codecs|
  {
    |hist'| == |hist| && hist'[..k] == hist[..k]
    && OpenFrom(codecs, hist', pipe', k)
    && At(hist', pipe', k) == Add(At(hist, pipe, k), p)
  }

  /** Layer k takes p and its output goes through to layer k + 1. */
  lemma WroteLayer(codecs: seq<Codec>, hist: seq<seq<Bytes>>, pipe: seq<Bytes>,
                   hist': seq<seq<Bytes>>, pipe': seq<Bytes>, k: nat, p: Bytes)
    requires k < |hist| == |codecs| && OpenFrom(codecs, hist, pipe, k) && p != []
    requires codecs[k].emit(hist[k], p).Some?
    requires Wrote(codecs, hist[k := hist[k] + [p]], pipe, hist', pipe', k + 1, codecs[k].emit(hist[k], p).value)
    ensures Wrote(codecs, hist, pipe, hist', pipe', k, p)
  {
    var mid := hist[k := hist[k] + [p]];
    assert hist'[k] == hist'[..k + 1][k] == mid[k];
    assert hist'[..k] == hist'[..k + 1][..k] == mid[..k] == hist[..k];
    assert LinkOpen(codecs, hist, pipe, k);
    assert At(mid, pipe, k + 1) == At(hist, pipe, k + 1);
    assert mid[k][..|hist[k]|] == hist[k];
    assert LinkOpen(codecs, hist', pipe', k);
  }

  lemma ClosedLinkStays(codecs: seq<Codec>, hist: seq<seq<Bytes>>, pipe: seq<Bytes>,
                        hist': seq<seq<Bytes>>, pipe': seq<Bytes>, i: nat)
    requires i + 1 < |hist| == |hist'| == |codecs|
    requires LinkClosed(codecs, hist, pipe, i) && hist'[i] == hist[i] && hist'[i + 1] == hist[i + 1]
    ensures LinkClosed(codecs, hist', pipe', i)
  {
  }

  lemma CloseLink(codecs: seq<Codec>, hist: seq<seq<Bytes>>, pipe: seq<Bytes>,
                  hist': seq<seq<Bytes>>, pipe': seq<Bytes>, k: nat)
    requires k < |hist| == |codecs| && LinkOpen(codecs, hist, pipe, k) && codecs[k].finish(hist[k]).Some?
    requires Wrote(codecs, hist, pipe, hist', pipe', k + 1, codecs[k].finish(hist[k]).value)
    ensures LinkClosed(codecs, hist', pipe', k)
  {
    assert hist'[k] == hist'[..k + 1][k] == hist[k];
  }

  /** Closing layer k passes on its last bytes. */
  lemma CloseLayer(codecs: seq<Codec>, hist: seq<seq<Bytes>>, pipe: seq<Bytes>,
                   hist': seq<seq<Bytes>>, pipe': seq<Bytes>, k: nat)
    requires k < |hist| == |codecs| && OpenFrom(codecs, hist, pipe, k) && ClosedTo(codecs, hist, pipe, k)
    requires codecs[k].finish(hist[k]).Some?
    requires Wrote(codecs, hist, pipe, hist', pipe', k + 1, codecs[k].finish(hist[k]).value)
    ensures OpenFrom(codecs, hist', pipe', k + 1) && ClosedTo(codecs, hist', pipe', k + 1)
    ensures hist'[..k + 1] == hist[..k + 1]
  {
    CloseLink(codecs, hist, pipe, hist', pipe', k);
    hide Outs;
    hide Whole;
    hide At;
    hide LinkOpen;
    hide LinkClosed;
    hide OpenFrom;
    hide ClosedTo;
    ClosedStay(codecs, hist, pipe, hist', pipe', k);
  }

  lemma ClosedStay(codecs: seq<Codec>, hist: seq<seq<Bytes>>, pipe: seq<Bytes>,
                   hist': seq<seq<Bytes>>, pipe': seq<Bytes>, k: nat)
    requires k < |hist| == |hist'| == |codecs| && ClosedTo(codecs, hist, pipe, k)
    requires forall j | 0 <= j <= k :: hist'[j] == hist[j]
    requires LinkClosed(codecs, hist', pipe', k)
    ensures ClosedTo(codecs, hist', pipe', k + 1)
  {
    forall i: nat | i < k ensures LinkClosed(codecs, hist', pipe', i) {
      ClosedLinkStays(codecs, hist, pipe, hist', pipe', i);
    }
  }

  /** With every layer closed, the pipe holds the dump encoded by all of them in order. */
  lemma {:induction false} ClosedIsEncoded(codecs: seq<Codec>, encs: seq<Bytes -> Bytes>,
                                           hist: seq<seq<Bytes>>, pipe: seq<Bytes>, k: nat)
    requires |hist| == |codecs| && AllEncode(codecs, encs) && ClosedTo(codecs, hist, pipe, |codecs|) && k <= |codecs|
    ensures Concat(At(hist, pipe, k)) == EncodeAll(encs[..k], Concat(At(hist, pipe, 0)))
  {
    if k > 0 {
      var c, h := codecs[k - 1], hist[k - 1];
      ClosedIsEncoded(codecs, encs, hist, pipe, k - 1);
      assert encs[..k][..k - 1] == encs[..k - 1];
      assert LinkClosed(codecs, hist, pipe, k - 1) && Encodes(c, encs[k - 1]);
      OutsAreOutput(c, h);
      AddConcat(Outs(c, h).value, c.finish(h).value);
    }
  }

  // ---- what can go through -------------------------------------------------------------------

  /** Layer by layer: writing these chunks into layer k meets no failing call and no refused write. */
  ghost predicate Passes(codecs: seq<Codec>, accepts: nat -> bool, k: nat, input: seq<Bytes>)
    requires k <= |codecs|
    decreases |codecs| - k
  {
    if k == |codecs| then forall n: nat | n < |input| :: accepts(n)
    else Outs(codecs[k], input).Some? && Passes(codecs, accepts, k + 1, Outs(codecs[k], input).value)
  }

  /** Nor does closing layer k and those after it. */
  ghost predicate Completes(codecs: seq<Codec>, accepts: nat -> bool, k: nat, input: seq<Bytes>)
    requires k <= |codecs|
    decreases |codecs| - k
  {
    if k == |codecs| then forall n: nat | n < |input| :: accepts(n)
    else Whole(codecs[k], input).Some? && Completes(codecs, accepts, k + 1, Whole(codecs[k], input).value)
  }

  lemma {:induction false} PassesPrefix(codecs: seq<Codec>, accepts: nat -> bool, k: nat, input: seq<Bytes>, less: seq<Bytes>)
    requires k <= |codecs| && less <= input && Passes(codecs, accepts, k, input)
    ensures Passes(codecs, accepts, k, less)
    decreases |codecs| - k
  {
    if k < |codecs| {
      OutsPrefix(codecs[k], input, |less|);
      assert input[..|less|] == less;
      PassesPrefix(codecs, accepts, k + 1, Outs(codecs[k], input).value, Outs(codecs[k], less).value);
    }
  }

  lemma {:induction false} CompletesPasses(codecs: seq<Codec>, accepts: nat -> bool, k: nat, input: seq<Bytes>)
    requires k <= |codecs| && Completes(codecs, accepts, k, input)
    ensures Passes(codecs, accepts, k, input)
    decreases |codecs| - k
  {
    if k < |codecs| {
      CompletesPasses(codecs, accepts, k + 1, Whole(codecs[k], input).value);
      PassesPrefix(codecs, accepts, k + 1, Whole(codecs[k], input).value, Outs(codecs[k], input).value);
    }
  }

  /** One more chunk into layer k, which has passed on exactly its output so far. */
  lemma PassesMore(codecs: seq<Codec>, accepts: nat -> bool, k: nat, input: seq<Bytes>, p: Bytes, next: seq<Bytes>)
    requires k < |codecs| && Outs(codecs[k], input) == Some(next)
    ensures Passes(codecs, accepts, k, input) <==> Passes(codecs, accepts, k + 1, next)
    ensures Passes(codecs, accepts, k, input + [p]) <==>
            codecs[k].emit(input, p).Some? && Passes(codecs, accepts, k + 1, Add(next, codecs[k].emit(input, p).value))
  {
    assert (input + [p])[..|input|] == input;
  }

  /** Where no call fails and the pipe takes everything, every input goes through. */
  lemma {:induction false} ObligingCompletes(codecs: seq<Codec>, accepts: nat -> bool, k: nat, input: seq<Bytes>)
    requires k <= |codecs| && Obliging(codecs, accepts)
    ensures Completes(codecs, accepts, k, input)
    decreases |codecs| - k
  {
    if k < |codecs| {
      ObligingOuts(codecs[k], input);
      ObligingCompletes(codecs, accepts, k + 1, Whole(codecs[k], input).value);
    }
  }

  lemma {:induction false} ObligingOuts(c: Codec, h: seq<Bytes>)
    requires forall g, x :: c.emit(g, x).Some?
    ensures Outs(c, h).Some?
  {
    if h != [] { ObligingOuts(c, h[..|h| - 1]); }
  }

  ghost predicate Obliging(codecs: seq<Codec>, accepts: nat -> bool) {
    (forall n: nat :: accepts(n))
    && forall i | 0 <= i < |codecs| :: (forall h, x :: codecs[i].emit(h, x).Some?) && forall h :: codecs[i].finish(h).Some?
  }

  /** Every call that layer c got for the chunks h was answered. */
  lemma {:induction false} OutsAnswered(c: Codec, h: seq<Bytes>, j: nat)
    requires Outs(c, h).Some? && j < |h|
    ensures c.emit(h[..j], h[j]).Some?
  {
    if j < |h| - 1 {
      OutsAnswered(c, h[..|h| - 1], j);
      assert h[..|h| - 1][..j] == h[..j];
    }
  }

  class Chain {
    const codecs: seq<Codec>
    const accepts: nat -> bool       // whether the pipe takes its n-th write; refusals mean the reader is gone
    var hist: seq<seq<Bytes>>        // chunks written to each layer, the dump's side first
    var pipe: seq<Bytes>             // writes the pipe took

    ghost predicate Shape() reads this { |hist| == |codecs| }

    constructor (codecs: seq<Codec>, accepts: nat -> bool)
      ensures Shape() && this.codecs == codecs && this.accepts == accepts
      ensures hist == seq(|codecs|, i => []) && pipe == []
    {
      this.codecs, this.accepts := codecs, accepts;
      hist, pipe := seq(|codecs|, i => []), [];
    }

    /** One Write into layer k, rippling down to the pipe; an empty output is not passed on.  It goes through
        exactly if no call and no write of the pipe on its way fails. */
    method Write(k: nat, p: Bytes) returns (ok: bool)
      requires Shape() && k <= |codecs| && p != []
      modifies this
      ensures Shape() && hist[..k] == old(hist)[..k]
      ensures k == |codecs| ==> ok == accepts(|old(pipe)|) && pipe == old(pipe) + (if ok then [p] else [])
      ensures k < |codecs| && codecs[k].emit(old(hist)[k], p).None? ==> !ok && hist == old(hist) && pipe == old(pipe)
      ensures ok && OpenFrom(codecs, old(hist), old(pipe), k) ==> Wrote(codecs, old(hist), old(pipe), hist, pipe, k, p)
      ensures OpenFrom(codecs, old(hist), old(pipe), k) && Passes(codecs, accepts, k, At(old(hist), old(pipe), k)) ==>
                (ok <==> Passes(codecs, accepts, k, At(old(hist), old(pipe), k) + [p]))
      ensures forall w | w in pipe :: w in old(pipe) || w != []
      decreases |codecs| - k
    {
      if k == |codecs| {
        ok := accepts(|pipe|);
        if ok { pipe := pipe + [p]; }
        return;
      }
      var out := codecs[k].emit(hist[k], p);
      ghost var hist0, next := hist, At(hist, pipe, k + 1);
      ghost var open := OpenFrom(codecs, hist0, pipe, k);
      if open {
        assert LinkOpen(codecs, hist0, pipe, k);
        PassesMore(codecs, accepts, k, hist0[k], p, next);
      }
      hide Passes;
      if out.None? { return false; }
      hist := hist[k := hist[k] + [p]];
      ok := true;
      ghost var mid := hist;
      if open { StillOpen(codecs, hist0, mid, pipe, k); }
      if out.value != [] { ok := Write(k + 1, out.value); }
      assert hist[..k] == hist[..k + 1][..k] == mid[..k];
      if ok && open { WroteLayer(codecs, hist0, old(pipe), hist, pipe, k, p); }
    }

    /** feed: open the writers, copy the dump, close inner to outer; the first error wins.  It succeeds exactly
        if every writer opened, the dump ended cleanly and, layer by layer, everything goes through. */
    method Feed(dump: Dump, ghost encs: seq<Bytes -> Bytes>) returns (ok: bool)
      requires Shape() && hist == seq(|codecs|, i => []) && pipe == []
      modifies this
      ensures Shape()
      ensures ok <==> (forall i | 0 <= i < |codecs| :: codecs[i].opens) && dump.clean
                      && Completes(codecs, accepts, 0, NonEmpty(dump.chunks))
      ensures Obliging(codecs, accepts) ==> (ok <==> (forall i | 0 <= i < |codecs| :: codecs[i].opens) && dump.clean)
      ensures ok ==> (forall n: nat | n < |pipe| :: accepts(n)) && forall i | 0 <= i < |codecs| ::
                (forall j: nat | j < |hist[i]| :: codecs[i].emit(hist[i][..j], hist[i][j]).Some?)
                && codecs[i].finish(hist[i]).Some?
      ensures ok ==> ClosedTo(codecs, hist, pipe, |codecs|) && At(hist, pipe, 0) == NonEmpty(dump.chunks)
      ensures forall w | w in pipe :: w != []
      ensures ok && AllEncode(codecs, encs) ==> Concat(pipe) == EncodeAll(encs, Concat(dump.chunks))
    {
      if Obliging(codecs, accepts) { ObligingCompletes(codecs, accepts, 0, NonEmpty(dump.chunks)); }
      hide Obliging;
      var i := |codecs|;
      while i > 0
        invariant 0 <= i <= |codecs|
        invariant forall j | i <= j < |codecs| :: codecs[j].opens
      {
        i := i - 1;
        if !codecs[i].opens {
          return false;
        }
      }
      if Completes(codecs, accepts, 0, NonEmpty(dump.chunks)) {
        CompletesPasses(codecs, accepts, 0, NonEmpty(dump.chunks));
      }
      var copied := Copy(dump);
      var closed := CloseAll(copied);
      ok := copied && closed;
      if ok {
        forall i | 0 <= i < |codecs|
          ensures codecs[i].finish(hist[i]).Some?
          ensures forall j: nat | j < |hist[i]| :: codecs[i].emit(hist[i][..j], hist[i][j]).Some?
        {
          assert LinkClosed(codecs, hist, pipe, i);
          forall j: nat | j < |hist[i]| ensures codecs[i].emit(hist[i][..j], hist[i][j]).Some? {
            OutsAnswered(codecs[i], hist[i], j);
          }
        }
        NonEmptyConcat(dump.chunks);
        if AllEncode(codecs, encs) {
          ClosedIsEncoded(codecs, encs, hist, pipe, |codecs|);
          assert encs[..|codecs|] == encs;
        }
      }
    }

    /** io.Copy: chunk by chunk until a write fails or the dump ends. */
    method Copy(dump: Dump) returns (copied: bool)
      requires Shape() && hist == seq(|codecs|, i => []) && pipe == []
      modifies this
      ensures Shape() && (copied <==> dump.clean && Passes(codecs, accepts, 0, NonEmpty(dump.chunks)))
      ensures forall w | w in pipe :: w != []
      ensures copied ==> OpenFrom(codecs, hist, pipe, 0) && At(hist, pipe, 0) == NonEmpty(dump.chunks)
    {
      var n := 0;
      copied := true;
      assert OpenFrom(codecs, hist, pipe, 0);
      NothingPasses(codecs, accepts, 0);
      while n < |dump.chunks| && copied
        invariant 0 <= n <= |dump.chunks| && Shape()
        invariant forall w | w in pipe :: w != []
        invariant copied <==> Passes(codecs, accepts, 0, NonEmpty(dump.chunks[..n]))
        invariant copied ==> OpenFrom(codecs, hist, pipe, 0)
        invariant copied ==> At(hist, pipe, 0) == NonEmpty(dump.chunks[..n])
      {
        assert dump.chunks[..n + 1][..n] == dump.chunks[..n] && dump.chunks[..n + 1][n] == dump.chunks[n];
        hide Passes;
        hide OpenFrom;
        if dump.chunks[n] != [] {
          copied := Write(0, dump.chunks[n]);
        }
        n := n + 1;
      }
      if copied {
        assert dump.chunks[..n] == dump.chunks;
      } else if Passes(codecs, accepts, 0, NonEmpty(dump.chunks)) {
        NonEmptyPrefix(dump.chunks, n);
        PassesPrefix(codecs, accepts, 0, NonEmpty(dump.chunks), NonEmpty(dump.chunks[..n]));
      }
      copied := copied && dump.clean;
    }

    /** The close loop runs over every writer whatever failed before; after a good copy it succeeds exactly if
        everything goes through to the end. */
    method CloseAll(ghost copied: bool) returns (closed: bool)
      requires Shape()
      requires copied ==> OpenFrom(codecs, hist, pipe, 0) && Passes(codecs, accepts, 0, At(hist, pipe, 0))
      modifies this
      ensures Shape()
      ensures forall w | w in pipe :: w in old(pipe) || w != []
      ensures copied ==> (closed <==> Completes(codecs, accepts, 0, old(At(hist, pipe, 0))))
      ensures copied && closed ==>
                ClosedTo(codecs, hist, pipe, |codecs|) && At(hist, pipe, 0) == old(At(hist, pipe, 0))
                && forall n: nat | n < |pipe| :: accepts(n)
    {
      closed := true;
      ghost var first := At(hist, pipe, 0);
      var i := 0;
      hide LinkOpen;
      hide LinkClosed;
      while i < |codecs|
        invariant 0 <= i <= |codecs| && Shape()
        invariant forall w | w in pipe :: w in old(pipe) || w != []
        invariant copied && closed ==>
                    OpenFrom(codecs, hist, pipe, i) && ClosedTo(codecs, hist, pipe, i) && At(hist, pipe, 0) == first
                    && Passes(codecs, accepts, i, At(hist, pipe, i))
        invariant copied && closed ==>
                    (Completes(codecs, accepts, 0, first) <==> Completes(codecs, accepts, i, At(hist, pipe, i)))
        invariant copied && !closed ==> !Completes(codecs, accepts, 0, first)
      {
        ghost var good := copied && closed;
        closed := CloseOne(i, closed, good);
        i := i + 1;
      }
    }

    /** One turn of that loop. */
    method CloseOne(i: nat, so: bool, ghost good: bool) returns (closed: bool)
      requires Shape() && i < |codecs| && (good ==> so)
      requires good ==> OpenFrom(codecs, hist, pipe, i) && ClosedTo(codecs, hist, pipe, i)
                        && Passes(codecs, accepts, i, At(hist, pipe, i))
      modifies this
      ensures Shape() && (closed ==> so)
      ensures forall w | w in pipe :: w in old(pipe) || w != []
      ensures good && closed ==>
                OpenFrom(codecs, hist, pipe, i + 1) && ClosedTo(codecs, hist, pipe, i + 1)
                && Passes(codecs, accepts, i + 1, At(hist, pipe, i + 1)) && At(hist, pipe, 0) == old(At(hist, pipe, 0))
                && (Completes(codecs, accepts, i, old(At(hist, pipe, i))) <==>
                    Completes(codecs, accepts, i + 1, At(hist, pipe, i + 1)))
      ensures good && !closed ==> !Completes(codecs, accepts, i, old(At(hist, pipe, i)))
    {
      ghost var hist0, pipe0, next := hist, pipe, At(hist, pipe, i + 1);
      closed := so;
      var out := codecs[i].finish(hist[i]);
      if good {
        assert LinkOpen(codecs, hist, pipe, i);
        PassesMore(codecs, accepts, i, hist[i], [], next);
        ClosingGoesOn(codecs, accepts, i, hist[i], next);
      }
      hide Passes;
      hide Completes;
      hide LinkOpen;
      hide LinkClosed;
      if out.None? { return false; }
      var ok := true;
      if out.value != [] { ok := Write(i + 1, out.value); }
      closed := closed && ok;
      if good && ok {
        assert hist[..i + 1] == hist0[..i + 1];
        CloseLayer(codecs, hist0, pipe0, hist, pipe, i);
        assert hist[0] == hist[..i + 1][0] == hist0[0];
      }
    }
  }

  /** Closing layer k comes down to what its last bytes make of the layers after it. */
  lemma ClosingGoesOn(codecs: seq<Codec>, accepts: nat -> bool, k: nat, input: seq<Bytes>, next: seq<Bytes>)
    requires k < |codecs| && Outs(codecs[k], input) == Some(next)
    ensures var out := codecs[k].finish(input);
            (out.None? ==> !Completes(codecs, accepts, k, input))
            && (out.Some? ==>
                  (Completes(codecs, accepts, k, input) <==> Completes(codecs, accepts, k + 1, Add(next, out.value)))
                  && (!Passes(codecs, accepts, k + 1, Add(next, out.value)) ==> !Completes(codecs, accepts, k, input)))
  {
    var out := codecs[k].finish(input);
    if out.Some? && Completes(codecs, accepts, k + 1, Add(next, out.value)) {
      CompletesPasses(codecs, accepts, k + 1, Add(next, out.value));
    }
  }

  lemma {:induction false} NothingPasses(codecs: seq<Codec>, accepts: nat -> bool, k: nat)
    requires k <= |codecs|
    ensures Passes(codecs, accepts, k, [])
    decreases |codecs| - k
  {
    if k < |codecs| { NothingPasses(codecs, accepts, k + 1); }
  }

  lemma StillOpen(codecs: seq<Codec>, hist: seq<seq<Bytes>>, mid: seq<seq<Bytes>>, pipe: seq<Bytes>, k: nat)
    requires k < |hist| == |codecs| == |mid| && OpenFrom(codecs, hist, pipe, k)
    requires forall i | k < i < |hist| :: mid[i] == hist[i]
    ensures OpenFrom(codecs, mid, pipe, k + 1)
  {
    forall i: nat | k < i < |codecs| ensures LinkOpen(codecs, mid, pipe, i) {
      assert LinkOpen(codecs, hist, pipe, i);
    }
  }

  // ---- tar: the codec whose whole output appears at close ------------------------------

  /** header gives the member header for a size; trailer the padding and end blocks. */
  function TarCodec(header: nat -> Bytes, trailer: nat -> Bytes): Codec {
    Codec(true, (h, x) => Some([]), h => Some(header(|Concat(h)|) + Concat(h) + trailer(|Concat(h)|)))
  }

  function TarEncode(header: nat -> Bytes, trailer: nat -> Bytes): Bytes -> Bytes {
    data => header(|data|) + data + trailer(|data|)
  }

  lemma {:induction false} TarEmitsNothing(header: nat -> Bytes, trailer: nat -> Bytes, h: seq<Bytes>)
    ensures Output(TarCodec(header, trailer), h) == Some([])
  {
    if h != [] {
      var c, init := TarCodec(header, trailer), h[..|h| - 1];
      TarEmitsNothing(header, trailer, init);
      assert Output(c, init).value + c.emit(init, h[|h| - 1]).value == [];
    }
  }

  /** The archive depends on the buffered bytes alone, not on how they were written. */
  lemma TarEncodes(header: nat -> Bytes, trailer: nat -> Bytes)
    ensures TarCodec(header, trailer).opens && Encodes(TarCodec(header, trailer), TarEncode(header, trailer))
  {
    var c, enc := TarCodec(header, trailer), TarEncode(header, trailer);
    forall h ensures Output(c, h).Some? && Output(c, h).value + c.finish(h).value == enc(Concat(h)) {
      TarEmitsNothing(header, trailer, h);
      assert [] + c.finish(h).value == c.finish(h).value;
    }
  }

  class TarWriter {
    const header: nat -> Bytes
    const trailer: nat -> Bytes
    var tmp: Bytes
    var size: nat
    ghost var chunks: seq<Bytes>

    ghost predicate Valid() reads this { tmp == Concat(chunks) && size == |tmp| }

    constructor (header: nat -> Bytes, trailer: nat -> Bytes)
      ensures Valid() && chunks == [] && this.header == header && this.trailer == trailer
    {
      this.header, this.trailer := header, trailer;
      tmp, size, chunks := [], 0, [];
    }

    /** A write is buffered; how much the buffer took counts even when it failed. */
    method Write(p: Bytes, took: nat) returns (n: nat, ok: bool)
      requires Valid() && took <= |p|
      modifies this
      ensures Valid() && n == took && ok == (took == |p|) && chunks == old(chunks) + [p[..took]]
    {
      tmp, size, chunks := tmp + p[..took], size + took, chunks + [p[..took]];
      n, ok := took, took == |p|;
    }

    /** Close emits what TarCodec says for the chunks written. */
    method Close() returns (out: Bytes)
      requires Valid()
      ensures TarCodec(header, trailer).finish(chunks) == Some(out)
      ensures out == header(|Concat(chunks)|) + Concat(chunks) + trailer(|Concat(chunks)|)
    {
      out := header(size) + tmp + trailer(size);
    }
  }

  // ---- the dump's process stream ---------------------------------------------------------

  datatype ReadResult = Data | Eof | Failed

  /** execstream: EOF is reported only for a process that exited cleanly, which is waited for once. */
  class ProcStream {
    const exitOk: bool           // how the process ends when left alone
    var pending: nat             // reads of its output still to come
    var closed: bool             // our end of its stdout
    var waited: Option<bool>     // the outcome of the one Wait
    ghost var waits: nat

    ghost predicate Valid() reads this { waits == if waited.Some? then 1 else 0 }

    constructor (exitOk: bool, pending: nat)
      ensures Valid() && this.exitOk == exitOk && this.pending == pending && waited.None? && !closed
    {
      this.exitOk, this.pending := exitOk, pending;
      closed, waited, waits := false, None, 0;
    }

    method Read() returns (r: ReadResult)
      requires Valid()
      modifies this
      ensures Valid() && waits <= 1 && closed == old(closed)
      ensures r == Eof ==> pending == 0 && waited == Some(true)
      ensures r == Eof && old(waited).None? ==> exitOk
      ensures old(waited).None? && !old(closed) && old(pending) == 0 ==> r == if exitOk then Eof else Failed
      ensures r == Data ==> old(pending) == pending + 1
      ensures !old(closed) && old(pending) > 0 ==> r == Data && waited == old(waited)
      ensures !old(closed) && old(pending) == 0 ==>
                pending == 0 && waited == Some(if old(waited).Some? then old(waited).value else exitOk)
                && r == if waited.value then Eof else Failed
      ensures old(closed) ==> r == Failed && pending == old(pending) && waited == old(waited)
    {
      if closed { return Failed; }
      if pending > 0 {
        pending := pending - 1;
        return Data;
      }
      if waited.None? { waited, waits := Some(exitOk), waits + 1; }
      return if waited == Some(true) then Eof else Failed;
    }

    /** Close kills a process nobody waited for yet, and reaps it. */
    method Close()
      requires Valid()
      modifies this
      ensures Valid() && waits == 1 && closed
      ensures waited == if old(waited).Some? then old(waited) else Some(false)
    {
      closed := true;
      if waited.None? { waited, waits := Some(false), waits + 1; }
    }
  }

  // ---- live byte counts -------------------------------------------------------------------

  datatype Report = Report(at: int, total: nat)

  /** countReader: cumulative totals, at most one report per interval. */
  class CountReader {
    const interval: nat
    var total: nat
    var last: Option<int>
    ghost var reports: seq<Report>

    ghost predicate Valid() reads this {
      (last.None? <==> reports == [])
      && (last.Some? ==> reports[|reports| - 1].at == last.value && reports[|reports| - 1].total <= total)
      && (forall i, j | 0 <= i < j < |reports| ::
            reports[i].at + interval <= reports[j].at && reports[i].total < reports[j].total)
    }

    constructor (interval: nat)
      ensures Valid() && total == 0 && reports == [] && this.interval == interval
    {
      this.interval := interval;
      total, last, reports := 0, None, [];
    }

    method Read(n: nat, now: int)
      requires Valid()
      modifies this
      ensures Valid() && total == old(total) + n
      ensures n > 0 && (old(last).None? || now - old(last).value >= interval) ==>
                reports == old(reports) + [Report(now, total)]
      ensures n == 0 || (old(last).Some? && now - old(last).value < interval) ==> reports == old(reports)
    {
      if n == 0 { return; }
      total := total + n;
      if last.None? || now - last.value >= interval {
        last := Some(now);
        reports := reports + [Report(now, total)];
      }
    }
  }
}
