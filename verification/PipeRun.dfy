// RunPipeline's two sides over an unbuffered pipe (internal/core/pipeline.go).
//
// The producer writes a list of chunks and ends with its own outcome; the storage reads
// pieces of any size and returns when it likes.  A read and the write it takes from
// are one step; so are the two closes.

module PipeRun {
  import opened Pipeline

  datatype Producer = Writing(rest: seq<Bytes>) | Finished(failed: bool)

  /** reported: the size in the metadata a storage returns. */
  datatype Consumer = Reading | Returned(ok: bool, reported: int)

  /** read: what went through the tee, hence what was hashed and what the storage holds. */
  datatype State = State(prod: Producer, cons: Consumer, read: Bytes, sawEnd: bool)

  datatype Event = Read(n: nat) | ProducerEnds | SeeEnd | StorageReturns(ok: bool, reported: int) | WriteRefused

  function Init(writes: seq<Bytes>): State { State(Writing(writes), Reading, [], false) }

  /** After a failed upload the pipe is closed against its writer. */
  predicate Refused(c: Consumer) { c.Returned? && !c.ok }

  predicate Accepted(c: Consumer) { c.Returned? && c.ok }

  predicate Enabled(s: State, e: Event) {
    match e
    case Read(n) => s.cons == Reading && s.prod.Writing? && s.prod.rest != [] && 1 <= n <= |s.prod.rest[0]|
    case ProducerEnds => s.prod == Writing([])
    case SeeEnd => s.cons == Reading && s.prod.Finished? && !s.sawEnd
    case StorageReturns(_, _) => s.cons == Reading
    case WriteRefused => Refused(s.cons) && s.prod.Writing? && s.prod.rest != []
  }

  /** What is still to be written once a read took n bytes of the write in progress. */
  function Left(rest: seq<Bytes>, n: nat): seq<Bytes>
    requires rest != [] && n <= |rest[0]|
  {
    if n == |rest[0]| then rest[1..] else [rest[0][n..]] + rest[1..]
  }

  function Step(s: State, e: Event, failed: bool): State
    requires Enabled(s, e)
  {
    match e
    case Read(n) =>
      s.(read := s.read + s.prod.rest[0][..n], prod := Writing(Left(s.prod.rest, n)))
    case ProducerEnds => s.(prod := Finished(failed))
    case SeeEnd => s.(sawEnd := true)
    case StorageReturns(ok, reported) => s.(cons := Returned(ok, reported))
    case WriteRefused => s.(prod := Finished(true))
  }

  predicate Final(s: State) { s.prod.Finished? && s.cons.Returned? }

  /** The storage contract: success only after the end of the stream was seen. */
  predicate ReadsToEnd(s: State, e: Event) { e.StorageReturns? && e.ok ==> s.sawEnd }

  ghost predicate IsRun(s: State, es: seq<Event>, failed: bool)
    decreases |es|
  {
    es == [] || (Enabled(s, es[0]) && IsRun(Step(s, es[0], failed), es[1..], failed))
  }

  function After(s: State, es: seq<Event>, failed: bool): State
    requires IsRun(s, es, failed)
    decreases |es|
  {
    if es == [] then s else After(Step(s, es[0], failed), es[1..], failed)
  }

  ghost predicate WellBehaved(s: State, es: seq<Event>, failed: bool)
    requires IsRun(s, es, failed)
    decreases |es|
  {
    es == [] || (ReadsToEnd(s, es[0]) && WellBehaved(Step(s, es[0], failed), es[1..], failed))
  }

  function Flat(cs: seq<Bytes>): Bytes { if cs == [] then [] else cs[0] + Flat(cs[1..]) }

  function Size(cs: seq<Bytes>): nat { if cs == [] then 0 else |cs[0]| + Size(cs[1..]) }

  lemma {:induction false} FlatIsConcat(cs: seq<Bytes>)
    ensures Flat(cs) == Concat(cs)
  {
    if cs != [] {
      FlatIsConcat(cs[1..]);
      ConcatCons(cs[0], cs[1..]);
      assert cs == [cs[0]] + cs[1..];
    }
  }

  lemma {:induction false} ConcatCons(c: Bytes, cs: seq<Bytes>)
    ensures Concat([c] + cs) == c + Concat(cs)
  {
    if cs == [] {
      assert [c] + cs == [c] && [c][..0] == [];
    } else {
      var init, x := cs[..|cs| - 1], cs[|cs| - 1];
      assert ([c] + cs)[..|cs|] == [c] + init;
      ConcatCons(c, init);
    }
  }

  /** Bytes are neither lost, repeated nor reordered between the writes and the reads. */
  ghost predicate Inv(s: State, writes: seq<Bytes>, failed: bool) {
    (s.prod.Writing? ==>
       s.read + Flat(s.prod.rest) == Flat(writes) && (forall w | w in s.prod.rest :: w != []) && !s.sawEnd)
    && (s.prod.Finished? && !Refused(s.cons) ==> s.read == Flat(writes) && s.prod.failed == failed)
    && (s.prod.Finished? && failed ==> s.prod.failed)
    && s.read <= Flat(writes)
  }

  lemma LeftNonEmpty(rest: seq<Bytes>, n: nat)
    requires rest != [] && n <= |rest[0]| && forall w | w in rest :: w != []
    ensures forall w | w in Left(rest, n) :: w != []
  {
    forall w | w in rest[1..] ensures w in rest { }
  }

  lemma StepInv(s: State, e: Event, writes: seq<Bytes>, failed: bool)
    requires Inv(s, writes, failed) && Enabled(s, e)
    ensures Inv(Step(s, e, failed), writes, failed)
  {
    if e.Read? {
      var rest := s.prod.rest;
      LeftNonEmpty(rest, e.n);
      assert s.read + rest[0][..e.n] + Flat(Left(rest, e.n)) == s.read + Flat(rest);
    } else if e.ProducerEnds? {
      assert s.prod.rest == [] && s.read + Flat([]) == s.read;
    }
  }

  lemma {:induction false} RunInv(s: State, es: seq<Event>, writes: seq<Bytes>, failed: bool)
    requires Inv(s, writes, failed) && IsRun(s, es, failed)
    ensures Inv(After(s, es, failed), writes, failed)
    decreases |es|
  {
    if es != [] {
      StepInv(s, es[0], writes, failed);
      RunInv(Step(s, es[0], failed), es[1..], writes, failed);
    }
  }

  // ---- both sides finish -------------------------------------------------------------

  /** Falls with every step, so every run ends. */
  function Work(s: State): nat {
    (if s.prod.Writing? then 1 + Size(s.prod.rest) else 0)
    + (if s.cons == Reading then 1 else 0) + (if s.sawEnd then 0 else 1)
  }

  /** No run is longer than the work there is. */
  lemma {:induction false} RunsEnd(s: State, es: seq<Event>, failed: bool)
    requires IsRun(s, es, failed)
    ensures |es| <= Work(s)
    decreases |es|
  {
    if es != [] {
      RunsEnd(Step(s, es[0], failed), es[1..], failed);
    }
  }

  ghost predicate Stuck(s: State) { !Final(s) && forall e :: !Enabled(s, e) }

  /** The only way to hang is a storage that reports success with the dump still coming. */
  lemma StuckIffReturnedEarly(s: State, writes: seq<Bytes>, failed: bool)
    requires Inv(s, writes, failed)
    ensures Stuck(s) <==> Accepted(s.cons) && s.prod.Writing? && s.prod.rest != []
  {
    if s.prod == Writing([]) {
      assert Enabled(s, ProducerEnds);
    } else if s.cons == Reading {
      assert Enabled(s, StorageReturns(false, 0));
    } else if s.prod.Writing? && Refused(s.cons) {
      assert Enabled(s, WriteRefused);
    }
  }

  lemma {:induction false} EndSeen(s: State, es: seq<Event>, failed: bool)
    requires IsRun(s, es, failed) && WellBehaved(s, es, failed)
    requires Accepted(s.cons) ==> s.sawEnd
    ensures Accepted(After(s, es, failed).cons) ==> After(s, es, failed).sawEnd
    decreases |es|
  {
    if es != [] { EndSeen(Step(s, es[0], failed), es[1..], failed); }
  }

  /** A storage that reads to the end or fails never leaves the pipeline hanging. */
  lemma NeverStuck(writes: seq<Bytes>, es: seq<Event>, failed: bool)
    requires forall w | w in writes :: w != []
    requires IsRun(Init(writes), es, failed) && WellBehaved(Init(writes), es, failed)
    ensures !Stuck(After(Init(writes), es, failed))
  {
    RunInv(Init(writes), es, writes, failed);
    EndSeen(Init(writes), es, failed);
    StuckIffReturnedEarly(After(Init(writes), es, failed), writes, failed);
  }

  /** From wherever it stands, a storage can read all that is still to be written and succeed. */
  lemma {:induction false} CanReadAll(s: State, failed: bool, reported: int) returns (es: seq<Event>)
    requires s.cons == Reading && s.prod.Writing? && !s.sawEnd && forall w | w in s.prod.rest :: w != []
    ensures IsRun(s, es, failed) && WellBehaved(s, es, failed)
    ensures After(s, es, failed) == State(Finished(failed), Returned(true, reported), s.read + Flat(s.prod.rest), true)
    decreases |s.prod.rest|
  {
    var rest := s.prod.rest;
    if rest == [] {
      var s1 := Step(s, ProducerEnds, failed);
      var s2 := Step(s1, SeeEnd, failed);
      var last := StorageReturns(true, reported);
      es := [ProducerEnds, SeeEnd, last];
      assert es[1..] == [SeeEnd, last] && es[1..][1..] == [last] && es[1..][1..][1..] == [];
      assert IsRun(Step(s2, last, failed), [], failed) && IsRun(s2, [last], failed) && IsRun(s1, [SeeEnd, last], failed);
      assert WellBehaved(s2, [last], failed) && WellBehaved(s1, [SeeEnd, last], failed);
      assert After(s2, [last], failed) == Step(s2, last, failed);
      assert s.read + Flat(rest) == s.read;
    } else {
      assert rest[0] in rest;
      forall w | w in rest[1..] ensures w in rest { }
      var e := Read(|rest[0]|);
      var s1 := Step(s, e, failed);
      assert s1.prod.rest == rest[1..] && s1.read == s.read + rest[0];
      var more := CanReadAll(s1, failed, reported);
      es := [e] + more;
      assert es[1..] == more;
      assert s.read + rest[0] + Flat(rest[1..]) == s.read + Flat(rest);
    }
  }

  // ---- the joined outcome ---------------------------------------------------------------

  datatype Outcome = Stored(size: int, checksum: string) | ConnectorError | DumperError | StorageError | ProducerError

  /** RunPipeline's switch: a storage error first, then the producer's, then the result. */
  function Result(s: State, sum: Bytes -> string): Outcome
    requires Final(s)
  {
    if !s.cons.ok then StorageError
    else if s.prod.failed then ProducerError
    else Stored(s.cons.reported, sum(s.read))
  }

  /** A result is returned exactly when neither side failed; its checksum is then of every byte the
      producer wrote, and its size is right exactly if the storage reported what it was given.  What the
      storage was given is always a prefix of what was written. */
  lemma ResultMeaning(writes: seq<Bytes>, es: seq<Event>, failed: bool, sum: Bytes -> string)
    requires forall w | w in writes :: w != []
    requires IsRun(Init(writes), es, failed) && Final(After(Init(writes), es, failed))
    ensures var s := After(Init(writes), es, failed); var r := Result(s, sum);
            (r.Stored? <==> s.cons.ok && !failed)
            && (r.Stored? ==> s.read == Concat(writes) && r.checksum == sum(Concat(writes))
                              && (r.size == |Concat(writes)| <==> s.cons.reported == |s.read|))
            && s.read <= Concat(writes)
  {
    RunInv(Init(writes), es, writes, failed);
    FlatIsConcat(writes);
  }

  /** The storage's and the scheduler's part for one list of writes: a run that ends. */
  ghost predicate Ends(writes: seq<Bytes>, failed: bool, es: seq<Event>) {
    (forall w | w in writes :: w != []) ==>
      IsRun(Init(writes), es, failed) && Final(After(Init(writes), es, failed))
  }

  /** RunPipeline end to end: whatever the writers, the dump and the storage do, a result is returned
      exactly when everything opened, the dump was clean, everything goes through the layers and the storage
      took it; the storage then holds enc_n(... enc_1(dump)), checksummed as such, and decoding that in
      reverse gives the dump back. */
  method RunPipeline(connects: bool, dumps: bool, chain: Chain, dump: Dump, storage: (seq<Bytes>, bool) -> seq<Event>,
                     sum: Bytes -> string, ghost encs: seq<Bytes -> Bytes>, ghost decs: seq<Bytes -> Bytes>)
    returns (r: Outcome, end: State)
    requires chain.Shape() && chain.hist == seq(|chain.codecs|, i => []) && chain.pipe == []
    requires forall writes, failed :: Ends(writes, failed, storage(writes, failed))
    modifies chain
    ensures r.Stored? <==> connects && dumps && (forall i | 0 <= i < |chain.codecs| :: chain.codecs[i].opens)
                           && dump.clean && Completes(chain.codecs, chain.accepts, 0, NonEmpty(dump.chunks))
                           && Accepted(end.cons)
    ensures Obliging(chain.codecs, chain.accepts) ==>
              (r.Stored? <==> connects && dumps && (forall i | 0 <= i < |chain.codecs| :: chain.codecs[i].opens)
                              && dump.clean && Accepted(end.cons))
    ensures if !connects then r == ConnectorError else if !dumps then r == DumperError
            else if !Accepted(end.cons) then r == StorageError else r.Stored? || r == ProducerError
    ensures r.Stored? ==> forall n: nat | n < |chain.pipe| :: chain.accepts(n)
    ensures r.Stored? && AllEncode(chain.codecs, encs) ==>
              end.read == EncodeAll(encs, Concat(dump.chunks)) && r == Stored(end.cons.reported, sum(end.read))
    ensures r.Stored? && AllEncode(chain.codecs, encs) && |decs| == |encs|
            && (forall i, x | 0 <= i < |encs| :: decs[i](encs[i](x)) == x) ==>
              DecodeAll(decs, end.read) == Concat(dump.chunks)
  {
    end := Init([]);
    if !connects { return ConnectorError, end; }
    if !dumps { return DumperError, end; }
    var fed := chain.Feed(dump, encs);
    var es := storage(chain.pipe, !fed);
    assert Ends(chain.pipe, !fed, es);
    end := After(Init(chain.pipe), es, !fed);
    r := Result(end, sum);
    ResultMeaning(chain.pipe, es, !fed, sum);
    if r.Stored? && AllEncode(chain.codecs, encs) && |decs| == |encs|
       && forall i, x | 0 <= i < |encs| :: decs[i](encs[i](x)) == x {
      DecodeRestores(encs, decs, Concat(dump.chunks));
    }
  }
}
