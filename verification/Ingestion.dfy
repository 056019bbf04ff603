/** The tee that copies an upstream body into a temporary file, and what closing it decides. */
module Ingestion {
  import opened Http

  /** How a read of the source ends: more to come, end of file, or an error. */
  datatype End = More | Eof | Failed

  /** One Read: n bytes handed out, how it ended, how many of them the copy took, and whether the write failed. */
  datatype Step = Step(n: nat, end: End, written: nat, writeFails: bool)

  /** source is everything upstream would deliver; pos is how far it has been read. */
  datatype Tee = Tee(source: Bytes, pos: nat, copied: Bytes, readFailed: bool, writeFailed: bool, total: nat)

  function Open(source: Bytes): Tee {
    Tee(source, 0, [], false, false, 0)
  }

  predicate HasError(t: Tee) {
    t.readFailed || t.writeFailed
  }

  /** A reader hands out what is left, may come up short, and reports end of file only at the end; a writer that
      takes less than all reports an error. */
  predicate Possible(t: Tee, s: Step) {
    && t.pos + s.n <= |t.source|
    && s.written <= s.n && (s.written < s.n ==> s.writeFails) && (s.writeFails ==> s.n > 0)
    && (s.end.Eof? ==> t.pos + s.n == |t.source|)
  }

  function Read(t: Tee, s: Step): Tee
    requires Possible(t, s)
  {
    if HasError(t) then t.(pos := t.pos + s.n, total := t.total + s.n)
    else
      t.(pos := t.pos + s.n,
         copied := t.copied + t.source[t.pos..t.pos + s.written],
         readFailed := s.end.Failed?,
         writeFailed := s.writeFails,
         total := t.total + s.n)
  }

  predicate AllPossible(t: Tee, steps: seq<Step>)
    decreases |steps|
  {
    steps == [] || (Possible(t, steps[0]) && AllPossible(Read(t, steps[0]), steps[1..]))
  }

  function Reads(t: Tee, steps: seq<Step>): Tee
    requires AllPossible(t, steps)
    decreases |steps|
  {
    if steps == [] then t else Reads(Read(t, steps[0]), steps[1..])
  }

  /** The guards of the close callback, up to the rename. */
  predicate Accepted(t: Tee, quotaHigh: nat, probe: Step) {
    t.total <= quotaHigh / 2 && !HasError(t) && probe.n == 0 && probe.end.Eof?
  }

  /** Until something fails, the copy is exactly what has been read. */
  ghost predicate Intact(t: Tee) {
    t.pos <= |t.source| && t.total == t.pos && (!HasError(t) ==> t.copied == t.source[..t.pos])
  }

  predicate Clean(s: Step) {
    !s.end.Failed? && !s.writeFails
  }

  lemma ReadKeepsIntact(t: Tee, s: Step)
    requires Intact(t) && Possible(t, s)
    ensures Intact(Read(t, s))
    ensures HasError(Read(t, s)) <==> HasError(t) || !Clean(s)
  {
    assert s.written == s.n ==> t.source[..t.pos] + t.source[t.pos..t.pos + s.n] == t.source[..t.pos + s.n];
  }

  lemma {:induction false} ReadsKeepIntact(t: Tee, steps: seq<Step>)
    requires Intact(t) && AllPossible(t, steps)
    ensures Intact(Reads(t, steps)) && Reads(t, steps).source == t.source
    ensures HasError(Reads(t, steps)) <==> HasError(t) || exists i :: 0 <= i < |steps| && !Clean(steps[i])
    decreases |steps|
  {
    if steps != [] {
      ReadKeepsIntact(t, steps[0]);
      ReadsKeepIntact(Read(t, steps[0]), steps[1..]);
      assert steps == [steps[0]] + steps[1..];
      assert forall i :: 0 <= i < |steps[1..]| ==> steps[1..][i] == steps[i + 1];
      if i :| 0 <= i < |steps| && !Clean(steps[i]) {
        assert i > 0 ==> !Clean(steps[1..][i - 1]);
      }
    }
  }

  /** All or nothing, for every sequence of reads: the copy is accepted exactly when no read or write failed,
      the source was consumed to its end, the probe confirms it and the size is allowed; and then it is the source. */
  lemma AllOrNothing(source: Bytes, steps: seq<Step>, quotaHigh: nat, probe: Step)
    requires AllPossible(Open(source), steps)
    requires Possible(Reads(Open(source), steps), probe)
    ensures var t := Reads(Open(source), steps);
            && (Accepted(t, quotaHigh, probe) <==>
                  && (forall i :: 0 <= i < |steps| ==> Clean(steps[i]))
                  && t.pos == |source|
                  && probe.n == 0 && probe.end.Eof?
                  && |source| <= quotaHigh / 2)
            && (Accepted(t, quotaHigh, probe) ==> t.copied == source)
  {
    hide Reads, AllPossible, Clean;
    ReadsKeepIntact(Open(source), steps);
    var t := Reads(Open(source), steps);
    assert t.source[..|t.source|] == t.source;
  }
}
