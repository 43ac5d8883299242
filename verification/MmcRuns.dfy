/** Sequences of requests: what is stored, what is read back, and what a timeout costs. */
module MmcRuns {
  import opened Common
  import opened SpiWire
  import opened MmcPort
  import opened MmcBlocks
  import opened MmcCapacity
  import opened SdCard
  import opened MmcTransfer
  import opened MmcRequest

  /** Blocks `from` to `end` of some bytes, laid down as `Laid` says. */
  datatype Piece = Piece(first: nat, buffer: seq<Byte>, from: nat, end: nat)
  {
    predicate Covers(k: nat) { first + from <= k < first + end }
  }

  type Stored = p: Piece | p.from <= p.end && p.end * BLOCK <= |p.buffer| witness Piece(0, [], 0, 0)

  /** The disk after some stores. */
  function Apply(disk: Disk, log: seq<Stored>): (r: Disk)
    ensures |r| == |disk|
    decreases |log|
  {
    if log == [] then disk else
    var w := log[|log| - 1]; Laid(Apply(disk, log[..|log| - 1]), w.first, w.buffer, w.from, w.end)
  }

  /** A sector nothing covers after the j-th store holds what that one laid there, or what it held at the beginning. */
  lemma {:induction false} LastStored(disk: Disk, log: seq<Stored>, j: int, k: nat)
    requires k < |disk| && -1 <= j < |log| && (j >= 0 ==> log[j].Covers(k))
    requires forall i :: j < i < |log| ==> !log[i].Covers(k)
    ensures Apply(disk, log)[k] == if j == -1 then disk[k] else BlockAt(log[j].buffer, k - log[j].first)
    decreases |log|
  {
    if log != [] {
      var front, w := log[..|log| - 1], log[|log| - 1];
      LaidAt(Apply(disk, front), w.first, w.buffer, w.from, w.end, k);
      if j < |front| { LastStored(disk, front, j, k); }
    }
  }

  /** What a request has stored. */
  function StoredBy(admitted: bool, r: Request, o: Report): Stored
    requires r.nr * BLOCK <= |o.before| && o.lost + o.moved <= r.nr
  {
    if admitted && r.cmd == Write then Piece(r.First(), o.before, o.lost, o.lost + o.moved)
    else Piece(r.First(), o.before, 0, 0)
  }

  lemma MovesFit(t: Temper, admitted: bool, r: Request, o: Report, s: State, s': State)
    requires Fulfilled(t, admitted, r, o, s, s') && (admitted ==> r.cmd != Other)
    ensures r.nr * BLOCK <= |o.before| && o.lost + o.moved <= r.nr
  {
  }

  lemma StoresThat(t: Temper, admitted: bool, r: Request, o: Report, s: State, s': State)
    requires Fulfilled(t, admitted, r, o, s, s') && (admitted ==> r.cmd != Other) && Quiet(s)
    ensures o.lost + o.moved <= r.nr && Quiet(s')
    ensures var w := StoredBy(admitted, r, o); s'.disk == Laid(s.disk, w.first, w.buffer, w.from, w.end)
  {
    MovesFit(t, admitted, r, o, s, s');
    if admitted && r.cmd == Write {
      WriteStores(t, s, r.First(), r.nr, o.before, o.lost, o.moved, o.slow, s');
    } else if admitted {
      ReadKeeps(t, s, r.First(), r.nr, o.moved, s');
    }
  }

  // ---------------------------------------------------------------- runs of requests

  type Memory = map<array<Byte>, seq<Byte>>

  /** A run: the card before and after each request, what became of it, and the buffers before and after it. */
  datatype Run = Run(states: seq<State>, reports: seq<Report>, memory: seq<Memory>)

  /** Every request of the run is fulfilled from where the one before has left the card and the buffers; a request that
      times out leaves the card busy for the next one. */
  ghost predicate Legal(t: Temper, g: Geometry, mediaDetect: bool, rs: seq<Request>, run: Run) {
    && |run.states| == |run.memory| == |rs| + 1 && |run.reports| == |rs| && Quiet(run.states[0])
    && forall i {:trigger LegalStep(t, Admitted(g, mediaDetect, rs[i]), rs[i], run, i)} :: 0 <= i < |rs| ==>
         LegalStep(t, Admitted(g, mediaDetect, rs[i]), rs[i], run, i)
  }

  ghost predicate LegalStep(t: Temper, admitted: bool, r: Request, run: Run, i: nat)
    requires i + 1 < |run.states| == |run.memory| && i < |run.reports|
  {
    && Fulfilled(t, admitted, r, run.reports[i], run.states[i], run.states[i + 1])
    && r.buffer in run.memory[i] && run.memory[i][r.buffer] == run.reports[i].before
    && run.memory[i + 1] == run.memory[i][r.buffer := run.reports[i].after]
  }

  function Contents(buffers: set<array<Byte>>): Memory
    reads buffers
  {
    map b | b in buffers :: b[..]
  }

  /** Over every sequence of requests to any card, the driver and the card are the sector array that `Fulfilled`
      describes. */
  method ServeAll(p: Port, opt: nat, g: Geometry, mediaDetect: bool, rs: seq<Request>, ghost buffers: set<array<Byte>>,
                  ghost t: Temper, ghost v: View, ghost s: State)
    returns (codes: seq<nat>, ghost run: Run)
    requires Attached(p, t, v, s)
    requires forall i :: 0 <= i < |rs| ==> rs[i].Fits() && rs[i].buffer in buffers
    requires g.hardsect == BLOCK && g.nrSects * BLOCK < WORD
    modifies p`padat, p`pbdat, p`wire, buffers
    ensures Legal(t, g, mediaDetect, rs, run)
    ensures run.states[0] == s && Attached(p, t, v, run.states[|rs|])
    ensures run.memory[0] == old(Contents(buffers)) && run.memory[|rs|] == Contents(buffers)
    ensures |codes| == |rs| && forall i :: 0 <= i < |rs| ==> codes[i] == run.reports[i].code
  {
    codes, run := [], Run([s], [], [Contents(buffers)]);
    for i := 0 to |rs|
      invariant |codes| == i && Served(p, g, mediaDetect, rs[..i], buffers, t, v, run)
      invariant run.states[0] == s && run.memory[0] == old(Contents(buffers))
      invariant forall k :: 0 <= k < i ==> codes[k] == run.reports[k].code
    {
      var code;
      code, run := ServeNext(p, opt, g, mediaDetect, rs, i, buffers, t, v, run);
      codes := codes + [code];
    }
    assert rs[..|rs|] == rs;
  }

  /** Where a run of requests has led so far. */
  ghost predicate Served(p: Port, g: Geometry, mediaDetect: bool, rs: seq<Request>, buffers: set<array<Byte>>,
                         t: Temper, v: View, run: Run)
    reads p, buffers
  {
    Legal(t, g, mediaDetect, rs, run) && Attached(p, t, v, run.states[|rs|]) && run.memory[|rs|] == Contents(buffers)
  }

  method ServeNext(p: Port, opt: nat, g: Geometry, mediaDetect: bool, rs: seq<Request>, i: nat,
                   ghost buffers: set<array<Byte>>, ghost t: Temper, ghost v: View, ghost run: Run)
    returns (code: nat, ghost run': Run)
    requires i < |rs| && rs[i].Fits() && rs[i].buffer in buffers
    requires g.hardsect == BLOCK && g.nrSects * BLOCK < WORD
    requires Served(p, g, mediaDetect, rs[..i], buffers, t, v, run)
    modifies p`padat, p`pbdat, p`wire, rs[i].buffer
    ensures Served(p, g, mediaDetect, rs[..i + 1], buffers, t, v, run')
    ensures run'.states[..i + 1] == run.states && run'.reports[..i] == run.reports && run'.memory[..i + 1] == run.memory
    ensures code == run'.reports[i].code
  {
    ghost var o, s';
    code, o, s' := HandleRequest(p, opt, g, mediaDetect, rs[i], t, v, run.states[i]);
    ghost var m := run.memory[i][rs[i].buffer := o.after];
    assert m == Contents(buffers);
    OneMore(t, g, mediaDetect, rs, i, run, o, s', m);
    run' := Run(run.states + [s'], run.reports + [o], run.memory + [m]);
  }

  lemma OneMore(t: Temper, g: Geometry, mediaDetect: bool, rs: seq<Request>, i: nat, run: Run, o: Report, s': State,
                m: Memory)
    requires i < |rs| && Legal(t, g, mediaDetect, rs[..i], run) && rs[i].buffer in run.memory[i]
    requires Fulfilled(t, Admitted(g, mediaDetect, rs[i]), rs[i], o, run.states[i], s')
    requires run.memory[i][rs[i].buffer] == o.before && m == run.memory[i][rs[i].buffer := o.after]
    ensures Legal(t, g, mediaDetect, rs[..i + 1], Run(run.states + [s'], run.reports + [o], run.memory + [m]))
  {
    var now, rs' := Run(run.states + [s'], run.reports + [o], run.memory + [m]), rs[..i + 1];
    forall k | 0 <= k <= i ensures LegalStep(t, Admitted(g, mediaDetect, rs'[k]), rs'[k], now, k) {
      if k < i {
        assert rs'[k] == rs[..i][k];
        assert LegalStep(t, Admitted(g, mediaDetect, rs[..i][k]), rs[..i][k], run, k);
        SameStep(t, Admitted(g, mediaDetect, rs'[k]), rs'[k], run, now, k);
      }
    }
  }

  lemma SameStep(t: Temper, admitted: bool, r: Request, run: Run, now: Run, k: nat)
    requires k + 1 < |run.states| == |run.memory| <= |now.states| == |now.memory|
    requires k < |run.reports| <= |now.reports|
    requires now.states[..|run.states|] == run.states && now.memory[..|run.memory|] == run.memory
    requires now.reports[..|run.reports|] == run.reports && LegalStep(t, admitted, r, run, k)
    ensures LegalStep(t, admitted, r, now, k)
  {
    assert now.states[k] == run.states[k] && now.states[k + 1] == run.states[k + 1];
    assert now.memory[k] == run.memory[k] && now.memory[k + 1] == run.memory[k + 1];
    assert now.reports[k] == run.reports[k];
  }

  // ---------------------------------------------------------------- what a run stores and reads

  /** What the requests of a run have stored, in order. */
  function StoreLog(g: Geometry, mediaDetect: bool, rs: seq<Request>, reports: seq<Report>): seq<Stored>
    requires Fitting(rs, reports)
  {
    seq(|rs|, i requires 0 <= i < |rs| => StoredBy(Admitted(g, mediaDetect, rs[i]), rs[i], reports[i]))
  }

  predicate Fitting(rs: seq<Request>, reports: seq<Report>) {
    |rs| == |reports|
    && forall i :: 0 <= i < |rs| ==>
         rs[i].nr * BLOCK <= |reports[i].before| && reports[i].lost + reports[i].moved <= rs[i].nr
  }

  lemma LegalFits(t: Temper, g: Geometry, mediaDetect: bool, rs: seq<Request>, run: Run)
    requires Legal(t, g, mediaDetect, rs, run)
    ensures Fitting(rs, run.reports)
  {
    forall i | 0 <= i < |rs|
      ensures rs[i].nr * BLOCK <= |run.reports[i].before| && run.reports[i].lost + run.reports[i].moved <= rs[i].nr
    {
      assert LegalStep(t, Admitted(g, mediaDetect, rs[i]), rs[i], run, i);
      MovesFit(t, Admitted(g, mediaDetect, rs[i]), rs[i], run.reports[i], run.states[i], run.states[i + 1]);
    }
  }

  /** At any point of a run the disk is what the requests so far have stored on the first one. */
  lemma {:induction false} DiskOfRun(t: Temper, g: Geometry, mediaDetect: bool, rs: seq<Request>, run: Run, n: nat)
    requires Legal(t, g, mediaDetect, rs, run) && n <= |rs|
    ensures Fitting(rs, run.reports) && Quiet(run.states[n]) && |run.states[n].disk| == |run.states[0].disk|
    ensures run.states[n].disk == Apply(run.states[0].disk, StoreLog(g, mediaDetect, rs, run.reports)[..n])
  {
    LegalFits(t, g, mediaDetect, rs, run);
    if n > 0 {
      DiskOfRun(t, g, mediaDetect, rs, run, n - 1);
      var log := StoreLog(g, mediaDetect, rs, run.reports);
      assert log[..n][..n - 1] == log[..n - 1] && log[..n][n - 1] == log[n - 1];
      assert LegalStep(t, Admitted(g, mediaDetect, rs[n - 1]), rs[n - 1], run, n - 1);
      StoresThat(t, Admitted(g, mediaDetect, rs[n - 1]), rs[n - 1], run.reports[n - 1], run.states[n - 1],
                 run.states[n]);
    }
  }

  /** Request j of a run has stored sector k. */
  ghost predicate StoresIn(g: Geometry, mediaDetect: bool, rs: seq<Request>, run: Run, j: nat, k: nat)
    requires j < |rs| && j < |run.reports|
  {
    var r, o := rs[j], run.reports[j];
    Admitted(g, mediaDetect, r) && r.cmd == Write && r.First() + o.lost <= k < r.First() + o.lost + o.moved
  }

  /** No request of a run has stored sector k between the j-th and the n-th. */
  ghost predicate LeftAlone(g: Geometry, mediaDetect: bool, rs: seq<Request>, run: Run, j: int, n: nat, k: nat)
    requires n <= |rs| && n <= |run.reports|
  {
    forall i: nat :: j < i < n ==> !StoresIn(g, mediaDetect, rs, run, i, k)
  }

  /** A sector of a run that no request has stored after the j-th, up to the n-th, holds what that one stored there, or
      what it held at the beginning. */
  lemma {:induction false} SectorOfRun(t: Temper, g: Geometry, mediaDetect: bool, rs: seq<Request>, run: Run,
                                       j: int, n: nat, k: nat)
    requires Legal(t, g, mediaDetect, rs, run) && n <= |rs| && k < |run.states[0].disk| && -1 <= j < n
    requires j >= 0 ==> StoresIn(g, mediaDetect, rs, run, j, k)
    requires LeftAlone(g, mediaDetect, rs, run, j, n, k)
    ensures Fitting(rs, run.reports) && |run.states[n].disk| == |run.states[0].disk|
    ensures run.states[n].disk[k] ==
      if j == -1 then run.states[0].disk[k] else BlockAt(run.reports[j].before, k - rs[j].First())
    decreases n
  {
    LegalFits(t, g, mediaDetect, rs, run);
    if n > 0 {
      DiskOfRun(t, g, mediaDetect, rs, run, n - 1);
      if j < n - 1 {
        SectorOfRun(t, g, mediaDetect, rs, run, j, n - 1, k);
        assert !StoresIn(g, mediaDetect, rs, run, n - 1, k);
      }
      assert LegalStep(t, Admitted(g, mediaDetect, rs[n - 1]), rs[n - 1], run, n - 1);
      SectorStep(t, Admitted(g, mediaDetect, rs[n - 1]), rs[n - 1], run.reports[n - 1], run.states[n - 1],
                 run.states[n], k);
    }
  }

  lemma SectorStep(t: Temper, admitted: bool, r: Request, o: Report, s: State, s': State, k: nat)
    requires Fulfilled(t, admitted, r, o, s, s') && (admitted ==> r.cmd != Other) && Quiet(s) && k < |s.disk|
    ensures o.lost + o.moved <= r.nr && r.nr * BLOCK <= |o.before| && |s'.disk| == |s.disk|
    ensures s'.disk[k] ==
      if admitted && r.cmd == Write && r.First() + o.lost <= k < r.First() + o.lost + o.moved
      then BlockAt(o.before, k - r.First()) else s.disk[k]
  {
    StoresThat(t, admitted, r, o, s, s');
    var w := StoredBy(admitted, r, o);
    LaidAt(s.disk, w.first, w.buffer, w.from, w.end, k);
  }

  lemma ReadIsOfDisk(t: Temper, admitted: bool, r: Request, o: Report, s: State, s': State, b: nat)
    requires Fulfilled(t, admitted, r, o, s, s') && r.cmd == Read && b < o.moved
    ensures admitted && o.moved <= r.nr && r.First() + b < |s.disk| && (b + 1) * BLOCK <= |o.after|
    ensures BlockAt(o.after, b) == s.disk[r.First() + b]
  {
  }

  /** Reads return what was written last: every block a read of a run delivers is the one that a request before it, the
      j-th, has stored last in its sector, or the sector's first contents. */
  lemma ReadsLastWritten(t: Temper, g: Geometry, mediaDetect: bool, rs: seq<Request>, run: Run, j: int, i: nat, b: nat)
    requires Legal(t, g, mediaDetect, rs, run) && i < |rs| && rs[i].cmd == Read && b < run.reports[i].moved
    requires -1 <= j < i && (j >= 0 ==> StoresIn(g, mediaDetect, rs, run, j, rs[i].First() + b))
    requires LeftAlone(g, mediaDetect, rs, run, j, i, rs[i].First() + b)
    ensures Fitting(rs, run.reports) && (b + 1) * BLOCK <= |run.reports[i].after|
    ensures rs[i].First() + b < |run.states[0].disk|
    ensures BlockAt(run.reports[i].after, b) ==
      if j == -1 then run.states[0].disk[rs[i].First() + b]
      else BlockAt(run.reports[j].before, rs[i].First() + b - rs[j].First())
  {
    DiskOfRun(t, g, mediaDetect, rs, run, i);
    assert LegalStep(t, Admitted(g, mediaDetect, rs[i]), rs[i], run, i);
    ReadIsOfDisk(t, Admitted(g, mediaDetect, rs[i]), rs[i], run.reports[i], run.states[i], run.states[i + 1], b);
    SectorOfRun(t, g, mediaDetect, rs, run, j, i, rs[i].First() + b);
  }

  /** There is always such a request, or none that stored the sector at all. */
  lemma {:induction false} LastStoreOf(g: Geometry, mediaDetect: bool, rs: seq<Request>, run: Run, n: nat, k: nat)
    returns (j: int)
    requires n <= |rs| && n <= |run.reports|
    ensures -1 <= j < n && (j >= 0 ==> StoresIn(g, mediaDetect, rs, run, j, k))
    ensures LeftAlone(g, mediaDetect, rs, run, j, n, k)
  {
    if n == 0 { return -1; }
    if StoresIn(g, mediaDetect, rs, run, n - 1, k) { return n - 1; }
    j := LastStoreOf(g, mediaDetect, rs, run, n - 1, k);
  }

  // ---------------------------------------------------------------- blocks lost

  /** Up to and including the first request that times out, none loses a block: a card found awake is left awake. */
  lemma {:induction false} AwakeUntilSlow(t: Temper, g: Geometry, mediaDetect: bool, rs: seq<Request>, run: Run, n: nat)
    requires Legal(t, g, mediaDetect, rs, run) && n <= |rs| && Awake(run.states[0])
    requires forall i: nat :: i < n ==> !run.reports[i].slow
    ensures Awake(run.states[n]) && (n < |rs| ==> run.reports[n].lost == 0)
    ensures forall i: nat :: i < n ==> run.reports[i].lost == 0
  {
    if n > 0 {
      AwakeUntilSlow(t, g, mediaDetect, rs, run, n - 1);
      assert LegalStep(t, Admitted(g, mediaDetect, rs[n - 1]), rs[n - 1], run, n - 1);
      StaysAwake(t, Admitted(g, mediaDetect, rs[n - 1]), rs[n - 1], run.reports[n - 1], run.states[n - 1],
                 run.states[n]);
    }
    if n < |rs| {
      assert LegalStep(t, Admitted(g, mediaDetect, rs[n]), rs[n], run, n);
      StaysAwake(t, Admitted(g, mediaDetect, rs[n]), rs[n], run.reports[n], run.states[n], run.states[n + 1]);
    }
  }

  /** A card that never keeps the driver waiting for too long never loses a block. */
  lemma {:induction false} PromptLosesNothing(t: Temper, g: Geometry, mediaDetect: bool, rs: seq<Request>, run: Run,
                                              n: nat)
    requires Legal(t, g, mediaDetect, rs, run) && n <= |rs| && Awake(run.states[0]) && Prompt(t)
    ensures Awake(run.states[n]) && forall i: nat :: i < n ==> run.reports[i].lost == 0 && !run.reports[i].slow
  {
    if n > 0 {
      PromptLosesNothing(t, g, mediaDetect, rs, run, n - 1);
      assert LegalStep(t, Admitted(g, mediaDetect, rs[n - 1]), rs[n - 1], run, n - 1);
      StaysAwake(t, Admitted(g, mediaDetect, rs[n - 1]), rs[n - 1], run.reports[n - 1], run.states[n - 1],
                 run.states[n]);
    }
  }
}
