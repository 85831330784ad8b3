/** From the command line to the printed lines: what the compiler, the device and the two pipelines owe each other,
    put together. */
module EndToEnd {
  import opened Bits
  import opened Records
  import opened Filter
  import opened Options
  import opened Core
  import opened Kernel
  import opened Pushdown
  import Compiler
  import Control
  import Dev = Device
  import Linkea
  import Ring
  import RingScan

  /** A device call that carries the filter as the kmdt backend sends it. */
  function Install(o: Opts): Control.Event {
    Control.SetFilter(Control.Request(Control.FILTER_MAGIC, Control.WIRE_VERSION, Control.FILTER_SIZE,
                                      if o.emitUnknown then Control.EMIT_UNKNOWN else 0, o.filter), true, true, true)
  }

  lemma FlagRoundTrip(b: bool)
    ensures Has(if b then Control.EMIT_UNKNOWN else 0, Control.EMIT_UNKNOWN) == b
  {
  }

  lemma InstallSucceeds(osd: Control.Osd, o: Opts)
    requires Compiled(o.filter) && o.filter.needs <= osd.canSupply
    requires Control.AttrsWithin(o.filter, o.filter.n, osd.attrMask)
    ensures Control.Step(osd, Control.OPENED, Install(o)).0 == Control.State(false, Some(o.filter), o.emitUnknown)
  {
    FlagRoundTrip(o.emitUnknown);
  }

  /** A compiled filter is installed whenever the OSD can supply what it needs and sees the bits it tests, and then
      the scan runs with it and with the caller's choice about undecided objects, whatever is called later. */
  lemma InstalledFilterRuns(osd: Control.Osd, o: Opts, later: seq<Control.Event>)
    requires Compiled(o.filter) && o.filter.needs <= osd.canSupply
    requires Control.AttrsWithin(o.filter, o.filter.n, osd.attrMask)
    ensures var es := [Install(o), Control.Read(1, true)];
            Control.After(osd, Control.OPENED, es + later) == Control.State(true, Some(o.filter), o.emitUnknown)
  {
    var es := [Install(o), Control.Read(1, true)];
    assert es[..1] == [Install(o)] && es[..1][..0] == [];
    InstallSucceeds(osd, o);
    assert Control.After(osd, Control.OPENED, es[..1]) == Control.Step(osd, Control.OPENED, Install(o)).0;
    Control.ScanKeepsItsFilter(osd, es, later);
  }

  /** Any command line that compiles, whatever its options and texts, gives a filter for which pushing it down and
      filtering at the device print the same lines, over every target reported faithfully. */
  lemma CommandLineIsTransparent(args: seq<Compiler.Arg>, names: Names, o: Opts, xs: seq<Dev.Object>, ss: seq<Source>,
                                 now: int, glob: Linkea.Glob)
    requires Compiler.Compiles(args, names) && now < TWO64
    requires o.filter == Compiler.After(Compiler.Typed(args, names)) && |xs| == |ss|
    requires forall i :: 0 <= i < |xs| ==>
               Reports(xs[i], ss[i], o.filter.needs) && WireFaithful(xs[i].lma, ss[i].dor.fid)
    ensures Valid(o.filter)
    ensures SameLines(Collect(ShowWire(o, now, glob), Stream(KernelJudge(o, now, glob), o.emitUnknown, ss)),
                      Collect(Dev.ShowObject(o, now, glob), xs))
  {
    Compiler.AnyCommandLine(args, names);
    PushdownTransparent(o, xs, ss, now, glob);
  }

  // ------------------------------------------------------------------
  // Through the ring

  /** The pushed-down scan of a target: its options, and the iterator over it. */
  function ScanOf(o: Opts, it: Iterator, now: int, glob: Linkea.Glob): RingScan.Scan
    requires Valid(o.filter) && now < TWO64
  {
    RingScan.Scan(KernelJudge(o, now, glob), o.emitUnknown, it)
  }

  /** The iterator's positions are the target's objects, each reported faithfully where it can be read at all. */
  predicate Faithful(o: Opts, ps: seq<Position>, xs: seq<Dev.Object>)
    requires Valid(o.filter)
  {
    |ps| == |xs| && forall i :: 0 <= i < |ps| && ps[i].At? ==> Agreeing(o, xs[i], ps[i].s)
  }

  /** The objects at the positions that can be read. */
  function Returned(ps: seq<Position>, xs: seq<Dev.Object>): (ys: seq<Dev.Object>)
    requires |ps| == |xs|
    ensures |ys| == |Sources(ps)|
  {
    if ps == [] then []
    else
      var k := |ps| - 1;
      Returned(ps[..k], xs[..k]) + if ps[k].At? then [xs[k]] else []
  }

  lemma {:induction false} ReturnedAgree(o: Opts, ps: seq<Position>, xs: seq<Dev.Object>)
    requires Valid(o.filter) && Faithful(o, ps, xs)
    ensures AllAgreeing(o, Returned(ps, xs), Sources(ps))
    decreases |ps|
  {
    if ps != [] {
      var k := |ps| - 1;
      ReturnedAgree(o, ps[..k], xs[..k]);
    }
  }

  lemma {:induction false} ReturnedGrows(ps: seq<Position>, xs: seq<Dev.Object>, k: nat)
    requires |ps| == |xs| && k <= |ps|
    ensures Returned(ps[..k], xs[..k]) <= Returned(ps, xs)
    decreases |ps|
  {
    var m := |ps| - 1;
    if k == |ps| {
      assert ps[..k] == ps && xs[..k] == xs;
    } else {
      assert ps[..m][..k] == ps[..k] && xs[..m][..k] == xs[..k];
      ReturnedGrows(ps[..m], xs[..m], k);
    }
  }

  lemma {:induction false} AllReturned(ps: seq<Position>, xs: seq<Dev.Object>)
    requires |ps| == |xs| == |Sources(ps)|
    ensures Returned(ps, xs) == xs
    decreases |ps|
  {
    if ps != [] {
      var k := |ps| - 1;
      AllReturned(ps[..k], xs[..k]);
    }
  }

  /** The objects a walk over the whole table comes by. */
  function Covered(it: Iterator, xs: seq<Dev.Object>): seq<Dev.Object>
    requires |it.table| == |xs|
  {
    Returned(it.table[..Reach(it)], xs[..Reach(it)])
  }

  /** Those are all of the target exactly when no next() fails on the way and no rec(). */
  lemma CoveredExactlyWhen(it: Iterator, xs: seq<Dev.Object>)
    requires |it.table| == |xs|
    ensures Covered(it, xs) == xs <==> Complete(it)
  {
    CompleteReturnsAll(it);
    if Complete(it) {
      assert it.table[..Reach(it)] == it.table && xs[..Reach(it)] == xs;
      AllReturned(it.table, xs);
    }
  }

  /** What has passed the filter up to a position prints what the device scan prints for the objects there. */
  lemma UptoIsTransparent(o: Opts, it: Iterator, xs: seq<Dev.Object>, pos: nat, now: int, glob: Linkea.Glob)
    requires Valid(o.filter) && now < TWO64 && Faithful(o, it.table, xs) && pos <= |it.table|
    ensures SameLines(Collect(ShowWire(o, now, glob), RingScan.Upto(ScanOf(o, it, now, glob), pos)),
                      Collect(Dev.ShowObject(o, now, glob), Returned(it.table[..pos], xs[..pos])))
  {
    ReturnedAgree(o, it.table[..pos], xs[..pos]);
    PushdownTransparent(o, Returned(it.table[..pos], xs[..pos]), Sources(it.table[..pos]), now, glob);
  }

  lemma FrontIsSame(a: seq<Line>, b: seq<Line>, front: seq<Line>)
    requires SameLines(a, b) && front <= a
    ensures |front| <= |b| && SameLines(front, b[..|front|])
  {
  }

  lemma FrontOfLines<T>(show: T -> Option<Line>, ws: seq<T>, front: seq<T>)
    requires front <= ws
    ensures Collect(show, front) <= Collect(show, ws)
  {
    assert ws[..|front|] == front;
    CollectGrow(show, ws, |front|);
  }

  /** What has been printed is the first part of what the device scan prints. */
  predicate FirstLines(lines: seq<Line>, all: seq<Line>) {
    |lines| <= |all| && SameLines(lines, all[..|lines|])
  }

  lemma FirstOfMore(lines: seq<Line>, part: seq<Line>, all: seq<Line>)
    requires FirstLines(lines, part) && part <= all
    ensures FirstLines(lines, all)
  {
  }

  /** At any moment of any interleaving of producer and reader, in either order of the reader's loads, the lines printed
      from what was read so far are the first of the lines the device scan prints for the objects that can be read. */
  lemma EveryReadIsTransparent(c: Ring.Config, ts: seq<RingScan.Turn>, s: RingScan.State, o: Opts, it: Iterator,
                               xs: seq<Dev.Object>, now: int, glob: Linkea.Glob)
    requires Valid(o.filter) && now < TWO64 && Faithful(o, it.table, xs)
    requires Ring.Sized(c) && RingScan.Reaches(c, ScanOf(o, it, now, glob), ts, s) && !s.ring.closed
    ensures FirstLines(Collect(ShowWire(o, now, glob), s.ring.delivered),
                       Collect(Dev.ShowObject(o, now, glob), Returned(it.table, xs)))
  {
    var show, showX := ShowWire(o, now, glob), Dev.ShowObject(o, now, glob);
    RingScan.DeliveredIsFront(c, ScanOf(o, it, now, glob), ts, s);
    var ws, some := RingScan.Upto(ScanOf(o, it, now, glob), s.pos), Returned(it.table[..s.pos], xs[..s.pos]);
    FrontOfLines(show, ws, s.ring.delivered);
    UptoIsTransparent(o, it, xs, s.pos, now, glob);
    FrontIsSame(Collect(show, ws), Collect(showX, some), Collect(show, s.ring.delivered));
    ReturnedGrows(it.table, xs, s.pos);
    FrontOfLines(showX, Returned(it.table, xs), some);
    FirstOfMore(Collect(show, s.ring.delivered), Collect(showX, some), Collect(showX, Returned(it.table, xs)));
  }

  /** A clean end of file, the first with `done` sampled first and the second in either order, means that the lines
      printed are exactly the device scan's for the objects the walk comes by.  Those are all of the target exactly when
      no next() and no rec() fails on the way: neither is reported. */
  lemma CleanEofCoversExactlyWhen(c: Ring.Config, ts: seq<RingScan.Turn>, s: RingScan.State, o: Opts, it: Iterator,
                                  xs: seq<Dev.Object>, now: int, glob: Linkea.Glob)
    requires Valid(o.filter) && now < TWO64 && Faithful(o, it.table, xs)
    requires Ring.Sized(c) && RingScan.Reaches(c, ScanOf(o, it, now, glob), ts, s) && !s.ring.closed
    requires RingScan.TrueEof(c, s.ring) && s.ring.ret == Ring.Eof(0)
    ensures SameLines(Collect(ShowWire(o, now, glob), s.ring.delivered),
                      Collect(Dev.ShowObject(o, now, glob), Covered(it, xs)))
    ensures Covered(it, xs) == xs <==> Complete(it)
  {
    RingScan.CleanEofDelivers(c, ScanOf(o, it, now, glob), ts, s);
    UptoIsTransparent(o, it, xs, Reach(it), now, glob);
    CoveredExactlyWhen(it, xs);
  }

  /** When nothing goes wrong the end of file is clean, and the scan has printed what the device scan prints. */
  lemma EofIsTransparent(c: Ring.Config, ts: seq<RingScan.Turn>, s: RingScan.State, o: Opts, it: Iterator,
                         xs: seq<Dev.Object>, now: int, glob: Linkea.Glob)
    requires Valid(o.filter) && now < TWO64 && Faithful(o, it.table, xs) && Complete(it) && it.fault != Some(0)
    requires Ring.Sized(c) && RingScan.Reaches(c, ScanOf(o, it, now, glob), ts, s) && !s.ring.closed
    requires RingScan.TrueEof(c, s.ring)
    ensures s.ring.ret == Ring.Eof(0)
    ensures SameLines(Collect(ShowWire(o, now, glob), s.ring.delivered), Collect(Dev.ShowObject(o, now, glob), xs))
  {
    var sc := ScanOf(o, it, now, glob);
    RingScan.EofErrorExactlyWhen(c, sc, ts, s);
    if s.pos < Reach(it) {
      ReachIsFirstStop(it, s.pos);
      NeverUnserved(o, xs[s.pos], it.table[s.pos].s, now, glob);
      assert false;
    }
    CleanEofCoversExactlyWhen(c, ts, s, o, it, xs, now, glob);
  }
}
