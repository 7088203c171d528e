/** Convolutions whose slices run on the pool: the finished slice calls of any run give what one call gives. */
module PooledConv {
  import opened Bits
  import opened ConvSpec
  import opened Conv1D
  import opened ConvTranspose1D
  import TP = ThreadPool
  import PF = ParallelFor

  /** A pool, its earlier life, and the interleaving in which a `parallel_for` runs on it. */
  datatype PoolRun = PoolRun(slots: seq<PF.Slice>, nthreads: nat, before: seq<TP.Act<PF.Slice>>, taskCount: nat,
                             acts: seq<TP.Act<PF.Slice>>)

  function PoolOf(run: PoolRun): (s: TP.State<PF.Slice>)
    requires HasSingleBit(|run.slots|)
    ensures TP.WellFormed(s)
  {
    TP.Exec(TP.Init(run.slots, run.nthreads), run.before)
  }

  function ClientOf(run: PoolRun, total: nat): PF.Client
    requires HasSingleBit(|run.slots|)
  {
    PF.Exec(PF.Begin(PoolOf(run), total, run.taskCount), run.acts)
  }

  /** The `parallel_for` over `total` indices was called on an idle pool and has returned. */
  predicate HasReturned(run: PoolRun, total: nat)
  {
    && HasSingleBit(|run.slots|) && |run.slots| >= 2
    && PoolOf(run).producer.Idle? && ClientOf(run, total).phase.Returned?
  }

  /** Its slice calls, in the order in which they finished. */
  function CallsOf(run: PoolRun, total: nat): seq<(nat, PF.Slice)>
    requires HasReturned(run, total)
  {
    PF.Finished(ClientOf(run, total), |PoolOf(run).pushed|)
  }

  lemma CallsCover(run: PoolRun, total: nat)
    requires HasReturned(run, total)
    ensures PF.ExactCover(CallsOf(run, total), total)
  {
    PF.ReturnsWhenCovered(run.slots, run.nthreads, run.before, total, run.taskCount, run.acts);
  }

  /** Two buffers with the same rows are equal there. */
  lemma SameRows(s: seq<real>, t: seq<real>, rows: nat, width: nat, i: nat)
    requires i < rows * width && i < |s| == |t|
    requires forall r, c :: 0 <= r < rows && 0 <= c < width ==> Entry(s, 0, width, r, c) == Entry(t, 0, width, r, c)
    ensures s[i] == t[i]
  {
    if width > 0 {
      assert i == width * (i / width) + i % width;
      RowBelow(i, rows, width);
      assert Entry(s, 0, width, i / width, i % width) == Entry(t, 0, width, i / width, i % width);
    }
  }

  lemma RowBelow(i: nat, rows: nat, width: nat)
    requires width > 0 && i < rows * width
    ensures i / width < rows
  {
    if i / width >= rows {
      PF.MulMonotone(rows, i / width, width);
    }
  }

  lemma SameBuffers(s: seq<real>, t: seq<real>, before: seq<real>, rows: nat, width: nat)
    requires SameOutside(s, before, 0, rows * width) && SameOutside(t, before, 0, rows * width)
    requires forall r, c :: 0 <= r < rows && 0 <= c < width ==> Entry(s, 0, width, r, c) == Entry(t, 0, width, r, c)
    ensures s == t
  {
    forall i | 0 <= i < |s| ensures s[i] == t[i] {
      if i < rows * width { SameRows(s, t, rows, width, i); }
    }
  }

  /**
  `conv1d` sliced on the pool and `conv1d` in one call leave the same output, whatever the pool did before,
  however its threads interleave and however much workspace each of the two has.
   */
  method ConvolveBothWays(sh: Shape, x: seq<real>, w: seq<real>, b: seq<real>, y: array<real>, ws: array<real>,
                          z: array<real>, wz: array<real>, run: PoolRun)
    requires HasReturned(run, sh.oc) && y != ws && z != wz && y != z && y != wz && z != ws && y[..] == z[..]
    modifies y, ws, z, wz
    ensures y[..] == z[..]
    ensures Usable(sh, x, w, b, y.Length) ==> forall oc :: 0 <= oc < sh.oc ==> RowDone(y[..], sh, x, w, b, oc)
  {
    ghost var before := y[..];
    CallsCover(run, sh.oc);
    PF.InlineCover(sh.oc);
    Convolve(sh, x, w, b, y, ws, CallsOf(run, sh.oc));
    ghost var s := y[..];
    Convolve(sh, x, w, b, z, wz, [(0, (0, sh.oc))]);
    if Usable(sh, x, w, b, y.Length) {
      SameConv(sh, x, w, b, s, z[..], before);
    }
  }

  lemma SameConv(sh: Shape, x: seq<real>, w: seq<real>, b: seq<real>, s: seq<real>, t: seq<real>, before: seq<real>)
    requires forall oc :: 0 <= oc < sh.oc ==> RowDone(s, sh, x, w, b, oc) && RowDone(t, sh, x, w, b, oc)
    requires SameOutside(s, before, 0, sh.oc * sh.olen) && SameOutside(t, before, 0, sh.oc * sh.olen)
    ensures s == t
  {
    forall r, c | 0 <= r < sh.oc && 0 <= c < sh.olen ensures Entry(s, 0, sh.olen, r, c) == Entry(t, 0, sh.olen, r, c) {
      assert RowDone(s, sh, x, w, b, r) && RowDone(t, sh, x, w, b, r);
    }
    SameBuffers(s, t, before, sh.oc, sh.olen);
  }

  /** The same for `conv_transpose1d`. */
  method TransposeBothWays(sh: Shape, x: seq<real>, w: seq<real>, b: seq<real>, kMajor: bool, y: array<real>,
                           ws: array<real>, z: array<real>, wz: array<real>, run: PoolRun)
    requires HasReturned(run, sh.oc) && y != ws && z != wz && y != z && y != wz && z != ws && y[..] == z[..]
    modifies y, ws, z, wz
    ensures y[..] == z[..]
    ensures UsableT(sh, x, w, b, y.Length) ==> forall oc :: 0 <= oc < sh.oc ==> RowDoneT(y[..], sh, x, w, b, kMajor, oc)
  {
    ghost var before := y[..];
    CallsCover(run, sh.oc);
    PF.InlineCover(sh.oc);
    ConvolveTranspose(sh, x, w, b, kMajor, y, ws, CallsOf(run, sh.oc));
    ghost var s := y[..];
    ConvolveTranspose(sh, x, w, b, kMajor, z, wz, [(0, (0, sh.oc))]);
    if UsableT(sh, x, w, b, y.Length) {
      SameConvT(sh, x, w, b, kMajor, s, z[..], before);
    }
  }

  lemma SameConvT(sh: Shape, x: seq<real>, w: seq<real>, b: seq<real>, kMajor: bool, s: seq<real>, t: seq<real>,
                  before: seq<real>)
    requires forall oc :: 0 <= oc < sh.oc ==> RowDoneT(s, sh, x, w, b, kMajor, oc) && RowDoneT(t, sh, x, w, b, kMajor, oc)
    requires SameOutside(s, before, 0, sh.oc * sh.olen) && SameOutside(t, before, 0, sh.oc * sh.olen)
    ensures s == t
  {
    forall r, c | 0 <= r < sh.oc && 0 <= c < sh.olen ensures Entry(s, 0, sh.olen, r, c) == Entry(t, 0, sh.olen, r, c) {
      assert RowDoneT(s, sh, x, w, b, kMajor, r) && RowDoneT(t, sh, x, w, b, kMajor, r);
    }
    SameBuffers(s, t, before, sh.oc, sh.olen);
  }
}
