/** With no bias and one weight buffer, the transposed convolution is the adjoint of the convolution. */
module ConvAdjoint {
  import opened Sums
  import opened ConvSpec

  /** The two operands: an input `x` of the convolution and an input `g` of its transpose. */
  datatype Pairing = Pairing(sh: Shape, x: seq<real>, w: seq<real>, g: seq<real>)

  /** The transposed kernel runs on the same weights with channels and lengths exchanged. */
  function Reverse(sh: Shape): Shape
  {
    Shape(sh.oc, sh.ic, sh.olen, sh.len, sh.kernel, sh.stride, sh.padding)
  }

  function G(p: Pairing, oc: int, ot: int): real { At(p.g, oc * p.sh.olen + ot) }
  function X(p: Pairing, ic: int, t: int): real { At(p.x, ic * p.sh.len + t) }
  function W(p: Pairing, oc: int, ic: int, k: int): real { At(p.w, (oc * p.sh.ic + ic) * p.sh.kernel + k) }

  /** One term of the pairing, seen from the output sample. */
  function M(p: Pairing, oc: int, ot: int, ic: int, k: int): real
  {
    if 0 <= Source(p.sh, ot, k) < p.sh.len then G(p, oc, ot) * (X(p, ic, Source(p.sh, ot, k)) * W(p, oc, ic, k)) else 0.0
  }

  /** The same term, seen from the input sample it reaches. */
  function N(p: Pairing, ic: int, t: int, oc: int, ot: int, k: int): real
  {
    if ot * p.sh.stride + k == t + p.sh.padding then X(p, ic, t) * (G(p, oc, ot) * W(p, oc, ic, k)) else 0.0
  }

  function MTaps(p: Pairing, oc: int, ot: int, ic: int): int -> real { k => M(p, oc, ot, ic, k) }
  function NTaps(p: Pairing, ic: int, t: int, oc: int, ot: int): int -> real { k => N(p, ic, t, oc, ot, k) }
  function MTap(p: Pairing, oc: int, ot: int, ic: int): real { Sum(p.sh.kernel, MTaps(p, oc, ot, ic)) }
  function NTap(p: Pairing, ic: int, t: int, oc: int, ot: int): real { Sum(p.sh.kernel, NTaps(p, ic, t, oc, ot)) }
  function MRow(p: Pairing, oc: int, ic: int): real { Sum(p.sh.olen, ot => MTap(p, oc, ot, ic)) }
  function NRow(p: Pairing, ic: int, t: int, oc: int): real { Sum(p.sh.olen, ot => NTap(p, ic, t, oc, ot)) }

  function ForwardRow(p: Pairing, b: seq<real>, oc: int): real
  {
    Sum(p.sh.olen, ot => G(p, oc, ot) * Conv(p.sh, p.x, p.w, b, oc, ot))
  }

  /** <conv(x), g>. */
  function ForwardPairing(p: Pairing, b: seq<real>): real
  {
    Sum(p.sh.oc, oc => ForwardRow(p, b, oc))
  }

  function BackwardRow(p: Pairing, b: seq<real>, ic: int): real
  {
    Sum(p.sh.len, t => X(p, ic, t) * ConvT(Reverse(p.sh), p.g, p.w, b, false, ic, t))
  }

  /** <x, convT(g)>. */
  function BackwardPairing(p: Pairing, b: seq<real>): real
  {
    Sum(p.sh.ic, ic => BackwardRow(p, b, ic))
  }

  ghost predicate NoBias(b: seq<real>)
  {
    forall i :: 0 <= i < |b| ==> b[i] == 0.0
  }

  // ---- each pairing as a sum of terms -----------------------------------------------------

  lemma ForwardChannel(p: Pairing, oc: int, ot: int, ic: int)
    ensures MTap(p, oc, ot, ic) == G(p, oc, ot) * Channels(p.sh, p.x, p.w, oc, ot)(ic)
  {
    var taps := Taps(p.sh, p.x, p.w, oc, ot, ic);
    assert forall k :: MTaps(p, oc, ot, ic)(k) == G(p, oc, ot) * taps(k);
    SumScale(p.sh.kernel, G(p, oc, ot), taps, MTaps(p, oc, ot, ic));
  }

  lemma NoBiasConv(p: Pairing, b: seq<real>, oc: int, ot: int)
    requires NoBias(b)
    ensures Conv(p.sh, p.x, p.w, b, oc, ot) == Sum(p.sh.ic, Channels(p.sh, p.x, p.w, oc, ot))
  {
    assert At(b, oc) == 0.0;
  }

  lemma ForwardScaled(p: Pairing, oc: int, ot: int, ic: int)
    ensures MTap(p, oc, ot, ic) == Scaled(G(p, oc, ot), Channels(p.sh, p.x, p.w, oc, ot))(ic)
  {
    ForwardChannel(p, oc, ot, ic);
  }

  lemma ForwardRows(p: Pairing, oc: int, ot: int, y: real)
    requires y == Sum(p.sh.ic, Channels(p.sh, p.x, p.w, oc, ot))
    ensures Sum(p.sh.ic, ic => MTap(p, oc, ot, ic)) == G(p, oc, ot) * y
  {
    var terms, scaled := (ic => MTap(p, oc, ot, ic)), Scaled(G(p, oc, ot), Channels(p.sh, p.x, p.w, oc, ot));
    forall ic | 0 <= ic < p.sh.ic ensures terms(ic) == scaled(ic) {
      ForwardScaled(p, oc, ot, ic);
    }
    SumEqual(p.sh.ic, terms, scaled);
    SumScaled(p.sh.ic, G(p, oc, ot), Channels(p.sh, p.x, p.w, oc, ot));
  }

  lemma ForwardTerm(p: Pairing, b: seq<real>, oc: int, ot: int)
    requires NoBias(b)
    ensures G(p, oc, ot) * Conv(p.sh, p.x, p.w, b, oc, ot) == Sum(p.sh.ic, ic => MTap(p, oc, ot, ic))
  {
    NoBiasConv(p, b, oc, ot);
    ForwardRows(p, oc, ot, Conv(p.sh, p.x, p.w, b, oc, ot));
  }

  lemma SpreadTerm(p: Pairing, ic: int, t: int, oc: int, ot: int, k: int)
    ensures N(p, ic, t, oc, ot, k) == X(p, ic, t) * Spread(Reverse(p.sh), p.g, p.w, false, ic, t, oc, ot, k)
  {
    var r := Reverse(p.sh);
    assert WeightAt(r, p.w, false, oc, ic, k) == W(p, oc, ic, k);
    assert At(p.g, oc * r.len + ot) == G(p, oc, ot);
  }

  lemma BackwardSample(p: Pairing, ic: int, t: int, oc: int, ot: int)
    ensures NTap(p, ic, t, oc, ot) == X(p, ic, t) * SpreadSamples(Reverse(p.sh), p.g, p.w, false, ic, t, oc)(ot)
  {
    var taps := SpreadTaps(Reverse(p.sh), p.g, p.w, false, ic, t, oc, ot);
    forall k | 0 <= k < p.sh.kernel ensures NTaps(p, ic, t, oc, ot)(k) == X(p, ic, t) * taps(k) {
      SpreadTerm(p, ic, t, oc, ot, k);
    }
    SumScale(p.sh.kernel, X(p, ic, t), taps, NTaps(p, ic, t, oc, ot));
  }

  lemma BackwardChannel(p: Pairing, ic: int, t: int, oc: int)
    ensures NRow(p, ic, t, oc) == X(p, ic, t) * SpreadChannels(Reverse(p.sh), p.g, p.w, false, ic, t)(oc)
  {
    var samples, c := SpreadSamples(Reverse(p.sh), p.g, p.w, false, ic, t, oc), X(p, ic, t);
    var terms := ot => NTap(p, ic, t, oc, ot);
    forall ot | 0 <= ot < p.sh.olen ensures terms(ot) == c * samples(ot) {
      BackwardSample(p, ic, t, oc, ot);
    }
    SumScale(p.sh.olen, c, samples, terms);
  }

  lemma BackwardTerm(p: Pairing, b: seq<real>, ic: int, t: int)
    requires NoBias(b)
    ensures X(p, ic, t) * ConvT(Reverse(p.sh), p.g, p.w, b, false, ic, t) == Sum(p.sh.oc, oc => NRow(p, ic, t, oc))
  {
    var rows, c := SpreadChannels(Reverse(p.sh), p.g, p.w, false, ic, t), X(p, ic, t);
    var terms := oc => NRow(p, ic, t, oc);
    forall oc | 0 <= oc < p.sh.oc ensures terms(oc) == c * rows(oc) {
      BackwardChannel(p, ic, t, oc);
    }
    SumScale(p.sh.oc, c, rows, terms);
    assert ConvT(Reverse(p.sh), p.g, p.w, b, false, ic, t) == Sum(p.sh.oc, rows);
  }

  // ---- the input sample summed out --------------------------------------------------------

  /** Each tap reaches at most one input sample. */
  lemma OneSample(p: Pairing, ic: int, oc: int, ot: int, k: int)
    ensures Sum(p.sh.len, t => N(p, ic, t, oc, ot, k)) == M(p, oc, ot, ic, k)
  {
    SumPick(p.sh.len, Source(p.sh, ot, k), t => N(p, ic, t, oc, ot, k));
  }

  lemma SamplesOverTaps(p: Pairing, ic: int, oc: int, ot: int)
    ensures Sum(p.sh.len, t => NTap(p, ic, t, oc, ot)) == MTap(p, oc, ot, ic)
  {
    forall k | 0 <= k < p.sh.kernel ensures MTaps(p, oc, ot, ic)(k) == Sum(p.sh.len, t => N(p, ic, t, oc, ot, k)) {
      OneSample(p, ic, oc, ot, k);
    }
    SumExchange(p.sh.len, p.sh.kernel, t => NTap(p, ic, t, oc, ot), MTaps(p, oc, ot, ic),
                t => NTaps(p, ic, t, oc, ot), k => (t => N(p, ic, t, oc, ot, k)));
  }

  lemma SamplesOverRow(p: Pairing, ic: int, oc: int)
    ensures Sum(p.sh.len, t => NRow(p, ic, t, oc)) == MRow(p, oc, ic)
  {
    forall ot | 0 <= ot < p.sh.olen ensures MTap(p, oc, ot, ic) == Sum(p.sh.len, t => NTap(p, ic, t, oc, ot)) {
      SamplesOverTaps(p, ic, oc, ot);
    }
    SumExchange(p.sh.len, p.sh.olen, t => NRow(p, ic, t, oc), ot => MTap(p, oc, ot, ic),
                t => (ot => NTap(p, ic, t, oc, ot)), ot => (t => NTap(p, ic, t, oc, ot)));
  }

  lemma SamplesOverChannels(p: Pairing, ic: int)
    ensures Sum(p.sh.len, t => Sum(p.sh.oc, oc => NRow(p, ic, t, oc))) == Sum(p.sh.oc, oc => MRow(p, oc, ic))
  {
    forall oc | 0 <= oc < p.sh.oc ensures MRow(p, oc, ic) == Sum(p.sh.len, t => NRow(p, ic, t, oc)) {
      SamplesOverRow(p, ic, oc);
    }
    SumExchange(p.sh.len, p.sh.oc, t => Sum(p.sh.oc, oc => NRow(p, ic, t, oc)), oc => MRow(p, oc, ic),
                t => (oc => NRow(p, ic, t, oc)), oc => (t => NRow(p, ic, t, oc)));
  }

  // ---- the two pairings meet --------------------------------------------------------------

  lemma BackwardSum(p: Pairing, b: seq<real>)
    requires NoBias(b)
    ensures BackwardPairing(p, b) == Sum(p.sh.ic, ic => Sum(p.sh.oc, oc => MRow(p, oc, ic)))
  {
    forall ic | 0 <= ic < p.sh.ic ensures BackwardRow(p, b, ic) == Sum(p.sh.oc, oc => MRow(p, oc, ic)) {
      forall t | 0 <= t < p.sh.len
        ensures X(p, ic, t) * ConvT(Reverse(p.sh), p.g, p.w, b, false, ic, t) == Sum(p.sh.oc, oc => NRow(p, ic, t, oc))
      {
        BackwardTerm(p, b, ic, t);
      }
      SumEqual(p.sh.len, t => X(p, ic, t) * ConvT(Reverse(p.sh), p.g, p.w, b, false, ic, t),
               t => Sum(p.sh.oc, oc => NRow(p, ic, t, oc)));
      SamplesOverChannels(p, ic);
    }
    SumEqual(p.sh.ic, ic => BackwardRow(p, b, ic), ic => Sum(p.sh.oc, oc => MRow(p, oc, ic)));
  }

  lemma ForwardSum(p: Pairing, b: seq<real>)
    requires NoBias(b)
    ensures ForwardPairing(p, b) == Sum(p.sh.oc, oc => Sum(p.sh.ic, ic => MRow(p, oc, ic)))
  {
    forall oc | 0 <= oc < p.sh.oc ensures ForwardRow(p, b, oc) == Sum(p.sh.ic, ic => MRow(p, oc, ic)) {
      forall ot | 0 <= ot < p.sh.olen
        ensures G(p, oc, ot) * Conv(p.sh, p.x, p.w, b, oc, ot) == Sum(p.sh.ic, ic => MTap(p, oc, ot, ic))
      {
        ForwardTerm(p, b, oc, ot);
      }
      SumExchange(p.sh.olen, p.sh.ic,
                  ot => G(p, oc, ot) * Conv(p.sh, p.x, p.w, b, oc, ot), ic => MRow(p, oc, ic),
                  ot => (ic => MTap(p, oc, ot, ic)), ic => (ot => MTap(p, oc, ot, ic)));
    }
    SumEqual(p.sh.oc, oc => ForwardRow(p, b, oc), oc => Sum(p.sh.ic, ic => MRow(p, oc, ic)));
  }

  /** <conv(x), g> = <x, convT(g)> for every shape, stride, padding and every `x`, `g` and weights. */
  lemma Adjoint(p: Pairing, b: seq<real>, bt: seq<real>)
    requires NoBias(b) && NoBias(bt)
    ensures ForwardPairing(p, b) == BackwardPairing(p, bt)
  {
    ForwardSum(p, b);
    BackwardSum(p, bt);
    SumExchange(p.sh.oc, p.sh.ic, oc => Sum(p.sh.ic, ic => MRow(p, oc, ic)),
                ic => Sum(p.sh.oc, oc => MRow(p, oc, ic)),
                oc => (ic => MRow(p, oc, ic)), ic => (oc => MRow(p, oc, ic)));
  }
}
