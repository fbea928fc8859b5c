/** The audio front end around the transform: reflection padding, framing, mel energies,
    and the windows the tower is fed. */
module AudioWindow {
  import opened Arith
  import opened Fft

  datatype Params = Params(nFft: nat, windowLen: nat, hop: nat, convChunk: nat, windowFrames: nat) {
    predicate Valid() { nFft >= 1 && windowLen <= nFft && hop >= 1 && convChunk >= 1 && windowFrames >= 1 }
  }

  // ----- counting -----

  /** Frames of the padded signal. */
  function Frames(n: nat, p: Params): (k: nat)
    requires p.Valid() && n >= 1
    ensures k >= 1
  {
    DivIff(n + 2 * (p.nFft / 2) - p.nFft, p.hop, 0);
    (n + 2 * (p.nFft / 2) - p.nFft) / p.hop + 1
  }

  function Effective(n: nat, p: Params): nat
    requires p.Valid() && n >= 1
  {
    var k := n / p.hop + 1;
    if Frames(n, p) < k then Frames(n, p) else k
  }

  function CeilDiv(a: nat, b: nat): nat
    requires b >= 1
  {
    (a + b - 1) / b
  }

  function WindowCount(n: int, p: Params): (k: nat)
    requires p.Valid()
    ensures n <= 0 ==> k == 0
    ensures n >= 1 ==> k == CeilDiv(Frames(n, p), p.windowFrames) >= 1
  {
    if n <= 0 then 0
    else
      EveryFrameIsAudio(n, p);
      CeilIs(Frames(n, p), p.windowFrames);
      CeilDiv(Effective(n, p), p.windowFrames)
  }

  /** There is always a frame, and the cut-off never bites: the frames the reference
      fills without computing do not exist, whatever the sizes. */
  lemma EveryFrameIsAudio(n: nat, p: Params)
    requires p.Valid() && n >= 1
    ensures Effective(n, p) == Frames(n, p)
  {
    var a := n + 2 * (p.nFft / 2) - p.nFft;
    DivIff(n, p.hop, a / p.hop);
    DivIff(a, p.hop, a / p.hop);
  }

  /** A frame never reads past the padded signal. */
  lemma FrameInside(n: nat, p: Params, f: nat, i: nat)
    requires p.Valid() && n >= 1 && f < Frames(n, p) && i < p.nFft
    ensures f * p.hop + i < n + 2 * (p.nFft / 2)
  {
    var a := n + 2 * (p.nFft / 2) - p.nFft;
    DivIff(a, p.hop, f);
  }

  lemma CeilIs(a: nat, b: nat)
    requires b >= 1
    ensures CeilDiv(a, b) * b >= a && (CeilDiv(a, b) > 0 ==> (CeilDiv(a, b) - 1) * b < a)
  {
    DivIff(a + b - 1, b, CeilDiv(a, b));
    assert (CeilDiv(a, b) - 1) * b == CeilDiv(a, b) * b - b;
  }

  /** Frames in window `w`. */
  function Within(total: nat, size: nat, w: nat): nat
    requires size >= 1 && w < CeilDiv(total, size)
  {
    CeilIs(total, size);
    MulMono(w, CeilDiv(total, size) - 1, size);
    if size < total - w * size then size else total - w * size
  }

  /** Every frame is column `t` of exactly one window, and every column of every window
      is a frame. */
  lemma WindowsTile(total: nat, size: nat, f: nat, w: nat, t: nat)
    requires size >= 1 && w < CeilDiv(total, size)
    ensures f < total ==> f / size < CeilDiv(total, size) && f % size < Within(total, size, f / size)
    ensures t < Within(total, size, w) ==> w * size + t < total
    ensures t < Within(total, size, w) ==> (w * size + t == f <==> w == f / size && t == f % size)
    ensures Within(total, size, w) >= 1
    ensures w + 1 < CeilDiv(total, size) ==> Within(total, size, w) == size
  {
    CeilIs(total, size);
    DivMod(f, size);
    DivIff(f, size, CeilDiv(total, size) - 1);
    assert (CeilDiv(total, size) - 1) * size + size == CeilDiv(total, size) * size;
    MulMono(w, CeilDiv(total, size) - 1, size);
    if t < Within(total, size, w) { Flat(w, t, size); }
  }

  // ----- padding and framing -----

  /** The signal continued past its ends: mirrored about the first and the last sample,
      silent where the mirror runs out. */
  function Reflect(s: seq<real>, j: int): real {
    if j < 0 then (if -j < |s| then s[-j] else 0.0)
    else if j < |s| then s[j]
    else (if 2 * (|s| - 1) - j >= 0 then s[2 * (|s| - 1) - j] else 0.0)
  }

  /** The continuation is symmetric about both ends of the signal. */
  lemma ReflectMirrors(s: seq<real>, j: int)
    requires |s| > 0 && j >= 0
    ensures j < |s| ==> Reflect(s, -j) == Reflect(s, j)
    ensures j < |s| ==> Reflect(s, |s| - 1 + j) == Reflect(s, |s| - 1 - j)
    ensures j >= |s| ==> Reflect(s, -j) == 0.0 && Reflect(s, |s| - 1 + j) == 0.0
  {
  }

  method PadSignal(samples: seq<real>, pad: nat) returns (padded: array<real>)
    ensures fresh(padded) && padded.Length == |samples| + 2 * pad
    ensures forall x | 0 <= x < padded.Length :: padded[x] == Reflect(samples, x - pad)
  {
    var n := |samples|;
    padded := new real[n + 2 * pad](_ => 0.0);
    for i := 0 to pad
      invariant forall x | 0 <= x < i :: padded[x] == Reflect(samples, x - pad)
    {
      var src := pad - i;
      padded[i] := if src < n then samples[src] else 0.0;
    }
    for i := 0 to n
      invariant forall x | 0 <= x < pad + i :: padded[x] == Reflect(samples, x - pad)
    {
      padded[pad + i] := samples[i];
    }
    for i := 0 to pad
      invariant forall x | 0 <= x < n + pad + i :: padded[x] == Reflect(samples, x - pad)
    {
      var src := n - 2 - i;
      padded[n + pad + i] := if src >= 0 then samples[src] else 0.0;
    }
  }

  /** Sample `i` of frame `f`, windowed; silent past the window. */
  function FrameSample(s: seq<real>, window: seq<real>, p: Params, f: nat, i: nat): real
    requires |window| == p.windowLen
  {
    if i < p.windowLen then window[i] * Reflect(s, f * p.hop + i - p.nFft / 2) else 0.0
  }

  /** The frame the transform is given. */
  function Frame(s: seq<real>, window: seq<real>, p: Params, f: nat): (x: seq<real>)
    requires |window| == p.windowLen
    ensures |x| == p.nFft
  {
    seq(p.nFft, (i: nat) => FrameSample(s, window, p, f, i))
  }

  method CutFrame(padded: array<real>, ghost s: seq<real>, window: seq<real>, p: Params, f: nat, frame: array<real>)
    requires p.Valid() && |s| >= 1 && f < Frames(|s|, p) && |window| == p.windowLen && frame.Length == p.nFft && frame != padded
    requires padded.Length == |s| + 2 * (p.nFft / 2)
    requires forall x | 0 <= x < padded.Length :: padded[x] == Reflect(s, x - p.nFft / 2)
    modifies frame
    ensures frame[..] == Frame(s, window, p, f)
  {
    MulSign(f, p.hop);
    var offset := f * p.hop;
    for i := 0 to p.windowLen
      invariant forall x: nat | x < i :: frame[x] == FrameSample(s, window, p, f, x)
    {
      FrameInside(|s|, p, f, i);
      var at := offset + i;
      frame[i] := if at < padded.Length then window[i] * padded[at] else 0.0;
    }
    for i := p.windowLen to p.nFft
      invariant forall x: nat | x < i :: frame[x] == FrameSample(s, window, p, f, x)
    {
      frame[i] := 0.0;
    }
  }

  // ----- mel energies -----

  function Power(c: Complex): real { c.re * c.re + c.im * c.im }
  function Weigh(x: real, weight: real): real { x * weight }

  /** One mel band of the power spectrum below bin `n`. */
  function Energy(t: Twiddles, x: seq<real>, row: seq<real>, n: nat): real
    requires t.Sized() && |x| > 0 && n <= |row|
  {
    if n == 0 then 0.0 else Energy(t, x, row, n - 1) + Weigh(Power(Dft(t, x, n - 1)), row[n - 1])
  }

  function Larger(a: real, b: real): real { if a < b then b else a }

  /** The value of band `m`, frame `f`: log of the energy of the exact transform. */
  function LogMelAt(t: Twiddles, s: seq<real>, window: seq<real>, p: Params, row: seq<real>, floor: real, log: real -> real, f: nat): real
    requires t.Sized() && p.Valid() && |window| == p.windowLen
  {
    log(Larger(Energy(t, Frame(s, window, p, f), row, |row|), floor))
  }

  /** The squared correlations of one bin with the cosines and the sines, weighted. */
  function BinTerm(cosines: seq<real>, sines: seq<real>, x: seq<real>, k: nat, weight: real): real
    requires |cosines| > 0 && |sines| > 0 && |x| > 0
  {
    var c, s := Correlate(cosines, x, k, |x|), Correlate(sines, x, k, |x|);
    (c * c + s * s) * weight
  }

  function BandSum(cosines: seq<real>, sines: seq<real>, x: seq<real>, row: seq<real>, n: nat): real
    requires |cosines| > 0 && |sines| > 0 && |x| > 0 && n <= |row|
  {
    if n == 0 then 0.0 else BandSum(cosines, sines, x, row, n - 1) + BinTerm(cosines, sines, x, n - 1, row[n - 1])
  }

  lemma Weighed(z: Complex, c: real, s: real, weight: real)
    requires z.re == c && z.im == -s
    ensures Weigh(Power(z), weight) == (c * c + s * s) * weight
  {
    assert -s * -s == s * s;
  }

  lemma BinMeans(t: Twiddles, x: seq<real>, k: nat, weight: real)
    requires t.Sized() && |x| > 0
    ensures Weigh(Power(Dft(t, x, k)), weight) == BinTerm(t.cosines, t.sines, x, k, weight)
  {
    DftMeans(t, x, k);
    Weighed(Dft(t, x, k), Correlate(t.cosines, x, k, |x|), Correlate(t.sines, x, k, |x|), weight);
  }

  lemma {:induction false} EnergyIs(t: Twiddles, x: seq<real>, row: seq<real>, n: nat)
    requires t.Sized() && |x| > 0 && n <= |row|
    ensures Energy(t, x, row, n) == BandSum(t.cosines, t.sines, x, row, n)
  {
    if n > 0 {
      EnergyIs(t, x, row, n - 1);
      BinMeans(t, x, n - 1, row[n - 1]);
    }
  }

  /** Main result: a value of the spectrogram is the log of the band's weighted energy, or of
      the floor when that is larger. */
  lemma LogMelMeans(t: Twiddles, s: seq<real>, window: seq<real>, p: Params, row: seq<real>, floor: real, log: real -> real, f: nat)
    requires t.Sized() && p.Valid() && |window| == p.windowLen
    ensures var x := Frame(s, window, p, f);
            var e := BandSum(t.cosines, t.sines, x, row, |row|);
            LogMelAt(t, s, window, p, row, floor, log, f) == log(if e > floor then e else floor)
  {
    EnergyIs(t, Frame(s, window, p, f), row, |row|);
  }

  method PowerSpectrum(t: Twiddles, frame: array<real>, spectrum: array<real>, nBins: nat) returns (power: seq<real>)
    requires t.RootsOfUnity() && frame.Length > 0 && t.Size() % frame.Length == 0 && spectrum.Length == 2 * frame.Length
    requires frame != spectrum && nBins <= frame.Length
    modifies spectrum
    ensures |power| == nBins && forall k: nat | k < nBins :: power[k] == Power(Dft(t, frame[..], k))
  {
    FftReal(t, frame, spectrum);
    assert Holds(t, frame[..], spectrum[..]);
    power := [];
    for k := 0 to nBins
      invariant |power| == k && forall i: nat | i < k :: power[i] == Power(Dft(t, frame[..], i))
    {
      var re, im := spectrum[k * 2 + 0], spectrum[k * 2 + 1];
      assert At(spectrum[..], k) == Dft(t, frame[..], k);
      power := power + [re * re + im * im];
    }
  }

  method Band(t: Twiddles, ghost x: seq<real>, power: seq<real>, row: seq<real>, floor: real, log: real -> real) returns (v: real)
    requires t.Sized() && |x| > 0 && |row| == |power| && forall k: nat | k < |power| :: power[k] == Power(Dft(t, x, k))
    ensures v == log(Larger(Energy(t, x, row, |row|), floor))
  {
    var sum := 0.0;
    for k := 0 to |row|
      invariant sum == Energy(t, x, row, k)
    {
      sum := sum + Weigh(power[k], row[k]);
    }
    v := log(Larger(sum, floor));
  }

  function Cell(m: nat, f: nat, width: nat): nat { m * width + f }

  /** The spectrogram's first `done` frames. */
  ghost predicate FramesDone(out: seq<real>, t: Twiddles, s: seq<real>, window: seq<real>, p: Params, bank: seq<seq<real>>,
                             floor: real, log: real -> real, frames: nat, done: nat)
    requires t.Sized() && p.Valid() && |window| == p.windowLen
  {
    forall m: nat, f: nat | m < |bank| && f < done :: MelDone(out, t, s, window, p, bank, floor, log, frames, m, f)
  }

  ghost predicate MelDone(out: seq<real>, t: Twiddles, s: seq<real>, window: seq<real>, p: Params, bank: seq<seq<real>>,
                          floor: real, log: real -> real, frames: nat, m: nat, f: nat)
    requires t.Sized() && p.Valid() && |window| == p.windowLen && m < |bank|
  {
    Cell(m, f, frames) < |out| && out[Cell(m, f, frames)] == LogMelAt(t, s, window, p, bank[m], floor, log, f)
  }

  lemma MelCellsApart(m: nat, f: nat, m': nat, f': nat, width: nat)
    requires f < width && f' < width
    ensures Cell(m, f, width) == Cell(m', f', width) <==> m == m' && f == f'
  {
    Flat(m, f, width);
    Flat(m', f', width);
  }

  lemma MelCellIn(m: nat, f: nat, rows: nat, width: nat)
    requires m < rows && f < width
    ensures Cell(m, f, width) < rows * width
  {
    FlatIn(m, f, rows, width);
  }

  /** Frame `f` of every band stored, the frames before it left alone. */
  method StoreFrame(t: Twiddles, ghost s: seq<real>, window: seq<real>, ghost p: Params, bank: seq<seq<real>>, floor: real,
                    log: real -> real, frames: nat, f: nat, power: seq<real>, out: array<real>)
    requires t.Sized() && p.Valid() && |window| == p.windowLen && f < frames && out.Length == |bank| * frames
    requires forall m | 0 <= m < |bank| :: |bank[m]| == |power|
    requires forall k: nat | k < |power| :: power[k] == Power(Dft(t, Frame(s, window, p, f), k))
    requires FramesDone(out[..], t, s, window, p, bank, floor, log, frames, f)
    modifies out
    ensures FramesDone(out[..], t, s, window, p, bank, floor, log, frames, f + 1)
  {
    for m := 0 to |bank|
      invariant FramesDone(out[..], t, s, window, p, bank, floor, log, frames, f)
      invariant forall m': nat | m' < m :: MelDone(out[..], t, s, window, p, bank, floor, log, frames, m', f)
    {
      ghost var before := out[..];
      var v := Band(t, Frame(s, window, p, f), power, bank[m], floor, log);
      MelCellIn(m, f, |bank|, frames);
      out[m * frames + f] := v;
      assert MelDone(out[..], t, s, window, p, bank, floor, log, frames, m, f);
      forall m': nat, f': nat | m' < |bank| && f' < frames && (m' != m || f' != f)
        && MelDone(before, t, s, window, p, bank, floor, log, frames, m', f')
        ensures MelDone(out[..], t, s, window, p, bank, floor, log, frames, m', f')
      {
        MelCellsApart(m, f, m', f', frames);
      }
    }
    forall m: nat, f': nat | m < |bank| && f' < f + 1
      ensures MelDone(out[..], t, s, window, p, bank, floor, log, frames, m, f')
    {
    }
  }

  /** The whole signal's log-mel, mel-major: every frame of every band is the log of the
      exact transform's energy. */
  method LogMel(t: Twiddles, s: seq<real>, p: Params, window: seq<real>, bank: seq<seq<real>>, floor: real, log: real -> real)
    returns (out: array<real>, frames: nat)
    requires p.Valid() && |s| >= 1 && |window| == p.windowLen && t.RootsOfUnity() && t.Size() == p.nFft
    requires forall m | 0 <= m < |bank| :: |bank[m]| == p.nFft / 2 + 1
    ensures fresh(out) && frames == Frames(|s|, p) && out.Length == |bank| * frames
    ensures FramesDone(out[..], t, s, window, p, bank, floor, log, frames, frames)
  {
    var padded := PadSignal(s, p.nFft / 2);
    frames := (padded.Length - p.nFft) / p.hop + 1;
    MulSign(|bank|, frames);
    out := new real[|bank| * frames](_ => 0.0);
    var frame, spectrum := new real[p.nFft](_ => 0.0), new real[2 * p.nFft](_ => 0.0);
    var computed := if frames < |s| / p.hop + 1 then frames else |s| / p.hop + 1;
    EveryFrameIsAudio(|s|, p);
    DivMod(p.nFft, p.nFft);
    DivIs(p.nFft, p.nFft, 1, 0);
    ghost var signal := padded[..];
    for f := 0 to computed
      invariant padded[..] == signal
      invariant FramesDone(out[..], t, s, window, p, bank, floor, log, frames, f)
    {
      assert forall x | 0 <= x < padded.Length :: padded[x] == padded[..][x];
      CutFrame(padded, s, window, p, f, frame);
      var power := PowerSpectrum(t, frame, spectrum, p.nFft / 2 + 1);
      StoreFrame(t, s, window, p, bank, floor, log, frames, f, power, out);
    }
  }

  // ----- normalisation and windows -----

  const LOWEST := -100000000000000000000.0

  /** The running maximum of the first `n` values. */
  function Maximum(full: seq<real>, n: nat): real
    requires n <= |full|
  {
    if n == 0 then LOWEST else Larger(Maximum(full, n - 1), full[n - 1])
  }

  lemma {:induction false} MaximumIs(full: seq<real>, n: nat, i: nat)
    requires n <= |full|
    ensures i < n ==> full[i] <= Maximum(full, n)
    ensures Maximum(full, n) >= -100000000000000000000.0
    ensures Maximum(full, n) == -100000000000000000000.0 || exists k :: 0 <= k < n && full[k] == Maximum(full, n)
  {
    if n > 0 { MaximumIs(full, n - 1, i); }
  }

  function Norm(v: real, maximum: real): real { (Larger(v, maximum - 8.0) + 4.0) / 4.0 }

  /** The normalised values of a signal span at most 2, and keep their order. */
  lemma NormRange(full: seq<real>, i: nat, k: nat)
    requires i < |full| && k < |full|
    ensures var mx := Maximum(full, |full|);
            mx / 4.0 - 1.0 <= Norm(full[i], mx) <= mx / 4.0 + 1.0
            && (full[i] <= full[k] ==> Norm(full[i], mx) <= Norm(full[k], mx))
            && (full[i] >= mx - 8.0 ==> Norm(full[i], mx) == full[i] / 4.0 + 1.0)
            && (full[i] <= mx - 8.0 ==> Norm(full[i], mx) == mx / 4.0 - 1.0)
  {
    MaximumIs(full, |full|, i);
  }

  datatype AudioMel = AudioMel(nLen: nat, nLenOrg: nat, data: seq<real>)

  /** Column `t` of band `m` of window `w`: the frame there, or padding. */
  ghost predicate MelColumn(out: seq<real>, full: seq<real>, frames: nat, maximum: real, offset: nat, within: nat, nLen: nat, m: nat, t: nat) {
    && Cell(m, t, nLen) < |out|
    && (t < within ==> Cell(m, offset + t, frames) < |full|
                       && out[Cell(m, t, nLen)] == Norm(full[Cell(m, offset + t, frames)], maximum))
    && (t >= within ==> out[Cell(m, t, nLen)] == 0.0)
  }

  /** A window's columns, normalised by the whole signal's maximum. */
  ghost predicate WindowIs(r: AudioMel, full: seq<real>, frames: nat, nMel: nat, p: Params, w: nat)
    requires p.Valid() && w < CeilDiv(frames, p.windowFrames)
  {
    && r.nLenOrg == Within(frames, p.windowFrames, w)
    && r.nLen % p.convChunk == 0 && r.nLenOrg <= r.nLen < r.nLenOrg + p.convChunk
    && |r.data| == nMel * r.nLen
    && forall m: nat, t: nat | m < nMel && t < r.nLen ::
         MelColumn(r.data, full, frames, Maximum(full, |full|), w * p.windowFrames, r.nLenOrg, r.nLen, m, t)
  }

  method FindMaximum(full: seq<real>) returns (maximum: real)
    ensures maximum == Maximum(full, |full|)
  {
    maximum := LOWEST;
    for i := 0 to |full|
      invariant maximum == Maximum(full, i)
    {
      maximum := Larger(maximum, full[i]);
    }
  }

  /** How many columns of band `m'` are filled when the loops stand at `(m, t)`. */
  function Filled(m': nat, m: nat, t: nat, within: nat): nat {
    if m' < m then within else if m' == m then t else 0
  }

  ghost predicate FilledTo(data: seq<real>, full: seq<real>, frames: nat, nMel: nat, maximum: real, offset: nat, within: nat, nLen: nat,
                           m: nat, t: nat)
  {
    forall m': nat, t': nat | m' < nMel && t' < nLen ::
      ColumnAt(data, full, frames, maximum, offset, within, nLen, m, t, m', t')
  }

  ghost predicate ColumnAt(data: seq<real>, full: seq<real>, frames: nat, maximum: real, offset: nat, within: nat, nLen: nat,
                           m: nat, t: nat, m': nat, t': nat)
  {
    MelColumn(data, full, frames, maximum, offset, Filled(m', m, t, within), nLen, m', t')
  }

  /** The columns copied and normalised. */
  method FillWindow(full: seq<real>, frames: nat, nMel: nat, maximum: real, offset: nat, within: nat, nLen: nat) returns (data: array<real>)
    requires |full| == nMel * frames && offset + within <= frames && within <= nLen
    ensures fresh(data) && data.Length == nMel * nLen
    ensures FilledTo(data[..], full, frames, nMel, maximum, offset, within, nLen, nMel, 0)
  {
    MulSign(nMel, nLen);
    data := new real[nMel * nLen](_ => 0.0);
    Blank(data[..], full, frames, nMel, maximum, offset, within, nLen);
    for m := 0 to nMel
      invariant FilledTo(data[..], full, frames, nMel, maximum, offset, within, nLen, m, 0)
    {
      for t := 0 to within
        invariant FilledTo(data[..], full, frames, nMel, maximum, offset, within, nLen, m, t)
      {
        ghost var before := data[..];
        MelCellIn(m, t, nMel, nLen);
        MelCellIn(m, offset + t, nMel, frames);
        data[m * nLen + t] := Norm(full[m * frames + offset + t], maximum);
        assert m * frames + offset + t == Cell(m, offset + t, frames);
        assert data[..] == before[Cell(m, t, nLen) := Norm(full[Cell(m, offset + t, frames)], maximum)];
        ColumnStored(before, data[..], full, frames, nMel, maximum, offset, within, nLen, m, t, t + 1);
      }
      NextBand(data[..], full, frames, nMel, maximum, offset, within, nLen, m, m + 1);
    }
  }

  lemma ColumnStored(before: seq<real>, data: seq<real>, full: seq<real>, frames: nat, nMel: nat, maximum: real, offset: nat, within: nat,
                     nLen: nat, m: nat, t: nat, next: nat)
    requires m < nMel && t < within <= nLen && next == t + 1 && FilledTo(before, full, frames, nMel, maximum, offset, within, nLen, m, t)
    requires Cell(m, t, nLen) < |before| && Cell(m, offset + t, frames) < |full|
    requires data == before[Cell(m, t, nLen) := Norm(full[Cell(m, offset + t, frames)], maximum)]
    ensures FilledTo(data, full, frames, nMel, maximum, offset, within, nLen, m, next)
  {
    forall m': nat, t': nat | m' < nMel && t' < nLen
      ensures ColumnAt(data, full, frames, maximum, offset, within, nLen, m, next, m', t')
    {
      MelCellsApart(m, t, m', t', nLen);
      assert ColumnAt(before, full, frames, maximum, offset, within, nLen, m, t, m', t');
    }
  }

  lemma NextBand(data: seq<real>, full: seq<real>, frames: nat, nMel: nat, maximum: real, offset: nat, within: nat, nLen: nat, m: nat,
                 next: nat)
    requires FilledTo(data, full, frames, nMel, maximum, offset, within, nLen, m, within) && next == m + 1
    ensures FilledTo(data, full, frames, nMel, maximum, offset, within, nLen, next, 0)
  {
    forall m': nat, t': nat | m' < nMel && t' < nLen
      ensures ColumnAt(data, full, frames, maximum, offset, within, nLen, next, 0, m', t')
    {
      assert ColumnAt(data, full, frames, maximum, offset, within, nLen, m, within, m', t');
    }
  }

  lemma Blank(data: seq<real>, full: seq<real>, frames: nat, nMel: nat, maximum: real, offset: nat, within: nat, nLen: nat)
    requires |data| == nMel * nLen && forall i | 0 <= i < |data| :: data[i] == 0.0
    ensures FilledTo(data, full, frames, nMel, maximum, offset, within, nLen, 0, 0)
  {
    forall m: nat, t: nat | m < nMel && t < nLen
      ensures ColumnAt(data, full, frames, maximum, offset, within, nLen, 0, 0, m, t)
    {
      MelCellIn(m, t, nMel, nLen);
    }
  }

  lemma AllFilled(data: seq<real>, full: seq<real>, frames: nat, nMel: nat, maximum: real, offset: nat, within: nat, nLen: nat, m: nat, t: nat)
    requires FilledTo(data, full, frames, nMel, maximum, offset, within, nLen, nMel, 0) && m < nMel && t < nLen
    ensures MelColumn(data, full, frames, maximum, offset, within, nLen, m, t)
  {
    assert ColumnAt(data, full, frames, maximum, offset, within, nLen, nMel, 0, m, t);
  }

  /** One inference window; asking past the end is refused. */
  method Window(full: seq<real>, n: nat, frames: nat, nMel: nat, p: Params, w: int) returns (ok: bool, r: AudioMel)
    requires p.Valid() && n >= 1 && frames == Frames(n, p) && |full| == nMel * frames
    ensures ok <==> 0 <= w < WindowCount(n, p)
    ensures ok ==> WindowIs(r, full, frames, nMel, p, w)
  {
    r := AudioMel(0, 0, []);
    EveryFrameIsAudio(n, p);
    var effective := if frames < n / p.hop + 1 then frames else n / p.hop + 1;
    var windows := (effective + p.windowFrames - 1) / p.windowFrames;
    ok := 0 <= w < windows;
    if ok {
      WindowsTile(effective, p.windowFrames, 0, w, 0);
      MulSign(w, p.windowFrames);
      var offset := w * p.windowFrames;
      var within := if p.windowFrames < effective - offset then p.windowFrames else effective - offset;
      var maximum := FindMaximum(full);
      CeilIs(within, p.convChunk);
      MulSign(CeilDiv(within, p.convChunk), p.convChunk);
      var chunks := (within + p.convChunk - 1) / p.convChunk;
      var nLen := chunks * p.convChunk;
      ChunkedLength(chunks, p.convChunk, within);
      var data := FillWindow(full, frames, nMel, maximum, offset, within, nLen);
      forall m: nat, t: nat | m < nMel && t < nLen
        ensures MelColumn(data[..], full, frames, maximum, offset, within, nLen, m, t)
      {
        AllFilled(data[..], full, frames, nMel, maximum, offset, within, nLen, m, t);
      }
      r := AudioMel(nLen, within, data[..]);
    }
  }

  lemma ChunkedLength(chunks: nat, chunk: nat, within: nat)
    requires chunk >= 1 && within >= 1 && chunks == CeilDiv(within, chunk)
    ensures chunks * chunk % chunk == 0 && within <= chunks * chunk < within + chunk
  {
    CeilIs(within, chunk);
    assert (chunks - 1) * chunk == chunks * chunk - chunk;
    DivIs(chunks * chunk, chunk, chunks, 0);
  }

  /** Column `t'` of band `m` of the window is the normalised log energy of frame
      `offset + t'` of the signal, or zero padding. */
  ghost predicate ColumnIsFrame(r: AudioMel, t: Twiddles, s: seq<real>, window: seq<real>, p: Params, bank: seq<seq<real>>, floor: real,
                                log: real -> real, maximum: real, offset: nat, m: nat, t': nat)
    requires t.Sized() && p.Valid() && |window| == p.windowLen && m < |bank|
  {
    && Cell(m, t', r.nLen) < |r.data|
    && (t' < r.nLenOrg ==>
          r.data[Cell(m, t', r.nLen)] == Norm(LogMelAt(t, s, window, p, bank[m], floor, log, offset + t'), maximum))
    && (t' >= r.nLenOrg ==> r.data[Cell(m, t', r.nLen)] == 0.0)
  }

  lemma ColumnOf(r: AudioMel, full: seq<real>, t: Twiddles, s: seq<real>, window: seq<real>, p: Params, bank: seq<seq<real>>, floor: real,
                 log: real -> real, frames: nat, maximum: real, offset: nat, m: nat, t': nat)
    requires t.Sized() && p.Valid() && |window| == p.windowLen && m < |bank|
    requires MelColumn(r.data, full, frames, maximum, offset, r.nLenOrg, r.nLen, m, t')
    requires t' < r.nLenOrg ==> MelDone(full, t, s, window, p, bank, floor, log, frames, m, offset + t')
    ensures ColumnIsFrame(r, t, s, window, p, bank, floor, log, maximum, offset, m, t')
  {
  }

  /** Main result: window `w` holds, frame by frame, the normalised log energies of the
      exact transform of the reflected signal, scaled by the whole signal's maximum and
      padded to whole chunks; anything outside the signal's windows is refused. */
  method AudioLogMelWindow(t: Twiddles, s: seq<real>, p: Params, window: seq<real>, bank: seq<seq<real>>, floor: real, log: real -> real,
                           w: int) returns (ok: bool, r: AudioMel, ghost full: seq<real>)
    requires p.Valid() && |window| == p.windowLen && t.RootsOfUnity() && t.Size() == p.nFft
    requires forall m | 0 <= m < |bank| :: |bank[m]| == p.nFft / 2 + 1
    ensures ok <==> 0 <= w < WindowCount(|s|, p)
    ensures ok ==> |full| == |bank| * Frames(|s|, p) && |r.data| == |bank| * r.nLen
    ensures ok ==> FramesDone(full, t, s, window, p, bank, floor, log, Frames(|s|, p), Frames(|s|, p))
    ensures ok ==> r.nLenOrg == Within(Frames(|s|, p), p.windowFrames, w) && r.nLen % p.convChunk == 0
                   && r.nLenOrg <= r.nLen < r.nLenOrg + p.convChunk
    ensures ok ==> forall m: nat, t': nat | m < |bank| && t' < r.nLen ::
                     ColumnIsFrame(r, t, s, window, p, bank, floor, log, Maximum(full, |full|), w * p.windowFrames, m, t')
  {
    ok, r, full := false, AudioMel(0, 0, []), [];
    if |s| == 0 { return; }
    var out, frames := LogMel(t, s, p, window, bank, floor, log);
    full := out[..];
    ok, r := Window(out[..], |s|, frames, |bank|, p, w);
    if ok {
      MulSign(w, p.windowFrames);
      AllColumns(r, full, t, s, window, p, bank, floor, log, frames, w, w * p.windowFrames);
    }
  }

  lemma AllColumns(r: AudioMel, full: seq<real>, t: Twiddles, s: seq<real>, window: seq<real>, p: Params, bank: seq<seq<real>>,
                   floor: real, log: real -> real, frames: nat, w: nat, offset: nat)
    requires t.Sized() && p.Valid() && |window| == p.windowLen && w < CeilDiv(frames, p.windowFrames) && offset == w * p.windowFrames
    requires FramesDone(full, t, s, window, p, bank, floor, log, frames, frames) && WindowIs(r, full, frames, |bank|, p, w)
    ensures forall m: nat, t': nat | m < |bank| && t' < r.nLen ::
              ColumnIsFrame(r, t, s, window, p, bank, floor, log, Maximum(full, |full|), offset, m, t')
  {
    forall m: nat, t': nat | m < |bank| && t' < r.nLen
      ensures ColumnIsFrame(r, t, s, window, p, bank, floor, log, Maximum(full, |full|), offset, m, t')
    {
      WindowsTile(frames, p.windowFrames, 0, w, t');
      assert t' < r.nLenOrg ==> MelDone(full, t, s, window, p, bank, floor, log, frames, m, offset + t');
      ColumnOf(r, full, t, s, window, p, bank, floor, log, frames, Maximum(full, |full|), offset, m, t');
    }
  }
}
