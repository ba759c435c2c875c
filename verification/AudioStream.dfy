/** The stream of samples that rendering hands out, one sample at a time. */
module AudioStream {
  import opened AudioGraph
  import opened AudioQuantum

  const QUANTUM: nat := 128
  const CHANNELS := 2

  /** `rest` is what of the last quantum was not handed out yet. */
  datatype Stream<D> = Stream(dsp: map<nat, D>, frames: nat, rest: seq<real>)

  /** The signal processing may depend on the time, counted in frames. */
  type Steps<!D> = nat -> Step<D>

  ghost function Refill<D>(g: Graph, steps: Steps<D>, destination: nat, s: Stream<D>): (t: Stream<D>)
    requires s.dsp.Keys == g.Keys
    ensures t.dsp.Keys == g.Keys && |t.rest| == SAMPLES
  {
    if destination in g then
      QuantumFits(g, steps(s.frames), s.dsp, destination);
      var q := Quantum(g, steps(s.frames), s.dsp, destination);
      Stream(q.dsp, s.frames + QUANTUM, q.out[destination])
    else Stream(s.dsp, s.frames + QUANTUM, Silence())
  }

  lemma {:induction false} QuantumFits<D>(g: Graph, step: Step<D>, dsp0: map<nat, D>, destination: nat)
    requires dsp0.Keys == g.Keys && destination in g
    ensures Fits(g, Quantum(g, step, dsp0, destination)) && destination in Quantum(g, step, dsp0, destination).out
  {
    QuantumSound(g, step, dsp0, destination);
  }

  lemma {:induction false} RefillIs<D>(g: Graph, steps: Steps<D>, destination: nat, s: Stream<D>)
    requires s.dsp.Keys == g.Keys
    ensures destination !in g ==> Refill(g, steps, destination, s) == Stream(s.dsp, s.frames + QUANTUM, Silence())
    ensures destination in g ==>
      var q := Quantum(g, steps(s.frames), s.dsp, destination);
      destination in q.out && Refill(g, steps, destination, s) == Stream(q.dsp, s.frames + QUANTUM, q.out[destination])
  {
    hide Quantum, Fits;
    if destination in g { QuantumFits(g, steps(s.frames), s.dsp, destination); }
  }

  ghost function Filled<D>(g: Graph, steps: Steps<D>, destination: nat, s: Stream<D>): (t: Stream<D>)
    requires s.dsp.Keys == g.Keys
    ensures t.dsp.Keys == g.Keys && t.rest != []
  {
    if s.rest == [] then Refill(g, steps, destination, s) else s
  }

  /** The next `n` samples, and the stream behind them. */
  ghost function Samples<D>(g: Graph, steps: Steps<D>, destination: nat, s: Stream<D>, n: nat): (out: seq<real>)
    requires s.dsp.Keys == g.Keys
    ensures |out| == n
    decreases n
  {
    if n == 0 then []
    else
      var t := Filled(g, steps, destination, s);
      [t.rest[0]] + Samples(g, steps, destination, t.(rest := t.rest[1..]), n - 1)
  }

  ghost function Behind<D>(g: Graph, steps: Steps<D>, destination: nat, s: Stream<D>, n: nat): (t: Stream<D>)
    requires s.dsp.Keys == g.Keys
    ensures t.dsp.Keys == g.Keys
    decreases n
  {
    if n == 0 then s
    else
      var t := Filled(g, steps, destination, s);
      Behind(g, steps, destination, t.(rest := t.rest[1..]), n - 1)
  }

  /** How a stretch is cut into requests makes no difference to what is heard. */
  lemma {:induction false} SamplesSplit<D>(g: Graph, steps: Steps<D>, destination: nat, s: Stream<D>, m: nat, n: nat)
    requires s.dsp.Keys == g.Keys
    ensures var t := Behind(g, steps, destination, s, m);
      && Samples(g, steps, destination, s, m + n)
         == Samples(g, steps, destination, s, m) + Samples(g, steps, destination, t, n)
      && Behind(g, steps, destination, s, m + n) == Behind(g, steps, destination, t, n)
    decreases m
  {
    hide Filled;
    if m > 0 {
      var t := Filled(g, steps, destination, s);
      SamplesSplit(g, steps, destination, t.(rest := t.rest[1..]), m - 1, n);
    }
  }

  /** The frame counter counts what was handed out and what is still waiting, in whole frames. */
  lemma {:induction false} FramesAccount<D>(g: Graph, steps: Steps<D>, destination: nat, s: Stream<D>, n: nat)
    requires s.dsp.Keys == g.Keys
    ensures var t := Behind(g, steps, destination, s, n);
      2 * t.frames == 2 * s.frames - |s.rest| + n + |t.rest|
    decreases n
  {
    if n > 0 {
      var t := Filled(g, steps, destination, s);
      FramesAccount(g, steps, destination, t.(rest := t.rest[1..]), n - 1);
    }
  }

  lemma {:induction false} SamplesOfRest<D>(g: Graph, steps: Steps<D>, destination: nat, s: Stream<D>, n: nat)
    requires s.dsp.Keys == g.Keys && n <= |s.rest|
    ensures Samples(g, steps, destination, s, n) == s.rest[..n]
    ensures Behind(g, steps, destination, s, n) == s.(rest := s.rest[n..])
    decreases n
  {
    hide Refill;
    if n > 0 { SamplesOfRest(g, steps, destination, s.(rest := s.rest[1..]), n - 1); }
  }

  /** One piece of the stream comes out of one quantum. */
  lemma {:induction false} Piece<D>(g: Graph, steps: Steps<D>, destination: nat, s: Stream<D>, t: Stream<D>, m: nat,
      k: nat)
    requires s.dsp.Keys == g.Keys && t == Behind(g, steps, destination, s, m)
    requires 0 < k <= |Filled(g, steps, destination, t).rest|
    ensures var filled := Filled(g, steps, destination, t);
      && Samples(g, steps, destination, s, m + k) == Samples(g, steps, destination, s, m) + filled.rest[..k]
      && Behind(g, steps, destination, s, m + k) == filled.(rest := filled.rest[k..])
  {
    hide Refill;
    var filled := Filled(g, steps, destination, t);
    SamplesSplit(g, steps, destination, s, m, k);
    SamplesOfRest(g, steps, destination, filled, k);
    assert Filled(g, steps, destination, filled) == filled;
  }
}
