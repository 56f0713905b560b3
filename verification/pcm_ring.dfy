/** Pull and push mode ring positions (plugins/tinyalsa/src/agm_pcm_plugin.c). */
module PcmRing {
  import opened Arith
  import opened Common

  // Position x of cycle q, modulo n cycles.
  lemma CycleMod(ring: int, n: int, q: int, x: int)
    requires ring > 0 && n > 0 && 0 <= x < ring
    ensures ring * n > 0 && (ring * q + x) % (ring * n) == ring * (q % n) + x
    ensures ring * (q % n) + x < ring * n
  {
    DivMod(q, n);
    var u, v := q / n, q % n;
    MulStep(ring, v, n);
    assert ring * q == (ring * n) * u + ring * v by {
      calc {
        ring * q;
        ring * (n * u + v);
        ring * (n * u) + ring * v;
        (ring * n) * u + ring * v;
      }
    }
    MulStep(ring, 0, n);
    assert ring * v >= 0;
    DivUnique(ring * q + x, ring * n, u, ring * v + x);
  }

  function FloorTo(x: nat, period: nat): nat
    requires period > 0
  {
    x / period * period
  }

  lemma FloorBounds(x: nat, period: nat)
    requires period > 0
    ensures FloorTo(x, period) <= x < FloorTo(x, period) + period && FloorTo(x, period) % period == 0
  {
    DivMod(x, period);
    assert x / period * period == period * (x / period);
    DivUnique(x / period * period, period, x / period, 0);
  }

  lemma FloorMonotone(x: nat, y: nat, period: nat)
    requires period > 0 && x <= y
    ensures FloorTo(x, period) <= FloorTo(y, period)
  {
    FloorBounds(x, period);
    FloorBounds(y, period);
    var q, r := x / period, y / period;
    assert q * period == period * q && r * period == period * r;
    if q > r {
      MulStep(period, r, q);
    }
  }

  lemma FloorLess(x: nat, y: nat, period: nat)
    requires period > 0 && x + period <= y
    ensures FloorTo(x, period) < FloorTo(y, period)
  {
    FloorMonotone(x + period, y, period);
    DivMod(x, period);
    var q := x / period;
    assert x + period == period * (q + 1) + x % period by { assert period * (q + 1) == period * q + period; }
    DivUnique(x + period, period, q + 1, x % period);
    assert (q + 1) * period == q * period + period;
  }

  // Flooring to a period commutes with taking whole cycles off.
  lemma FloorCycle(ring: nat, m: nat, period: nat, q: nat, x: nat)
    requires period > 0 && m > 0 && ring == m * period
    ensures FloorTo(ring * q + x, period) == ring * q + FloorTo(x, period)
  {
    assert x == period * (x / period) + x % period;
    assert ring * q + x == period * (m * q + x / period) + x % period;
    DivUnique(ring * q + x, period, m * q + x / period, x % period);
    assert (m * q + x / period) * period == ring * q + x / period * period;
  }

  // ---- frames and bytes --------------------------------------------------------------------

  const WORD := 0x1_0000_0000

  datatype Format = S8 | S16_LE | S24_LE | S24_3LE | S32_LE

  datatype MediaConfig = MediaConfig(channels: nat, format: Format)

  function FormatToBits(f: Format): nat {
    match f
    case S32_LE => 32
    case S24_LE => 32
    case S24_3LE => 24
    case _ => 16
  }

  function FrameBytes(c: MediaConfig): nat { c.channels * (FormatToBits(c.format) / 8) }

  // Both conversions are done in 32-bit unsigned arithmetic.
  function FramesToBytes(c: MediaConfig, frames: nat): nat {
    frames * FrameBytes(c) % WORD
  }

  function BytesToFrames(c: MediaConfig, bytes: nat): nat
    requires 0 < c.channels * FormatToBits(c.format) < WORD
  {
    bytes * 8 % WORD / (c.channels * FormatToBits(c.format))
  }

  /** A byte offset into a ring of frames gives back the frame it lies in, unless the bits overflow. */
  lemma FrameOfByte(c: MediaConfig, frames: nat, rest: nat)
    requires 0 < c.channels * FormatToBits(c.format) < WORD
    requires rest < FrameBytes(c) && (frames * FrameBytes(c) + rest) * 8 < WORD
    ensures FramesToBytes(c, frames) == frames * FrameBytes(c)
    ensures BytesToFrames(c, FramesToBytes(c, frames) + rest) == frames
  {
    var fb := FrameBytes(c);
    var bits := c.channels * FormatToBits(c.format);
    BitsOfFrame(c);
    DivUnique(frames * fb, WORD, 0, frames * fb);
    var total := (frames * fb + rest) * 8;
    DivUnique(total, WORD, 0, total);
    assert total == bits * frames + rest * 8 by {
      assert frames * fb * 8 == bits * frames;
    }
    DivUnique(total, bits, frames, rest * 8);
    assert BytesToFrames(c, frames * fb + rest) == total / bits;
  }

  lemma BitsOfFrame(c: MediaConfig)
    ensures c.channels * FormatToBits(c.format) == 8 * FrameBytes(c)
  {
  }

  /** A sample of 24 bits takes four bytes unless it is packed; a sample of 8 bits counts as one of 16. */
  lemma FrameSizes(channels: nat)
    ensures FrameBytes(MediaConfig(channels, S32_LE)) == FrameBytes(MediaConfig(channels, S24_LE)) == 4 * channels
    ensures FrameBytes(MediaConfig(channels, S24_3LE)) == 3 * channels
    ensures FrameBytes(MediaConfig(channels, S16_LE)) == FrameBytes(MediaConfig(channels, S8)) == 2 * channels
  {}

  // ---- the hardware pointer ----------------------------------------------------------------

  /** A ring of whole periods, and a boundary of whole rings at which the pointers wrap. */
  datatype Ring = Ring(period: nat, periods: nat, cycles: nat) {
    predicate Valid() { period > 0 && periods > 0 && cycles > 0 }

    function Size(): nat { periods * period }

    function Boundary(): nat { Size() * cycles }
  }

  datatype Pos = Pos(hw: nat, base: nat)

  // agm_pcm_plugin_update_hw_ptr, given the frame offset circ in the ring.
  function Update(g: Ring, p: Pos, circ: nat): Pos
    requires g.Valid()
  {
    var pos := FloorTo(circ, g.period);
    if p.base + pos < p.hw then
      var next := if p.base + g.Size() >= g.Boundary() then 0 else p.base + g.Size();
      Pos(next + pos, next)
    else Pos(p.base + pos, p.base)
  }

  /** p is the position of absolute frame a, floored to a period, and the start of its cycle. */
  ghost predicate Tracks(g: Ring, p: Pos, a: nat)
    requires g.Valid() && g.Size() > 0 && g.Boundary() > 0
  {
    && p.hw == FloorTo(a, g.period) % g.Boundary()
    && p.base == (a - a % g.Size()) % g.Boundary()
  }

  lemma RingPositive(g: Ring)
    requires g.Valid()
    ensures g.Size() >= g.period > 0 && g.Boundary() >= g.Size() > 0
  {
    assert g.periods * g.period >= g.period;
    assert g.Size() * g.cycles >= g.Size();
  }

  // The same in terms of cycle number and offset.
  lemma TracksCycle(g: Ring, p: Pos, a: nat)
    requires g.Valid() && g.Size() > 0 && g.Boundary() > 0
    ensures Tracks(g, p, a) <==>
            && p.hw == g.Size() * (a / g.Size() % g.cycles) + FloorTo(a % g.Size(), g.period)
            && p.base == g.Size() * (a / g.Size() % g.cycles)
    ensures FloorTo(a % g.Size(), g.period) < g.Size()
  {
    var ring := g.Size();
    var q, r := a / ring, a % ring;
    assert a == ring * q + r;
    FloorBounds(r, g.period);
    FloorCycle(ring, g.periods, g.period, q, r);
    CycleMod(ring, g.cycles, q, FloorTo(r, g.period));
    CycleMod(ring, g.cycles, q, 0);
    assert a - a % ring == ring * q + 0;
  }

  lemma NextCycle(q: nat, n: nat)
    requires n > 0
    ensures (q + 1) % n == if q % n + 1 == n then 0 else q % n + 1
  {
    assert q == n * (q / n) + q % n;
    if q % n + 1 == n {
      assert q + 1 == n * (q / n + 1) by { assert n * (q / n + 1) == n * (q / n) + n; }
      DivUnique(q + 1, n, q / n + 1, 0);
    } else {
      DivUnique(q + 1, n, q / n, q % n + 1);
    }
  }

  // At most one ring further on is the same cycle or the next.
  lemma Advance(ring: nat, a: nat, b: nat)
    requires ring > 0 && a <= b <= a + ring
    ensures b / ring == a / ring ==> a % ring <= b % ring
    ensures b / ring != a / ring ==> b / ring == a / ring + 1 && b % ring == a % ring + (b - a) - ring
  {
    var q, r := a / ring, a % ring;
    assert a == ring * q + r && b == ring * q + (r + b - a);
    if r + (b - a) < ring {
      DivUnique(b, ring, q, r + b - a);
    } else {
      assert b == ring * (q + 1) + (r + b - a - ring) by { assert ring * (q + 1) == ring * q + ring; }
      DivUnique(b, ring, q + 1, r + b - a - ring);
    }
  }

  /**
    One update after at most a ring of progress is right exactly if the hardware is still in the same
    cycle or its floored offset has become smaller (or the boundary is a single ring).
  */
  lemma UpdateExact(g: Ring, p: Pos, a: nat, b: nat)
    requires g.Valid() && g.Size() > 0 && g.Boundary() > 0
    requires Tracks(g, p, a) && a <= b <= a + g.Size()
    ensures Tracks(g, Update(g, p, b % g.Size()), b) <==>
            || b / g.Size() == a / g.Size()
            || FloorTo(b % g.Size(), g.period) < FloorTo(a % g.Size(), g.period)
            || g.cycles == 1
  {
    var ring := g.Size();
    var q := a / ring;
    var x, y := FloorTo(a % ring, g.period), FloorTo(b % ring, g.period);
    TracksCycle(g, p, a);
    TracksCycle(g, Update(g, p, b % ring), b);
    Advance(ring, a, b);
    if b / ring == q {
      FloorMonotone(a % ring, b % ring, g.period);
    } else {
      NextCycle(q, g.cycles);
      CycleStep(ring, g.cycles, q % g.cycles);
    }
  }

  lemma CycleStep(ring: nat, n: nat, v: nat)
    requires ring > 0 && v < n
    ensures ring * v + ring >= ring * n <==> v + 1 == n
    ensures ring * (v + 1) == ring * v + ring
    ensures ring * v == 0 <==> v == 0
  {
    if v + 1 < n {
      assert ring * (v + 2) <= ring * n;
    }
  }

  /** Progress of at most a ring less a period is always followed, across any number of wraps. */
  lemma UpdateTracks(g: Ring, p: Pos, a: nat, b: nat)
    requires g.Valid() && g.Size() > 0 && g.Boundary() > 0
    requires Tracks(g, p, a) && a <= b <= a + g.Size() - g.period
    ensures Tracks(g, Update(g, p, b % g.Size()), b)
  {
    RingPositive(g);
    UpdateExact(g, p, a, b);
    Advance(g.Size(), a, b);
    if b / g.Size() != a / g.Size() {
      FloorLess(b % g.Size(), a % g.Size(), g.period);
    }
  }

  /** The bound is tight: one frame more can go unnoticed. */
  lemma UpdateBoundTight(g: Ring, p: Pos)
    requires g.Valid() && g.Size() > 0 && g.Boundary() > 0 && g.cycles > 1
    requires Tracks(g, p, g.period - 1)
    ensures !Tracks(g, Update(g, p, g.Size() % g.Size()), g.Size())
    ensures g.Size() == (g.period - 1) + (g.Size() - g.period) + 1
  {
    RingPositive(g);
    UpdateExact(g, p, g.period - 1, g.Size());
    DivUnique(g.Size(), g.Size(), 1, 0);
    DivUnique(g.period - 1, g.Size(), 0, g.period - 1);
    DivUnique(g.period - 1, g.period, 0, g.period - 1);
    assert FloorTo(g.period - 1, g.period) == 0;
  }

  function Follow(g: Ring, p: Pos, samples: seq<nat>): Pos
    requires g.Valid() && g.Size() > 0
    decreases |samples|
  {
    if samples == [] then p
    else Update(g, Follow(g, p, samples[..|samples| - 1]), samples[|samples| - 1] % g.Size())
  }

  function Latest(a: nat, samples: seq<nat>): nat {
    if samples == [] then a else samples[|samples| - 1]
  }

  // From each sample to the next the hardware moves on by at most a ring less a period.
  ghost predicate Paced(g: Ring, a: nat, samples: seq<nat>)
    decreases |samples|
  {
    samples == [] ||
    var before := samples[..|samples| - 1];
    && Paced(g, a, before)
    && Latest(a, before) <= Latest(a, samples) <= Latest(a, before) + g.Size() - g.period
  }

  /** After any number of updates the pointers are those of the last sampled position. */
  lemma {:induction false} FollowTracks(g: Ring, p: Pos, a: nat, samples: seq<nat>)
    requires g.Valid() && g.Size() > 0 && g.Boundary() > 0 && Tracks(g, p, a) && Paced(g, a, samples)
    ensures Tracks(g, Follow(g, p, samples), Latest(a, samples))
    decreases |samples|
  {
    if samples != [] {
      var before := samples[..|samples| - 1];
      FollowTracks(g, p, a, before);
      UpdateTracks(g, Follow(g, p, before), Latest(a, before), Latest(a, samples));
    }
  }

  // ---- the boundary ------------------------------------------------------------------------

  function Pow2(k: nat): (r: nat)
    ensures r > 0
  {
    if k == 0 then 1 else 2 * Pow2(k - 1)
  }

  const LIMIT := 0x7fff_ffff

  /**
    The doubling loop of agm_pcm_mmap, in 32-bit unsigned arithmetic. (An empty ring, or one above the
    limit, would keep it running for ever.)
  */
  method ComputeBoundary(ring: nat) returns (boundary: nat, ghost k: nat)
    requires 0 < ring <= LIMIT
    ensures boundary == ring * Pow2(k) < WORD / 2
    ensures boundary == ring || boundary <= LIMIT - ring
    ensures forall l: nat :: ring * Pow2(l) <= LIMIT - ring ==> ring * Pow2(l) <= boundary
    ensures ring <= 0x2aaa_aaaa ==> boundary >= 2 * ring
  {
    boundary, k := ring, 0;
    DivUnique(boundary * 2, WORD, 0, boundary * 2);
    while boundary * 2 % WORD <= LIMIT - ring
      invariant boundary == ring * Pow2(k) && ring <= boundary
      invariant boundary == ring || boundary <= LIMIT - ring
      invariant k > 0 ==> boundary >= 2 * ring
      invariant boundary <= LIMIT && boundary * 2 % WORD == boundary * 2
      decreases LIMIT - boundary
    {
      boundary := boundary * 2 % WORD;
      Doubled(ring, k);
      k := k + 1;
      DivUnique(boundary * 2, WORD, 0, boundary * 2);
    }
    forall l: nat | ring * Pow2(l) <= LIMIT - ring ensures ring * Pow2(l) <= boundary {
      Doublings(ring, k, l);
    }
  }

  lemma Doublings(ring: nat, k: nat, l: nat)
    ensures l <= k ==> ring * Pow2(l) <= ring * Pow2(k)
    ensures l > k ==> 2 * (ring * Pow2(k)) <= ring * Pow2(l)
  {
    if l <= k {
      PowMonotone(l, k);
      MulLe(ring, Pow2(l), Pow2(k));
    } else {
      PowMonotone(k + 1, l);
      MulLe(ring, Pow2(k + 1), Pow2(l));
      Doubled(ring, k);
    }
  }

  lemma Doubled(ring: nat, k: nat)
    ensures ring * Pow2(k + 1) == 2 * (ring * Pow2(k))
  {
    var p := Pow2(k);
    assert Pow2(k + 1) == 2 * p;
    assert ring * (2 * p) == 2 * (ring * p);
  }

  lemma MulLe(m: nat, a: nat, b: nat)
    requires a <= b
    ensures m * a <= m * b
  {}

  lemma {:induction false} PowMonotone(k: nat, l: nat)
    requires k <= l
    ensures Pow2(k) <= Pow2(l)
    decreases l
  {
    if k < l {
      PowMonotone(k, l - 1);
    }
  }

  // ---- available frames and poll -----------------------------------------------------------

  datatype Mode = Out | In

  // agm_pcm_get_avail
  function Avail(mode: Mode, hw: nat, appl: nat, ring: nat, boundary: nat): int {
    match mode
    case Out =>
      var avail := hw + ring - appl;
      if avail < 0 then avail + boundary
      else if avail >= boundary then avail - boundary
      else avail
    case In =>
      var avail := hw - appl;
      if avail < 0 then avail + boundary else avail
  }

  // Frames written and not yet played, or captured and not yet read, seen modulo the boundary.
  function Queued(mode: Mode, hw: nat, appl: nat, boundary: nat): int
    requires boundary > 0
  {
    match mode
    case Out => (appl - hw) % boundary
    case In => (hw - appl) % boundary
  }

  /** Playback: the ring less what is queued, exactly when no more than a ring is. */
  lemma AvailIsRingLessQueued(hw: nat, appl: nat, ring: nat, boundary: nat)
    requires 0 < ring < boundary && hw < boundary && appl < boundary
    ensures 0 <= Avail(Out, hw, appl, ring, boundary) < boundary
    ensures Avail(Out, hw, appl, ring, boundary) == ring - Queued(Out, hw, appl, boundary) <==>
            Queued(Out, hw, appl, boundary) <= ring
    ensures Avail(In, hw, appl, ring, boundary) == Queued(In, hw, appl, boundary)
  {
    WrapOnce(appl - hw, boundary);
    WrapOnce(hw - appl, boundary);
  }

  lemma WrapOnce(x: int, m: int)
    requires 0 < m && -m < x < m
    ensures x % m == if x < 0 then x + m else x
  {
    if x < 0 {
      DivUnique(x, m, -1, x + m);
    } else {
      DivUnique(x, m, 0, x);
    }
  }

  /**
    Absolute positions: with the hardware at most boundary - ring ahead of and a ring behind the
    application, avail is the free room, or the captured frames.
  */
  lemma AvailOfPositions(g: Ring, floored: nat, appl: nat)
    requires g.Valid() && 0 < g.Size() < g.Boundary()
    ensures g.Size() - g.Boundary() < appl - floored <= g.Size() ==>
              Avail(Out, floored % g.Boundary(), appl % g.Boundary(), g.Size(), g.Boundary()) ==
              g.Size() - (appl - floored)
    ensures 0 <= floored - appl < g.Boundary() ==>
              Avail(In, floored % g.Boundary(), appl % g.Boundary(), g.Size(), g.Boundary()) == floored - appl
  {
    var b := g.Boundary();
    DivMod(floored, b);
    DivMod(appl, b);
    var hw, ap := floored % b, appl % b;
    var u := appl / b - floored / b;
    assert b * u == b * (appl / b) - b * (floored / b);
    assert appl - floored == b * u + (ap - hw);
    if u >= 2 {
      MulStep(b, 1, u);
    } else if u <= -2 {
      MulStep(b, u, -1);
    }
  }

  datatype PollResult = PollOut | PollIn | Timeout

  /** Any byte offset into the ring converts to the frame it lies in, if the ring's bits fit 32-bit arithmetic. */
  lemma FrameOfOffset(c: MediaConfig, ring: nat, frame: nat, offset: nat)
    requires 0 < c.channels * FormatToBits(c.format) < WORD && ring * FrameBytes(c) * 8 <= WORD
    requires frame < ring && FrameBytes(c) > 0 && offset / FrameBytes(c) == frame
    ensures BytesToFrames(c, offset) == frame
  {
    var fb := FrameBytes(c);
    DivMod(offset, fb);
    assert offset == frame * fb + offset % fb;
    MulStep(fb, frame, ring);
    assert fb * ring == ring * fb && fb * frame == frame * fb;
    FrameOfByte(c, frame, offset % fb);
  }

  lemma FrameHasBytes(c: MediaConfig)
    requires 0 < c.channels * FormatToBits(c.format)
    ensures FrameBytes(c) > 0
  {
    BitsOfFrame(c);
  }

  /** The position buffer of one stream; played is the absolute frame of the last successful update. */
  class Position {
    const g: Ring
    const config: MediaConfig
    ghost const doublings: nat
    var hw: nat
    var base: nat
    var appl: nat
    ghost var played: nat

    ghost predicate Valid()
      reads this
    {
      && g.Valid() && 0 < g.Size() < g.Boundary() && g.cycles == Pow2(doublings)
      && 0 < config.channels * FormatToBits(config.format) < WORD
      && g.Size() * FrameBytes(config) * 8 <= WORD
      && Tracks(g, Pos(hw, base), played)
    }

    // With the boundary that agm_pcm_mmap computes.
    constructor (period: nat, periods: nat, config: MediaConfig)
      requires period > 0 && periods > 0 && periods * period <= 0x2aaa_aaaa
      requires 0 < config.channels * FormatToBits(config.format) < WORD
      requires periods * period * FrameBytes(config) * 8 <= WORD
      ensures Valid() && g.period == period && g.periods == periods && this.config == config
      ensures played == 0 && appl == 0
      ensures g.Boundary() < WORD / 2 && g.Boundary() <= LIMIT - g.Size()
      ensures forall l: nat :: g.Size() * Pow2(l) <= LIMIT - g.Size() ==> g.Size() * Pow2(l) <= g.Boundary()
    {
      var ring := periods * period;
      MulStep(period, 0, periods);
      assert ring >= period;
      var boundary;
      ghost var k;
      boundary, k := ComputeBoundary(ring);
      DivUnique(boundary, ring, Pow2(k), 0);
      g := Ring(period, periods, boundary / ring);
      this.config, doublings := config, k;
      hw, base, appl, played := 0, 0, 0, 0;
      new;
      RingPositive(g);
      DivUnique(0, g.period, 0, 0);
      DivUnique(0, g.Size(), 0, 0);
      DivUnique(0, g.Boundary(), 0, 0);
    }

    // Successful answers are byte offsets into the ring, within the given frame.
    ghost predicate Samples(samples: seq<Option<nat>>, now: nat)
      reads this
      requires Valid() && |samples| >= 10
    {
      FrameHasBytes(config);
      forall k :: 0 <= k < 10 && samples[k].Some? ==> samples[k].value / FrameBytes(config) == now % g.Size()
    }

    /**
      samples are the answers of the shared position buffer, in turn: a byte offset into the ring, or none when
      the frame counter moved. Ten are tried. now is the absolute frame the offsets stand for.
    */
    method UpdateHwPtr(samples: seq<Option<nat>>, ghost now: nat) returns (ok: bool)
      requires Valid() && |samples| >= 10
      requires played <= now <= played + g.Size() - g.period
      requires Samples(samples, now)
      modifies this`hw, this`base, this`played
      ensures Valid()
      ensures ok <==> exists k :: 0 <= k < 10 && samples[k].Some?
      ensures played == if ok then now else old(played)
      ensures !ok ==> hw == old(hw) && base == old(base)
    {
      var retries, next := 10, 0;
      var sample := samples[0];
      while sample.None? && retries > 1
        invariant 1 <= retries <= 10 && next == 10 - retries && sample == samples[next]
        invariant forall k :: 0 <= k < next ==> samples[k].None?
        decreases retries
      {
        retries, next := retries - 1, next + 1;
        sample := samples[next];
      }
      ok := sample.Some?;
      if ok {
        FrameHasBytes(config);
        FrameOfOffset(config, g.Size(), now % g.Size(), sample.value);
        UpdateTracks(g, Pos(hw, base), played, now);
        var pos := FloorTo(BytesToFrames(config, sample.value), g.period);
        var newBase := base;
        var newHw := newBase + pos;
        if newHw < hw {
          newBase := newBase + g.Size();
          if newBase >= g.Boundary() {
            newBase := 0;
          }
          newHw := newBase + pos;
          base := newBase;
        }
        hw := newHw;
        played := now;
      }
    }

    /** agm_pcm_poll. written is the application's absolute position, now the hardware's if it is asked. */
    method Poll(mode: Mode, samples: seq<Option<nat>>, ghost written: nat, ghost now: nat) returns (r: PollResult)
      requires Valid() && |samples| >= 10
      requires played <= now <= played + g.Size() - g.period
      requires Samples(samples, now)
      requires appl == written % g.Boundary()
      requires match mode
               case Out => g.Size() - g.Boundary() < written - now && written - FloorTo(played, g.period) <= g.Size()
               case In => written <= FloorTo(played, g.period) && now < written + g.Boundary()
      modifies this`hw, this`base, this`played
      ensures Valid()
      // The shared position is read only if the last known one leaves less than a period.
      ensures var enough := match mode
                            case Out => g.Size() - (written - FloorTo(old(played), g.period)) >= g.period
                            case In => FloorTo(old(played), g.period) - written >= g.period;
              played == if !enough && (exists k :: 0 <= k < 10 && samples[k].Some?) then now else old(played)
      // The answer follows from the position known then.
      ensures mode == Out ==>
                r == if g.Size() - (written - FloorTo(played, g.period)) >= g.period then PollOut else Timeout
      ensures mode == In ==>
                r == if FloorTo(played, g.period) - written >= g.period then PollIn else Timeout
      ensures r == PollOut ==> g.Size() - (written - now) >= g.period
      ensures r == PollIn ==> now - written >= g.period
    {
      FloorMonotone(played, now, g.period);
      FloorBounds(now, g.period);
      FloorBounds(played, g.period);
      AvailOfPositions(g, FloorTo(played, g.period), written);
      AvailOfPositions(g, FloorTo(now, g.period), written);
      var avail := Avail(mode, hw, appl, g.Size(), g.Boundary());
      if avail < g.period {
        var ok := UpdateHwPtr(samples, now);
        if ok {
          avail := Avail(mode, hw, appl, g.Size(), g.Boundary());
        }
      }
      if avail >= g.period {
        r := if mode == In then PollIn else PollOut;
      } else {
        r := Timeout;
      }
    }
  }
}
