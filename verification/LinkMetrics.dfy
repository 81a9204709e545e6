/**
 Link metrics: airtime samples, their integer moving average in 32-bit arithmetic, and the
 hysteresis between the average and the value reported to routing.
 */
module LinkMetrics {
  import opened MeshTypes

  const TWO32 := 0x1_0000_0000

  // ----- Samples

  /** Airtime of a link from its expected throughput, a 32-bit number. */
  function BitrateToAirtime(rate: nat): nat {
    if rate == 0 then 0x7fff_ffff
    else
      var mbps := 1 + (rate - 1) / 100;
      var txTime := 256 + 20971520 / mbps;
      U32(txTime * 256) / 65536
  }

  function RssiToAirtime(rssi: int): nat {
    if rssi == 0 then 0x7fff_ffff
    else
      8192 / (if rssi >= -51 then 867 else if rssi >= -53 then 780 else if rssi >= -58 then 650
              else if rssi >= -59 then 585 else if rssi >= -60 then 520 else if rssi >= -64 then 390
              else if rssi >= -68 then 260 else if rssi >= -71 then 195 else if rssi >= -73 then 130 else 65)
  }

  const MAX_AIRTIME := 40961

  predicate Airtime(m: nat) { 1 <= m <= MAX_AIRTIME }

  lemma DivAntitone(a: nat, b: nat, c: nat)
    requires 1 <= b <= c
    ensures a / c <= a / b
  {
    var q, r := a / b, a / c;
    DivBounds(a, b);
    DivBounds(a, c);
    Monotone(b, c, r);
    if r > q { Monotone(q + 1, r, b); assert false; }
  }

  lemma Quotient(n: nat, k: nat, r: nat)
    requires n == k * 65536 + r && r < 65536
    ensures n / 65536 == k
  {
  }

  lemma ShiftsAreDivision(txTime: nat)
    requires txTime * 256 < TWO32
    ensures U32(txTime * 256) / 65536 == txTime / 256
  {
    var k, r := txTime / 256, txTime % 256;
    assert U32(txTime * 256) == txTime * 256;
    Quotient(txTime * 256, k, r * 256);
  }

  /** Above a throughput of 100 the product fits 32 bits, so the shifts are plain division. */
  lemma AirtimeExact(rate: nat)
    requires rate > 100
    ensures BitrateToAirtime(rate) == (256 + 20971520 / (1 + (rate - 1) / 100)) / 256
    ensures 20971520 / (1 + (rate - 1) / 100) <= 10485760
  {
    var mbps := 1 + (rate - 1) / 100;
    assert mbps >= 2;
    assert 20971520 / mbps <= 10485760 by { DivAntitone(20971520, 2, mbps); }
    ShiftsAreDivision(256 + 20971520 / mbps);
  }

  /** Airtime of any usable link lies in [1, 40961]; at throughputs 1 to 100 the 32-bit product wraps. */
  lemma AirtimeRange(rate: nat)
    requires rate >= 1
    ensures Airtime(BitrateToAirtime(rate))
    ensures rate <= 100 ==> BitrateToAirtime(rate) == 16385
  {
    if rate > 100 { AirtimeExact(rate); } else { AirtimeWrapped(rate); }
  }

  lemma AirtimeWrapped(rate: nat)
    requires 1 <= rate <= 100
    ensures BitrateToAirtime(rate) == 16385
  {
    var mbps := 1 + (rate - 1) / 100;
    assert mbps == 1;
    assert 256 + 20971520 / mbps == 20971776;
  }

  /** A faster link has no larger airtime, unless the product wraps for the slower one and the faster one
      is at most 400. */
  lemma AirtimeNonIncreasingIff(a: nat, b: nat)
    requires 1 <= a <= b
    ensures BitrateToAirtime(b) <= BitrateToAirtime(a) <==> a > 100 || b <= 100 || b > 400
  {
    if a > 100 {
      AirtimeExact(a);
      AirtimeExact(b);
      DivAntitone(20971520, 1 + (a - 1) / 100, 1 + (b - 1) / 100);
    } else {
      AirtimeWrapped(a);
      if b <= 100 { AirtimeWrapped(b); } else { AirtimeAgainstWrapped(b); }
    }
  }

  lemma AirtimeAgainstWrapped(rate: nat)
    requires rate > 100
    ensures BitrateToAirtime(rate) <= 16385 <==> rate > 400
  {
    AirtimeExact(rate);
    var mbps := 1 + (rate - 1) / 100;
    if rate > 400 { DivAntitone(20971520, 5, mbps); } else { DivAntitone(20971520, mbps, 4); }
  }

  /** ... and then it does have more: 101 is faster than 100. */
  lemma AirtimeWrapExample()
    ensures BitrateToAirtime(101) > BitrateToAirtime(100)
  {
    AirtimeNonIncreasingIff(100, 101);
  }

  /** The signal strengths at which the airtime steps, and its value on both sides of each. */
  lemma RssiSteps()
    ensures RssiToAirtime(-51) == 9 && RssiToAirtime(-52) == RssiToAirtime(-53) == 10
    ensures RssiToAirtime(-54) == RssiToAirtime(-58) == 12 && RssiToAirtime(-59) == 14 && RssiToAirtime(-60) == 15
    ensures RssiToAirtime(-61) == RssiToAirtime(-64) == 21 && RssiToAirtime(-65) == RssiToAirtime(-68) == 31
    ensures RssiToAirtime(-69) == RssiToAirtime(-71) == 42 && RssiToAirtime(-72) == RssiToAirtime(-73) == 63
    ensures RssiToAirtime(-74) == 126
  {
  }

  /** A weaker signal never has the smaller airtime; the airtime is between 9 and 126. */
  lemma RssiMonotone(a: int, b: int)
    requires a <= b && a != 0 && b != 0
    ensures 9 <= RssiToAirtime(b) <= RssiToAirtime(a) <= 126
  {
  }

  /** Rounding to nearest, halves up, of a non-negative number. */
  function Round(x: real): int { (x + 0.5).Floor }

  datatype Station = Station(mac: Mac, expectedThroughput: nat, signalAvgDbm: int)

  /** The RSSI based airtime, or the bitrate based one when it looks broken. */
  function RssiAirtime(sta: Station): nat {
    var r := RssiToAirtime(sta.signalAvgDbm);
    if r == 0 || r > 1000 then BitrateToAirtime(sta.expectedThroughput) else r
  }

  function Blend(weight: real, bitrate: nat, rssi: nat): int {
    Round((1.0 - weight) * bitrate as real + weight * rssi as real)
  }

  /** `s` is the whole number nearest to the mean, with halves rounded up. */
  predicate MeanRounded(weight: real, bitrate: nat, rssi: nat, s: int) {
    var v := (1.0 - weight) * bitrate as real + weight * rssi as real;
    v - 0.5 < s as real <= v + 0.5
  }

  /** The blend is the whole number nearest to the weighted mean; the weight is that of the signal strength. */
  lemma BlendIsMean(weight: real, bitrate: nat, rssi: nat)
    ensures MeanRounded(weight, bitrate, rssi, Blend(weight, bitrate, rssi))
    ensures Blend(0.0, bitrate, rssi) == bitrate && Blend(1.0, bitrate, rssi) == rssi
  {
  }

  /** Idle stations and base-rate frames give no sample. */
  predicate Sampled(sta: Station, baseBitrate: nat) {
    sta.expectedThroughput != 0 && sta.expectedThroughput != baseBitrate
  }

  /** Every sample lies in the airtime range. */
  lemma SampleRange(sta: Station, weight: real)
    requires sta.expectedThroughput >= 1 && 0.0 <= weight <= 1.0
    ensures 1 <= Blend(weight, BitrateToAirtime(sta.expectedThroughput), RssiAirtime(sta)) <= MAX_AIRTIME
  {
    AirtimeRange(sta.expectedThroughput);
    BlendRange(weight, BitrateToAirtime(sta.expectedThroughput), RssiAirtime(sta), 1, MAX_AIRTIME);
  }

  /** A weighted mean of two numbers between `lo` and `hi`, rounded, is between them. */
  lemma BlendRange(weight: real, a: nat, b: nat, lo: nat, hi: nat)
    requires 0.0 <= weight <= 1.0 && lo <= a <= hi && lo <= b <= hi
    ensures lo <= Blend(weight, a, b) <= hi
  {
    var v := (1.0 - weight) * a as real + weight * b as real;
    MeanBounds(1.0 - weight, weight, a as real, b as real, lo as real, hi as real);
    RoundBounds(v, lo, hi);
  }

  lemma RoundBounds(v: real, lo: int, hi: int)
    requires lo as real <= v <= hi as real
    ensures lo <= Round(v) <= hi
  {
    assert Round(v) as real <= v + 0.5 < Round(v) as real + 1.0;
  }

  lemma MeanBounds(u: real, w: real, x: real, y: real, l: real, h: real)
    requires 0.0 <= w && 0.0 <= u && u + w == 1.0 && l <= x <= h && l <= y <= h
    ensures l <= u * x + w * y <= h
  {
    NonNegative(u, x - l);
    NonNegative(w, y - l);
    MeanFrom(u, w, x, y, l);
    NonNegative(u, h - x);
    NonNegative(w, h - y);
    MeanFrom(u, w, x, y, h);
  }

  /** A mean is as far from `c` as the mean of the distances. */
  lemma MeanFrom(u: real, w: real, x: real, y: real, c: real)
    requires u + w == 1.0
    ensures u * x + w * y == c + (u * (x - c) + w * (y - c))
    ensures u * x + w * y == c - (u * (c - x) + w * (c - y))
  {
    assert u * (x - c) == u * x - u * c && w * (y - c) == w * y - w * c;
    assert u * (c - x) == u * c - u * x && w * (c - y) == w * c - w * y;
    assert u * c + w * c == (u + w) * c == c;
  }

  lemma NonNegative(a: real, b: real)
    requires 0.0 <= a && 0.0 <= b
    ensures 0.0 <= a * b
  {
  }

  // ----- The moving average, scaled by `p` (a power of two in the program)

  /** One update in wrapping 32-bit arithmetic. */
  function Ewma(e: nat, sample: nat, p: nat): nat
    requires p >= 1
  {
    U32(e + U32(sample - e / p))
  }

  /** Within the range the wrapping update is the exact one and stays in the range. */
  lemma EwmaExact(e: nat, sample: nat, p: nat, lo: nat, hi: nat)
    requires p >= 1 && hi * p < TWO32 && lo <= sample <= hi && lo * p <= e <= hi * p
    ensures Ewma(e, sample, p) == e + sample - e / p
    ensures lo * p <= Ewma(e, sample, p) <= hi * p
  {
    EwmaRange(e, sample, p, lo, hi);
    assert hi <= hi * p by { Split(hi, p); Monotone(0, hi, p - 1); }
    WrapTwice(e, sample - e / p);
  }

  lemma WrapTwice(e: nat, d: int)
    requires e < TWO32 && -TWO32 < d < TWO32 && 0 <= e + d < TWO32
    ensures U32(e + U32(d)) == e + d
  {
    assert U32(d) == if d >= 0 then d else d + TWO32;
  }

  lemma EwmaRange(e: nat, sample: nat, p: nat, lo: nat, hi: nat)
    requires p >= 1 && lo <= sample <= hi && lo * p <= e <= hi * p
    ensures lo * p <= e + sample - e / p <= hi * p
    ensures lo <= e / p <= hi
  {
    QuotientRange(e, p, lo, hi);
    EwmaParts(e / p, e % p, sample, p, lo, hi);
  }

  lemma QuotientRange(e: nat, p: nat, lo: nat, hi: nat)
    requires p >= 1 && lo * p <= e <= hi * p
    ensures lo <= e / p <= hi
    ensures e == (e / p) * p + e % p && 0 <= e % p < p
  {
    DivBounds(e, p);
    var q := e / p;
    if q < lo { Monotone(q + 1, lo, p); assert false; }
    if q > hi { Monotone(hi + 1, q, p); assert false; }
  }

  lemma Split(x: int, p: int)
    ensures x * p == x * (p - 1) + x
  {
  }

  /** The update in terms of quotient and remainder. */
  lemma EwmaParts(q: nat, r: nat, sample: nat, p: nat, lo: nat, hi: nat)
    requires p >= 1 && r < p && lo <= sample <= hi && lo <= q <= hi && q * p + r <= hi * p
    ensures lo * p <= q * p + r + sample - q <= hi * p
  {
    var p1 := p - 1;
    Split(q, p);
    Split(lo, p);
    Split(hi, p);
    Monotone(lo, q, p1);
    if q < hi {
      Monotone(q + 1, hi, p1);
      assert (q + 1) * p1 == q * p1 + p1;
    }
  }

  function Distance(e: nat, sample: nat, p: nat): nat {
    if e <= sample * p then sample * p - e else e - sample * p
  }

  /** Under a constant sample the average moves towards it, strictly until it shows it, and never
      past it; once it shows the sample it does not move. */
  lemma EwmaApproaches(e: nat, sample: nat, p: nat)
    requires p >= 1 && e < TWO32 && sample * p < TWO32
    ensures var e' := Ewma(e, sample, p);
            && e' < TWO32
            && (e / p == sample ==> e' == e)
            && (e / p < sample ==> e < e' <= sample * p)
            && (e / p > sample ==> sample * p <= e' < e)
            && (e / p != sample ==> Distance(e', sample, p) < Distance(e, sample, p))
  {
    var q, r := e / p, e % p;
    assert e == q * p + r;
    assert sample <= sample * p by { Split(sample, p); Monotone(0, sample, p - 1); }
    assert q <= q * p by { Split(q, p); Monotone(0, q, p - 1); }
    MoveParts(q, r, sample, p);
    WrapTwice(e, sample - q);
  }

  /** The direction and the limit of a move. */
  lemma MoveParts(q: nat, r: nat, sample: nat, p: nat)
    requires p >= 1 && r < p
    ensures q < sample ==> q * p + r + sample - q <= sample * p
    ensures q > sample ==> sample * p <= q * p + r + sample - q
  {
    if q < sample {
      Monotone(q + 1, sample, p);
      assert (q + 1) * p == q * p + p;
      EwmaParts(q, r, sample, p, q, sample);
    } else {
      Split(q, p);
      Split(sample, p);
      Monotone(sample, q, p - 1);
    }
  }

  function Repeat(e: nat, sample: nat, p: nat, n: nat): nat
    requires p >= 1
    decreases n
  {
    if n == 0 then e else Repeat(Ewma(e, sample, p), sample, p, n - 1)
  }

  /** After finitely many equal samples the average shows that sample, and goes on showing it. */
  lemma EwmaSettles(e: nat, sample: nat, p: nat) returns (n: nat)
    requires p >= 1 && e < TWO32 && sample * p < TWO32
    ensures n <= Distance(e, sample, p)
    ensures forall k: nat | k >= n :: Repeat(e, sample, p, k) / p == sample
    decreases Distance(e, sample, p)
  {
    EwmaApproaches(e, sample, p);
    if e / p == sample {
      n := 0;
      forall k: nat ensures Repeat(e, sample, p, k) == e { Stays(e, sample, p, k); }
    } else {
      var m := EwmaSettles(Ewma(e, sample, p), sample, p);
      n := m + 1;
      forall k: nat | k >= n ensures Repeat(e, sample, p, k) / p == sample {
        assert Repeat(e, sample, p, k) == Repeat(Ewma(e, sample, p), sample, p, k - 1);
      }
    }
  }

  lemma {:induction false} Stays(e: nat, sample: nat, p: nat, k: nat)
    requires p >= 1 && e < TWO32 && sample * p < TWO32 && e / p == sample
    ensures Repeat(e, sample, p, k) == e
  {
    EwmaApproaches(e, sample, p);
    if k > 0 { Stays(e, sample, p, k - 1); }
  }

  // ----- A peer's metric

  datatype Metric = Metric(ewma: nat, reported: nat, count: nat)

  const WARM_UP := 10

  /** The metric before the first sample is counted. */
  function Seeded(m: Option<Metric>, sample: nat, p: nat): Metric {
    if m.Some? then m.value else Metric(U32(sample * p), 0, 0)
  }

  /** One sample: one update, and up to ten more while the peer is new. */
  function Absorb(m: Metric, sample: nat, p: nat): Metric
    requires p >= 1
  {
    var once := Ewma(m.ewma, sample, p);
    if m.count < WARM_UP
    then Metric(Repeat(once, sample, p, WARM_UP - m.count), m.reported, m.count + 1)
    else m.(ewma := once)
  }

  function Sample(m: Option<Metric>, sample: nat, p: nat): Metric
    requires p >= 1
  {
    Absorb(Seeded(m, sample, p), sample, p)
  }

  /** The test for leaving the hysteresis band, in 32-bit arithmetic. */
  predicate Outside(ewma: nat, reported: nat, hysteresis: nat) {
    ewma > U32(reported + hysteresis) || ewma < reported - hysteresis
  }

  lemma NotOutside(ewma: nat, reported: nat, hysteresis: nat)
    requires !Outside(ewma, reported, hysteresis)
    ensures reported - hysteresis <= ewma <= reported + hysteresis
  {
    assert U32(reported + hysteresis) <= reported + hysteresis;
  }

  /** What a query leaves behind, with hysteresis `reported / band`. */
  function Report(m: Metric, band: nat): Metric
    requires band >= 1
  {
    var reported := if m.reported == 0 then m.ewma else m.reported;
    var hysteresis := reported / band;
    if Outside(m.ewma, reported, hysteresis) then m.(reported := m.ewma)
    else m.(reported := reported)
  }

  predicate Bounded(m: Metric, p: nat, lo: nat, hi: nat) {
    && lo * p <= m.ewma <= hi * p
    && (m.reported == 0 || lo * p <= m.reported <= hi * p)
    && m.count <= WARM_UP
  }

  lemma {:induction false} RepeatRange(e: nat, sample: nat, p: nat, n: nat, lo: nat, hi: nat)
    requires p >= 1 && hi * p < TWO32 && lo <= sample <= hi && lo * p <= e <= hi * p
    ensures lo * p <= Repeat(e, sample, p, n) <= hi * p
    decreases n
  {
    if n > 0 {
      EwmaExact(e, sample, p, lo, hi);
      RepeatRange(Ewma(e, sample, p), sample, p, n - 1, lo, hi);
    }
  }

  lemma SampleBounded(m: Option<Metric>, sample: nat, p: nat, lo: nat, hi: nat)
    requires p >= 1 && hi * p < TWO32 && lo <= sample <= hi && (m.Some? ==> Bounded(m.value, p, lo, hi))
    ensures Bounded(Sample(m, sample, p), p, lo, hi)
  {
    Monotone(lo, sample, p);
    Monotone(sample, hi, p);
    var m1 := Seeded(m, sample, p);
    EwmaExact(m1.ewma, sample, p, lo, hi);
    if m1.count < WARM_UP { RepeatRange(Ewma(m1.ewma, sample, p), sample, p, WARM_UP - m1.count, lo, hi); }
  }

  predicate InBand(ewma: nat, reported: nat, band: nat)
    requires band >= 1
  {
    reported - reported / band <= ewma <= reported + reported / band
  }

  lemma ReportInBand(m: Metric, band: nat)
    requires band >= 1 && m.ewma < TWO32 && m.reported < TWO32
    ensures var m' := Report(m, band);
            && m'.ewma == m.ewma && m'.count == m.count && (m'.reported == m.reported || m'.reported == m.ewma)
            && (m.ewma != 0 ==> m'.reported != 0)
            && InBand(m'.ewma, m'.reported, band)
  {
    var r := if m.reported == 0 then m.ewma else m.reported;
    assert 0 <= r / band && 0 <= m.ewma / band;
    if !Outside(m.ewma, r, r / band) { NotOutside(m.ewma, r, r / band); }
  }

  /** A second query in a row changes nothing. */
  lemma ReportTwice(m: Metric, band: nat)
    requires band >= 1
    ensures Report(Report(m, band), band) == Report(m, band)
  {
  }

  /** After a query the reported value is within its hysteresis of the average, inside the range, and
      never the sentinel 0. */
  lemma ReportBounded(m: Metric, p: nat, band: nat, lo: nat, hi: nat)
    requires p >= 1 && band >= 1 && lo >= 1 && hi * p < TWO32 && Bounded(m, p, lo, hi)
    ensures var m' := Report(m, band);
            && Bounded(m', p, lo, hi) && m'.ewma == m.ewma
            && InBand(m'.ewma, m'.reported, band)
            && m'.reported != 0
            && lo <= m'.reported / p <= hi
  {
    assert lo * p >= 1 by { Monotone(1, lo, p); }
    ReportInBand(m, band);
    QuotientRange(Report(m, band).reported, p, lo, hi);
  }

  /** A reported value changes exactly when the average leaves its band, or the upper edge of the band
      wraps below the average. */
  lemma ReportChanges(m: Metric, band: nat)
    requires band >= 1 && m.reported != 0 && m.reported < TWO32
    ensures var r, upper := m.reported, m.reported + m.reported / band;
            Report(m, band).reported == r <==>
              m.ewma == r || (InBand(m.ewma, r, band) && (upper < TWO32 || m.ewma <= upper - TWO32))
  {
    var upper := m.reported + m.reported / band;
    assert upper < 2 * TWO32;
    assert U32(upper) == if upper < TWO32 then upper else upper - TWO32;
  }

  /** The first sample is taken over as it is. */
  lemma FirstSample(sample: nat, p: nat)
    requires p >= 1 && sample * p < TWO32
    ensures Sample(None, sample, p) == Metric(sample * p, 0, 1)
  {
    Exactly(sample, p);
    Stays(sample * p, sample, p, WARM_UP);
    EwmaApproaches(sample * p, sample, p);
  }

  lemma Exactly(sample: nat, p: nat)
    requires p >= 1
    ensures sample * p / p == sample
  {
    DivBounds(sample * p, p);
    var q := sample * p / p;
    if q < sample { Monotone(q + 1, sample, p); }
    if q > sample { Monotone(sample + 1, q, p); }
  }

  /** Successive values of the average under one sample, in integers. */
  predicate Steps(xs: seq<nat>, sample: nat, p: nat)
    requires p >= 1
  {
    forall i | 0 <= i < |xs| - 1 :: xs[i + 1] == xs[i] + sample - xs[i] / p
  }

  lemma {:induction false} RepeatSteps(e: nat, sample: nat, p: nat, n: nat, lo: nat, hi: nat) returns (xs: seq<nat>)
    requires p >= 1 && hi * p < TWO32 && lo <= sample <= hi && lo * p <= e <= hi * p
    ensures |xs| == n + 1 && xs[0] == e && xs[n] == Repeat(e, sample, p, n) && Steps(xs, sample, p)
    decreases n
  {
    xs := [e];
    if n > 0 {
      EwmaExact(e, sample, p, lo, hi);
      var rest := RepeatSteps(Ewma(e, sample, p), sample, p, n - 1, lo, hi);
      xs := [e] + rest;
    }
  }

  /** A sample moves the average in so many steps: while a peer is new eleven less the samples counted so far,
      later one. Up to ten samples are counted, and nothing is reported. */
  lemma AbsorbSteps(m: Metric, sample: nat, p: nat, lo: nat, hi: nat) returns (xs: seq<nat>)
    requires p >= 1 && hi * p < TWO32 && lo <= sample <= hi && Bounded(m, p, lo, hi)
    ensures |xs| == 1 + (if m.count < 10 then 11 - m.count else 1) && xs[0] == m.ewma && Steps(xs, sample, p)
    ensures var m' := Absorb(m, sample, p);
            && m'.ewma == xs[|xs| - 1] && m'.reported == m.reported
            && m'.count == if m.count < 10 then m.count + 1 else m.count
  {
    xs := RepeatSteps(m.ewma, sample, p, if m.count < 10 then 11 - m.count else 1, lo, hi);
    assert Repeat(m.ewma, sample, p, 1) == Ewma(m.ewma, sample, p);
  }

  // ----- A peer over time

  datatype PeerEvent = Sampling(sample: nat) | Query

  function PeerNext(m: Option<Metric>, ev: PeerEvent, p: nat, band: nat): Option<Metric>
    requires p >= 1 && band >= 1
  {
    match ev
    case Sampling(sample) => Some(Sample(m, sample, p))
    case Query => if m.Some? then Some(Report(m.value, band)) else None
  }

  function PeerRun(evs: seq<PeerEvent>, p: nat, band: nat): Option<Metric>
    requires p >= 1 && band >= 1
  {
    if evs == [] then None else PeerNext(PeerRun(evs[..|evs| - 1], p, band), evs[|evs| - 1], p, band)
  }

  predicate Within(evs: seq<PeerEvent>, lo: nat, hi: nat) {
    forall i | 0 <= i < |evs| :: evs[i].Sampling? ==> lo <= evs[i].sample <= hi
  }

  lemma {:induction false} PeerBounded(evs: seq<PeerEvent>, p: nat, band: nat, lo: nat, hi: nat)
    requires p >= 1 && band >= 1 && 1 <= lo <= hi && hi * p < TWO32 && Within(evs, lo, hi)
    ensures PeerRun(evs, p, band).Some? ==> Bounded(PeerRun(evs, p, band).value, p, lo, hi)
  {
    if evs != [] {
      var init, last := evs[..|evs| - 1], evs[|evs| - 1];
      PeerBounded(init, p, band, lo, hi);
      var m := PeerRun(init, p, band);
      match last
      case Sampling(sample) => SampleBounded(m, sample, p, lo, hi);
      case Query => if m.Some? { ReportBounded(m.value, p, band, lo, hi); }
    }
  }

  /** Over every history of samples and queries: what a query answers lies within the range of that
      peer's samples so far and is within the hysteresis of the average. */
  lemma QueryAnswer(evs: seq<PeerEvent>, p: nat, band: nat, lo: nat, hi: nat)
    requires p >= 1 && band >= 1 && 1 <= lo <= hi && hi * p < TWO32 && Within(evs, lo, hi)
    requires PeerRun(evs, p, band).Some?
    ensures var m := PeerRun(evs + [Query], p, band);
            && m.Some? && lo <= m.value.reported / p <= hi && m.value.reported != 0
            && m.value.ewma == PeerRun(evs, p, band).value.ewma
            && InBand(m.value.ewma, m.value.reported, band)
  {
    PeerBounded(evs, p, band, lo, hi);
    ReportBounded(PeerRun(evs, p, band).value, p, band, lo, hi);
    assert (evs + [Query])[..|evs|] == evs;
  }
}
