/**
 The metric manager object: per-peer metrics updated in place, proved to follow `LinkMetrics`.
 Its answer is the positive, bounded link metric that the routing theorems start from.
 */
module MetricManager {
  import opened MeshTypes
  import opened LinkMetrics

  function Lookup(metrics: map<Mac, Metric>, mac: Mac): Option<Metric> {
    if mac in metrics then Some(metrics[mac]) else None
  }

  /** The settings: averaging by 2^ewmaFactor, a hysteresis of reported / 2^hysteresisFactor. */
  datatype Settings = Settings(ewmaFactor: nat, hysteresisFactor: nat, baseBitrate: nat, rssiWeight: real)
  {
    function Scale(): nat { Pow2(ewmaFactor) }
    function Band(): nat { Pow2(hysteresisFactor) }
    /** The largest airtime, scaled, fits 32 bits. */
    predicate Sound() { MAX_AIRTIME * Scale() < TWO32 && 0.0 <= rssiWeight <= 1.0 }
  }

  /** The sample a station's report gives, if any. */
  function SampleOf(c: Settings, sta: Station): (sample: Option<nat>)
    requires c.Sound()
    ensures sample.Some? <==> Sampled(sta, c.baseBitrate)
    ensures sample.Some? ==> Airtime(sample.value)
  {
    if !Sampled(sta, c.baseBitrate) then None
    else
      SampleRange(sta, c.rssiWeight);
      Some(Blend(c.rssiWeight, BitrateToAirtime(sta.expectedThroughput), RssiAirtime(sta)))
  }

  /** The sample is the whole number nearest to the mean of two airtimes, that of the throughput and that of the
      signal strength, the latter replaced by the former where it is out of range. */
  lemma SampleIsMean(c: Settings, sta: Station)
    requires c.Sound() && Sampled(sta, c.baseBitrate)
    ensures var rate, rssi := BitrateToAirtime(sta.expectedThroughput), RssiToAirtime(sta.signalAvgDbm);
            MeanRounded(c.rssiWeight, rate, if 1 <= rssi <= 1000 then rssi else rate, SampleOf(c, sta).value)
  {
    BlendIsMean(c.rssiWeight, BitrateToAirtime(sta.expectedThroughput), RssiAirtime(sta));
  }

  /** One station's report applied to the table. */
  function Noted(c: Settings, metrics: map<Mac, Metric>, sta: Station): map<Mac, Metric>
    requires c.Sound()
  {
    match SampleOf(c, sta)
    case None => metrics
    case Some(sample) => metrics[sta.mac := Sample(Lookup(metrics, sta.mac), sample, c.Scale())]
  }

  /** What becomes of a known peer: its average moves towards the sample step by step. */
  ghost predicate Moved(m: Metric, sample: nat, p: nat, m': Metric)
    requires p >= 1
  {
    exists xs: seq<nat> :: MovedBy(m, sample, p, m', xs)
  }

  predicate MovedBy(m: Metric, sample: nat, p: nat, m': Metric, xs: seq<nat>)
    requires p >= 1
  {
    && |xs| == 1 + (if m.count < 10 then 11 - m.count else 1) && xs[0] == m.ewma && Steps(xs, sample, p)
    && m' == Metric(xs[|xs| - 1], m.reported, if m.count < 10 then m.count + 1 else m.count)
  }

  lemma AbsorbMoves(c: Settings, m: Metric, sample: nat)
    requires c.Sound() && Bounded(m, c.Scale(), 1, MAX_AIRTIME) && Airtime(sample)
    ensures Moved(m, sample, c.Scale(), Absorb(m, sample, c.Scale()))
  {
    var xs := AbsorbSteps(m, sample, c.Scale(), 1, MAX_AIRTIME);
    assert MovedBy(m, sample, c.Scale(), Absorb(m, sample, c.Scale()), xs);
  }

  lemma FirstIs(c: Settings, sample: nat)
    requires c.Sound() && Airtime(sample)
    ensures Sample(None, sample, c.Scale()) == Metric(sample * c.Scale(), 0, 1)
  {
    Monotone(sample, MAX_AIRTIME, c.Scale());
    FirstSample(sample, c.Scale());
  }

  /** A station's report changes that station's entry only, and that only if it gives a sample: a new station
      starts from the sample, a known one moves towards it. */
  lemma NotedIs(c: Settings, metrics: map<Mac, Metric>, sta: Station)
    requires c.Sound() && AllBounded(c, metrics)
    ensures forall mac | mac != sta.mac ::
              (mac in Noted(c, metrics, sta) <==> mac in metrics)
              && (mac in metrics ==> Noted(c, metrics, sta)[mac] == metrics[mac])
    ensures !Sampled(sta, c.baseBitrate) ==> Noted(c, metrics, sta) == metrics
    ensures Sampled(sta, c.baseBitrate) ==>
              var s := SampleOf(c, sta).value;
              && sta.mac in Noted(c, metrics, sta)
              && var m := Noted(c, metrics, sta)[sta.mac];
              if sta.mac in metrics then Moved(metrics[sta.mac], s, c.Scale(), m) else m == Metric(s * c.Scale(), 0, 1)
  {
    if Sampled(sta, c.baseBitrate) {
      var s := SampleOf(c, sta).value;
      if sta.mac in metrics { AbsorbMoves(c, metrics[sta.mac], s); } else { FirstIs(c, s); }
    }
  }

  function NotedAll(c: Settings, metrics: map<Mac, Metric>, stas: seq<Station>): map<Mac, Metric>
    requires c.Sound()
  {
    if stas == [] then metrics else Noted(c, NotedAll(c, metrics, stas[..|stas| - 1]), stas[|stas| - 1])
  }

  predicate AllBounded(c: Settings, metrics: map<Mac, Metric>) {
    forall mac <- metrics :: Bounded(metrics[mac], c.Scale(), 1, MAX_AIRTIME)
  }

  lemma NotedBounded(c: Settings, metrics: map<Mac, Metric>, sta: Station)
    requires c.Sound() && AllBounded(c, metrics)
    ensures AllBounded(c, Noted(c, metrics, sta))
  {
    var sample := SampleOf(c, sta);
    if sample.Some? { SampleBounded(Lookup(metrics, sta.mac), sample.value, c.Scale(), 1, MAX_AIRTIME); }
  }

  /** How many reports of `mac` give a sample. */
  function SamplesOf(c: Settings, stas: seq<Station>, mac: Mac): nat {
    if stas == [] then 0
    else
      var last := stas[|stas| - 1];
      SamplesOf(c, stas[..|stas| - 1], mac) + if last.mac == mac && Sampled(last, c.baseBitrate) then 1 else 0
  }

  /** A peer is known exactly if some report of it gave a sample, and its samples are counted up to ten. */
  lemma {:induction false} SamplesCounted(c: Settings, stas: seq<Station>, mac: Mac)
    requires c.Sound()
    ensures AllBounded(c, NotedAll(c, map[], stas))
    ensures var metrics, n := NotedAll(c, map[], stas), SamplesOf(c, stas, mac);
            (mac in metrics <==> n > 0) && (n > 0 ==> metrics[mac].count == if n < 10 then n else 10)
  {
    if stas != [] {
      var init, last := stas[..|stas| - 1], stas[|stas| - 1];
      SamplesCounted(c, init, mac);
      NotedBounded(c, NotedAll(c, map[], init), last);
      NotedIs(c, NotedAll(c, map[], init), last);
    }
  }

  /** The sample of one station, as the program computes it. */
  method ComputeSample(c: Settings, sta: Station) returns (sample: Option<nat>)
    requires c.Sound()
    ensures sample == SampleOf(c, sta)
  {
    var newMetricBitrate := BitrateToAirtime(sta.expectedThroughput);
    var newMetricRssi := RssiToAirtime(sta.signalAvgDbm);
    if sta.expectedThroughput == 0 { return None; }
    if sta.expectedThroughput == c.baseBitrate { return None; }
    if newMetricRssi == 0 || newMetricRssi > 1000 { newMetricRssi := newMetricBitrate; }
    assert newMetricRssi == RssiAirtime(sta);
    SampleRange(sta, c.rssiWeight);
    return Some(Blend(c.rssiWeight, newMetricBitrate, newMetricRssi));
  }

  method UpdateOnce(ewma: nat, newMetric: nat, p: nat) returns (ewma': nat)
    requires p >= 1
    ensures ewma' == Ewma(ewma, newMetric, p)
  {
    var oldMetric := ewma / p;
    ewma' := U32(ewma + U32(newMetric - oldMetric));
  }

  /** The update of one peer, with the warm-up loop. */
  method AbsorbSample(m: Metric, newMetric: nat, p: nat) returns (m': Metric)
    requires p >= 1
    ensures m' == Absorb(m, newMetric, p)
  {
    var ewma := UpdateOnce(m.ewma, newMetric, p);
    ghost var once := ewma;
    m' := m.(ewma := ewma);
    if m.count < WARM_UP {
      var i := WARM_UP;
      while i > m.count
        invariant m.count <= i <= WARM_UP
        invariant Repeat(ewma, newMetric, p, i - m.count) == Repeat(once, newMetric, p, WARM_UP - m.count)
      {
        ewma := UpdateOnce(ewma, newMetric, p);
        i := i - 1;
      }
      m' := Metric(ewma, m.reported, m.count + 1);
    }
  }

  /** The body of the update loop: one station. */
  method NoteStation(c: Settings, metrics: map<Mac, Metric>, sta: Station) returns (metrics': map<Mac, Metric>)
    requires c.Sound()
    ensures metrics' == Noted(c, metrics, sta)
  {
    metrics' := metrics;
    var sample := ComputeSample(c, sta);
    if sample.None? { return; }
    if sta.mac !in metrics {
      metrics' := metrics[sta.mac := Metric(U32(sample.value * c.Scale()), 0, 0)];
    }
    var m := AbsorbSample(metrics'[sta.mac], sample.value, c.Scale());
    metrics' := metrics'[sta.mac := m];
    assert metrics' == metrics[sta.mac := m];
  }

  class MetricManager80211s {
    const settings: Settings
    var metrics: map<Mac, Metric>

    predicate Valid()
      reads this
    {
      settings.Sound() && AllBounded(settings, metrics)
    }

    constructor (settings: Settings)
      ensures (settings.Sound() ==> Valid()) && metrics == map[] && this.settings == settings
    {
      this.settings, metrics := settings, map[];
    }

    method UpdateMetrics(stas: seq<Station>)
      requires Valid()
      modifies this
      ensures Valid()
      ensures metrics == NotedAll(settings, old(metrics), stas)
    {
      for i := 0 to |stas|
        invariant Valid()
        invariant metrics == NotedAll(settings, old(metrics), stas[..i])
      {
        assert stas[..i + 1][..i] == stas[..i];
        NotedBounded(settings, metrics, stas[i]);
        metrics := NoteStation(settings, metrics, stas[i]);
      }
      assert stas[..|stas|] == stas;
    }

    /** The metric of one station; an unknown station is judged by its throughput alone. */
    method GetLinkMetric(sta: Station) returns (metric: nat)
      requires Valid()
      modifies this
      ensures Valid()
      ensures sta.expectedThroughput != 0 ==> Airtime(metric)
      ensures if sta.mac in old(metrics)
              then var m := Report(old(metrics)[sta.mac], settings.Band());
                   metrics == old(metrics)[sta.mac := m] && metric == m.reported / settings.Scale()
                   && InBand(m.ewma, m.reported, settings.Band()) && m.reported != 0
              else metrics == old(metrics) && metric == BitrateToAirtime(sta.expectedThroughput)
    {
      if sta.mac !in metrics {
        if sta.expectedThroughput != 0 { AirtimeRange(sta.expectedThroughput); }
        return BitrateToAirtime(sta.expectedThroughput);
      }
      var m := metrics[sta.mac];
      ReportBounded(m, settings.Scale(), settings.Band(), 1, MAX_AIRTIME);
      if m.reported == 0 { m := m.(reported := m.ewma); }
      var hysteresis := m.reported / settings.Band();
      if m.ewma > U32(m.reported + hysteresis) || m.ewma < m.reported - hysteresis {
        m := m.(reported := m.ewma);
      }
      metrics := metrics[sta.mac := m];
      metric := m.reported / settings.Scale();
    }

    function After(m: Metric, queried: bool): Metric { if queried then Report(m, settings.Band()) else m }

    /** A known peer's metric is its reported value without the scale, an unknown one's the airtime of a
        throughput it reports. */
    ghost predicate Answered(was: map<Mac, Metric>, stas: seq<Station>, mac: Mac, metric: nat) {
      if mac in was then metric == Report(was[mac], settings.Band()).reported / settings.Scale()
      else exists i | 0 <= i < |stas| :: stas[i].mac == mac && metric == BitrateToAirtime(stas[i].expectedThroughput)
    }

    /** The link metrics handed to routing: every usable station has one, between 1 and 40961. */
    method GetLinkMetrics(stas: seq<Station>) returns (links: map<Mac, nat>)
      requires Valid()
      modifies this
      ensures Valid()
      ensures forall mac :: mac in links <==> exists i ::
                0 <= i < |stas| && stas[i].mac == mac && stas[i].expectedThroughput != 0
      ensures forall mac <- links :: Airtime(links[mac]) && Answered(old(metrics), stas, mac, links[mac])
      ensures forall mac :: mac in metrics <==> mac in old(metrics)
      ensures forall mac <- metrics :: metrics[mac] == After(old(metrics)[mac], mac in links)
    {
      links := map[];
      for i := 0 to |stas|
        invariant Valid()
        invariant forall mac :: mac in links <==> exists j ::
                  0 <= j < i && stas[j].mac == mac && stas[j].expectedThroughput != 0
        invariant forall mac <- links :: Airtime(links[mac]) && Answered(old(metrics), stas, mac, links[mac])
        invariant forall mac :: mac in metrics <==> mac in old(metrics)
        invariant forall mac <- metrics :: metrics[mac] == After(old(metrics)[mac], mac in links)
      {
        if stas[i].expectedThroughput != 0 {
          if stas[i].mac in metrics { ReportTwice(old(metrics)[stas[i].mac], settings.Band()); }
          var metric := GetLinkMetric(stas[i]);
          if stas[i].mac !in links { links := links[stas[i].mac := metric]; }
        }
      }
    }
  }

  /** The default averaging factor of 2^7 is sound, and so is exactly every factor up to 2^16. */
  lemma SoundFactors(c: Settings)
    ensures c.Sound() <==> c.ewmaFactor <= 16 && 0.0 <= c.rssiWeight <= 1.0
  {
    if c.ewmaFactor <= 16 { Pow2Grows(c.ewmaFactor, 16); } else { Pow2Grows(17, c.ewmaFactor); }
    assert Pow2(3) == 8 && Pow2(5) == 32 && Pow2(7) == 128 && Pow2(9) == 512;
    assert Pow2(11) == 2048 && Pow2(13) == 8192 && Pow2(15) == 32768 && Pow2(16) == 65536;
  }

  lemma {:induction false} Pow2Grows(a: nat, b: nat)
    requires a <= b
    ensures Pow2(a) <= Pow2(b)
  {
    if a < b { Pow2Grows(a, b - 1); }
  }
}
