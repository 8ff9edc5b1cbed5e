// Requests, the memory they need, and the latency each serving backend projects for them.
module Requests {
  import opened Numbers

  datatype SlaClass = Realtime | Interactive | BestEffort

  datatype Model = Llama70B | Mixtral | Mistral7B | Llama8B | DeepseekLite | MaiaSim | OtherModel(name: string)

  datatype Request = Request(
    requestId: string, tenantId: string, model: Model, promptTokens: nat, generationTokens: nat,
    arrival: real, sla: SlaClass, cacheKey: nat, maxLatencyMs: real)

  // What the constructor of a request insists on.
  predicate ValidRequest(r: Request) {
    r.promptTokens > 0 && r.generationTokens > 0 && r.arrival >= 0.0 && r.maxLatencyMs > 0.0
  }

  function ModelScale(m: Model): (s: real)
    ensures s > 0.0
  {
    match m
    case Llama70B => 1.35
    case Mixtral => 1.2
    case Mistral7B => 0.75
    case Llama8B => 0.6
    case DeepseekLite => 0.95
    case MaiaSim => 0.8
    case OtherModel(_) => 1.0
  }

  function RequestMemoryGb(r: Request, savedTokens: nat): (gb: real)
    ensures gb > 0.0
  {
    var tokens := r.promptTokens + r.generationTokens - savedTokens;
    var effective := if tokens < 1 then 1 else tokens;
    ProductSign(effective as real / 2048.0 * 1.15, ModelScale(r.model));
    effective as real / 2048.0 * 1.15 * ModelScale(r.model)
  }
}

module Backends {
  import opened Numbers
  import opened Requests

  datatype Backend = Mock | Vllm | Triton

  datatype Rates = Rates(prefillTps: real, decodeTps: real)

  // ----- the constants in which the backends differ

  function CacheEffect(b: Backend): real {
    match b case Mock => 0.8 case Vllm => 0.82 case Triton => 0.75
  }

  function PrefillGain(b: Backend): real {
    match b case Mock => 1.0 case Vllm => 1.08 case Triton => 1.12
  }

  function DecodeGain(b: Backend): real {
    match b case Mock => 1.0 case Vllm => 1.06 case Triton => 1.03
  }

  function CongestionGain(b: Backend): (r: real)
    ensures 0.0 < r < 1.0
  {
    match b case Mock => 0.35 case Vllm => 0.28 case Triton => 0.24
  }

  function TopologyFactor(b: Backend, affinity: real): (r: real)
    ensures r > 0.0
  {
    match b
    case Mock => Max(0.72, 1.10 - affinity * 0.22)
    case Vllm => Max(0.74, 1.08 - affinity * 0.18)
    case Triton => Max(0.70, 1.05 - affinity * 0.2)
  }

  // The mock backend's decode phase does not feel the topology.
  function DecodeFactor(b: Backend, affinity: real): (r: real)
    ensures r > 0.0
  {
    if b.Mock? then 1.0 else TopologyFactor(b, affinity)
  }

  function NetworkWeight(b: Backend, promptTokens: nat): (r: real)
    ensures r > 0.0
  {
    match b
    case Mock => 5.0 + promptTokens as real / 4096.0
    case Vllm => 4.0
    case Triton => 3.5
  }

  // ----- the estimate

  function PerToken(tokens: real, tps: real): (ms: real)
    requires tokens >= 0.0
    ensures ms >= 0.0
  {
    tokens / Max(tps, 1.0) * 1000.0
  }

  // The tokens left to prefill once the cached share is taken off, at least one.
  function EffectivePrompt(b: Backend, promptTokens: nat, hitRatio: real): (tokens: real)
    ensures tokens >= 1.0
  {
    Max(1.0, Product(promptTokens as real, 1.0 - hitRatio * CacheEffect(b)))
  }

  // The times before topology, congestion and network come in.
  function BasePrefill(b: Backend, rates: Rates, r: Request, hitRatio: real): (ms: real)
    ensures ms >= 0.0
  {
    PerToken(EffectivePrompt(b, r.promptTokens, hitRatio), rates.prefillTps * PrefillGain(b))
  }

  function BaseDecode(b: Backend, rates: Rates, r: Request): (ms: real)
    ensures ms >= 0.0
  {
    PerToken(r.generationTokens as real, rates.decodeTps * DecodeGain(b))
  }

  function Slowed(base: real, factor: real): (ms: real)
    ensures base >= 0.0 && factor >= 0.0 ==> ms >= 0.0
  {
    ProductSign(base, factor);
    base * factor
  }

  // The times on an uncongested pool with a free network.
  function UnloadedPrefill(b: Backend, rates: Rates, r: Request, hitRatio: real, affinity: real): (ms: real)
    ensures ms >= 0.0
  {
    Slowed(BasePrefill(b, rates, r, hitRatio), TopologyFactor(b, affinity))
  }

  function UnloadedDecode(b: Backend, rates: Rates, r: Request, affinity: real): (ms: real)
    ensures ms >= 0.0
  {
    Slowed(BaseDecode(b, rates, r), DecodeFactor(b, affinity))
  }

  // Congestion stretches a time, and the network adds to it.  `sensitivity` is the time's own
  // congestion gain, so that time * (1 + gain * congestion) is spread out here.
  function Stretched(ms: real, sensitivity: real, congestion: real, weight: real, network: real): (r: real)
    ensures ms >= 0.0 && sensitivity >= 0.0 && congestion >= 0.0 && weight >= 0.0 && network >= 0.0 ==> r >= 0.0
  {
    ProductSign(sensitivity, congestion);
    ProductSign(weight, network);
    ms + sensitivity * congestion + weight * network
  }

  function Loaded(ms: real, gain: real, congestion: real, weight: real, network: real): (r: real)
    ensures ms >= 0.0 && gain >= 0.0 && congestion >= 0.0 && weight >= 0.0 && network >= 0.0 ==> r >= 0.0
  {
    ProductSign(gain, ms);
    Round4(Stretched(ms, gain * ms, congestion, weight, network))
  }

  /** Prefill and decode time of a request, in milliseconds. */
  function EstimateLatencyMs(b: Backend, rates: Rates, r: Request, hitRatio: real, affinity: real,
                             network: real, congestion: real): (ms: (real, real))
    ensures network >= 0.0 && congestion >= 0.0 ==> ms.0 >= 0.0 && ms.1 >= 0.0
  {
    var gain := CongestionGain(b);
    (Loaded(UnloadedPrefill(b, rates, r, hitRatio, affinity), gain, congestion, NetworkWeight(b, r.promptTokens), network),
     Loaded(UnloadedDecode(b, rates, r, affinity), gain, congestion, 0.0, 0.0))
  }

  // A backend's own formula: a base time, its multiplier, and the network's penalty.
  function Multiplied(base: real, gain: real, congestion: real, factor: real, network: real, weight: real): real {
    base * ((1.0 + congestion * gain) * factor) + network * weight
  }

  lemma StretchedIsProduct(base: real, factor: real, gain: real, congestion: real, weight: real, network: real)
    ensures Stretched(Slowed(base, factor), gain * Slowed(base, factor), congestion, weight, network)
         == Multiplied(base, gain, congestion, factor, network, weight)
  {
    var ms := base * factor;
    assert base * ((1.0 + congestion * gain) * factor) == ms * (1.0 + congestion * gain);
    assert ms * (1.0 + congestion * gain) == ms + gain * ms * congestion;
  }

  lemma LoadedIsProduct(base: real, factor: real, gain: real, congestion: real, weight: real, network: real)
    ensures Loaded(Slowed(base, factor), gain, congestion, weight, network)
         == Round4(Multiplied(base, gain, congestion, factor, network, weight))
  {
    StretchedIsProduct(base, factor, gain, congestion, weight, network);
  }

  lemma PrefillAsWritten(b: Backend, rates: Rates, r: Request, hitRatio: real, affinity: real, gain: real, congestion: real,
                         weight: real, network: real)
    ensures Loaded(UnloadedPrefill(b, rates, r, hitRatio, affinity), gain, congestion, weight, network)
         == Round4(Multiplied(BasePrefill(b, rates, r, hitRatio), gain, congestion, TopologyFactor(b, affinity), network, weight))
  {
    LoadedIsProduct(BasePrefill(b, rates, r, hitRatio), TopologyFactor(b, affinity), gain, congestion, weight, network);
  }

  lemma DecodeAsWritten(b: Backend, rates: Rates, r: Request, affinity: real, gain: real, congestion: real)
    ensures Loaded(UnloadedDecode(b, rates, r, affinity), gain, congestion, 0.0, 0.0)
         == Round4(Multiplied(BaseDecode(b, rates, r), gain, congestion, DecodeFactor(b, affinity), 0.0, 0.0))
  {
    LoadedIsProduct(BaseDecode(b, rates, r), DecodeFactor(b, affinity), gain, congestion, 0.0, 0.0);
  }

  // Spreading the product out changes nothing.
  lemma EstimateAsWritten(b: Backend, rates: Rates, r: Request, hitRatio: real, affinity: real, network: real, congestion: real)
    ensures var ms, gain := EstimateLatencyMs(b, rates, r, hitRatio, affinity, network, congestion), CongestionGain(b);
            && ms.0 == Round4(Multiplied(BasePrefill(b, rates, r, hitRatio), gain, congestion, TopologyFactor(b, affinity),
                                         network, NetworkWeight(b, r.promptTokens)))
            && ms.1 == Round4(Multiplied(BaseDecode(b, rates, r), gain, congestion, DecodeFactor(b, affinity), 0.0, 0.0))
  {
    PrefillAsWritten(b, rates, r, hitRatio, affinity, CongestionGain(b), congestion, NetworkWeight(b, r.promptTokens), network);
    DecodeAsWritten(b, rates, r, affinity, CongestionGain(b), congestion);
  }

  // ----- how far a projection can be off

  // How much an estimate can move when congestion and network cost each move by up to `step`.
  function Drift(sensitivity: real, weight: real, step: real): real {
    sensitivity * step + weight * step
  }

  // A product moves by at most its fixed factor times the step.
  lemma Sway(g: real, x: real, x': real, step: real) returns (p: real, p': real, most: real)
    requires g >= 0.0 && -step <= x' - x <= step
    ensures p == g * x && p' == g * x' && most == g * step
    ensures -most <= p' - p <= most
  {
    p, p', most := g * x, g * x', g * step;
    var d := x' - x;
    ProductMonotone(g, d, step);
    ProductMonotone(g, -step, d);
    assert g * d == g * x' - g * x;
  }

  lemma StretchedDrift(ms: real, sensitivity: real, weight: real, c: real, c': real, n: real, n': real, step: real)
    requires sensitivity >= 0.0 && weight >= 0.0
    requires -step <= c' - c <= step && -step <= n' - n <= step
    ensures var d := Stretched(ms, sensitivity, c', weight, n') - Stretched(ms, sensitivity, c, weight, n);
            -Drift(sensitivity, weight, step) <= d <= Drift(sensitivity, weight, step)
  {
    var p, p', dp := Sway(sensitivity, c, c', step);
    var q, q', dq := Sway(weight, n, n', step);
    assert Stretched(ms, sensitivity, c, weight, n) == ms + p + q;
    assert Stretched(ms, sensitivity, c', weight, n') == ms + p' + q';
    assert Drift(sensitivity, weight, step) == dp + dq;
  }

  lemma LoadedDrift(ms: real, gain: real, weight: real, c: real, c': real, n: real, n': real)
    requires ms >= 0.0 && gain >= 0.0 && weight >= 0.0
    requires -HALF_STEP <= c' - c <= HALF_STEP && -HALF_STEP <= n' - n <= HALF_STEP
    ensures var d := Loaded(ms, gain, c', weight, n') - Loaded(ms, gain, c, weight, n);
            var bound := Drift(gain * ms, weight, HALF_STEP) + 2.0 * HALF_STEP;
            -bound <= d <= bound
  {
    ProductSign(gain, ms);
    StretchedDrift(ms, gain * ms, weight, c, c', n, n', HALF_STEP);
  }

  // The decision's estimate: every part is rounded before the sum is.
  function EstimatedMs(queueMs: real, projected: (real, real)): real {
    Round4(Round4(queueMs) + projected.0 + projected.1)
  }

  // The result's total: the exact queue delay, and times from rounded inputs.
  function ActualMs(queueMs: real, actual: (real, real)): real {
    Round4(queueMs + actual.0 + actual.1)
  }

  function PrefillDrift(b: Backend, rates: Rates, r: Request, hitRatio: real, affinity: real): real {
    Drift(CongestionGain(b) * UnloadedPrefill(b, rates, r, hitRatio, affinity), NetworkWeight(b, r.promptTokens), HALF_STEP)
  }

  function DecodeDrift(b: Backend, rates: Rates, r: Request, affinity: real): real {
    Drift(CongestionGain(b) * UnloadedDecode(b, rates, r, affinity), 0.0, HALF_STEP)
  }

  function GapBound(b: Backend, rates: Rates, r: Request, hitRatio: real, affinity: real): real {
    7.0 * HALF_STEP + PrefillDrift(b, rates, r, hitRatio, affinity) + DecodeDrift(b, rates, r, affinity)
  }

  lemma EstimateDrift(b: Backend, rates: Rates, r: Request, hitRatio: real, affinity: real,
                      network: real, network': real, congestion: real, congestion': real)
    requires -HALF_STEP <= congestion' - congestion <= HALF_STEP && -HALF_STEP <= network' - network <= HALF_STEP
    ensures var ms := EstimateLatencyMs(b, rates, r, hitRatio, affinity, network, congestion);
            var ms' := EstimateLatencyMs(b, rates, r, hitRatio, affinity, network', congestion');
            var p, d := PrefillDrift(b, rates, r, hitRatio, affinity), DecodeDrift(b, rates, r, affinity);
            && -p - 2.0 * HALF_STEP <= ms'.0 - ms.0 <= p + 2.0 * HALF_STEP
            && -d - 2.0 * HALF_STEP <= ms'.1 - ms.1 <= d + 2.0 * HALF_STEP
  {
    LoadedDrift(UnloadedPrefill(b, rates, r, hitRatio, affinity), CongestionGain(b),
                NetworkWeight(b, r.promptTokens), congestion, congestion', network, network');
    LoadedDrift(UnloadedDecode(b, rates, r, affinity), CongestionGain(b), 0.0, congestion, congestion', 0.0, 0.0);
  }

  lemma RoundedSums(queueMs: real, projected: (real, real), actual: (real, real), p: real, d: real)
    requires -p <= actual.0 - projected.0 <= p && -d <= actual.1 - projected.1 <= d
    ensures var gap := EstimatedMs(queueMs, projected) - ActualMs(queueMs, actual);
            -(3.0 * HALF_STEP + p + d) <= gap <= 3.0 * HALF_STEP + p + d
    ensures projected == actual && Round4(queueMs) == queueMs ==>
              EstimatedMs(queueMs, projected) == ActualMs(queueMs, actual)
  {
  }

  // The estimate of an admitted request is off by no more than GapBound, and is exact when the
  // queue delay, network cost and congestion have no more than four decimals.
  lemma PredictionGap(b: Backend, rates: Rates, r: Request, hitRatio: real, affinity: real,
                      network: real, congestion: real, queueMs: real)
    ensures var projected := EstimateLatencyMs(b, rates, r, hitRatio, affinity, network, congestion);
            var actual := EstimateLatencyMs(b, rates, r, hitRatio, affinity, Round4(network), Round4(congestion));
            var gap := EstimatedMs(queueMs, projected) - ActualMs(queueMs, actual);
            && -GapBound(b, rates, r, hitRatio, affinity) <= gap <= GapBound(b, rates, r, hitRatio, affinity)
            && (Round4(network) == network && Round4(congestion) == congestion && Round4(queueMs) == queueMs ==> gap == 0.0)
  {
    EstimateDrift(b, rates, r, hitRatio, affinity, network, Round4(network), congestion, Round4(congestion));
    var projected := EstimateLatencyMs(b, rates, r, hitRatio, affinity, network, congestion);
    var actual := EstimateLatencyMs(b, rates, r, hitRatio, affinity, Round4(network), Round4(congestion));
    RoundedSums(queueMs, projected, actual, PrefillDrift(b, rates, r, hitRatio, affinity) + 2.0 * HALF_STEP,
                DecodeDrift(b, rates, r, affinity) + 2.0 * HALF_STEP);
  }
}
