// What the latency and memory estimates of a request depend on, how, and by which formula.
module Estimates {
  import opened Numbers
  import opened Requests
  import opened Backends

  // ----- monotonicity

  lemma TwiceMonotone(a: real, b: real, x: real, y: real)
    requires 0.0 <= a <= b && 0.0 <= x <= y
    ensures a * x <= b * y
  {
    ProductMonotone(a, x, y);
    ProductMonotone(y, a, b);
  }

  lemma QuotientMonotone(a: real, b: real, x: real, y: real)
    requires 0.0 <= a <= b && x >= y > 0.0
    ensures a / x <= b / y
  {
    var q, t := a / x, b / y;
    assert q * x == a && t * y == b;
    QuotientsOrdered(q, t, x, y, a, b);
  }

  lemma QuotientsOrdered(q: real, t: real, x: real, y: real, a: real, b: real)
    requires 0.0 <= a <= b && x >= y > 0.0 && q * x == a && t * y == b
    ensures q <= t
  {
    if t < 0.0 {
      ProductSign(y, -t);
    } else if q > t {
      ProductMonotone(t, y, x);
      Strictly(x, t, q);
    }
  }

  lemma Strictly(x: real, t: real, q: real)
    requires x > 0.0 && t < q
    ensures t * x < q * x
  {
    ProductSign(x, q - t);
    assert x * (q - t) == q * x - t * x;
  }

  lemma PerTokenMonotone(tokens: real, tokens': real, fast: real, slow: real)
    requires 0.0 <= tokens <= tokens' && fast >= slow
    ensures PerToken(tokens, fast) <= PerToken(tokens', slow)
  {
    QuotientMonotone(tokens, tokens', Max(fast, 1.0), Max(slow, 1.0));
  }

  lemma SlowedMonotone(a: real, b: real, x: real, y: real)
    requires 0.0 <= a <= b && 0.0 <= x <= y
    ensures Slowed(a, x) <= Slowed(b, y)
  {
    TwiceMonotone(a, b, x, y);
  }

  lemma StretchedMonotone(ms: real, ms': real, s: real, s': real, c: real, c': real, w: real, w': real, n: real, n': real)
    requires 0.0 <= ms <= ms' && 0.0 <= s <= s' && 0.0 <= c <= c' && 0.0 <= w <= w' && 0.0 <= n <= n'
    ensures Stretched(ms, s, c, w, n) <= Stretched(ms', s', c', w', n')
  {
    TwiceMonotone(s, s', c, c');
    TwiceMonotone(w, w', n, n');
  }

  lemma LoadedMonotone(ms: real, ms': real, gain: real, c: real, c': real, w: real, w': real, n: real, n': real)
    requires 0.0 <= ms <= ms' && 0.0 <= gain && 0.0 <= c <= c' && 0.0 <= w <= w' && 0.0 <= n <= n'
    ensures Loaded(ms, gain, c, w, n) <= Loaded(ms', gain, c', w', n')
  {
    var s, s' := Product(gain, ms), Product(gain, ms');
    TwiceMonotone(gain, gain, ms, ms');
    StretchedMonotone(ms, ms', s, s', c, c', w, w', n, n');
    Round4Monotone(Stretched(ms, s, c, w, n), Stretched(ms', s', c', w', n'));
  }

  lemma PromptLeftMonotone(b: Backend, tokens: nat, tokens': nat, hit: real, hit': real)
    requires tokens <= tokens' && hit' <= hit <= 1.0
    ensures EffectivePrompt(b, tokens, hit) <= EffectivePrompt(b, tokens', hit')
  {
    var left, left' := 1.0 - hit * CacheEffect(b), 1.0 - hit' * CacheEffect(b);
    CacheEffectShare(b, hit, hit');
    TwiceMonotone(tokens as real, tokens' as real, left, left');
    assert Product(tokens as real, left) <= Product(tokens' as real, left');
  }

  lemma CacheEffectShare(b: Backend, hit: real, hit': real)
    requires hit' <= hit <= 1.0
    ensures 0.0 <= 1.0 - hit * CacheEffect(b) <= 1.0 - hit' * CacheEffect(b)
  {
  }

  lemma BasePrefillMonotone(b: Backend, fast: Rates, slow: Rates, r: Request, r': Request, hit: real, hit': real)
    requires fast.prefillTps >= slow.prefillTps && r.promptTokens <= r'.promptTokens && hit' <= hit <= 1.0
    ensures BasePrefill(b, fast, r, hit) <= BasePrefill(b, slow, r', hit')
  {
    PromptLeftMonotone(b, r.promptTokens, r'.promptTokens, hit, hit');
    FasterWithGain(b, fast, slow);
    PerTokenMonotone(EffectivePrompt(b, r.promptTokens, hit), EffectivePrompt(b, r'.promptTokens, hit'),
                     fast.prefillTps * PrefillGain(b), slow.prefillTps * PrefillGain(b));
  }

  lemma FasterWithGain(b: Backend, fast: Rates, slow: Rates)
    ensures fast.prefillTps >= slow.prefillTps ==> fast.prefillTps * PrefillGain(b) >= slow.prefillTps * PrefillGain(b)
    ensures fast.decodeTps >= slow.decodeTps ==> fast.decodeTps * DecodeGain(b) >= slow.decodeTps * DecodeGain(b)
  {
  }

  lemma TopologyMonotone(b: Backend, near: real, far: real, tokens: nat, tokens': nat)
    requires near >= far && tokens <= tokens'
    ensures TopologyFactor(b, near) <= TopologyFactor(b, far) && DecodeFactor(b, near) <= DecodeFactor(b, far)
    ensures NetworkWeight(b, tokens) <= NetworkWeight(b, tokens')
  {
  }

  // Prefill takes no longer on a faster pool, for a shorter prompt, with more of it cached, on a
  // pool that suits it better, over a cheaper network, or under less congestion; nothing else
  // of the request or of the rates matters to it.
  lemma PrefillMonotone(b: Backend, fast: Rates, slow: Rates, r: Request, r': Request, hit: real, hit': real,
                        near: real, far: real, network: real, network': real, congestion: real, congestion': real)
    requires fast.prefillTps >= slow.prefillTps && r.promptTokens <= r'.promptTokens && hit' <= hit <= 1.0 && near >= far
    requires 0.0 <= network <= network' && 0.0 <= congestion <= congestion'
    ensures EstimateLatencyMs(b, fast, r, hit, near, network, congestion).0
         <= EstimateLatencyMs(b, slow, r', hit', far, network', congestion').0
  {
    BasePrefillMonotone(b, fast, slow, r, r', hit, hit');
    TopologyMonotone(b, near, far, r.promptTokens, r'.promptTokens);
    SlowedMonotone(BasePrefill(b, fast, r, hit), BasePrefill(b, slow, r', hit'), TopologyFactor(b, near), TopologyFactor(b, far));
    LoadedMonotone(UnloadedPrefill(b, fast, r, hit, near), UnloadedPrefill(b, slow, r', hit', far), CongestionGain(b),
                   congestion, congestion', NetworkWeight(b, r.promptTokens), NetworkWeight(b, r'.promptTokens), network, network');
  }

  lemma BaseDecodeMonotone(b: Backend, fast: Rates, slow: Rates, r: Request, r': Request)
    requires fast.decodeTps >= slow.decodeTps && r.generationTokens <= r'.generationTokens
    ensures BaseDecode(b, fast, r) <= BaseDecode(b, slow, r')
  {
    PerTokenMonotone(r.generationTokens as real, r'.generationTokens as real,
                     fast.decodeTps * DecodeGain(b), slow.decodeTps * DecodeGain(b));
  }

  // Decoding takes no longer on a pool that decodes faster, for fewer tokens, on one that suits
  // the request better, or under less congestion; prompt, cache, network and the speed of
  // prefill do not matter to it.
  lemma DecodeMonotone(b: Backend, fast: Rates, slow: Rates, r: Request, r': Request, hit: real, hit': real,
                       near: real, far: real, network: real, network': real, congestion: real, congestion': real)
    requires fast.decodeTps >= slow.decodeTps && r.generationTokens <= r'.generationTokens && near >= far
    requires 0.0 <= congestion <= congestion'
    ensures EstimateLatencyMs(b, fast, r, hit, near, network, congestion).1
         <= EstimateLatencyMs(b, slow, r', hit', far, network', congestion').1
  {
    BaseDecodeMonotone(b, fast, slow, r, r');
    TopologyMonotone(b, near, far, 0, 0);
    SlowedMonotone(BaseDecode(b, fast, r), BaseDecode(b, slow, r'), DecodeFactor(b, near), DecodeFactor(b, far));
    LoadedMonotone(UnloadedDecode(b, fast, r, near), UnloadedDecode(b, slow, r', far), CongestionGain(b),
                   congestion, congestion', 0.0, 0.0, 0.0, 0.0);
  }

  // ----- the formulas

  // A base time in milliseconds for so many tokens at a speed, but for its denominator.
  ghost predicate Takes(base: real, tokens: real, tps: real) {
    base * Max(tps, 1.0) == 1000.0 * tokens
  }

  // The base time times two multipliers, plus what the network adds, rounded.
  ghost predicate Written(ms: real, tokens: real, tps: real, stretch: real, factor: real, network: real, weight: real,
                          base: real, exact: real) {
    Takes(base, tokens, tps) && exact == base * (stretch * factor) + network * weight && ms == Round4(exact)
  }

  lemma PerTokenTakes(tokens: real, tps: real)
    requires tokens >= 0.0
    ensures Takes(PerToken(tokens, tps), tokens, tps)
  {
    var speed := Max(tps, 1.0);
    var q := tokens / speed;
    assert q * speed == tokens;
    assert q * 1000.0 * speed == 1000.0 * (q * speed);
  }

  lemma IsWritten(ms: real, tokens: real, tps: real, gain: real, congestion: real, factor: real, network: real, weight: real)
    returns (base: real, exact: real)
    requires tokens >= 0.0 && ms == Round4(Multiplied(PerToken(tokens, tps), gain, congestion, factor, network, weight))
    ensures Written(ms, tokens, tps, 1.0 + congestion * gain, factor, network, weight, base, exact)
  {
    PerTokenTakes(tokens, tps);
    base, exact := PerToken(tokens, tps), Multiplied(PerToken(tokens, tps), gain, congestion, factor, network, weight);
  }

  lemma PrefillWritten(b: Backend, rates: Rates, r: Request, hit: real, affinity: real, network: real, congestion: real)
    returns (ms: real, base: real, exact: real)
    ensures ms == EstimateLatencyMs(b, rates, r, hit, affinity, network, congestion).0
    ensures Written(ms, EffectivePrompt(b, r.promptTokens, hit), rates.prefillTps * PrefillGain(b),
                    1.0 + congestion * CongestionGain(b), TopologyFactor(b, affinity), network, NetworkWeight(b, r.promptTokens),
                    base, exact)
  {
    EstimateAsWritten(b, rates, r, hit, affinity, network, congestion);
    ms := EstimateLatencyMs(b, rates, r, hit, affinity, network, congestion).0;
    base, exact := IsWritten(ms, EffectivePrompt(b, r.promptTokens, hit), rates.prefillTps * PrefillGain(b), CongestionGain(b),
                             congestion, TopologyFactor(b, affinity), network, NetworkWeight(b, r.promptTokens));
  }

  lemma DecodeWritten(b: Backend, rates: Rates, r: Request, hit: real, affinity: real, network: real, congestion: real)
    returns (ms: real, base: real, exact: real)
    ensures ms == EstimateLatencyMs(b, rates, r, hit, affinity, network, congestion).1
    ensures Written(ms, r.generationTokens as real, rates.decodeTps * DecodeGain(b),
                    1.0 + congestion * CongestionGain(b), DecodeFactor(b, affinity), 0.0, 0.0, base, exact)
  {
    EstimateAsWritten(b, rates, r, hit, affinity, network, congestion);
    ms := EstimateLatencyMs(b, rates, r, hit, affinity, network, congestion).1;
    base, exact := IsWritten(ms, r.generationTokens as real, rates.decodeTps * DecodeGain(b), CongestionGain(b), congestion,
                             DecodeFactor(b, affinity), 0.0, 0.0);
  }

  // The mock backend, with a cached token worth 80% of its prefill.  Topology stretches prefill
  // alone, and a long prompt makes the network dearer.
  lemma MockFormula(rates: Rates, r: Request, hit: real, affinity: real, network: real, congestion: real)
    returns (prefill: real, decode: real, base: real, exact: real, decodeBase: real, decodeExact: real)
    ensures (prefill, decode) == EstimateLatencyMs(Mock, rates, r, hit, affinity, network, congestion)
    ensures Written(prefill, Max(1.0, Product(r.promptTokens as real, 1.0 - hit * 0.8)), rates.prefillTps,
                    1.0 + congestion * 0.35, Max(0.72, 1.10 - affinity * 0.22),
                    network, 5.0 + r.promptTokens as real / 4096.0, base, exact)
    ensures Written(decode, r.generationTokens as real, rates.decodeTps, 1.0 + congestion * 0.35, 1.0, 0.0, 0.0,
                    decodeBase, decodeExact)
  {
    prefill, base, exact := PrefillWritten(Mock, rates, r, hit, affinity, network, congestion);
    decode, decodeBase, decodeExact := DecodeWritten(Mock, rates, r, hit, affinity, network, congestion);
  }

  lemma VllmFormula(rates: Rates, r: Request, hit: real, affinity: real, network: real, congestion: real)
    returns (prefill: real, decode: real, base: real, exact: real, decodeBase: real, decodeExact: real)
    ensures (prefill, decode) == EstimateLatencyMs(Vllm, rates, r, hit, affinity, network, congestion)
    ensures Written(prefill, Max(1.0, Product(r.promptTokens as real, 1.0 - hit * 0.82)), rates.prefillTps * 1.08,
                    1.0 + congestion * 0.28, Max(0.74, 1.08 - affinity * 0.18), network, 4.0, base, exact)
    ensures Written(decode, r.generationTokens as real, rates.decodeTps * 1.06,
                    1.0 + congestion * 0.28, Max(0.74, 1.08 - affinity * 0.18), 0.0, 0.0, decodeBase, decodeExact)
  {
    prefill, base, exact := PrefillWritten(Vllm, rates, r, hit, affinity, network, congestion);
    decode, decodeBase, decodeExact := DecodeWritten(Vllm, rates, r, hit, affinity, network, congestion);
  }

  lemma TritonFormula(rates: Rates, r: Request, hit: real, affinity: real, network: real, congestion: real)
    returns (prefill: real, decode: real, base: real, exact: real, decodeBase: real, decodeExact: real)
    ensures (prefill, decode) == EstimateLatencyMs(Triton, rates, r, hit, affinity, network, congestion)
    ensures Written(prefill, Max(1.0, Product(r.promptTokens as real, 1.0 - hit * 0.75)), rates.prefillTps * 1.12,
                    1.0 + congestion * 0.24, Max(0.70, 1.05 - affinity * 0.2), network, 3.5, base, exact)
    ensures Written(decode, r.generationTokens as real, rates.decodeTps * 1.03,
                    1.0 + congestion * 0.24, Max(0.70, 1.05 - affinity * 0.2), 0.0, 0.0, decodeBase, decodeExact)
  {
    prefill, base, exact := PrefillWritten(Triton, rates, r, hit, affinity, network, congestion);
    decode, decodeBase, decodeExact := DecodeWritten(Triton, rates, r, hit, affinity, network, congestion);
  }

  // ----- memory

  // Every saved token lowers the need by the same amount, down to that of a single token; what
  // it amounts to depends on the model alone.
  lemma NeedPerToken(r: Request, saved: nat) returns (tokens: nat, each: real)
    ensures RequestMemoryGb(r, saved) == tokens as real * each && 2048.0 * each == 1.15 * ModelScale(r.model)
    ensures tokens >= 1 && (if r.promptTokens + r.generationTokens > saved
                            then tokens + saved == r.promptTokens + r.generationTokens else tokens == 1)
  {
    var left := r.promptTokens + r.generationTokens - saved;
    tokens := if left < 1 then 1 else left;
    each := 1.15 * ModelScale(r.model) / 2048.0;
    NeedIs(tokens as real, ModelScale(r.model), each);
  }

  lemma NeedIs(tokens: real, scale: real, each: real)
    requires 2048.0 * each == 1.15 * scale
    ensures tokens / 2048.0 * 1.15 * scale == tokens * each
  {
    assert tokens / 2048.0 * 1.15 * scale == tokens / 2048.0 * (1.15 * scale);
    assert tokens / 2048.0 * (2048.0 * each) == tokens * each;
  }

  // A request needs no more with more of its tokens saved, nor with fewer tokens.
  lemma NeedMonotone(r: Request, r': Request, saved: nat, saved': nat)
    requires r.model == r'.model && saved' <= saved
    requires r.promptTokens + r.generationTokens <= r'.promptTokens + r'.generationTokens
    ensures RequestMemoryGb(r, saved) <= RequestMemoryGb(r', saved')
  {
    var n, each := NeedPerToken(r, saved);
    var n', each' := NeedPerToken(r', saved');
    ScalePositive(r.model, each);
    ProductMonotone(each, n as real, n' as real);
  }

  lemma ScalePositive(m: Model, each: real)
    requires 2048.0 * each == 1.15 * ModelScale(m)
    ensures each > 0.0
  {
  }

  // 2048 tokens of each model, in gigabytes.
  lemma NeedByModel(r: Request)
    requires r.promptTokens + r.generationTokens == 2048
    ensures RequestMemoryGb(r, 0) == match r.model
                                     case Llama70B => 1.5525 case Mixtral => 1.38 case Mistral7B => 0.8625
                                     case Llama8B => 0.69 case DeepseekLite => 1.0925 case MaiaSim => 0.92
                                     case OtherModel(_) => 1.15
  {
  }
}
