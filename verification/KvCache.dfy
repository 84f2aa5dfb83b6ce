/**
 * KV-cache arithmetic: the two sums computed when a model is ingested, the estimate computed
 * from them, and the machine arithmetic in which both are carried out.
 */
module KvCache {
  import opened Wrappers
  import opened Bytes
  import opened GgufReader

  const TWO63: nat := 0x8000_0000_0000_0000
  const MB: nat := 1024 * 1024

  // ---- Machine arithmetic -------------------------------------------------------------------

  function WrapU32(x: int): nat { x % TWO32 }
  function WrapU64(x: int): nat { x % TWO64 }
  /** The i64 with the same low 64 bits; also the result of a wrapping i64 operation. */
  function WrapI64(x: int): int { (x + TWO63) % TWO64 - TWO63 }
  function SatMul(a: nat, b: nat): nat { if a * b < TWO64 then a * b else TWO64 - 1 }
  function SatAdd(a: nat, b: nat): nat { if a + b < TWO64 then a + b else TWO64 - 1 }

  // ---- compute_kv_aggregates ----------------------------------------------------------------

  /** One layer's bytes per token, as the loop computes them. */
  function LayerBytes(head: nat, keyLen: nat, valLen: nat): int {
    WrapI64(WrapI64(head * WrapU32(keyLen + valLen)) * 2)
  }

  /** The key and value lengths of the two kinds of layer. */
  datatype Dims = Dims(key: nat, value: nat, keySwa: nat, valueSwa: nat)

  function DimsOf(meta: Metadata): Dims
    requires meta.keyLength.Some? && meta.valueLength.Some?
  {
    var k, v := meta.keyLength.value, meta.valueLength.value;
    Dims(k, v, meta.keyLengthSwa.GetOr(k), meta.valueLengthSwa.GetOr(v))
  }

  /** Accumulators after the given layers: (global, sliding). */
  function LayerSums(heads: seq<nat>, pattern: seq<bool>, d: Dims): (int, int)
    requires |heads| == |pattern|
  {
    if heads == [] then (0, 0)
    else
      var n := |heads| - 1;
      var (g, s) := LayerSums(heads[..n], pattern[..n], d);
      if pattern[n] then (g, WrapI64(s + LayerBytes(heads[n], d.keySwa, d.valueSwa)))
      else (WrapI64(g + LayerBytes(heads[n], d.key, d.value)), s)
  }

  /** Per-layer head counts and a pattern of the same, positive length. */
  predicate Heterogeneous(meta: Metadata) {
    && meta.headCountKvPerLayer.Some? && meta.slidingWindowPattern.Some?
    && |meta.headCountKvPerLayer.value| == |meta.slidingWindowPattern.value| > 0
  }

  function Aggregates(meta: Metadata): (Option<int>, Option<int>) {
    if meta.keyLength.None? || meta.valueLength.None? then (None, None)
    else if Heterogeneous(meta) then
      var (g, s) := LayerSums(meta.headCountKvPerLayer.value, meta.slidingWindowPattern.value, DimsOf(meta));
      (Some(g), Some(s))
    else if meta.blockCount.None? || meta.headCountKv.None? then (None, None)
    else
      (Some(WrapI64(WrapI64(WrapI64(meta.blockCount.value * meta.headCountKv.value)
                            * WrapU32(meta.keyLength.value + meta.valueLength.value)) * 2)), None)
  }

  method ComputeKvAggregates(meta: Metadata) returns (r: (Option<int>, Option<int>))
    ensures r == Aggregates(meta)
  {
    if meta.keyLength.None? { return (None, None); }
    if meta.valueLength.None? { return (None, None); }
    var d := DimsOf(meta);
    if meta.headCountKvPerLayer.Some? && meta.slidingWindowPattern.Some? {
      var heads, pattern := meta.headCountKvPerLayer.value, meta.slidingWindowPattern.value;
      if |heads| == |pattern| && heads != [] {
        var globalBytes, swaBytes := 0, 0;
        for i := 0 to |heads|
          invariant (globalBytes, swaBytes) == LayerSums(heads[..i], pattern[..i], d)
        {
          assert heads[..i + 1][..i] == heads[..i] && pattern[..i + 1][..i] == pattern[..i];
          if pattern[i] {
            swaBytes := WrapI64(swaBytes + LayerBytes(heads[i], d.keySwa, d.valueSwa));
          } else {
            globalBytes := WrapI64(globalBytes + LayerBytes(heads[i], d.key, d.value));
          }
        }
        assert heads[..|heads|] == heads && pattern[..|heads|] == pattern;
        return (Some(globalBytes), Some(swaBytes));
      }
    }
    if meta.blockCount.None? || meta.headCountKv.None? { return (None, None); }
    var perToken := WrapI64(WrapI64(WrapI64(meta.blockCount.value * meta.headCountKv.value)
                                    * WrapU32(meta.keyLength.value + meta.valueLength.value)) * 2);
    r := (Some(perToken), None);
  }

  // ---- estimate_kv_cache_mb -----------------------------------------------------------------

  datatype Params = Params(
    layers: Option<int>, heads: Option<int>, kvHeads: Option<int>, embedding: Option<int>,
    keyLength: Option<int>, valueLength: Option<int>, globalBytes: Option<int>, swaBytes: Option<int>,
    window: Option<int>, context: nat, parallel: nat)

  /** Tokens a sliding layer caches. */
  function SwaTokens(window: Option<int>, context: nat): nat {
    if window.Some? && WrapU64(window.value) < context then WrapU64(window.value) else context
  }

  function AggregateBytes(global: int, swa: Option<int>, window: Option<int>, context: nat): nat {
    SatAdd(SatMul(WrapU64(global), context),
           if swa.Some? then SatMul(WrapU64(swa.value), SwaTokens(window, context)) else 0)
  }

  function AggregateEstimate(global: int, swa: Option<int>, window: Option<int>, context: nat, parallel: nat): nat {
    SatMul(AggregateBytes(global, swa, window, context), parallel) / MB
  }

  function LegacyEstimate(p: Params): nat {
    if p.layers.Some? && p.heads.Some? && p.kvHeads.Some? && p.embedding.Some? && p.heads.value > 0 then
      var derived := if WrapU64(p.heads.value) == 0 then 0 else WrapU64(p.embedding.value) / WrapU64(p.heads.value);
      var keyDim := if p.keyLength.Some? then WrapU64(p.keyLength.value) else derived;
      var valDim := if p.valueLength.Some? then WrapU64(p.valueLength.value) else derived;
      LegacyBytes(WrapU64(p.layers.value), WrapU64(p.kvHeads.value), WrapU64(keyDim + valDim), p.context, p.parallel) / MB
    else 0
  }

  /** The chain of u64 products, left to right. */
  function LegacyBytes(layers: nat, kvHeads: nat, dims: nat, context: nat, parallel: nat): nat {
    WrapU64(WrapU64(WrapU64(WrapU64(WrapU64(layers * kvHeads) * dims) * context) * parallel) * 2)
  }

  function EstimateKvCacheMb(p: Params): nat {
    if p.globalBytes.Some?
    then AggregateEstimate(p.globalBytes.value, p.swaBytes, p.window, p.context, p.parallel)
    else LegacyEstimate(p)
  }

  /** The database row of an ingested model, as the estimator reads it. */
  function ParamsOf(meta: Metadata, context: nat, parallel: nat): Params {
    var (g, s) := Aggregates(meta);
    Params(meta.blockCount, meta.headCount, meta.headCountKv, meta.embeddingLength, meta.keyLength, meta.valueLength,
           g, s, meta.slidingWindow, context, parallel)
  }

  // ---- The plain sum --------------------------------------------------------------------------

  /** Σ over the layers of heads × dims × 2, for the layers of one kind. */
  function KindSum(heads: seq<nat>, pattern: seq<bool>, d: Dims, sliding: bool): nat
    requires |heads| == |pattern|
  {
    if heads == [] then 0
    else
      var n := |heads| - 1;
      KindSum(heads[..n], pattern[..n], d, sliding)
      + (if pattern[n] == sliding then heads[n] * DimsSum(d, sliding) * 2 else 0)
  }

  function DimsSum(d: Dims, sliding: bool): nat {
    if sliding then d.keySwa + d.valueSwa else d.key + d.value
  }

  /** Σ over the layers of heads × dims × 2 × cached tokens: what the estimate is meant to be. */
  function PerLayerBytes(heads: seq<nat>, pattern: seq<bool>, d: Dims, context: nat, window: nat): nat
    requires |heads| == |pattern|
  {
    if heads == [] then 0
    else
      var n := |heads| - 1;
      var tokens := if pattern[n] then (if window < context then window else context) else context;
      PerLayerBytes(heads[..n], pattern[..n], d, context, window) + heads[n] * DimsSum(d, pattern[n]) * 2 * tokens
  }

  lemma {:induction false} PerLayerSplitsByKind(heads: seq<nat>, pattern: seq<bool>, d: Dims, context: nat, window: nat)
    requires |heads| == |pattern|
    ensures PerLayerBytes(heads, pattern, d, context, window)
         == KindSum(heads, pattern, d, false) * context
            + KindSum(heads, pattern, d, true) * (if window < context then window else context)
  {
    if heads != [] {
      var n := |heads| - 1;
      PerLayerSplitsByKind(heads[..n], pattern[..n], d, context, window);
      var tokens := if window < context then window else context;
      Distribute(KindSum(heads[..n], pattern[..n], d, false), heads[n] * DimsSum(d, false) * 2, context);
      Distribute(KindSum(heads[..n], pattern[..n], d, true), heads[n] * DimsSum(d, true) * 2, tokens);
    }
  }

  lemma Distribute(a: int, b: int, c: int)
    ensures (a + b) * c == a * c + b * c
  {
  }

  // ---- No overflow under explicit bounds ------------------------------------------------------

  /** At most `layers` layers, every head count at most `h`, every dims sum at most `dim`. */
  ghost predicate Bounded(heads: seq<nat>, d: Dims, layers: nat, h: nat, dim: nat) {
    && |heads| <= layers
    && (forall i :: 0 <= i < |heads| ==> heads[i] <= h)
    && d.key + d.value <= dim && d.keySwa + d.valueSwa <= dim && dim < TWO32
  }

  lemma MulMono(a: nat, b: nat, c: nat, d: nat)
    requires a <= b && c <= d
    ensures a * c <= b * d
  {
  }

  lemma {:induction false} KindSumsBounded(heads: seq<nat>, pattern: seq<bool>, d: Dims, h: nat, dim: nat)
    requires |heads| == |pattern| && Bounded(heads, d, |heads|, h, dim)
    ensures KindSum(heads, pattern, d, false) + KindSum(heads, pattern, d, true) <= |heads| * (h * dim * 2)
  {
    if heads != [] {
      var n := |heads| - 1;
      KindSumsBounded(heads[..n], pattern[..n], d, h, dim);
      MulMono(heads[n], h, DimsSum(d, pattern[n]), dim);
      Distribute(n, 1, h * dim * 2);
    }
  }

  lemma WrapI64Id(x: nat)
    requires x < TWO63
    ensures WrapI64(x) == x
  {
  }

  lemma LayerBytesExact(head: nat, key: nat, value: nat, h: nat, dim: nat)
    requires head <= h && key + value <= dim < TWO32 && h * dim * 2 < TWO63
    ensures LayerBytes(head, key, value) == head * (key + value) * 2
  {
    MulMono(head, h, key + value, dim);
    WrapI64Id(head * (key + value));
    WrapI64Id(head * (key + value) * 2);
  }

  lemma SumsUnderTop(heads: seq<nat>, pattern: seq<bool>, d: Dims, layers: nat, h: nat, dim: nat)
    requires |heads| == |pattern| && Bounded(heads, d, layers, h, dim)
    ensures KindSum(heads, pattern, d, false) + KindSum(heads, pattern, d, true) <= layers * (h * dim * 2)
  {
    KindSumsBounded(heads, pattern, d, h, dim);
    MulMono(|heads|, layers, h * dim * 2, h * dim * 2);
  }

  lemma OneLayerUnderTop(layers: nat, one: nat)
    requires layers > 0
    ensures one <= layers * one
  {
  }

  lemma LayerUnderTop(heads: seq<nat>, pattern: seq<bool>, d: Dims, layers: nat, h: nat, dim: nat)
    requires |heads| == |pattern| > 0 && Bounded(heads, d, layers, h, dim) && layers * (h * dim * 2) < TWO63
    ensures h * dim * 2 < TWO63
    ensures KindSum(heads, pattern, d, false) + KindSum(heads, pattern, d, true) < TWO63
  {
    SumsUnderTop(heads, pattern, d, layers, h, dim);
    var one := h * dim * 2;
    NonNegative(h, dim);
    OneLayerUnderTop(layers, one);
  }

  /** Within the bounds no u32 or i64 step of the ingestion loop wraps. */
  lemma {:induction false} LayerSumsExact(heads: seq<nat>, pattern: seq<bool>, d: Dims, layers: nat, h: nat, dim: nat)
    requires |heads| == |pattern| && Bounded(heads, d, layers, h, dim) && layers * (h * dim * 2) < TWO63
    ensures LayerSums(heads, pattern, d) == (KindSum(heads, pattern, d, false), KindSum(heads, pattern, d, true))
  {
    if heads != [] {
      var n := |heads| - 1;
      LayerSumsExact(heads[..n], pattern[..n], d, layers, h, dim);
      LayerUnderTop(heads, pattern, d, layers, h, dim);
      LayerStepExact(heads, pattern, d, h, dim);
    }
  }

  lemma LayerStepExact(heads: seq<nat>, pattern: seq<bool>, d: Dims, h: nat, dim: nat)
    requires |heads| == |pattern| > 0 && Bounded(heads, d, |heads|, h, dim) && h * dim * 2 < TWO63
    requires KindSum(heads, pattern, d, false) + KindSum(heads, pattern, d, true) < TWO63
    requires var n := |heads| - 1;
      LayerSums(heads[..n], pattern[..n], d)
        == (KindSum(heads[..n], pattern[..n], d, false), KindSum(heads[..n], pattern[..n], d, true))
    ensures LayerSums(heads, pattern, d) == (KindSum(heads, pattern, d, false), KindSum(heads, pattern, d, true))
  {
    var n := |heads| - 1;
    if pattern[n] {
      LayerBytesExact(heads[n], d.keySwa, d.valueSwa, h, dim);
      WrapI64Id(KindSum(heads, pattern, d, true));
    } else {
      LayerBytesExact(heads[n], d.key, d.value, h, dim);
      WrapI64Id(KindSum(heads, pattern, d, false));
    }
  }

  /** Both saturating products and the saturating sum are exact below 2^64. */
  lemma BytesExact(g: nat, s: nat, window: Option<int>, context: nat, bytes: nat)
    requires g < TWO64 && s < TWO64
    requires bytes == g * context + s * SwaTokens(window, context) < TWO64
    ensures AggregateBytes(g, Some(s), window, context) == bytes
  {
    NonNegative(g, context);
    NonNegative(s, SwaTokens(window, context));
  }

  lemma NonNegative(a: nat, b: nat)
    ensures a * b >= 0
  {
  }

  /** The two sums refine the per-layer sum: within explicit bounds on layers, heads, dims,
      context and parallelism the estimate is the plain sum over the layers, in whole MB. */
  lemma EstimateIsPerLayerSum(meta: Metadata, context: nat, parallel: nat, layers: nat, h: nat, dim: nat)
    requires meta.keyLength.Some? && meta.valueLength.Some? && Heterogeneous(meta)
    requires meta.slidingWindow.Some? ==> meta.slidingWindow.value < TWO32
    requires Bounded(meta.headCountKvPerLayer.value, DimsOf(meta), layers, h, dim)
    requires layers * (h * dim * 2) < TWO63
    requires layers * (h * dim * 2) * context < TWO64
    requires layers * (h * dim * 2) * context * parallel < TWO64
    ensures EstimateKvCacheMb(ParamsOf(meta, context, parallel))
         == PerLayerBytes(meta.headCountKvPerLayer.value, meta.slidingWindowPattern.value, DimsOf(meta),
                          context, meta.slidingWindow.GetOr(context)) * parallel / MB
  {
    var heads, pattern, d := meta.headCountKvPerLayer.value, meta.slidingWindowPattern.value, DimsOf(meta);
    LayerSumsExact(heads, pattern, d, layers, h, dim);
    SumsUnderTop(heads, pattern, d, layers, h, dim);
    EstimateUnderTop(meta, context, parallel, layers * (h * dim * 2));
  }

  lemma PerLayerIsTwoSums(heads: seq<nat>, pattern: seq<bool>, d: Dims, window: Option<int>, context: nat)
    requires |heads| == |pattern| && (window.Some? ==> 0 <= window.value < TWO32)
    ensures PerLayerBytes(heads, pattern, d, context, window.GetOr(context))
         == KindSum(heads, pattern, d, false) * context + KindSum(heads, pattern, d, true) * SwaTokens(window, context)
  {
    TokensUnwrapped(window, context);
    PerLayerSplitsByKind(heads, pattern, d, context, window.GetOr(context));
  }

  lemma TokensUnwrapped(window: Option<int>, context: nat)
    requires window.Some? ==> 0 <= window.value < TWO32
    ensures SwaTokens(window, context) == var w := window.GetOr(context); if w < context then w else context
  {
  }

  lemma EstimateUnderTop(meta: Metadata, context: nat, parallel: nat, top: nat)
    requires meta.keyLength.Some? && meta.valueLength.Some? && Heterogeneous(meta)
    requires meta.slidingWindow.Some? ==> meta.slidingWindow.value < TWO32
    requires var heads, pattern, d := meta.headCountKvPerLayer.value, meta.slidingWindowPattern.value, DimsOf(meta);
      && LayerSums(heads, pattern, d) == (KindSum(heads, pattern, d, false), KindSum(heads, pattern, d, true))
      && KindSum(heads, pattern, d, false) + KindSum(heads, pattern, d, true) <= top
    requires top < TWO63 && top * context < TWO64 && top * context * parallel < TWO64
    ensures EstimateKvCacheMb(ParamsOf(meta, context, parallel))
         == PerLayerBytes(meta.headCountKvPerLayer.value, meta.slidingWindowPattern.value, DimsOf(meta),
                          context, meta.slidingWindow.GetOr(context)) * parallel / MB
  {
    var heads, pattern, d := meta.headCountKvPerLayer.value, meta.slidingWindowPattern.value, DimsOf(meta);
    var g, s := KindSum(heads, pattern, d, false), KindSum(heads, pattern, d, true);
    PerLayerIsTwoSums(heads, pattern, d, meta.slidingWindow, context);
    SumsFit(g, s, SwaTokens(meta.slidingWindow, context), context, parallel, top);
    EstimateOfSums(meta, context, parallel, g, s, PerLayerBytes(heads, pattern, d, context, meta.slidingWindow.GetOr(context)));
  }

  lemma SumsFit(g: nat, s: nat, tokens: nat, context: nat, parallel: nat, top: nat)
    requires g + s <= top && tokens <= context && top < TWO63 && top * context < TWO64 && top * context * parallel < TWO64
    ensures g < TWO63 && s < TWO63 && 0 <= g * context + s * tokens < TWO64 && (g * context + s * tokens) * parallel < TWO64
  {
    BytesUnderTop(g, s, tokens, context, parallel, top);
    NonNegative(g, context);
    NonNegative(s, tokens);
  }

  lemma EstimateOfSums(meta: Metadata, context: nat, parallel: nat, g: nat, s: nat, bytes: nat)
    requires Aggregates(meta) == (Some(g), Some(s)) && g < TWO63 && s < TWO63
    requires bytes == g * context + s * SwaTokens(meta.slidingWindow, context) && bytes < TWO64 && bytes * parallel < TWO64
    ensures EstimateKvCacheMb(ParamsOf(meta, context, parallel)) == bytes * parallel / MB
  {
    BytesExact(g, s, meta.slidingWindow, context, bytes);
  }

  lemma BytesUnderTop(g: nat, s: nat, tokens: nat, context: nat, parallel: nat, top: nat)
    requires g + s <= top && tokens <= context
    ensures g * context + s * tokens <= top * context
    ensures (g * context + s * tokens) * parallel <= top * context * parallel
  {
    MulMono(s, s, tokens, context);
    Distribute(g, s, context);
    MulMono(g + s, top, context, context);
    NonNegative(g, context);
    NonNegative(s, tokens);
    MulMono(g * context + s * tokens, top * context, parallel, parallel);
  }

  // ---- Laws of the estimator ------------------------------------------------------------------

  lemma SatMulMono(a: nat, b: nat, c: nat, d: nat)
    requires a <= b && c <= d
    ensures SatMul(a, c) <= SatMul(b, d)
  {
    MulMono(a, b, c, d);
  }

  ghost predicate WindowAtMost(w: Option<int>, w': Option<int>) {
    w'.None? || (w.Some? && WrapU64(w.value) <= WrapU64(w'.value))
  }

  /** More context, a wider (or no) window or more parallel slots never lower the estimate, not
      even where it saturates. */
  lemma EstimateIsMonotone(global: int, swa: Option<int>, w: Option<int>, context: nat, parallel: nat,
                           w': Option<int>, context': nat, parallel': nat)
    requires WindowAtMost(w, w') && context <= context' && parallel <= parallel'
    ensures AggregateEstimate(global, swa, w, context, parallel) <= AggregateEstimate(global, swa, w', context', parallel')
  {
    SatMulMono(WrapU64(global), WrapU64(global), context, context');
    if swa.Some? {
      SatMulMono(WrapU64(swa.value), WrapU64(swa.value), SwaTokens(w, context), SwaTokens(w', context'));
    }
    var a, b := AggregateBytes(global, swa, w, context), AggregateBytes(global, swa, w', context');
    assert a <= b;
    SatMulMono(a, b, parallel, parallel');
  }

  /** Below saturation, k parallel slots cost k times one slot up to the rounding of k MB. */
  lemma EstimateScalesWithParallel(global: int, swa: Option<int>, w: Option<int>, context: nat, k: nat)
    requires k > 0 && AggregateBytes(global, swa, w, context) * k < TWO64
    ensures var one, many := AggregateEstimate(global, swa, w, context, 1), AggregateEstimate(global, swa, w, context, k);
      k * one <= many < k * one + k
  {
    var bytes := AggregateBytes(global, swa, w, context);
    OneLayerUnderTop(k, bytes);
    ScaledFloor(bytes, k);
  }

  lemma ScaledFloor(bytes: nat, k: nat)
    requires k > 0
    ensures k * (bytes / MB) <= bytes * k / MB < k * (bytes / MB) + k
  {
    var q, r := bytes / MB, bytes % MB;
    var whole, part := q * k, r * k;
    Distribute(q * MB, r, k);
    MoveFactor(q, k);
    NonNegative(r, k);
    MulMono(r, MB - 1, k, k);
    FloorBetween(whole, part, k);
    assert bytes * k == whole * MB + part;
  }

  lemma MoveFactor(q: nat, k: nat)
    ensures q * MB * k == q * k * MB
  {
  }

  lemma FloorBetween(whole: nat, part: nat, k: nat)
    requires part <= (MB - 1) * k && k > 0
    ensures whole <= (whole * MB + part) / MB < whole + k
  {
  }

  /** On homogeneous metadata with explicit dims the two paths agree. */
  lemma HomogeneousEqualsLegacy(meta: Metadata, context: nat, parallel: nat)
    requires meta.keyLength.Some? && meta.valueLength.Some? && !Heterogeneous(meta)
    requires meta.blockCount.Some? && meta.headCountKv.Some? && meta.headCount.Some? && meta.embeddingLength.Some?
    requires meta.keyLength.value < TWO32 && meta.valueLength.value < TWO32
    requires meta.blockCount.value < TWO32 && meta.headCountKv.value < TWO32 && 0 < meta.headCount.value < TWO32
    requires var b, d := meta.blockCount.value * meta.headCountKv.value, meta.keyLength.value + meta.valueLength.value;
      b < TWO63 && d < TWO32 && b * d * 2 < TWO63 && b * d * 2 * context < TWO64 && b * d * 2 * context * parallel < TWO64
    ensures var p := ParamsOf(meta, context, parallel);
      p.globalBytes.Some? && EstimateKvCacheMb(p) == LegacyEstimate(p)
  {
    var b, d := meta.blockCount.value * meta.headCountKv.value, meta.keyLength.value + meta.valueLength.value;
    NonNegative(meta.blockCount.value, meta.headCountKv.value);
    NonNegative(b, d);
    var perToken := b * d * 2;
    HomogeneousAggregates(meta, b, d);
    AggregateOfPerToken(perToken, meta.slidingWindow, context, parallel);
    LegacyWithExplicitDims(ParamsOf(meta, context, parallel));
    LegacyBytesExact(meta.blockCount.value, meta.headCountKv.value, d, context, parallel, b);
  }

  lemma HomogeneousAggregates(meta: Metadata, b: nat, d: nat)
    requires meta.keyLength.Some? && meta.valueLength.Some? && !Heterogeneous(meta)
    requires meta.blockCount.Some? && meta.headCountKv.Some?
    requires b == meta.blockCount.value * meta.headCountKv.value && d == meta.keyLength.value + meta.valueLength.value
    requires meta.keyLength.value < TWO32 && meta.valueLength.value < TWO32
    requires meta.blockCount.value < TWO32 && meta.headCountKv.value < TWO32
    requires b < TWO63 && d < TWO32 && b * d < TWO63 && b * d * 2 < TWO63
    ensures Aggregates(meta) == (Some(b * d * 2), None)
  {
    NonNegative(b, d);
    WrapI64Id(b);
    WrapI64Id(b * d);
    WrapI64Id(b * d * 2);
  }

  lemma AggregateOfPerToken(perToken: nat, window: Option<int>, context: nat, parallel: nat)
    requires perToken < TWO63 && perToken * context < TWO64 && perToken * context * parallel < TWO64
    ensures AggregateEstimate(perToken, None, window, context, parallel) == perToken * context * parallel / MB
  {
    NonNegative(perToken, context);
  }

  lemma LegacyBytesExact(layers: nat, kvHeads: nat, dims: nat, context: nat, parallel: nat, b: nat)
    requires b == layers * kvHeads < TWO64
    requires b * dims * 2 < TWO64 && b * dims * 2 * context < TWO64 && b * dims * 2 * context * parallel < TWO64
    ensures LegacyBytes(layers, kvHeads, dims, context, parallel) == b * dims * 2 * context * parallel
  {
    var bd := b * dims;
    NonNegative(b, dims);
    DoubleLast(bd, context, parallel);
    var bdc := bd * context;
    NonNegative(bd, context);
    var bdcp := bdc * parallel;
    NonNegative(bdc, parallel);
    assert WrapU64(WrapU64(layers * kvHeads) * dims) == bd;
    assert WrapU64(bd * context) == bdc;
    assert WrapU64(bdc * parallel) == bdcp;
  }

  lemma WrapU64Id(x: nat)
    requires x < TWO64
    ensures WrapU64(x) == x
  {
  }

  /** With explicit dims the derived head dimension plays no part. */
  lemma LegacyWithExplicitDims(p: Params)
    requires p.layers.Some? && p.heads.Some? && p.kvHeads.Some? && p.embedding.Some? && p.heads.value > 0
    requires p.keyLength.Some? && p.valueLength.Some? && 0 <= p.keyLength.value < TWO32 && 0 <= p.valueLength.value < TWO32
    requires 0 <= p.layers.value < TWO32 && 0 <= p.kvHeads.value < TWO32
    ensures LegacyEstimate(p)
         == LegacyBytes(p.layers.value, p.kvHeads.value, p.keyLength.value + p.valueLength.value, p.context, p.parallel) / MB
  {
    WrapU64Id(p.keyLength.value);
    WrapU64Id(p.valueLength.value);
    WrapU64Id(p.layers.value);
    WrapU64Id(p.kvHeads.value);
    WrapU64Id(p.keyLength.value + p.valueLength.value);
  }

  lemma DoubleLast(x: nat, y: nat, z: nat)
    ensures x * 2 * y == x * y * 2
    ensures x * 2 * y * z == x * y * z * 2
  {
    assert x * 2 * y == x * y * 2;
    var xy := x * y;
    assert xy * 2 * z == xy * z * 2;
  }
}
