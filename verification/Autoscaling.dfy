/** The replica recommender: lag, throughput and partition count, then limits. */
module Autoscaling {

  const I32_MAX := 0x7FFF_FFFF

  datatype Config = Config(
    minReplicas: int, maxReplicas: int, partitionAware: bool,
    targetLagPerPartition: int, targetMessagesPerSecond: int)

  datatype Metrics = Metrics(totalPartitions: int, totalLag: int, messagesPerSecond: real)

  datatype Trigger = ConsumerLag | MessagesPerSecond | PartitionCount

  datatype Recommendation = Recommendation(
    recommendedReplicas: int, currentReplicas: int, confidence: int, triggers: seq<Trigger>)

  /** Integer division that truncates toward zero. */
  function TruncDiv(a: int, b: int): int
    requires b != 0
  {
    if a >= 0 then
      if b > 0 then a / b else -(a / (-b))
    else
      if b > 0 then -((-a) / b) else (-a) / (-b)
  }

  /** The ceiling of an exact quotient; Euclidean division already rounds up when
      the divisor is negative. */
  function CeilDiv(a: int, b: int): int
    requires b != 0
  {
    if b < 0 || a % b == 0 then a / b else a / b + 1
  }

  function Ceil(x: real): int {
    -((-x).Floor)
  }

  function Max(a: int, b: int): int { if a >= b then a else b }

  function Min(a: int, b: int): int { if a <= b then a else b }

  function TargetLag(m: Metrics, cfg: Config): int {
    cfg.targetLagPerPartition * m.totalPartitions
  }

  predicate LagMatters(m: Metrics, cfg: Config) {
    cfg.partitionAware && m.totalLag > 0
  }

  /** More than twice the target lag per broker. */
  predicate HighLag(m: Metrics, cfg: Config, current: int) {
    LagMatters(m, cfg) && current != 0
    && TruncDiv(m.totalLag, current) > cfg.targetLagPerPartition * 2
  }

  /** Less than a quarter of the target lag per broker. */
  predicate LowLag(m: Metrics, cfg: Config, current: int) {
    LagMatters(m, cfg) && current != 0
    && !HighLag(m, cfg, current)
    && TruncDiv(m.totalLag, current) < TruncDiv(cfg.targetLagPerPartition, 4)
  }

  /** The integer divisions that would abort: by zero brokers, or by a zero
      target when the lag is high. */
  predicate Panics(m: Metrics, cfg: Config, current: int) {
    || (current == 0 && (LagMatters(m, cfg) || m.totalPartitions > 0))
    || (HighLag(m, cfg, current) && TargetLag(m, cfg) == 0)
  }

  /** A quotient by a zero target is infinite, so it never lies below `current`. */
  function AfterLag(m: Metrics, cfg: Config, current: int): int
    requires !Panics(m, cfg, current)
  {
    if HighLag(m, cfg, current) then
      Max(current, Max(TruncDiv(m.totalLag, TargetLag(m, cfg)), 1))
    else if LowLag(m, cfg, current) && current > cfg.minReplicas && TargetLag(m, cfg) != 0 then
      Min(current, Max(CeilDiv(m.totalLag, TargetLag(m, cfg)), 1))
    else current
  }

  /** More than one and a half times the target throughput per broker. */
  predicate HighThroughput(m: Metrics, cfg: Config, current: int) {
    m.messagesPerSecond > 0.0
    && (current == 0 || m.messagesPerSecond / current as real > cfg.targetMessagesPerSecond as real * 1.5)
  }

  /** An infinite quotient saturates at the largest 32-bit integer. */
  function ThroughputNeeds(m: Metrics, cfg: Config): int {
    if cfg.targetMessagesPerSecond == 0 then I32_MAX
    else Ceil(m.messagesPerSecond / cfg.targetMessagesPerSecond as real)
  }

  function AfterThroughput(m: Metrics, cfg: Config, current: int, sofar: int): int {
    if HighThroughput(m, cfg, current) then Max(sofar, ThroughputNeeds(m, cfg)) else sofar
  }

  function PartitionsNeed(m: Metrics): int
    requires m.totalPartitions > 0
  {
    Max(m.totalPartitions / 100, 1)
  }

  function AfterPartitions(m: Metrics, sofar: int): int {
    if m.totalPartitions > 0 then Max(sofar, PartitionsNeed(m)) else sofar
  }

  function Clamp(cfg: Config, x: int): (r: int)
    ensures cfg.minReplicas <= cfg.maxReplicas ==> cfg.minReplicas <= r <= cfg.maxReplicas
  {
    Min(Max(x, cfg.minReplicas), cfg.maxReplicas)
  }

  /** The recommended replica count. */
  function Recommend(m: Metrics, cfg: Config, current: int): (r: int)
    requires !Panics(m, cfg, current)
    ensures cfg.minReplicas <= cfg.maxReplicas ==> cfg.minReplicas <= r <= cfg.maxReplicas
  {
    Clamp(cfg, AfterPartitions(m, AfterThroughput(m, cfg, current, AfterLag(m, cfg, current))))
  }

  // ---------------------------------------------------------------------
  // Arithmetic
  // ---------------------------------------------------------------------

  lemma MulMono(q: int, a: int, b: int)
    requires q >= 0
    ensures a <= b ==> q * a <= q * b
  {
  }

  lemma DivLower(x: int, d: int, q: int)
    requires d > 0 && d * q <= x
    ensures q <= x / d
  {
    var p := x / d;
    assert x == d * p + x % d;
    MulMono(d, p + 1, q);
  }

  lemma DivAntitone(lag: int, a: int, b: int)
    requires lag >= 0 && 0 < a <= b
    ensures lag / b <= lag / a
  {
    var q := lag / b;
    Quotient(lag, b);
    FewerFit(lag, a, b, q);
    DivLower(lag, a, q);
  }

  lemma Quotient(x: int, d: int)
    requires x >= 0 && d > 0
    ensures x / d >= 0 && d * (x / d) <= x
  {
  }

  lemma FewerFit(x: int, a: int, b: int, q: int)
    requires 0 < a <= b && q >= 0 && b * q <= x
    ensures a * q <= x
  {
    MulMono(q, a, b);
  }

  lemma DivMonotone(x: int, y: int, d: int)
    requires x <= y && d > 0
    ensures x / d <= y / d
    ensures CeilDiv(x, d) <= CeilDiv(y, d)
    ensures x / d <= CeilDiv(x, d)
  {
    assert x == d * (x / d) + x % d && y == d * (y / d) + y % d;
    DivLower(y, d, x / d);
  }

  /** Brokers counted by rounding the lag down each carry at least the target. */
  lemma RoundedDownIsBusy(lag: int, target: int, partitions: int)
    requires lag > 0 && target > 0 && partitions > 0
    requires lag / (target * partitions) >= 1
    ensures target * partitions > 0
    ensures lag / (lag / (target * partitions)) >= target
  {
    var t := target * partitions;
    assert t >= target by { MulMono(target, 1, partitions); }
    var k := lag / t;
    assert lag == t * k + lag % t;
    DivLower(lag, k, t);
  }

  lemma DivideThrough(mps: real, x: real, limit: real)
    requires x > 0.0
    ensures mps / x <= limit <==> mps <= limit * x
  {
    var q := mps / x;
    assert q * x == mps;
    assert q <= limit ==> q * x <= limit * x;
    assert q > limit ==> q * x > limit * x;
  }

  lemma ThroughputAntitone(mps: real, a: int, b: int)
    requires mps > 0.0 && 0 < a <= b
    ensures mps / b as real <= mps / a as real
  {
    var x, y := a as real, b as real;
    DivideThrough(mps, y, mps / x);
    assert mps / x * x == mps;
    assert mps / x > 0.0;
    assert mps / x * x <= mps / x * y;
  }

  lemma CeilBounds(x: real)
    ensures Ceil(x) as real - 1.0 < x <= Ceil(x) as real
  {
  }

  /** As many brokers as the throughput needs run at no more than the target, and
      a broker count at which throughput is high is short of that. */
  lemma EnoughBrokersAreCalm(m: Metrics, cfg: Config, r: int)
    requires m.messagesPerSecond > 0.0 && cfg.targetMessagesPerSecond > 0 && r > 0
    ensures HighThroughput(m, cfg, r) ==> r < ThroughputNeeds(m, cfg)
  {
    var mps, t, k := m.messagesPerSecond, cfg.targetMessagesPerSecond as real, ThroughputNeeds(m, cfg);
    CeilBounds(mps / t);
    DivideThrough(mps, t, r as real);
    DivideThrough(mps, r as real, t);
  }

  // ---------------------------------------------------------------------
  // What a recommendation is, in plain numbers
  // ---------------------------------------------------------------------

  /** Truncation leaves a remainder of the dividend's sign that is smaller than the divisor. */
  lemma TruncDivExactly(a: int, b: int)
    requires b != 0
    ensures
      var r := a - b * TruncDiv(a, b);
      if a >= 0 then 0 <= r < (if b > 0 then b else -b) else (if b > 0 then -b else b) < r <= 0
  {
  }

  /** Rounding up: the least whole number that is no less than the exact quotient. */
  lemma CeilDivExactly(a: int, b: int)
    requires b != 0
    ensures if b > 0 then b * (CeilDiv(a, b) - 1) < a <= b * CeilDiv(a, b)
            else b * (CeilDiv(a, b) - 1) > a >= b * CeilDiv(a, b)
  {
    assert a == b * (a / b) + a % b;
  }

  /** The number of brokers answers the lag: more than twice the target per broker asks for
      as many as carry the target, and never for fewer than there are; below a quarter of it
      as many as carry the target are enough; in between nothing changes. */
  predicate AnswersLag(m: Metrics, cfg: Config, current: int, n: int) {
    var lag, target, partitions := m.totalLag, cfg.targetLagPerPartition, m.totalPartitions;
    if cfg.partitionAware && lag > 0 && lag >= (2 * target + 1) * current then
      n >= current && (n + 1) * (target * partitions) > lag
    else if cfg.partitionAware && lag > 0 && lag < (target / 4) * current && current > cfg.minReplicas
            && partitions > 0 then
      n >= current || (n >= 1 && n * (target * partitions) >= lag)
    else
      n >= current
  }

  /** The number of brokers answers the throughput: above one and a half times the target per
      broker, at the target they carry all of it. */
  predicate AnswersThroughput(m: Metrics, cfg: Config, current: int, n: int) {
    var target := cfg.targetMessagesPerSecond as real;
    m.messagesPerSecond > 0.0 && 2.0 * m.messagesPerSecond > 3.0 * target * current as real ==>
      n as real * target >= m.messagesPerSecond
  }

  /** One broker for every full hundred partitions, and at least one if there are any. */
  predicate AnswersPartitions(m: Metrics, n: int) {
    m.totalPartitions > 0 ==> n >= 1 && 100 * (n + 1) > m.totalPartitions
  }

  predicate Suffices(m: Metrics, cfg: Config, current: int, n: int) {
    && n >= cfg.minReplicas
    && AnswersLag(m, cfg, current, n) && AnswersThroughput(m, cfg, current, n) && AnswersPartitions(m, n)
  }

  /** The least number of brokers that suffices, or the maximum where that is less. */
  ghost predicate IsLeast(m: Metrics, cfg: Config, current: int, r: int) {
    && r <= cfg.maxReplicas
    && (r == cfg.maxReplicas || Suffices(m, cfg, current, r))
    && (forall n | Suffices(m, cfg, current, n) :: r <= n)
  }

  /** Counts and targets that are not negative, and a maximum of 32 bits. */
  predicate InRange(m: Metrics, cfg: Config, current: int) {
    && current >= 0 && m.totalPartitions >= 0 && cfg.maxReplicas <= I32_MAX
    && cfg.targetLagPerPartition >= 0 && cfg.targetMessagesPerSecond >= 0
  }

  lemma QuotientAtLeast(x: int, d: int, q: int)
    requires d > 0
    ensures x / d >= q <==> x >= q * d
  {
    var p := x / d;
    assert x == d * p + x % d;
    if p >= q {
      MulMono(d, q, p);
    } else {
      MulMono(d, p + 1, q);
    }
  }

  lemma LagExactly(m: Metrics, cfg: Config, current: int)
    requires InRange(m, cfg, current) && !Panics(m, cfg, current)
    ensures HighLag(m, cfg, current)
       <==> cfg.partitionAware && m.totalLag > 0 && m.totalLag >= (2 * cfg.targetLagPerPartition + 1) * current
    ensures LowLag(m, cfg, current)
       <==> cfg.partitionAware && m.totalLag > 0 && m.totalLag < (cfg.targetLagPerPartition / 4) * current
  {
    if LagMatters(m, cfg) {
      QuotientAtLeast(m.totalLag, current, 2 * cfg.targetLagPerPartition + 1);
      QuotientAtLeast(m.totalLag, current, cfg.targetLagPerPartition / 4);
    }
  }

  lemma RoundedDown(lag: int, t: int, n: int)
    requires lag > 0 && t > 0
    ensures n >= TruncDiv(lag, t) <==> (n + 1) * t > lag
  {
    QuotientAtLeast(lag, t, n + 1);
  }

  lemma RoundedUp(lag: int, t: int, n: int)
    requires lag > 0 && t > 0
    ensures n >= CeilDiv(lag, t) <==> n * t >= lag
  {
    CeilDivExactly(lag, t);
    var q := CeilDiv(lag, t);
    if n >= q {
      MulMono(t, q, n);
    } else {
      MulMono(t, n, q - 1);
    }
  }

  lemma PositiveProduct(a: int, b: int)
    requires a >= 0 && b >= 0 && a * b != 0
    ensures a * b > 0 && a > 0 && b > 0
  {
  }

  /** The count after the first signal is the least that answers it. */
  lemma AfterLagExactly(m: Metrics, cfg: Config, current: int, n: int)
    requires InRange(m, cfg, current) && !Panics(m, cfg, current)
    ensures n >= AfterLag(m, cfg, current) <==> AnswersLag(m, cfg, current, n)
  {
    LagExactly(m, cfg, current);
    var t := TargetLag(m, cfg);
    if HighLag(m, cfg, current) {
      PositiveProduct(cfg.targetLagPerPartition, m.totalPartitions);
      RoundedDown(m.totalLag, t, n);
    } else if LowLag(m, cfg, current) && t != 0 {
      PositiveProduct(cfg.targetLagPerPartition, m.totalPartitions);
      RoundedUp(m.totalLag, t, n);
    }
  }

  lemma ThroughputExactly(m: Metrics, cfg: Config, current: int)
    requires InRange(m, cfg, current)
    ensures HighThroughput(m, cfg, current)
       <==> m.messagesPerSecond > 0.0
            && 2.0 * m.messagesPerSecond > 3.0 * cfg.targetMessagesPerSecond as real * current as real
  {
    if current > 0 {
      DivideThrough(m.messagesPerSecond, current as real, cfg.targetMessagesPerSecond as real * 1.5);
    }
  }

  lemma ThroughputNeedsExactly(m: Metrics, cfg: Config, n: int)
    requires m.messagesPerSecond > 0.0 && cfg.targetMessagesPerSecond > 0
    ensures n as real * cfg.targetMessagesPerSecond as real >= m.messagesPerSecond <==> n >= ThroughputNeeds(m, cfg)
  {
    CeilBounds(m.messagesPerSecond / cfg.targetMessagesPerSecond as real);
    DivideThrough(m.messagesPerSecond, cfg.targetMessagesPerSecond as real, n as real);
  }

  /** Where no number of brokers would do, the source asks for the largest there is. */
  lemma AfterThroughputIsLeast(m: Metrics, cfg: Config, current: int, sofar: int, n: int)
    requires InRange(m, cfg, current)
    ensures n >= sofar && AnswersThroughput(m, cfg, current, n) ==> n >= AfterThroughput(m, cfg, current, sofar)
    ensures n >= AfterThroughput(m, cfg, current, sofar) ==>
              n >= sofar && (AnswersThroughput(m, cfg, current, n) || n >= I32_MAX)
  {
    ThroughputExactly(m, cfg, current);
    if m.messagesPerSecond > 0.0 && cfg.targetMessagesPerSecond > 0 {
      ThroughputNeedsExactly(m, cfg, n);
    }
  }

  lemma AfterPartitionsIsLeast(m: Metrics, sofar: int, n: int)
    ensures n >= sofar && AnswersPartitions(m, n) <==> n >= AfterPartitions(m, sofar)
  {
  }

  /** The recommendation is the least number of brokers that suffices for lag, throughput and
      partitions and is no less than the minimum, or the maximum where that is less. */
  lemma RecommendationIsLeast(m: Metrics, cfg: Config, current: int)
    requires InRange(m, cfg, current) && !Panics(m, cfg, current)
    ensures IsLeast(m, cfg, current, Recommend(m, cfg, current))
  {
    var r, lag := Recommend(m, cfg, current), AfterLag(m, cfg, current);
    var throughput := AfterThroughput(m, cfg, current, lag);
    forall n | Suffices(m, cfg, current, n)
      ensures r <= n
    {
      AfterLagExactly(m, cfg, current, n);
      AfterThroughputIsLeast(m, cfg, current, lag, n);
      AfterPartitionsIsLeast(m, throughput, n);
    }
    if r < cfg.maxReplicas {
      AfterPartitionsIsLeast(m, throughput, r);
      AfterThroughputIsLeast(m, cfg, current, lag, r);
      AfterLagExactly(m, cfg, current, r);
    }
  }

  lemma QuietMetricsAreAnswered(m: Metrics, cfg: Config, current: int, n: int)
    requires !cfg.partitionAware || m.totalLag <= 0
    requires 2.0 * m.messagesPerSecond <= 3.0 * cfg.targetMessagesPerSecond as real * current as real
    requires m.totalPartitions <= 100 * current
    ensures Suffices(m, cfg, current, n) <==> n >= current && n >= cfg.minReplicas
  {
  }

  /** With no lag to act on, throughput at or below one and a half times the target and no
      more than a hundred partitions per broker, the count stays, within the limits. */
  lemma QuietMetricsChangeNothing(m: Metrics, cfg: Config, current: int)
    requires InRange(m, cfg, current) && !Panics(m, cfg, current)
    requires !cfg.partitionAware || m.totalLag <= 0
    requires 2.0 * m.messagesPerSecond <= 3.0 * cfg.targetMessagesPerSecond as real * current as real
    requires m.totalPartitions <= 100 * current
    ensures Recommend(m, cfg, current)
         == if current > cfg.maxReplicas || cfg.minReplicas > cfg.maxReplicas then cfg.maxReplicas
            else if current < cfg.minReplicas then cfg.minReplicas
            else current
  {
    var r := Recommend(m, cfg, current);
    RecommendationIsLeast(m, cfg, current);
    QuietMetricsAreAnswered(m, cfg, current, r);
    QuietMetricsAreAnswered(m, cfg, current, current);
    QuietMetricsAreAnswered(m, cfg, current, cfg.minReplicas);
  }

  /** The first signal: high lag may raise the count, low lag may lower it. */
  method AdjustForLag(m: Metrics, cfg: Config, current: int) returns (recommended: int)
    requires !Panics(m, cfg, current)
    ensures recommended == AfterLag(m, cfg, current)
    ensures InRange(m, cfg, current) ==> forall n :: n >= recommended <==> AnswersLag(m, cfg, current, n)
  {
    recommended := current;
    if cfg.partitionAware && m.totalLag > 0 {
      var lagPerBroker := TruncDiv(m.totalLag, current);
      var targetLag := cfg.targetLagPerPartition * m.totalPartitions;
      if lagPerBroker > cfg.targetLagPerPartition * 2 {
        var needed := Max(TruncDiv(m.totalLag, targetLag), 1);
        if needed > recommended {
          recommended := needed;
        }
      } else if lagPerBroker < TruncDiv(cfg.targetLagPerPartition, 4) && recommended > cfg.minReplicas {
        if targetLag != 0 {
          var needed := Max(CeilDiv(m.totalLag, targetLag), 1);
          if needed < recommended {
            recommended := needed;
          }
        }
      }
    }
    forall n | InRange(m, cfg, current)
      ensures n >= AfterLag(m, cfg, current) <==> AnswersLag(m, cfg, current, n)
    {
      AfterLagExactly(m, cfg, current, n);
    }
  }

  /** The recommendation is computed by reassigning one running value and noting
      each signal that moved it. */
  method GenerateRecommendation(m: Metrics, cfg: Config, current: int) returns (r: Recommendation)
    requires !Panics(m, cfg, current)
    ensures r.recommendedReplicas == Recommend(m, cfg, current)
    ensures r.currentReplicas == current
    ensures InRange(m, cfg, current) ==> IsLeast(m, cfg, current, r.recommendedReplicas)
    ensures r.triggers == [] ==> r.recommendedReplicas == Clamp(cfg, current)
    ensures
      var lag := AfterLag(m, cfg, current);
      var throughput := AfterThroughput(m, cfg, current, lag);
      r.triggers == (if lag != current then [ConsumerLag] else [])
                  + (if throughput != lag then [MessagesPerSecond] else [])
                  + (if m.totalPartitions > 0 && PartitionsNeed(m) > throughput then [PartitionCount] else [])
    ensures r.confidence == if |r.triggers| == 0 then 50 else if |r.triggers| == 1 then 70 else 90
  {
    var recommended := AdjustForLag(m, cfg, current);
    var triggers: seq<Trigger> := if recommended != current then [ConsumerLag] else [];

    if HighThroughput(m, cfg, current) {
      var needed := ThroughputNeeds(m, cfg);
      if needed > recommended {
        recommended := needed;
        triggers := triggers + [MessagesPerSecond];
      }
    }

    if m.totalPartitions > 0 {
      var minForPartitions := Max(m.totalPartitions / 100, 1);
      if minForPartitions > recommended {
        recommended := minForPartitions;
        triggers := triggers + [PartitionCount];
      }
    }

    recommended := Min(Max(recommended, cfg.minReplicas), cfg.maxReplicas);
    var confidence := if triggers == [] then 50 else if |triggers| == 1 then 70 else 90;
    r := Recommendation(recommended, current, confidence, triggers);
    assert InRange(m, cfg, current) ==> IsLeast(m, cfg, current, Recommend(m, cfg, current)) by {
      if InRange(m, cfg, current) {
        RecommendationIsLeast(m, cfg, current);
      }
    }
  }

  // ---------------------------------------------------------------------
  // Stability
  // ---------------------------------------------------------------------

  /** Limits in order, at least one broker, positive targets and partitions. */
  predicate WellConfigured(m: Metrics, cfg: Config, current: int) {
    && 1 <= cfg.minReplicas <= cfg.maxReplicas && current >= 1
    && cfg.targetLagPerPartition > 0 && cfg.targetMessagesPerSecond > 0 && m.totalPartitions > 0
  }

  lemma PositiveTarget(m: Metrics, cfg: Config, current: int)
    requires WellConfigured(m, cfg, current)
    ensures TargetLag(m, cfg) >= cfg.targetLagPerPartition > 0
    ensures !Panics(m, cfg, current)
  {
    MulMono(cfg.targetLagPerPartition, 1, m.totalPartitions);
  }

  /** More brokers never make the lag per broker high, nor less low. */
  lemma LagEasesWithBrokers(m: Metrics, cfg: Config, a: int, b: int)
    requires 0 < a <= b
    ensures HighLag(m, cfg, b) ==> HighLag(m, cfg, a)
    ensures LowLag(m, cfg, a) ==> (LowLag(m, cfg, b) || HighLag(m, cfg, b))
  {
    if LagMatters(m, cfg) {
      DivAntitone(m.totalLag, a, b);
    }
  }

  /** Lag alone never asks again for more than a first pass granted. */
  lemma LagIsSatisfied(m: Metrics, cfg: Config, current: int, r: int)
    requires WellConfigured(m, cfg, current) && !Panics(m, cfg, current)
    requires r >= 1 && (r >= AfterLag(m, cfg, current) || r == cfg.maxReplicas)
    ensures r < cfg.maxReplicas ==> HighLag(m, cfg, r) ==> TruncDiv(m.totalLag, TargetLag(m, cfg)) <= r
  {
    PositiveTarget(m, cfg, current);
    if r < cfg.maxReplicas && HighLag(m, cfg, r) {
      DivMonotone(m.totalLag, m.totalLag, TargetLag(m, cfg));
      if r >= current {
        LagEasesWithBrokers(m, cfg, current, r);
      }
    }
  }

  /** The recommendation would fall on a second pass: the lag is low at `r`, asks
      for fewer brokers, and neither throughput nor partitions hold `r` up. */
  predicate Falls(m: Metrics, cfg: Config, r: int)
    requires TargetLag(m, cfg) != 0 && m.totalPartitions > 0
  {
    && !HighThroughput(m, cfg, r)
    && LowLag(m, cfg, r) && r > cfg.minReplicas
    && CeilDiv(m.totalLag, TargetLag(m, cfg)) < r
    && PartitionsNeed(m) < r
  }

  /** The recommendation would rise on a second pass: throughput per broker is
      high at `r` and there is room. */
  predicate Rises(m: Metrics, cfg: Config, r: int) {
    HighThroughput(m, cfg, r) && r < cfg.maxReplicas
  }

  lemma PartitionsAreSatisfied(m: Metrics, cfg: Config, current: int)
    requires WellConfigured(m, cfg, current) && !Panics(m, cfg, current)
    ensures var r := Recommend(m, cfg, current); r < cfg.maxReplicas ==> r >= PartitionsNeed(m)
    ensures var r := Recommend(m, cfg, current); r < cfg.maxReplicas ==> r >= AfterLag(m, cfg, current)
  {
  }

  /** Feeding the recommended count back as the current one returns it again
      exactly when it neither falls nor rises: the only sources of instability
      are the throughput test and the lag scale-down, each applied at the
      recommended count. */
  lemma StableExactly(m: Metrics, cfg: Config, current: int)
    requires WellConfigured(m, cfg, current) && !Panics(m, cfg, current)
    ensures
      var r := Recommend(m, cfg, current);
      && r >= 1 && TargetLag(m, cfg) != 0 && !Panics(m, cfg, r)
      && (Recommend(m, cfg, r) == r <==> !Falls(m, cfg, r) && !Rises(m, cfg, r))
  {
    var r := Recommend(m, cfg, current);
    PositiveTarget(m, cfg, current);
    PositiveTarget(m, cfg, r);
    PartitionsAreSatisfied(m, cfg, current);
    LagIsSatisfied(m, cfg, current, r);
    if m.messagesPerSecond > 0.0 {
      EnoughBrokersAreCalm(m, cfg, r);
    }
  }

  /** With partition awareness off or no throughput, one recommendation is the
      last: feeding it back with the same metrics changes nothing. */
  lemma RecommendationIsAFixpoint(m: Metrics, cfg: Config, current: int)
    requires WellConfigured(m, cfg, current) && !Panics(m, cfg, current)
    requires !cfg.partitionAware || m.messagesPerSecond <= 0.0
    ensures var r := Recommend(m, cfg, current);
            !Panics(m, cfg, r) && Recommend(m, cfg, r) == r
  {
    var r := Recommend(m, cfg, current);
    StableExactly(m, cfg, current);
    PositiveTarget(m, cfg, current);
    if cfg.partitionAware {
      NoFallWithoutThroughput(m, cfg, current);
    } else if r < cfg.maxReplicas {
      NoRiseWithoutLag(m, cfg, current);
    }
  }

  lemma NoFallWithoutThroughput(m: Metrics, cfg: Config, current: int)
    requires WellConfigured(m, cfg, current) && !Panics(m, cfg, current)
    requires m.messagesPerSecond <= 0.0
    ensures TargetLag(m, cfg) != 0 && !Falls(m, cfg, Recommend(m, cfg, current))
  {
    var r := Recommend(m, cfg, current);
    PositiveTarget(m, cfg, current);
    var t := TargetLag(m, cfg);
    DivMonotone(m.totalLag, m.totalLag, t);
    if HighLag(m, cfg, current) && m.totalLag / t >= 1 {
      RoundedDownIsBusy(m.totalLag, cfg.targetLagPerPartition, m.totalPartitions);
      if r > current && r <= m.totalLag / t {
        LagEasesBelow(m, cfg, r, m.totalLag / t);
      }
    }
    if r <= current {
      LagEasesWithBrokers(m, cfg, r, current);
    }
  }

  /** Fewer brokers than a busy count are busy too. */
  lemma LagEasesBelow(m: Metrics, cfg: Config, a: int, b: int)
    requires 0 < a <= b && LagMatters(m, cfg) && cfg.targetLagPerPartition > 0
    requires m.totalLag / b >= cfg.targetLagPerPartition
    ensures !LowLag(m, cfg, a)
  {
    DivAntitone(m.totalLag, a, b);
  }

  lemma NoRiseWithoutLag(m: Metrics, cfg: Config, current: int)
    requires WellConfigured(m, cfg, current) && !Panics(m, cfg, current)
    requires !cfg.partitionAware
    ensures !Rises(m, cfg, Recommend(m, cfg, current))
  {
    var r := Recommend(m, cfg, current);
    if m.messagesPerSecond > 0.0 && r < cfg.maxReplicas {
      ThroughputAntitone(m.messagesPerSecond, current, r);
      EnoughBrokersAreCalm(m, cfg, r);
    }
  }

  // ---------------------------------------------------------------------
  // Feeding recommendations back
  // ---------------------------------------------------------------------

  /** What throughput and partitions ask for, within the limits. */
  function CalmCount(m: Metrics, cfg: Config): int
    requires m.totalPartitions > 0
  {
    Clamp(cfg, Max(ThroughputNeeds(m, cfg), PartitionsNeed(m)))
  }

  /** What the lag scale-down and partitions ask for, within the limits. */
  function LeanCount(m: Metrics, cfg: Config): int
    requires m.totalPartitions > 0 && TargetLag(m, cfg) != 0
  {
    Clamp(cfg, Max(Max(CeilDiv(m.totalLag, TargetLag(m, cfg)), 1), PartitionsNeed(m)))
  }

  /** `r` is the recommendation for some count. */
  ghost predicate IsRecommended(m: Metrics, cfg: Config, r: int) {
    exists current :: current >= 1 && !Panics(m, cfg, current) && r == Recommend(m, cfg, current)
  }

  /** Where a recommendation leads when it is fed back: up to what throughput needs, down
      to what the lag needs, or nowhere. */
  lemma FedBack(m: Metrics, cfg: Config, r: int)
    requires WellConfigured(m, cfg, r) && IsRecommended(m, cfg, r)
    ensures !Panics(m, cfg, r) && TargetLag(m, cfg) != 0
    ensures Recommend(m, cfg, r)
         == if Rises(m, cfg, r) then CalmCount(m, cfg)
            else if Falls(m, cfg, r) then LeanCount(m, cfg)
            else r
  {
    var current :| current >= 1 && !Panics(m, cfg, current) && r == Recommend(m, cfg, current);
    StableExactly(m, cfg, current);
    PositiveTarget(m, cfg, r);
    PartitionsAreSatisfied(m, cfg, current);
    LagIsSatisfied(m, cfg, current, r);
    if m.messagesPerSecond > 0.0 {
      EnoughBrokersAreCalm(m, cfg, r);
    }
  }

  /** The recommendation for the count that was recommended `n` times over. */
  ghost function FeedBack(m: Metrics, cfg: Config, current: int, n: nat): (r: int)
    requires WellConfigured(m, cfg, current)
    ensures WellConfigured(m, cfg, r)
    ensures n > 0 ==> IsRecommended(m, cfg, r)
  {
    if n == 0 then current
    else
      var before := FeedBack(m, cfg, current, n - 1);
      assert !Panics(m, cfg, before) by { PositiveTarget(m, cfg, before); }
      Recommend(m, cfg, before)
  }

  /** Whatever it starts from, feeding back settles within three passes into one count
      or into two that alternate. */
  lemma FeedBackSettles(m: Metrics, cfg: Config, current: int, n: nat)
    requires WellConfigured(m, cfg, current) && n >= 3
    ensures FeedBack(m, cfg, current, n + 2) == FeedBack(m, cfg, current, n)
  {
    var a, b := FeedBack(m, cfg, current, n - 2), FeedBack(m, cfg, current, n - 1);
    var c, d := FeedBack(m, cfg, current, n), FeedBack(m, cfg, current, n + 1);
    FedBack(m, cfg, a);
    FedBack(m, cfg, b);
    FedBack(m, cfg, c);
    FedBack(m, cfg, d);
  }

  /** Two counts alternate: each is recommended for the other. */
  ghost predicate Alternate(m: Metrics, cfg: Config, a: int, b: int) {
    && a != b && WellConfigured(m, cfg, a) && WellConfigured(m, cfg, b)
    && !Panics(m, cfg, a) && !Panics(m, cfg, b)
    && Recommend(m, cfg, a) == b && Recommend(m, cfg, b) == a
  }

  /** When two counts alternate, told from metrics and configuration alone: throughput is
      high at the lean count, and the lag is low at the calm one. */
  lemma AlternatesExactly(m: Metrics, cfg: Config)
    requires WellConfigured(m, cfg, 1)
    ensures TargetLag(m, cfg) != 0
    ensures (exists a, b :: Alternate(m, cfg, a, b))
       <==> Rises(m, cfg, LeanCount(m, cfg)) && Falls(m, cfg, CalmCount(m, cfg))
  {
    PositiveTarget(m, cfg, 1);
    var lean, calm := LeanCount(m, cfg), CalmCount(m, cfg);
    if a, b :| Alternate(m, cfg, a, b) {
      assert IsRecommended(m, cfg, a) && IsRecommended(m, cfg, b);
      FedBack(m, cfg, a);
      FedBack(m, cfg, b);
    }
    if Rises(m, cfg, lean) && Falls(m, cfg, calm) {
      FromLeanToCalm(m, cfg);
      FromCalmToLean(m, cfg);
      assert Alternate(m, cfg, lean, calm);
    }
  }

  lemma FromLeanToCalm(m: Metrics, cfg: Config)
    requires WellConfigured(m, cfg, 1)
    ensures TargetLag(m, cfg) != 0
    ensures
      var lean := LeanCount(m, cfg);
      WellConfigured(m, cfg, lean) && !Panics(m, cfg, lean)
      && (Rises(m, cfg, lean) ==> Recommend(m, cfg, lean) == CalmCount(m, cfg))
  {
    PositiveTarget(m, cfg, 1);
    var lean, t := LeanCount(m, cfg), TargetLag(m, cfg);
    PositiveTarget(m, cfg, lean);
    if Rises(m, cfg, lean) {
      EnoughBrokersAreCalm(m, cfg, lean);
      DivMonotone(m.totalLag, m.totalLag, t);
    }
  }

  lemma FromCalmToLean(m: Metrics, cfg: Config)
    requires WellConfigured(m, cfg, 1)
    ensures TargetLag(m, cfg) != 0
    ensures
      var calm := CalmCount(m, cfg);
      WellConfigured(m, cfg, calm) && !Panics(m, cfg, calm)
      && (Falls(m, cfg, calm) ==> Recommend(m, cfg, calm) == LeanCount(m, cfg))
  {
    PositiveTarget(m, cfg, 1);
    PositiveTarget(m, cfg, CalmCount(m, cfg));
  }

  /** With lag and throughput both active the recommender can oscillate: ten
      brokers are told to become one, and one is told to become ten. */
  lemma RecommenderCanOscillate()
    ensures exists m, cfg ::
      WellConfigured(m, cfg, 10) && !Panics(m, cfg, 10) && !Panics(m, cfg, 1)
      && Recommend(m, cfg, 10) == 1 && Recommend(m, cfg, 1) == 10
  {
    var m := Metrics(1, 1, 100.0);
    var cfg := Config(1, 20, true, 1000, 10);
    assert TruncDiv(1, 10) == 0 && TruncDiv(1000, 4) == 250 && CeilDiv(1, 1000) == 1 && TruncDiv(1, 1) == 1;
    assert TargetLag(m, cfg) == 1000;
    assert 100.0 / 10 as real == 10.0 && 100.0 / 1 as real == 100.0;
    assert Ceil(10.0) == 10;
    assert AfterLag(m, cfg, 10) == 1 && Recommend(m, cfg, 10) == 1;
    assert AfterLag(m, cfg, 1) == 1 && Recommend(m, cfg, 1) == 10;
  }

  /** With everything else fixed, more lag never lowers the recommendation, across
      the scale-down region, the dead band and the scale-up region. */
  lemma RecommendationGrowsWithLag(m: Metrics, n: Metrics, cfg: Config, current: int)
    requires 0 < m.totalLag <= n.totalLag && n == m.(totalLag := n.totalLag)
    requires current >= 0 && !Panics(m, cfg, current) && !Panics(n, cfg, current)
    ensures Recommend(m, cfg, current) <= Recommend(n, cfg, current)
  {
    if cfg.partitionAware {
      DivMonotone(m.totalLag, n.totalLag, current);
      var t := TargetLag(m, cfg);
      if t > 0 {
        DivMonotone(m.totalLag, n.totalLag, t);
      } else if t < 0 {
        NegativeTarget(m.totalLag, t);
        NegativeTarget(n.totalLag, t);
      }
    }
    assert AfterLag(m, cfg, current) <= AfterLag(n, cfg, current);
  }

  /** A negative target, which no check excludes, asks for one broker whatever the lag. */
  lemma NegativeTarget(lag: int, t: int)
    requires lag > 0 && t < 0
    ensures TruncDiv(lag, t) <= 0 && CeilDiv(lag, t) <= 0
  {
  }
}
