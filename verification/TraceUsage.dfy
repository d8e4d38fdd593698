/**
 Token usage of one trace: aggregateTraceTokenUsage of internal/agentobservability/usage.go. A span
 is its attributes. Either every counted span reports usable totals that fit an int64, or there is
 no answer.
 */
module TraceUsage {
  import opened Wrappers
  import opened Numerals
  import opened Text

  type Attributes = map<string, string>

  type Int64 = n: int | -MAX_INT64 - 1 <= n <= MAX_INT64

  type Tokens = n: int | 0 <= n <= MAX_INT64

  datatype Reading = Missing | Valid(n: Tokens) | Invalid

  datatype TokenUsage = TokenUsage(
    input: Int64,
    output: Int64,
    cacheRead: Option<Int64>,
    cacheWrite: Option<Int64>,
    reasoning: Option<Int64>,
    cacheHitRate: Option<real>)

  // ---- One span ----

  function Attribute(span: Attributes, key: string): string {
    if key in span then TrimSpace(span[key]) else ""
  }

  /** strconv.ParseInt in base 10 with 64 bits */
  function ParseInt(text: string): Option<Int64> {
    var signed := text != "" && text[0] in "+-";
    var digits := if signed then text[1..] else text;
    if !Digits(digits) then None else
    var size: int := Value(digits);
    var n := if signed && text[0] == '-' then -size else size;
    if n < -MAX_INT64 - 1 || n > MAX_INT64 then None else Some(n)
  }

  function Read(span: Attributes, key: string): Reading {
    if key !in span then Missing else
    match ParseInt(TrimSpace(span[key]))
    case None => Invalid
    case Some(n) => if n < 0 then Invalid else Valid(n)
  }

  predicate IsTraceModelSpan(span: Attributes) {
    Attribute(span, "gen_ai.operation.name") in ["chat", "generate_content", "text_completion"]
  }

  /** A model call made for the assistant whose usage was not declared unavailable. */
  predicate Counted(span: Attributes) {
    && IsTraceModelSpan(span)
    && Attribute(span, "luna.gen_ai.request.purpose") == "assistant"
    && Attribute(span, "luna.gen_ai.usage.status") != "unavailable"
  }

  function Input(span: Attributes): Reading {
    Read(span, "gen_ai.usage.input_tokens")
  }

  function Output(span: Attributes): Reading {
    Read(span, "gen_ai.usage.output_tokens")
  }

  predicate Usable(span: Attributes) {
    && Attribute(span, "luna.gen_ai.usage.status") in ["", "reported"]
    && Input(span).Valid?
    && Output(span).Valid?
  }

  /** A part that exceeds its whole is no answer. */
  function Within(part: Reading, whole: Tokens): Reading {
    if part.Valid? && part.n > whole then Invalid else part
  }

  function CacheRead(span: Attributes): Reading
    requires Usable(span)
  {
    Cache(span, "gen_ai.usage.cache_read.input_tokens", "gen_ai.usage.cache_write.input_tokens")
  }

  function CacheWrite(span: Attributes): Reading
    requires Usable(span)
  {
    Cache(span, "gen_ai.usage.cache_write.input_tokens", "gen_ai.usage.cache_read.input_tokens")
  }

  /** One cache count; both are discarded when together they exceed the input. */
  function Cache(span: Attributes, key: string, otherKey: string): Reading
    requires Usable(span)
  {
    var whole := Input(span).n;
    var part, other := Within(Read(span, key), whole), Within(Read(span, otherKey), whole);
    if part.Valid? && other.Valid? && part.n > whole - other.n then Invalid else part
  }

  function Reasoning(span: Attributes): Reading
    requires Usable(span)
  {
    Within(Read(span, "gen_ai.usage.reasoning.output_tokens"), Output(span).n)
  }

  function CacheHitRate(input: Int64, cacheRead: Option<Int64>): Option<real> {
    if input <= 0 || cacheRead.None? || cacheRead.value < 0 || cacheRead.value > input then None
    else Some(cacheRead.value as real * 100.0 / input as real)
  }

  // ---- What the answer means, without an order ----

  datatype Field = InputField | OutputField | ReadField | WriteField | ReasoningField

  function Get(field: Field, span: Attributes): Reading {
    if !Usable(span) then Invalid else
    match field
    case InputField => Input(span)
    case OutputField => Output(span)
    case ReadField => CacheRead(span)
    case WriteField => CacheWrite(span)
    case ReasoningField => Reasoning(span)
  }

  function Amount(field: Field, span: Attributes): Tokens {
    if Counted(span) && Get(field, span).Valid? then Get(field, span).n else 0
  }

  function Total(field: Field, spans: seq<Attributes>): nat {
    if spans == [] then 0 else Total(field, spans[..|spans| - 1]) + Amount(field, spans[|spans| - 1])
  }

  predicate Complete(field: Field, spans: seq<Attributes>) {
    forall span :: span in spans && Counted(span) ==> Get(field, span).Valid?
  }

  /** The sum of an optional breakdown, when every counted span has it. */
  function Breakdown(field: Field, spans: seq<Attributes>): Option<nat> {
    if Complete(field, spans) then Some(Total(field, spans)) else None
  }

  predicate AnyCounted(spans: seq<Attributes>) {
    exists span :: span in spans && Counted(span)
  }

  predicate AllUsable(spans: seq<Attributes>) {
    forall span :: span in spans && Counted(span) ==> Usable(span)
  }

  /** There is an answer exactly when something was reported, all of it is usable, and the sums fit. */
  predicate Answers(spans: seq<Attributes>) {
    && AnyCounted(spans)
    && AllUsable(spans)
    && Total(InputField, spans) <= MAX_INT64
    && Total(OutputField, spans) <= MAX_INT64
  }

  // ---- The loop ----

  function AddTraceTokens(total: Int64, value: Int64): (sum: Option<Int64>)
    requires total >= 0
    ensures sum == if 0 <= value <= MAX_INT64 - total then Some(total + value) else None
  {
    if value < 0 || total > MAX_INT64 - value then None else Some(total + value)
  }

  method AggregateTraceBreakdown(total: Int64, complete: bool, part: Reading) returns (next: Int64, ok: bool)
    requires total >= 0
    ensures !complete || !part.Valid? ==> next == total && !ok
    ensures complete && part.Valid? ==> ok == (total + part.n <= MAX_INT64) && (ok ==> next == total + part.n)
    ensures next >= 0
  {
    if !complete || !part.Valid? {
      return total, false;
    }
    match AddTraceTokens(total, part.n) {
      case Some(sum) => return sum, true;
      case None => return 0, false;
    }
  }

  lemma AppendTotal(field: Field, spans: seq<Attributes>, i: nat)
    requires i < |spans|
    ensures Total(field, spans[..i + 1]) == Total(field, spans[..i]) + Amount(field, spans[i])
  {
    assert spans[..i + 1][..i] == spans[..i];
  }

  lemma {:induction false} PrefixTotal(field: Field, spans: seq<Attributes>, i: nat)
    requires i <= |spans|
    ensures Total(field, spans[..i]) <= Total(field, spans)
    decreases |spans| - i
  {
    if i == |spans| {
      assert spans[..i] == spans;
    } else {
      AppendTotal(field, spans, i);
      PrefixTotal(field, spans, i + 1);
    }
  }

  /** A span's cache counts fit its input together, and its reasoning fits its output. */
  lemma PartsFit(span: Attributes)
    ensures Amount(ReadField, span) <= Amount(InputField, span)
    ensures Amount(WriteField, span) <= Amount(InputField, span)
    ensures Amount(ReasoningField, span) <= Amount(OutputField, span)
    ensures Get(ReadField, span).Valid? && Get(WriteField, span).Valid?
            ==> Amount(ReadField, span) + Amount(WriteField, span) <= Amount(InputField, span)
  {
    hide Read, Counted, Attribute;
  }

  lemma {:induction false} TotalsFit(spans: seq<Attributes>)
    ensures Total(ReadField, spans) <= Total(InputField, spans)
    ensures Total(WriteField, spans) <= Total(InputField, spans)
    ensures Total(ReasoningField, spans) <= Total(OutputField, spans)
  {
    hide Amount;
    if spans != [] {
      TotalsFit(spans[..|spans| - 1]);
      PartsFit(spans[|spans| - 1]);
    }
  }

  /** The running state of a breakdown after some spans. */
  ghost predicate Running(field: Field, spans: seq<Attributes>, total: Int64, complete: bool) {
    && total >= 0
    && complete == Complete(field, spans)
    && (complete ==> total == Total(field, spans))
  }

  lemma RunningIsBreakdown(field: Field, spans: seq<Attributes>, total: Int64, complete: bool)
    requires Running(field, spans, total, complete)
    ensures Breakdown(field, spans) == if complete then Some(total) else None
  {}

  lemma RunningStep(field: Field, spans: seq<Attributes>, i: nat, total: Int64, complete: bool, next: Int64, ok: bool)
    requires i < |spans| && Running(field, spans[..i], total, complete) && next >= 0
    requires !Counted(spans[i]) ==> next == total && ok == complete
    requires Counted(spans[i]) ==> ok == (complete && Get(field, spans[i]).Valid?)
    requires Counted(spans[i]) && ok ==> next == total + Get(field, spans[i]).n
    ensures Running(field, spans[..i + 1], next, ok)
  {
    hide Get, Counted;
    AppendTotal(field, spans, i);
    assert spans[..i + 1] == spans[..i] + [spans[i]];
  }

  /** The part of the loop state that decides whether there is an answer. */
  ghost predicate Reported(spans: seq<Attributes>, reported: nat, input: Int64, output: Int64) {
    && (reported > 0 <==> AnyCounted(spans))
    && AllUsable(spans)
    && input == Total(InputField, spans)
    && output == Total(OutputField, spans)
  }

  lemma ReportedStep(spans: seq<Attributes>, i: nat, reported: nat, input: Int64, output: Int64)
    requires i < |spans| && Reported(spans[..i], reported, input, output)
    ensures !Counted(spans[i]) ==> Reported(spans[..i + 1], reported, input, output)
    ensures Counted(spans[i]) && Usable(spans[i]) && input + Input(spans[i]).n <= MAX_INT64
            && output + Output(spans[i]).n <= MAX_INT64
            ==> Reported(spans[..i + 1], reported + 1, input + Input(spans[i]).n, output + Output(spans[i]).n)
    ensures Answers(spans) && Counted(spans[i])
            ==> Usable(spans[i]) && input + Input(spans[i]).n <= MAX_INT64 && output + Output(spans[i]).n <= MAX_INT64
  {
    hide Counted, Attribute, Read;
    AppendTotal(InputField, spans, i);
    AppendTotal(OutputField, spans, i);
    PrefixTotal(InputField, spans, i + 1);
    PrefixTotal(OutputField, spans, i + 1);
    assert spans[..i + 1] == spans[..i] + [spans[i]];
    if Counted(spans[i]) {
      assert spans[i] in spans[..i + 1];
    }
  }

  lemma NothingYet(spans: seq<Attributes>)
    ensures Reported(spans[..0], 0, 0, 0)
    ensures forall field :: Running(field, spans[..0], 0, true)
  {}

  /** A breakdown never overflows while the total it is part of does not. */
  lemma NoBreakdownOverflow(field: Field, spans: seq<Attributes>, i: nat, total: Int64)
    requires i < |spans| && Counted(spans[i]) && Get(field, spans[i]).Valid?
    requires Running(field, spans[..i], total, true)
    requires Total(InputField, spans[..i + 1]) <= MAX_INT64 && Total(OutputField, spans[..i + 1]) <= MAX_INT64
    ensures total + Get(field, spans[i]).n <= MAX_INT64
  {
    hide Get, Counted;
    AppendTotal(field, spans, i);
    TotalsFit(spans[..i + 1]);
  }

  /** The two cache counts of a span, discarded one by one and then together. */
  method CacheParts(span: Attributes) returns (cacheRead: Reading, cacheWrite: Reading)
    requires Usable(span)
    ensures cacheRead == CacheRead(span) && cacheWrite == CacheWrite(span)
  {
    hide Read, Attribute;
    var inputTokens := Input(span).n;
    cacheRead := Read(span, "gen_ai.usage.cache_read.input_tokens");
    cacheWrite := Read(span, "gen_ai.usage.cache_write.input_tokens");
    if cacheRead.Valid? && cacheRead.n > inputTokens {
      cacheRead := Invalid;
    }
    if cacheWrite.Valid? && cacheWrite.n > inputTokens {
      cacheWrite := Invalid;
    }
    if cacheRead.Valid? && cacheWrite.Valid? && cacheRead.n > inputTokens - cacheWrite.n {
      cacheRead, cacheWrite := Invalid, Invalid;
    }
  }

  method AggregateBreakdowns(ghost spans: seq<Attributes>, ghost field: Field, ghost i: nat,
                             total: Int64, complete: bool, part: Reading)
    returns (next: Int64, ok: bool)
    requires i < |spans| && Counted(spans[i]) && part == Get(field, spans[i])
    requires Running(field, spans[..i], total, complete)
    requires Total(InputField, spans[..i + 1]) <= MAX_INT64 && Total(OutputField, spans[..i + 1]) <= MAX_INT64
    ensures Running(field, spans[..i + 1], next, ok) && next >= 0
  {
    hide Get, Counted, Total, Complete;
    if part.Valid? && complete {
      NoBreakdownOverflow(field, spans, i, total);
    }
    next, ok := AggregateTraceBreakdown(total, complete, part);
    RunningStep(field, spans, i, total, complete, next, ok);
  }

  method AggregateTraceTokenUsage(spans: seq<Attributes>) returns (usage: Option<TokenUsage>)
    ensures usage.Some? <==> Answers(spans)
    ensures usage.Some? ==>
              && usage.value.input == Total(InputField, spans)
              && usage.value.output == Total(OutputField, spans)
              && usage.value.cacheRead == Breakdown(ReadField, spans)
              && usage.value.cacheWrite == Breakdown(WriteField, spans)
              && usage.value.reasoning == Breakdown(ReasoningField, spans)
              && usage.value.cacheHitRate == CacheHitRate(usage.value.input, usage.value.cacheRead)
  {
    hide Attribute, Read, Running, AllUsable, AnyCounted, Complete, Total, Amount;
    var input: Int64, output: Int64, reported := 0, 0, 0;
    var readTotal: Int64, writeTotal: Int64, reasoningTotal: Int64 := 0, 0, 0;
    var readComplete, writeComplete, reasoningComplete := true, true, true;
    NothingYet(spans);
    for i := 0 to |spans|
      invariant reported >= 0 && input >= 0 && output >= 0
      invariant readTotal >= 0 && writeTotal >= 0 && reasoningTotal >= 0
      invariant Reported(spans[..i], reported, input, output)
      invariant Running(ReadField, spans[..i], readTotal, readComplete)
      invariant Running(WriteField, spans[..i], writeTotal, writeComplete)
      invariant Running(ReasoningField, spans[..i], reasoningTotal, reasoningComplete)
    {
      var span := spans[i];
      ReportedStep(spans, i, reported, input, output);
      var status := Attribute(span, "luna.gen_ai.usage.status");
      if !IsTraceModelSpan(span) || Attribute(span, "luna.gen_ai.request.purpose") != "assistant"
          || status == "unavailable" {
        RunningStep(ReadField, spans, i, readTotal, readComplete, readTotal, readComplete);
        RunningStep(WriteField, spans, i, writeTotal, writeComplete, writeTotal, writeComplete);
        RunningStep(ReasoningField, spans, i, reasoningTotal, reasoningComplete, reasoningTotal, reasoningComplete);
        continue;
      }
      if status != "" && status != "reported" {
        return None;
      }
      var inputTokens, outputTokens := Input(span), Output(span);
      if !inputTokens.Valid? || !outputTokens.Valid? {
        return None;
      }
      match AddTraceTokens(input, inputTokens.n) {
        case None => return None;
        case Some(sum) => input := sum;
      }
      match AddTraceTokens(output, outputTokens.n) {
        case None => return None;
        case Some(sum) => output := sum;
      }
      reported := reported + 1;

      var cacheRead, cacheWrite := CacheParts(span);
      var reasoning := Within(Read(span, "gen_ai.usage.reasoning.output_tokens"), outputTokens.n);
      readTotal, readComplete := AggregateBreakdowns(spans, ReadField, i, readTotal, readComplete, cacheRead);
      writeTotal, writeComplete := AggregateBreakdowns(spans, WriteField, i, writeTotal, writeComplete, cacheWrite);
      reasoningTotal, reasoningComplete := AggregateBreakdowns(spans, ReasoningField, i, reasoningTotal,
          reasoningComplete, reasoning);
    }
    assert spans[..|spans|] == spans;
    if reported == 0 {
      return None;
    }
    RunningIsBreakdown(ReadField, spans, readTotal, readComplete);
    RunningIsBreakdown(WriteField, spans, writeTotal, writeComplete);
    RunningIsBreakdown(ReasoningField, spans, reasoningTotal, reasoningComplete);
    var cacheReadTotal := if readComplete then Some(readTotal) else None;
    return Some(TokenUsage(input, output, cacheReadTotal,
                           if writeComplete then Some(writeTotal) else None,
                           if reasoningComplete then Some(reasoningTotal) else None,
                           CacheHitRate(input, cacheReadTotal)));
  }

  // ---- What follows for every answer ----

  lemma {:induction false} SplitTotal(field: Field, a: seq<Attributes>, b: seq<Attributes>)
    ensures Total(field, a + b) == Total(field, a) + Total(field, b)
  {
    if b == [] {
      assert a + b == a;
    } else {
      SplitTotal(field, a, b[..|b| - 1]);
      assert (a + b)[..|a + b| - 1] == a + b[..|b| - 1];
    }
  }

  lemma TotalWithout(field: Field, b: seq<Attributes>, i: nat)
    requires i < |b|
    ensures Total(field, b) == Total(field, b[..i] + b[i + 1..]) + Amount(field, b[i])
  {
    assert b == b[..i + 1] + b[i + 1..];
    SplitTotal(field, b[..i + 1], b[i + 1..]);
    SplitTotal(field, b[..i], b[i + 1..]);
    AppendTotal(field, b, i);
  }

  lemma FindLast<T>(a: seq<T>, b: seq<T>) returns (i: nat)
    requires a != [] && multiset(a) == multiset(b)
    ensures i < |b| && b[i] == a[|a| - 1]
    ensures multiset(a[..|a| - 1]) == multiset(b[..i] + b[i + 1..])
  {
    var last := a[|a| - 1];
    assert a == a[..|a| - 1] + [last];
    assert last in multiset(b);
    i :| 0 <= i < |b| && b[i] == last;
    assert b == b[..i] + [last] + b[i + 1..];
    assert multiset(b) == multiset(b[..i]) + multiset([last]) + multiset(b[i + 1..]);
    assert multiset(b[..i] + b[i + 1..]) == multiset(b) - multiset([last]);
    assert multiset(a[..|a| - 1]) == multiset(a) - multiset([last]);
  }

  /** Sums and completeness depend on which spans there are, not on their order. */
  lemma {:induction false} TotalIgnoresOrder(field: Field, a: seq<Attributes>, b: seq<Attributes>)
    requires multiset(a) == multiset(b)
    ensures Total(field, a) == Total(field, b)
  {
    hide Amount;
    if a == [] {
      assert |multiset(b)| == 0;
    } else {
      var i := FindLast(a, b);
      TotalIgnoresOrder(field, a[..|a| - 1], b[..i] + b[i + 1..]);
      TotalWithout(field, b, i);
    }
  }

  lemma OrderDoesNotMatter(a: seq<Attributes>, b: seq<Attributes>)
    requires multiset(a) == multiset(b)
    ensures Answers(a) == Answers(b)
    ensures forall field :: Total(field, a) == Total(field, b) && Breakdown(field, a) == Breakdown(field, b)
  {
    hide Counted, Usable, Get, Total;
    forall span
      ensures span in a <==> span in b
    {
      assert span in multiset(a) <==> span in multiset(b);
    }
    forall field: Field
      ensures Total(field, a) == Total(field, b)
    {
      TotalIgnoresOrder(field, a, b);
    }
  }

  lemma {:induction false} CachePartsFit(spans: seq<Attributes>)
    requires Complete(ReadField, spans) && Complete(WriteField, spans)
    ensures Total(ReadField, spans) + Total(WriteField, spans) <= Total(InputField, spans)
  {
    if spans != [] {
      hide Get, Counted;
      var last := spans[|spans| - 1];
      CachePartsFit(spans[..|spans| - 1]);
      PartsFit(last);
    }
  }

  /** Reported cache counts fit the input together, reasoning fits the output, and a hit rate is a percentage. */
  lemma UsageIsConsistent(spans: seq<Attributes>)
    requires Answers(spans)
    ensures var cacheRead, cacheWrite, reasoning := Breakdown(ReadField, spans), Breakdown(WriteField, spans),
            Breakdown(ReasoningField, spans);
            var input, output := Total(InputField, spans), Total(OutputField, spans);
            && (cacheRead.Some? ==> cacheRead.value <= input)
            && (cacheWrite.Some? ==> cacheWrite.value <= input)
            && (cacheRead.Some? && cacheWrite.Some? ==> cacheRead.value + cacheWrite.value <= input)
            && (reasoning.Some? ==> reasoning.value <= output)
            && (CacheHitRate(input, cacheRead).Some? <==> input > 0 && cacheRead.Some?)
            && (CacheHitRate(input, cacheRead).Some? ==> 0.0 <= CacheHitRate(input, cacheRead).value <= 100.0)
  {
    hide Counted, Get, Amount, Total, Complete, Answers;
    assert Total(InputField, spans) <= MAX_INT64 by {
      Fits(spans);
    }
    TotalsFit(spans);
    var cacheRead := Breakdown(ReadField, spans);
    if cacheRead.Some? && Breakdown(WriteField, spans).Some? {
      CachePartsFit(spans);
    }
    if cacheRead.Some? && Total(InputField, spans) > 0 {
      RateIsPercentage(Total(InputField, spans), cacheRead.value);
    }
  }

  lemma Fits(spans: seq<Attributes>)
    requires Answers(spans)
    ensures Total(InputField, spans) <= MAX_INT64
  {}

  lemma RateIsPercentage(input: Int64, cacheRead: Int64)
    requires 0 <= cacheRead <= input && input > 0
    ensures CacheHitRate(input, Some(cacheRead)).Some? && 0.0 <= CacheHitRate(input, Some(cacheRead)).value <= 100.0
  {
    QuotientBounds(cacheRead as real * 100.0, input as real, 100.0);
  }

  lemma QuotientBounds(part: real, whole: real, bound: real)
    requires whole > 0.0 && 0.0 <= part <= bound * whole
    ensures 0.0 <= part / whole <= bound
  {
    var q := part / whole;
    assert q * whole == part;
    Scaled(q, bound, whole);
    Scaled(0.0, q, whole);
    Scaled(q, 0.0, whole);
  }

  lemma Scaled(a: real, b: real, c: real)
    requires c > 0.0
    ensures a > b ==> a * c > b * c
  {
    if a > b {
      assert (a - b) * c > 0.0;
    }
  }
}
