/** Token usage of a trace in terms of the attributes of its spans, as text. */
module ReportedUsage {
  import opened Wrappers
  import opened Numerals
  import opened Text
  import opened TraceUsage

  /** An attribute, trimmed; without it the empty text. */
  ghost predicate Says(span: Attributes, key: string, text: string) {
    if key in span then TrimSpace(span[key]) == text else text == ""
  }

  /** An attribute that reads as a number an int64 holds, and not a negative one. */
  ghost predicate Tells(span: Attributes, key: string, n: nat) {
    && key in span && n <= 0x7FFF_FFFF_FFFF_FFFF
    && exists digits :: Writes(TrimSpace(span[key]), digits, n)
  }

  /** Digits with an optional sign; a negative zero is zero. */
  predicate Writes(text: string, digits: string, n: nat) {
    && Digits(digits) && Value(digits) == n
    && (text == digits || text == "+" + digits || (n == 0 && text == "-" + digits))
  }

  /** A model call for the assistant, unless its usage is declared unavailable. */
  ghost predicate Matters(span: Attributes) {
    && (|| Says(span, "gen_ai.operation.name", "chat")
        || Says(span, "gen_ai.operation.name", "generate_content")
        || Says(span, "gen_ai.operation.name", "text_completion"))
    && Says(span, "luna.gen_ai.request.purpose", "assistant")
    && !Says(span, "luna.gen_ai.usage.status", "unavailable")
  }

  /** Its status is of no known kind, or it lacks a total. */
  ghost predicate Complains(span: Attributes) {
    || !(Says(span, "luna.gen_ai.usage.status", "") || Says(span, "luna.gen_ai.usage.status", "reported"))
    || (forall n :: !Tells(span, "gen_ai.usage.input_tokens", n))
    || (forall n :: !Tells(span, "gen_ai.usage.output_tokens", n))
  }

  /** A part of the input, at most the whole alone and together with the other part, if that is at most the whole. */
  ghost predicate TellsShare(span: Attributes, key: string, otherKey: string, n: nat) {
    && Tells(span, key, n)
    && exists whole :: Tells(span, "gen_ai.usage.input_tokens", whole) && n <= whole
                       && forall other :: Tells(span, otherKey, other) && other <= whole ==> n + other <= whole
  }

  ghost predicate Reports(field: Field, span: Attributes, n: nat) {
    match field
    case InputField => Tells(span, "gen_ai.usage.input_tokens", n)
    case OutputField => Tells(span, "gen_ai.usage.output_tokens", n)
    case ReadField =>
      TellsShare(span, "gen_ai.usage.cache_read.input_tokens", "gen_ai.usage.cache_write.input_tokens", n)
    case WriteField =>
      TellsShare(span, "gen_ai.usage.cache_write.input_tokens", "gen_ai.usage.cache_read.input_tokens", n)
    case ReasoningField =>
      && Tells(span, "gen_ai.usage.reasoning.output_tokens", n)
      && exists whole :: Tells(span, "gen_ai.usage.output_tokens", whole) && n <= whole
  }

  function Plus(ns: seq<nat>): nat {
    if ns == [] then 0 else Plus(ns[..|ns| - 1]) + ns[|ns| - 1]
  }

  /** One number a span: what it reports if it matters, and zero if it does not. */
  ghost predicate Amounts(field: Field, spans: seq<Attributes>, ns: seq<nat>) {
    && |ns| == |spans|
    && forall i :: 0 <= i < |spans| ==> if Matters(spans[i]) then Reports(field, spans[i], ns[i]) else ns[i] == 0
  }

  // ---- Reading an attribute ----

  lemma ParseIs(text: string, n: nat)
    ensures (n <= 0x7FFF_FFFF_FFFF_FFFF && exists digits :: Writes(text, digits, n))
            <==> ParseInt(text).Some? && ParseInt(text).value == n
  {
    if ParseInt(text).Some? && ParseInt(text).value == n {
      if text != "" && text[0] in "+-" {
        assert Writes(text, text[1..], n);
      } else {
        assert Writes(text, text, n);
      }
    }
    if digits :| n <= 0x7FFF_FFFF_FFFF_FFFF && Writes(text, digits, n) {
      Parsed(text, digits, n);
    }
  }

  lemma Parsed(text: string, digits: string, n: nat)
    requires n <= 0x7FFF_FFFF_FFFF_FFFF && Writes(text, digits, n)
    ensures ParseInt(text) == Some(n)
  {
    if text == digits {
      assert text[0] !in "+-";
    } else {
      assert text[0] in "+-" && text[1..] == digits;
    }
  }

  lemma ReadIs(span: Attributes, key: string, n: nat)
    ensures Tells(span, key, n) <==> Read(span, key).Valid? && Read(span, key).n == n
  {
    hide ParseInt, Writes, TrimSpace;
    if key in span {
      ParseIs(TrimSpace(span[key]), n);
    }
  }

  /** An attribute tells one number at most. */
  lemma ReadAll(span: Attributes, key: string)
    ensures Read(span, key).Valid? <==> exists n :: Tells(span, key, n)
    ensures forall n :: Tells(span, key, n) <==> Read(span, key).Valid? && Read(span, key).n == n
  {
    hide Tells, Read;
    forall n
      ensures Tells(span, key, n) <==> Read(span, key).Valid? && Read(span, key).n == n
    {
      ReadIs(span, key, n);
    }
    if Read(span, key).Valid? {
      assert Tells(span, key, Read(span, key).n);
    }
  }

  lemma CountedIs(span: Attributes)
    ensures Counted(span) <==> Matters(span)
    ensures Usable(span) <==> !Complains(span)
  {
    hide Read, Tells, TrimSpace;
    ReadAll(span, "gen_ai.usage.input_tokens");
    ReadAll(span, "gen_ai.usage.output_tokens");
  }

  lemma ShareIs(span: Attributes, key: string, otherKey: string, n: nat)
    requires Usable(span)
    ensures TellsShare(span, key, otherKey, n)
       <==> Cache(span, key, otherKey).Valid? && Cache(span, key, otherKey).n == n
  {
    hide Read, Tells, TrimSpace;
    ReadAll(span, "gen_ai.usage.input_tokens");
    ReadAll(span, key);
    ReadAll(span, otherKey);
  }

  lemma GetIs(field: Field, span: Attributes, n: nat)
    requires Usable(span)
    ensures Reports(field, span, n) <==> Get(field, span).Valid? && Get(field, span).n == n
  {
    hide Read, Tells, TrimSpace, TellsShare, Cache;
    ReadAll(span, "gen_ai.usage.input_tokens");
    ReadAll(span, "gen_ai.usage.output_tokens");
    ReadAll(span, "gen_ai.usage.reasoning.output_tokens");
    match field
    case InputField =>
    case OutputField =>
    case ReadField =>
      ShareIs(span, "gen_ai.usage.cache_read.input_tokens", "gen_ai.usage.cache_write.input_tokens", n);
    case WriteField =>
      ShareIs(span, "gen_ai.usage.cache_write.input_tokens", "gen_ai.usage.cache_read.input_tokens", n);
    case ReasoningField =>
  }

  lemma SpanReports(field: Field, span: Attributes)
    requires Counted(span) ==> Usable(span) && Get(field, span).Valid?
    ensures if Matters(span) then Reports(field, span, Amount(field, span)) else Amount(field, span) == 0
  {
    hide Counted, Usable, Get, Matters, Complains, Reports;
    CountedIs(span);
    if Counted(span) {
      GetIs(field, span, Amount(field, span));
    }
  }

  /** The sum of a field adds up one number for each span that matters. */
  lemma {:induction false} TotalIs(field: Field, spans: seq<Attributes>) returns (ns: seq<nat>)
    requires AllUsable(spans) && Complete(field, spans)
    ensures Amounts(field, spans, ns) && Total(field, spans) == Plus(ns)
  {
    hide Counted, Usable, Get, Matters, Complains, Reports, Amount;
    ns := [];
    if spans != [] {
      var n := |spans| - 1;
      assert forall span :: span in spans[..n] ==> span in spans;
      var before := TotalIs(field, spans[..n]);
      assert spans[n] in spans;
      SpanReports(field, spans[n]);
      AmountsGrow(field, spans, before, Amount(field, spans[n]));
      ns := before + [Amount(field, spans[n])];
      assert ns[..n] == before;
      hide Amounts, AllUsable, Complete;
    }
  }

  lemma AmountsGrow(field: Field, spans: seq<Attributes>, before: seq<nat>, amount: nat)
    requires spans != [] && Amounts(field, spans[..|spans| - 1], before)
    requires var span := spans[|spans| - 1]; if Matters(span) then Reports(field, span, amount) else amount == 0
    ensures Amounts(field, spans, before + [amount])
  {
    hide Matters, Reports;
    assert forall i :: 0 <= i < |spans| - 1 ==> spans[..|spans| - 1][i] == spans[i];
  }

  /** Nothing else adds up: the numbers are determined by the attributes. */
  lemma {:induction false} AmountsOnce(field: Field, spans: seq<Attributes>, ns: seq<nat>)
    requires AllUsable(spans) && Amounts(field, spans, ns)
    ensures Complete(field, spans) && Total(field, spans) == Plus(ns)
  {
    hide Counted, Usable, Get, Matters, Complains, Reports;
    if spans != [] {
      var n := |spans| - 1;
      assert spans[n] in spans;
      assert forall i :: 0 <= i < n ==> spans[..n][i] == spans[i] && ns[..n][i] == ns[i];
      AmountsOnce(field, spans[..n], ns[..n]);
      CountedIs(spans[n]);
      if Counted(spans[n]) {
        GetIs(field, spans[n], ns[n]);
      }
      assert spans == spans[..n] + [spans[n]];
    }
  }

  /** There is an answer exactly when a span matters, none that matters complains, and both totals fit an int64. */
  lemma AnswersExactly(spans: seq<Attributes>)
    ensures Answers(spans) <==>
              (&& (exists span :: span in spans && Matters(span))
               && (forall span :: span in spans && Matters(span) ==> !Complains(span))
               && (exists ns :: Amounts(InputField, spans, ns) && Plus(ns) <= 0x7FFF_FFFF_FFFF_FFFF)
               && (exists ns :: Amounts(OutputField, spans, ns) && Plus(ns) <= 0x7FFF_FFFF_FFFF_FFFF))
  {
    hide Counted, Usable, Matters, Complains, Amounts, Total, Get;
    forall span
      ensures (Counted(span) <==> Matters(span)) && (Usable(span) <==> !Complains(span))
    {
      CountedIs(span);
    }
    if AllUsable(spans) {
      TotalsComplete(spans);
      var inputs := TotalIs(InputField, spans);
      var outputs := TotalIs(OutputField, spans);
      forall field, ns | Amounts(field, spans, ns)
        ensures Total(field, spans) == Plus(ns)
      {
        AmountsOnce(field, spans, ns);
      }
    }
  }

  lemma TotalsComplete(spans: seq<Attributes>)
    requires AllUsable(spans)
    ensures Complete(InputField, spans) && Complete(OutputField, spans)
  {
    hide Counted;
  }

  /** Each number of an answer adds up what the spans that matter report; a breakdown needs a report from each. */
  lemma AnswerIs(spans: seq<Attributes>, field: Field, total: nat)
    requires Answers(spans)
    ensures Breakdown(field, spans) == Some(total) <==> exists ns :: Amounts(field, spans, ns) && Plus(ns) == total
    ensures field in {InputField, OutputField} ==> Breakdown(field, spans) == Some(Total(field, spans))
  {
    hide Counted, Usable, Matters, Complains, Amounts, Total, Get;
    TotalsComplete(spans);
    if Complete(field, spans) {
      var ns := TotalIs(field, spans);
    }
    forall ns | Amounts(field, spans, ns)
      ensures Complete(field, spans) && Total(field, spans) == Plus(ns)
    {
      AmountsOnce(field, spans, ns);
    }
  }

  /** The hit rate is the part of the input read from the cache, in percent. */
  lemma HitRateIs(input: Int64, cacheRead: Option<Int64>)
    requires cacheRead.Some? ==> 0 <= cacheRead.value <= input
    ensures CacheHitRate(input, cacheRead).Some? <==> input > 0 && cacheRead.Some?
    ensures CacheHitRate(input, cacheRead).Some?
            ==> CacheHitRate(input, cacheRead).value * input as real == 100.0 * cacheRead.value as real
  {}
}
