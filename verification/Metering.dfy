/** Usage extraction from inference responses: JSON fields, sparkl receipts, and the scan over the events
    of a server-sent-event body. The JSON and base64 libraries are parameters. */
module Metering {
  import opened Wrappers
  import opened Words

  /** A JSON value; `Num` carries what `as_u64` answers. */
  datatype Json =
    | Null
    | Bool(b: bool)
    | Num(n: Option<u64>)
    | Str(s: string)
    | Arr(items: seq<Json>)
    | Obj(fields: map<string, Json>)

  datatype Usage = Usage(input: u64, output: u64)

  /** What the libraries do: `parse` is JSON parsing, `receipt` decodes a receipt to its token count. */
  datatype Library = Library(parse: string -> Option<Json>, receipt: string -> Option<u64>)

  function Get(v: Json, key: string): Option<Json> {
    if v.Obj? && key in v.fields then Some(v.fields[key]) else None
  }

  function AsU64(v: Json): Option<u64> {
    if v.Num? then v.n else None
  }

  /** The first of the two keys that is present decides, even when it holds no number. */
  function Count(usage: Json, key: string, alias: string): Option<u64> {
    match Get(usage, key)
    case Some(v) => AsU64(v)
    case None => match Get(usage, alias) case Some(v) => AsU64(v) case None => None
  }

  function UsageOfJson(v: Json): Option<Usage> {
    match Get(v, "usage")
    case None => None
    case Some(u) =>
      match (Count(u, "prompt_tokens", "input_tokens"), Count(u, "completion_tokens", "output_tokens"))
      case (Some(i), Some(o)) => Some(Usage(i, o))
      case _ => None
  }

  function ReceiptTokens(lib: Library, v: Json): Option<u64> {
    match Get(v, "sparkl")
    case None => None
    case Some(s) => match Get(s, "receipt") case Some(Str(text)) => lib.receipt(text) case _ => None
  }

  /** The number under a key, or under its alias when the key itself is absent. */
  predicate Counts(usage: map<string, Json>, key: string, alias: string, n: u64) {
    if key in usage then usage[key] == Num(Some(n)) else alias in usage && usage[alias] == Num(Some(n))
  }

  /** The JSON value is an object whose usage object states i input and o output tokens. */
  predicate Reads(v: Json, i: u64, o: u64) {
    && v.Obj? && "usage" in v.fields && v.fields["usage"].Obj?
    && Counts(v.fields["usage"].fields, "prompt_tokens", "input_tokens", i)
    && Counts(v.fields["usage"].fields, "completion_tokens", "output_tokens", o)
  }

  /** Usage is reported exactly where the fields say so, input as input and output as output; a first key
      that holds no number hides its alias. */
  lemma UsageExactly(v: Json, i: u64, o: u64)
    ensures UsageOfJson(v) == Some(Usage(i, o)) <==> Reads(v, i, o)
  {}

  /** A receipt counts exactly where it is: a string under "sparkl" and "receipt" that the library can
      decode. */
  lemma ReceiptExactly(lib: Library, v: Json, n: u64)
    ensures ReceiptTokens(lib, v) == Some(n) <==>
      && v.Obj? && "sparkl" in v.fields && v.fields["sparkl"].Obj?
      && "receipt" in v.fields["sparkl"].fields && v.fields["sparkl"].fields["receipt"].Str?
      && lib.receipt(v.fields["sparkl"].fields["receipt"].s) == Some(n)
  {}

  // ------------------------------------------------------------------ scanning the events

  /** Usage of the last event that carries one. */
  function LastUsage(es: seq<Json>): Option<Usage> {
    if es == [] then None
    else if UsageOfJson(es[|es| - 1]).Some? then UsageOfJson(es[|es| - 1])
    else LastUsage(es[..|es| - 1])
  }

  /** Largest receipt count, 0 without receipts. */
  function MaxReceipt(lib: Library, es: seq<Json>): u64 {
    if es == [] then 0 else
      var m := MaxReceipt(lib, es[..|es| - 1]);
      match ReceiptTokens(lib, es[|es| - 1])
      case Some(n) => if n > m then n else m
      case None => m
  }

  function Combine(openai: Option<Usage>, receipt: u64): Option<Usage> {
    match openai
    case Some(u) => Some(if receipt > u.output then u.(output := receipt) else u)
    case None => if receipt == 0 then None else Some(Usage(0, receipt))
  }

  function UsageOfEvents(lib: Library, es: seq<Json>): Option<Usage> {
    Combine(LastUsage(es), MaxReceipt(lib, es))
  }

  ghost predicate NoneReads(es: seq<Json>) {
    forall v, i, o :: v in es ==> !Reads(v, i, o)
  }

  lemma {:induction false} LastReads(es: seq<Json>, k: nat, i: u64, o: u64)
    requires k < |es| && Reads(es[k], i, o) && NoneReads(es[k + 1..])
    ensures LastUsage(es) == Some(Usage(i, o))
    decreases |es|
  {
    var n := |es| - 1;
    if k == n {
      UsageExactly(es[n], i, o);
    } else {
      var u := UsageOfJson(es[n]);
      assert es[n] in es[k + 1..];
      if u.Some? { UsageExactly(es[n], u.value.input, u.value.output); }
      assert es[..n][k] == es[k] && es[..n][k + 1..] == es[k + 1..][..n - k - 1];
      LastReads(es[..n], k, i, o);
    }
  }

  /** The last event that states usage gives the input, and the output is at least what it states. */
  ghost predicate FollowsTheFields(es: seq<Json>, r: Option<Usage>) {
    forall k: nat, i: u64, o: u64 :: ReadLast(es, k, i, o) ==> r.Some? && r.value.input == i && r.value.output >= o
  }

  ghost predicate ReadLast(es: seq<Json>, k: nat, i: u64, o: u64) {
    k < |es| && Reads(es[k], i, o) && NoneReads(es[k + 1..])
  }

  lemma FieldsAreFollowed(lib: Library, es: seq<Json>)
    ensures FollowsTheFields(es, UsageOfEvents(lib, es))
  {
    var r := UsageOfEvents(lib, es);
    forall k: nat, i: u64, o: u64 | ReadLast(es, k, i, o)
      ensures r.Some? && r.value.input == i && r.value.output >= o
    {
      LastReads(es, k, i, o);
    }
  }

  /** The loop of `extract_usage_from_sse_body` over the parsed events. */
  method ExtractFromEvents(lib: Library, es: seq<Json>) returns (r: Option<Usage>)
    ensures r == UsageOfEvents(lib, es)
    ensures FollowsTheFields(es, r)
  {
    var openai: Option<Usage> := None;
    var maxReceipt: u64 := 0;
    for i := 0 to |es|
      invariant openai == LastUsage(es[..i]) && maxReceipt == MaxReceipt(lib, es[..i])
    {
      assert es[..i + 1][..i] == es[..i];
      var u := UsageOfJson(es[i]);
      if u.Some? { openai := u; }
      var n := ReceiptTokens(lib, es[i]);
      if n.Some? && n.value > maxReceipt { maxReceipt := n.value; }
    }
    assert es[..|es|] == es;
    FieldsAreFollowed(lib, es);
    if openai.Some? && maxReceipt > openai.value.output {
      r := Some(openai.value.(output := maxReceipt));
    } else if openai.Some? {
      r := openai;
    } else if maxReceipt == 0 {
      r := None;
    } else {
      r := Some(Usage(0, maxReceipt));
    }
  }

  ghost predicate NoUsageAfter(es: seq<Json>, i: nat) {
    forall j :: i < j < |es| ==> UsageOfJson(es[j]).None?
  }

  lemma {:induction false} LastUsageIs(es: seq<Json>)
    ensures LastUsage(es).None? <==> forall i :: 0 <= i < |es| ==> UsageOfJson(es[i]).None?
    ensures LastUsage(es).Some? ==>
      exists i: nat :: i < |es| && UsageOfJson(es[i]) == LastUsage(es) && NoUsageAfter(es, i)
  {
    if es != [] {
      var init, u := es[..|es| - 1], UsageOfJson(es[|es| - 1]);
      if u.Some? {
        assert UsageOfJson(es[|es| - 1]) == LastUsage(es);
      } else {
        LastUsageIs(init);
        assert forall i :: 0 <= i < |init| ==> es[i] == init[i];
        if LastUsage(init).Some? {
          var i: nat :| i < |init| && UsageOfJson(init[i]) == LastUsage(init) && NoUsageAfter(init, i);
          assert UsageOfJson(es[i]) == LastUsage(es) && NoUsageAfter(es, i);
        }
      }
    }
  }

  /** No receipt states more than n tokens. */
  ghost predicate NoReceiptAbove(lib: Library, es: seq<Json>, n: nat) {
    forall i :: 0 <= i < |es| && ReceiptTokens(lib, es[i]).Some? ==> ReceiptTokens(lib, es[i]).value <= n
  }

  ghost predicate SomeReceiptOf(lib: Library, es: seq<Json>, n: nat) {
    exists i :: 0 <= i < |es| && ReceiptTokens(lib, es[i]) == Some(n)
  }

  lemma {:induction false} MaxReceiptIs(lib: Library, es: seq<Json>)
    ensures NoReceiptAbove(lib, es, MaxReceipt(lib, es))
    ensures MaxReceipt(lib, es) > 0 ==> SomeReceiptOf(lib, es, MaxReceipt(lib, es))
  {
    if es != [] {
      var init := es[..|es| - 1];
      MaxReceiptIs(lib, init);
      if MaxReceipt(lib, es) > 0 && ReceiptTokens(lib, es[|es| - 1]) != Some(MaxReceipt(lib, es)) {
        var i :| 0 <= i < |init| && ReceiptTokens(lib, init[i]) == Some(MaxReceipt(lib, init));
        assert ReceiptTokens(lib, es[i]) == Some(MaxReceipt(lib, es));
      }
    }
  }

  /** There is a result exactly when some event reports anything. Its input tokens are those of the last
      usage event, none without one; its output tokens are the largest of that event's and of all
      receipts. */
  lemma ExtractMeaning(lib: Library, es: seq<Json>)
    ensures var r, usage := UsageOfEvents(lib, es), LastUsage(es);
      && (r.Some? <==> exists i :: 0 <= i < |es| && Reports(lib, es[i]))
      && (r.Some? ==> r.value.input == if usage.Some? then usage.value.input else 0)
      && (r.Some? ==> NoReceiptAbove(lib, es, r.value.output))
      && (usage.Some? ==> r.Some? && r.value.output >= usage.value.output)
      && (r.Some? ==>
            (usage.Some? && r.value.output == usage.value.output) || SomeReceiptOf(lib, es, r.value.output))
  {
    LastUsageIs(es);
    MaxReceiptIs(lib, es);
    var r := UsageOfEvents(lib, es);
    if r.Some? {
      if LastUsage(es).Some? {
        var i :| 0 <= i < |es| && UsageOfJson(es[i]) == LastUsage(es);
        assert Reports(lib, es[i]);
      } else {
        var i :| 0 <= i < |es| && ReceiptTokens(lib, es[i]) == Some(MaxReceipt(lib, es));
        assert Reports(lib, es[i]);
      }
    }
  }

  /** The event carries a usage object, or a receipt for at least one token. */
  predicate Reports(lib: Library, v: Json) {
    UsageOfJson(v).Some? || match ReceiptTokens(lib, v) case Some(n) => n > 0 case None => false
  }

  /** Having found something is never undone by more events. */
  lemma SomeIsMonotone(lib: Library, es: seq<Json>, more: seq<Json>)
    requires es <= more && UsageOfEvents(lib, es).Some?
    ensures UsageOfEvents(lib, more).Some?
  {
    ExtractMeaning(lib, es);
    ExtractMeaning(lib, more);
    var i :| 0 <= i < |es| && Reports(lib, es[i]);
    assert Reports(lib, more[i]);
  }

  // ------------------------------------------------------------------ from text to events

  const MARK := "data:"

  /** The characters Rust's `trim` removes: the Unicode White_Space property. */
  predicate White(c: char) {
    || '\t' <= c <= '\r' || c == ' ' || c == '\U{85}' || c == '\U{A0}' || c == '\U{1680}'
    || '\U{2000}' <= c <= '\U{200A}' || c == '\U{2028}' || c == '\U{2029}' || c == '\U{202F}'
    || c == '\U{205F}' || c == '\U{3000}'
  }

  function TrimLeft(s: string): string {
    if s != "" && White(s[0]) then TrimLeft(s[1..]) else s
  }

  function TrimRight(s: string): string {
    if s != "" && White(s[|s| - 1]) then TrimRight(s[..|s| - 1]) else s
  }

  function Trim(s: string): string {
    TrimRight(TrimLeft(s))
  }

  /** Trimming takes white space off both ends, all of it, and nothing else. */
  lemma {:induction false} TrimIs(before: string, s: string, after: string)
    requires (forall c :: c in before ==> White(c)) && (forall c :: c in after ==> White(c))
    requires s != "" ==> !White(s[0]) && !White(s[|s| - 1])
    ensures Trim(before + s + after) == s
  {
    TrimLeftIs(before, s + after);
    assert before + s + after == before + (s + after);
    if s == "" {
      assert s + after == after;
      AllWhite(after);
    } else {
      assert (s + after)[0] == s[0] && TrimLeft(s + after) == s + after;
      TrimRightOf(s, after);
    }
  }

  lemma {:induction false} TrimLeftIs(before: string, s: string)
    requires forall c :: c in before ==> White(c)
    ensures TrimLeft(before + s) == TrimLeft(s)
  {
    if before == "" {
      assert before + s == s;
    } else {
      assert (before + s)[1..] == before[1..] + s && before[0] in before;
      TrimLeftIs(before[1..], s);
    }
  }

  lemma {:induction false} AllWhite(s: string)
    requires forall c :: c in s ==> White(c)
    ensures TrimLeft(s) == ""
  {
    if s != "" {
      assert s[0] in s;
      AllWhite(s[1..]);
    }
  }

  lemma {:induction false} TrimRightOf(s: string, after: string)
    requires s != "" && !White(s[|s| - 1]) && forall c :: c in after ==> White(c)
    ensures TrimRight(s + after) == s
    decreases |after|
  {
    if after == "" {
      assert s + after == s;
    } else {
      var n := |after| - 1;
      assert (s + after)[..|s| + n] == s + after[..n] && after[n] in after;
      TrimRightOf(s, after[..n]);
    }
  }

  /** The twenty-five characters of the White_Space property, one by one. */
  lemma WhiteSpace(c: char)
    ensures White(c) <==>
      c in "\U{9}\U{A}\U{B}\U{C}\U{D}\U{20}\U{85}\U{A0}\U{1680}\U{2000}\U{2001}\U{2002}\U{2003}\U{2004}\U{2005}"
      || c in "\U{2006}\U{2007}\U{2008}\U{2009}\U{200A}\U{2028}\U{2029}\U{202F}\U{205F}\U{3000}"
  {}

  /** The text before the first newline; a carriage return before it is left to `trim`. */
  function FirstLine(s: string): string {
    if s == "" || s[0] == '\n' then "" else [s[0]] + FirstLine(s[1..])
  }

  predicate MarkAt(s: string, i: nat) {
    i + 5 <= |s| && s[i..i + 5] == MARK
  }

  /** `split("data:")` of `s`, the piece under way being `cur`. */
  function SplitFrom(s: string, cur: string): (pieces: seq<string>)
    ensures pieces != []
    decreases |s|
  {
    if s == "" then [cur]
    else if MarkAt(s, 0) then [cur] + SplitFrom(s[5..], "")
    else SplitFrom(s[1..], cur + [s[0]])
  }

  /** The event of one piece after a mark: nothing for an empty payload, `[DONE]` or invalid JSON. */
  function EventOf(lib: Library, piece: string): seq<Json> {
    var payload := Trim(FirstLine(piece));
    if payload == "" || payload == "[DONE]" then []
    else match lib.parse(payload) case Some(v) => [v] case None => []
  }

  function EventsOf(lib: Library, pieces: seq<string>): seq<Json> {
    if pieces == [] then [] else EventOf(lib, pieces[0]) + EventsOf(lib, pieces[1..])
  }

  function Events(lib: Library, body: string): seq<Json> {
    EventsOf(lib, SplitFrom(body, "")[1..])
  }

  /** `extract_usage_from_sse_body`. */
  function Extract(lib: Library, body: string): Option<Usage> {
    UsageOfEvents(lib, Events(lib, body))
  }
}
