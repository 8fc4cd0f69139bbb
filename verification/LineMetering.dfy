/** Metering of arbitrary text, with nothing assumed of JSON: how a text splits at its marks, why chunks that
    end with a line are safe, and which texts can be cut into chunks that change the answer. */
module LineMetering {
  import opened Wrappers
  import opened Metering
  import opened StreamMetering

  // ------------------------------------------------------------------ splitting at the last mark

  /** No mark begins at n or later. */
  predicate NoMarkFrom(s: string, n: nat) {
    forall i: nat | n <= i < |s| :: !MarkAt(s, i)
  }

  /** The last mark that begins before n. */
  function LastMark(s: string, n: nat): (i: Option<nat>)
    requires n <= |s|
    ensures i.Some? ==> i.value < n && MarkAt(s, i.value) && forall k: nat :: i.value < k < n ==> !MarkAt(s, k)
    ensures i.None? ==> forall k: nat :: k < n ==> !MarkAt(s, k)
  {
    if n == 0 then None else if MarkAt(s, n - 1) then Some(n - 1) else LastMark(s, n - 1)
  }

  lemma MarkChars(s: string, i: nat)
    requires MarkAt(s, i)
    ensures s[i] == 'd' && s[i + 1] == 'a' && s[i + 2] == 't' && s[i + 3] == 'a' && s[i + 4] == ':'
  {
    var m := s[i..i + 5];
    assert m[0] == s[i] && m[1] == s[i + 1] && m[2] == s[i + 2] && m[3] == s[i + 3] && m[4] == s[i + 4];
  }

  lemma MarksAreApart(s: string, i: nat, j: nat)
    requires i < j && MarkAt(s, i) && MarkAt(s, j)
    ensures i + 5 <= j
  {
    MarkChars(s, i);
    MarkChars(s, j);
  }

  lemma SliceOfSlice(s: string, a: nat, b: nat, i: nat, j: nat)
    requires a <= b <= |s| && i <= j <= b - a
    ensures s[a..b][i..j] == s[a + i..a + j]
  {
    var t := s[a..b];
    forall k | 0 <= k < j - i ensures t[i..j][k] == s[a + i..a + j][k] {
      assert t[i..j][k] == t[i + k];
      assert t[i + k] == s[a + (i + k)];
    }
  }

  /** A mark of the text is a mark of any part that holds it, and the other way round. */
  lemma MarkInPart(s: string, a: nat, b: nat, i: nat)
    requires a <= b <= |s|
    ensures MarkAt(s[a..b], i) <==> a + i + 5 <= b && MarkAt(s, a + i)
  {
    if a + i + 5 <= b {
      SliceOfSlice(s, a, b, i, i + 5);
    }
  }

  lemma {:induction false} SplitLast(s: string, cur: string, i: nat)
    requires MarkAt(s, i) && NoMarkFrom(s, i + 1)
    ensures SplitFrom(s, cur) == SplitFrom(s[..i], cur) + [s[i + 5..]]
    decreases |s|
  {
    MarkInPart(s, 0, i, 0);
    assert s[0..i] == s[..i];
    if MarkAt(s, 0) {
      var rest := s[5..];
      assert s[5..|s|] == rest;
      forall k: nat | k < |rest| ensures MarkAt(rest, k) <==> MarkAt(s, k + 5) { MarkInPart(s, 5, |s|, k); }
      if i == 0 {
        SplitWhole(rest, "");
        assert "" + rest == rest && s[..0] == "";
      } else {
        MarksAreApart(s, 0, i);
        SplitLast(rest, "", i - 5);
        assert rest[..i - 5] == s[..i][5..] && rest[i - 5 + 5..] == s[i + 5..];
      }
    } else {
      var rest := s[1..];
      assert s[1..|s|] == rest;
      forall k: nat | k < |rest| ensures MarkAt(rest, k) <==> MarkAt(s, k + 1) { MarkInPart(s, 1, |s|, k); }
      SplitLast(rest, cur + [s[0]], i - 1);
      assert rest[..i - 1] == s[..i][1..] && rest[i - 1 + 5..] == s[i + 5..];
    }
  }

  lemma SplitWhole(s: string, cur: string)
    requires NoMarkFrom(s, 0)
    ensures SplitFrom(s, cur) == [cur + s]
  {
    assert s + "" == s;
    SplitSkips(s, "", cur);
  }

  lemma {:induction false} EventsOfAppend(lib: Library, a: seq<string>, p: string)
    ensures EventsOf(lib, a + [p]) == EventsOf(lib, a) + EventOf(lib, p)
  {
    if a == [] {
      assert [p][1..] == [] && [] + [p] == [p];
    } else {
      EventsOfAppend(lib, a[1..], p);
      assert (a + [p])[1..] == a[1..] + [p];
    }
  }

  /** The events of a text are those before its last mark and the one after it. */
  lemma LastEvent(lib: Library, s: string, i: nat)
    requires MarkAt(s, i) && NoMarkFrom(s, i + 1)
    ensures Events(lib, s) == Events(lib, s[..i]) + EventOf(lib, s[i + 5..])
  {
    SplitLast(s, "", i);
    var before := SplitFrom(s[..i], "");
    assert (before + [s[i + 5..]])[1..] == before[1..] + [s[i + 5..]];
    EventsOfAppend(lib, before[1..], s[i + 5..]);
  }

  lemma NoEvents(lib: Library, s: string)
    requires NoMarkFrom(s, 0)
    ensures Events(lib, s) == []
  {
    SplitWhole(s, "");
    assert [("" + s)][1..] == [];
  }

  // ------------------------------------------------------------------ chunks that end with a line

  predicate EndsLine(s: string) {
    s == "" || s[|s| - 1] == '\n'
  }

  lemma {:induction false} FirstLineKept(a: string, b: string)
    requires '\n' in a
    ensures FirstLine(a + b) == FirstLine(a)
  {
    if a[0] != '\n' {
      assert a == [a[0]] + a[1..] && (a + b)[1..] == a[1..] + b;
      FirstLineKept(a[1..], b);
    }
  }

  /** A text that ends with a line never loses an event, whatever comes next. */
  lemma {:induction false} LinesKeepEvents(lib: Library, text: string, more: string)
    requires EndsLine(text)
    ensures Events(lib, text) <= Events(lib, text + more)
    decreases |more|
  {
    var all := text + more;
    var last := LastMark(all, |all|);
    if text == "" || last.None? {
      NoMarkInBeginning(all, text);
      NoEvents(lib, text);
    } else {
      var i := last.value;
      LastEvent(lib, all, i);
      if i >= |text| {
        assert all[..i] == text + more[..i - |text|];
        LinesKeepEvents(lib, text, more[..i - |text|]);
      } else {
        LastLineKept(lib, text, more, i);
      }
    }
  }

  lemma NoMarkInBeginning(all: string, text: string)
    requires text <= all && (text == "" || NoMarkFrom(all, 0))
    ensures NoMarkFrom(text, 0)
  {
    forall k: nat | k < |text| ensures !MarkAt(text, k) {
      MarkInPart(all, 0, |text|, k);
      assert all[0..|text|] == text;
    }
  }

  lemma LastLineKept(lib: Library, text: string, more: string, i: nat)
    requires EndsLine(text) && i < |text|
    requires var all := text + more; MarkAt(all, i) && NoMarkFrom(all, i + 1)
    ensures Events(lib, text) == Events(lib, text + more)
  {
    var all := text + more;
    MarkEndsBefore(text, more, i);
    SameLastMark(text, all, i);
    LastEvent(lib, all, i);
    LastEvent(lib, text, i);
    assert all[..i] == text[..i];
    SameEvent(lib, text, more, i + 5);
  }

  lemma MarkEndsBefore(text: string, more: string, i: nat)
    requires EndsLine(text) && i < |text| && MarkAt(text + more, i)
    ensures i + 5 < |text|
  {
    MarkChars(text + more, i);
    assert (text + more)[|text| - 1] == '\n';
  }

  lemma SameEvent(lib: Library, text: string, more: string, n: nat)
    requires EndsLine(text) && n < |text|
    ensures EventOf(lib, (text + more)[n..]) == EventOf(lib, text[n..])
  {
    var a := text[n..];
    assert (text + more)[n..] == a + more;
    assert a[|a| - 1] == '\n';
    FirstLineKept(a, more);
  }

  lemma SameLastMark(text: string, all: string, i: nat)
    requires text <= all && i + 5 <= |text| && MarkAt(all, i) && NoMarkFrom(all, i + 1)
    ensures MarkAt(text, i) && NoMarkFrom(text, i + 1)
  {
    assert all[0..|text|] == text;
    forall k: nat | i <= k < |text| ensures MarkAt(text, k) <==> k == i { MarkInPart(all, 0, |text|, k); }
  }

  /** All chunks but the last end with a line. */
  predicate ByLines(cs: seq<string>) {
    forall k :: 0 <= k < |cs| - 1 ==> EndsLine(cs[k])
  }

  lemma {:induction false} BoundaryEndsLine(cs: seq<string>, n: nat)
    requires n <= |cs| && forall k :: 0 <= k < n ==> EndsLine(cs[k])
    ensures EndsLine(Concat(cs[..n]))
  {
    if n > 0 {
      BoundaryEndsLine(cs, n - 1);
      assert cs[..n][..n - 1] == cs[..n - 1];
    }
  }

  /** Whatever the text, chunks that end where lines end report what one scan of the text reports. */
  lemma LineChunksAreSafe(lib: Library, cs: seq<string>)
    requires ByLines(cs)
    ensures Reported(lib, cs) == Extract(lib, Concat(cs))
  {
    WhenChunksMatter(lib, cs);
    if SomeAnswer(lib, cs) { LinesLoseNothing(lib, cs); }
  }

  lemma LinesLoseNothing(lib: Library, cs: seq<string>)
    requires ByLines(cs) && SomeAnswer(lib, cs)
    ensures Extract(lib, Concat(cs)).Some?
  {
    var n, text := AnswerAt(lib, cs);
    if n < |cs| {
      BoundaryEndsLine(cs, n);
      StillReports(lib, text, Concat(cs));
    }
  }

  /** An answer at a chunk boundary is the answer for the text of the first n chunks. */
  lemma AnswerAt(lib: Library, cs: seq<string>) returns (n: nat, text: string)
    requires SomeAnswer(lib, cs)
    ensures 0 < n <= |cs| && text == Concat(cs[..n]) && Extract(lib, text).Some?
    ensures text <= Concat(cs) && (n == |cs| ==> text == Concat(cs))
  {
    var k: nat :| k < |cs| && Answers(lib, cs)[k].Some?;
    n, text := k + 1, Concat(cs[..k + 1]);
    ConcatPrefix(cs, n);
    if n == |cs| { assert cs[..n] == cs; }
  }

  lemma StillReports(lib: Library, text: string, all: string)
    requires EndsLine(text) && text <= all && Extract(lib, text).Some?
    ensures Extract(lib, all).Some?
  {
    assert all == text + all[|text|..];
    LinesKeepEvents(lib, text, all[|text|..]);
    SomeIsMonotone(lib, Events(lib, text), Events(lib, all));
  }

  // ------------------------------------------------------------------ which texts can be cut badly

  /** The text from the mark at i up to j is the beginning of a line, holds no other mark, and reports. */
  ghost predicate ReportingBeginning(lib: Library, text: string, i: nat, j: nat) {
    && MarkAt(text, i) && i + 5 <= j <= |text| && '\n' !in text[i + 5..j]
    && (forall k: nat :: i < k && k + 5 <= j ==> !MarkAt(text, k))
    && UsageOfEvents(lib, EventOf(lib, text[i + 5..j])).Some?
  }

  ghost predicate HasReportingBeginning(lib: Library, text: string) {
    exists i: nat, j: nat :: ReportingBeginning(lib, text, i, j)
  }

  lemma EitherReports(lib: Library, a: seq<Json>, b: seq<Json>)
    ensures UsageOfEvents(lib, a + b).Some? <==> UsageOfEvents(lib, a).Some? || UsageOfEvents(lib, b).Some?
  {
    ExtractMeaning(lib, a);
    ExtractMeaning(lib, b);
    ExtractMeaning(lib, a + b);
    if i :| 0 <= i < |a + b| && Reports(lib, (a + b)[i]) {
      assert if i < |a| then Reports(lib, a[i]) else Reports(lib, b[i - |a|]);
    }
    if i :| 0 <= i < |a| && Reports(lib, a[i]) { assert Reports(lib, (a + b)[i]); }
    if i :| 0 <= i < |b| && Reports(lib, b[i]) { assert Reports(lib, (a + b)[|a| + i]); }
  }

  lemma {:induction false} FirstLineIs(s: string)
    ensures FirstLine(s) <= s && '\n' !in FirstLine(s) && FirstLine(FirstLine(s)) == FirstLine(s)
  {
    if s != "" && s[0] != '\n' {
      FirstLineIs(s[1..]);
      assert FirstLine(s)[1..] == FirstLine(s[1..]);
    }
  }

  /** Some beginning of the text reports exactly when the beginning of some marked line does. */
  lemma {:induction false} BeginningsReport(lib: Library, text: string, n: nat)
    requires n <= |text| && Extract(lib, text[..n]).Some?
    ensures HasReportingBeginning(lib, text)
    decreases n
  {
    var s := text[..n];
    var last := LastMark(s, n);
    if last.None? {
      NoEvents(lib, s);
      NothingReportsNothing(lib);
    } else {
      var i := last.value;
      LastEvent(lib, s, i);
      EitherReports(lib, Events(lib, s[..i]), EventOf(lib, s[i + 5..]));
      if Extract(lib, s[..i]).Some? {
        assert s[..i] == text[..i];
        BeginningsReport(lib, text, i);
      } else {
        LineReports(lib, text, n, i);
      }
    }
  }

  lemma NothingReportsNothing(lib: Library)
    ensures UsageOfEvents(lib, []).None?
  {}

  lemma LineReports(lib: Library, text: string, n: nat, i: nat)
    requires n <= |text| && MarkAt(text[..n], i) && NoMarkFrom(text[..n], i + 1)
    requires UsageOfEvents(lib, EventOf(lib, text[..n][i + 5..])).Some?
    ensures HasReportingBeginning(lib, text)
  {
    var s := text[..n];
    var tail := s[i + 5..];
    var line := FirstLine(tail);
    FirstLineIs(tail);
    var j := i + 5 + |line|;
    assert text[0..n] == s;
    assert tail == text[i + 5..n] && text[i + 5..n][..|line|] == text[i + 5..j];
    assert text[i + 5..j] == line;
    MarkInPart(text, 0, n, i);
    forall k: nat | i < k && k + 5 <= j ensures !MarkAt(text, k) { MarkInPart(text, 0, n, k); }
    assert EventOf(lib, line) == EventOf(lib, tail);
    assert ReportingBeginning(lib, text, i, j);
  }

  lemma BeginningIsReported(lib: Library, text: string, i: nat, j: nat)
    requires ReportingBeginning(lib, text, i, j)
    ensures Extract(lib, text[..j]).Some?
  {
    var s := text[..j];
    assert text[0..j] == s;
    MarkInPart(text, 0, j, i);
    forall k: nat | i + 1 <= k < |s| ensures !MarkAt(s, k) { MarkInPart(text, 0, j, k); }
    LastEvent(lib, s, i);
    assert s[i + 5..] == text[i + 5..j];
    EitherReports(lib, Events(lib, s[..i]), EventOf(lib, s[i + 5..]));
  }

  lemma BadCut(lib: Library, text: string) returns (cs: seq<string>)
    requires Extract(lib, text).None? && HasReportingBeginning(lib, text)
    ensures Concat(cs) == text && Reported(lib, cs) != Extract(lib, text)
  {
    var a, b := GoodBeginning(lib, text);
    CutAfter(lib, text, a, b);
    cs := [a, b];
  }

  lemma GoodBeginning(lib: Library, text: string) returns (a: string, b: string)
    requires HasReportingBeginning(lib, text)
    ensures a + b == text && Extract(lib, a).Some?
  {
    var i: nat, j: nat :| ReportingBeginning(lib, text, i, j);
    a, b := text[..j], text[j..];
    assert Extract(lib, a).Some? by { BeginningIsReported(lib, text, i, j); }
    BackTogether(text, j);
  }

  lemma BackTogether(s: string, j: nat)
    requires j <= |s|
    ensures s[..j] + s[j..] == s
  {}

  lemma CutAfter(lib: Library, text: string, a: string, b: string)
    requires text == a + b && Extract(lib, text).None? && Extract(lib, a).Some?
    ensures Concat([a, b]) == text && Reported(lib, [a, b]) != Extract(lib, text)
  {
    TwoChunks(lib, a, b);
  }

  /** However the text is cut into chunks, the answer is that of one scan. */
  ghost predicate CutsNeverMatter(lib: Library, text: string) {
    forall cs :: Concat(cs) == text ==> Reported(lib, cs) == Extract(lib, text)
  }

  /** The exact condition on the text alone, for any text and any library: some cut matters exactly when
      the text as a whole reports nothing and yet the beginning of some marked line does. */
  lemma CutsMatterExactly(lib: Library, text: string)
    ensures CutsNeverMatter(lib, text) <==> Extract(lib, text).Some? || !HasReportingBeginning(lib, text)
  {
    if Extract(lib, text).None? && HasReportingBeginning(lib, text) {
      var cs := BadCut(lib, text);
      assert Concat(cs) == text && Reported(lib, cs) != Extract(lib, text);
    } else {
      forall cs | Concat(cs) == text ensures Reported(lib, cs) == Extract(lib, text) {
        OneScan(lib, text, cs);
      }
    }
  }

  lemma OneScan(lib: Library, text: string, cs: seq<string>)
    requires Concat(cs) == text && (Extract(lib, text).Some? || !HasReportingBeginning(lib, text))
    ensures Reported(lib, cs) == Extract(lib, text)
  {
    WhenChunksMatter(lib, cs);
    if Extract(lib, text).None? && SomeAnswer(lib, cs) { SomeBeginningReports(lib, text, cs); }
  }

  lemma SomeBeginningReports(lib: Library, text: string, cs: seq<string>)
    requires Concat(cs) == text && SomeAnswer(lib, cs)
    ensures HasReportingBeginning(lib, text)
  {
    var _, beginning := AnswerAt(lib, cs);
    assert text[..|beginning|] == beginning;
    BeginningsReport(lib, text, |beginning|);
  }
}
