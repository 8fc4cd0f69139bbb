/** Metering a stream while it arrives: after every chunk the whole text so far is scanned again and the
    last answer kept. For well-formed streams this is the same as one scan of the whole text, however the
    text is cut into chunks and wherever it ends. */
module StreamMetering {
  import opened Wrappers
  import opened Metering
  import Q = Quoting

  // ------------------------------------------------------------------ what is assumed of JSON

  /** Bracket depth, whether inside a string, whether after a backslash. */
  datatype Scan = Scan(depth: int, inString: bool, escaped: bool)

  function Advance(st: Scan, c: char): Scan {
    if st.escaped then st.(escaped := false)
    else if st.inString then
      (if c == '\\' then st.(escaped := true) else if c == '"' then st.(inString := false) else st)
    else if c == '"' then st.(inString := true)
    else if c == '{' || c == '[' then st.(depth := st.depth + 1)
    else if c == '}' || c == ']' then st.(depth := st.depth - 1)
    else st
  }

  function ScanOf(s: string): Scan {
    if s == "" then Scan(0, false, false) else Advance(ScanOf(s[..|s| - 1]), s[|s| - 1])
  }

  lemma ScanStep(s: string, c: char)
    ensures ScanOf(s + [c]) == Advance(ScanOf(s), c)
  {
    assert (s + [c])[..|s|] == s;
  }

  /** Brackets inside strings do not count, and a string ends at its own closing quote: whatever a JSON string
      holds, quotes and backslashes included, the scan goes on after it as if it had not been there. */
  lemma StringsAreSkipped(s: string, text: string)
    requires !ScanOf(s).inString && !ScanOf(s).escaped
    ensures ScanOf(s + Q.Quoted(text)) == ScanOf(s)
  {
    var escapes := Q.Escapes(text);
    ScanStep(s, '"');
    EscapesAreSkipped(s + "\"", escapes, text);
    ScanStep(s + "\"" + escapes, '"');
    Q.Regroup(s, "\"", escapes, "\"");
  }

  lemma {:induction false} EscapesAreSkipped(s: string, escapes: string, text: string)
    requires ScanOf(s).inString && !ScanOf(s).escaped && escapes == Q.Escapes(text)
    ensures ScanOf(s + escapes) == ScanOf(s)
    decreases |text|
  {
    if text == "" {
      assert s + escapes == s;
    } else {
      var e, rest := Q.Escape(text[0]), Q.Escapes(text[1..]);
      Q.EscapesWell(text[0]);
      EscapeIsSkipped(s, e);
      EscapesAreSkipped(s + e, rest, text[1..]);
      Q.Regroup(s, "", e, rest);
      assert s + "" == s && "" + e == e;
    }
  }

  lemma EscapeIsSkipped(s: string, e: string)
    requires ScanOf(s).inString && !ScanOf(s).escaped && Q.WellEscaped(e)
    ensures ScanOf(s + e) == ScanOf(s)
  {
    ScanStep(s, e[0]);
    if |e| == 1 {
      assert e == [e[0]];
    } else {
      var two := s + [e[0]] + [e[1]];
      ScanStep(s + [e[0]], e[1]);
      if |e| == 2 {
        assert s + e == two;
      } else {
        assert s + e == two + [e[2]] + [e[3]] + [e[4]] + [e[5]];
        PlainFour(two, e[2], e[3], e[4], e[5]);
      }
    }
  }

  lemma PlainFour(s: string, a: char, b: char, c: char, d: char)
    requires ScanOf(s).inString && !ScanOf(s).escaped
    requires Q.Plain(a) && Q.Plain(b) && Q.Plain(c) && Q.Plain(d)
    ensures ScanOf(s + [a] + [b] + [c] + [d]) == ScanOf(s)
  {
    ScanStep(s, a);
    ScanStep(s + [a], b);
    ScanStep(s + [a] + [b], c);
    ScanStep(s + [a] + [b] + [c], d);
  }

  predicate Closed(s: string) {
    ScanOf(s) == Scan(0, false, false)
  }

  /** The brackets of `s` close with its last character and not before. */
  predicate ClosesAtEnd(s: string) {
    Closed(s) && forall k :: 0 < k < |s| ==> !Closed(s[..k])
  }

  predicate Opens(s: string) {
    s != "" && (s[0] == '{' || s[0] == '[') && !White(s[|s| - 1])
  }

  /** The one fact used about JSON: an object or array ends where its brackets close. */
  ghost predicate JsonLibrary(lib: Library) {
    forall s: string :: Opens(s) && lib.parse(s).Some? ==> ClosesAtEnd(s)
  }

  /** So no proper prefix of an object or array is itself JSON. */
  lemma PrefixFree(lib: Library, s: string, k: nat)
    requires JsonLibrary(lib) && Opens(s) && lib.parse(s).Some?
    requires 0 < k < |s| && !White(s[k - 1])
    ensures lib.parse(s[..k]).None?
  {
    assert !Closed(s[..k]);
    assert Opens(s[..k]);
  }

  // ------------------------------------------------------------------ well-formed streams

  const DONE := "[DONE]"

  predicate NoMark(s: string) {
    forall i: nat | i < |s| :: !MarkAt(s, i)
  }

  /** A payload a provider sends: a JSON object or `[DONE]`, on one line, without the mark. */
  predicate Payload(lib: Library, p: string) {
    && (p == DONE || (p != "" && p[0] == '{' && !White(p[|p| - 1]) && lib.parse(p).Some?))
    && '\n' !in p && NoMark(p)
  }

  predicate Payloads(lib: Library, ps: seq<string>) {
    forall p | p in ps :: Payload(lib, p)
  }

  function Block(p: string): string {
    MARK + (" " + p + "\n\n")
  }

  function Render(ps: seq<string>): string {
    if ps == [] then "" else Block(ps[0]) + Render(ps[1..])
  }

  /** The events a list of payloads stands for. */
  function Meaning(lib: Library, ps: seq<string>): seq<Json> {
    if ps == [] then []
    else (if ps[0] == DONE || lib.parse(ps[0]).None? then [] else [lib.parse(ps[0]).value]) + Meaning(lib, ps[1..])
  }

  // ------------------------------------------------------------------ splitting

  lemma {:induction false} SplitCur(s: string, cur: string)
    ensures var plain := SplitFrom(s, "");
      SplitFrom(s, cur) == [cur + plain[0]] + plain[1..]
    decreases |s|
  {
    if s != "" && !MarkAt(s, 0) {
      SplitCur(s[1..], cur + [s[0]]);
      SplitCur(s[1..], [s[0]]);
      assert "" + [s[0]] == [s[0]];
      var rest := SplitFrom(s[1..], "");
      assert (cur + [s[0]]) + rest[0] == cur + ([s[0]] + rest[0]);
    } else {
      assert cur + "" == cur;
    }
  }

  /** Text in which no mark begins goes to the piece under way. */
  lemma {:induction false} SplitSkips(x: string, rest: string, cur: string)
    requires forall i: nat :: i < |x| ==> !MarkAt(x + rest, i)
    ensures SplitFrom(x + rest, cur) == SplitFrom(rest, cur + x)
    decreases |x|
  {
    if x == "" {
      assert x + rest == rest && cur + x == cur;
    } else {
      var s := x + rest;
      assert s[1..] == x[1..] + rest;
      assert !MarkAt(s, 0);
      forall i: nat | i < |x[1..]| ensures !MarkAt(x[1..] + rest, i) {
        assert !MarkAt(s, i + 1);
        if i + 6 <= |s| { assert s[i + 1..i + 6] == s[1..][i..i + 5]; }
      }
      SplitSkips(x[1..], rest, cur + [s[0]]);
      assert cur + [s[0]] + x[1..] == cur + x;
    }
  }

  /** A blank or a newline where the mark would be. */
  lemma NoMarkAcross(s: string, i: nat, j: nat)
    requires i <= j < i + 5 && j < |s| && (s[j] == ' ' || s[j] == '\n')
    ensures !MarkAt(s, i)
  {
    if i + 5 <= |s| { assert s[i..i + 5][j - i] == s[j]; }
  }

  /** No mark begins in " payload\n\n", whatever follows. */
  lemma NoMarkInBody(p: string, rest: string)
    requires NoMark(p) && '\n' !in p
    ensures forall i: nat :: i < |" " + p + "\n\n"| ==> !MarkAt(" " + p + "\n\n" + rest, i)
  {
    var x := " " + p + "\n\n";
    forall i: nat | i < |x| ensures !MarkAt(x + rest, i) {
      if i == 0 {
        NoMarkAcross(x + rest, 0, 0);
      } else if i + 5 <= 1 + |p| {
        assert (x + rest)[i..i + 5] == p[i - 1..i + 4];
        assert !MarkAt(p, i - 1);
      } else {
        NoMarkAcross(x + rest, i, if i <= |p| then 1 + |p| else i);
      }
    }
  }

  lemma {:induction false} FirstLineOf(s: string, rest: string)
    requires '\n' !in s && (rest == "" || rest[0] == '\n')
    ensures FirstLine(s + rest) == s
  {
    if s != "" {
      assert (s + rest)[1..] == s[1..] + rest;
      FirstLineOf(s[1..], rest);
    } else {
      assert s + rest == rest;
    }
  }

  /** Trimming on the right leaves a beginning that does not end in white space. */
  lemma {:induction false} TrimRightIs(s: string)
    ensures var r := TrimRight(s); r <= s && (r != "" ==> !White(r[|r| - 1]))
  {
    if s != "" && White(s[|s| - 1]) {
      TrimRightIs(s[..|s| - 1]);
    }
  }

  lemma TrimPayload(s: string)
    requires s == "" || !White(s[0])
    ensures Trim(" " + s) == TrimRight(s)
  {
    var t := " " + s;
    assert t[1..] == s && White(t[0]);
    assert TrimLeft(t) == TrimLeft(s);
    assert TrimLeft(s) == s;
  }

  /** The event of a whole payload line, complete or not yet followed by its blank line. */
  lemma EventOfPayload(lib: Library, p: string, rest: string)
    requires Payload(lib, p) && (rest == "" || rest[0] == '\n')
    ensures EventOf(lib, " " + p + rest) == Meaning(lib, [p])
  {
    FirstLineOf(" " + p, rest);
    TrimPayload(p);
    assert TrimRight(p) == p;
    assert [p][1..] == [];
  }

  /** The event of a payload cut short: there is none. */
  lemma EventOfCut(lib: Library, p: string, k: nat)
    requires JsonLibrary(lib) && Payload(lib, p) && k < |p|
    ensures EventOf(lib, " " + p[..k]) == []
  {
    var s := p[..k];
    LineOfCut(s);
    TrimRightIs(s);
    var m := |TrimRight(s)|;
    assert TrimRight(s) == p[..m];
    if m > 0 { CutParsesToNothing(lib, p, m); }
  }

  lemma LineOfCut(s: string)
    requires '\n' !in s && (s == "" || !White(s[0]))
    ensures Trim(FirstLine(" " + s)) == TrimRight(s)
  {
    FirstLineOf(" " + s, "");
    assert " " + s + "" == " " + s;
    TrimPayload(s);
  }

  lemma CutParsesToNothing(lib: Library, p: string, m: nat)
    requires JsonLibrary(lib) && Payload(lib, p) && 0 < m < |p| && !White(p[m - 1])
    ensures lib.parse(p[..m]).None? && p[..m] != DONE
  {
    if p == DONE {
      assert Opens(p[..m]) && lib.parse(p[..m]).Some? ==> Closed(p[..m]);
      DoneNeverCloses(m);
    } else {
      PrefixFree(lib, p, m);
    }
  }

  lemma DoneNeverCloses(m: nat)
    requires 0 < m < |DONE|
    ensures !Closed(DONE[..m])
  {
    assert DONE[..1] == "[" && DONE[..2] == "[D" && DONE[..3] == "[DO" && DONE[..4] == "[DON" && DONE[..5] == "[DONE";
    assert "["[..0] == "" && "[D"[..1] == "[" && "[DO"[..2] == "[D" && "[DON"[..3] == "[DO" && "[DONE"[..4] == "[DON";
  }

  // ------------------------------------------------------------------ events of a prefix

  /** A complete block contributes its event, and the rest is as if it stood alone. */
  lemma BlockFirst(lib: Library, p: string, rest: string)
    requires Payload(lib, p)
    ensures Events(lib, Block(p) + rest) == Meaning(lib, [p]) + Events(lib, rest)
  {
    var x := " " + p + "\n\n";
    var s := Block(p) + rest;
    assert s[..5] == MARK && s[5..] == x + rest;
    assert MarkAt(s, 0);
    assert SplitFrom(s, "") == [""] + SplitFrom(x + rest, "");
    NoMarkInBody(p, rest);
    SplitSkips(x, rest, "");
    assert "" + x == x;
    SplitCur(rest, x);
    var plain := SplitFrom(rest, "");
    var pieces := SplitFrom(s, "")[1..];
    assert pieces == [x + plain[0]] + plain[1..];
    assert x + plain[0] == " " + p + ("\n\n" + plain[0]);
    EventOfPayload(lib, p, "\n\n" + plain[0]);
    assert pieces[1..] == plain[1..];
  }

  /** A block cut short contributes its event once the whole payload is there, and nothing before. */
  lemma CutBlock(lib: Library, p: string, cut: string)
    requires JsonLibrary(lib) && Payload(lib, p) && cut <= Block(p) && cut != Block(p)
    ensures Events(lib, cut) == if |cut| >= |p| + 6 then Meaning(lib, [p]) else []
  {
    if |cut| < 5 {
      assert forall i: nat :: i < |cut| ==> !MarkAt(cut + "", i);
      SplitSkips(cut, "", "");
      assert cut + "" == cut;
    } else {
      var y := cut[5..];
      var x := " " + p + "\n\n";
      assert Block(p)[5..] == x;
      assert y == x[..|y|] && cut[..5] == MARK;
      assert MarkAt(cut, 0);
      NoMarkInCut(p, y);
      SplitSkips(y, "", "");
      assert y + "" == y && "" + y == y;
      assert SplitFrom(cut, "") == [""] + [y];
      assert ([""] + [y])[1..] == [y];
      assert EventsOf(lib, [y]) == EventOf(lib, y) by { assert [y][1..] == []; }
      EventOfCutBody(lib, p, y);
    }
  }

  lemma NoMarkInCut(p: string, y: string)
    requires NoMark(p) && '\n' !in p && y <= " " + p + "\n\n"
    ensures forall i: nat :: i < |y| ==> !MarkAt(y + "", i)
  {
    var x := " " + p + "\n\n";
    NoMarkInBody(p, "");
    assert x + "" == x && y + "" == y;
    forall i: nat | i < |y| ensures !MarkAt(y, i) {
      assert !MarkAt(x, i);
      if i + 5 <= |y| { assert y[i..i + 5] == x[i..i + 5]; }
    }
  }

  lemma EventOfCutBody(lib: Library, p: string, y: string)
    requires JsonLibrary(lib) && Payload(lib, p) && y <= " " + p + "\n\n" && |y| < |p| + 3
    ensures EventOf(lib, y) == if |y| >= |p| + 1 then Meaning(lib, [p]) else []
  {
    var x := " " + p + "\n\n";
    if y == "" {
      assert FirstLine(y) == "";
    } else if |y| <= |p| {
      assert y == " " + p[..|y| - 1];
      EventOfCut(lib, p, |y| - 1);
    } else if |y| == |p| + 1 {
      assert y == " " + p + "";
      EventOfPayload(lib, p, "");
    } else {
      assert y == " " + p + "\n";
      EventOfPayload(lib, p, "\n");
    }
  }

  /** Within a well-formed stream, more text means more events and leaves the earlier ones alone. */
  lemma {:induction false} EventsGrow(lib: Library, ps: seq<string>, text: string, more: string)
    requires JsonLibrary(lib) && Payloads(lib, ps) && text <= more <= Render(ps)
    ensures Events(lib, text) <= Events(lib, more)
    decreases |ps|
  {
    if ps != [] {
      var p := ps[0];
      var block := Block(p);
      assert p in ps && forall q :: q in ps[1..] ==> q in ps;
      assert Render(ps)[|block|..] == Render(ps[1..]) && Render(ps)[..|block|] == block;
      if |more| < |block| {
        assert more <= block;
        CutBlock(lib, p, text);
        CutBlock(lib, p, more);
      } else {
        assert more == block + more[|block|..];
        BlockFirst(lib, p, more[|block|..]);
        if |text| < |block| {
          assert text <= block;
          CutBlock(lib, p, text);
        } else {
          assert text == block + text[|block|..];
          BlockFirst(lib, p, text[|block|..]);
          EventsGrow(lib, ps[1..], text[|block|..], more[|block|..]);
        }
      }
    }
  }

  /** The whole stream means what its payloads mean. */
  lemma {:induction false} EventsOfStream(lib: Library, ps: seq<string>)
    requires Payloads(lib, ps)
    ensures Events(lib, Render(ps)) == Meaning(lib, ps)
    decreases |ps|
  {
    if ps != [] {
      assert ps[0] in ps && forall q :: q in ps[1..] ==> q in ps;
      BlockFirst(lib, ps[0], Render(ps[1..]));
      EventsOfStream(lib, ps[1..]);
      assert [ps[0]][1..] == [];
    }
  }

  /** Letter by letter: a payload between "data: " and a blank line is one event, "[DONE]" is none, and text
      without the mark is none either. */
  lemma PlainBlock(lib: Library, p: string)
    requires Payload(lib, p)
    ensures p != "[DONE]" ==> lib.parse(p).Some? && Events(lib, "data: " + p + "\n\n") == [lib.parse(p).value]
    ensures p == "[DONE]" ==> Events(lib, "data: " + p + "\n\n") == []
  {
    assert "data: " + p + "\n\n" == "data:" + (" " + p + "\n\n") + "";
    BlockFirst(lib, p, "");
    assert [p][1..] == [];
  }

  lemma UnmarkedIsNothing(lib: Library, s: string)
    requires forall i: nat :: i + 5 <= |s| && s[i] == 'd' ==> s[i..i + 5] != "data:"
    ensures Events(lib, s) == []
  {
    forall i: nat | i < |s| ensures !MarkAt(s + "", i) {
      if i + 5 <= |s| { assert s[i..i + 5][0] == s[i]; }
    }
    assert s + "" == s && "" + s == s;
    SplitSkips(s, "", "");
  }

  // ------------------------------------------------------------------ metering chunk by chunk

  function Concat(cs: seq<string>): string {
    if cs == [] then "" else Concat(cs[..|cs| - 1]) + cs[|cs| - 1]
  }

  /** The last answer there was. */
  function LastSome(answers: seq<Option<Usage>>): (r: Option<Usage>)
    ensures r.None? ==> forall i :: 0 <= i < |answers| ==> answers[i].None?
    ensures r.Some? ==> r in answers
  {
    if answers == [] then None
    else if answers[|answers| - 1].Some? then answers[|answers| - 1] else LastSome(answers[..|answers| - 1])
  }

  /** What scanning the accumulated text answers after each chunk. */
  function Answers(lib: Library, cs: seq<string>): (r: seq<Option<Usage>>)
    ensures |r| == |cs|
  {
    seq(|cs|, i requires 0 <= i < |cs| => Extract(lib, Concat(cs[..i + 1])))
  }

  /** `latest_usage.or_else(|| extract(..))`. */
  function Reported(lib: Library, cs: seq<string>): Option<Usage> {
    var latest := LastSome(Answers(lib, cs));
    if latest.Some? then latest else Extract(lib, Concat(cs))
  }

  lemma {:induction false} ConcatPrefix(cs: seq<string>, n: nat)
    requires n <= |cs|
    ensures Concat(cs[..n]) <= Concat(cs)
    decreases |cs|
  {
    if n == |cs| {
      assert cs[..n] == cs;
    } else {
      ConcatPrefix(cs[..|cs| - 1], n);
      assert cs[..|cs| - 1][..n] == cs[..n];
    }
  }

  /** The text has an answer at some chunk boundary. */
  ghost predicate SomeAnswer(lib: Library, cs: seq<string>) {
    exists i: nat :: i < |cs| && Answers(lib, cs)[i].Some?
  }

  /** For arbitrary text the two differ exactly when the whole text reports nothing although some
      beginning of it, ending at a chunk boundary, does. */
  lemma WhenChunksMatter(lib: Library, cs: seq<string>)
    ensures Reported(lib, cs) != Extract(lib, Concat(cs)) <==>
      Extract(lib, Concat(cs)).None? && SomeAnswer(lib, cs)
  {
    var answers := Answers(lib, cs);
    LastAnswer(lib, cs);
    if Extract(lib, Concat(cs)).None? && LastSome(answers).Some? {
      var i: nat :| i < |answers| && answers[i] == LastSome(answers);
      assert Answers(lib, cs)[i].Some?;
    }
  }

  lemma LastAnswer(lib: Library, cs: seq<string>)
    ensures cs != [] ==> Answers(lib, cs)[|cs| - 1] == Extract(lib, Concat(cs))
  {
    assert cs[..|cs|] == cs;
  }

  /** Chunking independence: however a well-formed stream, or any beginning of one, is cut into chunks,
      the reported usage is that of one scan over the text. */
  lemma ChunkingIndependence(lib: Library, ps: seq<string>, cs: seq<string>)
    requires JsonLibrary(lib) && Payloads(lib, ps) && Concat(cs) <= Render(ps)
    ensures Reported(lib, cs) == Extract(lib, Concat(cs))
  {
    WhenChunksMatter(lib, cs);
    if SomeAnswer(lib, cs) { NoAnswerIsLost(lib, ps, cs); }
  }

  lemma NoAnswerIsLost(lib: Library, ps: seq<string>, cs: seq<string>)
    requires JsonLibrary(lib) && Payloads(lib, ps) && Concat(cs) <= Render(ps) && SomeAnswer(lib, cs)
    ensures Extract(lib, Concat(cs)).Some?
  {
    var i: nat :| i < |cs| && Answers(lib, cs)[i].Some?;
    var text := Concat(cs[..i + 1]);
    assert Extract(lib, text).Some?;
    ConcatPrefix(cs, i + 1);
    FoundStaysFound(lib, ps, text, Concat(cs));
  }

  lemma FoundStaysFound(lib: Library, ps: seq<string>, text: string, more: string)
    requires JsonLibrary(lib) && Payloads(lib, ps) && text <= more <= Render(ps) && Extract(lib, text).Some?
    ensures Extract(lib, more).Some?
  {
    EventsGrow(lib, ps, text, more);
    SomeIsMonotone(lib, Events(lib, text), Events(lib, more));
  }

  /** And for the whole stream it is what the payloads say. */
  lemma WholeStream(lib: Library, ps: seq<string>, cs: seq<string>)
    requires JsonLibrary(lib) && Payloads(lib, ps) && Concat(cs) == Render(ps)
    ensures Reported(lib, cs) == UsageOfEvents(lib, Meaning(lib, ps))
  {
    ChunkingIndependence(lib, ps, cs);
    EventsOfStream(lib, ps);
  }

  /** Without well-formedness the two do differ: when a chunk ends with a complete usage object and the next
      one spoils its line, the usage is reported although the text as a whole has none. */
  lemma SpoiltLine(lib: Library, p: string, v: Json)
    requires JsonLibrary(lib) && Payload(lib, p) && p != DONE && lib.parse(p) == Some(v) && UsageOfJson(v).Some?
    ensures var cs := [MARK + " " + p, "x"];
      Reported(lib, cs) == UsageOfEvents(lib, [v]) && Reported(lib, cs).Some? && Extract(lib, Concat(cs)).None?
  {
    var first := MARK + " " + p;
    assert first <= Block(p) by { assert Block(p)[..|first|] == first; }
    CutBlock(lib, p, first);
    assert Meaning(lib, [p]) == [v] by { assert [p][1..] == []; }
    assert UsageOfEvents(lib, [v]).Some? by { assert [v][..0] == []; }
    SpoiltEvents(lib, p);
    TwoChunks(lib, first, "x");
  }

  lemma TwoChunks(lib: Library, a: string, b: string)
    requires Extract(lib, a).Some? && Extract(lib, a + b).None?
    ensures Concat([a, b]) == a + b && Reported(lib, [a, b]) == Extract(lib, a)
  {
    var cs := [a, b];
    assert cs[..1] == [a] && cs[..2] == cs && [a][..0] == [];
    assert Concat([a]) == "" + a == a;
    assert Concat(cs) == a + b;
    var answers := Answers(lib, cs);
    assert answers[0] == Extract(lib, Concat(cs[..1])) && answers[1] == Extract(lib, Concat(cs[..2]));
    var one := [Extract(lib, a)];
    assert LastSome(one) == Extract(lib, a);
    assert answers[..1] == one;
  }

  lemma SpoiltEvents(lib: Library, p: string)
    requires JsonLibrary(lib) && Payload(lib, p) && p != DONE
    ensures Events(lib, MARK + " " + p + "x") == []
  {
    var s, y := MARK + " " + p + "x", " " + p + "x";
    assert s[..5] == MARK && s[5..] == y && MarkAt(s, 0);
    NoMarkSpoilt(p);
    SplitSkips(y, "", "");
    assert y + "" == y && "" + y == y;
    assert SplitFrom(s, "") == [""] + [y] && ([""] + [y])[1..] == [y];
    SpoiltEvent(lib, p);
    assert EventsOf(lib, [y]) == EventOf(lib, y) by { assert [y][1..] == []; }
  }

  lemma SpoiltEvent(lib: Library, p: string)
    requires JsonLibrary(lib) && Payload(lib, p) && p != DONE
    ensures EventOf(lib, " " + p + "x") == []
  {
    var q := p + "x";
    assert " " + p + "x" == " " + q;
    LineOfCut(q);
    assert TrimRight(q) == q;
    SpoiltParse(lib, p);
    assert q[0] == '{';
  }

  lemma SpoiltParse(lib: Library, p: string)
    requires JsonLibrary(lib) && Opens(p) && lib.parse(p).Some?
    ensures lib.parse(p + "x").None?
  {
    assert Closed(p) && (p + "x")[..|p|] == p;
    assert Opens(p + "x") && !ClosesAtEnd(p + "x");
  }

  lemma NoMarkSpoilt(p: string)
    requires NoMark(p) && '\n' !in p
    ensures var y := " " + p + "x"; forall i: nat :: i < |y| ==> !MarkAt(y + "", i)
  {
    var y := " " + p + "x";
    assert y + "" == y;
    forall i: nat | i < |y| ensures !MarkAt(y, i) {
      if i == 0 {
        NoMarkAcross(y, 0, 0);
      } else if i + 5 <= 1 + |p| {
        assert y[i..i + 5] == p[i - 1..i + 4];
        assert !MarkAt(p, i - 1);
      } else if i + 5 == |y| {
        assert y[i..i + 5][4] == 'x';
      }
    }
  }
}
