/** What ANSI text means, read off its codes and characters (webpanel/app/ansi.py): the effect of every code, of extended
    colours and of whole sequences on what follows, and what a span tag says. */
module AnsiLaws {
  import opened Options
  import opened Ansi
  import opened Sgr
  import opened AnsiHtml
  import opened Text

  /** The style after a list of codes. */
  function Result(st: Style, codes: seq<int>): Style { ApplyAll(st, Effective(codes)) }

  // ---------------------------------------------------------------- codes

  lemma FirstCode(st: Style, codes: seq<int>)
    requires codes != []
    ensures Result(st, codes) == if IsExtended(codes[0]) then Result(st, After(codes)) else Result(ApplyOne(st, codes[0]), After(codes))
  {
    if !IsExtended(codes[0]) { FoldFirst(ApplyOne, st, codes[0], Effective(After(codes))); }
  }

  /** Any other code takes effect before the codes that follow it. */
  lemma CodeByCode(st: Style, c: int, rest: seq<int>)
    requires c != 38 && c != 48
    ensures Result(st, [c] + rest) == Result(Result(st, [c]), rest)
  {
    FirstCode(st, [c] + rest);
    FirstCode(st, [c]);
    assert ([c] + rest)[1..] == rest;
    assert Effective([]) == [];
  }

  /** An extended colour is taken out with its index or its three components. */
  lemma ExtendedLaw(st: Style, c: int, x: int, r: int, g: int, b: int, rest: seq<int>)
    requires c == 38 || c == 48
    ensures Result(st, [c, 5, x] + rest) == Result(st, rest)
    ensures Result(st, [c, 2, r, g, b] + rest) == Result(st, rest)
  {
    FirstCode(st, [c, 5, x] + rest);
    FirstCode(st, [c, 2, r, g, b] + rest);
    hide Result;
    AfterDrops([c, 5, x], rest);
    AfterDrops([c, 2, r, g, b], rest);
  }

  lemma AfterDrops(head: seq<int>, rest: seq<int>)
    requires head != [] && ExtendedLength(head) == |head| == ExtendedLength(head + rest)
    ensures After(head + rest) == rest
  {
    assert (head + rest)[|head|..] == rest;
  }

  /** Cut off, it takes what there is of it; followed by anything else, it takes nothing but itself. */
  lemma ExtendedCutOff(st: Style, c: int, x: int, r: int, g: int, rest: seq<int>)
    requires c == 38 || c == 48
    ensures Result(st, [c]) == Result(st, [c, 5]) == Result(st, [c, 2]) == Result(st, [c, 2, r]) == Result(st, [c, 2, r, g]) == st
    ensures x != 5 && x != 2 ==> Result(st, [c, x] + rest) == Result(st, [x] + rest)
  {
    assert Result(st, []) == st;
    FirstCode(st, [c]);
    FirstCode(st, [c, 5]);
    FirstCode(st, [c, 2]);
    FirstCode(st, [c, 2, r]);
    FirstCode(st, [c, 2, r, g]);
    FirstCode(st, [c, x] + rest);
    hide Result;
    assert ([c, x] + rest)[1..] == [x] + rest;
  }

  lemma SingleCode(st: Style, c: int)
    requires c != 38 && c != 48
    ensures Result(st, [c]) == ApplyOne(st, c)
  {
    FirstCode(st, [c]);
    assert Effective([]) == [] && After([c]) == [];
  }

  /** What each attribute code does. */
  lemma AttributeLaw(st: Style)
    ensures Result(st, [0]) == Style(None, None, false, false, false, false)
    ensures Result(st, [1]) == st.(bold := true) && Result(st, [2]) == st.(dim := true)
    ensures Result(st, [3]) == st.(italic := true) && Result(st, [4]) == st.(underline := true)
    ensures Result(st, [22]) == st.(bold := false, dim := false)
    ensures Result(st, [23]) == st.(italic := false) && Result(st, [24]) == st.(underline := false)
    ensures Result(st, [39]) == st.(fg := None) && Result(st, [49]) == st.(bg := None)
  {
    forall c | c in {0, 1, 2, 3, 4, 22, 23, 24, 39, 49} ensures Result(st, [c]) == ApplyOne(st, c) { SingleCode(st, c); }
    hide Result;
  }

  /** The colours of the codes 30 to 37 and 90 to 97, and of 40 to 47 and 100 to 107. */
  lemma ColourLaw(st: Style, k: nat)
    requires k < 8
    ensures Result(st, [30 + k]).fg == Some(["#6e7681", "#f85149", "#3fb950", "#d29922", "#58a6ff", "#bc8cff", "#39c5cf", "#d1d5da"][k])
    ensures Result(st, [90 + k]).fg == Some(["#8b949e", "#ff7b72", "#56d364", "#e3b341", "#79c0ff", "#d2a8ff", "#56d4dd", "#f0f6fc"][k])
    ensures Result(st, [40 + k]).bg == Some(["#0d1117", "#f85149", "#3fb950", "#d29922", "#58a6ff", "#bc8cff", "#39c5cf", "#d1d5da"][k])
    ensures Result(st, [100 + k]).bg == Some(["#161b22", "#ff7b72", "#56d364", "#e3b341", "#79c0ff", "#d2a8ff", "#56d4dd", "#f0f6fc"][k])
  {
    SingleCode(st, 30 + k);
    SingleCode(st, 90 + k);
    SingleCode(st, 40 + k);
    SingleCode(st, 100 + k);
    hide Result;
  }

  /** They change nothing else, and the codes without a meaning nothing at all. */
  lemma OtherwiseKept(st: Style, c: int)
    ensures 30 <= c <= 37 || 90 <= c <= 97 ==> Result(st, [c]) == st.(fg := Result(st, [c]).fg)
    ensures 40 <= c <= 47 || 100 <= c <= 107 ==> Result(st, [c]) == st.(bg := Result(st, [c]).bg)
    ensures c !in {0, 1, 2, 3, 4, 22, 23, 24, 39, 49} && !(30 <= c <= 37) && !(40 <= c <= 47) && !(90 <= c <= 97) && !(100 <= c <= 107) ==>
      Result(st, [c]) == st
  {
    if c == 38 || c == 48 {
      ExtendedCutOff(st, c, 0, 0, 0, []);
    } else {
      SingleCode(st, c);
    }
    hide Result;
  }

  // ---------------------------------------------------------------- sequences

  /** The value of a parameter: 0 when empty, else as its digits say. */
  lemma ParameterLaw(n: nat, s: string)
    requires AllDigits(s)
    ensures AnsiHtml.Number("") == 0
    ensures AllDigits(Decimal(n)) && AnsiHtml.Number(Decimal(n)) == n
    ensures AllDigits("0" + s) && AnsiHtml.Number("0" + s) == AnsiHtml.Number(s)
  {
    NumberOfDecimal(n);
    LeadingZero(s);
  }

  lemma {:induction false} NumberOfDecimal(n: nat)
    ensures AllDigits(Decimal(n)) && AnsiHtml.Number(Decimal(n)) == n
  {
    DecimalDigits(n);
    var t := Decimal(n);
    forall i | 0 <= i < |t| ensures IsDigit(t[i]) { assert t[i] in t; }
    if n >= 10 {
      NumberOfDecimal(n / 10);
      assert t[..|t| - 1] == Decimal(n / 10);
    } else {
      assert t[..|t| - 1] == "";
    }
  }

  lemma {:induction false} LeadingZero(s: string)
    requires AllDigits(s)
    ensures AllDigits("0" + s) && AnsiHtml.Number("0" + s) == AnsiHtml.Number(s)
  {
    if s == "" {
      assert "0" + s == "0" && "0"[..0] == "";
    } else {
      LeadingZero(s[..|s| - 1]);
      assert ("0" + s)[..|s|] == "0" + s[..|s| - 1];
    }
  }

  ghost predicate Digits(parts: seq<string>) { parts != [] && forall p :: p in parts ==> AllDigits(p) }

  /** A sequence with these parameters. */
  function Sequence(parts: seq<string>): string { "\U{1B}[" + Join(parts, ";") + "m" }

  lemma {:induction false} SplitJoined(parts: seq<string>)
    requires parts != [] && forall p :: p in parts ==> ';' !in p
    ensures Split(Join(parts, ";"), ';') == parts
  {
    if |parts| == 1 {
      SplitWhole(parts[0]);
    } else {
      SplitJoined(parts[1..]);
      SplitFirst(parts[0], Join(parts[1..], ";"));
      assert parts == [parts[0]] + parts[1..];
    }
  }

  lemma {:induction false} SplitWhole(s: string)
    requires ';' !in s
    ensures Split(s, ';') == [s]
  {
    if s != "" {
      assert s == [s[0]] + s[1..];
      SplitWhole(s[1..]);
    }
  }

  lemma {:induction false} SplitFirst(s: string, rest: string)
    requires ';' !in s
    ensures Split(s + ";" + rest, ';') == [s] + Split(rest, ';')
  {
    var all := s + ";" + rest;
    if s == "" {
      assert all == ";" + rest && all[1..] == rest;
    } else {
      SplitFirst(s[1..], rest);
      assert s == [s[0]] + s[1..] && all[1..] == s[1..] + ";" + rest;
    }
  }

  lemma {:induction false} JoinedDigits(parts: seq<string>)
    requires Digits(parts)
    ensures forall c :: c in Join(parts, ";") ==> IsDigit(c) || c == ';'
  {
    forall c | c in parts[0] ensures IsDigit(c) { assert parts[0] in parts; }
    if |parts| > 1 { JoinedDigits(parts[1..]); }
  }

  /** The codes of a sequence are the values of its parameters, the parts between semicolons. */
  lemma SequenceLaw(parts: seq<string>)
    requires Digits(parts)
    ensures var codes := SgrCodes(Sequence(parts));
      codes.Some? && |codes.value| == |parts| && forall i :: 0 <= i < |parts| ==> codes.value[i] == AnsiHtml.Number(parts[i])
  {
    var (esc, params) := (Sequence(parts), Join(parts, ";"));
    forall p | p in parts ensures ';' !in p { }
    JoinedDigits(parts);
    SplitJoined(parts);
    assert esc[2..|esc| - 1] == params;
    assert "\U{1B}[" <= esc && esc[|esc| - 1] == 'm';
    forall i | 0 <= i < |params| ensures IsDigit(params[i]) || params[i] == ';' { assert params[i] in params; }
  }

  /** Every other sequence carries no codes. */
  lemma OtherSequences(esc: string)
    requires |esc| >= 2
    ensures SgrCodes(esc).Some? <==>
      |esc| >= 3 && esc[0] == '\U{1B}' && esc[1] == '[' && esc[|esc| - 1] == 'm' && forall i :: 2 <= i < |esc| - 1 ==> esc[i] in "0123456789;"
  {
    if "\U{1B}[" <= esc && esc[|esc| - 1] == 'm' {
      var params := esc[2..|esc| - 1];
      forall c: char ensures IsDigit(c) || c == ';' <==> c in "0123456789;" { }
      assert forall i :: 0 <= i < |params| ==> params[i] == esc[i + 2];
      assert forall i :: 2 <= i < |esc| - 1 ==> esc[i] == params[i - 2];
    }
  }

  /** The characters of the classes that the pattern for sequences is made of, by their codes. */
  lemma CharacterClasses(c: char)
    ensures IsParam(c) <==> c in "0123456789;?"
    ensures IsIntermediate(c) <==> 0x20 <= c as int <= 0x2f
    ensures IsFinal(c) <==> 0x40 <= c as int <= 0x7e
    ensures IsOscBody(c) <==> c as int != 7 && c as int != 27
    ensures IsTwoChar(c) <==> 0x40 <= c as int <= 0x5f && c != '['
  {
  }

  // ---------------------------------------------------------------- texts

  lemma MatchAt(text: string, k: nat)
    requires k <= |text|
    ensures Match(text, k) == match Match(text[k..], 0) case None => None case Some(end) => Some(k + end)
  {
    hide Skip;
    if k + 1 < |text| {
      if text[k + 1] == '[' {
        SkipShift(text, k, k + 2, IsParam);
        SkipShift(text, k, Skip(text, k + 2, IsParam), IsIntermediate);
      } else if text[k + 1] == ']' {
        SkipShift(text, k, k + 2, IsOscBody);
      }
    }
  }

  /** What is shown depends on the text from there on only. */
  lemma {:induction false} PaintedShift(text: string, k: nat, i: nat, st: Style)
    requires k <= i <= |text|
    ensures Painted(text, i, st) == Painted(text[k..], i - k, st)
    decreases |text| - i
  {
    hide Match, Recoloured;
    MatchAt(text, i);
    MatchAt(text[k..], i - k);
    assert text[k..][i - k..] == text[i..];
    if i < |text| {
      match Match(text, i)
      case None => PaintedShift(text, k, i + 1, st);
      case Some(end) =>
        assert text[i..end] == text[k..][i - k..end - k];
        PaintedShift(text, k, end, Recoloured(st, text[i..end]));
    }
  }

  lemma SequenceMatches(parts: seq<string>, rest: string)
    requires Digits(parts)
    ensures Match(Sequence(parts) + rest, 0) == Some(|Sequence(parts)|)
  {
    var (esc, params) := (Sequence(parts), Join(parts, ";"));
    var n := |esc| - 1;
    JoinedDigits(parts);
    forall k | 2 <= k < n ensures IsParam(esc[k]) { assert esc[k] == params[k - 2] && params[k - 2] in params; }
    assert CsiAt(esc, n);
    assert (esc + rest)[0..|esc|] == esc;
    CsiMatches(esc + rest, 0, |esc|);
  }

  /** A sequence restyles the text after it, by the values of its parameters. */
  lemma RestyledText(parts: seq<string>, rest: string, st: Style, codes: seq<int>)
    requires Digits(parts) && |codes| == |parts| && forall i :: 0 <= i < |parts| ==> codes[i] == AnsiHtml.Number(parts[i])
    ensures Painted(Sequence(parts) + rest, 0, st) == Painted(rest, 0, Result(st, codes))
  {
    var (esc, text) := (Sequence(parts), Sequence(parts) + rest);
    SequenceMatches(parts, rest);
    SequenceLaw(parts);
    assert SgrCodes(esc).value == codes;
    assert text[0..|esc|] == esc && text[|esc|..] == rest;
    hide Sequence, Match, SgrCodes, ApplyAll, Effective;
    PaintedShift(text, |esc|, |esc|, Result(st, codes));
  }

  /** Any character but ESC is shown in the style it stands in. */
  lemma ShownCharacter(c: char, rest: string, st: Style)
    requires c != ESC
    ensures Painted([c] + rest, 0, st) == [(c, st)] + Painted(rest, 0, st)
  {
    var text := [c] + rest;
    assert Match(text, 0).None?;
    PaintedNext(text, st);
    assert text[1..] == rest;
    hide Match, Painted, Recoloured;
    PaintedShift(text, 1, 1, st);
  }

  lemma PaintedNext(text: string, st: Style)
    requires text != "" && Match(text, 0).None?
    ensures Painted(text, 0, st) == [(text[0], st)] + Painted(text, 1, st)
  {
    hide Match;
  }

  /** The number of an indexed colour is not taken for a code: here, not for bold. */
  lemma IndexIsNoCode()
    ensures Painted("\U{1B}[38;5;1mX", 0, Plain) == [('X', Plain)]
  {
    var parts := ["38", "5", "1"];
    assert Sequence(parts) + "X" == "\U{1B}[38;5;1mX" by { assert parts[1..] == ["5", "1"] && parts[1..][1..] == ["1"]; }
    assert Decimal(38) == "38" by { assert Decimal(3) == "3"; }
    ParameterLaw(38, "");
    ParameterLaw(5, "");
    ParameterLaw(1, "");
    hide Sequence, Result, SgrCodes, AnsiHtml.Number;
    RestyledText(parts, "X", Plain, [38, 5, 1]);
    ExtendedLaw(Plain, 38, 1, 0, 0, 0, []);
    assert [38, 5, 1] + [] == [38, 5, 1];
    ShownCharacter('X', "", Plain);
    assert ['X'] + "" == "X";
    NoCodes(Plain);
  }

  lemma NoCodes(st: Style)
    ensures Result(st, []) == st && Painted("", 0, st) == []
  {
  }

  // ---------------------------------------------------------------- the span tag

  /** The style a tag gives its text: the declarations between the quotes, separated by semicolons. */
  function Said(tag: string): seq<string>
    requires |tag| >= 15
  {
    Split(tag[13..|tag| - 2], ';')
  }

  /** A style has a tag exactly when it shows. The tag sets the colour, that of bold text without one being bright white,
      the background and each attribute if and only if the style has them. */
  lemma TagLaw(st: Style)
    ensures Active(st) <==> st != Style(None, None, false, false, false, false)
    ensures Active(st) ==>
      && |SpanTag(st)| >= 15 && SpanTag(st)[..13] == "<span style=\"" && SpanTag(st)[|SpanTag(st)| - 2..] == "\">"
      && var said := Said(SpanTag(st));
        && (forall c :: "color:" + c in said <==> if st.fg.Some? then c == st.fg.value else st.bold && c == "#f0f6fc")
        && (forall c :: "background:" + c in said <==> st.bg.Some? && c == st.bg.value)
        && ("font-weight:bold" in said <==> st.bold) && ("opacity:.7" in said <==> st.dim)
        && ("font-style:italic" in said <==> st.italic) && ("text-decoration:underline" in said <==> st.underline)
  {
    if Active(st) {
      var (ds, tag) := (Declarations(st), SpanTag(st));
      assert tag[13..|tag| - 2] == Join(ds, ";");
      DeclarationsClean(st);
      SplitJoined(ds);
      Declared(st);
    }
  }

  lemma DeclarationsClean(st: Style)
    ensures forall d :: d in Declarations(st) ==> ';' !in d
  {
    hide Declarations;
    forall d | d in Declarations(st) ensures ';' !in d { DeclaresIff(st, d); }
  }

  ghost predicate Declares(st: Style, d: string) {
    || (st.fg.Some? && d == "color:" + st.fg.value)
    || (st.fg.None? && st.bold && d == "color:#f0f6fc")
    || (st.bg.Some? && d == "background:" + st.bg.value)
    || (st.bold && d == "font-weight:bold")
    || (st.dim && d == "opacity:.7")
    || (st.italic && d == "font-style:italic")
    || (st.underline && d == "text-decoration:underline")
  }

  lemma DeclaresIff(st: Style, d: string)
    ensures d in Declarations(st) <==> Declares(st, d)
  {
    var fg := if st.bold && st.fg.None? then Some("#f0f6fc") else st.fg;
    assert "color:" + "#f0f6fc" == "color:#f0f6fc";
    var (a, b) := (if fg.Some? then ["color:" + fg.value] else [], if st.bg.Some? then ["background:" + st.bg.value] else []);
    var (c, e) := (if st.bold then ["font-weight:bold"] else [], if st.dim then ["opacity:.7"] else []);
    var (f, g) := (if st.italic then ["font-style:italic"] else [], if st.underline then ["text-decoration:underline"] else []);
    assert Declarations(st) == a + b + c + e + f + g;
    assert d in Declarations(st) <==> d in a || d in b || d in c || d in e || d in f || d in g;
    hide Declarations;
  }

  lemma SamePrefix(p: string, a: string, b: string)
    ensures p + a == p + b <==> a == b
  {
    assert (p + a)[|p|..] == a && (p + b)[|p|..] == b;
  }

  lemma DeclaresColour(st: Style, c: string)
    ensures Declares(st, "color:" + c) <==> if st.fg.Some? then c == st.fg.value else st.bold && c == "#f0f6fc"
    ensures Declares(st, "background:" + c) <==> st.bg.Some? && c == st.bg.value
  {
    assert ("color:" + c)[0] == 'c' && ("background:" + c)[0] == 'b';
    if st.fg.Some? { SamePrefix("color:", c, st.fg.value); }
    SamePrefix("color:", c, "#f0f6fc");
    assert "color:" + "#f0f6fc" == "color:#f0f6fc";
    if st.bg.Some? { SamePrefix("background:", c, st.bg.value); }
  }

  lemma DeclaresFlags(st: Style)
    ensures (Declares(st, "font-weight:bold") <==> st.bold) && (Declares(st, "opacity:.7") <==> st.dim)
    ensures (Declares(st, "font-style:italic") <==> st.italic) && (Declares(st, "text-decoration:underline") <==> st.underline)
  {
    assert "font-weight:bold"[5] == 'w' && "font-style:italic"[5] == 's' && "opacity:.7"[0] == 'o' && "text-decoration:underline"[0] == 't';
    assert st.fg.Some? ==> ("color:" + st.fg.value)[0] == 'c';
    assert st.bg.Some? ==> ("background:" + st.bg.value)[0] == 'b';
  }

  lemma Declared(st: Style)
    ensures var said := Declarations(st);
      && (forall c :: "color:" + c in said <==> if st.fg.Some? then c == st.fg.value else st.bold && c == "#f0f6fc")
      && (forall c :: "background:" + c in said <==> st.bg.Some? && c == st.bg.value)
      && ("font-weight:bold" in said <==> st.bold) && ("opacity:.7" in said <==> st.dim)
      && ("font-style:italic" in said <==> st.italic) && ("text-decoration:underline" in said <==> st.underline)
  {
    hide Declarations, Declares;
    forall d ensures d in Declarations(st) <==> Declares(st, d) { DeclaresIff(st, d); }
    forall c
      ensures "color:" + c in Declarations(st) <==> if st.fg.Some? then c == st.fg.value else st.bold && c == "#f0f6fc"
      ensures "background:" + c in Declarations(st) <==> st.bg.Some? && c == st.bg.value
    {
      DeclaresColour(st, c);
    }
    DeclaresFlags(st);
  }
}
