/** Rendering and stripping of ANSI text (webpanel/app/ansi.py `strip_ansi`, `ansi_to_html`), and what a strict
    reader of the produced markup sees. */
module AnsiHtml {
  import opened Options
  import opened Ansi
  import opened Sgr
  import opened Text

  // ---------------------------------------------------------------- the text, as the scanner divides it

  /** The text without its escape sequences. */
  function StripFrom(text: string, pos: nat): string
    requires pos <= |text|
    decreases |text| - pos
  {
    if pos == |text| then ""
    else match Match(text, pos)
      case Some(end) => StripFrom(text, end)
      case None => [text[pos]] + StripFrom(text, pos + 1)
  }

  function StripAnsi(text: string): string { StripFrom(text, 0) }

  predicate AllDigits(s: string) { forall i :: 0 <= i < |s| ==> IsDigit(s[i]) }

  function Number(digits: string): nat
    requires AllDigits(digits)
  {
    if digits == "" then 0 else Number(digits[..|digits| - 1]) * 10 + (digits[|digits| - 1] as int - '0' as int)
  }

  lemma {:induction false} SplitDigits(s: string)
    requires forall i :: 0 <= i < |s| ==> IsDigit(s[i]) || s[i] == ';'
    ensures forall k :: 0 <= k < |Split(s, ';')| ==> AllDigits(Split(s, ';')[k])
  {
    if s != "" {
      SplitDigits(s[1..]);
      var rest := Split(s[1..], ';');
      assert AllDigits(rest[0]);
    }
  }

  /** The codes of a colour sequence; None for every other escape sequence. Empty parameters count as 0. */
  function SgrCodes(seq_: string): Option<seq<int>> {
    if !("\U{1B}[" <= seq_ && seq_[|seq_| - 1] == 'm') then None
    else
      var params := seq_[2..|seq_| - 1];
      if exists i :: 0 <= i < |params| && !(IsDigit(params[i]) || params[i] == ';') then None
      else
        SplitDigits(params);
        var parts := Split(params, ';');
        Some(seq(|parts|, i requires 0 <= i < |parts| => Number(parts[i])))
  }

  function Recoloured(st: Style, esc: string): Style {
    match SgrCodes(esc)
    case None => st
    case Some(codes) => ApplyAll(st, Effective(codes))
  }

  /** Every visible character with the style all colour sequences before it add up to. */
  function Painted(text: string, pos: nat, st: Style): seq<(char, Style)>
    requires pos <= |text|
    decreases |text| - pos
  {
    if pos == |text| then []
    else match Match(text, pos)
      case Some(end) => Painted(text, end, Recoloured(st, text[pos..end]))
      case None => [(text[pos], st)] + Painted(text, pos + 1, st)
  }

  // ---------------------------------------------------------------- the markup

  function EscapeChar(c: char): string {
    match c
    case '&' => "&amp;"
    case '<' => "&lt;"
    case '>' => "&gt;"
    case '"' => "&quot;"
    case '\'' => "&#x27;"
    case _ => [c]
  }

  function Escape(s: string): string {
    if s == "" then "" else EscapeChar(s[0]) + Escape(s[1..])
  }

  const SPAN_END := "</span>"

  function Closing(st: Style): string { if Active(st) then SPAN_END else "" }
  function Opening(st: Style): string { if Active(st) then SpanTag(st) else "" }

  /** The markup still to come from `pos` on, in style `st`: each colour sequence closes the open span, if any,
      and opens one for the new style, if that shows. */
  function Markup(text: string, pos: nat, st: Style): string
    requires pos <= |text|
    decreases |text| - pos
  {
    if pos == |text| then Closing(st)
    else match Match(text, pos)
      case None => EscapeChar(text[pos]) + Markup(text, pos + 1, st)
      case Some(end) =>
        if SgrCodes(text[pos..end]).None? then Markup(text, end, st)
        else
          var st' := Recoloured(st, text[pos..end]);
          Closing(st) + (Opening(st') + Markup(text, end, st'))
  }

  /** The next escape sequence at or after `pos`. */
  method FindNext(text: string, pos: nat) returns (start: nat, end: Option<nat>)
    requires pos <= |text|
    ensures pos <= start <= |text|
    ensures forall k :: pos <= k < start ==> Match(text, k).None?
    ensures if start == |text| then end.None? else end.Some? && end == Match(text, start)
  {
    start := pos;
    while start < |text|
      invariant pos <= start <= |text|
      invariant forall k :: pos <= k < start ==> Match(text, k).None?
    {
      end := Match(text, start);
      if end.Some? { return; }
      start := start + 1;
    }
    end := None;
  }

  /** Handles one escape sequence: all but colour sequences are dropped without a trace. */
  method Recolour(state: State, esc: string, openSpan: bool) returns (tags: string, nowOpen: bool)
    requires openSpan == Active(state.View())
    modifies state
    ensures state.View() == Recoloured(old(state.View()), esc)
    ensures nowOpen == Active(state.View())
    ensures tags == if SgrCodes(esc).None? then "" else Closing(old(state.View())) + Opening(state.View())
  {
    tags, nowOpen := "", openSpan;
    var codes := SgrCodes(esc);
    if codes.None? { return; }
    if nowOpen { tags, nowOpen := SPAN_END, false; }
    state.Apply(codes.value);
    if Active(state.View()) { tags, nowOpen := tags + SpanTag(state.View()), true; }
  }

  method AnsiToHtml(text: string) returns (html: string)
    ensures html == Markup(text, 0, Plain)
  {
    if text == "" { return ""; }
    var state := new State();
    var openSpan, pos, tags := false, 0, "";
    html := "";
    var start, end := FindNext(text, pos);
    ghost var st := Plain;
    assert "" + Markup(text, 0, Plain) == Markup(text, 0, Plain);
    while end.Some?
      invariant pos <= start <= |text| && (forall k :: pos <= k < start ==> Match(text, k).None?)
      invariant if start == |text| then end.None? else end.Some? && end == Match(text, start)
      invariant state.View() == st && openSpan == Active(st) && fresh(state)
      invariant html + Markup(text, pos, st) == Markup(text, 0, Plain)
      decreases |text| - pos, if end.Some? then 1 else 0
    {
      ghost var st0 := st;
      ChunkMarkup(text, pos, start, st0);
      html := AppendKeeping(html, Escape(text[pos..start]), Markup(text, start, st0));
      tags, openSpan := Recolour(state, text[start..end.value], openSpan);
      st := state.View();
      pos := end.value;
      SequenceMarkup(text, start, pos, st0);
      html := AppendKeeping(html, tags, Markup(text, pos, st));
      start, end := FindNext(text, pos);
    }
    ChunkMarkup(text, pos, |text|, st);
    assert text[pos..|text|] == text[pos..];
    html := AppendKeeping(html, Escape(text[pos..]), Closing(st));
    if openSpan { html := html + SPAN_END; } else { assert html + "" == html; }
  }

  /** `out.append(piece)`; the ghost `rest` is what is still to come. */
  method AppendKeeping(out: string, piece: string, ghost rest: string) returns (r: string)
    ensures r == out + piece
    ensures r + rest == out + (piece + rest)
  {
    r := out + piece;
    assert r + rest == out + (piece + rest);
  }

  lemma SequenceCase(text: string, start: nat, end: nat, st: Style)
    requires start < |text| && Match(text, start) == Some(end)
    ensures var st' := Recoloured(st, text[start..end]);
      Markup(text, start, st) ==
        if SgrCodes(text[start..end]).None? then Markup(text, end, st) else Closing(st) + (Opening(st') + Markup(text, end, st'))
  {
  }

  lemma SequenceMarkup(text: string, start: nat, end: nat, st: Style)
    requires start < |text| && Match(text, start) == Some(end)
    ensures var st' := Recoloured(st, text[start..end]);
      Markup(text, start, st) ==
        (if SgrCodes(text[start..end]).None? then "" else Closing(st) + Opening(st')) + Markup(text, end, st')
  {
    hide Markup, Match, SgrCodes, Closing, Opening, ApplyAll;
    SequenceCase(text, start, end, st);
    var st' := Recoloured(st, text[start..end]);
    Associative(Closing(st), Opening(st'), Markup(text, end, st'));
    assert "" + Markup(text, end, st) == Markup(text, end, st);
  }

  lemma CharacterMarkup(text: string, pos: nat, st: Style)
    requires pos < |text| && Match(text, pos).None?
    ensures Markup(text, pos, st) == EscapeChar(text[pos]) + Markup(text, pos + 1, st)
  {
  }

  /** Between two escape sequences the markup is the escaped text. */
  lemma {:induction false} ChunkMarkup(text: string, pos: nat, start: nat, st: Style)
    requires pos <= start <= |text| && forall k :: pos <= k < start ==> Match(text, k).None?
    ensures Markup(text, pos, st) == Escape(text[pos..start]) + Markup(text, start, st)
    decreases start - pos
  {
    assert Escape("") == "";
    hide Markup, Match, Escape, EscapeChar;
    if pos == start {
      assert text[pos..start] == "";
      assert "" + Markup(text, start, st) == Markup(text, start, st);
    } else {
      ChunkMarkup(text, pos + 1, start, st);
      CharacterMarkup(text, pos, st);
      assert text[pos..start] == [text[pos]] + text[pos + 1..start];
      EscapeFirst(text[pos], text[pos + 1..start], Markup(text, start, st));
    }
  }

  lemma EscapeFirst(c: char, chunk: string, rest: string)
    ensures Escape([c] + chunk) + rest == EscapeChar(c) + (Escape(chunk) + rest)
  {
    assert ([c] + chunk)[1..] == chunk;
    Associative(EscapeChar(c), Escape(chunk), rest);
  }

  lemma Associative(a: string, b: string, c: string)
    ensures (a + b) + c == a + (b + c)
  {
  }

  // ---------------------------------------------------------------- a strict reader of the markup

  /** A character reference and its length. */
  function Entity(html: string): Option<(char, nat)> {
    if "&amp;" <= html then Some(('&', 5))
    else if "&lt;" <= html then Some(('<', 4))
    else if "&gt;" <= html then Some(('>', 4))
    else if "&quot;" <= html then Some(('"', 6))
    else if "&#x27;" <= html then Some(('\'', 6))
    else None
  }

  function FindGt(html: string): (n: nat)
    ensures n <= |html| && '>' !in html[..n]
    ensures n < |html| ==> html[n] == '>'
  {
    if html == "" || html[0] == '>' then 0
    else
      var n := FindGt(html[1..]) + 1;
      assert html[..n] == [html[0]] + html[1..][..n - 1];
      n
  }

  /** The characters shown, each with the span tag it stands in. A stray `<`, `>`, quote or ampersand, a span inside
      a span, a closing tag without a span and a span left open are all errors. */
  function Read(html: string, open: Option<string>): Option<seq<(char, Option<string>)>>
    decreases |html|
  {
    if html == "" then if open.None? then Some([]) else None
    else if html[0] == '<' then
      var n := FindGt(html);
      if n == |html| then None
      else if html[..n + 1] == SPAN_END && open.Some? then Read(html[n + 1..], None)
      else if TAG_OPEN <= html[..n + 1] && open.None? then Read(html[n + 1..], Some(html[..n + 1]))
      else None
    else if html[0] == '&' then
      match Entity(html)
      case None => None
      case Some((c, n)) => Shown(c, open, Read(html[n..], open))
    else if html[0] in ">\"'" then None
    else Shown(html[0], open, Read(html[1..], open))
  }

  function Shown(c: char, open: Option<string>, rest: Option<seq<(char, Option<string>)>>): Option<seq<(char, Option<string>)>> {
    if rest.Some? then Some([(c, open)] + rest.value) else None
  }

  /** The tag a style is rendered with. */
  function TagOf(st: Style): Option<string> { if Active(st) then Some(SpanTag(st)) else None }

  function Tagged(cs: seq<(char, Style)>): seq<(char, Option<string>)> {
    seq(|cs|, i requires 0 <= i < |cs| => (cs[i].0, TagOf(cs[i].1)))
  }

  lemma ReadCharacter(c: char, rest: string, open: Option<string>)
    ensures Read(EscapeChar(c) + rest, open) == Shown(c, open, Read(rest, open))
  {
    var e := EscapeChar(c);
    var html := e + rest;
    assert html[|e|..] == rest && html[0] == e[0];
    if c in "&<>\"'" {
      assert e <= html;
      assert html[1] == e[1];
      assert Entity(html) == Some((c, |e|));
    }
  }

  lemma ReadTag(tag: string, rest: string)
    requires tag != "" && tag[0] == '<' && tag[|tag| - 1] == '>' && '>' !in tag[..|tag| - 1]
    ensures var html := tag + rest; FindGt(html) == |tag| - 1 && html[..|tag|] == tag && html[|tag|..] == rest && html[0] == '<'
  {
    var html := tag + rest;
    assert html[..|tag| - 1] == tag[..|tag| - 1];
    FirstGt(html, |tag| - 1);
  }

  lemma {:induction false} FirstGt(html: string, k: nat)
    requires k < |html| && html[k] == '>' && '>' !in html[..k]
    ensures FindGt(html) == k
  {
    if k > 0 {
      assert html[0] in html[..k];
      assert html[..k] == [html[0]] + html[1..][..k - 1];
      FirstGt(html[1..], k - 1);
    }
  }

  lemma ReadClosing(st: Style, rest: string)
    ensures Read(Closing(st) + rest, TagOf(st)) == Read(rest, None)
  {
    if Active(st) {
      ReadTag(SPAN_END, rest);
    } else {
      assert Closing(st) + rest == rest;
    }
  }

  lemma ReadOpening(st: Style, rest: string)
    ensures Read(Opening(st) + rest, None) == Read(rest, TagOf(st))
  {
    if Active(st) {
      TagShape(st);
      var body :| SpanTag(st) == TAG_OPEN + body + TAG_CLOSE && '>' !in body;
      assert SpanTag(st)[..|SpanTag(st)| - 1] == TAG_OPEN + body + "\"";
      ReadTag(SpanTag(st), rest);
    } else {
      assert Opening(st) + rest == rest;
    }
  }

  lemma ReadPainted(c: char, st: Style, rest: string, painted: seq<(char, Style)>)
    requires Read(rest, TagOf(st)) == Some(Tagged(painted))
    ensures Read(EscapeChar(c) + rest, TagOf(st)) == Some(Tagged([(c, st)] + painted))
  {
    ReadCharacter(c, rest, TagOf(st));
    assert Tagged([(c, st)] + painted) == [(c, TagOf(st))] + Tagged(painted);
  }

  lemma ReadRecolouring(st: Style, st': Style, rest: string)
    ensures Read(Closing(st) + (Opening(st') + rest), TagOf(st)) == Read(rest, TagOf(st'))
  {
    ReadClosing(st, Opening(st') + rest);
    ReadOpening(st', rest);
  }

  /** The main result: read back strictly, the markup shows exactly the visible characters, in order, each in a
      span for the style of all colour sequences before it, or in none if that style does not show. */
  lemma {:induction false} MarkupShowsPainted(text: string, pos: nat, st: Style)
    requires pos <= |text|
    ensures Read(Markup(text, pos, st), TagOf(st)) == Some(Tagged(Painted(text, pos, st)))
    decreases |text| - pos
  {
    if pos == |text| {
      assert Closing(st) + "" == Closing(st);
      ReadClosing(st, "");
      assert Tagged([]) == [];
    } else {
      match Match(text, pos)
      case None =>
        MarkupShowsPainted(text, pos + 1, st);
        ReadPainted(text[pos], st, Markup(text, pos + 1, st), Painted(text, pos + 1, st));
      case Some(end) =>
        var st' := Recoloured(st, text[pos..end]);
        MarkupShowsPainted(text, end, st');
        if SgrCodes(text[pos..end]).Some? { ReadRecolouring(st, st', Markup(text, end, st')); }
    }
  }

  /** Deleting the tags and undoing the escapes gives the stripped text: no character is lost, added or moved. */
  lemma {:induction false} PaintedIsStripped(text: string, pos: nat, st: Style)
    requires pos <= |text|
    ensures |Painted(text, pos, st)| == |StripFrom(text, pos)|
    ensures forall i :: 0 <= i < |StripFrom(text, pos)| ==> Painted(text, pos, st)[i].0 == StripFrom(text, pos)[i]
    decreases |text| - pos
  {
    if pos < |text| {
      match Match(text, pos)
      case None => PaintedIsStripped(text, pos + 1, st);
      case Some(end) => PaintedIsStripped(text, end, Recoloured(st, text[pos..end]));
    }
  }

  // ---------------------------------------------------------------- stripping

  lemma {:induction false} StripShrinks(text: string, pos: nat)
    requires pos <= |text|
    ensures |StripFrom(text, pos)| <= |text| - pos
    ensures StripFrom(text, pos) == text[pos..] <==> forall k :: pos <= k < |text| ==> Match(text, k).None?
    decreases |text| - pos
  {
    if pos < |text| {
      match Match(text, pos)
      case None =>
        StripShrinks(text, pos + 1);
        assert text[pos..] == [text[pos]] + text[pos + 1..];
        assert StripFrom(text, pos)[1..] == StripFrom(text, pos + 1);
      case Some(end) => StripShrinks(text, end);
    }
  }

  /** Stripping changes a text exactly when an escape sequence occurs somewhere in it. */
  lemma StripKeepsExactlyCleanText(text: string)
    ensures StripAnsi(text) == text <==> forall k :: 0 <= k < |text| ==> Match(text, k).None?
  {
    StripShrinks(text, 0);
    assert text[0..] == text;
  }

  /** The first position from `pos` on that the scanner shows, or the length. */
  function NextShown(text: string, pos: nat): (k: nat)
    requires pos <= |text|
    ensures pos <= k <= |text|
    decreases |text| - pos
  {
    if pos == |text| then pos
    else match Match(text, pos)
      case Some(end) => NextShown(text, end)
      case None => pos
  }

  /** The scanner, started at `pos`, shows the character at `i`. */
  predicate Visible(text: string, pos: nat, i: nat)
    requires pos <= |text|
    ensures Visible(text, pos, i) ==> pos <= i < |text|
    decreases |text| - pos
  {
    var k := NextShown(text, pos);
    k < |text| && (i == k || Visible(text, k + 1, i))
  }

  /** The end of the longest run of `p` from `pos` on among the characters shown. */
  function SkipShown(text: string, pos: nat, p: char -> bool): (j: nat)
    requires pos <= |text|
    ensures pos <= j <= |text|
    decreases |text| - pos
  {
    var k := NextShown(text, pos);
    if k < |text| && p(text[k]) then SkipShown(text, k + 1, p) else k
  }

  /** An ESC after which the shown characters go on like an escape sequence. */
  predicate Straddled(text: string, i: nat)
    requires i < |text|
  {
    var k := NextShown(text, i + 1);
    text[i] == ESC && k < |text| &&
    (IsTwoChar(text[k]) ||
     (text[k] == '[' &&
      var j := SkipShown(text, SkipShown(text, k + 1, IsParam), IsIntermediate);
      j < |text| && IsFinal(text[j])))
  }

  lemma {:induction false} SkipShift(text: string, a: nat, i: nat, p: char -> bool)
    requires a <= i <= |text|
    ensures Skip(text[a..], i - a, p) == Skip(text, i, p) - a
    decreases |text| - i
  {
    if i < |text| && p(text[i]) { SkipShift(text, a, i + 1, p); }
  }

  /** Whether a sequence starts at a position depends on the text from there on only. */
  lemma MatchShift(text: string, k: nat)
    requires k <= |text|
    ensures Match(text, k).None? <==> Match(text[k..], 0).None?
  {
    if k + 1 < |text| {
      var i := Skip(text, k + 2, IsParam);
      SkipShift(text, k, k + 2, IsParam);
      SkipShift(text, k, i, IsIntermediate);
    }
  }

  lemma {:induction false} ShownFirst(text: string, pos: nat)
    requires pos <= |text|
    ensures var k := NextShown(text, pos);
      && (k < |text| ==> Match(text, k).None?)
      && StripFrom(text, pos) == StripFrom(text, k)
    decreases |text| - pos
  {
    if pos < |text| && Match(text, pos).Some? { ShownFirst(text, Match(text, pos).value); }
  }

  lemma HeadStays(text: string, i: nat)
    requires i < |text| && Match(text, i).None?
    ensures StripFrom(text, i) == [text[i]] + StripFrom(text, i + 1)
  {
  }

  lemma NothingAfterEnd(text: string)
    ensures StripFrom(text, |text|) == ""
  {
  }

  lemma {:induction false} SkipStripped(text: string, pos: nat, p: char -> bool)
    requires pos <= |text|
    ensures var s := StripFrom(text, pos); s[Skip(s, 0, p)..] == StripFrom(text, SkipShown(text, pos, p))
    decreases |text| - pos
  {
    hide StripFrom, Match, NextShown;
    var (s, k) := (StripFrom(text, pos), NextShown(text, pos));
    ShownFirst(text, pos);
    if k < |text| { HeadStays(text, k); } else { NothingAfterEnd(text); }
    if k < |text| && p(text[k]) {
      SkipStripped(text, k + 1, p);
      SkipShift(s, 1, 1, p);
      assert s[1..] == StripFrom(text, k + 1);
      assert Skip(s, 0, p) == Skip(s, 1, p);
    } else {
      assert Skip(s, 0, p) == 0;
    }
  }

  /** Parameters, intermediates and a final character at the head of a text. */
  predicate ClosesCsi(s: string) {
    var j := Skip(s, Skip(s, 0, IsParam), IsIntermediate);
    j < |s| && IsFinal(s[j])
  }

  lemma MatchesByHead(s: string)
    ensures Match(s, 0).Some? <==>
      |s| >= 2 && s[0] == ESC && (IsTwoChar(s[1]) || (s[1] == '[' && ClosesCsi(s[2..])))
  {
    if |s| >= 2 {
      SkipShift(s, 2, 2, IsParam);
      SkipShift(s, 2, Skip(s, 2, IsParam), IsIntermediate);
    }
  }

  lemma ClosesShown(text: string, pos: nat)
    requires pos <= |text|
    ensures ClosesCsi(StripFrom(text, pos)) <==>
      var j := SkipShown(text, SkipShown(text, pos, IsParam), IsIntermediate); j < |text| && IsFinal(text[j])
  {
    hide Match, StripFrom, NextShown, Skip, SkipShown;
    var (s, k) := (StripFrom(text, pos), SkipShown(text, pos, IsParam));
    var i := Skip(s, 0, IsParam);
    SkipStripped(text, pos, IsParam);
    SkipShift(s, i, i, IsIntermediate);
    SkipStripped(text, k, IsIntermediate);
    var (j, l) := (Skip(s, i, IsIntermediate), SkipShown(text, k, IsIntermediate));
    assert s[j..] == s[i..][j - i..] == StripFrom(text, l);
    SkipEndsShown(text, k, IsIntermediate);
    if l < |text| {
      HeadStays(text, l);
      assert s[j] == s[j..][0] == text[l];
    } else {
      NothingAfterEnd(text);
    }
  }

  lemma {:induction false} SkipEndsShown(text: string, pos: nat, p: char -> bool)
    requires pos <= |text|
    ensures var l := SkipShown(text, pos, p); l < |text| ==> Match(text, l).None?
    decreases |text| - pos
  {
    hide StripFrom, Match, NextShown;
    var k := NextShown(text, pos);
    ShownFirst(text, pos);
    if k < |text| && p(text[k]) { SkipEndsShown(text, k + 1, p); }
  }

  lemma HeadMatches(text: string, i: nat)
    requires i < |text| && Match(text, i).None?
    ensures Match(StripFrom(text, i), 0).Some? <==> Straddled(text, i)
  {
    hide Match, StripFrom, NextShown, Skip, SkipShown, ClosesCsi;
    var (t, k) := (StripFrom(text, i + 1), NextShown(text, i + 1));
    HeadStays(text, i);
    var s := [text[i]] + t;
    MatchesByHead(s);
    ShownFirst(text, i + 1);
    if k < |text| {
      HeadStays(text, k);
      assert s[1] == text[k] && s[2..] == t[1..] == StripFrom(text, k + 1);
      ClosesShown(text, k + 1);
    } else {
      NothingAfterEnd(text);
    }
  }

  ghost predicate NoneStraddled(text: string, pos: nat)
    requires pos <= |text|
  {
    forall i :: Visible(text, pos, i) ==> !Straddled(text, i)
  }

  ghost predicate Clean(text: string) { forall k :: 0 <= k < |text| ==> Match(text, k).None? }

  lemma CleanTail(s: string)
    requires s != ""
    ensures Clean(s) <==> Match(s, 0).None? && Clean(s[1..])
  {
    forall k | 1 <= k < |s| ensures Match(s, k).None? <==> Match(s[1..], k - 1).None? {
      MatchShift(s, k);
      MatchShift(s[1..], k - 1);
      assert s[1..][k - 1..] == s[k..];
    }
    if Clean(s[1..]) && Match(s, 0).None? {
      forall k | 0 <= k < |s| ensures Match(s, k).None? { if k > 0 { assert Match(s[1..], k - 1).None?; } }
    }
    if Clean(s) { forall k | 0 <= k < |s[1..]| ensures Match(s[1..], k).None? { assert Match(s, k + 1).None?; } }
  }

  lemma {:induction false} CleanIff(text: string, pos: nat)
    requires pos <= |text|
    ensures Clean(StripFrom(text, pos)) <==> NoneStraddled(text, pos)
    decreases |text| - pos
  {
    hide StripFrom, Match, NextShown, Straddled;
    var (s, k) := (StripFrom(text, pos), NextShown(text, pos));
    ShownFirst(text, pos);
    if k == |text| {
      NothingAfterEnd(text);
    } else {
      HeadStays(text, k);
      CleanTail(s);
      assert s[1..] == StripFrom(text, k + 1);
      CleanIff(text, k + 1);
      HeadMatches(text, k);
      assert Visible(text, pos, k);
      if NoneStraddled(text, pos) { assert NoneStraddled(text, k + 1); }
    }
  }

  /** Stripping is idempotent on exactly the texts in which no ESC that stays goes on, sequences aside, like a
      sequence: only then can taking one out bring the two halves of another together. */
  lemma StripTwiceIsOnceIff(text: string)
    ensures StripAnsi(StripAnsi(text)) == StripAnsi(text) <==>
      forall i :: Visible(text, 0, i) ==> !Straddled(text, i)
  {
    StripKeepsExactlyCleanText(StripAnsi(text));
    CleanIff(text, 0);
    assert Clean(StripAnsi(text)) <==> StripAnsi(StripAnsi(text)) == StripAnsi(text);
  }

  /** It is when every ESC of the text belongs to a sequence. */
  lemma StripTwiceIsOnce(text: string)
    requires forall i: nat :: Visible(text, 0, i) ==> text[i] != ESC
    ensures StripAnsi(StripAnsi(text)) == StripAnsi(text)
  {
    StripTwiceIsOnceIff(text);
  }

  /** The failure at a concrete text: a sequence inside the two halves of another. */
  lemma StripCanLeaveASequence()
    ensures StripAnsi("\U{1B}\U{1B}[m[m") == "\U{1B}[m" && StripAnsi("\U{1B}[m") == ""
  {
    var inner := "\U{1B}[m";
    var text := "\U{1B}" + inner + "[m";
    assert text == "\U{1B}\U{1B}[m[m";
    assert Match(text, 0).None?;
    assert Skip(text, 3, IsParam) == 3 && Skip(text, 3, IsIntermediate) == 3;
    assert Match(text, 1) == Some(4);
    assert Match(text, 4).None? && Match(text, 5).None?;
    assert StripFrom(text, 5) == "m" by { assert StripFrom(text, 6) == ""; }
    assert StripFrom(text, 4) == "[m";
    assert StripFrom(text, 1) == "[m";
    assert StripAnsi(text) == [text[0]] + StripFrom(text, 1) == inner;
    assert Skip(inner, 2, IsParam) == 2 && Skip(inner, 2, IsIntermediate) == 2;
    assert Match(inner, 0) == Some(3);
  }
}
