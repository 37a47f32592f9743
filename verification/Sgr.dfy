/** The SGR attribute state of webpanel/app/ansi.py (`_State`): codes update it in place, a span tag shows it. */
module Sgr {
  import opened Options

  /** A palette value: non-empty, and safe inside a tag. */
  type Colour = c: string | c != "" && '>' !in c && ';' !in c witness "#000000"

  datatype Style = Style(fg: Option<Colour>, bg: Option<Colour>, bold: bool, dim: bool, italic: bool, underline: bool)

  const Plain := Style(None, None, false, false, false, false)

  const NORMAL: seq<Colour> :=
    ["#6e7681", "#f85149", "#3fb950", "#d29922", "#58a6ff", "#bc8cff", "#39c5cf", "#d1d5da"]
  const BRIGHT: seq<Colour> :=
    ["#8b949e", "#ff7b72", "#56d364", "#e3b341", "#79c0ff", "#d2a8ff", "#56d4dd", "#f0f6fc"]
  const DARK: Colour := "#0d1117"
  const DARK_BRIGHT: Colour := "#161b22"

  /** The two palettes agree but for black, which is darker as a background. */
  function Foreground(c: int): Option<Colour> {
    if 30 <= c <= 37 then Some(NORMAL[c - 30])
    else if 90 <= c <= 97 then Some(BRIGHT[c - 90])
    else None
  }

  function Background(c: int): Option<Colour> {
    if c == 40 then Some(DARK)
    else if c == 100 then Some(DARK_BRIGHT)
    else if 41 <= c <= 47 then Some(NORMAL[c - 40])
    else if 101 <= c <= 107 then Some(BRIGHT[c - 100])
    else None
  }

  predicate Active(st: Style) {
    st.fg.Some? || st.bg.Some? || st.bold || st.dim || st.italic || st.underline
  }

  /** The effect of one code that takes no parameters. */
  function ApplyOne(st: Style, c: int): Style {
    if c == 0 then Plain
    else if c == 1 then st.(bold := true)
    else if c == 2 then st.(dim := true)
    else if c == 3 then st.(italic := true)
    else if c == 4 then st.(underline := true)
    else if c == 22 then st.(bold := false, dim := false)
    else if c == 23 then st.(italic := false)
    else if c == 24 then st.(underline := false)
    else if Foreground(c).Some? then st.(fg := Foreground(c))
    else if Background(c).Some? then st.(bg := Background(c))
    else if c == 39 then st.(fg := None)
    else if c == 49 then st.(bg := None)
    else st
  }

  /** How many codes an extended colour takes up: itself, the colour space, one index or three components. */
  function ExtendedLength(codes: seq<int>): (n: nat)
    requires codes != []
    ensures n >= 1
  {
    if IsExtended(codes[0]) && |codes| > 1 then
      if codes[1] == 5 then 3 else if codes[1] == 2 then 5 else 1
    else 1
  }

  predicate IsExtended(c: int) { c == 38 || c == 48 }

  /** What is left after the first code, with its parameters if it is an extended colour. */
  function After(codes: seq<int>): (r: seq<int>)
    requires codes != []
    ensures |r| < |codes|
  {
    if ExtendedLength(codes) < |codes| then codes[ExtendedLength(codes)..] else []
  }

  /** The codes that remain when extended colours are taken out with their parameters, cut off ones included. */
  function Effective(codes: seq<int>): seq<int>
    decreases |codes|
  {
    if codes == [] then []
    else if IsExtended(codes[0]) then Effective(After(codes))
    else [codes[0]] + Effective(After(codes))
  }

  function Fold<S>(f: (S, int) -> S, s: S, codes: seq<int>): S {
    if codes == [] then s else f(Fold(f, s, codes[..|codes| - 1]), codes[|codes| - 1])
  }

  function ApplyAll(st: Style, codes: seq<int>): Style { Fold(ApplyOne, st, codes) }

  class State {
    var fg: Option<Colour>
    var bg: Option<Colour>
    var bold: bool
    var dim: bool
    var italic: bool
    var underline: bool

    function View(): Style reads this { Style(fg, bg, bold, dim, italic, underline) }

    constructor ()
      ensures View() == Plain
    {
      fg, bg := None, None;
      bold, dim, italic, underline := false, false, false, false;
    }

    method Reset()
      modifies this
      ensures View() == Plain
    {
      fg, bg := None, None;
      bold, dim, italic, underline := false, false, false, false;
    }

    method ApplyCode(c: int)
      modifies this
      ensures View() == ApplyOne(old(View()), c)
    {
      if c == 0 {
        Reset();
      } else if c == 1 {
        bold := true;
      } else if c == 2 {
        dim := true;
      } else if c == 3 {
        italic := true;
      } else if c == 4 {
        underline := true;
      } else if c == 22 {
        bold, dim := false, false;
      } else if c == 23 {
        italic := false;
      } else if c == 24 {
        underline := false;
      } else if Foreground(c).Some? {
        fg := Foreground(c);
      } else if Background(c).Some? {
        bg := Background(c);
      } else if c == 39 {
        fg := None;
      } else if c == 49 {
        bg := None;
      }
    }

    /** The index-driven scan. */
    method Apply(codes: seq<int>)
      modifies this
      ensures View() == ApplyAll(old(View()), Effective(codes))
    {
      var i := 0;
      ghost var start := View();
      assert Suffix(codes, 0) == codes;
      while i < |codes|
        invariant 0 <= i
        invariant Scan(ApplyOne, View(), Suffix(codes, i)) == Scan(ApplyOne, start, codes)
        decreases |codes| - i
      {
        SuffixAfter(codes, i);
        var c := codes[i];
        if IsExtended(c) {
          if i + 1 < |codes| && codes[i + 1] == 5 {
            i := i + 2;
          } else if i + 1 < |codes| && codes[i + 1] == 2 {
            i := i + 4;
          }
        } else {
          ApplyCode(c);
        }
        i := i + 1;
      }
      ScanFoldsEffective(ApplyOne, start, codes);
    }
  }

  ghost function Suffix(codes: seq<int>, i: nat): seq<int> {
    if i < |codes| then codes[i..] else []
  }

  /** The scan of the codes still ahead, for any effect `f` of a single code. */
  ghost function Scan<S>(f: (S, int) -> S, s: S, codes: seq<int>): S
    decreases |codes|
  {
    if codes == [] then s
    else Scan(f, if IsExtended(codes[0]) then s else f(s, codes[0]), After(codes))
  }

  lemma SuffixAfter(codes: seq<int>, i: nat)
    requires i < |codes|
    ensures After(Suffix(codes, i)) == Suffix(codes, i + ExtendedLength(codes[i..]))
  {
    var n := ExtendedLength(codes[i..]);
    if i + n < |codes| { assert codes[i..][n..] == codes[i + n..]; }
  }

  /** Scanning means applying the effective codes in order. */
  lemma {:induction false} ScanFoldsEffective<S>(f: (S, int) -> S, s: S, codes: seq<int>)
    ensures Scan(f, s, codes) == Fold(f, s, Effective(codes))
    decreases |codes|
  {
    if codes != [] {
      var rest := After(codes);
      if IsExtended(codes[0]) {
        ScanFoldsEffective(f, s, rest);
      } else {
        ScanFoldsEffective(f, f(s, codes[0]), rest);
        FoldFirst(f, s, codes[0], Effective(rest));
      }
    }
  }

  lemma {:induction false} FoldFirst<S>(f: (S, int) -> S, s: S, c: int, codes: seq<int>)
    ensures Fold(f, s, [c] + codes) == Fold(f, f(s, c), codes)
  {
    if codes == [] {
      assert [c] + codes == [c] && [c][..0] == [];
    } else {
      FoldFirst(f, s, c, codes[..|codes| - 1]);
      assert ([c] + codes)[..|codes|] == [c] + codes[..|codes| - 1];
    }
  }

  // ---------------------------------------------------------------- what a code sequence leaves behind

  /** The last code of `codes` with the given property. */
  function Last(codes: seq<int>, p: int -> bool): Option<int> {
    if codes == [] then None
    else if p(codes[|codes| - 1]) then Some(codes[|codes| - 1])
    else Last(codes[..|codes| - 1], p)
  }

  predicate SpeaksOfBold(c: int) { c == 0 || c == 1 || c == 22 }
  predicate SpeaksOfDim(c: int) { c == 0 || c == 2 || c == 22 }
  predicate SpeaksOfItalic(c: int) { c == 0 || c == 3 || c == 23 }
  predicate SpeaksOfUnderline(c: int) { c == 0 || c == 4 || c == 24 }
  predicate SpeaksOfForeground(c: int) { c == 0 || c == 39 || Foreground(c).Some? }
  predicate SpeaksOfBackground(c: int) { c == 0 || c == 49 || Background(c).Some? }

  // Each attribute is decided by the last effective code that speaks of it, and by the old state if none does.

  lemma {:induction false} FlagsDecided(st: Style, codes: seq<int>)
    ensures ApplyAll(st, codes).bold == match Last(codes, SpeaksOfBold) case None => st.bold case Some(c) => c == 1
    ensures ApplyAll(st, codes).dim == match Last(codes, SpeaksOfDim) case None => st.dim case Some(c) => c == 2
    ensures ApplyAll(st, codes).italic == match Last(codes, SpeaksOfItalic) case None => st.italic case Some(c) => c == 3
    ensures ApplyAll(st, codes).underline == match Last(codes, SpeaksOfUnderline) case None => st.underline case Some(c) => c == 4
  {
    hide ApplyAll, Last, Foreground, Background;
    Decides(st, codes, (s: Style) => s.bold, SpeaksOfBold, c => c == 1);
    Decides(st, codes, (s: Style) => s.dim, SpeaksOfDim, c => c == 2);
    Decides(st, codes, (s: Style) => s.italic, SpeaksOfItalic, c => c == 3);
    Decides(st, codes, (s: Style) => s.underline, SpeaksOfUnderline, c => c == 4);
  }

  lemma {:induction false} ColoursDecided(st: Style, codes: seq<int>)
    ensures ApplyAll(st, codes).fg == match Last(codes, SpeaksOfForeground) case None => st.fg case Some(c) => Foreground(c)
    ensures ApplyAll(st, codes).bg == match Last(codes, SpeaksOfBackground) case None => st.bg case Some(c) => Background(c)
  {
    hide ApplyAll, Last;
    Decides(st, codes, (s: Style) => s.fg, SpeaksOfForeground, Foreground);
    Decides(st, codes, (s: Style) => s.bg, SpeaksOfBackground, Background);
  }

  lemma {:induction false} Decides<T(!new)>(st: Style, codes: seq<int>, get: Style -> T, speaks: int -> bool, value: int -> T)
    requires forall s, c :: get(ApplyOne(s, c)) == if speaks(c) then value(c) else get(s)
    ensures match Last(codes, speaks)
            case None => get(ApplyAll(st, codes)) == get(st)
            case Some(c) => get(ApplyAll(st, codes)) == value(c)
  {
    if codes != [] {
      Decides(st, codes[..|codes| - 1], get, speaks, value);
    }
  }

  // ---------------------------------------------------------------- the span tag

  const TAG_OPEN := "<span style=\""
  const TAG_CLOSE := "\">"

  function Join(parts: seq<string>, sep: string): string {
    if parts == [] then "" else if |parts| == 1 then parts[0] else parts[0] + sep + Join(parts[1..], sep)
  }

  /** Bold without a colour of its own reads as bright white. */
  function Declarations(st: Style): seq<string> {
    var fg := if st.bold && st.fg.None? then Some("#f0f6fc") else st.fg;
    (if fg.Some? then ["color:" + fg.value] else [])
    + (if st.bg.Some? then ["background:" + st.bg.value] else [])
    + (if st.bold then ["font-weight:bold"] else [])
    + (if st.dim then ["opacity:.7"] else [])
    + (if st.italic then ["font-style:italic"] else [])
    + (if st.underline then ["text-decoration:underline"] else [])
  }

  function SpanTag(st: Style): string {
    TAG_OPEN + Join(Declarations(st), ";") + TAG_CLOSE
  }

  lemma {:induction false} JoinAvoids(parts: seq<string>, sep: string, c: char)
    requires c !in sep && forall p :: p in parts ==> c !in p
    ensures c !in Join(parts, sep)
  {
    if |parts| > 1 {
      JoinAvoids(parts[1..], sep, c);
    }
  }

  lemma DeclarationsAvoidGt(st: Style, p: string)
    requires p in Declarations(st)
    ensures '>' !in p
  {
    if st.fg.Some? { AvoidsConcat("color:", st.fg.value); }
    AvoidsConcat("color:", "#f0f6fc");
    if st.bg.Some? { AvoidsConcat("background:", st.bg.value); }
  }

  lemma AvoidsConcat(a: string, b: string)
    requires '>' !in a && '>' !in b
    ensures '>' !in a + b
  {
  }

  /** A tag ends at its first `>`. */
  lemma TagShape(st: Style)
    ensures TAG_OPEN <= SpanTag(st)
    ensures exists body :: SpanTag(st) == TAG_OPEN + body + TAG_CLOSE && '>' !in body
  {
    var body := Join(Declarations(st), ";");
    forall p | p in Declarations(st) ensures '>' !in p { DeclarationsAvoidGt(st, p); }
    JoinAvoids(Declarations(st), ";", '>');
    assert SpanTag(st) == TAG_OPEN + body + TAG_CLOSE;
  }
}
