/** ANSI to HTML (webpanel/app/ansi.py): the escape-sequence matcher, the SGR state machine and the renderer.
    Control sequences are those of ECMA-48 section 5.4, the attributes a subset of SGR, section 8.3.117. */
module Ansi {
  import opened Options

  const ESC := '\U{1B}'
  const BEL := '\U{07}'

  // ---------------------------------------------------------------- escape sequences

  predicate IsParam(c: char) { '0' <= c <= '9' || c == ';' || c == '?' }
  predicate IsIntermediate(c: char) { ' ' <= c <= '/' }
  predicate IsFinal(c: char) { '@' <= c <= '~' }
  predicate IsOscBody(c: char) { c != BEL && c != ESC }
  predicate IsTwoChar(c: char) { '@' <= c <= 'Z' || '\\' <= c <= '_' }

  ghost predicate All(s: string, lo: int, hi: int, p: char -> bool)
    requires 0 <= lo && hi <= |s|
  {
    forall k :: lo <= k < hi ==> p(s[k])
  }

  /** `ESC [ parameters intermediates final` */
  ghost predicate Csi(s: string) {
    exists i: int :: 2 <= i < |s| && CsiAt(s, i)
  }

  ghost predicate CsiAt(s: string, i: int)
    requires 2 <= i < |s|
  {
    s[0] == ESC && s[1] == '[' && All(s, 2, i, IsParam) && All(s, i, |s| - 1, IsIntermediate) && IsFinal(s[|s| - 1])
  }

  /** `ESC ] text` closed by BEL or by `ESC \` */
  ghost predicate Osc(s: string) {
    && |s| >= 3 && s[0] == ESC && s[1] == ']'
    && ((s[|s| - 1] == BEL && All(s, 2, |s| - 1, IsOscBody))
        || (|s| >= 4 && s[|s| - 2] == ESC && s[|s| - 1] == '\\' && All(s, 2, |s| - 2, IsOscBody)))
  }

  ghost predicate TwoChar(s: string) {
    |s| == 2 && s[0] == ESC && IsTwoChar(s[1])
  }

  /** The end of the longest run of `p` from `i` on. */
  function Skip(text: string, i: nat, p: char -> bool): (j: nat)
    requires i <= |text|
    ensures i <= j <= |text|
    ensures forall k :: i <= k < j ==> p(text[k])
    ensures j < |text| ==> !p(text[j])
    decreases |text| - i
  {
    if i < |text| && p(text[i]) then Skip(text, i + 1, p) else i
  }

  /** Where the escape sequence at `pos` ends, if one starts there. The three character classes of a control
      sequence are disjoint, so greedy runs never have to be given back. */
  function Match(text: string, pos: nat): (end: Option<nat>)
    requires pos <= |text|
    ensures end.Some? ==> pos + 2 <= end.value <= |text| && text[pos] == ESC
  {
    if pos + 1 >= |text| || text[pos] != ESC then None
    else if text[pos + 1] == '[' then
      var i := Skip(text, pos + 2, IsParam);
      var j := Skip(text, i, IsIntermediate);
      if j < |text| && IsFinal(text[j]) then Some(j + 1) else None
    else
      var j := if text[pos + 1] == ']' then Skip(text, pos + 2, IsOscBody) else |text|;
      if j < |text| && text[j] == BEL then Some(j + 1)
      else if j + 1 < |text| && text[j] == ESC && text[j + 1] == '\\' then Some(j + 2)
      else if IsTwoChar(text[pos + 1]) then Some(pos + 2) else None
  }

  lemma CsiMatches(text: string, pos: nat, end: nat)
    requires pos <= end <= |text| && Csi(text[pos..end])
    ensures Match(text, pos) == Some(end)
  {
    var s := text[pos..end];
    var i :| 2 <= i < |s| && CsiAt(s, i);
    forall k | pos <= k < end ensures text[k] == s[k - pos] { }
    var i' := Skip(text, pos + 2, IsParam);
    assert !IsParam(s[i]);
    assert i' == pos + i;
    var j' := Skip(text, i', IsIntermediate);
    assert !IsIntermediate(s[|s| - 1]);
    assert j' == end - 1;
  }

  lemma OscMatches(text: string, pos: nat, end: nat)
    requires pos <= end <= |text| && Osc(text[pos..end])
    ensures Match(text, pos) == Some(end)
  {
    var s := text[pos..end];
    forall k | pos <= k < end ensures text[k] == s[k - pos] { }
    var j := Skip(text, pos + 2, IsOscBody);
    if s[|s| - 1] == BEL && All(s, 2, |s| - 1, IsOscBody) {
      assert j == end - 1;
    } else {
      assert j == end - 2;
    }
  }

  ghost predicate SomeOsc(text: string, pos: nat)
    requires pos <= |text|
  {
    exists e :: pos <= e <= |text| && Osc(text[pos..e])
  }

  ghost predicate OscCloses(text: string, pos: nat)
    requires pos <= |text|
  {
    pos + 1 < |text| && text[pos] == ESC && text[pos + 1] == ']' &&
    var j := Skip(text, pos + 2, IsOscBody);
    j < |text| && (text[j] == BEL || (j + 1 < |text| && text[j] == ESC && text[j + 1] == '\\'))
  }

  lemma OscClosesExactly(text: string, pos: nat)
    requires pos <= |text|
    ensures SomeOsc(text, pos) <==> OscCloses(text, pos)
  {
    if e :| pos <= e <= |text| && Osc(text[pos..e]) {
      var s := text[pos..e];
      forall k | pos <= k < e ensures text[k] == s[k - pos] { }
    }
    if OscCloses(text, pos) {
      var j := Skip(text, pos + 2, IsOscBody);
      var e := if text[j] == BEL then j + 1 else j + 2;
      var s := text[pos..e];
      forall k | pos <= k < e ensures text[k] == s[k - pos] { }
      assert All(s, 2, j - pos, IsOscBody);
      assert Osc(s);
    }
  }

  lemma TakenIsSequence(text: string, pos: nat, end: nat)
    requires pos <= end <= |text| && Match(text, pos) == Some(end)
    ensures Csi(text[pos..end]) || Osc(text[pos..end]) || TwoChar(text[pos..end])
  {
    var s := text[pos..end];
    forall k | pos <= k < end ensures text[k] == s[k - pos] { }
    if text[pos + 1] == '[' {
      var i := Skip(text, pos + 2, IsParam);
      assert CsiAt(s, i - pos);
    } else if OscCloses(text, pos) {
      assert Osc(s);
    }
  }

  /** The matcher decides the regular expression: at most one control or title sequence starts at a position, and
      the two-character form is taken only where neither does. */
  lemma MatchIsExact(text: string, pos: nat, end: nat)
    requires pos <= end <= |text|
    ensures Match(text, pos) == Some(end) <==>
      var s := text[pos..end];
      Csi(s) || Osc(s) || (TwoChar(s) && !SomeOsc(text, pos))
  {
    var s := text[pos..end];
    OscClosesExactly(text, pos);
    if Csi(s) { CsiMatches(text, pos, end); }
    if Osc(s) { OscMatches(text, pos, end); }
    if TwoChar(s) { assert text[pos] == s[0] && text[pos + 1] == s[1]; }
    if Match(text, pos) == Some(end) {
      TakenIsSequence(text, pos, end);
      if e :| pos <= e <= |text| && Osc(text[pos..e]) { OscMatches(text, pos, e); }
    }
  }
}
