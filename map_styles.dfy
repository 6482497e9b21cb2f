/**
 * Colour choices for the map's markers and circles (frontend/src/utils/mapStyles.ts).
 * The computed-style read of a CSS custom property is passed in as `lookup`.
 */
module MapStyles {
  import opened Wrappers

  /** `getComputedStyle(document.documentElement).getPropertyValue`: property name to raw value. */
  type StyleLookup = string -> string

  /** The characters `String.prototype.trim` strips: white space and line terminators. */
  predicate IsWhitespace(c: char)
  {
    || c == '\t' || c == '\n' || c == '\U{000B}' || c == '\U{000C}' || c == '\r' || c == ' '
    || c == '\U{00A0}' || c == '\U{1680}' || ('\U{2000}' <= c <= '\U{200A}')
    || c == '\U{2028}' || c == '\U{2029}' || c == '\U{202F}' || c == '\U{205F}'
    || c == '\U{3000}' || c == '\U{FEFF}'
  }

  predicate AllWhitespace(s: string)
  {
    forall k :: 0 <= k < |s| ==> IsWhitespace(s[k])
  }

  /** `s` neither starts nor ends with white space. */
  predicate Trimmed(s: string)
  {
    s == [] || (!IsWhitespace(s[0]) && !IsWhitespace(s[|s| - 1]))
  }

  /** `s` without its leading white space. */
  function TrimStart(s: string): (r: string)
    ensures |r| <= |s| && r == s[|s| - |r|..]
    ensures AllWhitespace(s[..|s| - |r|])
    ensures r == [] || !IsWhitespace(r[0])
    decreases |s|
  {
    if s != [] && IsWhitespace(s[0]) then
      var r := TrimStart(s[1..]);
      assert s[..|s| - |r|] == [s[0]] + s[1..][..|s| - 1 - |r|];
      r
    else
      s
  }

  /** `s` without its trailing white space. */
  function TrimEnd(s: string): (r: string)
    ensures |r| <= |s| && r == s[..|r|]
    ensures AllWhitespace(s[|r|..])
    ensures r == [] || !IsWhitespace(r[|r| - 1])
    decreases |s|
  {
    if s != [] && IsWhitespace(s[|s| - 1]) then
      var r := TrimEnd(s[..|s| - 1]);
      assert s[|r|..] == s[..|s| - 1][|r|..] + [s[|s| - 1]];
      r
    else
      s
  }

  /** `t` is `s` after dropping its leading white space, as `TrimStart` promises. */
  predicate LeadingStripped(s: string, t: string)
  {
    |t| <= |s| && t == s[|s| - |t|..] && AllWhitespace(s[..|s| - |t|]) && (t == [] || !IsWhitespace(t[0]))
  }

  /** `r` is `t` after dropping its trailing white space, as `TrimEnd` promises. */
  predicate TrailingStripped(t: string, r: string)
  {
    |r| <= |t| && r == t[..|r|] && AllWhitespace(t[|r|..]) && (r == [] || !IsWhitespace(r[|r| - 1]))
  }

  /** `String.prototype.trim`: the part of `s` between its leading and trailing white space. */
  function Trim(s: string): (r: string)
    ensures exists i, j :: 0 <= i <= j <= |s| && r == s[i..j] && AllWhitespace(s[..i]) && AllWhitespace(s[j..])
    ensures Trimmed(r)
    ensures r == [] <==> AllWhitespace(s)
    ensures Trimmed(s) ==> r == s
  {
    var t := TrimStart(s);
    var r := TrimEnd(t);
    TrimSplits(s, t, r);
    r
  }

  /** Stripping both ends cuts `s` into leading white space, a trimmed middle and trailing white space. */
  lemma TrimSplits(s: string, t: string, r: string)
    requires LeadingStripped(s, t) && TrailingStripped(t, r)
    ensures exists i, j :: 0 <= i <= j <= |s| && r == s[i..j] && AllWhitespace(s[..i]) && AllWhitespace(s[j..])
    ensures Trimmed(r)
    ensures r == [] <==> AllWhitespace(s)
    ensures Trimmed(s) ==> r == s
  {
    var i := |s| - |t|;
    var j := i + |r|;
    forall k | 0 <= k < |r|
      ensures r[k] == s[i + k]
    {
      assert r[k] == t[k] == s[i + k];
    }
    assert r == s[i..j];
    forall k | 0 <= k < |s| - j
      ensures IsWhitespace(s[j..][k])
    {
      assert s[j..][k] == t[|r|..][k];
    }
    assert AllWhitespace(s[..i]) && AllWhitespace(s[j..]);
    if r != [] {
      assert r[0] == t[0];
    }
    assert t != [] ==> t[0] == s[i];
    if r == [] {
      // `t` is then all white space, so it is empty and `s` is all leading white space
      assert t[|r|..] == t;
      assert s[..i] == s;
    }
    if Trimmed(s) && s != [] {
      assert t == s;
    }
  }

  lemma TrimIdempotent(s: string)
    ensures Trim(Trim(s)) == Trim(s)
  {
  }

  /**
   * getCSSVariable: the trimmed property value when it is not blank, and the
   * fallback otherwise.
   */
  function GetCSSVariable(lookup: StyleLookup, name: string, fallback: string): (r: string)
    ensures r == fallback || (r == Trim(lookup(name)) && r != "")
    ensures !AllWhitespace(lookup(name)) ==> r == Trim(lookup(name))
    ensures AllWhitespace(lookup(name)) ==> r == fallback
    ensures lookup(name) != "" && Trimmed(lookup(name)) ==> r == lookup(name)
    ensures fallback != "" ==> r != ""
  {
    var v := Trim(lookup(name));
    if v != "" then v else fallback
  }

  /**
   * getMarkerColor: the correctness colour once the actual location is known
   * and that colour is a non-empty string; the themed guess colour otherwise.
   */
  function GetMarkerColor(lookup: StyleLookup, hasActualLocation: bool, correctnessColor: Option<string>)
    : (r: string)
    ensures r != ""
    ensures hasActualLocation && correctnessColor.Some? && correctnessColor.value != "" ==>
      r == correctnessColor.value
    ensures !(hasActualLocation && correctnessColor.Some? && correctnessColor.value != "") ==>
      r == GetCSSVariable(lookup, "--marker-guess", "#808080")
  {
    if hasActualLocation && correctnessColor.Some? && correctnessColor.value != "" then
      correctnessColor.value
    else
      GetCSSVariable(lookup, "--marker-guess", "#808080")
  }

  datatype CircleColors = CircleColors(fill: string, border: string)

  /**
   * getGuessCircleColors: the neutral guess palette before the answer is
   * shown; afterwards green, yellow or anything else select the correct,
   * close and incorrect palettes. No colour is ever empty.
   */
  function GetGuessCircleColors(lookup: StyleLookup, hasActualLocation: bool, markerColor: string)
    : (c: CircleColors)
    ensures c.fill != "" && c.border != ""
    ensures !hasActualLocation ==> c == CircleColors(
      GetCSSVariable(lookup, "--circle-guess", "rgba(107, 114, 128, 0.1)"),
      GetCSSVariable(lookup, "--circle-guess-border", "#6b7280"))
    ensures hasActualLocation && markerColor == "green" ==> c == CircleColors(
      GetCSSVariable(lookup, "--circle-correct", "rgba(16, 185, 129, 0.15)"),
      GetCSSVariable(lookup, "--circle-correct-border", "#10b981"))
    ensures hasActualLocation && markerColor == "yellow" ==> c == CircleColors(
      GetCSSVariable(lookup, "--circle-close", "rgba(245, 158, 11, 0.1)"),
      GetCSSVariable(lookup, "--circle-close-border", "#f59e0b"))
    ensures hasActualLocation && markerColor != "green" && markerColor != "yellow" ==> c == CircleColors(
      GetCSSVariable(lookup, "--circle-incorrect", "rgba(239, 68, 68, 0.05)"),
      GetCSSVariable(lookup, "--circle-incorrect-border", "rgba(239, 68, 68, 0.5)"))
  {
    if !hasActualLocation then
      CircleColors(
        GetCSSVariable(lookup, "--circle-guess", "rgba(107, 114, 128, 0.1)"),
        GetCSSVariable(lookup, "--circle-guess-border", "#6b7280"))
    else if markerColor == "green" then
      CircleColors(
        GetCSSVariable(lookup, "--circle-correct", "rgba(16, 185, 129, 0.15)"),
        GetCSSVariable(lookup, "--circle-correct-border", "#10b981"))
    else if markerColor == "yellow" then
      CircleColors(
        GetCSSVariable(lookup, "--circle-close", "rgba(245, 158, 11, 0.1)"),
        GetCSSVariable(lookup, "--circle-close-border", "#f59e0b"))
    else
      CircleColors(
        GetCSSVariable(lookup, "--circle-incorrect", "rgba(239, 68, 68, 0.05)"),
        GetCSSVariable(lookup, "--circle-incorrect-border", "rgba(239, 68, 68, 0.5)"))
  }

  /** Before the answer is shown the marker colour plays no part. */
  lemma GuessPaletteIgnoresMarker(lookup: StyleLookup, m1: string, m2: string)
    ensures GetGuessCircleColors(lookup, false, m1) == GetGuessCircleColors(lookup, false, m2)
  {
  }

  /** Every marker colour other than green and yellow selects the same (incorrect) palette. */
  lemma OtherMarkersShareAPalette(lookup: StyleLookup, m1: string, m2: string)
    requires m1 != "green" && m1 != "yellow" && m2 != "green" && m2 != "yellow"
    ensures GetGuessCircleColors(lookup, true, m1) == GetGuessCircleColors(lookup, true, m2)
  {
  }

  /** A property that is not set selects the fallback. */
  lemma UnsetVariableFallsBack(lookup: StyleLookup, name: string, fallback: string)
    requires lookup(name) == ""
    ensures GetCSSVariable(lookup, name, fallback) == fallback
  {
    assert AllWhitespace(lookup(name));
  }

  /** With the border and marker variables unset, the four borders are the built-in ones and all differ. */
  lemma UnthemedPalettes(lookup: StyleLookup)
    requires lookup("--circle-guess-border") == "" && lookup("--circle-correct-border") == ""
    requires lookup("--circle-close-border") == "" && lookup("--circle-incorrect-border") == ""
    requires lookup("--marker-guess") == ""
    ensures GetGuessCircleColors(lookup, false, "green").border == "#6b7280"
    ensures GetGuessCircleColors(lookup, true, "green").border == "#10b981"
    ensures GetGuessCircleColors(lookup, true, "yellow").border == "#f59e0b"
    ensures GetGuessCircleColors(lookup, true, "red").border == "rgba(239, 68, 68, 0.5)"
    ensures GetMarkerColor(lookup, false, Some("green")) == "#808080"
  {
    assert |"red"| != |"green"| && |"red"| != |"yellow"| && |"yellow"| != |"green"|;
    UnsetVariableFallsBack(lookup, "--circle-guess-border", "#6b7280");
    assert GetGuessCircleColors(lookup, false, "green").border == "#6b7280";
    UnsetVariableFallsBack(lookup, "--circle-correct-border", "#10b981");
    assert GetGuessCircleColors(lookup, true, "green").border == "#10b981";
    UnsetVariableFallsBack(lookup, "--circle-close-border", "#f59e0b");
    assert GetGuessCircleColors(lookup, true, "yellow").border == "#f59e0b";
    UnsetVariableFallsBack(lookup, "--circle-incorrect-border", "rgba(239, 68, 68, 0.5)");
    assert GetGuessCircleColors(lookup, true, "red").border == "rgba(239, 68, 68, 0.5)";
    UnsetVariableFallsBack(lookup, "--marker-guess", "#808080");
  }

  datatype ActualLocationColors = ActualLocationColors(close: CircleColors, correct: CircleColors)

  /**
   * getActualLocationCircleColors: the close and correct palettes, the same
   * ones a yellow or green guess marker selects.
   */
  function GetActualLocationCircleColors(lookup: StyleLookup): (r: ActualLocationColors)
    ensures r.close == GetGuessCircleColors(lookup, true, "yellow")
    ensures r.correct == GetGuessCircleColors(lookup, true, "green")
  {
    assert |"yellow"| != |"green"|;
    ActualLocationColors(
      CircleColors(
        GetCSSVariable(lookup, "--circle-close", "rgba(245, 158, 11, 0.1)"),
        GetCSSVariable(lookup, "--circle-close-border", "#f59e0b")),
      CircleColors(
        GetCSSVariable(lookup, "--circle-correct", "rgba(16, 185, 129, 0.15)"),
        GetCSSVariable(lookup, "--circle-correct-border", "#10b981")))
  }
}
