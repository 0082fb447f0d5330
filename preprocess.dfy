/**
 * The text-cleaning step of the sentiment pipeline (TransformerPreprocess in
 * acl_imdb/app/service.py). The two compiled regular expressions are modelled
 * as scanning functions over strings:
 *
 *   REPLACE_NO_SPACE   deletes each of the twelve characters . ; : ! ' ? , " ( ) [ ]
 *   REPLACE_WITH_SPACE replaces by one space each double break tag (the tag
 *                      <br, optional whitespace, /> written twice), each '-'
 *                      and each '/'
 *
 * Character model: whitespace is the fixed set of code points that Python's
 * str.isspace() accepts (the same set \s matches in a str pattern); lower-casing
 * maps only the ASCII letters A-Z.
 */
module Preprocess {
  import opened Wrappers

  // ------------------------------------------------------------------ characters

  /** The code points Python treats as whitespace in str.strip() and in \s, one by one. */
  const SpaceChars: set<char> := {'\U{0009}', '\U{000A}', '\U{000B}', '\U{000C}', '\U{000D}',
    '\U{001C}', '\U{001D}', '\U{001E}', '\U{001F}', '\U{0020}', '\U{0085}', '\U{00A0}', '\U{1680}',
    '\U{2000}', '\U{2001}', '\U{2002}', '\U{2003}', '\U{2004}', '\U{2005}', '\U{2006}', '\U{2007}',
    '\U{2008}', '\U{2009}', '\U{200A}', '\U{2028}', '\U{2029}', '\U{202F}', '\U{205F}', '\U{3000}'}

  /** Whitespace, decided by code-point ranges. */
  predicate IsSpace(c: char) {
    var n := c as int;
    (0x09 <= n <= 0x0D) || (0x1C <= n <= 0x20) || n == 0x85 || n == 0xA0 || n == 0x1680
    || (0x2000 <= n <= 0x200A) || n == 0x2028 || n == 0x2029 || n == 0x202F
    || n == 0x205F || n == 0x3000
  }

  /** The ranges of IsSpace hold exactly the listed code points. */
  lemma SpaceCharsListed(c: char)
    ensures IsSpace(c) <==> c in SpaceChars
  {
  }

  predicate IsUpper(c: char) {
    'A' <= c <= 'Z'
  }

  function LowerChar(c: char): (d: char)
    ensures !IsUpper(d)
    ensures IsUpper(c) ==> d as int == c as int + 32
    ensures !IsUpper(c) ==> d == c
  {
    if IsUpper(c) then (c as int + 32) as char else c
  }

  /** A member of the character class of REPLACE_NO_SPACE. */
  predicate IsNoSpaceChar(c: char)
    ensures IsNoSpaceChar(c) <==> c in ".;:!'?,\"()[]"
  {
    c == '.' || c == ';' || c == ':' || c == '!' || c == '\'' || c == '?'
    || c == ',' || c == '\"' || c == '(' || c == ')' || c == '[' || c == ']'
  }

  /** The two one-character alternatives of REPLACE_WITH_SPACE. */
  predicate IsDashOrSlash(c: char) {
    c == '-' || c == '/'
  }

  ghost predicate AllSpace(w: string) {
    forall k :: 0 <= k < |w| ==> IsSpace(w[k])
  }

  /** Neither end of s is whitespace: what str.strip() produces. */
  predicate IsStripped(s: string) {
    s == [] || (!IsSpace(s[0]) && !IsSpace(s[|s| - 1]))
  }

  // ------------------------------------------------------------------ strip

  /** Number of whitespace characters at the start of s (also the run \s* matches). */
  function SpaceRun(s: string): (n: nat)
    ensures n <= |s|
    ensures forall k :: 0 <= k < n ==> IsSpace(s[k])
    ensures n == |s| || !IsSpace(s[n])
  {
    if s != [] && IsSpace(s[0]) then 1 + SpaceRun(s[1..]) else 0
  }

  /** Number of whitespace characters at the end of s. */
  function TrailingSpaces(s: string): (n: nat)
    ensures n <= |s|
    ensures forall k :: |s| - n <= k < |s| ==> IsSpace(s[k])
    ensures n == |s| || !IsSpace(s[|s| - n - 1])
  {
    if s != [] && IsSpace(s[|s| - 1]) then 1 + TrailingSpaces(s[..|s| - 1]) else 0
  }

  /** Index just past the last non-whitespace character of s (SpaceRun(s) if there is none). */
  function StripEnd(s: string): (j: nat)
    ensures SpaceRun(s) <= j <= |s|
    ensures forall k :: j <= k < |s| ==> IsSpace(s[k])
    ensures SpaceRun(s) < j ==> !IsSpace(s[j - 1])
  {
    var i, j := SpaceRun(s), |s| - TrailingSpaces(s);
    if i < j then j else i
  }

  /** str.strip(): the slice of s left after removing whitespace at both ends. */
  function Strip(s: string): (r: string)
    ensures IsStripped(r)
  {
    s[SpaceRun(s)..StripEnd(s)]
  }

  /**
   * Strip has exactly one possible result: any slice of s with only whitespace
   * outside it and no whitespace at its ends is the stripped string.
   */
  lemma StripUnique(s: string, i: nat, j: nat)
    requires i <= j <= |s|
    requires forall k :: 0 <= k < i ==> IsSpace(s[k])
    requires forall k :: j <= k < |s| ==> IsSpace(s[k])
    requires IsStripped(s[i..j])
    ensures Strip(s) == s[i..j]
  {
    var r := Strip(s);
    var i0, j0 := SpaceRun(s), StripEnd(s);
    if i < j {
      assert !IsSpace(s[i]) by { assert s[i] == s[i..j][0]; }
      assert !IsSpace(s[j - 1]) by { assert s[j - 1] == s[i..j][j - i - 1]; }
    }
    if r != [] {
      assert !IsSpace(s[i0]) by { assert s[i0] == r[0]; }
      assert !IsSpace(s[j0 - 1]) by { assert s[j0 - 1] == r[|r| - 1]; }
    }
  }

  lemma StripStripped(s: string)
    requires IsStripped(s)
    ensures Strip(s) == s
  {
    assert s[0..|s|] == s;
    StripUnique(s, 0, |s|);
  }

  /** Strip leaves s alone exactly when s is already stripped; otherwise it shortens s. */
  lemma StripShortens(s: string)
    ensures Strip(s) == s <==> IsStripped(s)
    ensures !IsStripped(s) ==> |Strip(s)| < |s|
  {
    if IsStripped(s) {
      StripStripped(s);
    } else {
      assert s[0..|s|] == s;
    }
  }

  // ------------------------------------------------------------------ lower

  /** str.lower() on the ASCII letters. */
  function Lower(s: string): (r: string)
    ensures |r| == |s|
    ensures forall k :: 0 <= k < |r| ==> !IsUpper(r[k])
    ensures forall k :: 0 <= k < |s| ==> r[k] == LowerChar(s[k])
  {
    if s == [] then [] else [LowerChar(s[0])] + Lower(s[1..])
  }

  /** Lower-casing leaves whitespace where it was, so it commutes with strip. */
  lemma LowerKeepsSpace(s: string, k: nat)
    requires k < |s|
    ensures IsSpace(Lower(s)[k]) <==> IsSpace(s[k])
  {
  }

  // ------------------------------------------------------------------ REPLACE_NO_SPACE

  /** REPLACE_NO_SPACE.sub("", s): every character of the class is deleted. */
  function DeleteNoSpace(s: string): (r: string)
    ensures |r| <= |s|
    ensures forall k :: 0 <= k < |r| ==> !IsNoSpaceChar(r[k])
    ensures forall k :: 0 <= k < |r| ==> r[k] in s
    ensures (forall k :: 0 <= k < |s| ==> !IsNoSpaceChar(s[k])) ==> r == s
  {
    if s == [] then []
    else if IsNoSpaceChar(s[0]) then DeleteNoSpace(s[1..])
    else [s[0]] + DeleteNoSpace(s[1..])
  }

  /** Number of characters of s in the class of REPLACE_NO_SPACE. */
  function CountNoSpace(s: string): nat {
    if s == [] then 0 else (if IsNoSpaceChar(s[0]) then 1 else 0) + CountNoSpace(s[1..])
  }

  /** Deletion removes exactly the characters of the class and no others. */
  lemma {:induction false} DeleteNoSpaceLength(s: string)
    ensures |DeleteNoSpace(s)| == |s| - CountNoSpace(s)
  {
    if s != [] {
      DeleteNoSpaceLength(s[1..]);
    }
  }

  /** Deletion works character by character: it distributes over concatenation. */
  lemma {:induction false} DeleteNoSpaceConcat(a: string, b: string)
    ensures DeleteNoSpace(a + b) == DeleteNoSpace(a) + DeleteNoSpace(b)
  {
    if a != [] {
      assert (a + b)[0] == a[0];
      assert (a + b)[1..] == a[1..] + b;
      DeleteNoSpaceConcat(a[1..], b);
    } else {
      assert a + b == b;
    }
  }

  // ------------------------------------------------------------------ REPLACE_WITH_SPACE

  /**
   * Length of a match of one break tag (<br, a whitespace run, />) at the start
   * of s, if there is one. The whitespace run is followed by '/', which is not
   * whitespace, so the greedy run is the only candidate and no backtracking can
   * find another match.
   */
  function BreakTag(s: string): (m: Option<nat>)
    ensures m.Some? ==>
      && 5 <= m.value <= |s| && s[..3] == "<br"
      && s[m.value - 2] == '/' && s[m.value - 1] == '>'
      && AllSpace(s[3..m.value - 2])
  {
    if |s| >= 3 && s[..3] == "<br" then
      var n := 3 + SpaceRun(s[3..]);
      if n + 2 <= |s| && s[n] == '/' && s[n + 1] == '>' then Some(n + 2) else None
    else None
  }

  /** Length of a match of the first alternative, two break tags in a row, at the start of s. */
  function DoubleBreak(s: string): (m: Option<nat>)
    ensures m.Some? ==> 10 <= m.value <= |s| && s[0] == '<' && '/' in s
  {
    match BreakTag(s)
    case None => None
    case Some(n) =>
      assert s[0] == s[..3][0];
      assert s[n - 2] in s;
      match BreakTag(s[n..])
      case None => None
      case Some(n') => Some(n + n')
  }

  /**
   * REPLACE_WITH_SPACE.sub(" ", s): scanning left to right, a match of the
   * double break marker (tried first) or a single '-' or '/' becomes one space
   * and scanning resumes after the match; any other character is kept.
   */
  function ReplaceWithSpace(s: string): (r: string)
    ensures |r| <= |s|
    ensures forall k :: 0 <= k < |r| ==> !IsDashOrSlash(r[k])
    ensures forall k :: 0 <= k < |r| ==> r[k] == ' ' || r[k] in s
    ensures (forall k :: 0 <= k < |s| ==> !IsDashOrSlash(s[k])) ==> r == s
    decreases |s|
  {
    if s == [] then []
    else
      match DoubleBreak(s)
      case Some(n) => " " + ReplaceWithSpace(s[n..])
      case None => (if IsDashOrSlash(s[0]) then " " else [s[0]]) + ReplaceWithSpace(s[1..])
  }

  function BreakMarker(w1: string, w2: string): string {
    "<br" + w1 + "/><br" + w2 + "/>"
  }

  lemma {:induction false} SpaceRunOf(w: string, t: string)
    requires AllSpace(w)
    requires t == [] || !IsSpace(t[0])
    ensures SpaceRun(w + t) == |w|
  {
    if w != [] {
      assert (w + t)[0] == w[0];
      assert (w + t)[1..] == w[1..] + t;
      SpaceRunOf(w[1..], t);
    } else {
      assert w + t == t;
    }
  }

  lemma BreakTagOf(w: string, rest: string)
    requires AllSpace(w)
    ensures BreakTag("<br" + w + "/>" + rest) == Some(|w| + 5)
  {
    var s := "<br" + w + "/>" + rest;
    assert s[..3] == "<br";
    assert s[3..] == w + ("/>" + rest);
    SpaceRunOf(w, "/>" + rest);
    assert s[|w| + 3] == '/' && s[|w| + 4] == '>';
  }

  // The helpers below state single steps of sequence algebra, so that the
  // lemmas using them do not have to search for those steps themselves.

  lemma MarkerParts(w1: string, w2: string)
    ensures BreakMarker(w1, w2) == ("<br" + w1 + "/>") + ("<br" + w2 + "/>")
  {
  }

  /** A matched break tag is <br, then the whitespace run it holds, then />. */
  lemma BreakTagShape(s: string)
    requires BreakTag(s).Some?
    ensures s[..BreakTag(s).value] == "<br" + s[3..BreakTag(s).value - 2] + "/>"
  {
    var m := BreakTag(s).value;
    assert s[..m] == s[..3] + s[3..m - 2] + s[m - 2..m];
  }

  /** Every match of the double-break alternative is the marker for some two whitespace runs. */
  lemma DoubleBreakIsMarker(s: string)
    requires DoubleBreak(s).Some?
    ensures exists w1, w2 :: AllSpace(w1) && AllSpace(w2) && s[..DoubleBreak(s).value] == BreakMarker(w1, w2)
  {
    var n := BreakTag(s).value;
    var t := s[n..];
    var n' := BreakTag(t).value;
    assert DoubleBreak(s).value == n + n';
    var w1, w2 := s[3..n - 2], t[3..n' - 2];
    assert s[..n + n'] == s[..n] + t[..n'];
    assert s[..n] == "<br" + w1 + "/>" by {
      BreakTagShape(s);
    }
    assert t[..n'] == "<br" + w2 + "/>" by {
      BreakTagShape(t);
    }
    assert AllSpace(w1) && AllSpace(w2);
    MarkerParts(w1, w2);
  }

  /** Conversely, the marker is matched in full by the double-break alternative. */
  lemma DoubleBreakOfMarker(w1: string, w2: string, rest: string)
    requires AllSpace(w1) && AllSpace(w2)
    ensures DoubleBreak(BreakMarker(w1, w2) + rest) == Some(|w1| + |w2| + 10)
  {
    var tag1, tag2 := "<br" + w1 + "/>", "<br" + w2 + "/>";
    var s, tail := BreakMarker(w1, w2) + rest, tag2 + rest;
    MarkerParts(w1, w2);
    ConcatAssoc(tag1, tag2, rest);
    assert s == tag1 + tail;
    BreakTagOf(w1, tail);
    assert BreakTag(s) == Some(|tag1|);
    assert s[|tag1|..] == tail;
    BreakTagOf(w2, rest);
    assert BreakTag(s[|tag1|..]) == Some(|tag2|);
  }

  /** Each occurrence of the double break marker, whatever whitespace it holds, becomes one space. */
  lemma ReplaceBreakMarker(w1: string, w2: string, rest: string)
    requires AllSpace(w1) && AllSpace(w2)
    ensures ReplaceWithSpace(BreakMarker(w1, w2) + rest) == " " + ReplaceWithSpace(rest)
  {
    var s := BreakMarker(w1, w2) + rest;
    DoubleBreakOfMarker(w1, w2, rest);
    assert s[|w1| + |w2| + 10..] == rest;
  }

  // A step of sequence algebra, kept apart so that its callers stay cheap.
  lemma ConcatAssoc(x: string, y: string, z: string)
    ensures x + (y + z) == (x + y) + z
  {
  }

  /** One step of the scan at a character that cannot start the break marker. */
  lemma ReplaceWithSpaceStep(s: string)
    requires s != [] && s[0] != '<'
    ensures ReplaceWithSpace(s) == (if IsDashOrSlash(s[0]) then " " else [s[0]]) + ReplaceWithSpace(s[1..])
  {
    assert DoubleBreak(s) == None;
  }

  /**
   * Away from a '<' the replacement works character by character: it
   * distributes over concatenation and every '-' or '/' becomes one space.
   */
  lemma {:induction false} ReplaceWithSpaceConcat(a: string, b: string)
    requires forall k :: 0 <= k < |a| ==> a[k] != '<'
    ensures ReplaceWithSpace(a + b) == ReplaceWithSpace(a) + ReplaceWithSpace(b)
    ensures |ReplaceWithSpace(a)| == |a|
  {
    if a == [] {
      assert a + b == b;
    } else {
      assert (a + b)[0] == a[0] && (a + b)[1..] == a[1..] + b;
      ReplaceWithSpaceStep(a + b);
      ReplaceWithSpaceStep(a);
      ReplaceWithSpaceConcat(a[1..], b);
      var c := if IsDashOrSlash(a[0]) then " " else [a[0]];
      ConcatAssoc(c, ReplaceWithSpace(a[1..]), ReplaceWithSpace(b));
    }
  }

  /** The closing "/>" of a tag, scanned on its own, keeps only its '>'. */
  lemma SlashClose()
    ensures ReplaceWithSpace("/>") == " >"
  {
    var close := "/>";
    ReplaceWithSpaceStep(close);
    ReplaceWithSpaceStep(close[1..]);
    assert close[1..][1..] == [];
  }

  /** The inside of a break tag after its '<': no '<', no '-', and its only '/' at the end. */
  lemma TagInside(w: string)
    requires AllSpace(w)
    ensures forall k :: 0 <= k < |"br" + w + "/>"| ==> ("br" + w + "/>")[k] != '<'
    ensures forall k :: 0 <= k < |"br" + w| ==> ("br" + w)[k] != '<' && !IsDashOrSlash(("br" + w)[k])
  {
    var front := "br" + w;
    forall k | 0 <= k < |front| ensures front[k] != '<' && !IsDashOrSlash(front[k]) {
      if k >= 2 {
        assert front[k] == w[k - 2];
      }
    }
    var inner := front + "/>";
    forall k | 0 <= k < |inner| ensures inner[k] != '<' {
      if k < |front| {
        assert inner[k] == front[k];
      }
    }
  }

  // A step of sequence algebra, kept apart so that its callers stay cheap.
  lemma TagSplit(w: string, rest: string)
    ensures ("<br" + w + "/>" + rest)[0] == '<'
    ensures ("<br" + w + "/>" + rest)[1..] == ("br" + w + "/>") + rest
    ensures ("<br" + w + "/>" + rest)[|w| + 5..] == rest
  {
  }

  lemma TagAlgebra(w: string, x: string)
    ensures "<" + (("br" + w + " >") + x) == "<br" + w + " >" + x
  {
  }

  /**
   * A lone break tag is not the marker: the scan keeps the tag and replaces
   * only its '/' by a space ("<br />" becomes "<br  >").
   */
  lemma LoneBreakTag(w: string, rest: string)
    requires AllSpace(w)
    requires BreakTag(rest) == None
    ensures ReplaceWithSpace("<br" + w + "/>" + rest) == "<br" + w + " >" + ReplaceWithSpace(rest)
  {
    var s := "<br" + w + "/>" + rest;
    var front, close := "br" + w, "/>";
    var inner := front + close;
    TagInside(w);
    assert ReplaceWithSpace(s) == "<" + ReplaceWithSpace(inner + rest) by {
      BreakTagOf(w, rest);
      TagSplit(w, rest);
      assert DoubleBreak(s) == None;
    }
    assert ReplaceWithSpace(inner) == front + " >" by {
      ReplaceWithSpaceConcat(front, close);
      SlashClose();
    }
    assert ReplaceWithSpace(inner + rest) == ReplaceWithSpace(inner) + ReplaceWithSpace(rest) by {
      ReplaceWithSpaceConcat(inner, rest);
    }
    TagAlgebra(w, ReplaceWithSpace(rest));
  }

  // ------------------------------------------------------------------ one line

  /**
   * One element of transform's output: strip, lower-case and delete with
   * REPLACE_NO_SPACE (the first comprehension), then REPLACE_WITH_SPACE (the
   * second). The cleaned line holds no character either pattern matches and no
   * ASCII capital, and it is never longer than the stripped line.
   */
  function CleanLine(line: string): (r: string)
    ensures forall k :: 0 <= k < |r| ==> !IsNoSpaceChar(r[k])
    ensures forall k :: 0 <= k < |r| ==> !IsDashOrSlash(r[k])
    ensures forall k :: 0 <= k < |r| ==> !IsUpper(r[k])
    ensures |r| <= |Strip(line)|
  {
    var l := Lower(Strip(line));
    var d := DeleteNoSpace(l);
    var r := ReplaceWithSpace(d);
    assert forall k :: 0 <= k < |r| ==> !IsNoSpaceChar(r[k]) && !IsUpper(r[k]) by {
      forall k | 0 <= k < |r| ensures !IsNoSpaceChar(r[k]) && !IsUpper(r[k]) {
        if r[k] != ' ' {
          var j :| 0 <= j < |d| && d[j] == r[k];
          var m :| 0 <= m < |l| && l[m] == d[j];
        }
      }
    }
    r
  }

  /** Already clean text: stripped, no ASCII capital, nothing either regex would match. */
  ghost predicate IsClean(s: string) {
    && IsStripped(s)
    && forall k :: 0 <= k < |s| ==> !IsUpper(s[k]) && !IsNoSpaceChar(s[k]) && !IsDashOrSlash(s[k])
  }

  /** A line is returned unchanged exactly when it is already clean. */
  lemma CleanLineFixpoint(s: string)
    ensures CleanLine(s) == s <==> IsClean(s)
  {
    if IsClean(s) {
      StripStripped(s);
      assert Lower(s) == s;
    }
    if CleanLine(s) == s {
      StripShortens(s);
    }
  }

  /** The cleaning of a line whose stripped form lower-casing leaves as it is. */
  lemma CleanLineChain(line: string, st: string, d: string, r: string)
    requires Strip(line) == st && Lower(st) == st
    requires DeleteNoSpace(st) == d && ReplaceWithSpace(d) == r
    ensures CleanLine(line) == r
  {
  }

  lemma StripTrailingSpace(a: string)
    requires IsStripped(a)
    ensures Strip(a + " ") == a
  {
    var t := a + " ";
    assert t[0..|a|] == a;
    StripUnique(t, 0, |a|);
  }

  lemma StripLeadingSpace(a: string)
    requires IsStripped(a)
    ensures Strip(" " + a) == a
  {
    var t := " " + a;
    assert t[1..|t|] == a;
    StripUnique(t, 1, |t|);
  }

  /** A string with no ASCII capital is its own lower-cased copy. */
  lemma LowerNoUpper(s: string)
    requires forall k :: 0 <= k < |s| ==> !IsUpper(s[k])
    ensures Lower(s) == s
  {
  }

  /** A line whose strip is already stripped cleans as that strip does. */
  lemma CleanLineOfStrip(line: string, st: string)
    requires Strip(line) == st && Strip(st) == st
    ensures CleanLine(line) == CleanLine(st)
  {
  }

  lemma TrailingPunctuationSteps(a: string)
    requires IsClean(a) && a != []
    ensures Strip(a + " .") == a + " ." && Lower(a + " .") == a + " ."
    ensures DeleteNoSpace(a + " .") == a + " " && ReplaceWithSpace(a + " ") == a + " "
  {
    var s, t := a + " .", a + " ";
    assert s[0] == a[0] && s[|s| - 1] == '.';
    StripStripped(s);
    forall k | 0 <= k < |s| ensures !IsUpper(s[k]) {
      if k < |a| { assert s[k] == a[k]; }
    }
    LowerNoUpper(s);
    DeleteNoSpaceConcat(a, " .");
    assert " ."[1..] == "." && "."[1..] == [];
    forall k | 0 <= k < |t| ensures !IsDashOrSlash(t[k]) {
      if k < |a| { assert t[k] == a[k]; }
    }
  }

  /**
   * Cleaning is not idempotent: deleting punctuation after the strip can leave
   * whitespace at an end. A clean line followed by " ." cleans to the line and
   * a trailing space, which a second cleaning strips off.
   */
  lemma CleanLineTrailingPunctuation(a: string)
    requires IsClean(a) && a != []
    ensures CleanLine(a + " .") == a + " "
    ensures CleanLine(a + " ") == a
    ensures CleanLine(CleanLine(a + " .")) != CleanLine(a + " .")
  {
    assert CleanLine(a + " .") == a + " " by {
      TrailingPunctuationSteps(a);
      CleanLineChain(a + " .", a + " .", a + " ", a + " ");
    }
    assert CleanLine(a + " ") == a by {
      StripTrailingSpace(a);
      CleanLineOfStrip(a + " ", a);
      CleanLineFixpoint(a);
    }
  }

  lemma LeadingDashSteps(a: string)
    requires IsClean(a)
    ensures Strip("-" + a) == "-" + a && Lower("-" + a) == "-" + a
    ensures DeleteNoSpace("-" + a) == "-" + a && ReplaceWithSpace("-" + a) == " " + a
  {
    var s := "-" + a;
    assert s[0] == '-';
    assert a != [] ==> s[|s| - 1] == a[|a| - 1];
    StripStripped(s);
    forall k | 0 <= k < |s| ensures !IsUpper(s[k]) && !IsNoSpaceChar(s[k]) {
      if k > 0 { assert s[k] == a[k - 1]; }
    }
    LowerNoUpper(s);
    ReplaceWithSpaceStep(s);
    assert s[1..] == a;
  }

  /**
   * Cleaning can also leave a leading space: a '-' in front of a clean line
   * becomes a space after the strip has already run.
   */
  lemma CleanLineLeadingDash(a: string)
    requires IsClean(a)
    ensures CleanLine("-" + a) == " " + a
    ensures CleanLine(" " + a) == a
  {
    assert CleanLine("-" + a) == " " + a by {
      LeadingDashSteps(a);
      CleanLineChain("-" + a, "-" + a, "-" + a, " " + a);
    }
    assert CleanLine(" " + a) == a by {
      StripLeadingSpace(a);
      CleanLineOfStrip(" " + a, a);
      CleanLineFixpoint(a);
    }
  }

  lemma LowerSlice(s: string, i: nat, j: nat)
    requires i <= j <= |s|
    ensures Lower(s)[i..j] == Lower(s[i..j])
  {
    var l, r := Lower(s)[i..j], Lower(s[i..j]);
    forall k | 0 <= k < j - i ensures l[k] == r[k] {
      assert s[i..j][k] == s[i + k];
    }
  }

  lemma LowerStripped(r: string)
    requires IsStripped(r)
    ensures IsStripped(Lower(r))
  {
    if r != [] {
      LowerKeepsSpace(r, 0);
      LowerKeepsSpace(r, |r| - 1);
    }
  }

  /** Lower-casing keeps whitespace and length, so it commutes with strip. */
  lemma StripLower(s: string)
    ensures Strip(Lower(s)) == Lower(Strip(s))
  {
    var i, j := SpaceRun(s), StripEnd(s);
    var l := Lower(s);
    LowerSlice(s, i, j);
    LowerStripped(Strip(s));
    forall k | 0 <= k < |s| && (k < i || j <= k) ensures IsSpace(l[k]) {
      LowerKeepsSpace(s, k);
    }
    StripUnique(l, i, j);
  }

  /** Reviews that differ only in the case of ASCII letters are cleaned alike. */
  lemma CleanLineIgnoresCase(line: string)
    ensures CleanLine(Lower(line)) == CleanLine(line)
  {
    StripLower(line);
    var l := Lower(Strip(line));
    assert Lower(l) == l;
  }

  // ------------------------------------------------------------------ the list transform

  /** The first comprehension (service.py line 46): each line stripped, lower-cased, then punctuation deleted. */
  function FirstPass(lines: seq<string>): (r: seq<string>)
    ensures |r| == |lines|
    ensures forall i :: 0 <= i < |lines| ==> r[i] == DeleteNoSpace(Lower(Strip(lines[i])))
  {
    if lines == [] then [] else [DeleteNoSpace(Lower(Strip(lines[0])))] + FirstPass(lines[1..])
  }

  /** The second comprehension (service.py line 47): each line rewritten with REPLACE_WITH_SPACE. */
  function SecondPass(lines: seq<string>): (r: seq<string>)
    ensures |r| == |lines|
    ensures forall i :: 0 <= i < |lines| ==> r[i] == ReplaceWithSpace(lines[i])
  {
    if lines == [] then [] else [ReplaceWithSpace(lines[0])] + SecondPass(lines[1..])
  }

  /**
   * TransformerPreprocess.transform: the two passes in turn (the method reads
   * no state of the transformer, so it is modelled as a function). The output has the
   * input's length and its i-th element is the cleaned i-th input line.
   */
  function Transform(lines: seq<string>): (r: seq<string>)
    ensures |r| == |lines|
    ensures forall i :: 0 <= i < |lines| ==> r[i] == CleanLine(lines[i])
  {
    SecondPass(FirstPass(lines))
  }

  /**
   * The transformer object. Its only state is the verbose flag (which controls
   * console output, not modelled); fitting learns nothing.
   */
  class TransformerPreprocess {
    const verbose: bool

    constructor (verbose: bool)
      ensures this.verbose == verbose
    {
      this.verbose := verbose;
    }

    /** fit(X, y) changes nothing and returns the transformer itself. */
    method Fit(lines: seq<string>, labels: Option<seq<string>>) returns (r: TransformerPreprocess)
      ensures r == this
    {
      r := this;
    }

  }
}
