/**
 * Slug normalisation of the "create wall" form:
 * `slug.toLowerCase().replace(/\s+/g, '-')`.
 */
module Slug {
  import opened Collections

  /** The characters of the ECMAScript `\s` class. */
  predicate IsSpace(c: char)
  {
    c == ' ' || c == '\t' || c == '\n' || c == '\U{0B}' || c == '\U{0C}' || c == '\r' ||
    c == '\U{A0}' || c == '\U{1680}' || ('\U{2000}' <= c <= '\U{200A}') ||
    c == '\U{2028}' || c == '\U{2029}' || c == '\U{202F}' || c == '\U{205F}' ||
    c == '\U{3000}' || c == '\U{FEFF}'
  }

  predicate IsUpper(c: char)
  {
    'A' <= c <= 'Z'
  }

  /** Lower-casing of one character, over the ASCII letters. */
  function ToLower(c: char): (l: char)
    ensures !IsUpper(l)
    ensures IsSpace(l) == IsSpace(c)
    ensures !IsUpper(c) ==> l == c
  {
    if IsUpper(c) then (c as int + 32) as char else c
  }

  /** `toLowerCase()` of a whole string. */
  function LowerAll(s: string): (r: string)
    ensures |r| == |s|
    ensures forall i :: 0 <= i < |s| ==> r[i] == ToLower(s[i])
  {
    Map(s, ToLower)
  }

  /** Length of the run of whitespace that starts `s`. */
  function LeadingSpaces(s: string): (k: nat)
    ensures k <= |s|
    ensures forall i :: 0 <= i < k ==> IsSpace(s[i])
    ensures k == |s| || !IsSpace(s[k])
  {
    if s != [] && IsSpace(s[0]) then 1 + LeadingSpaces(s[1..]) else 0
  }

  /** `replace(/\s+/g, '-')`: each maximal whitespace run becomes one `-`. */
  function ReplaceSpaceRuns(s: string): (r: string)
    ensures forall i :: 0 <= i < |r| ==> !IsSpace(r[i])
    ensures forall i :: 0 <= i < |r| ==> r[i] == '-' || r[i] in s
    decreases |s|
  {
    if s == [] then ""
    else if IsSpace(s[0]) then "-" + ReplaceSpaceRuns(s[LeadingSpaces(s)..])
    else [s[0]] + ReplaceSpaceRuns(s[1..])
  }

  /** The slug stored for the text typed into the form. */
  function Normalise(s: string): (r: string)
    ensures forall i :: 0 <= i < |r| ==> !IsSpace(r[i]) && !IsUpper(r[i])
  {
    var lower := LowerAll(s);
    var r := ReplaceSpaceRuns(lower);
    assert forall i :: 0 <= i < |r| ==> r[i] == '-' || r[i] in lower;
    r
  }

  /**
   * Reference reading of the same transformation, one character at a time:
   * whitespace that starts a run yields `-`, whitespace that continues a
   * run yields nothing, any other character yields its lower case.
   * `inRun` says whether the previous character was whitespace.
   */
  function SlugSpec(s: string, inRun: bool): (r: string)
    ensures |r| <= |s|
  {
    if s == [] then ""
    else if IsSpace(s[0]) then (if inRun then "" else "-") + SlugSpec(s[1..], true)
    else [ToLower(s[0])] + SlugSpec(s[1..], false)
  }

  lemma {:induction false} SpecSkipsRun(s: string, k: nat)
    requires k <= |s|
    requires forall i :: 0 <= i < k ==> IsSpace(s[i])
    ensures SlugSpec(s, true) == SlugSpec(s[k..], true)
  {
    if k > 0 {
      assert "" + SlugSpec(s[1..], true) == SlugSpec(s[1..], true);
      assert s[1..][k - 1..] == s[k..];
      SpecSkipsRun(s[1..], k - 1);
    }
  }

  /** The run-based replacement agrees with the per-character reading. */
  lemma {:induction false} NormaliseMatchesSpec(s: string)
    ensures Normalise(s) == SlugSpec(s, false)
    decreases |s|
  {
    var t := LowerAll(s);
    if s == [] {
    } else if IsSpace(s[0]) {
      var k := LeadingSpaces(t);
      assert k >= 1;
      MapSuffix(s, ToLower, k);
      NormaliseMatchesSpec(s[k..]);
      // Normalise(s) == "-" + Normalise(s[k..]) == "-" + SlugSpec(s[k..], false)
      SpecSkipsRun(s[1..], k - 1);
      assert s[1..][k - 1..] == s[k..];
      assert SlugSpec(s[k..], true) == SlugSpec(s[k..], false);
    } else {
      MapSuffix(s, ToLower, 1);
      NormaliseMatchesSpec(s[1..]);
    }
  }

  /** No character of a slug is whitespace. */
  lemma NormaliseHasNoSpace(s: string, i: nat)
    requires i < |Normalise(s)|
    ensures !IsSpace(Normalise(s)[i])
  {
  }

  predicate NotDash(c: char)
  {
    c != '-'
  }

  /** A character the normalisation carries over: neither whitespace nor `-`. */
  predicate IsCarried(c: char)
  {
    !IsSpace(c) && c != '-'
  }

  lemma {:induction false} SpecKeepsCharacters(s: string, inRun: bool)
    ensures Filter(SlugSpec(s, inRun), NotDash) == LowerAll(Filter(s, IsCarried))
  {
    if s != [] {
      SpecKeepsCharacters(s[1..], IsSpace(s[0]));
      var rest := SlugSpec(s[1..], IsSpace(s[0]));
      if IsSpace(s[0]) {
        FilterConcat(if inRun then "" else "-", rest, NotDash);
      } else {
        FilterConcat([ToLower(s[0])], rest, NotDash);
        if IsCarried(s[0]) {
          assert LowerAll([s[0]] + Filter(s[1..], IsCarried))
              == [ToLower(s[0])] + LowerAll(Filter(s[1..], IsCarried));
        }
      }
    }
  }

  /**
   * Apart from the dashes, the slug is the input's characters, lower-cased
   * and in order, with the whitespace gone.
   */
  lemma NormaliseKeepsCharacters(s: string)
    ensures Filter(Normalise(s), NotDash) == LowerAll(Filter(s, IsCarried))
  {
    NormaliseMatchesSpec(s);
    SpecKeepsCharacters(s, false);
  }

  lemma {:induction false} ReplaceWithoutSpaces(s: string)
    requires forall i :: 0 <= i < |s| ==> !IsSpace(s[i])
    ensures ReplaceSpaceRuns(s) == s
  {
    if s != [] {
      ReplaceWithoutSpaces(s[1..]);
    }
  }

  /** A slug normalises to itself, so normalising twice changes nothing. */
  lemma NormaliseIdempotent(s: string)
    ensures Normalise(Normalise(s)) == Normalise(s)
  {
    var n := Normalise(s);
    assert LowerAll(n) == n;
    ReplaceWithoutSpaces(n);
  }

  /** `"A  b"` becomes `"a-b"`: the two spaces collapse into one dash. */
  lemma Example()
    ensures Normalise("A  b") == "a-b"
  {
    assert "A  b"[1..] == "  b" && "  b"[1..] == " b" && " b"[1..] == "b" && "b"[1..] == "";
    assert SlugSpec("b", true) == "b";
    assert SlugSpec(" b", true) == "b";
    assert SlugSpec("  b", false) == "-b";
    assert SlugSpec("A  b", false) == "a-b";
    NormaliseMatchesSpec("A  b");
  }
}
