/** The code extractor: the pattern `\b[A-Z0-9]{6,16}\b` run over the
    upper-cased page text, minus a fixed blacklist of ordinary words. */
module Extractor {
  import opened Ascii

  const MinLength: nat := 6
  const MaxLength: nat := 16

  /** Words of the right shape that are not codes. */
  const Blacklist: set<string> := {"DISCORD", "ANDROID", "REDEEM", "WEBSITE", "SETTINGS", "GIFT"}

  /** Matches `[A-Z0-9]{6,16}` as a whole. */
  predicate CodeShaped(w: string)
  {
    MinLength <= |w| <= MaxLength && forall k :: 0 <= k < |w| ==> IsCodeChar(w[k])
  }

  /** `\b` at position k of s: a word character on exactly one side. */
  predicate WordBoundary(s: string, k: nat)
    requires k <= |s|
  {
    (0 < k && IsWordChar(s[k - 1])) != (k < |s| && IsWordChar(s[k]))
  }

  /** The pattern `\b[A-Z0-9]{6,16}\b` matches the slice s[i..j]. */
  predicate PatternMatches(s: string, i: nat, j: nat)
    requires i <= j <= |s|
  {
    WordBoundary(s, i) && CodeShaped(s[i..j]) && WordBoundary(s, j)
  }

  /** s[i..j] is a run of word characters that cannot be extended either way. */
  predicate MaximalRun(s: string, i: nat, j: nat)
    requires i <= j <= |s|
  {
    i < j
    && (forall k :: i <= k < j ==> IsWordChar(s[k]))
    && (i == 0 || !IsWordChar(s[i - 1]))
    && (j == |s| || !IsWordChar(s[j]))
  }

  /** Since every code character is a word character, the pattern matches
      exactly the maximal word runs that are code-shaped. */
  lemma PatternMatchesMaximalRun(s: string, i: nat, j: nat)
    requires i <= j <= |s|
    ensures PatternMatches(s, i, j) <==> MaximalRun(s, i, j) && CodeShaped(s[i..j])
  {
    if CodeShaped(s[i..j]) {
      assert s[i..j][0] == s[i] && s[i..j][j - i - 1] == s[j - 1];
      forall k | i <= k < j
        ensures IsWordChar(s[k])
      {
        assert s[i..j][k - i] == s[k];
      }
    }
  }

  /** Position i of s is not strictly inside a run of word characters. */
  predicate OutsideRun(s: string, i: nat)
    requires i <= |s|
  {
    i == 0 || i == |s| || !IsWordChar(s[i - 1]) || !IsWordChar(s[i])
  }

  /** Where the run of word characters starting at i ends. */
  function RunEnd(s: string, i: nat): (j: nat)
    requires i <= |s|
    ensures i <= j <= |s|
    ensures forall k :: i <= k < j ==> IsWordChar(s[k])
    ensures j == |s| || !IsWordChar(s[j])
    ensures i < |s| && IsWordChar(s[i]) ==> i < j
    decreases |s| - i
  {
    if i == |s| || !IsWordChar(s[i]) then i else RunEnd(s, i + 1)
  }

  /** The matches `finditer` reports from position i on, left to right: skip
      non-word characters, take each run of word characters whole and keep it
      when it is code-shaped. */
  function Scan(s: string, i: nat): (r: seq<string>)
    requires i <= |s| && OutsideRun(s, i)
    ensures forall k :: 0 <= k < |r| ==> CodeShaped(r[k])
    decreases |s| - i
  {
    if i == |s| then []
    else if !IsWordChar(s[i]) then Scan(s, i + 1)
    else
      var j := RunEnd(s, i);
      (if CodeShaped(s[i..j]) then [s[i..j]] else []) + Scan(s, j)
  }

  /** Everything Scan reports from i is a match of the pattern at or after i. */
  lemma {:induction false} ScanSound(s: string, i: nat, w: string)
    requires i <= |s| && OutsideRun(s, i)
    requires w in Scan(s, i)
    ensures exists a: nat, b: nat :: i <= a <= b <= |s| && PatternMatches(s, a, b) && w == s[a..b]
    decreases |s| - i
  {
    if i < |s| {
      if !IsWordChar(s[i]) {
        ScanSound(s, i + 1, w);
      } else {
        var j := RunEnd(s, i);
        if CodeShaped(s[i..j]) && w == s[i..j] {
          PatternMatchesMaximalRun(s, i, j);
          assert PatternMatches(s, i, j);
        } else {
          ScanSound(s, j, w);
        }
      }
    }
  }

  /** Every match of the pattern at or after i is reported by Scan. */
  lemma {:induction false} ScanComplete(s: string, i: nat, a: nat, b: nat)
    requires i <= |s| && OutsideRun(s, i)
    requires i <= a <= b <= |s| && PatternMatches(s, a, b)
    ensures s[a..b] in Scan(s, i)
    decreases |s| - i
  {
    PatternMatchesMaximalRun(s, a, b);
    if i < |s| {
      if !IsWordChar(s[i]) {
        assert i != a;
        ScanComplete(s, i + 1, a, b);
      } else {
        var j := RunEnd(s, i);
        if i != a {
          // a run starting after i that is maximal starts at or after j
          assert !IsWordChar(s[a - 1]);
          assert j <= a;
          ScanComplete(s, j, a, b);
        }
      }
    }
  }

  /** All matches of the pattern in s, by position: the reference meaning of
      `finditer` reported as a set of strings. */
  ghost function Matches(s: string): set<string>
  {
    set a: nat, b: nat | a <= b <= |s| && PatternMatches(s, a, b) :: s[a..b]
  }

  lemma ScanFindsMatches(s: string)
    ensures forall w :: w in Scan(s, 0) <==> w in Matches(s)
  {
    forall w | w in Scan(s, 0)
      ensures w in Matches(s)
    {
      ScanSound(s, 0, w);
    }
    forall w | w in Matches(s)
      ensures w in Scan(s, 0)
    {
      var a: nat, b: nat :| a <= b <= |s| && PatternMatches(s, a, b) && w == s[a..b];
      ScanComplete(s, 0, a, b);
    }
  }

  /** `extract_codes`: the matches found in the upper-cased text, less the
      blacklisted words. */
  function ExtractCodes(text: string): (r: set<string>)
    ensures forall c :: c in r ==> CodeShaped(c)
    ensures r !! Blacklist
  {
    var found := Scan(Upper(text), 0);
    set c | c in found && c !in Blacklist
  }

  /** A code is extracted exactly when it is a match of the pattern somewhere
      in the upper-cased text and is not blacklisted. */
  lemma ExtractCodesMeaning(text: string, c: string)
    ensures c in ExtractCodes(text) <==>
      c !in Blacklist && exists a: nat, b: nat :: a <= b <= |text| && PatternMatches(Upper(text), a, b) && c == Upper(text)[a..b]
  {
    ScanFindsMatches(Upper(text));
    assert c in Matches(Upper(text)) <==>
      exists a: nat, b: nat :: a <= b <= |text| && PatternMatches(Upper(text), a, b) && c == Upper(text)[a..b];
  }

  /** The same statement in terms of word runs: an extracted code is a whole
      run of word characters of the upper-cased text, never part of a longer
      run, and every such run of 6 to 16 code characters is extracted unless
      blacklisted. */
  lemma ExtractCodesAreWholeRuns(text: string, c: string)
    ensures c in ExtractCodes(text) <==>
      c !in Blacklist && exists a: nat, b: nat :: a <= b <= |text| && MaximalRun(Upper(text), a, b) && CodeShaped(c) && c == Upper(text)[a..b]
  {
    var u := Upper(text);
    ExtractCodesMeaning(text, c);
    forall a: nat, b: nat | a <= b <= |text|
      ensures PatternMatches(u, a, b) <==> MaximalRun(u, a, b) && CodeShaped(u[a..b])
    {
      PatternMatchesMaximalRun(u, a, b);
    }
  }

  /** Extraction only sees the upper-cased text. */
  lemma ExtractCodesIgnoresCase(text: string)
    ensures ExtractCodes(Upper(text)) == ExtractCodes(text)
  {
    UpperIdempotent(text);
  }

  /** "GIFT" is shorter than any code, so its blacklist entry never removes anything. */
  lemma ShortBlacklistEntryInert(text: string)
    ensures ExtractCodes(text) == set c | c in Scan(Upper(text), 0) && c !in Blacklist - {"GIFT"}
  {
    assert !CodeShaped("GIFT");
  }

  /** The end of a run is the first non-word position after its start. */
  lemma RunEndUnique(s: string, i: nat, j: nat)
    requires i <= j <= |s|
    requires forall k :: i <= k < j ==> IsWordChar(s[k])
    requires j == |s| || !IsWordChar(s[j])
    ensures RunEnd(s, i) == j
  {
  }

  /** Scanning the tail of p + b is scanning b. */
  lemma {:induction false} ScanShift(p: string, b: string, j: nat)
    requires j <= |b| && OutsideRun(b, j) && OutsideRun(p + b, |p| + j)
    ensures Scan(p + b, |p| + j) == Scan(b, j)
    decreases |b| - j, 1
  {
    var s := p + b;
    if j < |b| {
      assert s[|p| + j] == b[j];
      if IsWordChar(b[j]) {
        ScanShiftAtWord(p, b, j);
      } else {
        ScanShift(p, b, j + 1);
        ScanAtNonWord(s, |p| + j);
        ScanAtNonWord(b, j);
      }
    }
  }

  /** The step of ScanShift that passes over one whole run. */
  lemma {:induction false} ScanShiftAtWord(p: string, b: string, j: nat)
    requires j < |b| && IsWordChar(b[j]) && OutsideRun(b, j) && OutsideRun(p + b, |p| + j)
    ensures Scan(p + b, |p| + j) == Scan(b, j)
    decreases |b| - j, 0
  {
    var s := p + b;
    var e := RunEnd(b, j);
    assert s[|p| + j] == b[j];
    RunEndShift(p, b, j);
    if e < |b| {
      assert s[|p| + e] == b[e];
    }
    ScanShift(p, b, e);
    ScanAtWord(s, |p| + j);
    ScanAtWord(b, j);
  }

  /** A run of the tail of p + b is the same run of b, moved by |p|. */
  lemma RunEndShift(p: string, b: string, j: nat)
    requires j <= |b|
    ensures RunEnd(p + b, |p| + j) == |p| + RunEnd(b, j)
    ensures (p + b)[|p| + j..|p| + RunEnd(b, j)] == b[j..RunEnd(b, j)]
  {
    var s := p + b;
    var e := RunEnd(b, j);
    forall k | |p| + j <= k < |p| + e
      ensures IsWordChar(s[k])
    {
      assert s[k] == b[k - |p|];
    }
    if e < |b| {
      assert s[|p| + e] == b[e];
    }
    RunEndUnique(s, |p| + j, |p| + e);
    assert s[|p| + j..|p| + e] == b[j..e];
  }

  /** A run inside a ends where it ends in a + b when no run crosses into b. */
  lemma RunEndPrefix(a: string, b: string, i: nat)
    requires i < |a| && OutsideRun(a + b, |a|)
    ensures RunEnd(a + b, i) == RunEnd(a, i)
    ensures (a + b)[i..RunEnd(a, i)] == a[i..RunEnd(a, i)]
  {
    var s := a + b;
    var e := RunEnd(a, i);
    forall k | i <= k < e
      ensures IsWordChar(s[k])
    {
      assert s[k] == a[k];
    }
    if e < |a| {
      assert s[e] == a[e];
    } else if |b| > 0 {
      assert IsWordChar(s[|a| - 1]) && s[|a|] == b[0];
    }
    RunEndUnique(s, i, e);
  }

  /** Scanning a + b from a position i of a that is outside a run, when a run
      of word characters cannot cross from a into b. */
  lemma {:induction false} ScanConcatFrom(a: string, b: string, i: nat)
    requires i <= |a| && OutsideRun(a, i) && OutsideRun(a + b, i)
    requires OutsideRun(a + b, |a|)
    ensures Scan(a + b, i) == Scan(a, i) + Scan(b, 0)
    decreases |a| - i
  {
    var s := a + b;
    if i == |a| {
      ScanShift(a, b, 0);
    } else {
      assert s[i] == a[i];
      if IsWordChar(a[i]) {
        var e := RunEnd(a, i);
        RunEndPrefix(a, b, i);
        if e < |a| {
          assert s[e] == a[e];
        }
        ScanConcatFrom(a, b, e);
        ScanAtWord(s, i);
        ScanAtWord(a, i);
        var w: seq<string> := if CodeShaped(a[i..e]) then [a[i..e]] else [];
        AppendAssoc(w, Scan(a, e), Scan(b, 0));
      } else {
        ScanConcatFrom(a, b, i + 1);
        ScanAtNonWord(s, i);
        ScanAtNonWord(a, i);
      }
    }
  }

  lemma ScanAtWord(s: string, i: nat)
    requires i < |s| && OutsideRun(s, i) && IsWordChar(s[i])
    ensures Scan(s, i) == (if CodeShaped(s[i..RunEnd(s, i)]) then [s[i..RunEnd(s, i)]] else []) + Scan(s, RunEnd(s, i))
  {
  }

  lemma ScanAtNonWord(s: string, i: nat)
    requires i < |s| && !IsWordChar(s[i])
    ensures Scan(s, i) == Scan(s, i + 1)
  {
  }

  lemma AppendAssoc(x: seq<string>, y: seq<string>, z: seq<string>)
    ensures x + (y + z) == (x + y) + z
  {
  }

  lemma UpperAround(a: string, c: char, b: string)
    requires !IsWordChar(c)
    ensures Upper(a + [c] + b) == Upper(a) + [c] + Upper(b)
  {
    var l := Upper(a + [c] + b);
    var r := Upper(a) + [c] + Upper(b);
    forall k | 0 <= k < |l|
      ensures l[k] == r[k]
    {
      if k < |a| {
        assert (a + [c] + b)[k] == a[k];
      } else if k > |a| {
        assert (a + [c] + b)[k] == b[k - |a| - 1];
      }
    }
  }

  /** A non-word character separates: the codes of a text split at one are
      the codes of the two sides. */
  lemma ExtractCodesSplitsAtNonWord(a: string, c: char, b: string)
    requires !IsWordChar(c)
    ensures ExtractCodes(a + [c] + b) == ExtractCodes(a) + ExtractCodes(b)
  {
    var ua, ub := Upper(a), Upper(b);
    UpperAround(a, c, b);
    var rest := [c] + ub;
    assert ua + [c] + ub == ua + rest;
    assert (ua + rest)[|ua|] == c;
    ScanConcatFrom(ua, rest, 0);
    ScanShift([c], ub, 0);
    assert Scan(rest, 0) == Scan(rest, 1);
    assert Scan(Upper(a + [c] + b), 0) == Scan(ua, 0) + Scan(ub, 0);
  }

  /** A text that is a single run of word characters yields its upper-cased
      self when that is code-shaped and not blacklisted, and nothing otherwise:
      so exactly 6 and exactly 16 characters are extracted, 5 and 17 are not,
      and a run such as `ABC123_X` is never cut down to a code. */
  lemma ExtractCodesOfOneWord(text: string)
    requires text != [] && forall k :: 0 <= k < |text| ==> IsWordChar(text[k])
    ensures ExtractCodes(text) ==
      if CodeShaped(Upper(text)) && Upper(text) !in Blacklist then {Upper(text)} else {}
  {
    var u := Upper(text);
    RunEndUnique(u, 0, |u|);
    assert u[0..|u|] == u;
    assert Scan(u, 0) == (if CodeShaped(u) then [u] else []) + Scan(u, |u|);
  }

  /** A text made of code characters only is already upper case. */
  lemma UpperOfCodeChars(w: string)
    requires forall k :: 0 <= k < |w| ==> IsCodeChar(w[k])
    ensures Upper(w) == w
  {
  }

  /** The sample announcement: only the code survives; the blacklisted
      `REDEEM` and the short words do not. */
  lemma ExtractCodesExample()
    ensures ExtractCodes("Use code KS2024GIFT now! Also REDEEM here.") == {"KS2024GIFT"}
  {
    SampleHalves();
    ExampleHead();
    ExampleMiddle();
    ExtractCodesSplitsAtNonWord("Use code KS2024GIFT", ' ', "now! Also REDEEM here.");
  }

  /* The sample is taken apart below one word at a time: each lemma splits off
     the next word at one non-word character with ExtractCodesSplitsAtNonWord
     and states what that word yields. Equalities between short literals are
     far cheaper for the verifier than equalities on the whole sentence. */

  lemma SampleHalves()
    ensures "Use code KS2024GIFT now! Also REDEEM here." == "Use code KS2024GIFT" + [' '] + "now! Also REDEEM here."
  {
  }

  lemma ExampleHead()
    ensures ExtractCodes("Use code KS2024GIFT") == {"KS2024GIFT"}
  {
    assert "Use code KS2024GIFT" == "Use" + [' '] + "code KS2024GIFT";
    ShortWordYieldsNothing("Use");
    ExampleCodeAndKey();
    ExtractCodesSplitsAtNonWord("Use", ' ', "code KS2024GIFT");
  }

  lemma ExampleCodeAndKey()
    ensures ExtractCodes("code KS2024GIFT") == {"KS2024GIFT"}
  {
    assert "code KS2024GIFT" == "code" + [' '] + "KS2024GIFT";
    ShortWordYieldsNothing("code");
    KeyExample();
    ExtractCodesSplitsAtNonWord("code", ' ', "KS2024GIFT");
  }

  lemma ExampleMiddle()
    ensures ExtractCodes("now! Also REDEEM here.") == {}
  {
    assert "now! Also REDEEM here." == "now" + ['!'] + " Also REDEEM here.";
    ShortWordYieldsNothing("now");
    ExampleSpace();
    ExtractCodesSplitsAtNonWord("now", '!', " Also REDEEM here.");
  }

  lemma ExampleSpace()
    ensures ExtractCodes(" Also REDEEM here.") == {}
  {
    assert " Also REDEEM here." == "" + [' '] + "Also REDEEM here.";
    EmptyTextYieldsNothing();
    ExampleAlso();
    ExtractCodesSplitsAtNonWord("", ' ', "Also REDEEM here.");
  }

  lemma ExampleAlso()
    ensures ExtractCodes("Also REDEEM here.") == {}
  {
    assert "Also REDEEM here." == "Also" + [' '] + "REDEEM here.";
    ShortWordYieldsNothing("Also");
    ExampleTail();
    ExtractCodesSplitsAtNonWord("Also", ' ', "REDEEM here.");
  }

  lemma ExampleTail()
    ensures ExtractCodes("REDEEM here.") == {}
  {
    assert "REDEEM here." == "REDEEM" + [' '] + "here.";
    RedeemExample();
    ExampleHere();
    ExtractCodesSplitsAtNonWord("REDEEM", ' ', "here.");
  }

  lemma ExampleHere()
    ensures ExtractCodes("here.") == {}
  {
    assert "here." == "here" + ['.'] + "";
    ShortWordYieldsNothing("here");
    EmptyTextYieldsNothing();
    ExtractCodesSplitsAtNonWord("here", '.', "");
  }

  /** Both length bounds are inclusive: 6 characters are enough... */
  lemma MinLengthExample()
    ensures ExtractCodes("ABCDE6") == {"ABCDE6"}
  {
    UpperOfCodeChars("ABCDE6");
    ExtractCodesOfOneWord("ABCDE6");
  }

  /** ...and 16 are not too many. */
  lemma MaxLengthExample()
    ensures ExtractCodes("ABCDEFGHIJKLMN16") == {"ABCDEFGHIJKLMN16"}
  {
    var w := "ABCDEFGHIJKLMN16";
    assert forall k :: 0 <= k < |w| ==> IsCodeChar(w[k]) by {
      forall k | 0 <= k < |w|
        ensures IsCodeChar(w[k])
      {
        if k < 8 {
          assert w[k] == "ABCDEFGH"[k];
        } else {
          assert w[k] == "IJKLMN16"[k - 8];
        }
      }
    }
    UpperOfCodeChars(w);
    ExtractCodesOfOneWord(w);
  }

  /** One character too few or too many is not a code. */
  lemma OutOfBoundExamples()
    ensures ExtractCodes("ABCD5") == {}
    ensures ExtractCodes("ABCDEFGHIJKLMNO17") == {}
  {
    UpperOfCodeChars("ABCD5");
    ExtractCodesOfOneWord("ABCD5");
    var w := "ABCDEFGHIJKLMNO17";
    assert forall k :: 0 <= k < |w| ==> IsCodeChar(w[k]) by {
      forall k | 0 <= k < |w|
        ensures IsCodeChar(w[k])
      {
        if k < 8 {
          assert w[k] == "ABCDEFGH"[k];
        } else {
          assert w[k] == "IJKLMNO17"[k - 8];
        }
      }
    }
    UpperOfCodeChars(w);
    ExtractCodesOfOneWord(w);
  }

  /** A code-shaped run glued to `_` is part of a longer word. */
  lemma UnderscoreExample()
    ensures ExtractCodes("abc123_x") == {}
  {
    ExtractCodesOfOneWord("abc123_x");
    assert Upper("abc123_x")[6] == '_';
  }

  lemma KeyExample()
    ensures ExtractCodes("KS2024GIFT") == {"KS2024GIFT"}
  {
    UpperOfCodeChars("KS2024GIFT");
    assert CodeShaped("KS2024GIFT");
    ExtractCodesOfOneWord("KS2024GIFT");
  }

  lemma RedeemExample()
    ensures ExtractCodes("REDEEM") == {}
  {
    UpperOfCodeChars("REDEEM");
    ExtractCodesOfOneWord("REDEEM");
  }

  /** A word shorter than a code yields nothing. */
  lemma ShortWordYieldsNothing(text: string)
    requires 0 < |text| < MinLength && forall k :: 0 <= k < |text| ==> IsWordChar(text[k])
    ensures ExtractCodes(text) == {}
  {
    ExtractCodesOfOneWord(text);
  }

  lemma EmptyTextYieldsNothing()
    ensures ExtractCodes("") == {}
  {
    assert Upper("") == "";
  }
}
