/**
 * `sanitize_filename`: turns a conversation title into the base name of
 * its output file.
 */
module Filenames {

  import opened Text

  const MaxNameLength := 100
  const Placeholder := "Untitled"

  /** The characters `\ / * ? : " < > |`, each replaced by `_`. */
  predicate IsReserved(c: char) {
    c in "\\/*?:\"<>|"
  }

  predicate NoReserved(s: string) {
    forall i :: 0 <= i < |s| ==> !IsReserved(s[i])
  }

  /** No two neighbouring characters are both whitespace. */
  predicate NoDoubleSpace(s: string) {
    forall i :: 0 <= i < |s| - 1 ==> !(IsSpace(s[i]) && IsSpace(s[i + 1]))
  }

  /** The only whitespace character present is the plain space. */
  predicate OnlyPlainSpaces(s: string) {
    forall i :: 0 <= i < |s| ==> IsSpace(s[i]) ==> s[i] == ' '
  }

  /** The characters of `s` that are not whitespace, in order. */
  function NonSpace(s: string): string {
    if s == [] then []
    else (if IsSpace(s[0]) then [] else [s[0]]) + NonSpace(s[1..])
  }

  /** First step: every reserved character becomes `_` (a `re.sub`). */
  function ReplaceReserved(s: string): (r: string)
    ensures |r| == |s| && NoReserved(r)
    ensures forall i :: 0 <= i < |s| && IsReserved(s[i]) ==> r[i] == '_'
    ensures forall i :: 0 <= i < |s| && !IsReserved(s[i]) ==> r[i] == s[i]
  {
    seq(|s|, i requires 0 <= i < |s| => if IsReserved(s[i]) then '_' else s[i])
  }

  /**
   * Second step: `re.sub(r"\s+", " ", name)`. Each maximal run of
   * whitespace becomes one space; `inRun` says whether the character just
   * before `s` was part of a run. The characters that are not whitespace
   * come through unchanged and in order.
   */
  function CollapseRuns(s: string, inRun: bool): (r: string)
    ensures |r| <= |s|
  {
    if s == [] then []
    else if IsSpace(s[0]) then
      var rest := CollapseRuns(s[1..], true);
      if inRun then rest else " " + rest
    else
      [s[0]] + CollapseRuns(s[1..], false)
  }

  /**
   * The collapsed text has no two whitespace characters in a row and no
   * whitespace but the plain space; it brings in no reserved character; it
   * is empty only when its input is, and starts with whitespace exactly when
   * its input does (unless a run was already open, when it never does).
   */
  lemma {:induction false} CollapseIsClean(s: string, inRun: bool)
    ensures var r := CollapseRuns(s, inRun);
      && NoDoubleSpace(r) && OnlyPlainSpaces(r)
      && (NoReserved(s) ==> NoReserved(r))
      && (inRun ==> r == [] || !IsSpace(r[0]))
      && (!inRun ==> (r == [] <==> s == []))
      && (s != [] && !inRun ==> (IsSpace(r[0]) <==> IsSpace(s[0])))
  {
    if s != [] {
      var r := CollapseRuns(s, inRun);
      if IsSpace(s[0]) {
        var rest := CollapseRuns(s[1..], true);
        CollapseIsClean(s[1..], true);
        if !inRun {
          ConsSpaceIsClean(rest);
        }
      } else {
        var rest := CollapseRuns(s[1..], false);
        CollapseIsClean(s[1..], false);
        ConsWordIsClean(s, rest);
      }
    }
  }

  /** A space put before text that does not start with whitespace keeps it clean. */
  lemma ConsSpaceIsClean(rest: string)
    requires NoDoubleSpace(rest) && OnlyPlainSpaces(rest)
    requires rest == [] || !IsSpace(rest[0])
    ensures NoDoubleSpace(" " + rest) && OnlyPlainSpaces(" " + rest)
    ensures NoReserved(rest) ==> NoReserved(" " + rest)
  {
    var r := " " + rest;
    forall i | 1 <= i < |r| ensures r[i] == rest[i - 1] { }
  }

  /** A character that is not whitespace put before clean text keeps it clean. */
  lemma ConsWordIsClean(s: string, rest: string)
    requires s != [] && !IsSpace(s[0])
    requires NoDoubleSpace(rest) && OnlyPlainSpaces(rest)
    ensures NoDoubleSpace([s[0]] + rest) && OnlyPlainSpaces([s[0]] + rest)
    ensures !IsReserved(s[0]) && NoReserved(rest) ==> NoReserved([s[0]] + rest)
  {
    var r := [s[0]] + rest;
    forall i | 1 <= i < |r| ensures r[i] == rest[i - 1] { }
  }

  /** Collapsing keeps every character that is not whitespace, in order. */
  lemma {:induction false} CollapseKeepsNonSpace(s: string, inRun: bool)
    ensures NonSpace(CollapseRuns(s, inRun)) == NonSpace(s)
  {
    if s != [] {
      var r := CollapseRuns(s, inRun);
      if IsSpace(s[0]) {
        var rest := CollapseRuns(s[1..], true);
        CollapseKeepsNonSpace(s[1..], true);
        assert (" " + rest)[1..] == rest;
      } else {
        var rest := CollapseRuns(s[1..], false);
        CollapseKeepsNonSpace(s[1..], false);
        assert r[1..] == rest;
      }
    }
  }

  /** No character is whitespace: a single word. */
  predicate NoSpace(s: string) {
    forall i :: 0 <= i < |s| ==> !IsSpace(s[i])
  }

  /** Whether a run of whitespace is open after `a`, given whether one was open before it. */
  function EndsInRun(a: string, inRun: bool): bool {
    if a == [] then inRun else IsSpace(a[|a| - 1])
  }

  /**
   * Collapsing works piece by piece: the text after `a` is collapsed as if
   * it stood alone, with a run open exactly when `a` ends in one.
   */
  lemma {:induction false} CollapseAppend(a: string, b: string, inRun: bool)
    ensures CollapseRuns(a + b, inRun) == CollapseRuns(a, inRun) + CollapseRuns(b, EndsInRun(a, inRun))
  {
    if a == [] {
      assert a + b == b;
    } else {
      CollapseAppend(a[1..], b, IsSpace(a[0]));
      CollapseAppendStep(a, b, inRun);
    }
  }

  /** The step of `CollapseAppend`: from the rest of `a` to the whole of it. */
  lemma CollapseAppendStep(a: string, b: string, inRun: bool)
    requires a != []
    requires CollapseRuns(a[1..] + b, IsSpace(a[0]))
          == CollapseRuns(a[1..], IsSpace(a[0])) + CollapseRuns(b, EndsInRun(a[1..], IsSpace(a[0])))
    ensures CollapseRuns(a + b, inRun) == CollapseRuns(a, inRun) + CollapseRuns(b, EndsInRun(a, inRun))
  {
    CollapseStepAppend(a, b, inRun);
    CollapseStep(a, inRun);
    EndsInRunTail(a, inRun);
    var head, restA, restB := CollapseHead(a[0], inRun), CollapseRuns(a[1..], IsSpace(a[0])), CollapseRuns(b, EndsInRun(a, inRun));
    ConcatAssoc(head, restA, restB);
  }

  lemma ConcatAssoc(x: string, y: string, z: string)
    ensures x + (y + z) == (x + y) + z
  {
  }

  lemma CollapseStepAppend(a: string, b: string, inRun: bool)
    requires a != []
    ensures CollapseRuns(a + b, inRun) == CollapseHead(a[0], inRun) + CollapseRuns(a[1..] + b, IsSpace(a[0]))
  {
    var ab := a + b;
    assert ab[0] == a[0] && ab[1..] == a[1..] + b;
    CollapseStep(ab, inRun);
  }

  lemma EndsInRunTail(a: string, inRun: bool)
    requires a != []
    ensures EndsInRun(a[1..], IsSpace(a[0])) == EndsInRun(a, inRun)
  {
    if a[1..] != [] {
      assert a[1..][|a[1..]| - 1] == a[|a| - 1];
    }
  }

  /** What the first character of a text collapses to. */
  function CollapseHead(c: char, inRun: bool): string {
    if IsSpace(c) then (if inRun then [] else " ") else [c]
  }

  lemma CollapseStep(s: string, inRun: bool)
    requires s != []
    ensures CollapseRuns(s, inRun) == CollapseHead(s[0], inRun) + CollapseRuns(s[1..], IsSpace(s[0]))
  {
  }

  /** A word comes through unchanged. */
  lemma {:induction false} CollapseWord(w: string, inRun: bool)
    requires NoSpace(w)
    ensures CollapseRuns(w, inRun) == w
  {
    if w != [] {
      assert NoSpace(w[1..]) by {
        forall i | 0 <= i < |w[1..]| ensures !IsSpace(w[1..][i]) { assert w[1..][i] == w[i + 1]; }
      }
      CollapseWord(w[1..], false);
    }
  }

  /** A run of whitespace becomes one space, or nothing when a run is already open. */
  lemma {:induction false} CollapseRun(w: string, inRun: bool)
    requires w != [] && AllSpace(w)
    ensures CollapseRuns(w, inRun) == if inRun then [] else " "
  {
    if |w| > 1 {
      assert AllSpace(w[1..]) by {
        forall i | 0 <= i < |w[1..]| ensures IsSpace(w[1..][i]) { assert w[1..][i] == w[i + 1]; }
      }
      CollapseRun(w[1..], true);
    }
  }

  /**
   * A run of whitespace between two characters that are not whitespace
   * leaves exactly one space between what the two sides collapse to.
   */
  lemma CollapseBetweenWords(a: string, w: string, b: string, inRun: bool)
    requires a != [] && !IsSpace(a[|a| - 1])
    requires w != [] && AllSpace(w)
    requires b != [] && !IsSpace(b[0])
    ensures CollapseRuns(a + w + b, inRun) == CollapseRuns(a, inRun) + " " + CollapseRuns(b, false)
  {
    CollapseAppend(a + w, b, inRun);
    CollapseAppend(a, w, inRun);
    CollapseRun(w, false);
    assert (a + w)[|a + w| - 1] == w[|w| - 1];
  }

  /** Third step: `name[:100]`. */
  function Truncate(s: string): (r: string)
    ensures |r| <= |s| && |r| <= MaxNameLength && r == s[..|r|]
    ensures |s| <= MaxNameLength ==> r == s
    ensures |s| > MaxNameLength ==> |r| == MaxNameLength
    ensures s != [] ==> r != []
  {
    if |s| <= MaxNameLength then s else s[..MaxNameLength]
  }

  /** A slice keeps each property that holds of every character or every neighbouring pair. */
  lemma SliceKeepsClean(s: string, lo: nat, hi: nat)
    requires lo <= hi <= |s|
    ensures NoReserved(s) ==> NoReserved(s[lo..hi])
    ensures NoDoubleSpace(s) ==> NoDoubleSpace(s[lo..hi])
    ensures OnlyPlainSpaces(s) ==> OnlyPlainSpaces(s[lo..hi])
  {
    var t := s[lo..hi];
    if NoDoubleSpace(s) {
      forall i | 0 <= i < |t| - 1 ensures !(IsSpace(t[i]) && IsSpace(t[i + 1])) {
        assert t[i] == s[lo + i] && t[i + 1] == s[lo + i + 1];
      }
    }
  }

  /**
   * Truncating a stripped slice of `s` gives a slice of `s` again: it keeps
   * the properties of `s` that slices keep, and does not start with
   * whitespace.
   */
  lemma CutIsSlice(s: string, stripped: string, off: nat)
    requires off + |stripped| <= |s| && stripped == s[off..off + |stripped|]
    requires IsStripped(stripped)
    ensures var cut := Truncate(stripped);
      && (NoReserved(s) ==> NoReserved(cut))
      && (NoDoubleSpace(s) ==> NoDoubleSpace(cut))
      && (OnlyPlainSpaces(s) ==> OnlyPlainSpaces(cut))
      && (cut == [] || !IsSpace(cut[0]))
  {
    var cut := Truncate(stripped);
    assert cut == s[off..off + |cut|] by {
      assert s[off..off + |stripped|][..|cut|] == s[off..off + |cut|];
    }
    SliceKeepsClean(s, off, off + |cut|);
    if cut != [] {
      assert cut[0] == stripped[0];
    }
  }

  /** `sanitize_filename(name)`. */
  function SanitizeFilename(name: string): (r: string)
    ensures 0 < |r| <= MaxNameLength
  {
    var cut := Truncate(Strip(CollapseRuns(ReplaceReserved(name), false)));
    if cut == [] then Placeholder else cut
  }

  /**
   * What `sanitize_filename` guarantees of a name: 1 to 100 characters, none
   * of `\ / * ? : " < > |`, no leading whitespace, and single plain spaces
   * only. Control characters such as NUL pass, and the length in bytes is
   * not limited.
   */
  predicate IsSafeName(r: string) {
    0 < |r| <= MaxNameLength && NoReserved(r) && !IsSpace(r[0])
    && NoDoubleSpace(r) && OnlyPlainSpaces(r)
  }

  /**
   * Whatever the title, the sanitised name is never empty, is at most 100
   * characters long, holds none of the reserved characters, does not start
   * with whitespace, never has two whitespace characters in a row and holds
   * no whitespace but the plain space.
   */
  lemma SanitizeIsSafe(name: string)
    ensures IsSafeName(SanitizeFilename(name))
  {
    var collapsed := CollapseRuns(ReplaceReserved(name), false);
    var cut := Truncate(Strip(collapsed));
    if cut == [] {
      PlaceholderIsSafe();
    } else {
      CollapseIsClean(ReplaceReserved(name), false);
      StripSplit(collapsed);
      CutIsSlice(collapsed, Strip(collapsed), |collapsed| - |LStrip(collapsed)|);
    }
  }

  lemma PlaceholderIsSafe()
    ensures IsSafeName(Placeholder)
  {
    assert forall i :: 0 <= i < |Placeholder| ==> !IsSpace(Placeholder[i]) && !IsReserved(Placeholder[i]);
  }

  /** The whitespace-free text of a string is that of its strip. */
  lemma NonSpaceStrip(s: string)
    ensures NonSpace(Strip(s)) == NonSpace(s)
  {
    var off := |s| - |LStrip(s)|;
    assert IsStripOf(Strip(s), s, off) by {
      StripSplit(s);
    }
    NonSpaceOfStrip(Strip(s), s, off);
  }

  lemma NonSpaceOfStrip(r: string, s: string, off: int)
    requires IsStripOf(r, s, off)
    ensures NonSpace(r) == NonSpace(s)
  {
    NonSpaceAround(s, off, off + |r|);
  }

  /** Whitespace on either side of a slice adds nothing to the text without whitespace. */
  lemma NonSpaceAround(s: string, lo: nat, hi: nat)
    requires lo <= hi <= |s| && AllSpace(s[..lo]) && AllSpace(s[hi..])
    ensures NonSpace(s[lo..hi]) == NonSpace(s)
  {
    assert s == s[..lo] + s[lo..hi] + s[hi..];
    NonSpaceConcat(s[..lo], s[lo..hi], s[hi..]);
  }

  lemma NonSpaceConcat(head: string, mid: string, tail: string)
    requires AllSpace(head) && AllSpace(tail)
    ensures NonSpace(head + mid + tail) == NonSpace(mid)
  {
    NonSpaceAppend(head, mid);
    NonSpaceAllSpace(head);
    NonSpaceAppend(head + mid, tail);
    NonSpaceAllSpace(tail);
  }

  lemma {:induction false} NonSpaceAppend(a: string, b: string)
    ensures NonSpace(a + b) == NonSpace(a) + NonSpace(b)
  {
    if a == [] {
      assert a + b == b;
    } else {
      assert (a + b)[1..] == a[1..] + b;
      NonSpaceAppend(a[1..], b);
      NonSpaceHead(a + b);
      NonSpaceHead(a);
    }
  }

  lemma NonSpaceHead(s: string)
    requires s != []
    ensures NonSpace(s) == (if IsSpace(s[0]) then [] else [s[0]]) + NonSpace(s[1..])
  {
  }

  lemma {:induction false} NonSpaceAllSpace(s: string)
    requires AllSpace(s)
    ensures NonSpace(s) == []
  {
    if s != [] { NonSpaceAllSpace(s[1..]); }
  }

  /**
   * Sanitising a title of at most 100 characters that is not blank changes
   * nothing but whitespace and the reserved characters: its text without
   * whitespace is the title's with every reserved character turned into `_`.
   */
  lemma SanitizeKeepsText(name: string)
    requires |name| <= MaxNameLength && !AllSpace(name)
    ensures NonSpace(SanitizeFilename(name)) == NonSpace(ReplaceReserved(name))
  {
    var replaced := ReplaceReserved(name);
    var collapsed := CollapseRuns(replaced, false);
    var stripped := Strip(collapsed);
    assert !AllSpace(replaced) by {
      var i :| 0 <= i < |name| && !IsSpace(name[i]);
      assert !IsSpace(replaced[i]);
    }
    if NonSpace(replaced) == [] {
      NonSpaceEmpty(replaced);
    }
    CollapseKeepsNonSpace(replaced, false);
    if AllSpace(collapsed) {
      NonSpaceAllSpace(collapsed);
    }
    assert stripped != [];
    assert Truncate(stripped) == stripped;
    NonSpaceStrip(collapsed);
  }

  /**
   * A title that is clean once its reserved characters are replaced (short
   * enough, stripped, single plain spaces only) is saved under exactly that
   * replaced text; in particular a title that is already clean is its own
   * file name.
   */
  lemma SanitizeKeepsCleanName(name: string)
    requires 0 < |name| <= MaxNameLength
    requires IsStripped(ReplaceReserved(name))
    requires NoDoubleSpace(ReplaceReserved(name)) && OnlyPlainSpaces(ReplaceReserved(name))
    ensures SanitizeFilename(name) == ReplaceReserved(name)
    ensures NoReserved(name) ==> SanitizeFilename(name) == name
  {
    var replaced := ReplaceReserved(name);
    CollapseKeepsSingleSpaces(replaced, false);
    StripStripped(replaced);
    if NoReserved(name) {
      assert replaced == name;
    }
  }

  /**
   * Sanitising a sanitised name again changes nothing, unless the cut at
   * 100 characters left it ending in a space, which the second pass strips.
   */
  lemma SanitizeIdempotent(name: string)
    ensures var r := SanitizeFilename(name);
      IsStripped(r) ==> SanitizeFilename(r) == r
  {
    var r := SanitizeFilename(name);
    SanitizeIsSafe(name);
    if IsStripped(r) {
      assert ReplaceReserved(r) == r;
      SanitizeKeepsCleanName(r);
    }
  }

  /**
   * The side condition is needed: a clean title longer than 100 characters
   * whose 100th character is a space is cut just after that space, and a
   * second pass strips it.
   */
  lemma CutAtSpace(name: string)
    requires NoReserved(name) && NoDoubleSpace(name) && OnlyPlainSpaces(name) && IsStripped(name)
    requires |name| > MaxNameLength && name[MaxNameLength - 1] == ' '
    ensures SanitizeFilename(name) == name[..MaxNameLength]
    ensures SanitizeFilename(name[..MaxNameLength]) != name[..MaxNameLength]
  {
    CleanLongName(name);
    ShortIsStripped(name[..MaxNameLength]);
  }

  /** A clean title longer than 100 characters is saved under its first 100. */
  lemma CleanLongName(name: string)
    requires NoReserved(name) && NoDoubleSpace(name) && OnlyPlainSpaces(name) && IsStripped(name)
    requires |name| > MaxNameLength
    ensures SanitizeFilename(name) == name[..MaxNameLength]
  {
    assert ReplaceReserved(name) == name;
    CollapseKeepsSingleSpaces(name, false);
    StripStripped(name);
  }

  /** A title of at most 100 characters is saved under a name that is stripped at both ends. */
  lemma ShortIsStripped(name: string)
    requires |name| <= MaxNameLength
    ensures IsStripped(SanitizeFilename(name))
  {
    var collapsed := CollapseRuns(ReplaceReserved(name), false);
    StripSplit(collapsed);
    assert Truncate(Strip(collapsed)) == Strip(collapsed);
    assert !IsSpace(Placeholder[0]) && !IsSpace(Placeholder[|Placeholder| - 1]);
  }

  /** For instance 99 letters, a space and one more letter. */
  lemma CutAtSpaceExample()
    ensures var letters := seq(99, i => 'a');
      var r := SanitizeFilename(letters + " b");
      r == letters + " " && SanitizeFilename(r) != r
  {
    var letters := seq(99, i => 'a');
    LettersSpaceLetter(99);
    CutAtSpace(letters + " b");
    assert (letters + " b")[..MaxNameLength] == letters + " ";
  }

  /** Some letters, a space and a letter make a clean title. */
  lemma LettersSpaceLetter(n: nat)
    requires n > 0
    ensures var name := seq(n, i => 'a') + " b";
      && NoReserved(name) && NoDoubleSpace(name) && OnlyPlainSpaces(name)
      && IsStripped(name) && name[n] == ' '
  {
    var name := seq(n, i => 'a') + " b";
    assert forall i :: 0 <= i < |name| ==> name[i] == 'a' || (i == n && name[i] == ' ') || (i == n + 1 && name[i] == 'b');
  }

  /** A single word of at most 100 characters, with no reserved character, is its own name. */
  lemma SanitizeWord(w: string)
    requires 0 < |w| <= MaxNameLength && NoSpace(w) && NoReserved(w)
    ensures SanitizeFilename(w) == w
  {
    assert ReplaceReserved(w) == w;
    CollapseWord(w, false);
    StripStripped(w);
  }

  /**
   * Two words with any run of whitespace between them, short enough
   * together, are saved as the two words with one space between.
   */
  lemma SanitizeTwoWords(a: string, w: string, b: string)
    requires a != [] && NoSpace(a) && NoReserved(a)
    requires w != [] && AllSpace(w)
    requires b != [] && NoSpace(b) && NoReserved(b)
    requires |a| + 1 + |b| <= MaxNameLength
    ensures SanitizeFilename(a + w + b) == a + " " + b
  {
    var name := a + w + b;
    assert ReplaceReserved(name) == name by {
      forall i | 0 <= i < |name| ensures !IsReserved(name[i]) {
        if i < |a| { assert name[i] == a[i]; }
        else if i < |a| + |w| { assert name[i] == w[i - |a|]; }
        else { assert name[i] == b[i - |a| - |w|]; }
      }
    }
    CollapseBetweenWords(a, w, b, false);
    CollapseWord(a, false);
    CollapseWord(b, false);
    var r := a + " " + b;
    assert r[0] == a[0] && r[|r| - 1] == b[|b| - 1];
    StripStripped(r);
  }

  lemma {:induction false} CollapseKeepsSingleSpaces(s: string, inRun: bool)
    requires NoDoubleSpace(s) && OnlyPlainSpaces(s)
    requires inRun ==> s == [] || !IsSpace(s[0])
    ensures CollapseRuns(s, inRun) == s
  {
    if s != [] {
      CollapseKeepsSingleSpaces(s[1..], IsSpace(s[0]));
    }
  }

  /** A title that is empty or all whitespace is saved as `Untitled`. */
  lemma {:induction false} SanitizeBlank(name: string)
    requires AllSpace(name)
    ensures SanitizeFilename(name) == Placeholder
  {
    var replaced := ReplaceReserved(name);
    assert replaced == name;
    var collapsed := CollapseRuns(replaced, false);
    NonSpaceAllSpace(replaced);
    CollapseKeepsNonSpace(replaced, false);
    NonSpaceEmpty(collapsed);
  }

  lemma {:induction false} NonSpaceEmpty(s: string)
    requires NonSpace(s) == []
    ensures AllSpace(s)
  {
    if s != [] { NonSpaceEmpty(s[1..]); }
  }

  /** Worked example: the title `A/B: Test?` is saved under the name `A_B_ Test_`. */
  lemma SanitizeExample()
    ensures SanitizeFilename("A/B: Test?") == "A_B_ Test_"
  {
    ReplaceExample();
    CleanExample();
    SanitizeKeepsCleanName("A/B: Test?");
  }

  lemma ReplaceExample()
    ensures ReplaceReserved("A/B: Test?") == "A_B_ Test_"
  {
    var replaced := ReplaceReserved("A/B: Test?");
    assert forall i :: 0 <= i < 10 ==> replaced[i] == "A_B_ Test_"[i];
  }

  lemma CleanExample()
    ensures IsStripped("A_B_ Test_") && NoDoubleSpace("A_B_ Test_") && OnlyPlainSpaces("A_B_ Test_")
  {
    var clean := "A_B_ Test_";
    assert forall i :: 0 <= i < 10 && i != 4 ==> !IsSpace(clean[i]);
  }

}
