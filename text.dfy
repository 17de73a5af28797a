/**
 * The few Python string built-ins the exporter relies on: `str.isspace`
 * (which is also what the `\s` class of `re` matches on str patterns),
 * `str.strip` and `str.join`.
 */
module Text {

  /** Python's `str.isspace` on one code point. */
  predicate IsSpace(c: char) {
    ('\t' <= c <= '\r')                   // \t \n \v \f \r
    || ('\U{1c}' <= c <= ' ')             // file/group/record/unit separators, space
    || c == '\U{85}' || c == '\U{a0}' || c == '\U{1680}'
    || ('\U{2000}' <= c <= '\U{200a}')
    || c == '\U{2028}' || c == '\U{2029}' || c == '\U{202f}'
    || c == '\U{205f}' || c == '\U{3000}'
  }

  predicate AllSpace(s: string) {
    forall i :: 0 <= i < |s| ==> IsSpace(s[i])
  }

  /** Neither starts nor ends with whitespace. */
  predicate IsStripped(s: string) {
    s == [] || (!IsSpace(s[0]) && !IsSpace(s[|s| - 1]))
  }

  /** `s.lstrip()`: drops the leading whitespace. */
  function LStrip(s: string): (r: string)
    ensures |r| <= |s|
  {
    if s != [] && IsSpace(s[0]) then LStrip(s[1..]) else s
  }

  /** `s.rstrip()`: drops the trailing whitespace. */
  function RStrip(s: string): (r: string)
    ensures |r| <= |s|
  {
    if s != [] && IsSpace(s[|s| - 1]) then RStrip(s[..|s| - 1]) else s
  }

  /**
   * `l` is `s` without its leading whitespace: a suffix of `s`, what it
   * drops is all whitespace, and it does not start with whitespace.
   */
  predicate IsLStripOf(l: string, s: string) {
    && |l| <= |s| && l == s[|s| - |l|..]
    && (forall i :: 0 <= i < |s| - |l| ==> IsSpace(s[i]))
    && (l == [] || !IsSpace(l[0]))
  }

  /**
   * `r` is `s` without its trailing whitespace: a prefix of `s`, what it
   * drops is all whitespace, and it does not end with whitespace.
   */
  predicate IsRStripOf(r: string, s: string) {
    && |r| <= |s| && r == s[..|r|]
    && (forall i :: |r| <= i < |s| ==> IsSpace(s[i]))
    && (r == [] || !IsSpace(r[|r| - 1]))
  }

  lemma {:induction false} LStripSuffix(s: string)
    ensures IsLStripOf(LStrip(s), s)
  {
    if s != [] && IsSpace(s[0]) {
      LStripSuffix(s[1..]);
      LeadingSpaceStep(s, LStrip(s[1..]));
    }
  }

  /** Dropping one more leading whitespace character keeps `l` the left strip. */
  lemma LeadingSpaceStep(s: string, l: string)
    requires s != [] && IsSpace(s[0]) && IsLStripOf(l, s[1..])
    ensures IsLStripOf(l, s)
  {
    var t := s[1..];
    assert t[|t| - |l|..] == s[|s| - |l|..];
    forall i | 0 <= i < |s| - |l| ensures IsSpace(s[i]) {
      if i > 0 { assert s[i] == t[i - 1]; }
    }
  }

  lemma {:induction false} RStripPrefix(s: string)
    ensures IsRStripOf(RStrip(s), s)
  {
    if s != [] && IsSpace(s[|s| - 1]) {
      RStripPrefix(s[..|s| - 1]);
      TrailingSpaceStep(s, RStrip(s[..|s| - 1]));
    }
  }

  /** Dropping one more trailing whitespace character keeps `r` the right strip. */
  lemma TrailingSpaceStep(s: string, r: string)
    requires s != [] && IsSpace(s[|s| - 1]) && IsRStripOf(r, s[..|s| - 1])
    ensures IsRStripOf(r, s)
  {
    var t := s[..|s| - 1];
    assert t[..|r|] == s[..|r|];
    forall i | |r| <= i < |s| ensures IsSpace(s[i]) {
      if i < |s| - 1 { assert s[i] == t[i]; }
    }
  }

  /**
   * `s.strip()`: neither starts nor ends with whitespace, and is empty
   * exactly when `s` is all whitespace. `StripSplit` says where it sits in `s`.
   */
  function Strip(s: string): (r: string)
    ensures IsStripped(r)
    ensures r == [] <==> AllSpace(s)
  {
    StripSplit(s);
    RStrip(LStrip(s))
  }

  /**
   * `r` is what stripping `s` leaves: the slice of `s` at `off` that neither
   * starts nor ends with whitespace, with only whitespace on either side of
   * it, and empty exactly when `s` is all whitespace.
   */
  predicate IsStripOf(r: string, s: string, off: int) {
    && 0 <= off && off + |r| <= |s| && r == s[off..off + |r|]
    && AllSpace(s[..off]) && AllSpace(s[off + |r|..])
    && IsStripped(r)
    && (r == [] <==> AllSpace(s))
  }

  /**
   * Stripping removes only whitespace: the strip is the slice of `s` that
   * starts where the leading whitespace ends.
   */
  lemma StripSplit(s: string)
    ensures IsStripOf(RStrip(LStrip(s)), s, |s| - |LStrip(s)|)
  {
    LStripSuffix(s);
    RStripPrefix(LStrip(s));
    StripParts(s, LStrip(s), RStrip(LStrip(s)));
  }

  /** The same, for any suffix `l` left by dropping whitespace and prefix `r` of it left likewise. */
  lemma StripParts(s: string, l: string, r: string)
    requires IsLStripOf(l, s) && IsRStripOf(r, l)
    ensures IsStripOf(r, s, |s| - |l|)
  {
    var off := |s| - |l|;
    assert r == s[off..off + |r|] by {
      forall i | 0 <= i < |r| ensures r[i] == s[off + i] { assert r[i] == l[i]; }
    }
    assert AllSpace(s[..off]) by {
      forall i | 0 <= i < off ensures IsSpace(s[..off][i]) { assert s[..off][i] == s[i]; }
    }
    assert AllSpace(s[off + |r|..]) by {
      var tail := s[off + |r|..];
      forall i | 0 <= i < |tail| ensures IsSpace(tail[i]) { assert tail[i] == l[|r| + i]; }
    }
    if r != [] {
      assert r[0] == l[0];
    }
    if l != [] {
      assert l[0] == s[off];
    }
  }

  /** A string that is already stripped is its own strip. */
  lemma StripStripped(s: string)
    requires IsStripped(s)
    ensures Strip(s) == s
  {
  }

  /** `sep.join(xs)`. */
  function Join(xs: seq<string>, sep: string): (r: string)
  {
    if xs == [] then []
    else if |xs| == 1 then xs[0]
    else Join(xs[..|xs| - 1], sep) + sep + xs[|xs| - 1]
  }

  lemma JoinSnoc(xs: seq<string>, x: string, sep: string)
    requires xs != []
    ensures Join(xs + [x], sep) == Join(xs, sep) + sep + x
  {
    assert (xs + [x])[..|xs|] == xs;
  }

  /**
   * Every element of a join stands in it whole, in its place, between the
   * join of the elements before it and the join of those after it, with one
   * separator on each side that has a neighbour.
   */
  lemma {:induction false} JoinAt(xs: seq<string>, sep: string, k: nat)
    requires k < |xs|
    ensures Join(xs, sep)
         == Join(xs[..k], sep) + (if k == 0 then "" else sep) + xs[k]
            + (if k + 1 == |xs| then "" else sep + Join(xs[k + 1..], sep))
  {
    var upTo := xs[..k + 1];
    if k > 0 {
      assert upTo == xs[..k] + [xs[k]];
      JoinSnoc(xs[..k], xs[k], sep);
    }
    assert Join(upTo, sep) == Join(xs[..k], sep) + (if k == 0 then "" else sep) + xs[k];
    if k + 1 < |xs| {
      assert xs == upTo + xs[k + 1..];
      JoinAppend(upTo, xs[k + 1..], sep);
    } else {
      assert upTo == xs;
    }
  }

  /** Joining two non-empty lists one after the other puts one separator between their joins. */
  lemma {:induction false} JoinAppend(a: seq<string>, b: seq<string>, sep: string)
    requires a != [] && b != []
    ensures Join(a + b, sep) == Join(a, sep) + sep + Join(b, sep)
  {
    var init, last := b[..|b| - 1], b[|b| - 1];
    if init == [] {
      assert a + b == a + [last];
      JoinSnoc(a, last, sep);
    } else {
      assert a + b == (a + init) + [last];
      assert b == init + [last];
      JoinSnoc(a + init, last, sep);
      JoinAppend(a, init, sep);
      JoinSnoc(init, last, sep);
    }
  }

  /**
   * With a whitespace separator, a join is all whitespace exactly when every
   * element is.
   */
  lemma {:induction false} JoinAllSpace(xs: seq<string>, sep: string)
    requires AllSpace(sep)
    ensures AllSpace(Join(xs, sep)) <==> forall i :: 0 <= i < |xs| ==> AllSpace(xs[i])
  {
    if |xs| > 1 {
      var init := xs[..|xs| - 1];
      JoinAllSpace(init, sep);
      var a := Join(init, sep);
      var last := xs[|xs| - 1];
      var j := a + sep + last;
      if AllSpace(j) {
        forall i | 0 <= i < |a| ensures IsSpace(a[i]) { assert a[i] == j[i]; }
        forall i | 0 <= i < |last| ensures IsSpace(last[i]) { assert last[i] == j[|a| + |sep| + i]; }
        forall i | 0 <= i < |xs| ensures AllSpace(xs[i]) {
          if i < |xs| - 1 { assert xs[i] == init[i]; }
        }
      }
      if forall i :: 0 <= i < |xs| ==> AllSpace(xs[i]) {
        assert forall i :: 0 <= i < |init| ==> AllSpace(init[i]) by {
          forall i | 0 <= i < |init| ensures AllSpace(init[i]) { assert init[i] == xs[i]; }
        }
        assert AllSpace(last);
        forall i | 0 <= i < |j| ensures IsSpace(j[i]) {
          if i < |a| { assert j[i] == a[i]; }
          else if i < |a| + |sep| { assert j[i] == sep[i - |a|]; }
          else { assert j[i] == last[i - |a| - |sep|]; }
        }
      }
    }
  }

}
