/** JavaScript's String.prototype.trim, as used on both form inputs of addQuote. */
module Text {

  /** The code points that trim strips: ECMAScript's WhiteSpace (tab, vertical
      tab, form feed, space, no-break space, zero-width no-break space and every
      other space separator) and LineTerminator (line feed, carriage return, line
      and paragraph separator). */
  const TrimmableChars: seq<char> := [
    '\t', '\n', '\U{000B}', '\U{000C}', '\r', ' ', '\U{00A0}', '\U{1680}',
    '\U{2000}', '\U{2001}', '\U{2002}', '\U{2003}', '\U{2004}', '\U{2005}',
    '\U{2006}', '\U{2007}', '\U{2008}', '\U{2009}', '\U{200A}',
    '\U{2028}', '\U{2029}', '\U{202F}', '\U{205F}', '\U{3000}', '\U{FEFF}'
  ]

  /** `c` is one of TrimmableChars, spelled out one comparison per code point. */
  predicate IsTrimmable(c: char) {
    c == '\t' || c == '\n' || c == '\U{000B}' || c == '\U{000C}' || c == '\r'
    || c == ' ' || c == '\U{00A0}' || c == '\U{1680}'
    || c == '\U{2000}' || c == '\U{2001}' || c == '\U{2002}' || c == '\U{2003}'
    || c == '\U{2004}' || c == '\U{2005}' || c == '\U{2006}' || c == '\U{2007}'
    || c == '\U{2008}' || c == '\U{2009}' || c == '\U{200A}'
    || c == '\U{2028}' || c == '\U{2029}' || c == '\U{202F}' || c == '\U{205F}'
    || c == '\U{3000}' || c == '\U{FEFF}'
  }

  /** The comparisons are exactly membership in TrimmableChars. */
  lemma IsTrimmableSpec(c: char)
    ensures IsTrimmable(c) <==> c in TrimmableChars
  {
    if c in TrimmableChars {
      var k :| 0 <= k < |TrimmableChars| && TrimmableChars[k] == c;
    }
  }

  predicate AllTrimmable(s: seq<char>) {
    forall k :: 0 <= k < |s| ==> IsTrimmable(s[k])
  }

  /** Every character of `s` outside positions i..j-1 is trimmable. */
  predicate TrimmableOutside(s: seq<char>, i: nat, j: nat) {
    forall k :: 0 <= k < |s| && (k < i || j <= k) ==> IsTrimmable(s[k])
  }

  /** Neither end of `s` is a trimmable character. */
  predicate IsTrimmed(s: seq<char>) {
    s == [] || (!IsTrimmable(s[0]) && !IsTrimmable(s[|s| - 1]))
  }

  /** Scans forward from `i` over trimmable characters: the position of the
      first character trim keeps, or |s|. */
  function SkipLeading(s: seq<char>, i: nat): (k: nat)
    requires i <= |s|
    ensures i <= k <= |s|
    decreases |s| - i
  {
    if i < |s| && IsTrimmable(s[i]) then SkipLeading(s, i + 1) else i
  }

  /** Everything SkipLeading passes over is trimmable, and it stops at a
      character that is not. */
  lemma {:induction false} SkipLeadingSpec(s: seq<char>, i: nat)
    requires i <= |s|
    ensures forall k :: i <= k < SkipLeading(s, i) ==> IsTrimmable(s[k])
    ensures SkipLeading(s, i) < |s| ==> !IsTrimmable(s[SkipLeading(s, i)])
    decreases |s| - i
  {
    if i < |s| && IsTrimmable(s[i]) {
      SkipLeadingSpec(s, i + 1);
    }
  }

  /** Scans backward from `j`, not below `lo`, over trimmable characters: the
      position just after the last character trim keeps, or `lo`. */
  function SkipTrailing(s: seq<char>, lo: nat, j: nat): (k: nat)
    requires lo <= j <= |s|
    ensures lo <= k <= j
    decreases j
  {
    if lo < j && IsTrimmable(s[j - 1]) then SkipTrailing(s, lo, j - 1) else j
  }

  /** Everything SkipTrailing passes over is trimmable, and unless it reached
      `lo` it stops after a character that is not. */
  lemma {:induction false} SkipTrailingSpec(s: seq<char>, lo: nat, j: nat)
    requires lo <= j <= |s|
    ensures forall k :: SkipTrailing(s, lo, j) <= k < j ==> IsTrimmable(s[k])
    ensures lo < SkipTrailing(s, lo, j) ==> !IsTrimmable(s[SkipTrailing(s, lo, j) - 1])
    decreases j
  {
    if lo < j && IsTrimmable(s[j - 1]) {
      SkipTrailingSpec(s, lo, j - 1);
    }
  }

  /** Where the kept slice of `s` starts. */
  function TrimStart(s: seq<char>): nat {
    SkipLeading(s, 0)
  }

  /** Where the kept slice of `s` ends. */
  function TrimEnd(s: seq<char>): (k: nat)
    ensures TrimStart(s) <= k <= |s|
  {
    SkipTrailing(s, TrimStart(s), |s|)
  }

  /** `s.trim()` */
  function Trim(s: seq<char>): seq<char> {
    s[TrimStart(s)..TrimEnd(s)]
  }

  /** Trim keeps one contiguous slice of `s`, drops only trimmable characters
      around it, leaves no trimmable character at either end, and is empty
      exactly when `s` consists of trimmable characters alone. */
  lemma {:induction false} TrimSpec(s: seq<char>)
    ensures TrimmableOutside(s, TrimStart(s), TrimEnd(s))
    ensures IsTrimmed(Trim(s))
    ensures Trim(s) == [] <==> AllTrimmable(s)
  {
    var lo, hi := TrimStart(s), TrimEnd(s);
    SkipLeadingSpec(s, 0);
    SkipTrailingSpec(s, lo, |s|);
    var r := Trim(s);
    if lo < hi {
      assert r[0] == s[lo] && r[|r| - 1] == s[hi - 1];
    }
  }

  /** A string with no trimmable character at either end is its own trim. */
  lemma {:induction false} TrimOfTrimmed(s: seq<char>)
    requires IsTrimmed(s)
    ensures Trim(s) == s
  {
    if s != [] {
      assert TrimStart(s) == 0;
      assert TrimEnd(s) == |s|;
    }
  }

  /** Trimming twice is trimming once. */
  lemma {:induction false} TrimIdempotent(s: seq<char>)
    ensures Trim(Trim(s)) == Trim(s)
  {
    TrimSpec(s);
    TrimOfTrimmed(Trim(s));
  }
}
