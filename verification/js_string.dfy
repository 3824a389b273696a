/**
  `String.prototype.trim`: removal of leading and trailing white space and
  line terminators, as ECMA-262 defines them (the WhiteSpace and
  LineTerminator productions).
 */
module JsString {
  import opened Sequences

  /** The characters `trim` removes. */
  predicate IsTrimmable(c: char) {
    || ('\U{9}' <= c <= '\U{D}')        // tab, line feed, vertical tab, form feed, carriage return
    || c == ' ' || c == '\U{A0}' || c == '\U{1680}'
    || ('\U{2000}' <= c <= '\U{200A}')  // the typographic spaces
    || c == '\U{2028}' || c == '\U{2029}' // line and paragraph separators
    || c == '\U{202F}' || c == '\U{205F}' || c == '\U{3000}'
    || c == '\U{FEFF}'                   // byte order mark
  }

  /**
    `trim`: the part of `s` after its leading trimmable characters and
    before its trailing ones.
   */
  function Trim(s: string): (t: string)
    ensures var lo := LeadingCount(s, IsTrimmable);
            lo + |t| <= |s| && t == s[lo..lo + |t|]
  {
    var rest := s[LeadingCount(s, IsTrimmable)..];
    rest[..|rest| - TrailingCount(rest, IsTrimmable)]
  }

  /**
    The trimmed string is the middle of `s` that neither starts nor ends with
    a trimmable character, everything around it being trimmable.
   */
  lemma TrimIsCore(s: string)
    ensures var t := Trim(s);
            var lo := LeadingCount(s, IsTrimmable);
            && (forall i :: 0 <= i < lo ==> IsTrimmable(s[i]))
            && (forall i :: lo + |t| <= i < |s| ==> IsTrimmable(s[i]))
            && (|t| > 0 ==> !IsTrimmable(t[0]) && !IsTrimmable(t[|t| - 1]))
  {
    var lo := LeadingCount(s, IsTrimmable);
    var rest := s[lo..];
    var n := TrailingCount(rest, IsTrimmable);
    var t := Trim(s);
    assert t == rest[..|rest| - n];
    forall i | lo + |t| <= i < |s|
      ensures IsTrimmable(s[i])
    {
      assert s[i] == rest[i - lo];
    }
    if |t| > 0 {
      assert t[0] == rest[0] == s[lo];
      assert t[|t| - 1] == rest[|rest| - n - 1];
    }
  }

  /** A string trims to empty exactly when all its characters are trimmable. */
  lemma TrimEmptyIffBlank(s: string)
    ensures Trim(s) == "" <==> forall i :: 0 <= i < |s| ==> IsTrimmable(s[i])
  {
    var lo := LeadingCount(s, IsTrimmable);
    TrimIsCore(s);
    if lo < |s| {
      var rest := s[lo..];
      assert !IsTrimmable(rest[0]);
      assert TrailingCount(rest, IsTrimmable) < |rest|;
    }
  }

  /** Trimming twice is trimming once. */
  lemma TrimIdempotent(s: string)
    ensures Trim(Trim(s)) == Trim(s)
  {
    var t := Trim(s);
    TrimIsCore(s);
    if |t| > 0 {
      assert LeadingCount(t, IsTrimmable) == 0;
      assert TrailingCount(t, IsTrimmable) == 0;
      assert t[0..] == t && t[..|t|] == t;
    }
  }
}
