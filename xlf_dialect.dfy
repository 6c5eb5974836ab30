/** The three identifier conventions an XLIFF document may follow. */
module XlfDialect {

  datatype Dialect = Standard | RCWinTrans11 | MultilingualAppToolkit

  /** ASCII case folding, standing in for the invariant culture's case-insensitive comparison. */
  function FoldCase(c: char): char {
    if 'A' <= c <= 'Z' then ((c as int) + 32) as char else c
  }

  /** `s.StartsWith(prefix, StringComparison.InvariantCultureIgnoreCase)`. */
  predicate StartsWithIgnoreCase(s: string, prefix: string) {
    |prefix| <= |s| && forall i :: 0 <= i < |prefix| ==> FoldCase(s[i]) == FoldCase(prefix[i])
  }

  /** A string that begins with the prefix itself begins with it ignoring case. */
  lemma StartsWithIgnoreCaseConcat(prefix: string, s: string)
    ensures StartsWithIgnoreCase(prefix + s, prefix)
  {
  }
}
