/** ASCII case mapping, as the database's `uuid` type applies it to hexadecimal digits. */
module Ascii {

  /** Every upper-case ASCII letter mapped to lower case; every other character kept. */
  function Lower(s: string): (r: string)
    ensures |r| == |s|
    ensures forall i :: 0 <= i < |s| ==> r[i] == if 'A' <= s[i] <= 'Z' then (s[i] as int + 32) as char else s[i]
  {
    seq(|s|, i requires 0 <= i < |s| => if 'A' <= s[i] <= 'Z' then (s[i] as int + 32) as char else s[i])
  }

  /** No upper-case ASCII letter occurs in `s`. */
  predicate NoUpper(s: string) {
    forall i :: 0 <= i < |s| ==> !('A' <= s[i] <= 'Z')
  }

  /** A string is its own lower-case form exactly when it has no upper-case letter. */
  lemma NoUpperIffLower(s: string)
    ensures NoUpper(s) <==> Lower(s) == s
    ensures NoUpper(Lower(s))
  {
    if Lower(s) == s {
      forall i | 0 <= i < |s| ensures !('A' <= s[i] <= 'Z') {
        assert Lower(s)[i] == s[i];
      }
    }
  }

  /** Lower-casing twice is lower-casing once. */
  lemma LowerIdempotent(s: string)
    ensures Lower(Lower(s)) == Lower(s)
  {
  }

  /** Lower-casing keeps every character that is not an upper-case letter, '-' among them. */
  lemma LowerKeepsDash(s: string)
    ensures '-' in s <==> '-' in Lower(s)
  {
    if '-' in s {
      var i :| 0 <= i < |s| && s[i] == '-';
      assert Lower(s)[i] == '-';
    }
    if '-' in Lower(s) {
      var i :| 0 <= i < |s| && Lower(s)[i] == '-';
      assert s[i] == '-';
    }
  }
}
