/** Strings as sequences of code points: Python's ordering, `in`, and `.lower()`. */
module Text {

  /** a <= b, code point by code point. */
  predicate LexLeq(a: string, b: string) {
    a == "" || (b != "" && (a[0] < b[0] || (a[0] == b[0] && LexLeq(a[1..], b[1..]))))
  }

  lemma {:induction false} LexTotal(a: string, b: string)
    ensures LexLeq(a, b) || LexLeq(b, a)
  {
    if a != "" && b != "" {
      LexTotal(a[1..], b[1..]);
    }
  }

  lemma {:induction false} LexTransitive(a: string, b: string, c: string)
    requires LexLeq(a, b) && LexLeq(b, c)
    ensures LexLeq(a, c)
  {
    if a != "" && a[0] == b[0] && b[0] == c[0] {
      LexTransitive(a[1..], b[1..], c[1..]);
    }
  }

  lemma {:induction false} LexAntisymmetric(a: string, b: string)
    requires LexLeq(a, b) && LexLeq(b, a)
    ensures a == b
  {
    if a != "" {
      LexAntisymmetric(a[1..], b[1..]);
      assert a == [a[0]] + a[1..] && b == [b[0]] + b[1..];
    }
  }

  /** Case folding, one character at a time. */
  function LowerChar(c: char): char {
    if 'A' <= c <= 'Z' then c + 32 as char else c
  }

  function Lower(s: string): (r: string)
    ensures |r| == |s|
  {
    seq(|s|, i requires 0 <= i < |s| => LowerChar(s[i]))
  }

  predicate OccursAt(whole: string, part: string, i: int) {
    0 <= i <= |whole| - |part| && whole[i..i + |part|] == part
  }

  /** `part in whole`. */
  predicate Contains(whole: string, part: string) {
    exists i :: 0 <= i <= |whole| && OccursAt(whole, part, i)
  }

  lemma ContainsItself(whole: string)
    ensures Contains(whole, whole)
  {
    assert OccursAt(whole, whole, 0);
  }

  lemma {:induction false} ContainsTransitive(whole: string, middle: string, part: string)
    requires Contains(whole, middle) && Contains(middle, part)
    ensures Contains(whole, part)
  {
    var i :| 0 <= i <= |whole| && OccursAt(whole, middle, i);
    var j :| 0 <= j <= |middle| && OccursAt(middle, part, j);
    forall k | 0 <= k < |part| ensures whole[i + j + k] == part[k] {
      assert whole[i..i + |middle|][j + k] == middle[j + k];
      assert middle[j..j + |part|][k] == middle[j + k];
    }
    assert whole[i + j..i + j + |part|] == part;
    assert OccursAt(whole, part, i + j);
  }

  /** `part` occurs in `whole` exactly when `whole` is something, `part`, and something. */
  lemma {:induction false} ContainsIff(whole: string, part: string)
    ensures Contains(whole, part) <==> exists before, after :: whole == before + part + after
  {
    if Contains(whole, part) {
      var i :| 0 <= i <= |whole| && OccursAt(whole, part, i);
      assert whole == whole[..i] + part + whole[i + |part|..];
    }
    if before, after :| whole == before + part + after {
      assert whole[|before|..|before| + |part|] == part;
      assert OccursAt(whole, part, |before|);
    }
  }

  /** The same letter, in either case. */
  predicate SameLetter(a: char, b: char) {
    a == b || ('A' <= a <= 'Z' && b as int == a as int + 32) || ('A' <= b <= 'Z' && a as int == b as int + 32)
  }

  /** Folding forgets exactly the case of letters. */
  lemma {:induction false} FoldsCase(a: string, b: string)
    ensures Lower(a) == Lower(b) <==> |a| == |b| && forall i :: 0 <= i < |a| ==> SameLetter(a[i], b[i])
    ensures forall i :: 0 <= i < |a| ==> !('A' <= Lower(a)[i] <= 'Z')
  {
    if Lower(a) == Lower(b) {
      forall i | 0 <= i < |a| ensures SameLetter(a[i], b[i]) {
        assert Lower(a)[i] == Lower(b)[i];
      }
    }
  }
}
