/** The string operations the library search uses: `toLowerCase`, `includes`
    and `join`. */
module Text {

  /** Lower-casing of one character; only the ASCII letters A-Z are mapped. */
  function LowerChar(c: char): char
  {
    if 'A' <= c <= 'Z' then (c as int + 32) as char else c
  }

  /** `s.toLowerCase()`, restricted to ASCII letters. */
  function Lower(s: string): (r: string)
    ensures |r| == |s|
    ensures forall i :: 0 <= i < |s| ==> r[i] == LowerChar(s[i])
  {
    if s == [] then [] else [LowerChar(s[0])] + Lower(s[1..])
  }

  /** Lower-casing twice is lower-casing once. */
  lemma LowerIdempotent(s: string)
    ensures Lower(Lower(s)) == Lower(s)
  {
  }

  /** `s.includes(sub)`, written as a scan over the start positions of `s`. */
  predicate Contains(s: string, sub: string)
    decreases |s|
  {
    sub <= s || (s != [] && Contains(s[1..], sub))
  }

  /** `sub` starts at index `i` of `s`. */
  predicate OccursAt(s: string, sub: string, i: int)
  {
    0 <= i && i + |sub| <= |s| && s[i..i + |sub|] == sub
  }

  /** A successful scan yields an index where `sub` occurs. */
  lemma {:induction false} ContainsWitness(s: string, sub: string) returns (i: nat)
    requires Contains(s, sub)
    ensures OccursAt(s, sub, i)
    decreases |s|
  {
    if sub <= s {
      i := 0;
    } else {
      var k := ContainsWitness(s[1..], sub);
      assert s[1..][k..k + |sub|] == s[k + 1..k + 1 + |sub|];
      i := k + 1;
    }
  }

  /** An occurrence at any index is found by the scan. */
  lemma {:induction false} OccursContains(s: string, sub: string, i: int)
    requires OccursAt(s, sub, i)
    ensures Contains(s, sub)
    decreases i
  {
    if i > 0 {
      assert s[1..][i - 1..i - 1 + |sub|] == s[i..i + |sub|];
      OccursContains(s[1..], sub, i - 1);
    }
  }

  /** The scan finds `sub` exactly when it occurs at some index of `s`. */
  lemma ContainsIffOccurs(s: string, sub: string)
    ensures Contains(s, sub) <==> exists i :: OccursAt(s, sub, i)
  {
    if Contains(s, sub) {
      var i := ContainsWitness(s, sub);
    }
    if exists i :: OccursAt(s, sub, i) {
      var i :| OccursAt(s, sub, i);
      OccursContains(s, sub, i);
    }
  }

  /** Every string contains the empty string. */
  lemma ContainsEmpty(s: string)
    ensures Contains(s, "")
  {
  }

  /** Containment is transitive. */
  lemma ContainsTransitive(a: string, b: string, c: string)
    requires Contains(a, b) && Contains(b, c)
    ensures Contains(a, c)
  {
    ContainsIffOccurs(a, b);
    ContainsIffOccurs(b, c);
    var i :| OccursAt(a, b, i);
    var j :| OccursAt(b, c, j);
    forall k | 0 <= k < |c|
      ensures a[i + j + k] == c[k]
    {
      assert c[k] == b[j..j + |c|][k] == b[j + k];
      assert b[j + k] == a[i..i + |b|][j + k] == a[i + j + k];
    }
    assert a[i + j..i + j + |c|] == c;
    assert OccursAt(a, c, i + j);
    ContainsIffOccurs(a, c);
  }

  /** Lower-casing both sides keeps an occurrence. */
  lemma ContainsLower(s: string, sub: string)
    requires Contains(s, sub)
    ensures Contains(Lower(s), Lower(sub))
  {
    ContainsIffOccurs(s, sub);
    var i :| OccursAt(s, sub, i);
    assert Lower(s)[i..i + |sub|] == Lower(sub);
    assert OccursAt(Lower(s), Lower(sub), i);
    ContainsIffOccurs(Lower(s), Lower(sub));
  }

  /** An occurrence in `b` is an occurrence in `a + b`, shifted by `|a|`. */
  lemma OccursAfterPrefix(a: string, b: string, sub: string, i: int)
    requires OccursAt(b, sub, i)
    ensures OccursAt(a + b, sub, |a| + i)
  {
    forall k | 0 <= k < |sub|
      ensures (a + b)[|a| + i + k] == sub[k]
    {
      assert sub[k] == b[i..i + |sub|][k] == b[i + k];
    }
    assert (a + b)[|a| + i..|a| + i + |sub|] == sub;
  }

  /** `parts.join(sep)`. */
  function Join(parts: seq<string>, sep: string): string
  {
    if |parts| == 0 then ""
    else if |parts| == 1 then parts[0]
    else parts[0] + sep + Join(parts[1..], sep)
  }

  /** Every part can be found in the joined string. */
  lemma {:induction false} JoinContainsPart(parts: seq<string>, sep: string, k: int)
    requires 0 <= k < |parts|
    ensures Contains(Join(parts, sep), parts[k])
  {
    var j := Join(parts, sep);
    if |parts| == 1 {
      assert OccursAt(j, parts[0], 0);
    } else if k == 0 {
      assert j == parts[0] + (sep + Join(parts[1..], sep));
      assert OccursAt(j, parts[0], 0);
    } else {
      var rest := Join(parts[1..], sep);
      var head := parts[0] + sep;
      assert j == head + rest;
      JoinContainsPart(parts[1..], sep, k - 1);
      var i := ContainsWitness(rest, parts[k]);
      OccursAfterPrefix(head, rest, parts[k], i);
    }
    ContainsIffOccurs(j, parts[k]);
  }
}
