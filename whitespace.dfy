/** Whitespace trimming, the `trimmingCharacters(in: .whitespacesAndNewlines)`
    that the composer's ADD button applies to the draft. */
module Whitespace {

  /** The whitespace set: space, tab, line feed and carriage return. */
  predicate IsSpace(c: char) {
    c == ' ' || c == '\t' || c == '\n' || c == '\r'
  }

  predicate AllSpace(s: string) {
    forall k :: 0 <= k < |s| ==> IsSpace(s[k])
  }

  /** Neither the first nor the last character is whitespace. */
  predicate IsTrimmed(s: string) {
    s == [] || (!IsSpace(s[0]) && !IsSpace(s[|s| - 1]))
  }

  /** Drops the leading whitespace: the result is a suffix of `s`, what was
      dropped is all whitespace, and the result does not start with any. */
  function TrimStart(s: string): (r: string)
    ensures |r| <= |s| && r == s[|s| - |r|..]
    ensures AllSpace(s[..|s| - |r|])
    ensures r != [] ==> !IsSpace(r[0])
  {
    if s != [] && IsSpace(s[0]) then TrimStart(s[1..]) else s
  }

  /** Drops the trailing whitespace: the result is a prefix of `s`, what was
      dropped is all whitespace, and the result does not end with any. */
  function TrimEnd(s: string): (r: string)
    ensures |r| <= |s| && r == s[..|r|]
    ensures AllSpace(s[|r|..])
    ensures r != [] ==> !IsSpace(r[|r| - 1])
  {
    if s != [] && IsSpace(s[|s| - 1]) then TrimEnd(s[..|s| - 1]) else s
  }

  /** Trims both ends. The result is trimmed, and it is empty exactly when
      the input is all whitespace. */
  function Trim(s: string): (r: string)
    ensures |r| <= |s|
    ensures IsTrimmed(r)
    ensures r == [] <==> AllSpace(s)
  {
    var t := TrimStart(s);
    var r := TrimEnd(t);
    assert t != [] ==> !AllSpace(s) by {
      if t != [] { assert s[|s| - |t|] == t[0]; }
    }
    assert r == [] ==> AllSpace(s) by {
      if r == [] {
        forall k | 0 <= k < |s| ensures IsSpace(s[k]) {
          assert s[..|s| - |t|][k] == s[k];
        }
      }
    }
    r
  }

  /** Leading whitespace up to the first other character is what TrimStart drops. */
  lemma {:induction false} TrimStartAt(s: string, i: nat)
    requires i < |s| && AllSpace(s[..i]) && !IsSpace(s[i])
    ensures TrimStart(s) == s[i..]
  {
    if i > 0 {
      assert IsSpace(s[..i][0]);
      assert s[1..][..i - 1] == s[1..i] && s[1..i] == s[..i][1..];
      TrimStartAt(s[1..], i - 1);
      assert s[1..][i - 1..] == s[i..];
    }
  }

  /** Trailing whitespace after the last other character is what TrimEnd
      drops, also from a suffix `s[i..]` of `s`. */
  lemma {:induction false} TrimEndAt(s: string, i: nat, j: nat)
    requires i < j <= |s| && AllSpace(s[j..]) && !IsSpace(s[j - 1])
    ensures TrimEnd(s[i..]) == s[i..j]
    decreases |s|
  {
    if j < |s| {
      var u := s[..|s| - 1];
      assert IsSpace(s[j..][|s| - 1 - j]);
      assert s[i..][..|s[i..]| - 1] == u[i..];
      assert u[j..] == s[j..][..|s| - 1 - j];
      TrimEndAt(u, i, j);
      assert u[i..j] == s[i..j];
    }
  }

  /** Trim is determined by its bracketing: whenever `s` splits into a
      whitespace prefix, a trimmed middle and a whitespace suffix, the
      middle is `Trim(s)`. */
  lemma TrimUnique(s: string, i: nat, j: nat)
    requires i <= j <= |s|
    requires AllSpace(s[..i]) && AllSpace(s[j..]) && IsTrimmed(s[i..j])
    ensures Trim(s) == s[i..j]
  {
    if i == j {
      AllSpaceJoin(s, i);
    } else {
      TrimMiddle(s, i, j);
    }
  }

  /** The non-empty case of TrimUnique, one end at a time. */
  lemma TrimMiddle(s: string, i: nat, j: nat)
    requires i < j <= |s|
    requires AllSpace(s[..i]) && AllSpace(s[j..]) && IsTrimmed(s[i..j])
    ensures TrimEnd(TrimStart(s)) == s[i..j]
  {
    assert s[i..j][0] == s[i] && s[i..j][j - i - 1] == s[j - 1];
    TrimStartAt(s, i);
    TrimEndAt(s, i, j);
  }

  /** The concatenation of two all-whitespace strings is all whitespace. */
  lemma AllSpaceConcat(a: string, b: string)
    requires AllSpace(a) && AllSpace(b)
    ensures AllSpace(a + b)
  {
    forall k | 0 <= k < |a + b| ensures IsSpace((a + b)[k]) {
      if k < |a| { assert (a + b)[k] == a[k]; } else { assert (a + b)[k] == b[k - |a|]; }
    }
  }

  /** Two all-whitespace halves make an all-whitespace string. */
  lemma AllSpaceJoin(s: string, i: nat)
    requires i <= |s| && AllSpace(s[..i]) && AllSpace(s[i..])
    ensures AllSpace(s)
  {
    assert s == s[..i] + s[i..];
  }

  /** `Trim(s)` always is such a middle part of `s`. */
  lemma TrimSplit(s: string) returns (i: nat, j: nat)
    ensures i <= j <= |s|
    ensures AllSpace(s[..i]) && AllSpace(s[j..])
    ensures Trim(s) == s[i..j]
  {
    var t := TrimStart(s);
    var r := TrimEnd(t);
    i, j := |s| - |t|, |s| - |t| + |r|;
    assert s[i..] == t;
    assert s[j..] == t[|r|..];
    assert s[i..j] == t[..|r|] == r;
  }

  /** A trimmed string is its own trim, and only a trimmed one is. */
  lemma TrimFixpoint(s: string)
    ensures Trim(s) == s <==> IsTrimmed(s)
  {
    if IsTrimmed(s) {
      assert s[..0] == [] && s[|s|..] == [] && s[0..|s|] == s;
      TrimUnique(s, 0, |s|);
    }
  }

  /** Trimming twice is trimming once. */
  lemma TrimIdempotent(s: string)
    ensures Trim(Trim(s)) == Trim(s)
  {
    TrimFixpoint(Trim(s));
  }
}
