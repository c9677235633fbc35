/** The JavaScript string operations the chat code relies on: `trim`,
    `startsWith`, and the repeated `+=` that accumulates streamed chunks. */
module Text {

  /** The characters `String.prototype.trim` removes: ECMAScript's
      WhiteSpace (tab, vertical tab, form feed, space, no-break space,
      byte-order mark and every Zs space) and LineTerminator characters. */
  predicate IsWhitespace(c: char) {
    || '\t' <= c <= '\r'
    || c == ' ' || c == '\U{00A0}' || c == '\U{1680}'
    || '\U{2000}' <= c <= '\U{200A}'
    || c == '\U{2028}' || c == '\U{2029}' || c == '\U{202F}' || c == '\U{205F}'
    || c == '\U{3000}' || c == '\U{FEFF}'
  }

  predicate AllWhitespace(s: string) {
    forall i :: 0 <= i < |s| ==> IsWhitespace(s[i])
  }

  /** Neither end of `s` is whitespace. */
  predicate IsTrimmed(s: string) {
    s == [] || (!IsWhitespace(s[0]) && !IsWhitespace(s[|s| - 1]))
  }

  /** `s` splits as whitespace `s[..i]`, then `s[i..j]`, then whitespace `s[j..]`. */
  predicate CutAt(s: string, i: int, j: int) {
    && 0 <= i <= j <= |s|
    && (forall k :: 0 <= k < i ==> IsWhitespace(s[k]))
    && (forall k :: j <= k < |s| ==> IsWhitespace(s[k]))
  }

  /** Reference definition of trimming: `r` is a slice of `s` whose cut-off
      ends are whitespace only, and `r` itself has no whitespace at either end. */
  ghost predicate IsTrimOf(s: string, r: string) {
    IsTrimmed(r) && exists i, j :: CutAt(s, i, j) && r == s[i..j]
  }

  /** Drops leading whitespace. */
  function TrimStart(s: string): (r: string)
    ensures |r| <= |s| && r == s[|s| - |r|..]
    ensures forall k :: 0 <= k < |s| - |r| ==> IsWhitespace(s[k])
    ensures r == [] || !IsWhitespace(r[0])
  {
    if s == [] || !IsWhitespace(s[0]) then s else TrimStart(s[1..])
  }

  /** Drops trailing whitespace. */
  function TrimEnd(s: string): (r: string)
    ensures |r| <= |s| && r == s[..|r|]
    ensures forall k :: |r| <= k < |s| ==> IsWhitespace(s[k])
    ensures r == [] || !IsWhitespace(r[|r| - 1])
  {
    if s == [] || !IsWhitespace(s[|s| - 1]) then s else TrimEnd(s[..|s| - 1])
  }

  /** `String.prototype.trim`. */
  function Trim(s: string): (r: string)
    ensures IsTrimOf(s, r)
  {
    var t := TrimStart(s);
    var r := TrimEnd(t);
    SliceOfSlice(s, t, r);
    assert IsTrimmed(r) by {
      if r != [] {
        assert r[0] == t[0];
      }
    }
    r
  }

  /** Cutting a whitespace prefix and then a whitespace suffix leaves a
      slice of the original whose surroundings are whitespace only. */
  lemma SliceOfSlice(s: string, t: string, r: string)
    requires |t| <= |s| && t == s[|s| - |t|..]
    requires forall k :: 0 <= k < |s| - |t| ==> IsWhitespace(s[k])
    requires |r| <= |t| && r == t[..|r|]
    requires forall k :: |r| <= k < |t| ==> IsWhitespace(t[k])
    ensures CutAt(s, |s| - |t|, |s| - |t| + |r|)
    ensures r == s[|s| - |t|..|s| - |t| + |r|]
  {
    var i := |s| - |t|;
    forall k | i + |r| <= k < |s| ensures IsWhitespace(s[k]) {
      assert s[k] == t[k - i];
    }
  }

  /** Two trimmed slices of `s` with whitespace-only surroundings are equal. */
  lemma TrimmedCutsAgree(s: string, i: int, j: int, i': int, j': int)
    requires CutAt(s, i, j) && IsTrimmed(s[i..j])
    requires CutAt(s, i', j') && IsTrimmed(s[i'..j'])
    ensures s[i..j] == s[i'..j']
  {
    if i < j {
      assert s[i..j][0] == s[i];
      assert s[i..j][j - i - 1] == s[j - 1];
    }
    if i' < j' {
      assert s[i'..j'][0] == s[i'];
      assert s[i'..j'][j' - i' - 1] == s[j' - 1];
    }
  }

  /** The reference definition admits exactly one result, so `Trim` is
      characterised by it. */
  lemma TrimUnique(s: string, r: string)
    requires IsTrimOf(s, r)
    ensures r == Trim(s)
  {
    var i, j :| CutAt(s, i, j) && r == s[i..j];
    var t := Trim(s);
    var i', j' :| CutAt(s, i', j') && t == s[i'..j'];
    TrimmedCutsAgree(s, i, j, i', j');
  }

  /** Trimming twice is trimming once. */
  lemma TrimIdempotent(s: string)
    ensures Trim(Trim(s)) == Trim(s)
  {
    var r := Trim(s);
    assert r == r[0..|r|] && r[..0] == [] && r[|r|..] == [];
    assert CutAt(r, 0, |r|);
    assert IsTrimOf(r, r);
    TrimUnique(r, r);
  }

  /** A trimmed string is its own trim. */
  lemma TrimOfTrimmed(s: string)
    requires IsTrimmed(s)
    ensures Trim(s) == s
  {
    assert s == s[0..|s|] && s[..0] == [] && s[|s|..] == [];
    assert CutAt(s, 0, |s|);
    assert IsTrimOf(s, s);
    TrimUnique(s, s);
  }

  /** Trimming yields the empty string exactly when the input is all whitespace. */
  lemma TrimEmptyIff(s: string)
    ensures Trim(s) == [] <==> AllWhitespace(s)
  {
    var r := Trim(s);
    var i, j :| CutAt(s, i, j) && r == s[i..j];
    if r != [] {
      assert r[0] == s[i];
    }
  }

  /** `String.prototype.startsWith`. */
  predicate StartsWith(s: string, prefix: string) {
    prefix <= s
  }

  /** The text accumulated by `acc += chunk` over `parts`, in order. */
  function Concat(parts: seq<string>): (r: string)
  {
    if parts == [] then "" else Concat(parts[..|parts| - 1]) + parts[|parts| - 1]
  }

  /** Concatenation distributes over sequence append. */
  lemma {:induction false} ConcatAppend(a: seq<string>, b: seq<string>)
    ensures Concat(a + b) == Concat(a) + Concat(b)
    decreases |b|
  {
    if b == [] {
      assert a + b == a;
    } else {
      var last := b[|b| - 1];
      var init := b[..|b| - 1];
      assert (a + b)[..|a + b| - 1] == a + init;
      ConcatAppend(a, init);
    }
  }

  /** The accumulation of the first `k` parts is a prefix of the accumulation
      of all of them, and its length is the sum of their lengths. */
  lemma ConcatPrefix(parts: seq<string>, k: nat)
    requires k <= |parts|
    ensures Concat(parts[..k]) <= Concat(parts)
    ensures Concat(parts) == Concat(parts[..k]) + Concat(parts[k..])
  {
    assert parts == parts[..k] + parts[k..];
    ConcatAppend(parts[..k], parts[k..]);
  }
}
