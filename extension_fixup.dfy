/** The post-processing pass `fixExtensionIndex` of repository.go: the first rendered
    token that contains `-Extension` is taken out and put at the end of the vector.

    The Go function receives `*[]string` and only reassigns a local pointer at its end,
    so the reassignment is invisible to the caller. The effect comes from aliasing:
    `append(val[:i], val[i+1:]...)` shifts the caller's backing array left in place, and
    `append(val, ext)` stays within capacity and so writes the caller's last slot. What
    the caller observes is an in-place rotation of the suffix `[i..n)` by one place,
    which is what `FixExtensionIndex` does to its array. */
module ExtensionFixup {
  import opened Types

  /** The flag the pass looks for. */
  const Marker: string := "-Extension"

  predicate HasPrefix(s: string, p: string) {
    |p| <= |s| && s[..|p|] == p
  }

  /** Go's `strings.Contains(s, sub)`: `sub` occurs somewhere inside `s`. */
  predicate Contains(s: string, sub: string)
    decreases |s|
  {
    HasPrefix(s, sub) || (|s| > 0 && Contains(s[1..], sub))
  }

  /** Reference reading of `Contains`: `sub` starts at position `k` of `s`. */
  ghost predicate OccursAt(s: string, sub: string, k: int) {
    0 <= k && k + |sub| <= |s| && s[k..k + |sub|] == sub
  }

  lemma {:induction false} ContainsIff(s: string, sub: string)
    ensures Contains(s, sub) <==> exists k :: OccursAt(s, sub, k)
    decreases |s|
  {
    if HasPrefix(s, sub) {
      assert OccursAt(s, sub, 0);
    } else if |s| == 0 {
    } else {
      ContainsIff(s[1..], sub);
      if Contains(s[1..], sub) {
        var k :| OccursAt(s[1..], sub, k);
        assert s[1..][k..k + |sub|] == s[k + 1..k + 1 + |sub|];
        assert OccursAt(s, sub, k + 1);
      }
      if k :| OccursAt(s, sub, k) {
        assert k != 0 by { assert s[..|sub|] == s[0..0 + |sub|]; }
        assert s[1..][k - 1..k - 1 + |sub|] == s[k..k + |sub|];
        assert OccursAt(s[1..], sub, k - 1);
      }
    }
  }

  /** A string shorter than `sub` cannot contain it. */
  lemma {:induction false} ContainsNeedsLength(s: string, sub: string)
    requires Contains(s, sub)
    ensures |sub| <= |s|
    decreases |s|
  {
    if !HasPrefix(s, sub) {
      ContainsNeedsLength(s[1..], sub);
    }
  }

  /** A string in which the first character of `sub` never occurs does not contain it. */
  lemma {:induction false} ContainsNeedsFirstChar(s: string, sub: string)
    requires sub != [] && sub[0] !in s
    ensures !Contains(s, sub)
    decreases |s|
  {
    if |s| > 0 {
      ContainsNeedsFirstChar(s[1..], sub);
    }
  }

  /** A rendered token that carries the `-Extension` flag. */
  predicate IsExtensionToken(t: string) {
    Contains(t, Marker)
  }

  /** A token without a `-` cannot hold the marker. */
  lemma NoDashNoMarker(t: string)
    requires '-' !in t
    ensures !IsExtensionToken(t)
  {
    ContainsNeedsFirstChar(t, Marker);
  }

  /** The first `k` tokens of a vector, none of which holds a `-`, hold no marker. */
  lemma NoDashTokensNoMarker(s: seq<string>, k: nat)
    requires k <= |s| && forall j :: 0 <= j < k ==> '-' !in s[j]
    ensures forall j :: 0 <= j < k ==> !IsExtensionToken(s[j])
  {
    forall j | 0 <= j < k ensures !IsExtensionToken(s[j]) {
      NoDashNoMarker(s[j]);
    }
  }

  /** A token shorter than the marker cannot hold it. */
  lemma ShortTokenNoMarker(t: string)
    requires |t| < |Marker|
    ensures !IsExtensionToken(t)
  {
    if IsExtensionToken(t) {
      ContainsNeedsLength(t, Marker);
    }
  }

  /** Contains, not a prefix test: the marker is found after leading text too. */
  lemma MarkerFoundInsideToken()
    ensures Contains("x -Extension e", Marker) && !HasPrefix("x -Extension e", Marker)
  {
    var t := "x -Extension e";
    assert t[0] != Marker[0];
    assert HasPrefix(t[2..], Marker);
    assert Contains(t[1..], Marker) by {
      assert t[1..][1..] == t[2..];
    }
  }

  ghost predicate HasExtensionToken(s: seq<string>) {
    exists j :: 0 <= j < |s| && IsExtensionToken(s[j])
  }

  /** Index of the first token that contains the marker, if any: what the search loop
      of `fixExtensionIndex` finds before it breaks. */
  function FirstExtension(s: seq<string>): (r: Option<nat>)
    ensures r.Some? ==> r.value < |s| && IsExtensionToken(s[r.value])
    ensures r.Some? ==> forall j :: 0 <= j < r.value ==> !IsExtensionToken(s[j])
    ensures r.None? <==> forall j :: 0 <= j < |s| ==> !IsExtensionToken(s[j])
  {
    if |s| == 0 then None
    else if IsExtensionToken(s[0]) then Some(0)
    else match FirstExtension(s[1..])
      case None => None
      case Some(i) => assert s[1..][i] == s[i + 1]; Some(i + 1)
  }

  /** The vector the caller of `fixExtensionIndex` sees afterwards. */
  function Relocated(s: seq<string>): seq<string> {
    match FirstExtension(s)
    case None => s
    case Some(i) => s[..i] + s[i + 1..] + [s[i]]
  }

  /** The pass keeps the length and only reorders: the result is a permutation. */
  lemma RelocatedIsPermutation(s: seq<string>)
    ensures |Relocated(s)| == |s|
    ensures multiset(Relocated(s)) == multiset(s)
  {
    match FirstExtension(s)
    case None =>
    case Some(i) =>
      assert s == s[..i] + [s[i]] + s[i + 1..];
      calc {
        multiset(Relocated(s));
        multiset(s[..i]) + multiset(s[i + 1..]) + multiset([s[i]]);
        multiset(s[..i] + [s[i]] + s[i + 1..]);
      }
  }

  /** With a marker token present, the first one ends up last, the tokens before it stay
      in place, and all other tokens keep their relative order. */
  lemma RelocatedMovesFirstToEnd(s: seq<string>, i: nat)
    requires i < |s| && IsExtensionToken(s[i])
    requires forall j :: 0 <= j < i ==> !IsExtensionToken(s[j])
    ensures Relocated(s) == s[..i] + s[i + 1..] + [s[i]]
    ensures |Relocated(s)| == |s|
    ensures Relocated(s)[|s| - 1] == s[i]
    ensures Relocated(s)[..i] == s[..i]
    ensures Relocated(s)[..|s| - 1] == s[..i] + s[i + 1..]
  {
    var f := FirstExtension(s);
    assert f == Some(i);
    var r := s[..i] + s[i + 1..] + [s[i]];
    assert r[..|s| - 1] == s[..i] + s[i + 1..];
    assert r[..i] == s[..i];
  }

  /** Without a marker token the vector is unchanged. */
  lemma RelocatedWithoutMarker(s: seq<string>)
    requires forall j :: 0 <= j < |s| ==> !IsExtensionToken(s[j])
    ensures Relocated(s) == s
  {
  }

  /** Only the first marker token moves: a later one shifts left by one place and so is
      not at the end (the multi-match case is not normalised). */
  lemma RelocatedLeavesLaterMarkers(s: seq<string>, i: nat, j: nat)
    requires i < j < |s| && IsExtensionToken(s[i]) && IsExtensionToken(s[j])
    requires forall k :: 0 <= k < i ==> !IsExtensionToken(s[k])
    ensures Relocated(s)[j - 1] == s[j]
    ensures j - 1 < |Relocated(s)| - 1
  {
    RelocatedMovesFirstToEnd(s, i);
    var r := Relocated(s);
    assert r[..|s| - 1][j - 1] == (s[..i] + s[i + 1..])[j - 1];
  }

  /** Whatever the input, a relocated vector that holds a marker token ends with one. */
  lemma RelocatedEndsWithMarker(s: seq<string>)
    requires HasExtensionToken(Relocated(s))
    ensures IsExtensionToken(Relocated(s)[|s| - 1])
  {
    match FirstExtension(s)
    case None =>
    case Some(i) =>
      RelocatedMovesFirstToEnd(s, i);
  }

  /** The pass never drops a marker token. */
  lemma RelocatedHasMarker(s: seq<string>)
    requires HasExtensionToken(s)
    ensures HasExtensionToken(Relocated(s))
  {
    var f := FirstExtension(s);
    RelocatedMovesFirstToEnd(s, f.value);
    assert IsExtensionToken(Relocated(s)[|s| - 1]);
  }

  /** With a single marker token the pass is idempotent: once it is last it stays last. */
  lemma RelocatedOnceIsStable(s: seq<string>, i: nat)
    requires i < |s| && IsExtensionToken(s[i])
    requires forall j :: 0 <= j < |s| && j != i ==> !IsExtensionToken(s[j])
    ensures Relocated(Relocated(s)) == Relocated(s)
  {
    RelocatedMovesFirstToEnd(s, i);
    var r := Relocated(s);
    var n := |s|;
    forall j | 0 <= j < n - 1 ensures !IsExtensionToken(r[j]) {
      assert r[j] == r[..n - 1][j];
      if j < i {
        assert r[..n - 1][j] == s[j];
      } else {
        assert r[..n - 1][j] == s[j + 1];
      }
    }
    RelocatedMovesFirstToEnd(r, n - 1);
    assert r[..n - 1] + r[n..] + [r[n - 1]] == r;
  }

  /** The first half of the relocation, `append(val[:i], val[i+1:]...)`: the elements
      after index `i` move one place left in the same array; the last slot keeps its
      old value. */
  method ShiftLeft(a: array<string>, i: nat)
    requires i < a.Length
    modifies a
    ensures a[..a.Length - 1] == old(a[..i]) + old(a[i + 1..])
    ensures a[a.Length - 1] == old(a[a.Length - 1])
  {
    ghost var s := a[..];
    var k := i;
    while k < a.Length - 1
      invariant i <= k <= a.Length - 1
      invariant forall j :: 0 <= j < i ==> a[j] == s[j]
      invariant forall j :: i <= j < k ==> a[j] == s[j + 1]
      invariant forall j :: k <= j < a.Length ==> a[j] == s[j]
    {
      a[k] := a[k + 1];
      k := k + 1;
    }
    assert a[..a.Length - 1] == s[..i] + s[i + 1..];
  }

  /** `fixExtensionIndex`, as its caller observes it: the search loop stops at the first
      marker token; the token is then removed by shifting the rest of the array left by
      one place and written into the last slot. */
  method FixExtensionIndex(a: array<string>)
    modifies a
    ensures a[..] == Relocated(old(a[..]))
  {
    ghost var s := a[..];
    var extIdx := -1;
    var i := 0;
    while i < a.Length
      invariant 0 <= i <= a.Length
      invariant forall j :: 0 <= j < i ==> !IsExtensionToken(s[j])
    {
      if Contains(a[i], Marker) {
        extIdx := i;
        break;
      }
      i := i + 1;
    }

    if extIdx != -1 {
      var ext := a[extIdx];
      ShiftLeft(a, extIdx);
      a[a.Length - 1] := ext;
      RelocatedMovesFirstToEnd(s, extIdx);
      assert a[..] == a[..a.Length - 1] + [a[a.Length - 1]];
    } else {
      RelocatedWithoutMarker(s);
    }
  }

  /** The `Values()` of the records that relocate: the marshalled vector is copied into
      a fresh array, the pass runs over it, and the array is read back. The result keeps
      every token, and a marker token, if there is one, is last. */
  method RelocateExtension(raw: seq<string>) returns (r: seq<string>)
    ensures r == Relocated(raw)
    ensures |r| == |raw| && multiset(r) == multiset(raw)
    ensures HasExtensionToken(raw) ==> IsExtensionToken(r[|r| - 1])
  {
    var a := new string[|raw|](j requires 0 <= j < |raw| => raw[j]);
    assert a[..] == raw;
    FixExtensionIndex(a);
    r := a[..];
    RelocatedIsPermutation(raw);
    if HasExtensionToken(raw) {
      RelocatedHasMarker(raw);
      RelocatedEndsWithMarker(raw);
    }
  }
}
