/**
 * The string helpers of util.go, together with the parts of Go's `strings`
 * package they rely on (TrimSpace and Split with a one-character separator).
 */
module Util {

  /** Go's unicode.IsSpace: the Latin-1 spaces plus the Unicode White_Space set. */
  predicate IsSpace(c: char) {
    || c == ' ' || c == '\t' || c == '\n' || c == '\r'
    || c == '\U{000B}' || c == '\U{000C}' || c == '\U{0085}' || c == '\U{00A0}'
    || c == '\U{1680}' || ('\U{2000}' <= c <= '\U{200A}')
    || c == '\U{2028}' || c == '\U{2029}' || c == '\U{202F}' || c == '\U{205F}' || c == '\U{3000}'
  }

  /** Neither the first nor the last character is white space. */
  predicate Trimmed(s: string) {
    s == [] || (!IsSpace(s[0]) && !IsSpace(s[|s| - 1]))
  }

  function TrimLeft(s: string): string {
    if s != [] && IsSpace(s[0]) then TrimLeft(s[1..]) else s
  }

  function TrimRight(s: string): string {
    if s != [] && IsSpace(s[|s| - 1]) then TrimRight(s[..|s| - 1]) else s
  }

  /** strings.TrimSpace: drop leading and trailing white space. */
  function TrimSpace(s: string): string {
    TrimRight(TrimLeft(s))
  }

  /** TrimLeft drops a prefix made only of white space and stops at a non-space. */
  lemma {:induction false} TrimLeftDropsSpaces(s: string)
    ensures |TrimLeft(s)| <= |s| && TrimLeft(s) == s[|s| - |TrimLeft(s)|..]
    ensures TrimLeft(s) == [] || !IsSpace(TrimLeft(s)[0])
    ensures forall k :: 0 <= k < |s| - |TrimLeft(s)| ==> IsSpace(s[k])
  {
    if s != [] && IsSpace(s[0]) {
      var t := s[1..];
      TrimLeftDropsSpaces(t);
      assert TrimLeft(s) == TrimLeft(t);
      assert t[|t| - |TrimLeft(t)|..] == s[|s| - |TrimLeft(s)|..];
      forall k | 0 <= k < |s| - |TrimLeft(s)| ensures IsSpace(s[k]) {
        if k > 0 { assert s[k] == t[k - 1]; }
      }
    }
  }

  /** TrimRight drops a suffix made only of white space and stops at a non-space. */
  lemma {:induction false} TrimRightDropsSpaces(s: string)
    ensures |TrimRight(s)| <= |s| && TrimRight(s) == s[..|TrimRight(s)|]
    ensures TrimRight(s) == [] || !IsSpace(TrimRight(s)[|TrimRight(s)| - 1])
    ensures forall k :: |TrimRight(s)| <= k < |s| ==> IsSpace(s[k])
  {
    if s != [] && IsSpace(s[|s| - 1]) {
      var t := s[..|s| - 1];
      TrimRightDropsSpaces(t);
      assert TrimRight(s) == TrimRight(t);
      assert t[..|TrimRight(t)|] == s[..|TrimRight(s)|];
      forall k | |TrimRight(s)| <= k < |s| ensures IsSpace(s[k]) {
        if k < |t| { assert s[k] == t[k]; }
      }
    }
  }

  /** TrimSpace leaves no white space at either end. */
  lemma TrimSpaceTrimmed(s: string)
    ensures Trimmed(TrimSpace(s))
  {
    var l := TrimLeft(s);
    TrimLeftDropsSpaces(s);
    TrimRightDropsSpaces(l);
    var r := TrimRight(l);
    assert r != [] ==> r[0] == l[0];
  }

  /** A string trims to nothing exactly when it is all white space. */
  lemma TrimSpaceEmpty(s: string)
    ensures TrimSpace(s) == [] <==> forall k :: 0 <= k < |s| ==> IsSpace(s[k])
  {
    var l := TrimLeft(s);
    TrimLeftDropsSpaces(s);
    TrimRightDropsSpaces(l);
    if TrimRight(l) == [] {
      assert l == [];
    } else {
      assert s[|s| - |l|] == l[0];
    }
  }

  /** Index of the first `c` in `s`, or |s| when there is none. */
  function IndexOf(s: string, c: char): (k: nat)
    ensures k <= |s|
    ensures k < |s| ==> s[k] == c
    ensures c !in s[..k]
  {
    if s == [] then 0 else if s[0] == c then 0 else 1 + IndexOf(s[1..], c)
  }

  /** strings.Split(s, [sep]): the pieces between the separators, empty pieces included. */
  function SplitOn(s: string, sep: char): (r: seq<string>)
    ensures |r| >= 1
    decreases |s|
  {
    var k := IndexOf(s, sep);
    if k == |s| then [s] else [s[..k]] + SplitOn(s[k + 1..], sep)
  }

  /** Split yields one more piece than there are separators, and no piece holds one. */
  lemma SplitOnPieces(s: string, sep: char)
    ensures |SplitOn(s, sep)| == multiset(s)[sep] + 1
    ensures forall k :: 0 <= k < |SplitOn(s, sep)| ==> sep !in SplitOn(s, sep)[k]
  {
    SplitOnCount(s, sep);
    SplitOnSepFree(s, sep);
  }

  lemma {:induction false} SplitOnCount(s: string, sep: char)
    ensures |SplitOn(s, sep)| == multiset(s)[sep] + 1
    decreases |s|
  {
    var k := IndexOf(s, sep);
    if k == |s| {
      assert s == s[..k];
    } else {
      var rest := s[k + 1..];
      assert s == s[..k] + [sep] + rest;
      assert multiset(s) == multiset(s[..k]) + multiset{sep} + multiset(rest);
      assert multiset(s[..k])[sep] == 0;
      SplitOnCount(rest, sep);
    }
  }

  lemma {:induction false} SplitOnSepFree(s: string, sep: char)
    ensures forall k :: 0 <= k < |SplitOn(s, sep)| ==> sep !in SplitOn(s, sep)[k]
    decreases |s|
  {
    var k := IndexOf(s, sep);
    if k < |s| {
      var rest := s[k + 1..];
      SplitOnSepFree(rest, sep);
      var r := SplitOn(s, sep);
      assert r == [s[..k]] + SplitOn(rest, sep);
      forall j | 0 < j < |r| ensures sep !in r[j] {
        assert r[j] == SplitOn(rest, sep)[j - 1];
      }
    }
  }

  /** strings.Join with a one-character separator: the pieces with the separator between neighbours. */
  function Join(pieces: seq<string>, sep: char): string {
    if |pieces| == 0 then ""
    else if |pieces| == 1 then pieces[0]
    else pieces[0] + [sep] + Join(pieces[1..], sep)
  }

  /** Joining the pieces of a split with the same separator gives the input back. */
  lemma {:induction false} JoinSplitOn(s: string, sep: char)
    ensures Join(SplitOn(s, sep), sep) == s
    decreases |s|
  {
    var k := IndexOf(s, sep);
    if k < |s| {
      var rest := s[k + 1..];
      JoinSplitOn(rest, sep);
      var r := SplitOn(s, sep);
      assert r == [s[..k]] + SplitOn(rest, sep);
      assert r[1..] == SplitOn(rest, sep);
      assert s == s[..k] + [sep] + rest;
    }
  }

  /** The first separator in `a + [c] + b`, when `a` has none, is right after `a`. */
  lemma IndexOfAfter(a: string, c: char, b: string)
    requires c !in a
    ensures IndexOf(a + [c] + b, c) == |a|
  {
    var s := a + [c] + b;
    assert s[|a|] == c;
    assert s[..|a|] == a;
  }

  /** Splitting a join of separator-free pieces gives the pieces back. */
  lemma {:induction false} SplitOnJoin(ps: seq<string>, sep: char)
    requires |ps| >= 1 && forall k :: 0 <= k < |ps| ==> sep !in ps[k]
    ensures SplitOn(Join(ps, sep), sep) == ps
    decreases |ps|
  {
    var s := Join(ps, sep);
    if |ps| == 1 {
      assert s == ps[0] && IndexOf(s, sep) == |s|;
      assert s[..|s|] == s;
    } else {
      var rest := Join(ps[1..], sep);
      SplitOnJoin(ps[1..], sep);
      IndexOfAfter(ps[0], sep, rest);
      var k := |ps[0]|;
      assert s[..k] == ps[0];
      assert s[k + 1..] == rest;
      assert ps == [ps[0]] + ps[1..];
    }
  }

  /** strings.SplitN(s, [sep], 2): split at the first separator only. */
  function SplitFirst(s: string, sep: char): (r: seq<string>)
    ensures 1 <= |r| <= 2
    ensures |r| == 1 <==> sep !in s
    ensures |r| == 1 ==> r[0] == s
    ensures |r| == 2 ==> sep !in r[0] && s == r[0] + [sep] + r[1]
  {
    var k := IndexOf(s, sep);
    if k == |s| then
      assert s == s[..k];
      [s]
    else
      assert s == s[..k] + [sep] + s[k + 1..];
      [s[..k], s[k + 1..]]
  }

  /**
   * What splitNonEmptyAndTrim returns: nothing for a blank input,
   * otherwise every piece between separators, each trimmed.
   */
  function SplitTrimmed(s: string, sep: char): (r: seq<string>)
  {
    var t := TrimSpace(s);
    if t == [] then []
    else
      TrimAll(SplitOn(t, sep))
  }

  /** splitNonEmptyAndTrim returns nothing exactly for a blank input. */
  lemma SplitTrimmedEmpty(s: string, sep: char)
    ensures SplitTrimmed(s, sep) == [] <==> forall k :: 0 <= k < |s| ==> IsSpace(s[k])
  {
    TrimSpaceEmpty(s);
  }

  /** Otherwise it has one piece more than the trimmed input has separators. */
  lemma SplitTrimmedCount(s: string, sep: char)
    ensures SplitTrimmed(s, sep) != [] ==> |SplitTrimmed(s, sep)| == multiset(TrimSpace(s))[sep] + 1
  {
    SplitOnPieces(TrimSpace(s), sep);
  }

  /** Otherwise its pieces are the trimmed pieces of the split of the trimmed input, which join back to that input. */
  lemma SplitTrimmedPieces(s: string, sep: char)
    ensures var t := TrimSpace(s);
      t != [] ==>
        |SplitTrimmed(s, sep)| == |SplitOn(t, sep)| &&
        (forall k :: 0 <= k < |SplitOn(t, sep)| ==> SplitTrimmed(s, sep)[k] == TrimSpace(SplitOn(t, sep)[k])) &&
        Join(SplitOn(t, sep), sep) == t
  {
    JoinSplitOn(TrimSpace(s), sep);
  }

  /** Every piece it returns is trimmed. */
  lemma SplitTrimmedPiecesTrimmed(s: string, sep: char)
    ensures forall k :: 0 <= k < |SplitTrimmed(s, sep)| ==> Trimmed(SplitTrimmed(s, sep)[k])
  {
    var r := SplitTrimmed(s, sep);
    if r != [] {
      var parts := SplitOn(TrimSpace(s), sep);
      forall k | 0 <= k < |r| ensures Trimmed(r[k]) {
        TrimSpaceTrimmed(parts[k]);
      }
    }
  }

  /** Every piece trimmed, in order. */
  function TrimAll(parts: seq<string>): (r: seq<string>)
    ensures |r| == |parts|
    ensures forall k :: 0 <= k < |r| ==> r[k] == TrimSpace(parts[k])
  {
    if parts == [] then [] else [TrimSpace(parts[0])] + TrimAll(parts[1..])
  }

  /** splitNonEmptyAndTrim: trims the pieces of the split in place, one slot at a time. */
  method SplitNonEmptyAndTrim(s: string, sep: char) returns (r: seq<string>)
    ensures r == SplitTrimmed(s, sep)
  {
    var t := TrimSpace(s);
    if t == [] {
      return [];
    }
    var secs := SplitOn(t, sep);
    ghost var parts := secs;
    for i := 0 to |secs|
      invariant |secs| == |parts|
      invariant forall k :: 0 <= k < i ==> secs[k] == TrimSpace(parts[k])
      invariant forall k :: i <= k < |secs| ==> secs[k] == parts[k]
    {
      secs := secs[i := TrimSpace(secs[i])];
    }
    r := secs;
  }

  /** hasString: linear search with early return. */
  method HasString(strs: seq<string>, s: string) returns (found: bool)
    ensures found <==> s in strs
  {
    for i := 0 to |strs|
      invariant s !in strs[..i]
    {
      if strs[i] == s {
        return true;
      }
    }
    return false;
  }

  /** A single word without white space or separator splits to itself. */
  lemma SplitTrimmedWord(w: string, sep: char)
    requires w != [] && Trimmed(w) && sep !in w
    ensures SplitTrimmed(w, sep) == [w]
  {
    assert TrimLeft(w) == w;
    assert TrimSpace(w) == w;
    assert IndexOf(w, sep) == |w|;
    assert SplitOn(w, sep) == [w];
  }

  lemma SplitOnExample()
    ensures SplitOn("a,,b", ',') == ["a", "", "b"]
  {
    assert IndexOf("b", ',') == 1;
    assert SplitOn("b", ',') == ["b"];
    assert IndexOf(",b", ',') == 0;
    assert ",b"[..0] == "" && ",b"[1..] == "b";
    assert SplitOn(",b", ',') == ["", "b"];
    assert IndexOf("a,,b", ',') == 1;
    assert "a,,b"[..1] == "a" && "a,,b"[2..] == ",b";
  }

  lemma TrimExample()
    ensures TrimSpace("a,,b") == "a,,b"
  {
    assert TrimLeft("a,,b") == "a,,b";
    assert TrimRight("a,,b") == "a,,b";
  }

  lemma TrimAllExample()
    ensures TrimAll(["a", "", "b"]) == ["a", "", "b"]
  {
    assert TrimAll(["b"]) == ["b"] by { assert TrimSpace("b") == "b"; }
    assert TrimAll(["", "b"]) == ["", "b"] by { assert ["", "b"][1..] == ["b"]; }
    assert TrimSpace("a") == "a";
    assert ["a", "", "b"][1..] == ["", "b"];
  }

  /** Interior empty pieces are kept: "a,,b" gives three elements. */
  lemma SplitKeepsEmptyPieces()
    ensures SplitTrimmed("a,,b", ',') == ["a", "", "b"]
  {
    TrimExample();
    SplitOnExample();
    TrimAllExample();
  }
}
