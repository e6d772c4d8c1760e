module RidText {
  /** Request ids in strings: stripping, splitting at commas, and finding the original of a variant (plugins/plugin_concat.py). */

  import opened Basics

  type Text = string

  // ------------------------------------------------------------ strip

  /** The characters that str.strip removes. */
  predicate Space(c: char) {
    var n := c as int;
    9 <= n <= 13 || 28 <= n <= 32 || n == 0x85 || n == 0xA0 || n == 0x1680 || 0x2000 <= n <= 0x200A || n == 0x2028 || n == 0x2029
    || n == 0x202F || n == 0x205F || n == 0x3000
  }

  /** No white space at either end. */
  predicate Stripped(t: Text) {
    t == [] || (!Space(t[0]) && !Space(t[|t| - 1]))
  }

  function StripLeft(t: Text): (r: Text)
    ensures r == [] || !Space(r[0])
    ensures |r| <= |t| && r == t[|t| - |r|..]
    ensures t == [] || !Space(t[0]) ==> r == t
  {
    if t == [] || !Space(t[0]) then t else StripLeft(t[1..])
  }

  function StripRight(t: Text): (r: Text)
    ensures r == [] || !Space(r[|r| - 1])
    ensures |r| <= |t| && r == t[..|r|]
    ensures t == [] || !Space(t[|t| - 1]) ==> r == t
  {
    if t == [] || !Space(t[|t| - 1]) then t else StripRight(t[..|t| - 1])
  }

  function Strip(t: Text): (r: Text)
    ensures Stripped(r) && (Stripped(t) ==> r == t)
    ensures forall c :: c in r ==> c in t
  {
    StripRight(StripLeft(t))
  }

  /** White space only. */
  predicate Blank(t: Text) {
    forall i :: 0 <= i < |t| ==> Space(t[i])
  }

  /** Stripping takes white space off both ends and leaves the rest as it is. */
  lemma StripSplits(t: Text) returns (a: Text, b: Text)
    ensures Blank(a) && Blank(b) && t == a + Strip(t) + b
  {
    hide Space, StripLeft, StripRight;
    var left := StripLeft(t);
    var core := StripRight(left);
    LeftSplits(t);
    RightSplits(left);
    a, b := t[..|t| - |left|], left[|core|..];
    assert t == a + left && left == core + b;
  }

  lemma {:induction false} LeftSplits(t: Text)
    ensures forall i :: 0 <= i < |t| - |StripLeft(t)| ==> Space(t[i])
  {
    hide Space;
    if t != [] && Space(t[0]) {
      LeftSplits(t[1..]);
      assert forall i :: 0 < i < |t| ==> t[i] == t[1..][i - 1];
    }
  }

  lemma {:induction false} RightSplits(t: Text)
    ensures forall i :: |StripRight(t)| <= i < |t| ==> Space(t[i])
  {
    hide Space;
    if t != [] && Space(t[|t| - 1]) {
      RightSplits(t[..|t| - 1]);
    }
  }

  /** There is only one such part, so white space round a text does not matter. */
  lemma {:induction false} StripIs(a: Text, core: Text, b: Text)
    requires Blank(a) && Blank(b) && Stripped(core)
    ensures Strip(a + core + b) == core
  {
    var a', b' := StripSplits(a + core + b);
    OneCore(a, core, b, a', Strip(a + core + b), b');
  }

  lemma OneCore(a: Text, x: Text, b: Text, a': Text, y: Text, b': Text)
    requires Blank(a) && Blank(b) && Stripped(x) && Blank(a') && Blank(b') && Stripped(y) && a + x + b == a' + y + b'
    ensures x == y
  {
    var t := a + x + b;
    if x == [] || y == [] {
      BlankOrNot(a, x, b);
      BlankOrNot(a', y, b');
    } else {
      EndsOf(a, x, b);
      EndsOf(a', y, b');
      assert |a| == |a'| && |a + x| == |a' + y|;
      assert x == t[|a|..|a + x|] && y == t[|a'|..|a' + y|];
    }
  }

  lemma BlankOrNot(a: Text, x: Text, b: Text)
    requires Blank(a) && Blank(b) && Stripped(x)
    ensures Blank(a + x + b) <==> x == []
  {
    if x != [] {
      assert (a + x + b)[|a|] == x[0];
    }
  }

  /** The text begins and ends in white space exactly as far as a and b go. */
  lemma EndsOf(a: Text, x: Text, b: Text)
    requires Blank(a) && Blank(b) && Stripped(x) && x != []
    ensures var t := a + x + b;
            !Space(t[|a|]) && !Space(t[|a| + |x| - 1])
            && (forall i :: 0 <= i < |a| ==> Space(t[i])) && forall i :: |a| + |x| <= i < |t| ==> Space(t[i])
  {
    var t := a + x + b;
    assert t[|a|] == x[0] && t[|a| + |x| - 1] == x[|x| - 1];
    assert forall i :: |a| + |x| <= i < |t| ==> t[i] == b[i - |a| - |x|];
  }

  lemma StripPadded(a: Text, t: Text, b: Text)
    requires Blank(a) && Blank(b)
    ensures Strip(a + t + b) == Strip(t)
  {
    hide Strip, Stripped, Blank;
    var a', b' := StripSplits(t);
    BlankJoin(a, a');
    BlankJoin(b', b);
    StripIs(a + a', Strip(t), b' + b);
    assert a + t + b == (a + a') + Strip(t) + (b' + b);
  }

  lemma BlankJoin(a: Text, b: Text)
    requires Blank(a) && Blank(b)
    ensures Blank(a + b)
  {
  }

  // ------------------------------------------------------------ split and join

  /** t.split(",") */
  function Pieces(t: Text): (ps: seq<Text>)
    ensures ps != []
  {
    if t == [] then [[]]
    else
      var front, c := Pieces(t[..|t| - 1]), t[|t| - 1];
      if c == ',' then front + [[]] else Extend(front, [c])
  }

  /** The last piece grows. */
  function Extend(ps: seq<Text>, b: Text): (r: seq<Text>)
    requires ps != []
    ensures |r| == |ps|
  {
    ps[..|ps| - 1] + [ps[|ps| - 1] + b]
  }

  /** ",".join(ps) */
  function Join(ps: seq<Text>): Text
    requires ps != []
  {
    if |ps| == 1 then ps[0] else Join(ps[..|ps| - 1]) + [','] + ps[|ps| - 1]
  }

  lemma {:induction false} PiecesNoComma(t: Text)
    ensures forall i :: 0 <= i < |Pieces(t)| ==> ',' !in Pieces(t)[i]
    ensures ',' !in t ==> Pieces(t) == [t]
  {
    if t != [] {
      var front := t[..|t| - 1];
      assert t == front + [t[|t| - 1]];
      PiecesNoComma(front);
    }
  }

  lemma PiecesChar(t: Text, c: char)
    ensures Pieces(t + [c]) == if c == ',' then Pieces(t) + [[]] else Extend(Pieces(t), [c])
  {
    assert (t + [c])[..|t|] == t;
  }

  lemma ExtendTwice(ps: seq<Text>, a: Text, b: Text)
    requires ps != []
    ensures Extend(Extend(ps, a), b) == Extend(ps, a + b) && Extend(ps, []) == ps
  {
    assert ps[|ps| - 1] + a + b == ps[|ps| - 1] + (a + b);
    assert ps[|ps| - 1] + [] == ps[|ps| - 1];
  }

  lemma {:induction false} PiecesOn(a: Text, b: Text)
    requires ',' !in b
    ensures Pieces(a + b) == Extend(Pieces(a), b)
  {
    hide Pieces, Extend;
    if b == [] {
      assert a + b == a;
      ExtendTwice(Pieces(a), [], []);
    } else {
      var front, c := b[..|b| - 1], b[|b| - 1];
      assert b == front + [c];
      PiecesOn(a, front);
      assert a + b == a + front + [c];
      PiecesChar(a + front, c);
      ExtendTwice(Pieces(a), front, [c]);
    }
  }

  /** Splitting what was joined gives the same pieces. */
  lemma {:induction false} PiecesJoin(ps: seq<Text>)
    requires ps != [] && forall i :: 0 <= i < |ps| ==> ',' !in ps[i]
    ensures Pieces(Join(ps)) == ps && (',' in Join(ps) <==> |ps| > 1)
  {
    hide Pieces;
    if |ps| == 1 {
      PiecesNoComma(ps[0]);
      assert ps == [ps[0]];
    } else {
      var front, last := ps[..|ps| - 1], ps[|ps| - 1];
      PiecesJoin(front);
      PiecesChar(Join(front), ',');
      PiecesOn(Join(front) + [','], last);
      assert [] + last == last && ps == front + [last];
    }
  }

  // ------------------------------------------------------------ the original of a variant

  /** k is the position of a hyphen of t before `end`, and the text in front of it is an original. */
  predicate OriginalAt(t: Text, originals: set<Text>, k: int, end: int) {
    0 <= k < end && k < |t| && t[k] == '-' && t[..k] in originals
  }

  /** What is meant: the original that is the longest part of t in front of a hyphen. */
  function LongestOriginal(t: Text, originals: set<Text>, end: nat): (r: Option<Text>)
    requires end <= |t|
    ensures r.None? ==> forall k :: !OriginalAt(t, originals, k, end)
    ensures r.Some? ==> |r.value| < end && OriginalAt(t, originals, |r.value|, end) && r.value == t[..|r.value|]
    ensures r.Some? ==> forall k :: OriginalAt(t, originals, k, end) ==> k <= |r.value|
  {
    if end == 0 then None
    else if OriginalAt(t, originals, end - 1, end) then Some(t[..end - 1])
    else
      var r := LongestOriginal(t, originals, end - 1);
      assert forall k :: OriginalAt(t, originals, k, end) <==> OriginalAt(t, originals, k, end - 1);
      r
  }

  function OriginalOf(t: Text, originals: set<Text>): Option<Text> {
    LongestOriginal(t, originals, |t|)
  }

  /** t.rfind("-", 0, end) */
  method RFind(t: Text, end: nat) returns (k: int)
    requires end <= |t|
    ensures -1 <= k < end && (k >= 0 ==> t[k] == '-') && forall j :: k < j < end ==> t[j] != '-'
  {
    k := end - 1;
    while k >= 0 && t[k] != '-'
      invariant -1 <= k < end && forall j :: k < j < end ==> t[j] != '-'
    {
      k := k - 1;
    }
  }

  const HASH_SUFFIX_LEN := 9

  predicate HexDigit(c: char) {
    'a' <= c <= 'f' || '0' <= c <= '9'
  }

  /** A hyphen and eight hexadecimal digits. */
  predicate HashSuffix(s: Text) {
    |s| == HASH_SUFFIX_LEN && s[0] == '-' && forall i :: 1 <= i < |s| ==> HexDigit(s[i])
  }

  /** _find_original_rid_for_variant, its shortcut for hash suffixes included. */
  method FindOriginal(rid: Text, originals: set<Text>) returns (r: Option<Text>)
    ensures r == OriginalOf(rid, originals)
  {
    if |rid| > HASH_SUFFIX_LEN && rid[|rid| - HASH_SUFFIX_LEN] == '-' {
      var at := |rid| - HASH_SUFFIX_LEN;
      if HashSuffix(rid[at..]) && rid[..at] in originals {
        ShortcutAgrees(rid, originals, at);
        return Some(rid[..at]);
      }
    }
    var searchEnd := |rid|;
    while true
      invariant 0 <= searchEnd <= |rid|
      invariant OriginalOf(rid, originals) == LongestOriginal(rid, originals, searchEnd)
      decreases searchEnd
    {
      var hyphen := RFind(rid, searchEnd);
      if hyphen == -1 {
        NoHyphen(rid, originals, searchEnd, 0);
        return None;
      }
      NoHyphen(rid, originals, searchEnd, hyphen + 1);
      if rid[..hyphen] in originals {
        return Some(rid[..hyphen]);
      }
      searchEnd := hyphen;
    }
  }

  lemma {:induction false} NoHyphen(t: Text, originals: set<Text>, end: nat, start: nat)
    requires start <= end <= |t| && forall j :: start <= j < end ==> t[j] != '-'
    ensures LongestOriginal(t, originals, end) == LongestOriginal(t, originals, start)
  {
    if end > start {
      NoHyphen(t, originals, end - 1, start);
    }
  }

  /** The last hyphen is the one the shortcut looks at. */
  lemma ShortcutAgrees(t: Text, originals: set<Text>, at: nat)
    requires at + HASH_SUFFIX_LEN == |t| && HashSuffix(t[at..]) && t[..at] in originals
    ensures OriginalOf(t, originals) == Some(t[..at])
  {
    assert t[at] == t[at..][0];
    forall j | at < j < |t| ensures t[j] != '-' {
      assert t[j] == t[at..][j - at];
    }
    NoHyphen(t, originals, |t|, at + 1);
  }
}
