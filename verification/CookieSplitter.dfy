/**
  `splitCookiesString` of builtins/web/fetch/headers.cpp: cuts a joined Set-Cookie value into cookies.
  Some commas belong to a cookie (in a date, say), so only a comma that starts a new `name=` is a cut.
*/
module CookieSplitter {

  /** `std::string_view::npos` where `size_t` has 32 bits; every string is shorter. */
  const NPOS: nat := 0xffff_ffff

  predicate Special(c: char) {
    c == '=' || c == ',' || c == ';'
  }

  /** The first of '=', ',' and ';' in `s` from `i` on, or `|s|`. */
  function FirstSpecial(s: string, i: nat): (j: nat)
    requires i <= |s|
    ensures i <= j <= |s|
    ensures forall k :: i <= k < j ==> !Special(s[k])
    ensures j < |s| ==> Special(s[j])
    decreases |s| - i
  {
    if i == |s| || Special(s[i]) then i else FirstSpecial(s, i + 1)
  }

  /** A comma separates two cookies when the first special character after it is '='. */
  predicate IsCut(s: string, i: nat)
    requires i < |s|
  {
    s[i] == ',' && FirstSpecial(s, i + 1) < |s| && s[FirstSpecial(s, i + 1)] == '='
  }

  /** The first cut of `s` from `i` on, or `|s|`. */
  function FirstCut(s: string, i: nat): (c: nat)
    requires i <= |s|
    ensures i <= c <= |s|
    ensures forall k :: i <= k < c ==> !IsCut(s, k)
    ensures c < |s| ==> IsCut(s, c)
    decreases |s| - i
  {
    if i == |s| || IsCut(s, i) then i else FirstCut(s, i + 1)
  }

  /** `s` cut at every cut. */
  function Pieces(s: string): (pieces: seq<string>)
    ensures |pieces| > 0
    decreases |s|
  {
    var c := FirstCut(s, 0);
    if c == |s| then [s] else [s[..c]] + Pieces(s[c + 1..])
  }

  function Split(s: string): seq<string> {
    if s == "" then [] else Pieces(s)
  }

  function Join(pieces: seq<string>, separator: string): string {
    if pieces == [] then ""
    else if |pieces| == 1 then pieces[0]
    else pieces[0] + separator + Join(pieces[1..], separator)
  }

  lemma {:induction false} JoinSnoc(pieces: seq<string>, last: string, separator: string)
    requires pieces != []
    ensures Join(pieces + [last], separator) == Join(pieces, separator) + separator + last
  {
    if |pieces| > 1 {
      JoinSnoc(pieces[1..], last, separator);
      assert (pieces + [last])[1..] == pieces[1..] + [last];
    } else {
      assert (pieces + [last])[1..] == [last];
    }
  }

  // ---------- what a cut is does not depend on what lies before it ----------

  lemma {:induction false} FirstSpecialSuffix(s: string, start: nat, i: nat)
    requires start <= |s| && i <= |s| - start
    ensures FirstSpecial(s[start..], i) == FirstSpecial(s, start + i) - start
    decreases |s| - i
  {
    if start + i < |s| && !Special(s[start + i]) {
      FirstSpecialSuffix(s, start, i + 1);
    }
  }

  lemma CutSuffix(s: string, start: nat, i: nat)
    requires start + i < |s|
    ensures IsCut(s[start..], i) == IsCut(s, start + i)
  {
    FirstSpecialSuffix(s, start, i + 1);
  }

  lemma FirstSpecialIs(s: string, i: nat, e: nat)
    requires i <= e < |s| && Special(s[e]) && forall k :: i <= k < e ==> !Special(s[k])
    ensures FirstSpecial(s, i) == e
  {
  }

  /** From `i` to `e` there is a name, which an equals sign follows. */
  predicate NameUpTo(s: string, i: nat, e: nat) {
    i <= e < |s| && s[e] == '=' && forall k :: i <= k < e ==> s[k] != '=' && s[k] != ',' && s[k] != ';'
  }

  predicate NameAfter(s: string, i: nat, e: nat) {
    NameUpTo(s, i + 1, e)
  }

  /** A cut is a comma that a name and an equals sign follow. */
  lemma CutBeforeName(s: string, i: nat)
    requires i < |s|
    ensures IsCut(s, i) <==> s[i] == ',' && exists e: nat :: NameAfter(s, i, e)
  {
    if IsCut(s, i) {
      assert NameAfter(s, i, FirstSpecial(s, i + 1));
    } else if e: nat :| NameAfter(s, i, e) {
      FirstSpecialIs(s, i + 1, e);
    }
  }

  /** A cut inside a part of `s` is a cut of `s`: the '=' that makes it one lies in the part. */
  lemma CutOfPart(s: string, a: nat, b: nat, i: nat)
    requires a <= b <= |s| && i < b - a && IsCut(s[a..b], i)
    ensures IsCut(s, a + i)
  {
    var j := FirstSpecial(s[a..b], i + 1);
    forall k | a + i + 1 <= k < a + j
      ensures !Special(s[k])
    {
      assert s[k] == s[a..b][k - a];
    }
    FirstSpecialIs(s, a + i + 1, a + j);
  }

  /** Knowing where the first cut of a suffix is gives its pieces. */
  lemma PiecesFrom(s: string, start: nat, c: nat)
    requires start <= c < |s| && IsCut(s, c)
    requires forall k :: start <= k < c ==> !IsCut(s, k)
    ensures Pieces(s[start..]) == [s[start..c]] + Pieces(s[c + 1..])
  {
    var t := s[start..];
    var f := FirstCut(t, 0);
    CutSuffix(s, start, c - start);
    if f < c - start {
      CutSuffix(s, start, f);
    }
    assert f == c - start;
    assert t[..f] == s[start..c] && t[f + 1..] == s[c + 1..];
  }

  lemma LastPiece(s: string, start: nat)
    requires start <= |s| && forall k :: start <= k < |s| ==> !IsCut(s, k)
    ensures Pieces(s[start..]) == [s[start..]]
  {
    var f := FirstCut(s[start..], 0);
    if f < |s| - start {
      CutSuffix(s, start, f);
    }
  }

  /** The test the loop makes of a comma, from where it found the next special character. */
  lemma CutTest(s: string, comma: nat, next: nat)
    requires comma < |s| && s[comma] == ','
    requires comma < next < |s| ==> Special(s[next])
    requires forall k :: comma < k < |s| && k < next ==> !Special(s[k])
    requires next > comma
    ensures IsCut(s, comma) <==> next < |s| && s[next] == '='
  {
    if next < |s| {
      FirstSpecialIs(s, comma + 1, next);
    }
  }

  lemma NoCommaNoCut(s: string, from: nat, next: nat)
    requires forall k :: from <= k < |s| && k < next ==> !OneOf(s[k], ",")
    ensures forall k :: from <= k < |s| && k < next ==> !IsCut(s, k)
  {
    SearchedChars();
  }

  // ---------- the algorithm ----------

  predicate OneOf(c: char, chars: string) {
    c in chars
  }

  lemma SearchedChars()
    ensures forall c: char {:trigger OneOf(c, "=,;")} :: OneOf(c, "=,;") <==> Special(c)
    ensures forall c: char {:trigger OneOf(c, ",")} :: OneOf(c, ",") <==> c == ','
  {
  }

  method FindFirstOf(s: string, chars: string, from: nat) returns (position: nat)
    requires |s| < NPOS
    ensures position == NPOS || from <= position < |s|
    ensures position != NPOS ==> OneOf(s[position], chars)
    ensures forall k :: from <= k < |s| && k < position ==> !OneOf(s[k], chars)
  {
    position := from;
    while position < |s|
      invariant from <= position
      invariant forall k :: from <= k < |s| && k < position ==> !OneOf(s[k], chars)
    {
      if OneOf(s[position], chars) {
        return;
      }
      position := position + 1;
    }
    position := NPOS;
  }

  /** The test of the inner loop: what follows a comma up to the first special character ends in '='. */
  method StartsCookie(cookies: string, lastComma: nat) returns (yes: bool)
    requires lastComma < |cookies| < NPOS && OneOf(cookies[lastComma], ",")
    ensures yes == IsCut(cookies, lastComma)
  {
    SearchedChars();
    var position := FindFirstOf(cookies, "=,;", lastComma + 1);
    CutTest(cookies, lastComma, position);
    yes := position != NPOS && cookies[position] == '=';
  }

  method SplitCookiesString(cookies: string) returns (pieces: seq<string>)
    requires |cookies| < NPOS
    ensures pieces == Split(cookies)
  {
    hide IsCut, Pieces, OneOf;
    pieces := [];
    var position: nat := 0;
    while position < |cookies|
      invariant (position == 0 && pieces == []) || (position == NPOS && pieces == Split(cookies))
      decreases NPOS - position
    {
      var start: nat := position;
      position := FindFirstOf(cookies, ",", position);
      NoCommaNoCut(cookies, start, position);
      while position != NPOS
        invariant start <= |cookies|
        invariant position == NPOS || (start <= position < |cookies| && OneOf(cookies[position], ","))
        invariant forall k :: start <= k < |cookies| && k < position ==> !IsCut(cookies, k)
        invariant pieces + Pieces(cookies[start..]) == Pieces(cookies)
        decreases NPOS - position
      {
        var lastComma: nat := position;
        var nextStart := position + 1;
        var separator := StartsCookie(cookies, lastComma);
        if separator {
          PiecesFrom(cookies, start, lastComma);
          position := nextStart;
          pieces := pieces + [cookies[start..lastComma]];
          start := position;
        } else {
          position := lastComma + 1;
        }
        position := FindFirstOf(cookies, ",", position);
        NoCommaNoCut(cookies, nextStart, position);
      }
      if position >= |cookies| {
        LastPiece(cookies, start);
        pieces := pieces + [cookies[start..]];
      }
    }
  }

  // ---------- what the pieces are ----------

  lemma {:induction false} JoinGivesBack(s: string)
    ensures Join(Pieces(s), ",") == s
    decreases |s|
  {
    var c := FirstCut(s, 0);
    if c < |s| {
      JoinGivesBack(s[c + 1..]);
      assert Pieces(s)[1..] == Pieces(s[c + 1..]);
      assert s == s[..c] + "," + s[c + 1..];
    }
  }

  /** Joining the cookies with commas gives back any non-empty value: nothing is lost or added. */
  lemma SplitThenJoin(s: string)
    requires s != ""
    ensures Join(Split(s), ",") == s
  {
    JoinGivesBack(s);
  }

  /** No cut comes before the first special character, so the first piece holds it. */
  lemma FirstPieceNamed(t: string, e: nat)
    requires e < |t| && t[e] == '=' && forall i :: 0 <= i < e ==> !Special(t[i])
    ensures var p := Pieces(t)[0]; FirstSpecial(p, 0) < |p| && p[FirstSpecial(p, 0)] == '='
  {
    var d := FirstCut(t, 0);
    assert d > e && Pieces(t)[0] == t[..d];
    FirstSpecialIs(t[..d], 0, e);
  }

  /** Every cookie after the first starts with a name and '='; in particular it is not empty. */
  lemma {:induction false} LaterPiecesNamed(s: string, k: nat)
    requires 0 < k < |Pieces(s)|
    ensures var p := Pieces(s)[k]; FirstSpecial(p, 0) < |p| && p[FirstSpecial(p, 0)] == '='
    decreases |s|
  {
    var c := FirstCut(s, 0);
    var t := s[c + 1..];
    if k > 1 {
      LaterPiecesNamed(t, k - 1);
    } else {
      FirstPieceNamed(t, FirstSpecial(s, c + 1) - (c + 1));
    }
  }

  lemma {:induction false} PiecesHaveNoCut(s: string, k: nat)
    requires k < |Pieces(s)|
    ensures forall i :: 0 <= i < |Pieces(s)[k]| ==> !IsCut(Pieces(s)[k], i)
    decreases |s|
  {
    var c := FirstCut(s, 0);
    if k > 0 {
      PiecesHaveNoCut(s[c + 1..], k - 1);
    } else {
      assert Pieces(s)[0] == s[0..c];
      forall i | 0 <= i < c && IsCut(s[0..c], i)
        ensures false
      {
        CutOfPart(s, 0, c, i);
      }
    }
  }

  /** A cookie is not cut again. */
  lemma SplitPiece(s: string, k: nat)
    requires k < |Split(s)| && Split(s)[k] != ""
    ensures Split(Split(s)[k]) == [Split(s)[k]]
  {
    PiecesHaveNoCut(s, k);
    LastPiece(Split(s)[k], 0);
    assert Split(s)[k][0..] == Split(s)[k];
  }

  /** The text begins with a name, which has none of the special characters, and an equals sign. */
  predicate Named(s: string) {
    FirstSpecial(s, 0) < |s| && s[FirstSpecial(s, 0)] == '='
  }

  lemma NamedIs(s: string)
    ensures Named(s) <==> exists e: nat :: NameUpTo(s, 0, e)
  {
    if Named(s) {
      assert NameUpTo(s, 0, FirstSpecial(s, 0));
    } else if e: nat :| NameUpTo(s, 0, e) {
      FirstSpecialIs(s, 0, e);
    }
  }

  predicate NoCut(s: string) {
    forall i :: 0 <= i < |s| ==> !IsCut(s, i)
  }

  lemma {:induction false} FirstSpecialPrefix(s: string, rest: string, i: nat)
    requires i <= |s|
    ensures FirstSpecial(s + rest, i) == if FirstSpecial(s, i) < |s| then FirstSpecial(s, i) else FirstSpecial(s + rest, |s|)
    decreases |s| - i
  {
    if i < |s| && !Special(s[i]) {
      FirstSpecialPrefix(s, rest, i + 1);
    }
  }

  /** What follows a comma does not make an earlier comma a cut. */
  lemma NoLaterCut(first: string, tail: string, i: nat)
    requires i < |first| && !IsCut(first, i) && tail != "" && tail[0] == ','
    ensures !IsCut(first + tail, i)
  {
    var s := first + tail;
    FirstSpecialPrefix(first, tail, i + 1);
    assert s[|first|] == ',' && FirstSpecial(s, |first|) == |first|;
    var e := FirstSpecial(first, i + 1);
    assert e < |first| ==> s[e] == first[e];
    hide FirstSpecial;
  }

  lemma CutAtJoin(first: string, rest: string)
    requires Named(rest)
    ensures IsCut(first + ("," + rest), |first|)
  {
    var s := first + ("," + rest);
    assert s[|first| + 1..] == rest;
    FirstSpecialSuffix(s, |first| + 1, 0);
    hide FirstSpecial;
  }

  lemma FirstCutIs(s: string, c: nat)
    requires c < |s| && IsCut(s, c) && forall i :: 0 <= i < c ==> !IsCut(s, i)
    ensures FirstCut(s, 0) == c
  {
    hide IsCut, FirstCut;
    var f := FirstCut(s, 0);
  }

  /** A text without a cut, a comma and a text with a name: the comma is the first cut. */
  lemma FirstCutAtJoin(first: string, rest: string)
    requires NoCut(first) && Named(rest)
    ensures FirstCut(first + ("," + rest), 0) == |first|
  {
    var tail := "," + rest;
    forall i | 0 <= i < |first|
      ensures !IsCut(first + tail, i)
    {
      NoLaterCut(first, tail, i);
    }
    CutAtJoin(first, rest);
    hide IsCut, FirstCut, Named, NoCut;
    FirstCutIs(first + tail, |first|);
  }

  lemma {:induction false} JoinedIsNamed(cookies: seq<string>)
    requires cookies != [] && Named(cookies[0])
    ensures Named(Join(cookies, ","))
  {
    if |cookies| > 1 {
      assert Join(cookies, ",") == cookies[0] + ("," + Join(cookies[1..], ","));
      FirstSpecialPrefix(cookies[0], "," + Join(cookies[1..], ","), 0);
    }
  }

  /**
    The only way to cut a value: texts without a cut, of which all but the first have a name, are the
    pieces of their list.
  */
  lemma {:induction false} SplitOfJoined(cookies: seq<string>)
    requires cookies != [] && cookies != [""]
    requires (forall k :: 0 <= k < |cookies| ==> NoCut(cookies[k])) && forall k :: 0 < k < |cookies| ==> Named(cookies[k])
    ensures Split(Join(cookies, ",")) == cookies
  {
    PiecesOfJoined(cookies);
    if |cookies| > 1 {
      assert |Join(cookies, ",")| >= |","|;
    }
  }

  lemma {:induction false} PiecesOfJoined(cookies: seq<string>)
    requires cookies != []
    requires (forall k :: 0 <= k < |cookies| ==> NoCut(cookies[k])) && forall k :: 0 < k < |cookies| ==> Named(cookies[k])
    ensures Pieces(Join(cookies, ",")) == cookies
  {
    if |cookies| == 1 {
      var s := cookies[0];
      LastPiece(s, 0);
      assert s[0..] == s;
    } else {
      var rest := Join(cookies[1..], ",");
      JoinedIsNamed(cookies[1..]);
      FirstCutAtJoin(cookies[0], rest);
      PiecesOfJoined(cookies[1..]);
      hide NoCut, Named, Join, FirstCut;
      PiecesCons(cookies[0], rest);
      assert cookies == [cookies[0]] + cookies[1..];
      JoinCons(cookies);
    }
  }

  lemma JoinCons(cookies: seq<string>)
    requires |cookies| > 1
    ensures Join(cookies, ",") == cookies[0] + ("," + Join(cookies[1..], ","))
  {
  }

  lemma PiecesCons(first: string, rest: string)
    requires FirstCut(first + ("," + rest), 0) == |first|
    ensures Pieces(first + ("," + rest)) == [first] + Pieces(rest)
  {
    var s := first + ("," + rest);
    PiecesAtCut(s, |first|);
    hide FirstCut, Pieces;
    assert s[..|first|] == first;
    assert s[|first| + 1..] == rest;
  }

  lemma PiecesAtCut(s: string, c: nat)
    requires c < |s| && FirstCut(s, 0) == c
    ensures Pieces(s) == [s[..c]] + Pieces(s[c + 1..])
  {
    hide IsCut;
  }

  /** A value is passed on whole exactly when it is not empty and no comma in it is a cut. */
  lemma SplitWhole(s: string)
    ensures Split(s) == [s] <==> s != "" && forall i :: 0 <= i < |s| ==> !IsCut(s, i)
  {
    var c := FirstCut(s, 0);
    if c < |s| {
      assert |s[..c]| < |s| && Pieces(s)[0] == s[..c];
    }
  }
}
