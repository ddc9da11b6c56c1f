/** `String.split("\\s?,\\s?")` with the default limit 0: pieces between the leftmost matches of
    an optional white-space character, a comma and an optional white-space character, with the
    trailing empty pieces removed. */
module JavaSplit {
  import opened Wrappers

  /** The regular-expression class `\s`: space, tab, newline, vertical tab, form feed, return. */
  predicate IsSpace(c: char)
  {
    c == ' ' || c == '\t' || c == '\n' || c == '\U{000B}' || c == '\U{000C}' || c == '\r'
  }

  /** A character that neither is nor can take part in a separator. */
  predicate Plain(c: char)
  {
    c != ',' && !IsSpace(c)
  }

  /** Where a separator ends that ends the optional white space taken after the comma at
      `j - 1`. */
  function AfterComma(s: string, j: nat): (e: nat)
    requires j <= |s|
    ensures j <= e <= |s|
  {
    if j < |s| && IsSpace(s[j]) then j + 1 else j
  }

  /** The end of the separator matched at `i`, if one starts there: the greedy leading `\s?`
      is taken when a comma follows it, and dropped otherwise. */
  function MatchAt(s: string, i: nat): (r: Option<nat>)
    requires i <= |s|
    ensures r.Some? ==> i < r.value <= |s|
  {
    if i + 1 < |s| && IsSpace(s[i]) && s[i + 1] == ',' then Some(AfterComma(s, i + 2))
    else if i < |s| && s[i] == ',' then Some(AfterComma(s, i + 1))
    else None
  }

  /** The pieces of `s` from `start` on, searching for the next separator from `i`. */
  function Pieces(s: string, start: nat, i: nat): (r: seq<string>)
    requires start <= i <= |s|
    ensures |r| >= 1
    decreases |s| - i
  {
    if i == |s| then [s[start..]]
    else
      match MatchAt(s, i)
      case Some(e) => [s[start..i]] + Pieces(s, e, e)
      case None => Pieces(s, start, i + 1)
  }

  /** The separators the search matches, in order: the texts between consecutive pieces. */
  function Separators(s: string, start: nat, i: nat): seq<string>
    requires start <= i <= |s|
    decreases |s| - i
  {
    if i == |s| then []
    else
      match MatchAt(s, i)
      case Some(e) => [s[i..e]] + Separators(s, e, e)
      case None => Separators(s, start, i + 1)
  }

  /** `ps[0] + seps[0] + ps[1] + ... + seps[n - 1] + ps[n]`. */
  function Interleave(ps: seq<string>, seps: seq<string>): string
    requires |ps| == |seps| + 1
    decreases |seps|
  {
    if seps == [] then ps[0] else ps[0] + seps[0] + Interleave(ps[1..], seps[1..])
  }

  /** A text the pattern `\s?,\s?` matches as a whole. */
  predicate IsSeparator(x: string)
  {
    || x == ","
    || (|x| == 2 && IsSpace(x[0]) && x[1] == ',')
    || (|x| == 2 && x[0] == ',' && IsSpace(x[1]))
    || (|x| == 3 && IsSpace(x[0]) && x[1] == ',' && IsSpace(x[2]))
  }

  /** `p` without its trailing empty strings. */
  function DropTrailingEmpty(p: seq<string>): (r: seq<string>)
    ensures |r| <= |p| && r == p[..|r|]
    ensures r != [] ==> r[|r| - 1] != ""
    ensures forall i :: |r| <= i < |p| ==> p[i] == ""
    decreases |p|
  {
    if p == [] then []
    else if p[|p| - 1] == "" then DropTrailingEmpty(p[..|p| - 1])
    else p
  }

  /** `s.split("\\s?,\\s?")`: the input itself when no separator occurs, otherwise the pieces
      without the trailing empty ones. */
  function Split(s: string): seq<string>
  {
    var p := Pieces(s, 0, 0);
    if |p| == 1 then [s] else DropTrailingEmpty(p)
  }

  // ---------------------------------------------------------------------------------------

  /** A match of the search is a text the pattern matches. */
  lemma MatchIsSeparator(s: string, i: nat)
    requires i <= |s| && MatchAt(s, i).Some?
    ensures IsSeparator(s[i..MatchAt(s, i).value])
  {
    var e := MatchAt(s, i).value;
    var x := s[i..e];
    assert forall k :: 0 <= k < |x| ==> x[k] == s[i + k];
  }

  /** The pieces with the separators between them give back the text they came from, and
      every separator is a match of the pattern. */
  lemma {:induction false} PiecesRejoin(s: string, start: nat, i: nat)
    requires start <= i <= |s|
    ensures |Pieces(s, start, i)| == |Separators(s, start, i)| + 1
    ensures Interleave(Pieces(s, start, i), Separators(s, start, i)) == s[start..]
    ensures forall x :: x in Separators(s, start, i) ==> IsSeparator(x)
    decreases |s| - i
  {
    if i < |s| {
      match MatchAt(s, i)
      case Some(e) =>
        PiecesRejoin(s, e, e);
        MatchIsSeparator(s, i);
        var ps, seps := Pieces(s, start, i), Separators(s, start, i);
        assert ps[0] == s[start..i] && ps[1..] == Pieces(s, e, e);
        assert seps[0] == s[i..e] && seps[1..] == Separators(s, e, e);
        assert s[start..] == s[start..i] + s[i..e] + s[e..];
      case None =>
        PiecesRejoin(s, start, i + 1);
    }
  }

  /** Every comma belongs to a separator, so no piece contains one. */
  lemma {:induction false} PiecesHaveNoComma(s: string, start: nat, i: nat)
    requires start <= i <= |s|
    requires forall j :: start <= j < i ==> s[j] != ','
    ensures forall p :: p in Pieces(s, start, i) ==> ',' !in p
    decreases |s| - i
  {
    if i < |s| {
      match MatchAt(s, i)
      case Some(e) =>
        PiecesHaveNoComma(s, e, e);
        assert forall p :: p in Pieces(s, start, i) ==> p == s[start..i] || p in Pieces(s, e, e);
      case None =>
        PiecesHaveNoComma(s, start, i + 1);
    }
  }

  lemma SplitHasNoComma(s: string)
    requires ',' in s
    ensures forall p :: p in Split(s) ==> ',' !in p
  {
    PiecesHaveNoComma(s, 0, 0);
    var i :| 0 <= i < |s| && s[i] == ',';
    PiecesAtComma(s, 0, 0, i);
  }

  /** With a comma ahead, the search finds a separator: there are at least two pieces. */
  lemma {:induction false} PiecesAtComma(s: string, start: nat, i: nat, c: nat)
    requires start <= i <= c < |s| && s[c] == ','
    ensures |Pieces(s, start, i)| >= 2
    decreases c - i
  {
    match MatchAt(s, i)
    case Some(e) =>
    case None =>
      assert i != c;
      PiecesAtComma(s, start, i + 1, c);
  }

  /** The search runs over plain characters without finding a separator. */
  lemma {:induction false} PiecesSkipPlain(s: string, start: nat, i: nat, j: nat)
    requires start <= i <= j <= |s|
    requires forall k :: i <= k < j ==> Plain(s[k])
    ensures Pieces(s, start, i) == Pieces(s, start, j)
    decreases j - i
  {
    if i < j {
      assert MatchAt(s, i) == None;
      PiecesSkipPlain(s, start, i + 1, j);
    }
  }

  /** A field followed by a comma and a field that does not start with white space. */
  lemma PiecesField(s: string, start: nat, c: nat)
    requires start <= c && c + 1 < |s| && s[c] == ',' && !IsSpace(s[c + 1])
    requires forall k :: start <= k < c ==> Plain(s[k])
    ensures Pieces(s, start, start) == [s[start..c]] + Pieces(s, c + 1, c + 1)
  {
    PiecesSkipPlain(s, start, start, c);
    assert MatchAt(s, c) == Some(c + 1);
  }

  /** Three fields of plain characters joined by commas split back into those fields: the
      format `productId,delta,location` of a stock line. */
  lemma SplitThreeFields(a: string, b: string, c: string)
    requires |a| > 0 && |b| > 0 && |c| > 0
    requires forall k :: 0 <= k < |a| ==> Plain(a[k])
    requires forall k :: 0 <= k < |b| ==> Plain(b[k])
    requires forall k :: 0 <= k < |c| ==> Plain(c[k])
    ensures Split(a + "," + b + "," + c) == [a, b, c]
  {
    var s := a + "," + b + "," + c;
    var c1 := |a|;
    var c2 := |a| + 1 + |b|;
    assert s[..c1] == a && s[c1 + 1..c2] == b && s[c2 + 1..] == c;
    PiecesField(s, 0, c1);
    PiecesField(s, c1 + 1, c2);
    PiecesSkipPlain(s, c2 + 1, c2 + 1, |s|);
    assert Pieces(s, 0, 0) == [a, b, c];
  }

  /** Java drops trailing empty pieces: a trailing comma leaves the three fields. */
  lemma SplitDropsTrailingComma(a: string, b: string, c: string)
    requires |a| > 0 && |b| > 0 && |c| > 0
    requires forall k :: 0 <= k < |a| ==> Plain(a[k])
    requires forall k :: 0 <= k < |b| ==> Plain(b[k])
    requires forall k :: 0 <= k < |c| ==> Plain(c[k])
    ensures Split(a + "," + b + "," + c + ",") == [a, b, c]
  {
    var s := a + "," + b + "," + c + ",";
    var c1 := |a|;
    var c2 := |a| + 1 + |b|;
    var c3 := |s| - 1;
    assert s[..c1] == a && s[c1 + 1..c2] == b && s[c2 + 1..c3] == c;
    PiecesField(s, 0, c1);
    PiecesField(s, c1 + 1, c2);
    PiecesSkipPlain(s, c2 + 1, c2 + 1, c3);
    assert MatchAt(s, c3) == Some(|s|);
    assert Pieces(s, c2 + 1, c3) == [c] + Pieces(s, |s|, |s|);
    assert s[|s|..] == "";
    assert Pieces(s, |s|, |s|) == [""];
    var p := Pieces(s, 0, 0);
    assert p == [a, b, c, ""];
    assert p[..|p| - 1] == [a, b, c];
    assert [a, b, c][2] != "";
    assert DropTrailingEmpty(p) == DropTrailingEmpty([a, b, c]) == [a, b, c];
  }

  /** A line without any comma is a single piece, itself. */
  lemma SplitWithoutComma(s: string)
    requires ',' !in s
    ensures Split(s) == [s]
  {
    PiecesWithoutComma(s, 0, 0);
  }

  lemma {:induction false} PiecesWithoutComma(s: string, start: nat, i: nat)
    requires start <= i <= |s|
    requires forall k :: i <= k < |s| ==> s[k] != ','
    ensures Pieces(s, start, i) == [s[start..]]
    decreases |s| - i
  {
    if i < |s| {
      assert MatchAt(s, i) == None;
      PiecesWithoutComma(s, start, i + 1);
    }
  }
}
