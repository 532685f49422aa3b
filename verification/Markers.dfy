/** Citation markers as text: what the tokens of the sanitizer are, stated on the characters alone. */
module Markers {
  import opened Basics
  import opened Citations

  predicate IsNumber(d: string) {
    d != "" && forall k :: 0 <= k < |d| ==> '0' <= d[k] <= '9'
  }

  ghost predicate IsMarker(m: string) {
    exists d :: IsNumber(d) && m == "[S" + d + "]"
  }

  lemma DigitsOfMarker(s: string, n: nat, d: string)
    requires n <= |s| && IsNumber(d) && s[..n] == "[S" + d + "]"
    ensures s != "" && HeadOf(s) == Whole(n)
  {
    var m := s[..n];
    assert |m| == |d| + 3 && m[0] == '[' && m[1] == 'S' && m[n - 1] == ']';
    assert forall k :: 2 <= k < n - 1 ==> m[k] == d[k - 2];
    assert forall k :: 2 <= k < n - 1 ==> s[k] == m[k];
    assert s[0] == m[0] && s[1] == m[1] && s[n - 1] == m[n - 1];
    DigitsEndIs(s, 2, n - 1);
  }

  /** A text begins with a whole marker of length n exactly when its first n characters are one. */
  lemma WholeExactly(s: string, n: nat)
    requires s != ""
    ensures HeadOf(s) == Whole(n) <==> n <= |s| && IsMarker(s[..n])
  {
    if HeadOf(s) == Whole(n) {
      var d := s[2..n - 1];
      assert IsNumber(d) && s[..n] == "[S" + d + "]";
    } else if n <= |s| && IsMarker(s[..n]) {
      var d :| IsNumber(d) && s[..n] == "[S" + d + "]";
      DigitsOfMarker(s, n, d);
    }
  }

  /** And it may still become one exactly when more text would make it a marker. */
  lemma OpenExactly(s: string)
    requires s != ""
    ensures HeadOf(s) == Open <==> exists rest :: rest != "" && IsMarker(s + rest)
  {
    if HeadOf(s) == Open {
      OpenGoesOn(s);
    } else if rest :| rest != "" && IsMarker(s + rest) {
      WholeExactly(s + rest, |s + rest|);
      assert (s + rest)[..|s + rest|] == s + rest;
      HeadExtends(s, rest);
    }
  }

  lemma OpenGoesOn(s: string)
    requires s != "" && HeadOf(s) == Open
    ensures exists rest :: rest != "" && IsMarker(s + rest)
  {
    var rest := if |s| == 1 then "S1]" else if |s| == 2 then "1]" else "]";
    var d := if |s| <= 2 then "1" else s[2..];
    assert IsNumber(d);
    assert s + rest == "[S" + d + "]";
  }

  /** The marker of a source id stands at position i. */
  predicate OccursAt(t: string, i: nat, id: string) {
    i + |id| + 2 <= |t| && t[i..i + |id| + 2] == "[" + id + "]"
  }

  ghost predicate Occurs(t: string, id: string) {
    exists i: nat :: OccursAt(t, i, id)
  }

  ghost predicate IsId(id: string) {
    exists d :: IsNumber(d) && id == "S" + d
  }

  lemma MarkerOfId(id: string)
    ensures IsId(id) <==> IsMarker("[" + id + "]")
  {
    if d :| IsNumber(d) && id == "S" + d {
      assert "[" + id + "]" == "[S" + d + "]";
    }
    if d :| IsNumber(d) && "[" + id + "]" == "[S" + d + "]" {
      assert ("[" + id + "]")[1..|id| + 1] == id && ("[S" + d + "]")[1..|d| + 2] == "S" + d;
    }
  }

  lemma OccursLater(t: string, n: nat, i: nat, id: string)
    requires n <= i <= |t|
    ensures OccursAt(t, i, id) <==> OccursAt(t[n..], i - n, id)
  {
    if i + |id| + 2 <= |t| {
      assert t[n..][i - n..i - n + |id| + 2] == t[i..i + |id| + 2];
    }
  }

  /** A token of the text is a marker that stands in it. */
  lemma {:induction false} TokenOccurs(t: string, id: string) returns (i: nat)
    requires id in Ids(Lex(t).tokens)
    ensures OccursAt(t, i, id) && IsId(id)
    decreases |t|
  {
    var n := HeadLength(t);
    LexStep(t);
    var rest := Lex(t[n..]).tokens;
    assert ([HeadToken(t)] + rest)[1..] == rest;
    if HeadToken(t) == Marker(id) {
      i := 0;
      assert t[..n] == "[" + id + "]" && n == |id| + 2 && t[0..n] == t[..n];
      WholeExactly(t, n);
      MarkerOfId(id);
    } else {
      i := TokenOccurs(t[n..], id);
      i := i + n;
      OccursLater(t, n, i, id);
    }
  }

  lemma NoInnerBracket(t: string, k: nat)
    requires t != "" && 0 < k < |t| && (HeadOf(t) == Open || (HeadOf(t).Whole? && k < HeadOf(t).length))
    ensures t[k] != '['
  {
    assert k >= 2 && k < DigitsEnd(t, 2) ==> IsDigit(t[k]);
  }

  /** And every marker that stands in the text is a token. */
  lemma {:induction false} OccurrenceIsToken(t: string, i: nat, id: string)
    requires OccursAt(t, i, id) && IsId(id)
    ensures id in Ids(Lex(t).tokens)
    decreases |t|
  {
    assert t[i] == t[i..i + |id| + 2][0] == '[';
    if i == 0 {
      var n := |id| + 2;
      assert t[..n] == t[0..n];
      MarkerOfId(id);
      WholeExactly(t, n);
      LexStep(t);
      assert t[1..n - 1] == t[..n][1..n - 1] == ("[" + id + "]")[1..n - 1] == id;
      assert Lex(t).tokens[0] == Marker(id);
    } else {
      if HeadOf(t) == Open {
        NoInnerBracket(t, i);
      }
      var n := HeadLength(t);
      if i < n {
        NoInnerBracket(t, i);
      }
      OccursLater(t, n, i, id);
      OccurrenceIsToken(t[n..], i - n, id);
      LexStep(t);
      var rest := Lex(t[n..]).tokens;
      assert ([HeadToken(t)] + rest)[1..] == rest;
    }
  }

  lemma {:induction false} NumberedExactly(ids: seq<string>, id: string)
    ensures id in Numbered(ids) <==> id in ids && |id| > 1 && id[1] != '0'
  {
    if ids != [] {
      NumberedExactly(ids[1..], id);
      assert ids == [ids[0]] + ids[1..];
    }
  }

  lemma {:induction false} FirstsExactly(ids: seq<string>, id: string)
    ensures id in FirstOccurrences(ids) <==> id in ids
    decreases |ids|
  {
    if ids != [] {
      var n := |ids| - 1;
      FirstsExactly(ids[..n], id);
      FirstsExactly(ids[..n], ids[n]);
      assert ids == ids[..n] + [ids[n]];
    }
  }

  /** The ids that a text cites are those whose marker stands in it, with a number that does not begin with 0. */
  lemma CitedExactly(t: string, id: string)
    ensures id in Cited(t) <==> IsId(id) && id[1] != '0' && Occurs(t, id)
  {
    var ids := Ids(Lex(t).tokens);
    NumberedExactly(ids, id);
    FirstsExactly(Numbered(ids), id);
    if id in ids {
      var i := TokenOccurs(t, id);
    }
    if IsId(id) {
      assert |id| > 1;
      if i: nat :| OccursAt(t, i, id) {
        OccurrenceIsToken(t, i, id);
      }
    }
  }

  /** Id x comes first before id y does. */
  ghost predicate FirstBefore(ids: seq<string>, x: string, y: string) {
    exists a :: 0 <= a < |ids| && ids[a] == x && forall b :: 0 <= b < |ids| && ids[b] == y ==> a < b
  }

  lemma FirstBeforeMore(ids: seq<string>, z: string, x: string, y: string)
    requires FirstBefore(ids, x, y)
    ensures FirstBefore(ids + [z], x, y)
  {
    var more := ids + [z];
    var a :| 0 <= a < |ids| && ids[a] == x && forall b :: 0 <= b < |ids| && ids[b] == y ==> a < b;
    assert more[a] == x;
    forall b | 0 <= b < |more| && more[b] == y
      ensures a < b
    {
      assert b < |ids| ==> ids[b] == y;
    }
  }

  /** Ids are listed once each, in the order in which they first appear. */
  lemma {:induction false} FirstsInOrder(ids: seq<string>, i: nat, j: nat)
    requires i < j < |FirstOccurrences(ids)|
    ensures FirstOccurrences(ids)[i] != FirstOccurrences(ids)[j]
    ensures FirstBefore(ids, FirstOccurrences(ids)[i], FirstOccurrences(ids)[j])
    decreases |ids|
  {
    var n := |ids| - 1;
    var before, last := FirstOccurrences(ids[..n]), ids[n];
    assert ids == ids[..n] + [last];
    if j < |before| {
      FirstsInOrder(ids[..n], i, j);
      FirstBeforeMore(ids[..n], last, before[i], before[j]);
    } else {
      FirstsExactly(ids[..n], before[i]);
      FirstsExactly(ids[..n], last);
      assert before[i] in ids[..n];
      var a :| 0 <= a < n && ids[..n][a] == before[i];
      assert ids[a] == before[i] && forall b :: 0 <= b < n ==> ids[..n][b] == ids[b];
      assert forall b :: 0 <= b < |ids| && ids[b] == last ==> a < b;
    }
  }
}
