/** Which markers the streamed text can contain.

    Dropping a marker joins the text around it, so it can make a marker that was in no fragment: "[S[S9]7]" becomes
    "[S7]". The results say when that cannot happen. */
module CitationTheorems {
  import opened Basics
  import opened Citations

  /** The streamed text cites exactly the allow-listed markers of the raw text, in their order. */
  predicate Faithful(t: string, allowed: set<string>) {
    Ids(Lex(Scan(t, allowed)).tokens) == Allowed(Ids(Lex(t).tokens), allowed)
  }

  /** After e has been put out, no marker of s is dropped while the text put out ends in the beginning of a marker. */
  predicate NoSplice(e: string, s: string, allowed: set<string>)
    decreases |s|
  {
    if s == "" || HeadOf(s).Open? then true
    else
      var n := HeadLength(s);
      if Kept(HeadToken(s), allowed) then NoSplice(e + s[..n], s[n..], allowed)
      else Lex(e).held == "" && NoSplice(e, s[n..], allowed)
  }

  /** What is held after e is not the beginning of a marker that the scan of s completes. */
  predicate Clear(e: string, s: string, allowed: set<string>) {
    var h := Lex(e).held;
    h == "" || !HeadOf(h + Scan(s, allowed)).Whole?
  }

  /** After e has been put out, no marker of s is dropped between the two parts of a marker in what is put out. */
  predicate NoForge(e: string, s: string, allowed: set<string>)
    decreases |s|
  {
    if s == "" || HeadOf(s).Open? then true
    else
      var n := HeadLength(s);
      if Kept(HeadToken(s), allowed) then NoForge(e + s[..n], s[n..], allowed)
      else Clear(e, s[n..], allowed) && NoForge(e, s[n..], allowed)
  }

  /** What is held after e is not the beginning of a marker that s itself completes. */
  predicate Ready(e: string, s: string) {
    var h := Lex(e).held;
    h == "" || HeadOf(h + s) == Plain
  }

  lemma {:induction false} LettersThen(u: string, v: string)
    requires '[' !in u
    ensures Ids(Lex(u + v).tokens) == Ids(Lex(v).tokens) && Lex(u + v).held == Lex(v).held
  {
    if u == "" {
      assert u + v == v;
    } else {
      assert u[0] in u;
      assert (u + v)[1..] == u[1..] + v;
      LettersThen(u[1..], v);
      var rest := Lex(u[1..] + v).tokens;
      assert ([Letter(u[0])] + rest)[1..] == rest;
    }
  }

  /** The inside of the beginning of a marker has no bracket. */
  lemma OpenInside(h: string)
    requires h != "" && HeadOf(h).Open?
    ensures '[' !in h[1..]
  {
  }

  /** A bracket ends the beginning of a marker: what was held is text. */
  lemma OpenThenBracket(h: string, v: string)
    requires h != "" ==> HeadOf(h).Open?
    requires v != "" && v[0] == '['
    ensures Ids(Lex(h + v).tokens) == Ids(Lex(v).tokens) && Lex(h + v).held == Lex(v).held
    ensures h != "" ==> HeadOf(h + v).Plain?
  {
    if h == "" {
      assert h + v == v;
    } else {
      var x := h + v;
      OpenInside(h);
      assert HeadOf(x).Plain? by {
        if |h| > 1 {
          assert forall k :: 2 <= k < |h| ==> IsDigit(x[k]);
          DigitsEndIs(x, 2, |h|);
        }
      }
      assert x[1..] == h[1..] + v;
      LettersThen(h[1..], v);
      var rest := Lex(x[1..]).tokens;
      assert ([Letter(x[0])] + rest)[1..] == rest;
    }
  }

  /** Any other character extends the beginning of a marker, completes it, or makes all of it text. */
  lemma OpenThenLetter(h: string, c: char)
    requires h != "" ==> HeadOf(h).Open?
    requires c != '['
    ensures var x := h + [c]; HeadOf(x).Open? || HeadOf(x).Whole? || (Ids(Lex(x).tokens) == [] && Lex(x).held == "")
  {
    var x := h + [c];
    if HeadOf(x).Plain? {
      if h == "" {
        LettersThen(x, "");
        assert x + "" == x;
      } else {
        OpenInside(h);
        assert x[1..] == h[1..] + [c] && x[1..] + "" == x[1..];
        LettersThen(x[1..], "");
        var rest := Lex(x[1..]).tokens;
        assert ([Letter(x[0])] + rest)[1..] == rest;
      }
    }
  }

  /** What one more character makes of what is held, when no bracket. */
  lemma HeldThenLetter(e: string, c: char)
    requires c != '['
    ensures var x := Lex(e).held + [c];
            && (HeadOf(x).Open? ==> Ids(Lex(e + [c]).tokens) == Ids(Lex(e).tokens) && Lex(e + [c]).held == x)
            && (HeadOf(x).Whole? ==> |Ids(Lex(e + [c]).tokens)| == |Ids(Lex(e).tokens)| + 1 && Lex(e + [c]).held == "")
            && (HeadOf(x).Plain? ==> Ids(Lex(e + [c]).tokens) == Ids(Lex(e).tokens) && Lex(e + [c]).held == "")
  {
    var h := Lex(e).held;
    var x := h + [c];
    HeldIsOpen(e);
    LexExtends(e, [c]);
    IdsConcat(Lex(e).tokens, Lex(x).tokens);
    assert Ids(Lex(e).tokens) + [] == Ids(Lex(e).tokens);
    OpenThenLetter(h, c);
    if HeadOf(x).Whole? {
      WholeIsLast(h, c);
      WholeAlone(x);
    }
  }

  /** A marker completed by one character ends with it. */
  lemma WholeIsLast(h: string, c: char)
    requires h != "" ==> HeadOf(h).Open?
    requires HeadOf(h + [c]).Whole?
    ensures (h + [c])[..HeadLength(h + [c])] == h + [c]
  {
  }

  lemma HeldThenBracket(e: string)
    ensures Ids(Lex(e + "[").tokens) == Ids(Lex(e).tokens) && Lex(e + "[").held == "["
  {
    HeldIsOpen(e);
    LexExtends(e, "[");
    OpenThenBracket(Lex(e).held, "[");
    IdsConcat(Lex(e).tokens, Lex(Lex(e).held + "[").tokens);
    assert Ids(Lex(e).tokens) + [] == Ids(Lex(e).tokens);
  }

  lemma KeptMarkerStep(e: string, s: string)
    requires s != "" && HeadOf(s).Whole?
    ensures Ids(Lex(e + s[..HeadLength(s)]).tokens) == Ids(Lex(e).tokens) + [HeadToken(s).id]
    ensures Lex(e + s[..HeadLength(s)]).held == ""
  {
    var n := HeadLength(s);
    var m := s[..n];
    HeldIsOpen(e);
    LexExtends(e, m);
    OpenThenBracket(Lex(e).held, m);
    IdsConcat(Lex(e).tokens, Lex(Lex(e).held + m).tokens);
    WholeAlone(s);
  }

  lemma WholeAlone(s: string)
    requires s != "" && HeadOf(s).Whole?
    ensures Lex(s[..HeadLength(s)]).tokens == [HeadToken(s)] && Lex(s[..HeadLength(s)]).held == ""
    ensures Ids(Lex(s[..HeadLength(s)]).tokens) == [HeadToken(s).id]
  {
    var n := HeadLength(s);
    var m := s[..n];
    assert forall k :: 2 <= k < n - 1 ==> IsDigit(m[k]);
    DigitsEndIs(m, 2, n - 1);
    assert HeadOf(m) == Whole(n);
    assert m[n..] == "" && m[1..n - 1] == s[1..n - 1];
    assert Lex("") == Lexed([], "");
  }

  lemma AllowedCons(id: string, ids: seq<string>, allowed: set<string>)
    ensures Allowed([id] + ids, allowed) == (if id in allowed then [id] else []) + Allowed(ids, allowed)
  {
  }

  lemma ScanStep(s: string, allowed: set<string>)
    requires s != "" && HeadOf(s) != Open
    ensures Scan(s, allowed) == (if Kept(HeadToken(s), allowed) then s[..HeadLength(s)] else "") + Scan(s[HeadLength(s)..], allowed)
    ensures Ids(Lex(s).tokens) == (if HeadToken(s).Marker? then [HeadToken(s).id] else []) + Ids(Lex(s[HeadLength(s)..]).tokens)
  {
    DrainStep(s, allowed, true);
    LexStep(s);
    var rest := Lex(s[HeadLength(s)..]).tokens;
    assert ([HeadToken(s)] + rest)[1..] == rest;
  }

  lemma SameIds(x: string, y: string)
    requires x == y
    ensures Ids(Lex(x).tokens) == Ids(Lex(y).tokens)
  {
  }

  /** A text that begins with a letter scans to that letter and the scan of the rest. */
  lemma LetterScans(h: string, s: string, allowed: set<string>)
    requires s != "" && HeadOf(s).Plain?
    ensures h + Scan(s, allowed) == (h + [s[0]]) + Scan(s[1..], allowed)
  {
    ScanStep(s, allowed);
    assert s[..1] == [s[0]];
    Associate(h, [s[0]], Scan(s[1..], allowed));
  }

  /** A kept marker ends what is held: it is text. */
  lemma MarkerIsClear(e: string, s: string, allowed: set<string>)
    requires s != "" && HeadOf(s).Whole? && Kept(HeadToken(s), allowed)
    ensures Clear(e, s, allowed)
  {
    HeldIsOpen(e);
    ScanStep(s, allowed);
    OpenThenBracket(Lex(e).held, Scan(s, allowed));
  }

  lemma BracketIsClear(e: string, s: string, allowed: set<string>)
    requires s != "" && s[0] == '[' && HeadOf(s).Plain?
    ensures Clear(e, s, allowed)
  {
    HeldIsOpen(e);
    ScanStep(s, allowed);
    OpenThenBracket(Lex(e).held, Scan(s, allowed));
  }

  lemma EndIsClear(e: string, s: string, allowed: set<string>)
    requires s != "" ==> HeadOf(s).Open?
    ensures Clear(e, s, allowed)
  {
    var h := Lex(e).held;
    HeldIsOpen(e);
    if s != "" {
      OpenScans(s, allowed);
    }
    if h != "" {
      if s == "[" {
        OpenThenBracket(h, "[");
      } else {
        assert h + "" == h;
      }
    }
  }

  lemma OpenScans(s: string, allowed: set<string>)
    requires s != "" && HeadOf(s).Open?
    ensures Scan(s, allowed) == if s == "[" then "[" else ""
  {
    assert Keep([], allowed) == [];
  }

  lemma DroppedScans(s: string, allowed: set<string>)
    requires s != "" && HeadOf(s).Whole? && !Kept(HeadToken(s), allowed)
    ensures Scan(s, allowed) == Scan(s[HeadLength(s)..], allowed)
  {
    ScanStep(s, allowed);
    assert "" + Scan(s[HeadLength(s)..], allowed) == Scan(s[HeadLength(s)..], allowed);
  }

  /** A letter after what is held: unless it goes on with the marker, there is nothing left to complete. */
  lemma LetterIsClear(e: string, s: string, allowed: set<string>)
    requires s != "" && HeadOf(s).Plain? && s[0] != '['
    ensures HeadOf(Lex(e).held + [s[0]]).Plain? ==> Clear(e, s, allowed)
    ensures HeadOf(Lex(e).held + [s[0]]).Open? ==> (Clear(e, s, allowed) <==> Clear(e + s[..1], s[1..], allowed))
    ensures HeadOf(Lex(e).held + [s[0]]).Whole? ==> !Clear(e, s, allowed)
  {
    var h, c := Lex(e).held, s[0];
    LetterScans(h, s, allowed);
    HeldThenLetter(e, c);
    assert s[..1] == [c];
    if !HeadOf(h + [c]).Open? {
      HeadExtends(h + [c], Scan(s[1..], allowed));
    }
  }

  /** What the text itself does not complete is completed only where a marker is dropped. */
  lemma {:induction false} ReadyIsClear(e: string, s: string, allowed: set<string>)
    requires Ready(e, s) && NoForge(e, s, allowed)
    ensures Clear(e, s, allowed)
    decreases |s|
  {
    if s == "" || HeadOf(s).Open? {
      EndIsClear(e, s, allowed);
    } else if HeadOf(s).Plain? {
      if s[0] == '[' {
        BracketIsClear(e, s, allowed);
      } else {
        LetterIsClear(e, s, allowed);
        ReadyLetter(e, s);
        if HeadOf(Lex(e).held + [s[0]]).Open? {
          ReadyIsClear(e + s[..1], s[1..], allowed);
        }
      }
    } else if Kept(HeadToken(s), allowed) {
      MarkerIsClear(e, s, allowed);
    } else {
      DroppedScans(s, allowed);
    }
  }

  lemma ReadyLetter(e: string, s: string)
    requires s != "" && HeadOf(s).Plain? && s[0] != '[' && Ready(e, s)
    ensures !HeadOf(Lex(e).held + [s[0]]).Whole?
    ensures HeadOf(Lex(e).held + [s[0]]).Open? ==> Ready(e + s[..1], s[1..])
  {
    var h, c := Lex(e).held, s[0];
    var x := h + [c];
    HeldThenLetter(e, c);
    assert s[..1] == [c] && x + s[1..] == h + s;
    if HeadOf(x).Whole? {
      HeadExtends(x, s[1..]);
    }
  }

  /** A letter that completes nothing, with nothing completed later, adds no marker. */
  lemma LetterStep(e: string, s: string, allowed: set<string>)
    requires s != "" && HeadOf(s).Plain? && Clear(e, s, allowed) && NoForge(e + s[..1], s[1..], allowed)
    ensures Ids(Lex(e + s[..1]).tokens) == Ids(Lex(e).tokens) && Clear(e + s[..1], s[1..], allowed)
  {
    assert s[..1] == [s[0]];
    if s[0] == '[' {
      HeldThenBracket(e);
      assert "[" + s[1..] == s;
      ReadyIsClear(e + s[..1], s[1..], allowed);
    } else {
      LetterIsClear(e, s, allowed);
      HeldThenLetter(e, s[0]);
    }
  }

  /** The markers of what is put out, followed through the text. */
  lemma {:induction false} FaithfulFrom(e: string, s: string, allowed: set<string>)
    requires Clear(e, s, allowed) && NoForge(e, s, allowed)
    ensures Ids(Lex(e + Scan(s, allowed)).tokens) == Ids(Lex(e).tokens) + Allowed(Ids(Lex(s).tokens), allowed)
    decreases |s|
  {
    if s == "" {
      assert e + Scan(s, allowed) == e;
    } else if HeadOf(s).Open? {
      EndStep(e, s, allowed);
    } else {
      var n := HeadLength(s);
      if HeadOf(s).Plain? {
        LetterStep(e, s, allowed);
        FaithfulFrom(e + s[..n], s[n..], allowed);
        LetterCounts(e, s, allowed);
      } else if Kept(HeadToken(s), allowed) {
        KeptMarkerStep(e, s);
        FaithfulFrom(e + s[..n], s[n..], allowed);
        MarkerCounts(e, s, allowed);
      } else {
        FaithfulFrom(e, s[n..], allowed);
        DroppedCounts(e, s, allowed);
      }
    }
  }

  /** How many markers a text cites. */
  function Count(e: string): nat {
    |Ids(Lex(e).tokens)|
  }

  lemma CountGrows(e: string, f: string)
    ensures Count(e) <= Count(e + f)
  {
    LexExtends(e, f);
    IdsConcat(Lex(e).tokens, Lex(Lex(e).held + f).tokens);
  }

  function AllowedCount(s: string, allowed: set<string>): nat {
    |Allowed(Ids(Lex(s).tokens), allowed)|
  }

  lemma MarkerAddsOne(e: string, s: string, allowed: set<string>)
    requires s != "" && HeadOf(s).Whole? && Kept(HeadToken(s), allowed)
    ensures Count(e + s[..HeadLength(s)]) == Count(e) + 1
    ensures AllowedCount(s, allowed) == AllowedCount(s[HeadLength(s)..], allowed) + 1
    ensures e + Scan(s, allowed) == (e + s[..HeadLength(s)]) + Scan(s[HeadLength(s)..], allowed)
  {
    KeptMarkerStep(e, s);
    ScanStep(s, allowed);
    AllowedCons(HeadToken(s).id, Ids(Lex(s[HeadLength(s)..]).tokens), allowed);
    Associate(e, s[..HeadLength(s)], Scan(s[HeadLength(s)..], allowed));
  }

  /** Joining can only add markers. */
  lemma {:induction false} CountFrom(e: string, s: string, allowed: set<string>)
    ensures Count(e + Scan(s, allowed)) >= Count(e) + AllowedCount(s, allowed)
    decreases |s|
  {
    if s == "" || HeadOf(s).Open? {
      CountGrows(e, Scan(s, allowed));
    } else {
      var n := HeadLength(s);
      if HeadOf(s).Plain? {
        CountGrows(e, s[..n]);
        CountFrom(e + s[..n], s[n..], allowed);
        LetterCounts(e, s, allowed);
      } else if Kept(HeadToken(s), allowed) {
        CountFrom(e + s[..n], s[n..], allowed);
        MarkerAddsOne(e, s, allowed);
      } else {
        CountFrom(e, s[n..], allowed);
        DroppedCounts(e, s, allowed);
      }
    }
  }

  /** A completed marker is one more than the text has. */
  lemma {:induction false} ForgedCounts(e: string, s: string, allowed: set<string>)
    requires !Clear(e, s, allowed)
    ensures Count(e + Scan(s, allowed)) > Count(e) + AllowedCount(s, allowed)
    decreases |s|
  {
    if s == "" || HeadOf(s).Open? {
      EndIsClear(e, s, allowed);
    } else if HeadOf(s).Plain? {
      if s[0] == '[' {
        BracketIsClear(e, s, allowed);
      } else {
        ForgedLetter(e, s, allowed);
        if HeadOf(Lex(e).held + [s[0]]).Open? {
          ForgedCounts(e + s[..1], s[1..], allowed);
        } else {
          CountFrom(e + s[..1], s[1..], allowed);
        }
        LetterCounts(e, s, allowed);
      }
    } else if Kept(HeadToken(s), allowed) {
      MarkerIsClear(e, s, allowed);
    } else {
      DroppedScans(s, allowed);
      ForgedCounts(e, s[HeadLength(s)..], allowed);
      DroppedCounts(e, s, allowed);
    }
  }

  lemma ForgedLetter(e: string, s: string, allowed: set<string>)
    requires s != "" && HeadOf(s).Plain? && s[0] != '[' && !Clear(e, s, allowed)
    ensures HeadOf(Lex(e).held + [s[0]]).Open? ==> !Clear(e + s[..1], s[1..], allowed) && Count(e + s[..1]) == Count(e)
    ensures !HeadOf(Lex(e).held + [s[0]]).Open? ==> Count(e + s[..1]) == Count(e) + 1
  {
    assert s[..1] == [s[0]];
    LetterIsClear(e, s, allowed);
    HeldThenLetter(e, s[0]);
  }

  lemma {:induction false} ForgingCounts(e: string, s: string, allowed: set<string>)
    requires !NoForge(e, s, allowed)
    ensures Count(e + Scan(s, allowed)) > Count(e) + AllowedCount(s, allowed)
    decreases |s|
  {
    var n := HeadLength(s);
    if HeadOf(s).Plain? {
      CountGrows(e, s[..n]);
      ForgingCounts(e + s[..n], s[n..], allowed);
      LetterCounts(e, s, allowed);
    } else if Kept(HeadToken(s), allowed) {
      ForgingCounts(e + s[..n], s[n..], allowed);
      MarkerAddsOne(e, s, allowed);
    } else {
      if Clear(e, s[n..], allowed) {
        ForgingCounts(e, s[n..], allowed);
      } else {
        ForgedCounts(e, s[n..], allowed);
      }
      DroppedCounts(e, s, allowed);
    }
  }

  lemma LetterCounts(e: string, s: string, allowed: set<string>)
    requires s != "" && HeadOf(s).Plain?
    ensures Ids(Lex(e + Scan(s, allowed)).tokens) == Ids(Lex((e + s[..1]) + Scan(s[1..], allowed)).tokens)
    ensures Allowed(Ids(Lex(s).tokens), allowed) == Allowed(Ids(Lex(s[1..]).tokens), allowed)
  {
    ScanStep(s, allowed);
    Associate(e, s[..1], Scan(s[1..], allowed));
    SameIds(e + Scan(s, allowed), (e + s[..1]) + Scan(s[1..], allowed));
    assert [] + Ids(Lex(s[1..]).tokens) == Ids(Lex(s[1..]).tokens);
  }

  lemma MarkerCounts(e: string, s: string, allowed: set<string>)
    requires s != "" && HeadOf(s).Whole? && Kept(HeadToken(s), allowed)
    requires Ids(Lex((e + s[..HeadLength(s)]) + Scan(s[HeadLength(s)..], allowed)).tokens)
             == (Ids(Lex(e).tokens) + [HeadToken(s).id]) + Allowed(Ids(Lex(s[HeadLength(s)..]).tokens), allowed)
    ensures Ids(Lex(e + Scan(s, allowed)).tokens) == Ids(Lex(e).tokens) + Allowed(Ids(Lex(s).tokens), allowed)
  {
    var n, id := HeadLength(s), HeadToken(s).id;
    ScanStep(s, allowed);
    Associate(e, s[..n], Scan(s[n..], allowed));
    SameIds(e + Scan(s, allowed), (e + s[..n]) + Scan(s[n..], allowed));
    AllowedCons(id, Ids(Lex(s[n..]).tokens), allowed);
    Associate(Ids(Lex(e).tokens), [id], Allowed(Ids(Lex(s[n..]).tokens), allowed));
  }

  lemma DroppedCounts(e: string, s: string, allowed: set<string>)
    requires s != "" && HeadOf(s).Whole? && !Kept(HeadToken(s), allowed)
    ensures Ids(Lex(e + Scan(s, allowed)).tokens) == Ids(Lex(e + Scan(s[HeadLength(s)..], allowed)).tokens)
    ensures Allowed(Ids(Lex(s).tokens), allowed) == Allowed(Ids(Lex(s[HeadLength(s)..]).tokens), allowed)
  {
    var n := HeadLength(s);
    ScanStep(s, allowed);
    assert "" + Scan(s[n..], allowed) == Scan(s[n..], allowed);
    SameIds(e + Scan(s, allowed), e + Scan(s[n..], allowed));
    AllowedCons(HeadToken(s).id, Ids(Lex(s[n..]).tokens), allowed);
    assert [] + Allowed(Ids(Lex(s[n..]).tokens), allowed) == Allowed(Ids(Lex(s[n..]).tokens), allowed);
  }

  lemma EndStep(e: string, s: string, allowed: set<string>)
    requires s != "" && HeadOf(s).Open?
    ensures Ids(Lex(e + Scan(s, allowed)).tokens) == Ids(Lex(e).tokens)
    ensures Lex(s).tokens == []
  {
    assert Scan(s, allowed) == if s == "[" then "[" else "";
    if s == "[" {
      HeldIsOpen(e);
      LexExtends(e, "[");
      OpenThenBracket(Lex(e).held, "[");
      IdsConcat(Lex(e).tokens, Lex(Lex(e).held + "[").tokens);
    } else {
      assert e + "" == e;
    }
  }

  /** The exact condition: the streamed text cites exactly the allow-listed markers of the raw text, in order, just when
      no marker is dropped between the two parts of a marker in the streamed text. */
  lemma FaithfulExactly(s: string, allowed: set<string>)
    ensures NoForge("", s, allowed) <==> Faithful(s, allowed)
  {
    FaithfulFromStart("", s, allowed);
  }

  lemma FaithfulFromStart(e: string, s: string, allowed: set<string>)
    requires e == ""
    ensures NoForge(e, s, allowed) <==> Faithful(s, allowed)
  {
    NothingYet(e, s, allowed);
    if NoForge(e, s, allowed) {
      FaithfulFrom(e, s, allowed);
    } else {
      ForgingCounts(e, s, allowed);
    }
  }

  lemma NothingYet(e: string, s: string, allowed: set<string>)
    requires e == ""
    ensures Lex(e) == Lexed([], "") && Ids(Lex(e).tokens) == [] && Clear(e, s, allowed)
    ensures e + Scan(s, allowed) == Scan(s, allowed)
    ensures Ids(Lex(e).tokens) + Allowed(Ids(Lex(s).tokens), allowed) == Allowed(Ids(Lex(s).tokens), allowed)
  {
  }

  lemma {:induction false} NoSpliceForgesNothing(e: string, s: string, allowed: set<string>)
    requires NoSplice(e, s, allowed)
    ensures NoForge(e, s, allowed)
    decreases |s|
  {
    if s != "" && !HeadOf(s).Open? {
      var n := HeadLength(s);
      NoSpliceForgesNothing(if Kept(HeadToken(s), allowed) then e + s[..n] else e, s[n..], allowed);
    }
  }

  /** With no splice, only allow-listed markers remain, all of them, in order. */
  lemma NoSpliceIsFaithful(s: string, allowed: set<string>)
    requires NoSplice("", s, allowed)
    ensures Faithful(s, allowed)
  {
    NoSpliceForgesNothing("", s, allowed);
    FaithfulExactly(s, allowed);
  }

  lemma ShortMarker(d: char, rest: string)
    requires IsDigit(d)
    ensures HeadOf(['[', 'S', d, ']'] + rest) == Whole(4)
    ensures HeadToken(['[', 'S', d, ']'] + rest) == Marker(['S', d]) && (['[', 'S', d, ']'] + rest)[4..] == rest
  {
    DigitsEndIs(['[', 'S', d, ']'] + rest, 2, 3);
  }

  lemma OpenWithoutDigits(rest: string, allowed: set<string>)
    requires rest != "" && rest[0] == '['
    ensures Scan("[S" + rest, allowed) == "[" + Scan("S" + rest, allowed)
  {
    var s := "[S" + rest;
    DigitsEndIs(s, 2, 2);
    ScanStep(s, allowed);
    assert s[1..] == "S" + rest && s[..1] == "[";
  }

  /** Dropping "[S9]" joins "[S" and "7]". */
  lemma SpliceScans(s: string, rest: string, tail: string, allowed: set<string>)
    requires tail == "7]" && rest == ['[', 'S', '9', ']'] + tail && s == "[S" + rest && "S9" !in allowed
    ensures Scan(s, allowed) == "[S7]"
  {
    OpenWithoutDigits(rest, allowed);
    ScanStep("S" + rest, allowed);
    assert ("S" + rest)[1..] == rest && ("S" + rest)[..1] == "S";
    ShortMarker('9', tail);
    ScanStep(rest, allowed);
    LettersScan(tail, allowed);
  }

  lemma ShortMarkerAlone(d: char, m: string)
    requires IsDigit(d) && m == ['[', 'S', d, ']'] + ""
    ensures Ids(Lex(m).tokens) == [['S', d]]
  {
    ShortMarker(d, "");
    LexStep(m);
    assert m[4..] == "" && Lex("").tokens == [];
    assert Lex(m).tokens == [Marker(['S', d])];
  }

  /** The splice itself: a marker that is in no part of the raw text. */
  lemma SpliceExample(s: string)
    requires s == "[S[S9]7]"
    ensures Scan(s, {}) == "[S7]" && !Faithful(s, {})
  {
    var tail := "7]";
    var rest := ['[', 'S', '9', ']'] + tail;
    assert s == "[S" + rest;
    SpliceScans(s, rest, tail, {});
    var out := Scan(s, {});
    ShortMarkerAlone('7', out);
    AllowedOnly(Ids(Lex(s).tokens), {});
    assert ['S', '7'] in Ids(Lex(out).tokens);
  }

  lemma LettersScan(c: string, allowed: set<string>)
    requires '[' !in c
    ensures Scan(c, allowed) == c == Passed(c, allowed)
  {
    assert c[|c|..] == "" && c[..|c|] == c && Scan("", allowed) == "" == Passed("", allowed);
    PlainRun(c, |c|, allowed, true);
    PlainRun(c, |c|, allowed, false);
  }

  lemma {:induction false} LettersKept(e: string, c: string, allowed: set<string>)
    requires '[' !in c
    ensures NoSplice(e, c, allowed)
    decreases |c|
  {
    if c != "" {
      assert c[0] in c;
      LettersKept(e + c[..1], c[1..], allowed);
    }
  }

  /** Cutting a text between tokens and going on without brackets adds no splice. */
  lemma {:induction false} NoSpliceCut(e: string, s: string, p: string, c: string, allowed: set<string>)
    requires NoSplice(e, s, allowed) && p <= s && Lex(p).held == "" && '[' !in c
    ensures NoSplice(e, p + c, allowed)
    decreases |s|
  {
    if p == "" {
      assert p + c == c;
      LettersKept(e, c, allowed);
    } else {
      var rest, n := s[|p|..], HeadLength(p);
      assert s == p + rest;
      SameHead(p, rest);
      SameHead(p, c);
      LexStep(p);
      NoSpliceCut(if Kept(HeadToken(p), allowed) then e + p[..n] else e, s[n..], p[n..], c, allowed);
    }
  }

  lemma SameHead(p: string, f: string)
    requires p != "" && HeadOf(p) != Open
    ensures HeadOf(p + f) == HeadOf(p) && HeadLength(p + f) == HeadLength(p) && HeadToken(p + f) == HeadToken(p)
    ensures (p + f)[..HeadLength(p)] == p[..HeadLength(p)] && (p + f)[HeadLength(p)..] == p[HeadLength(p)..] + f
  {
    HeadExtends(p, f);
    if HeadOf(p).Whole? {
      assert (p + f)[1..HeadLength(p) - 1] == p[1..HeadLength(p) - 1];
    }
  }

  /** Some number continues the beginning of a marker to one that is not allowed. */
  lemma {:induction false} LongId(allowed: set<string>) returns (n: nat)
    ensures forall id :: id in allowed ==> |id| < n
  {
    if allowed == {} {
      n := 0;
    } else {
      var x :| x in allowed;
      var m := LongId(allowed - {x});
      assert allowed == (allowed - {x}) + {x};
      n := if m <= |x| then |x| + 1 else m;
    }
  }

  function Digits(n: nat): (s: string)
    ensures |s| == n && forall c :: c in s ==> IsDigit(c)
  {
    if n == 0 then "" else "1" + Digits(n - 1)
  }

  lemma ForgeMarker(h: string, allowed: set<string>) returns (c: string, id: string)
    requires h != "" && HeadOf(h).Open?
    ensures '[' !in c && id !in allowed
    ensures Lex(h + c).tokens == [Marker(id)]
  {
    var n := LongId(allowed);
    c := (if h == "[" then "S" else "") + Digits(n + 1) + "]";
    var x := h + c;
    var j := |x| - 1;
    assert forall k :: 2 <= k < j ==> IsDigit(x[k]);
    DigitsEndIs(x, 2, j);
    assert HeadOf(x) == Whole(j + 1);
    id := x[1..j];
    assert x[j + 1..] == "";
    assert Lex("") == Lexed([], "");
  }

  lemma {:induction false} AllowedOnly(ids: seq<string>, allowed: set<string>)
    ensures forall id :: id in Allowed(ids, allowed) ==> id in allowed
  {
    if ids != [] {
      AllowedOnly(ids[1..], allowed);
    }
  }

  /** Wherever a splice is, some continuation of the text up to there forges a marker that is not allowed. */
  lemma {:induction false} SpliceForges(e: string, s: string, allowed: set<string>) returns (p: string, c: string, id: string)
    requires !NoSplice(e, s, allowed)
    ensures p <= s && p != "" && p[|p| - 1] == ']' && Lex(p).held == "" && '[' !in c
    ensures id !in allowed && id in Ids(Lex((e + Passed(p, allowed)) + c).tokens)
    decreases |s|
  {
    var n := HeadLength(s);
    if Kept(HeadToken(s), allowed) || Lex(e).held == "" {
      var put := if Kept(HeadToken(s), allowed) then s[..n] else "";
      assert e + "" == e;
      var q;
      q, c, id := SpliceForges(e + put, s[n..], allowed);
      p := ForgedLater(e, s, put, q, c, id, allowed);
    } else {
      p := s[..n];
      c, id := ForgedHere(e, s, allowed);
      assert p[n - 1] == ']' by {
        LexStep(s);
      }
    }
  }

  lemma ForgedIds(e: string, c: string, id: string)
    requires Lex(Lex(e).held + c).tokens == [Marker(id)]
    ensures id in Ids(Lex(e + c).tokens)
  {
    LexExtends(e, c);
    IdsConcat(Lex(e).tokens, [Marker(id)]);
    assert Ids([Marker(id)]) == [id];
  }

  lemma ForgedHere(e: string, s: string, allowed: set<string>) returns (c: string, id: string)
    requires s != "" && HeadOf(s).Whole? && !Kept(HeadToken(s), allowed) && Lex(e).held != ""
    ensures Lex(s[..HeadLength(s)]).held == "" && '[' !in c && id !in allowed
    ensures id in Ids(Lex((e + Passed(s[..HeadLength(s)], allowed)) + c).tokens)
  {
    HeldIsOpen(e);
    c, id := ForgeMarker(Lex(e).held, allowed);
    WholeAlone(s);
    DroppedAlone(s, allowed);
    ForgedIds(e, c, id);
    SameIds((e + Passed(s[..HeadLength(s)], allowed)) + c, e + c);
  }

  lemma ForgedLater(e: string, s: string, put: string, q: string, c: string, id: string, allowed: set<string>) returns (p: string)
    requires s != "" && HeadOf(s) != Open && put == if Kept(HeadToken(s), allowed) then s[..HeadLength(s)] else ""
    requires q <= s[HeadLength(s)..] && q != "" && q[|q| - 1] == ']' && Lex(q).held == ""
    requires id in Ids(Lex(((e + put) + Passed(q, allowed)) + c).tokens)
    ensures p <= s && p != "" && p[|p| - 1] == ']' && Lex(p).held == ""
    ensures id in Ids(Lex((e + Passed(p, allowed)) + c).tokens)
  {
    var n := HeadLength(s);
    p := s[..n] + q;
    PrefixOfRest(s, n, q);
    CutKeepsHead(s, p, allowed);
    Associate(e, put, Passed(q, allowed));
    SameIds(((e + put) + Passed(q, allowed)) + c, (e + Passed(p, allowed)) + c);
  }

  lemma PrefixOfRest(s: string, n: nat, q: string)
    requires n <= |s| && q <= s[n..]
    ensures s[..n] + q <= s && (s[..n] + q)[n..] == q
  {
  }

  lemma DroppedAlone(s: string, allowed: set<string>)
    requires s != "" && HeadOf(s).Whole? && !Kept(HeadToken(s), allowed)
    ensures Passed(s[..HeadLength(s)], allowed) == ""
  {
    WholeAlone(s);
    assert Keep([HeadToken(s)], allowed) == [];
  }

  lemma CutKeepsToken(s: string, p: string)
    requires s != "" && HeadOf(s) != Open && p <= s && HeadLength(s) < |p| && p[|p| - 1] == ']'
    ensures p != "" && HeadOf(p) == HeadOf(s) && HeadToken(p) == HeadToken(s) && p[..HeadLength(s)] == s[..HeadLength(s)]
  {
    assert s == p + s[|p|..];
    SameHead(p, s[|p|..]);
  }

  /** A cut that ends in a closing bracket leaves the first token as it was. */
  lemma CutKeepsHead(s: string, p: string, allowed: set<string>)
    requires s != "" && HeadOf(s) != Open && p <= s && HeadLength(s) < |p| && p[|p| - 1] == ']'
    ensures HeadOf(p) == HeadOf(s) && HeadToken(p) == HeadToken(s)
    ensures Passed(p, allowed) == (if Kept(HeadToken(s), allowed) then s[..HeadLength(s)] else "") + Passed(p[HeadLength(s)..], allowed)
    ensures Lex(p).held == Lex(p[HeadLength(s)..]).held
  {
    CutKeepsToken(s, p);
    PassedStep(p, allowed);
    LexStep(p);
  }

  /** The stronger condition is exact for all texts that begin like this one: there is no splice just when no reading of
      it, cut between tokens and continued without brackets, shows anything but the allow-listed markers in order. */
  lemma FaithfulUnderCutsExactly(s: string, allowed: set<string>)
    ensures NoSplice("", s, allowed)
            <==> forall p, c :: p <= s && Lex(p).held == "" && '[' !in c ==> Faithful(p + c, allowed)
  {
    if NoSplice("", s, allowed) {
      forall p, c | p <= s && Lex(p).held == "" && '[' !in c
        ensures Faithful(p + c, allowed)
      {
        NoSpliceCut("", s, p, c, allowed);
        NoSpliceIsFaithful(p + c, allowed);
      }
    } else {
      var p, c, id := SpliceForges("", s, allowed);
      ForgedShows(p, c, id, allowed);
    }
  }

  lemma ForgedShows(p: string, c: string, id: string, allowed: set<string>)
    requires Lex(p).held == "" && '[' !in c && id !in allowed && id in Ids(Lex(("" + Passed(p, allowed)) + c).tokens)
    ensures !Faithful(p + c, allowed)
  {
    PassedExtends(p, c, allowed);
    LexExtends(p, c);
    assert "" + c == c && "" + Passed(p, allowed) == Passed(p, allowed);
    LettersScan(c, allowed);
    LettersThen(c, "");
    assert c + "" == c && Lex("").held == "";
    assert Scan(p + c, allowed) == Passed(p, allowed) + c;
    AllowedOnly(Ids(Lex(p + c).tokens), allowed);
  }
}
