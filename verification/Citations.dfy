/** Citation markers in a streamed answer (backend/app/chat/citations.py).

    A marker is "[S", one digit or more, "]". The sanitizer sees the text in arbitrary fragments, lets allow-listed
    markers through, drops the others, and holds back what may be the beginning of a marker. */
module Citations {
  import opened Basics

  predicate IsDigit(c: char) {
    '0' <= c <= '9'
  }

  /** The first position from i on that is not a digit. */
  function DigitsEnd(s: string, i: nat): (j: nat)
    requires i <= |s|
    ensures i <= j <= |s|
    ensures forall k :: i <= k < j ==> IsDigit(s[k])
    ensures j < |s| ==> !IsDigit(s[j])
    decreases |s| - i
  {
    if i < |s| && IsDigit(s[i]) then DigitsEnd(s, i + 1) else i
  }

  /** What a text begins with: no marker, a whole marker of some length, or a marker that may still be completed. */
  datatype Head = Plain | Whole(length: nat) | Open

  function HeadOf(s: string): (h: Head)
    requires s != ""
    ensures h.Whole? ==> 3 < h.length <= |s|
    ensures !h.Plain? ==> s[0] == '['
  {
    if s[0] != '[' then Plain
    else if |s| == 1 then Open
    else if s[1] != 'S' then Plain
    else
      var j := DigitsEnd(s, 2);
      if j == |s| then Open
      else if j > 2 && s[j] == ']' then Whole(j + 1)
      else Plain
  }

  /** A character outside markers, or a marker by its source id ("S12"). */
  datatype Token = Letter(c: char) | Marker(id: string)

  /** The tokens of a text, and what is held back because it may be the beginning of a marker. */
  datatype Lexed = Lexed(tokens: seq<Token>, held: string)

  function Lex(s: string): Lexed
    decreases |s|
  {
    if s == "" then Lexed([], "")
    else
      match HeadOf(s)
      case Plain => var rest := Lex(s[1..]); Lexed([Letter(s[0])] + rest.tokens, rest.held)
      case Whole(n) => var rest := Lex(s[n..]); Lexed([Marker(s[1..n - 1])] + rest.tokens, rest.held)
      case Open => Lexed([], s)
  }

  function ShowToken(t: Token): string {
    match t
    case Letter(c) => [c]
    case Marker(id) => "[" + id + "]"
  }

  function Show(ts: seq<Token>): string {
    if ts == [] then "" else ShowToken(ts[0]) + Show(ts[1..])
  }

  predicate Kept(t: Token, allowed: set<string>) {
    t.Letter? || t.id in allowed
  }

  function Keep(ts: seq<Token>, allowed: set<string>): seq<Token> {
    if ts == [] then [] else (if Kept(ts[0], allowed) then [ts[0]] else []) + Keep(ts[1..], allowed)
  }

  /** The source ids a token sequence cites, in order. */
  function Ids(ts: seq<Token>): seq<string> {
    if ts == [] then [] else (if ts[0].Marker? then [ts[0].id] else []) + Ids(ts[1..])
  }

  function Allowed(ids: seq<string>, allowed: set<string>): seq<string> {
    if ids == [] then [] else (if ids[0] in allowed then [ids[0]] else []) + Allowed(ids[1..], allowed)
  }

  /** What is left of held text when the stream ends: a lone bracket is text, an incomplete marker is dropped. */
  function Rest(held: string): string {
    if held == "[" then held else ""
  }

  /** What the sanitizer has let through once it has seen a text, and once the text is known to be complete. */
  function Passed(s: string, allowed: set<string>): string {
    Show(Keep(Lex(s).tokens, allowed))
  }

  function Scan(s: string, allowed: set<string>): string {
    Passed(s, allowed) + Rest(Lex(s).held)
  }

  lemma DigitsEndExtends(s: string, f: string, i: nat)
    requires i <= |s| && DigitsEnd(s, i) < |s|
    ensures DigitsEnd(s + f, i) == DigitsEnd(s, i)
  {
    var j := DigitsEnd(s, i);
    assert !IsDigit((s + f)[j]);
    assert forall k :: i <= k < j ==> (s + f)[k] == s[k];
    DigitsEndIs(s + f, i, j);
  }

  lemma {:induction false} DigitsEndIs(s: string, i: nat, j: nat)
    requires i <= j <= |s| && (forall k :: i <= k < j ==> IsDigit(s[k])) && (j < |s| ==> !IsDigit(s[j]))
    ensures DigitsEnd(s, i) == j
    decreases j - i
  {
    if i < j {
      DigitsEndIs(s, i + 1, j);
    }
  }

  /** A decided beginning stays decided, whatever follows. */
  lemma HeadExtends(s: string, f: string)
    requires s != "" && HeadOf(s) != Open
    ensures HeadOf(s + f) == HeadOf(s)
  {
    if s[0] == '[' && |s| > 1 && s[1] == 'S' {
      DigitsEndExtends(s, f, 2);
    }
  }

  /** The first token of a text, and how much of it that takes. */
  function HeadToken(s: string): Token
    requires s != "" && HeadOf(s) != Open
  {
    if HeadOf(s).Whole? then Marker(s[1..HeadOf(s).length - 1]) else Letter(s[0])
  }

  function HeadLength(s: string): (n: nat)
    requires s != "" && HeadOf(s) != Open
    ensures 0 < n <= |s|
  {
    if HeadOf(s).Whole? then HeadOf(s).length else 1
  }

  lemma LexStep(s: string)
    requires s != "" && HeadOf(s) != Open
    ensures Lex(s) == Lexed([HeadToken(s)] + Lex(s[HeadLength(s)..]).tokens, Lex(s[HeadLength(s)..]).held)
    ensures ShowToken(HeadToken(s)) == s[..HeadLength(s)]
  {
  }

  /** Reading on from what is held gives the tokens of the whole text. */
  lemma {:induction false} LexExtends(s: string, f: string)
    ensures Lex(s + f).tokens == Lex(s).tokens + Lex(Lex(s).held + f).tokens
    ensures Lex(s + f).held == Lex(Lex(s).held + f).held
    decreases |s|
  {
    if s == "" {
      assert s + f == f;
    } else if HeadOf(s) != Open {
      var n, t := HeadLength(s), HeadToken(s);
      HeadExtends(s, f);
      assert (s + f)[n..] == s[n..] + f;
      assert HeadToken(s + f) == t by {
        assert n > 1 ==> (s + f)[1..n - 1] == s[1..n - 1];
      }
      LexStep(s);
      LexStep(s + f);
      LexExtends(s[n..], f);
      Associate([t], Lex(s[n..]).tokens, Lex(Lex(s).held + f).tokens);
    }
  }

  /** Held text is empty or the beginning of a marker. */
  lemma {:induction false} HeldIsOpen(s: string)
    ensures Lex(s).held == "" || HeadOf(Lex(s).held) == Open
    ensures Lex(Lex(s).held) == Lexed([], Lex(s).held)
    decreases |s|
  {
    if s != "" {
      match HeadOf(s)
      case Plain => HeldIsOpen(s[1..]);
      case Whole(n) => HeldIsOpen(s[n..]);
      case Open =>
    }
  }

  lemma {:induction false} ShowConcat(a: seq<Token>, b: seq<Token>)
    ensures Show(a + b) == Show(a) + Show(b)
  {
    if a == [] {
      assert a + b == b;
    } else {
      calc {
        Show(a + b);
        { assert (a + b)[0] == a[0] && (a + b)[1..] == a[1..] + b; }
        ShowToken(a[0]) + Show(a[1..] + b);
        { ShowConcat(a[1..], b); }
        ShowToken(a[0]) + (Show(a[1..]) + Show(b));
        (ShowToken(a[0]) + Show(a[1..])) + Show(b);
        Show(a) + Show(b);
      }
    }
  }

  lemma {:induction false} KeepConcat(a: seq<Token>, b: seq<Token>, allowed: set<string>)
    ensures Keep(a + b, allowed) == Keep(a, allowed) + Keep(b, allowed)
  {
    if a == [] {
      assert a + b == b;
    } else {
      var first := if Kept(a[0], allowed) then [a[0]] else [];
      calc {
        Keep(a + b, allowed);
        { assert (a + b)[0] == a[0] && (a + b)[1..] == a[1..] + b; }
        first + Keep(a[1..] + b, allowed);
        { KeepConcat(a[1..], b, allowed); }
        first + (Keep(a[1..], allowed) + Keep(b, allowed));
        (first + Keep(a[1..], allowed)) + Keep(b, allowed);
        Keep(a, allowed) + Keep(b, allowed);
      }
    }
  }

  lemma {:induction false} IdsConcat(a: seq<Token>, b: seq<Token>)
    ensures Ids(a + b) == Ids(a) + Ids(b)
  {
    if a == [] {
      assert a + b == b;
    } else {
      var first := if a[0].Marker? then [a[0].id] else [];
      calc {
        Ids(a + b);
        { assert (a + b)[0] == a[0] && (a + b)[1..] == a[1..] + b; }
        first + Ids(a[1..] + b);
        { IdsConcat(a[1..], b); }
        first + (Ids(a[1..]) + Ids(b));
        (first + Ids(a[1..])) + Ids(b);
        Ids(a) + Ids(b);
      }
    }
  }

  lemma ShowCons(t: Token, ts: seq<Token>)
    ensures Show([t] + ts) == ShowToken(t) + Show(ts)
  {
    assert ([t] + ts)[1..] == ts;
  }

  lemma SplitText(s: string, n: nat, a: string, b: string)
    requires n <= |s| && a + b == s[n..]
    ensures (s[..n] + a) + b == s
  {
    assert (s[..n] + a) + b == s[..n] + (a + b);
  }

  /** Nothing is lost or reordered before the filter. */
  lemma {:induction false} LexIsLossless(s: string)
    ensures Show(Lex(s).tokens) + Lex(s).held == s
    decreases |s|
  {
    if s != "" && HeadOf(s) != Open {
      var n := HeadLength(s);
      LexStep(s);
      LexIsLossless(s[n..]);
      ShowCons(HeadToken(s), Lex(s[n..]).tokens);
      SplitText(s, n, Show(Lex(s[n..]).tokens), Lex(s).held);
    }
  }

  /** What a fragment lets through does not depend on how the text before it was cut. */
  lemma PassedExtends(s: string, f: string, allowed: set<string>)
    ensures Passed(s + f, allowed) == Passed(s, allowed) + Passed(Lex(s).held + f, allowed)
  {
    LexExtends(s, f);
    var a, b := Lex(s).tokens, Lex(Lex(s).held + f).tokens;
    KeepConcat(a, b, allowed);
    ShowConcat(Keep(a, allowed), Keep(b, allowed));
  }

  /** Some token is dropped. */
  predicate Drops(ts: seq<Token>, allowed: set<string>) {
    exists i :: 0 <= i < |ts| && !Kept(ts[i], allowed)
  }

  lemma {:induction false} KeepAll(ts: seq<Token>, allowed: set<string>)
    ensures !Drops(ts, allowed) ==> Keep(ts, allowed) == ts
    ensures Drops(ts, allowed) ==> |Show(Keep(ts, allowed))| < |Show(ts)|
    ensures |Show(Keep(ts, allowed))| <= |Show(ts)|
  {
    if ts != [] {
      KeepAll(ts[1..], allowed);
      assert ts == [ts[0]] + ts[1..];
      assert Drops(ts[1..], allowed) ==> Drops(ts, allowed) by {
        if i :| 0 <= i < |ts[1..]| && !Kept(ts[1..][i], allowed) {
          assert !Kept(ts[i + 1], allowed);
        }
      }
      assert Drops(ts, allowed) ==> !Kept(ts[0], allowed) || Drops(ts[1..], allowed) by {
        if i :| 0 <= i < |ts| && !Kept(ts[i], allowed) {
          assert i > 0 ==> !Kept(ts[1..][i - 1], allowed);
        }
      }
      ShowConcat(if Kept(ts[0], allowed) then [ts[0]] else [], Keep(ts[1..], allowed));
    }
  }

  /** The text changes exactly when a marker is dropped or an incomplete one is cut off. */
  lemma ScanChangesExactly(s: string, allowed: set<string>)
    ensures Scan(s, allowed) != s <==> Drops(Lex(s).tokens, allowed) || Rest(Lex(s).held) != Lex(s).held
  {
    var lexed := Lex(s);
    KeepAll(lexed.tokens, allowed);
    LexIsLossless(s);
    if !Drops(lexed.tokens, allowed) && Rest(lexed.held) != lexed.held {
      assert |Scan(s, allowed)| < |s|;
    }
  }

  /** What a drain returns and whether it changed anything; the last drain also decides what is held. */
  function Output(s: string, allowed: set<string>, final: bool): string {
    if final then Scan(s, allowed) else Passed(s, allowed)
  }

  predicate Mends(s: string, allowed: set<string>, final: bool) {
    Drops(Lex(s).tokens, allowed) || (final && Rest(Lex(s).held) != Lex(s).held)
  }

  lemma DropsStep(t: Token, ts: seq<Token>, allowed: set<string>)
    ensures Drops([t] + ts, allowed) <==> !Kept(t, allowed) || Drops(ts, allowed)
  {
    if !Kept(t, allowed) {
      assert !Kept(([t] + ts)[0], allowed);
    }
    if i :| 0 <= i < |ts| && !Kept(ts[i], allowed) {
      assert !Kept(([t] + ts)[i + 1], allowed);
    }
  }

  lemma PassedStep(s: string, allowed: set<string>)
    requires s != "" && HeadOf(s) != Open
    ensures Passed(s, allowed) == (if Kept(HeadToken(s), allowed) then s[..HeadLength(s)] else "") + Passed(s[HeadLength(s)..], allowed)
  {
    var t, ts := HeadToken(s), Lex(s[HeadLength(s)..]).tokens;
    LexStep(s);
    KeepConcat([t], ts, allowed);
    assert Keep([t], allowed) == if Kept(t, allowed) then [t] else [];
    if Kept(t, allowed) {
      ShowCons(t, Keep(ts, allowed));
    } else {
      assert [] + Keep(ts, allowed) == Keep(ts, allowed);
    }
  }

  /** One decided token at a time. */
  lemma DrainStep(s: string, allowed: set<string>, final: bool)
    requires s != "" && HeadOf(s) != Open
    ensures Output(s, allowed, final)
            == (if Kept(HeadToken(s), allowed) then s[..HeadLength(s)] else "") + Output(s[HeadLength(s)..], allowed, final)
    ensures Mends(s, allowed, final) <==> !Kept(HeadToken(s), allowed) || Mends(s[HeadLength(s)..], allowed, final)
    ensures Lex(s).held == Lex(s[HeadLength(s)..]).held
  {
    var n := HeadLength(s);
    LexStep(s);
    DropsStep(HeadToken(s), Lex(s[n..]).tokens, allowed);
    PassedStep(s, allowed);
    Associate(if Kept(HeadToken(s), allowed) then s[..n] else "", Passed(s[n..], allowed), Rest(Lex(s).held));
  }

  lemma FrontSlices(s: string, n: nat)
    requires 0 < n <= |s| && '[' !in s[..n]
    ensures s[0] != '[' && '[' !in s[1..][..n - 1]
    ensures s[..1] + s[1..][..n - 1] == s[..n] && s[1..][n - 1..] == s[n..]
  {
    assert s[0] == s[..n][0];
    assert s[1..][..n - 1] == s[..n][1..];
  }

  /** Text without a bracket passes as it is. */
  lemma {:induction false} PlainRun(s: string, n: nat, allowed: set<string>, final: bool)
    requires n <= |s| && '[' !in s[..n]
    ensures Output(s, allowed, final) == s[..n] + Output(s[n..], allowed, final)
    ensures Mends(s, allowed, final) <==> Mends(s[n..], allowed, final)
    ensures Lex(s).held == Lex(s[n..]).held
    decreases n
  {
    if n == 0 {
      assert s[0..] == s;
    } else {
      FrontSlices(s, n);
      DrainStep(s, allowed, final);
      var rest := s[1..];
      PlainRun(rest, n - 1, allowed, final);
      RunOn(s, rest, n, Output(s, allowed, final), Output(rest, allowed, final), Output(s[n..], allowed, final));
    }
  }

  lemma RunOn(s: string, rest: string, n: nat, all: string, some: string, last: string)
    requires 0 < n <= |s| && rest == s[1..] && all == s[..1] + some && some == rest[..n - 1] + last
    ensures all == s[..n] + last
  {
    assert s[..1] + rest[..n - 1] == s[..n];
    Associate(s[..1], rest[..n - 1], last);
  }

  /** The first bracket from a position on, or the end. */
  function FindBracket(s: string, from: nat): (i: nat)
    requires from <= |s|
    ensures from <= i <= |s|
    ensures '[' !in s[from..i]
    ensures i < |s| ==> s[i] == '['
    decreases |s| - from
  {
    if from == |s| || s[from] == '[' then from
    else
      var i := FindBracket(s, from + 1);
      assert s[from..i] == [s[from]] + s[from + 1..i];
      i
  }

  /** So much of a text has been put out, and so much is left. */
  predicate Drained(value: string, output: string, rest: string, allowed: set<string>, final: bool) {
    Output(value, allowed, final) == output + Output(rest, allowed, final) && (!final ==> Lex(value).held == Lex(rest).held)
  }

  lemma DrainedMore(value: string, output: string, s: string, piece: string, rest: string, allowed: set<string>, final: bool)
    requires Drained(value, output, s, allowed, final) && Drained(s, piece, rest, allowed, final)
    ensures Drained(value, output + piece, rest, allowed, final)
  {
    Associate(output, piece, Output(rest, allowed, final));
  }

  /** What is left stays: it is nothing, or the beginning of a marker in a text that goes on. */
  predicate Settled(rest: string, final: bool) {
    rest == "" || (!final && HeadOf(rest).Open?)
  }

  lemma SettledIsDone(rest: string, allowed: set<string>, final: bool)
    requires Settled(rest, final)
    ensures Output(rest, allowed, final) == "" && Lex(rest).held == rest && !Mends(rest, allowed, final)
    ensures final ==> rest == ""
  {
    assert Keep([], allowed) == [];
  }

  lemma DrainedSame(value: string, output: string, rest: string, same: string, allowed: set<string>, final: bool)
    requires Drained(value, output, rest, allowed, final) && rest == same
    ensures Drained(value, output, same, allowed, final)
    ensures Mends(rest, allowed, final) <==> Mends(same, allowed, final)
  {
  }

  lemma SliceOfSlice(s: string, i: nat, j: nat)
    requires i + j <= |s|
    ensures s[i..][j..] == s[i + j..]
  {
  }

  /** The source ids of well-formed markers, each once, in the order they first appear. */
  function Numbered(ids: seq<string>): seq<string> {
    if ids == [] then [] else (if |ids[0]| > 1 && ids[0][1] != '0' then [ids[0]] else []) + Numbered(ids[1..])
  }

  function FirstOccurrences(ids: seq<string>): seq<string> {
    if ids == [] then []
    else
      var before := FirstOccurrences(ids[..|ids| - 1]);
      if ids[|ids| - 1] in before then before else before + [ids[|ids| - 1]]
  }

  function Cited(text: string): seq<string> {
    FirstOccurrences(Numbered(Ids(Lex(text).tokens)))
  }

  /** `_ordered_source_ids`. */
  method OrderedSourceIds(text: string) returns (found: seq<string>)
    ensures found == Cited(text)
  {
    var ids := Numbered(Ids(Lex(text).tokens));
    found := [];
    var seen: set<string> := {};
    for i := 0 to |ids|
      invariant found == FirstOccurrences(ids[..i])
      invariant forall x :: x in seen <==> x in found
    {
      assert ids[..i + 1][..i] == ids[..i];
      if ids[i] !in seen {
        found := found + [ids[i]];
        seen := seen + {ids[i]};
      }
    }
    assert ids[..|ids|] == ids;
  }

  datatype SanitizedAnswer = SanitizedAnswer(text: string, citedSourceIds: seq<string>, repaired: bool)

  class CitationStreamSanitizer {
    const allowed: set<string>
    /** The repair of the complete answer: duplicate markers, spacing, trimming. */
    const repair: (string, set<string>) -> string
    var pending: string
    var raw: string
    var emitted: string
    var repaired: bool

    constructor (allowed: set<string>, repair: (string, set<string>) -> string)
      ensures this.allowed == allowed && this.repair == repair && raw == "" && emitted == "" && Valid()
    {
      this.allowed, this.repair := allowed, repair;
      pending, raw, emitted, repaired := "", "", "", false;
    }

    /** Whatever the fragments were, the state is a function of the text so far. */
    predicate Valid()
      reads this
    {
      && emitted == Passed(raw, allowed)
      && pending == Lex(raw).held
      && repaired == Drops(Lex(raw).tokens, allowed)
    }

    method Feed(fragment: string) returns (out: string)
      requires Valid()
      modifies this
      ensures Valid()
      ensures raw == old(raw) + fragment && emitted == old(emitted) + out
      ensures out == if fragment == "" then "" else Passed(Lex(old(raw)).held + fragment, allowed)
    {
      if fragment == "" {
        return "";
      }
      PassedExtends(raw, fragment, allowed);
      LexExtends(raw, fragment);
      DropsExtends(Lex(raw).tokens, Lex(pending + fragment).tokens, allowed);
      raw := raw + fragment;
      pending := pending + fragment;
      out := Drain(false);
      emitted := emitted + out;
    }

    method Finish() returns (answer: SanitizedAnswer)
      requires Valid()
      modifies this
      ensures raw == old(raw) && emitted == Scan(raw, allowed)
      ensures answer.text == repair(raw, allowed) && answer.citedSourceIds == Cited(answer.text)
      ensures answer.repaired <==> Scan(raw, allowed) != raw || answer.text != Scan(raw, allowed)
    {
      HeldIsOpen(raw);
      ScanChangesExactly(raw, allowed);
      assert Keep([], allowed) == [];
      var out := Drain(true);
      emitted := emitted + out;
      assert emitted == Scan(raw, allowed);
      var authoritative := repair(raw, allowed);
      var cited := OrderedSourceIds(authoritative);
      answer := SanitizedAnswer(authoritative, cited, repaired || authoritative != emitted);
    }

    method Drain(final: bool) returns (output: string)
      modifies this`pending, this`repaired
      ensures output == Output(old(pending), allowed, final)
      ensures pending == if final then "" else Lex(old(pending)).held
      ensures repaired <==> old(repaired) || Mends(old(pending), allowed, final)
    {
      var cursor, value, going := 0, pending, true;
      output := "";
      while cursor < |value| && going
        invariant cursor <= |value|
        invariant Drained(value, output, value[cursor..], allowed, final)
        invariant old(repaired) || Mends(value, allowed, final) <==> repaired || Mends(value[cursor..], allowed, final)
        invariant going || Settled(value[cursor..], final)
        decreases |value| - cursor, going
      {
        var piece, next;
        piece, next, going := DrainNext(value, cursor, final);
        DrainedMore(value, output, value[cursor..], piece, value[next..], allowed, final);
        output := output + piece;
        cursor := next;
      }
      SettledIsDone(value[cursor..], allowed, final);
      pending := value[cursor..];
    }

    /** One round: the text up to the next bracket, and what the bracket begins. */
    method DrainNext(value: string, cursor: nat, final: bool) returns (piece: string, next: nat, going: bool)
      requires cursor < |value|
      modifies this`repaired
      ensures cursor <= next <= |value| && (going ==> cursor < next)
      ensures Drained(value[cursor..], piece, value[next..], allowed, final)
      ensures old(repaired) || Mends(value[cursor..], allowed, final) <==> repaired || Mends(value[next..], allowed, final)
      ensures going || Settled(value[next..], final)
    {
      var opening := FindBracket(value, cursor);
      var text, suffix := value[cursor..opening], value[opening..];
      TextRun(value, cursor, opening, allowed, final);
      if opening == |value| {
        assert suffix == "";
        return text, opening, false;
      }
      var marker, taken := DrainBracket(suffix, final);
      piece, next, going := text + marker, opening + taken, taken > 0;
      DrainedMore(value[cursor..], text, suffix, marker, suffix[taken..], allowed, final);
      SliceOfSlice(value, opening, taken);
      DrainedSame(value[cursor..], piece, suffix[taken..], value[next..], allowed, final);
    }

    /** What to do at a bracket: nothing is taken when it may be the beginning of a marker. */
    method DrainBracket(suffix: string, final: bool) returns (piece: string, taken: nat)
      requires suffix != "" && suffix[0] == '['
      modifies this`repaired
      ensures taken <= |suffix|
      ensures taken == 0 ==> Settled(suffix, final)
      ensures Drained(suffix, piece, suffix[taken..], allowed, final)
      ensures old(repaired) || Mends(suffix, allowed, final) <==> repaired || Mends(suffix[taken..], allowed, final)
    {
      var head := HeadOf(suffix);
      if head.Whole? {
        DrainStep(suffix, allowed, final);
        taken := head.length;
        if suffix[1..head.length - 1] in allowed {
          piece := suffix[..head.length];
        } else {
          piece := "";
          repaired := true;
        }
      } else if !final && head.Open? {
        piece, taken := "", 0;
        assert Keep([], allowed) == [];
      } else if final && head.Open? && suffix != "[" {
        piece, taken := "", |suffix|;
        repaired := true;
        assert Keep([], allowed) == [];
      } else {
        BracketStep(suffix, allowed, final);
        piece, taken := "[", 1;
      }
    }
  }

  lemma DropsExtends(a: seq<Token>, b: seq<Token>, allowed: set<string>)
    ensures Drops(a + b, allowed) <==> Drops(a, allowed) || Drops(b, allowed)
  {
    if i :| 0 <= i < |a| && !Kept(a[i], allowed) {
      assert !Kept((a + b)[i], allowed);
    }
    if i :| 0 <= i < |b| && !Kept(b[i], allowed) {
      assert !Kept((a + b)[|a| + i], allowed);
    }
  }

  lemma TextRun(value: string, cursor: nat, opening: nat, allowed: set<string>, final: bool)
    requires cursor <= opening <= |value| && '[' !in value[cursor..opening]
    ensures Drained(value[cursor..], value[cursor..opening], value[opening..], allowed, final)
    ensures Mends(value[cursor..], allowed, final) <==> Mends(value[opening..], allowed, final)
  {
    var s, n := value[cursor..], opening - cursor;
    assert s[..n] == value[cursor..opening] && s[n..] == value[opening..];
    PlainRun(s, n, allowed, final);
  }

  /** A bracket that begins no marker is text, and so is a lone one at the end. */
  lemma BracketStep(s: string, allowed: set<string>, final: bool)
    requires s != "" && s[0] == '[' && (HeadOf(s).Plain? || (final && s == "["))
    ensures Output(s, allowed, final) == "[" + Output(s[1..], allowed, final)
    ensures Mends(s, allowed, final) <==> Mends(s[1..], allowed, final)
    ensures HeadOf(s).Plain? ==> Lex(s).held == Lex(s[1..]).held
  {
    if HeadOf(s).Plain? {
      DrainStep(s, allowed, final);
      assert s[..1] == "[";
    } else {
      assert Passed(s, allowed) == "" == Passed("", allowed);
    }
  }
}
