/**
  Splitting a perfdata string at its unquoted spaces (`tokenizePerfdata`).
 */
module Tokenizer {
  import opened Text

  /** Whether a reader of `s` ends inside a quoted section. */
  predicate InQuote(s: string) {
    s != "" && (InQuote(s[..|s| - 1]) != IsQuote(s[|s| - 1]))
  }

  /** A space at position `i` that separates tokens. */
  ghost predicate SeparatesAt(s: string, i: nat)
    requires i < |s|
  {
    s[i] == ' ' && !InQuote(s[..i])
  }

  ghost predicate Unbroken(s: string) {
    forall i: nat :: i < |s| ==> !SeparatesAt(s, i)
  }

  /** The reader's state after a prefix: finished tokens and the token being built. */
  datatype Reading = Reading(tokens: seq<string>, current: string)

  function Flush(r: Reading): seq<string> {
    if r.current == "" then r.tokens else r.tokens + [r.current]
  }

  function Step(r: Reading, ch: char, inQuote: bool): Reading {
    if ch == ' ' && !inQuote then Reading(Flush(r), "")
    else Reading(r.tokens, r.current + [ch])
  }

  function Read(s: string): Reading {
    if s == "" then Reading([], "")
    else
      var before := s[..|s| - 1];
      Step(Read(before), s[|s| - 1], InQuote(before))
  }

  function Tokens(s: string): seq<string> {
    Flush(Read(s))
  }

  method Tokenize(perfdata: string) returns (tokens: seq<string>)
    ensures tokens == Tokens(perfdata)
  {
    tokens := [];
    var current := "";
    var inQuote := false;
    for i := 0 to |perfdata|
      invariant Read(perfdata[..i]) == Reading(tokens, current)
      invariant inQuote == InQuote(perfdata[..i])
    {
      var ch := perfdata[i];
      assert perfdata[..i + 1][..i] == perfdata[..i];
      if ch == '\'' {
        inQuote := !inQuote;
        current := current + [ch];
      } else if ch == ' ' && !inQuote {
        if |current| > 0 {
          tokens := tokens + [current];
          current := "";
        }
      } else {
        current := current + [ch];
      }
    }
    assert perfdata[..|perfdata|] == perfdata;
    if |current| > 0 {
      tokens := tokens + [current];
    }
  }

  // ---- what the tokens are -------------------------------------------------

  lemma {:induction false} InQuoteConcat(a: string, b: string)
    ensures InQuote(a + b) == (InQuote(a) != InQuote(b))
  {
    if b == "" {
      assert a + b == a;
    } else {
      InQuoteConcat(a, b[..|b| - 1]);
      assert (a + b)[..|a + b| - 1] == a + b[..|b| - 1];
    }
  }

  lemma UnbrokenPrefix(s: string, n: nat)
    requires n <= |s| && Unbroken(s)
    ensures Unbroken(s[..n])
  {
    forall i: nat | i < n
      ensures !SeparatesAt(s[..n], i)
    {
      assert s[..n][..i] == s[..i];
      assert !SeparatesAt(s, i);
    }
  }

  lemma InQuoteAfterSpace(a: string, b: string)
    ensures InQuote(a + [' '] + b) == (InQuote(a) != InQuote(b))
  {
    InQuoteConcat(a + [' '], b);
    assert (a + [' '])[..|a|] == a;
  }

  /** A text without a separating space is one token ... */
  lemma {:induction false} ReadUnbroken(s: string)
    requires Unbroken(s)
    ensures Read(s) == Reading([], s)
  {
    if s != "" {
      hide Unbroken, InQuote;
      var n := |s| - 1;
      UnbrokenPrefix(s, n);
      ReadUnbroken(s[..n]);
      UnbrokenAt(s, n);
      Unsnoc(s);
    }
  }

  lemma UnbrokenAt(s: string, i: nat)
    requires Unbroken(s) && i < |s|
    ensures s[i] == ' ' ==> InQuote(s[..i])
  {
    assert !SeparatesAt(s, i);
  }

  /** Tokens finished earlier do not affect later steps. */
  lemma StepAfter(earlier: seq<string>, r: Reading, ch: char, inQuote: bool)
    ensures var next := Step(r, ch, inQuote);
      Step(Reading(earlier + r.tokens, r.current), ch, inQuote) == Reading(earlier + next.tokens, next.current)
  {
    assert earlier + r.tokens + [r.current] == earlier + (r.tokens + [r.current]);
  }

  /** ... and reading on after a separating space starts afresh: tokenizing is a homomorphism. */
  lemma {:induction false} ReadAfterSpace(a: string, b: string)
    requires !InQuote(a)
    ensures Read(a + [' '] + b) == Reading(Tokens(a) + Read(b).tokens, Read(b).current)
  {
    var s := a + [' '] + b;
    if b == "" {
      assert s == a + [' '];
      assert s[..|s| - 1] == a;
    } else {
      hide Step, Tokens, InQuote;
      var b' := b[..|b| - 1];
      ReadAfterSpace(a, b');
      LastOfConcat(a + [' '], b);
      InQuoteAfterSpace(a, b');
      assert !InQuote(a);
      StepAfter(Tokens(a), Read(b'), b[|b| - 1], InQuote(b'));
    }
  }

  lemma TokensHomomorphism(a: string, b: string)
    requires !InQuote(a)
    ensures Tokens(a + [' '] + b) == Tokens(a) + Tokens(b)
  {
    ReadAfterSpace(a, b);
  }

  function NonEmpty(pieces: seq<string>): seq<string> {
    if |pieces| == 0 then []
    else (if pieces[0] == "" then [] else [pieces[0]]) + NonEmpty(pieces[1..])
  }

  /** The pieces between the separating spaces of a text; the last may end inside a quote. */
  ghost predicate ArePieces(pieces: seq<string>) {
    && |pieces| > 0
    && (forall i :: 0 <= i < |pieces| ==> Unbroken(pieces[i]))
    && (forall i :: 0 <= i < |pieces| - 1 ==> !InQuote(pieces[i]))
  }

  lemma TokensUnbroken(s: string)
    requires Unbroken(s)
    ensures Tokens(s) == if s == "" then [] else [s]
  {
    ReadUnbroken(s);
  }

  /** Wherever a text is cut at all its separating spaces, the tokens are the non-empty pieces. */
  lemma {:induction false} TokensArePieces(pieces: seq<string>)
    requires ArePieces(pieces)
    ensures Tokens(Join(pieces, ' ')) == NonEmpty(pieces)
  {
    hide Tokens, Unbroken, InQuote;
    TokensUnbroken(pieces[0]);
    if |pieces| > 1 {
      TokensHomomorphism(pieces[0], Join(pieces[1..], ' '));
      TokensArePieces(pieces[1..]);
    } else {
      assert NonEmpty(pieces[1..]) == [];
    }
  }

  /** Cutting a text, whatever its quotes, at all separating spaces: the earlier pieces and the last. */
  function Cut(s: string): (seq<string>, string) {
    if s == "" then ([], "")
    else
      var before, ch := s[..|s| - 1], s[|s| - 1];
      var (earlier, last) := Cut(before);
      if ch == ' ' && !InQuote(before) then (earlier + [last], "") else (earlier, last + [ch])
  }

  function Pieces(s: string): seq<string> {
    var (earlier, last) := Cut(s);
    earlier + [last]
  }

  lemma JoinExtendLast(parts: seq<string>, last: string, ch: char, sep: char)
    ensures Join(parts + [last + [ch]], sep) == Join(parts + [last], sep) + [ch]
  {
    if |parts| == 0 {
      assert parts + [last] == [last] && parts + [last + [ch]] == [last + [ch]];
    } else {
      JoinSnoc(parts, last, sep);
      JoinSnoc(parts, last + [ch], sep);
      assert Join(parts, sep) + [sep] + (last + [ch]) == Join(parts, sep) + [sep] + last + [ch];
    }
  }

  lemma {:induction false} UnbrokenSnoc(p: string, ch: char)
    requires Unbroken(p) && !(ch == ' ' && !InQuote(p))
    ensures Unbroken(p + [ch])
  {
    var s := p + [ch];
    forall i: nat | i < |s|
      ensures !SeparatesAt(s, i)
    {
      if i < |p| {
        assert s[..i] == p[..i];
        assert !SeparatesAt(p, i);
      } else {
        assert s[..i] == p;
      }
    }
  }

  lemma InQuoteStep(s: string)
    requires s != ""
    ensures InQuote(s) == (InQuote(s[..|s| - 1]) != IsQuote(s[|s| - 1]))
  {
  }

  /** The pieces cover the text, and the reader's quote state is that of the last piece. */
  lemma {:induction false} PiecesCover(s: string)
    ensures ArePieces(Pieces(s))
    ensures Join(Pieces(s), ' ') == s
    ensures InQuote(s) == InQuote(Cut(s).1)
  {
    if s != "" {
      hide Join, ArePieces, InQuote, IsQuote;
      InQuoteStep(s);
      var before, ch := s[..|s| - 1], s[|s| - 1];
      PiecesCover(before);
      var (earlier, last) := Cut(before);
      Unsnoc(s);
      if ch == ' ' && !InQuote(before) {
        NewPiece(earlier, last);
      } else {
        ExtendLastPiece(earlier, last, ch);
      }
    } else {
      assert Pieces(s) == [""];
    }
  }

  lemma NewPiece(earlier: seq<string>, last: string)
    requires ArePieces(earlier + [last]) && !InQuote(last)
    ensures ArePieces(earlier + [last] + [""])
    ensures Join(earlier + [last] + [""], ' ') == Join(earlier + [last], ' ') + [' ']
  {
    var ps := earlier + [last];
    JoinSnoc(ps, "", ' ');
    assert Join(ps, ' ') + [' '] + "" == Join(ps, ' ') + [' '];
    assert forall i :: 0 <= i < |ps| ==> (ps + [""])[i] == ps[i];
    assert last == ps[|earlier|];
  }

  lemma ExtendLastPiece(init: seq<string>, last: string, ch: char)
    requires ArePieces(init + [last]) && !(ch == ' ' && !InQuote(last))
    ensures ArePieces(init + [last + [ch]])
    ensures Join(init + [last + [ch]], ' ') == Join(init + [last], ' ') + [ch]
    ensures InQuote(last + [ch]) == (InQuote(last) != IsQuote(ch))
  {
    JoinExtendLast(init, last, ch, ' ');
    var ps, qs := init + [last], init + [last + [ch]];
    assert last == ps[|init|];
    UnbrokenSnoc(last, ch);
    assert (last + [ch])[..|last|] == last;
    assert forall i :: 0 <= i < |init| ==> qs[i] == ps[i];
  }

  lemma {:induction false} NonEmptyKeeps(pieces: seq<string>)
    ensures var ts := NonEmpty(pieces);
      && (forall t :: t in ts ==> t in pieces && t != "")
      && (ArePieces(pieces) && |ts| > 0 ==> ArePieces(ts))
    ensures Flatten(NonEmpty(pieces)) == Flatten(pieces)
  {
    if |pieces| > 0 {
      NonEmptyKeeps(pieces[1..]);
      var ts := NonEmpty(pieces[1..]);
      if pieces[0] != "" {
        assert ([pieces[0]] + ts)[1..] == ts;
      } else {
        assert [] + ts == ts;
      }
      if ArePieces(pieces) && |pieces| > 1 {
        assert ArePieces(pieces[1..]);
      }
    }
  }

  /** The text with its separating spaces deleted. */
  function Squeeze(s: string): string {
    if s == "" then ""
    else
      var before, ch := s[..|s| - 1], s[|s| - 1];
      Squeeze(before) + (if ch == ' ' && !InQuote(before) then "" else [ch])
  }

  lemma {:induction false} FlattenPieces(s: string)
    ensures Flatten(Pieces(s)) == Squeeze(s)
  {
    if s == "" {
      assert Flatten([""]) == "";
    } else {
      var before, ch := s[..|s| - 1], s[|s| - 1];
      FlattenPieces(before);
      var (earlier, last) := Cut(before);
      FlattenSnoc(earlier, last);
      FlattenSnoc(earlier, last + [ch]);
      FlattenSnoc(earlier + [last], "");
    }
  }

  lemma FlattenSnoc(xs: seq<string>, x: string)
    ensures Flatten(xs + [x]) == Flatten(xs) + x
  {
    FlattenAppend(xs, [x]);
    assert Flatten([x]) == x + Flatten([x][1..]);
  }

  /**
    The tokenizer's specification, for every text: the tokens are non-empty, hold no
    separating space, all but the last are quote-balanced, spell the text without its
    separating spaces, and are reproduced when joined by spaces and tokenized again.
   */
  lemma TokensSpecification(s: string)
    ensures Tokens(s) == NonEmpty(Pieces(s))
    ensures forall t :: t in Tokens(s) ==> t != "" && Unbroken(t)
    ensures forall i :: 0 <= i < |Tokens(s)| - 1 ==> !InQuote(Tokens(s)[i])
    ensures Flatten(Tokens(s)) == Squeeze(s)
    ensures Tokens(Join(Tokens(s), ' ')) == Tokens(s)
  {
    hide Tokens, NonEmpty, Pieces, Cut, Join, Flatten, Squeeze, Unbroken, InQuote;
    PiecesCover(s);
    var ps := Pieces(s);
    TokensArePieces(ps);
    NonEmptyKeeps(ps);
    FlattenPieces(s);
    var ts := Tokens(s);
    if |ts| > 0 {
      TokensArePieces(ts);
      NonEmptyIdempotent(ts);
    } else {
      NoTokens();
    }
  }

  lemma NoTokens()
    ensures Tokens(Join([], ' ')) == []
  {
  }

  lemma {:induction false} NonEmptyIdempotent(ts: seq<string>)
    requires forall t :: t in ts ==> t != ""
    ensures NonEmpty(ts) == ts
  {
    if |ts| > 0 {
      assert ts[0] in ts && forall t :: t in ts[1..] ==> t in ts;
      NonEmptyIdempotent(ts[1..]);
      assert ts == [ts[0]] + ts[1..];
    }
  }

  lemma {:induction false} SqueezeKeeps(s: string, c: char)
    requires c in s && c != ' '
    ensures c in Squeeze(s)
  {
    if s[|s| - 1] != c {
      assert s == s[..|s| - 1] + [s[|s| - 1]];
      SqueezeKeeps(s[..|s| - 1], c);
    }
  }

  /** Anything but spaces yields a token. */
  lemma SomeToken(s: string, c: char)
    requires c in s && c != ' '
    ensures |Tokens(s)| > 0
  {
    SqueezeKeeps(s, c);
    TokensSpecification(s);
  }
}
