/** The recogniser accepts exactly the grammar: every accepted text has a syntax tree of at most the
    depth bound, and every such tree's text is accepted. */
module JsonGrammar {
  import opened Payload
  import opened Json

  // ----- Texts at a position -----

  predicate At(s: string, p: nat, t: string) {
    p + |t| <= |s| && s[p..p + |t|] == t
  }

  lemma AtConcat(s: string, p: nat, a: string, b: string)
    ensures At(s, p, a + b) <==> At(s, p, a) && At(s, p + |a|, b)
  {
    if At(s, p, a + b) {
      assert a == (a + b)[..|a|] == s[p..p + |a|];
      assert b == (a + b)[|a|..] == s[p + |a|..p + |a| + |b|];
    }
    if At(s, p, a) && At(s, p + |a|, b) {
      assert s[p..p + |a| + |b|] == s[p..p + |a|] + s[p + |a|..p + |a| + |b|];
    }
  }

  lemma AtChar(s: string, p: nat, c: char)
    ensures At(s, p, [c]) <==> p < |s| && s[p] == c
  {
    if p < |s| {
      assert s[p..p + 1] == [s[p]];
    }
  }

  lemma AtEmpty(s: string, p: nat)
    requires p <= |s|
    ensures At(s, p, [])
  {
  }

  lemma AtSlice(s: string, p: nat, q: nat)
    requires p <= q <= |s|
    ensures At(s, p, s[p..q]) && |s[p..q]| == q - p
  {
  }

  lemma AtIndex(s: string, p: nat, t: string, i: nat)
    requires At(s, p, t) && i < |t|
    ensures s[p + i] == t[i]
  {
    assert s[p..p + |t|][i] == s[p + i];
  }

  // ----- White space and digits -----

  lemma {:induction false} SkipsWs(s: string, p: nat, w: string)
    requires At(s, p, w) && Ws(w) && (p + |w| < |s| ==> !IsWs(s[p + |w|]))
    ensures SkipWs(s, p) == p + |w|
    decreases |w|
  {
    if w != [] {
      AtIndex(s, p, w, 0);
      assert w == [w[0]] + w[1..];
      AtConcat(s, p, [w[0]], w[1..]);
      SkipsWs(s, p + 1, w[1..]);
    }
  }

  lemma {:induction false} ScansDigits(s: string, p: nat, d: string)
    requires At(s, p, d) && (forall i :: 0 <= i < |d| ==> IsDigit(d[i])) && (p + |d| < |s| ==> !IsDigit(s[p + |d|]))
    ensures ScanDigits(s, p) == p + |d|
    decreases |d|
  {
    if d != [] {
      AtIndex(s, p, d, 0);
      assert d == [d[0]] + d[1..];
      AtConcat(s, p, [d[0]], d[1..]);
      ScansDigits(s, p + 1, d[1..]);
    }
  }

  // ----- Strings -----

  lemma NextPiece(s: string, p: nat) returns (piece: Piece)
    requires p <= |s| && ScanChars(s, p).Some? && s[p] != '"'
    ensures GoodPiece(piece) && At(s, p, PieceText(piece)) && PieceText(piece) != []
    ensures ScanChars(s, p) == ScanChars(s, p + |PieceText(piece)|)
  {
    hide IsShortEscape;
    if s[p] != '\\' {
      piece := Plain(s[p]);
      AtChar(s, p, s[p]);
    } else if IsShortEscape(s[p + 1]) {
      piece := Short(s[p + 1]);
    } else {
      piece := Hex(s[p + 2..p + 6]);
    }
  }

  lemma {:induction false} CharsSound(s: string, p: nat) returns (ps: seq<Piece>)
    requires p <= |s| && ScanChars(s, p).Some?
    ensures GoodPieces(ps) && At(s, p, PiecesText(ps) + ['"']) && ScanChars(s, p).value == p + |PiecesText(ps)| + 1
    decreases |s| - p
  {
    hide At, PieceText;
    if s[p] == '"' {
      ps := [];
      AtChar(s, p, '"');
      assert PiecesText(ps) + ['"'] == ['"'];
    } else {
      var piece := NextPiece(s, p);
      var text := PieceText(piece);
      var rest := CharsSound(s, p + |text|);
      ps := [piece] + rest;
      assert ps[1..] == rest;
      assert PiecesText(ps) + ['"'] == text + (PiecesText(rest) + ['"']);
      AtConcat(s, p, text, PiecesText(rest) + ['"']);
    }
  }

  lemma {:induction false} CharsComplete(s: string, p: nat, ps: seq<Piece>)
    requires GoodPieces(ps) && At(s, p, PiecesText(ps) + ['"'])
    ensures ScanChars(s, p) == Some(p + |PiecesText(ps)| + 1)
    decreases |ps|
  {
    hide At, PieceText, GoodPiece;
    if ps == [] {
      assert PiecesText(ps) + ['"'] == ['"'];
      AtChar(s, p, '"');
    } else {
      var text := PieceText(ps[0]);
      assert PiecesText(ps) + ['"'] == text + (PiecesText(ps[1..]) + ['"']);
      AtConcat(s, p, text, PiecesText(ps[1..]) + ['"']);
      CharsComplete(s, p + |text|, ps[1..]);
      PieceScanned(s, p, ps[0]);
    }
  }

  lemma PieceScanned(s: string, p: nat, piece: Piece)
    requires GoodPiece(piece) && At(s, p, PieceText(piece)) && p + |PieceText(piece)| <= |s|
    ensures ScanChars(s, p) == ScanChars(s, p + |PieceText(piece)|)
  {
    var text := PieceText(piece);
    AtIndex(s, p, text, 0);
    if !piece.Plain? {
      AtIndex(s, p, text, 1);
      if piece.Hex? {
        forall i | 0 <= i < 4
          ensures s[p + (2 + i)] == piece.digits[i]
        {
          AtIndex(s, p, text, 2 + i);
        }
        assert s[p + (2 + 0)] == piece.digits[0] && s[p + (2 + 1)] == piece.digits[1];
        assert s[p + (2 + 2)] == piece.digits[2] && s[p + (2 + 3)] == piece.digits[3];
        assert HexAt(s, p + 2);
        assert !IsShortEscape('u');
      }
    }
  }

  lemma StringSound(s: string, p: nat) returns (w: string, ps: seq<Piece>)
    requires p <= |s| && ScanString(s, p).Some?
    ensures Ws(w) && GoodPieces(ps) && At(s, p, w + Quoted(ps)) && ScanString(s, p).value == p + |w + Quoted(ps)|
  {
    hide ScanChars, PiecesText, SkipWs, GoodPieces, Ws;
    var q := SkipWs(s, p);
    w := s[p..q];
    AtSlice(s, p, q);
    ps := CharsSound(s, q + 1);
    var body := PiecesText(ps) + ['"'];
    AtChar(s, q, '"');
    AtConcat(s, q, ['"'], body);
    assert Quoted(ps) == ['"'] + body;
    AtConcat(s, p, w, Quoted(ps));
  }

  lemma StringComplete(s: string, p: nat, w: string, ps: seq<Piece>)
    requires Ws(w) && GoodPieces(ps) && At(s, p, w + Quoted(ps))
    ensures ScanString(s, p) == Some(p + |w + Quoted(ps)|)
  {
    hide ScanChars, PiecesText, SkipWs, GoodPieces, Ws;
    var body := PiecesText(ps) + ['"'];
    assert Quoted(ps) == ['"'] + body;
    AtConcat(s, p, w, Quoted(ps));
    var q := p + |w|;
    AtConcat(s, q, ['"'], body);
    AtChar(s, q, '"');
    SkipsWs(s, p, w);
    CharsComplete(s, q + 1, ps);
  }

  // ----- Numbers -----

  /** What follows a number cannot be read as more of it. */
  predicate Boundary(s: string, q: nat) {
    q < |s| ==> !IsDigit(s[q]) && s[q] != '.' && s[q] != 'e' && s[q] != 'E'
  }

  lemma DigitsSound(s: string, p: nat)
    requires p <= |s|
    ensures var q := ScanDigits(s, p); At(s, p, s[p..q]) && (q > p ==> Digits(s[p..q]))
  {
  }

  lemma NumberSound(s: string, p: nat) returns (v: Value)
    requires p <= |s| && ScanNumber(s, p).Some?
    ensures v.Number? && Good(v) && At(s, p, Text(v)) && ScanNumber(s, p).value == p + |Text(v)|
  {
    hide At, ScanWhole, ScanFraction, ScanExponent, FractionText, ExponentText, GoodWhole, GoodExponent, Digits;
    var negative := p < |s| && s[p] == '-';
    var p1 := if negative then p + 1 else p;
    var p2 := ScanWhole(s, p1).value;
    var p3 := ScanFraction(s, p2).value;
    var p4 := ScanExponent(s, p3).value;
    var whole := WholeSound(s, p1);
    var fraction := FractionSound(s, p2);
    var exponent := ExponentSound(s, p3);
    v := Number(negative, whole, fraction, exponent);
    var sign := if negative then ['-'] else [];
    AtChar(s, p, '-');
    AtEmpty(s, p);
    AtConcat(s, p, sign, whole);
    AtConcat(s, p, sign + whole, FractionText(fraction));
    AtConcat(s, p, sign + whole + FractionText(fraction), ExponentText(exponent));
  }

  lemma WholeSound(s: string, p: nat) returns (w: string)
    requires p <= |s| && ScanWhole(s, p).Some?
    ensures GoodWhole(w) && At(s, p, w) && ScanWhole(s, p).value == p + |w|
  {
    var q := ScanWhole(s, p).value;
    w := s[p..q];
    AtSlice(s, p, q);
    DigitsSound(s, p);
  }

  lemma FractionSound(s: string, p: nat) returns (f: Option<string>)
    requires p <= |s| && ScanFraction(s, p).Some?
    ensures f.Some? ==> Digits(f.value)
    ensures At(s, p, FractionText(f)) && ScanFraction(s, p).value == p + |FractionText(f)|
  {
    hide ScanDigits;
    if p < |s| && s[p] == '.' {
      f := Some(s[p + 1..ScanDigits(s, p + 1)]);
      DigitsSound(s, p + 1);
      AtChar(s, p, '.');
      AtConcat(s, p, ['.'], f.value);
    } else {
      f := None;
    }
  }

  lemma ExponentSound(s: string, p: nat) returns (e: Option<Exponent>)
    requires p <= |s| && ScanExponent(s, p).Some?
    ensures e.Some? ==> GoodExponent(e.value)
    ensures At(s, p, ExponentText(e)) && ScanExponent(s, p).value == p + |ExponentText(e)|
  {
    hide At, ScanDigits, Digits;
    if p < |s| && (s[p] == 'e' || s[p] == 'E') {
      var q := if p + 1 < |s| && (s[p + 1] == '+' || s[p + 1] == '-') then p + 2 else p + 1;
      var sign := s[p + 1..q];
      AtSlice(s, p + 1, q);
      var digits := s[q..ScanDigits(s, q)];
      DigitsSound(s, q);
      e := Some(Exponent(s[p], sign, digits));
      AtChar(s, p, s[p]);
      AtConcat(s, p, [s[p]], sign);
      AtConcat(s, p, [s[p]] + sign, digits);
    } else {
      e := None;
      AtEmpty(s, p);
    }
  }

  lemma WholeComplete(s: string, p: nat, w: string)
    requires GoodWhole(w) && At(s, p, w) && (p + |w| < |s| ==> !IsDigit(s[p + |w|]))
    ensures ScanWhole(s, p) == Some(p + |w|)
  {
    AtIndex(s, p, w, 0);
    ScansDigits(s, p, w);
  }

  lemma FractionComplete(s: string, p: nat, f: Option<string>)
    requires f.Some? ==> Digits(f.value)
    requires At(s, p, FractionText(f))
    requires var q := p + |FractionText(f)|; q < |s| ==> !IsDigit(s[q]) && s[q] != '.'
    ensures ScanFraction(s, p) == Some(p + |FractionText(f)|)
  {
    if f.Some? {
      AtConcat(s, p, ['.'], f.value);
      AtChar(s, p, '.');
      ScansDigits(s, p + 1, f.value);
    }
  }

  lemma ExponentComplete(s: string, p: nat, e: Option<Exponent>)
    requires e.Some? ==> GoodExponent(e.value)
    requires At(s, p, ExponentText(e)) && Boundary(s, p + |ExponentText(e)|)
    ensures ScanExponent(s, p) == Some(p + |ExponentText(e)|)
  {
    hide At, ScanDigits;
    if e.Some? {
      var Exponent(mark, sign, digits) := e.value;
      AtConcat(s, p, [mark] + sign, digits);
      AtConcat(s, p, [mark], sign);
      AtChar(s, p, mark);
      var q := p + 1 + |sign|;
      AtIndex(s, q, digits, 0);
      if sign != "" {
        AtIndex(s, p + 1, sign, 0);
      }
      ScansDigits(s, q, digits);
    }
  }

  /** Where the parts of a number stand. */
  ghost predicate NumberAt(s: string, p: nat, v: Value, p1: nat, p2: nat, p3: nat) {
    && v.Number? && (v.negative <==> p < |s| && s[p] == '-') && p1 == (if v.negative then p + 1 else p)
    && At(s, p1, v.whole) && p2 == p1 + |v.whole| && ScanWhole(s, p1) == Some(p2)
    && At(s, p2, FractionText(v.fraction)) && p3 == p2 + |FractionText(v.fraction)|
    && ScanFraction(s, p2) == Some(p3)
    && At(s, p3, ExponentText(v.exponent)) && ScanExponent(s, p3) == Some(p3 + |ExponentText(v.exponent)|)
  }

  lemma NumberParts(s: string, p: nat, v: Value) returns (p1: nat, p2: nat, p3: nat)
    requires v.Number? && Good(v) && At(s, p, Text(v)) && Boundary(s, p + |Text(v)|)
    ensures p1 < p2 <= p3 <= |s| && NumberAt(s, p, v, p1, p2, p3) && IsDigit(s[p1])
    ensures p3 + |ExponentText(v.exponent)| == p + |Text(v)|
  {
    hide ScanWhole, ScanFraction, ScanExponent, At, ExponentText, GoodExponent, ScanDigits;
    var sign := if v.negative then ['-'] else [];
    var fraction := FractionText(v.fraction);
    var exponent := ExponentText(v.exponent);
    AtConcat(s, p, sign + v.whole + fraction, exponent);
    AtConcat(s, p, sign + v.whole, fraction);
    AtConcat(s, p, sign, v.whole);
    AtChar(s, p, '-');
    p1 := p + |sign|;
    p2 := p1 + |v.whole|;
    p3 := p2 + |fraction|;
    AtFits(s, p3, exponent);
    AtIndex(s, p1, v.whole, 0);
    ExponentHead(s, p3, v.exponent);
    FractionHead(s, p2, v.fraction);
    WholeComplete(s, p1, v.whole);
    FractionComplete(s, p2, v.fraction);
    ExponentComplete(s, p3, v.exponent);
  }

  lemma AtFits(s: string, p: nat, t: string)
    requires At(s, p, t)
    ensures p + |t| <= |s|
  {}

  lemma NumberComplete(s: string, p: nat, v: Value)
    requires v.Number? && Good(v) && At(s, p, Text(v)) && Boundary(s, p + |Text(v)|)
    ensures ScanNumber(s, p) == Some(p + |Text(v)|)
    ensures p < |s| && (s[p] == '-' || IsDigit(s[p]))
  {
    hide ScanWhole, ScanFraction, ScanExponent, At, ExponentText, FractionText, GoodExponent, GoodWhole, Text;
    var p1, p2, p3 := NumberParts(s, p, v);
  }

  lemma ExponentHead(s: string, p: nat, e: Option<Exponent>)
    requires e.Some? ==> GoodExponent(e.value)
    requires At(s, p, ExponentText(e)) && Boundary(s, p + |ExponentText(e)|)
    ensures p < |s| ==> !IsDigit(s[p]) && s[p] != '.'
  {
    if e.Some? {
      AtIndex(s, p, ExponentText(e), 0);
    }
  }

  lemma FractionHead(s: string, p: nat, f: Option<string>)
    requires At(s, p, FractionText(f))
    requires f.None? && p < |s| ==> !IsDigit(s[p])
    ensures p < |s| ==> !IsDigit(s[p])
  {
    if f.Some? {
      AtIndex(s, p, FractionText(f), 0);
    }
  }
}
