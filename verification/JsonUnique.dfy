/** A JSON text has one syntax tree only, so that it makes sense to speak of what it says. */
module JsonUnique {
  import opened Payload
  import opened Json
  import opened JsonGrammar
  import opened JsonTheorems

  lemma SameSlice(s: string, p: nat, t: string, u: string)
    requires At(s, p, t) && At(s, p, u) && |t| == |u|
    ensures t == u
  {}

  /** White space ends where something else begins. */
  lemma WsUnique(s: string, p: nat, a: string, b: string)
    requires Ws(a) && Ws(b) && At(s, p, a) && At(s, p, b)
    requires p + |a| < |s| ==> !IsWs(s[p + |a|])
    requires p + |b| < |s| ==> !IsWs(s[p + |b|])
    ensures a == b
  {
    hide SkipWs;
    SkipsWs(s, p, a);
    SkipsWs(s, p, b);
  }

  // ----- Strings -----

  lemma PieceUnique(p: Piece, q: Piece, x: string, y: string)
    requires GoodPiece(p) && GoodPiece(q) && PieceText(p) + x == PieceText(q) + y
    ensures p == q && x == y
  {
    var t := PieceText(p) + x;
    assert t[0] == PieceText(p)[0] == PieceText(q)[0];
    if !p.Plain? {
      assert t[1] == PieceText(p)[1] == PieceText(q)[1];
      if p.Hex? {
        assert t[2..6] == p.digits && t[2..6] == q.digits;
      }
    }
    assert x == t[|PieceText(p)|..] && y == t[|PieceText(q)|..];
  }

  lemma {:induction false} PiecesUnique(ps: seq<Piece>, qs: seq<Piece>)
    requires GoodPieces(ps) && GoodPieces(qs) && PiecesText(ps) == PiecesText(qs)
    ensures ps == qs
    decreases |ps|
  {
    hide PieceText;
    if ps == [] || qs == [] {
      if ps != [] { PieceNotEmpty(ps[0]); }
      if qs != [] { PieceNotEmpty(qs[0]); }
    } else {
      PieceUnique(ps[0], qs[0], PiecesText(ps[1..]), PiecesText(qs[1..]));
      PiecesUnique(ps[1..], qs[1..]);
      assert ps == [ps[0]] + ps[1..] && qs == [qs[0]] + qs[1..];
    }
  }

  lemma PieceNotEmpty(p: Piece)
    ensures PieceText(p) != []
  {}

  lemma QuotedUnique(s: string, p: nat, ps: seq<Piece>, qs: seq<Piece>)
    requires GoodPieces(ps) && GoodPieces(qs) && At(s, p, Quoted(ps)) && At(s, p, Quoted(qs))
    ensures ps == qs
  {
    hide PiecesText, GoodPieces, ScanString;
    assert [] + Quoted(ps) == Quoted(ps) && [] + Quoted(qs) == Quoted(qs);
    StringComplete(s, p, [], ps);
    StringComplete(s, p, [], qs);
    SameSlice(s, p, Quoted(ps), Quoted(qs));
    assert PiecesText(ps) == Quoted(ps)[1..|Quoted(ps)| - 1];
    assert PiecesText(qs) == Quoted(qs)[1..|Quoted(qs)| - 1];
    PiecesUnique(ps, qs);
  }

  // ----- Numbers -----

  lemma ExponentUnique(e: Option<Exponent>, f: Option<Exponent>)
    requires (e.Some? ==> GoodExponent(e.value)) && (f.Some? ==> GoodExponent(f.value))
    requires ExponentText(e) == ExponentText(f)
    ensures e == f
  {
    hide GoodExponent, ExponentText;
    if e.Some? { ExponentParts(e.value); } else { NoExponent(); }
    if f.Some? { ExponentParts(f.value); } else { NoExponent(); }
    if e.Some? && f.Some? {
      SignUnique(e.value, f.value);
    }
  }

  lemma NoExponent()
    ensures ExponentText(None) == []
  {}

  lemma ExponentParts(e: Exponent)
    ensures var t := ExponentText(Some(e));
            t != [] && t[0] == e.mark && t[1..] == e.sign + e.digits
  {}

  lemma SignUnique(e: Exponent, f: Exponent)
    requires GoodExponent(e) && GoodExponent(f) && e.sign + e.digits == f.sign + f.digits
    ensures e.sign == f.sign && e.digits == f.digits
  {
    SameSign(e, f);
    Cancel(e.sign, e.digits, f.digits);
  }

  /** A sign is no digit. */
  lemma SameSign(e: Exponent, f: Exponent)
    requires GoodExponent(e) && GoodExponent(f) && e.sign + e.digits == f.sign + f.digits
    ensures e.sign == f.sign
  {
    SignHead(e);
    SignHead(f);
  }

  lemma SignHead(e: Exponent)
    requires GoodExponent(e)
    ensures var c := (e.sign + e.digits)[0];
            e.sign == if c == '+' then "+" else if c == '-' then "-" else ""
  {
    assert IsDigit(e.digits[0]);
  }

  lemma Cancel(a: string, x: string, y: string)
    requires a + x == a + y
    ensures x == y
  {
    assert x == (a + x)[|a|..] && y == (a + y)[|a|..];
  }

  lemma FractionUnique(f: Option<string>, g: Option<string>)
    requires FractionText(f) == FractionText(g)
    ensures f == g
  {
    if f.Some? && g.Some? {
      assert FractionText(f)[1..] == f.value && FractionText(g)[1..] == g.value;
    }
  }

  lemma NumberUnique(s: string, p: nat, v: Value, w: Value)
    requires v.Number? && Good(v) && At(s, p, Text(v)) && Boundary(s, p + |Text(v)|)
    requires w.Number? && Good(w) && At(s, p, Text(w)) && Boundary(s, p + |Text(w)|)
    ensures v == w
  {
    hide ScanWhole, ScanFraction, ScanExponent, At, ExponentText, FractionText, GoodExponent, Text;
    var p1, p2, p3 := NumberParts(s, p, v);
    var q1, q2, q3 := NumberParts(s, p, w);
    SameSlice(s, p1, v.whole, w.whole);
    SameSlice(s, p2, FractionText(v.fraction), FractionText(w.fraction));
    FractionUnique(v.fraction, w.fraction);
    SameSlice(s, p3, ExponentText(v.exponent), ExponentText(w.exponent));
    ExponentUnique(v.exponent, w.exponent);
  }

  // ----- Values -----

  /** The first character of a value tells what it is. */
  lemma KindByHead(v: Value)
    requires Good(v)
    ensures Text(v) != [] && !IsWs(Text(v)[0])
    ensures var c := Text(v)[0];
            && (v.Str? <==> c == '"') && (v.Array? || v.EmptyArray? <==> c == '[')
            && (v.Object? || v.EmptyObject? <==> c == '{') && (v.Number? <==> c == '-' || IsDigit(c))
            && (v.Word? <==> c == 't' || c == 'f' || c == 'n')
  {
    hide GoodItems, GoodMembers, GoodPieces;
    if v.Number? {
      assert IsDigit(v.whole[0]);
    }
  }

  lemma WordUnique(t: string, u: string)
    requires (t == "true" || t == "false" || t == "null") && (u == "true" || u == "false" || u == "null")
    requires t[0] == u[0]
    ensures t == u
  {}

  lemma LeafUnique(s: string, p: nat, v: Value, w: Value)
    requires Good(v) && At(s, p, Text(v)) && Boundary(s, p + |Text(v)|)
    requires Good(w) && At(s, p, Text(w)) && Boundary(s, p + |Text(w)|)
    requires (v.Word? && w.Word?) || (v.Number? && w.Number?) || (v.Str? && w.Str?)
    ensures v == w
  {
    hide At, GoodPieces, Quoted, Boundary, GoodWhole, GoodExponent, FractionText, ExponentText;
    if v.Word? {
      AtIndex(s, p, v.text, 0);
      AtIndex(s, p, w.text, 0);
      WordUnique(v.text, w.text);
    } else if v.Number? {
      NumberUnique(s, p, v, w);
    } else {
      QuotedUnique(s, p, v.pieces, w.pieces);
    }
  }

  lemma {:induction false} ValueUnique(s: string, p: nat, v: Value, w: Value)
    requires Good(v) && At(s, p, Text(v)) && Boundary(s, p + |Text(v)|)
    requires Good(w) && At(s, p, Text(w)) && Boundary(s, p + |Text(w)|)
    ensures v == w
    decreases v, 2
  {
    hide At, Text, Ws, Boundary, GoodItems, GoodMembers, GoodPieces;
    KindByHead(v);
    KindByHead(w);
    AtIndex(s, p, Text(v), 0);
    AtIndex(s, p, Text(w), 0);
    if v.Word? || v.Number? || v.Str? {
      LeafUnique(s, p, v, w);
    } else if v.Array? || v.EmptyArray? {
      ArrayUnique(s, p, v, w);
    } else {
      ObjectUnique(s, p, v, w);
    }
  }

  /** Behind the bracket of an empty array only white space stands before the closing bracket. */
  lemma EmptyArrayInner(s: string, p: nat, u: string)
    requires Ws(u) && At(s, p, Text(EmptyArray(u)))
    ensures p + 1 <= |s| && At(s, p + 1, u) && p + 1 + |u| < |s| && s[p + 1 + |u|] == ']'
    ensures SkipWs(s, p + 1) == p + 1 + |u|
  {
    hide At, Ws;
    assert Text(EmptyArray(u)) == ['['] + (u + [']']);
    AtConcat(s, p, ['['], u + [']']);
    AtConcat(s, p + 1, u, [']']);
    AtChar(s, p + 1 + |u|, ']');
    SkipsWs(s, p + 1, u);
  }

  lemma EmptyObjectInner(s: string, p: nat, u: string)
    requires Ws(u) && At(s, p, Text(EmptyObject(u)))
    ensures p + 1 <= |s| && At(s, p + 1, u) && p + 1 + |u| < |s| && s[p + 1 + |u|] == '}'
    ensures SkipWs(s, p + 1) == p + 1 + |u|
  {
    hide At, Ws;
    assert Text(EmptyObject(u)) == ['{'] + (u + ['}']);
    AtConcat(s, p, ['{'], u + ['}']);
    AtConcat(s, p + 1, u, ['}']);
    AtChar(s, p + 1 + |u|, '}');
    SkipsWs(s, p + 1, u);
  }

  lemma ArrayInner(s: string, p: nat, it: Items)
    requires GoodItems(it) && At(s, p, Text(Array(it)))
    ensures p + 1 <= |s| && At(s, p + 1, ItemsText(it) + [']'])
    ensures var q := SkipWs(s, p + 1); q < |s| && s[q] != ']'
  {
    hide At, ItemsText, GoodItems, SkipWs;
    var inner := ItemsText(it) + [']'];
    assert Text(Array(it)) == ['['] + inner;
    AtConcat(s, p, ['['], inner);
    AtFits(s, p + 1, inner);
    ItemsHead(s, p + 1, 0, it);
  }

  lemma ObjectInner(s: string, p: nat, m: Members)
    requires GoodMembers(m) && At(s, p, Text(Object(m)))
    ensures p + 1 <= |s| && At(s, p + 1, MembersText(m) + ['}'])
    ensures var q := SkipWs(s, p + 1); q < |s| && s[q] == '"'
  {
    hide At, MembersText, GoodMembers, SkipWs;
    var inner := MembersText(m) + ['}'];
    assert Text(Object(m)) == ['{'] + inner;
    AtConcat(s, p, ['{'], inner);
    AtFits(s, p + 1, inner);
    MembersHead(s, p + 1, m);
  }

  lemma {:induction false} ArrayUnique(s: string, p: nat, v: Value, w: Value)
    requires (v.Array? || v.EmptyArray?) && (w.Array? || w.EmptyArray?)
    requires Good(v) && At(s, p, Text(v)) && Good(w) && At(s, p, Text(w))
    ensures v == w
    decreases v, 1
  {
    hide At, Text, Ws, GoodItems, SkipWs;
    if v.EmptyArray? { EmptyArrayInner(s, p, v.inner); } else { ArrayInner(s, p, v.items); }
    if w.EmptyArray? { EmptyArrayInner(s, p, w.inner); } else { ArrayInner(s, p, w.items); }
    if v.EmptyArray? {
      SameSlice(s, p + 1, v.inner, w.inner);
    } else {
      ItemsUnique(s, p + 1, v.items, w.items);
    }
  }

  lemma {:induction false} ObjectUnique(s: string, p: nat, v: Value, w: Value)
    requires (v.Object? || v.EmptyObject?) && (w.Object? || w.EmptyObject?)
    requires Good(v) && At(s, p, Text(v)) && Good(w) && At(s, p, Text(w))
    ensures v == w
    decreases v, 1
  {
    hide At, Text, Ws, GoodMembers, SkipWs;
    if v.EmptyObject? { EmptyObjectInner(s, p, v.inner); } else { ObjectInner(s, p, v.members); }
    if w.EmptyObject? { EmptyObjectInner(s, p, w.inner); } else { ObjectInner(s, p, w.members); }
    if v.EmptyObject? {
      SameSlice(s, p + 1, v.inner, w.inner);
    } else {
      MembersUnique(s, p + 1, v.members, w.members);
    }
  }

  /** A value with white space before it. */
  lemma {:induction false} SpacedUnique(s: string, p: nat, a: string, v: Value, b: string, w: Value)
    requires Ws(a) && Good(v) && At(s, p, a + Text(v)) && Boundary(s, p + |a + Text(v)|)
    requires Ws(b) && Good(w) && At(s, p, b + Text(w)) && Boundary(s, p + |b + Text(w)|)
    ensures a == b && v == w
    decreases v, 3
  {
    hide At, Ws, Text, Good, Boundary;
    AtConcat(s, p, a, Text(v));
    AtConcat(s, p, b, Text(w));
    KindByHead(v);
    KindByHead(w);
    AtFits(s, p + |a|, Text(v));
    AtFits(s, p + |b|, Text(w));
    AtIndex(s, p + |a|, Text(v), 0);
    AtIndex(s, p + |b|, Text(w), 0);
    WsUnique(s, p, a, b);
    ValueUnique(s, p + |a|, v, w);
  }

  /** Where the parts of an item stand. */
  lemma ItemParts(s: string, p: nat, it: Items) returns (e: nat, n: nat)
    requires GoodItems(it) && At(s, p, ItemsText(it) + [']'])
    ensures At(s, p, it.before + Text(it.value)) && e == p + |it.before + Text(it.value)| && Boundary(s, e)
    ensures At(s, e, it.after) && n == e + |it.after| < |s| && !IsWs(s[n])
    ensures it.rest.None? <==> s[n] == ']'
    ensures it.rest.Some? ==> At(s, n + 1, ItemsText(it.rest.value) + [']'])
  {
    hide At, Ws, Good, ItemsText, Text, Boundary;
    ItemSplit(it);
    var value := it.before + Text(it.value);
    var tail := ItemTail(it);
    AtConcat(s, p, value, it.after + tail);
    e := p + |value|;
    AtConcat(s, e, it.after, tail);
    n := e + |it.after|;
    AtIndex(s, n, tail, 0);
    AtFits(s, n, tail);
    AfterValue(s, e, it.after);
    if it.rest.Some? {
      AtConcat(s, n, [','], ItemsText(it.rest.value) + [']']);
    }
  }

  lemma {:induction false} ItemsUnique(s: string, p: nat, it: Items, jt: Items)
    requires GoodItems(it) && At(s, p, ItemsText(it) + [']']) && GoodItems(jt) && At(s, p, ItemsText(jt) + [']'])
    ensures it == jt
    decreases it, 0
  {
    hide At, Ws, Good, ItemsText, Text, Boundary;
    var e, n := ItemParts(s, p, it);
    var e', n' := ItemParts(s, p, jt);
    SpacedUnique(s, p, it.before, it.value, jt.before, jt.value);
    WsUnique(s, e, it.after, jt.after);
    if it.rest.Some? {
      ItemsUnique(s, n + 1, it.rest.value, jt.rest.value);
    }
  }

  lemma KeyUnique(s: string, p: nat, a: string, ps: seq<Piece>, b: string, qs: seq<Piece>)
    requires Ws(a) && GoodPieces(ps) && At(s, p, a + Quoted(ps)) && Ws(b) && GoodPieces(qs) && At(s, p, b + Quoted(qs))
    ensures a == b && ps == qs
  {
    hide At, Ws, GoodPieces, PiecesText;
    AtConcat(s, p, a, Quoted(ps));
    AtConcat(s, p, b, Quoted(qs));
    AtFits(s, p + |a|, Quoted(ps));
    AtFits(s, p + |b|, Quoted(qs));
    AtIndex(s, p + |a|, Quoted(ps), 0);
    AtIndex(s, p + |b|, Quoted(qs), 0);
    WsUnique(s, p, a, b);
    QuotedUnique(s, p + |a|, ps, qs);
  }

  lemma {:induction false} MembersUnique(s: string, p: nat, m: Members, o: Members)
    requires GoodMembers(m) && At(s, p, MembersText(m) + ['}']) && GoodMembers(o) && At(s, p, MembersText(o) + ['}'])
    ensures m == o
    decreases m, 0
  {
    hide At, Ws, Good, SkipWs, MembersText, MemberTail, Text, Quoted, GoodPieces, Boundary;
    var k, c, e, n := MemberParts(s, p, m);
    var k', c', e', n' := MemberParts(s, p, o);
    KeyUnique(s, p, m.beforeKey, m.key, o.beforeKey, o.key);
    AtChar(s, c, ':');
    AtChar(s, c', ':');
    WsUnique(s, k, m.afterKey, o.afterKey);
    TailAt(s, n, m);
    TailAt(s, n', o);
    AfterValue(s, e, m.after);
    AfterValue(s, e', o.after);
    SpacedUnique(s, c + 1, m.before, m.value, o.before, o.value);
    WsUnique(s, e, m.after, o.after);
    if m.rest.Some? {
      MembersUnique(s, n + 1, m.rest.value, o.rest.value);
    }
  }

  /** No text is two documents. */
  lemma DocumentUnique(s: string, limit: nat, before: string, v: Value, after: string, limit': nat, before': string,
                       v': Value, after': string)
    requires IsDocument(s, limit, before, v, after) && IsDocument(s, limit', before', v', after')
    ensures v == v'
  {
    hide At, Ws, Good, Depth, Text, SkipWs, Boundary;
    DocumentParts(s, before, v, after);
    DocumentParts(s, before', v', after');
    ValueUnique(s, |before|, v, v');
  }
}
