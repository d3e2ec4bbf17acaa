/** Values, objects and documents: the recogniser and the grammar agree. */
module JsonTheorems {
  import opened Payload
  import opened Json
  import opened JsonGrammar

  // ----- How the text of one member or item splits -----

  function MemberTail(m: Members): string {
    if m.rest.None? then ['}'] else [','] + (MembersText(m.rest.value) + ['}'])
  }

  function ItemTail(it: Items): string {
    if it.rest.None? then [']'] else [','] + (ItemsText(it.rest.value) + [']'])
  }

  lemma MemberSplit(m: Members)
    ensures MembersText(m) + ['}']
            == (m.beforeKey + Quoted(m.key))
               + (m.afterKey + ([':'] + ((m.before + Text(m.value)) + (m.after + MemberTail(m)))))
  {
    hide Quoted, Text;
    var rest := if m.rest.None? then [] else [','] + MembersText(m.rest.value);
    assert MemberTail(m) == rest + ['}'];
    Regroup(m.beforeKey, Quoted(m.key), m.afterKey, [':'], m.before, Text(m.value), m.after, rest, ['}']);
  }

  lemma Regroup(a: string, b: string, c: string, d: string, e: string, f: string, g: string, h: string, i: string)
    ensures (a + b + c + d + e + f + g + h) + i == (a + b) + (c + (d + ((e + f) + (g + (h + i)))))
  {
    assert (a + b + c + d + e + f + g + h) + i == (a + b + c + d + e + f) + (g + (h + i));
    var z := g + (h + i);
    assert (a + b + c + d + e + f) + z == (a + b + c + d) + ((e + f) + z);
    var y := (e + f) + z;
    assert (a + b + c + d) + y == (a + b) + (c + (d + y));
  }

  ghost predicate MemberAt(s: string, p: nat, m: Members, k: nat, c: nat, e: nat, n: nat) {
    && At(s, p, m.beforeKey + Quoted(m.key)) && k == p + |m.beforeKey + Quoted(m.key)|
    && At(s, k, m.afterKey) && c == k + |m.afterKey| && At(s, c, [':'])
    && At(s, c + 1, m.before + Text(m.value)) && e == c + 1 + |m.before + Text(m.value)|
    && At(s, e, m.after) && n == e + |m.after| && At(s, n, MemberTail(m))
  }

  lemma MemberJoins(s: string, p: nat, m: Members, k: nat, c: nat, e: nat, n: nat)
    requires MemberAt(s, p, m, k, c, e, n)
    ensures At(s, p, MembersText(m) + ['}']) && p + |MembersText(m) + ['}']| == n + |MemberTail(m)|
  {
    hide At, MembersText, Text, Quoted, MemberTail;
    var value := m.before + Text(m.value);
    var tail := MemberTail(m);
    AtConcat(s, e, m.after, tail);
    AtConcat(s, c + 1, value, m.after + tail);
    AtConcat(s, c, [':'], value + (m.after + tail));
    AtConcat(s, k, m.afterKey, [':'] + (value + (m.after + tail)));
    AtConcat(s, p, m.beforeKey + Quoted(m.key), m.afterKey + ([':'] + (value + (m.after + tail))));
    MemberSplit(m);
  }

  lemma MemberParts(s: string, p: nat, m: Members) returns (k: nat, c: nat, e: nat, n: nat)
    requires At(s, p, MembersText(m) + ['}'])
    ensures MemberAt(s, p, m, k, c, e, n) && p + |MembersText(m) + ['}']| == n + |MemberTail(m)|
  {
    hide At, MembersText, Text, Quoted, MemberTail;
    MemberSplit(m);
    var value := m.before + Text(m.value);
    var tail := MemberTail(m);
    AtConcat(s, p, m.beforeKey + Quoted(m.key), m.afterKey + ([':'] + (value + (m.after + tail))));
    k := p + |m.beforeKey + Quoted(m.key)|;
    AtConcat(s, k, m.afterKey, [':'] + (value + (m.after + tail)));
    c := k + |m.afterKey|;
    AtConcat(s, c, [':'], value + (m.after + tail));
    AtConcat(s, c + 1, value, m.after + tail);
    e := c + 1 + |value|;
    AtConcat(s, e, m.after, tail);
    n := e + |m.after|;
  }

  lemma TailAt(s: string, n: nat, m: Members)
    ensures At(s, n, MemberTail(m)) <==>
            n < |s| && if m.rest.None? then s[n] == '}'
                       else s[n] == ',' && At(s, n + 1, MembersText(m.rest.value) + ['}'])
    ensures |MemberTail(m)| == if m.rest.None? then 1 else 1 + |MembersText(m.rest.value) + ['}']|
  {
    hide At, MembersText;
    if m.rest.None? {
      AtChar(s, n, '}');
    } else {
      AtChar(s, n, ',');
      AtConcat(s, n, [','], MembersText(m.rest.value) + ['}']);
    }
  }

  ghost predicate MemberScanned(s: string, p: nat, d: nat, k: nat, c: nat, e: nat, n: nat) {
    && p <= |s| && k <= |s| && ScanString(s, p) == Some(k) && SkipWs(s, k) == c < |s| && s[c] == ':'
    && e <= |s| && ScanValue(s, c + 1, d + 1) == Some(e) && SkipWs(s, e) == n < |s|
  }

  lemma MembersOpen(s: string, p: nat, d: nat) returns (k: nat, c: nat, e: nat, n: nat)
    requires p <= |s| && ScanMembers(s, p, d).Some?
    ensures MemberScanned(s, p, d, k, c, e, n) && p < c && e < n + 1 && c < e && (s[n] == '}' || s[n] == ',')
  {
    hide ScanString, ScanValue, SkipWs;
    k := ScanString(s, p).value;
    c := SkipWs(s, k);
    e := ScanValue(s, c + 1, d + 1).value;
    n := SkipWs(s, e);
  }

  lemma MembersStep(s: string, p: nat, d: nat, k: nat, c: nat, e: nat, n: nat)
    requires MemberScanned(s, p, d, k, c, e, n)
    ensures s[n] == '}' ==> ScanMembers(s, p, d) == Some(n + 1)
    ensures s[n] == ',' ==> ScanMembers(s, p, d) == ScanMembers(s, n + 1, d)
  {
    hide ScanString, ScanValue, SkipWs;
  }

  lemma MembersByMember(s: string, p: nat, d: nat)
    requires p <= |s|
    ensures ScanMembers(s, p, d).Some? ==> ScanMember(s, p, d).Some?
    ensures ScanMember(s, p, d).Some? ==>
              var n := SkipWs(s, ScanMember(s, p, d).value);
              ScanMembers(s, p, d) == if n >= |s| then None else if s[n] == '}' then Some(n + 1)
                                      else if s[n] != ',' then None else ScanMembers(s, n + 1, d)
  {
    hide ScanString, ScanValue, SkipWs;
  }

  lemma ItemSplit(it: Items)
    ensures ItemsText(it) + [']'] == (it.before + Text(it.value)) + (it.after + ItemTail(it))
  {
    hide Text;
    var rest := if it.rest.None? then [] else [','] + ItemsText(it.rest.value);
    assert ItemTail(it) == rest + [']'];
    RegroupItem(it.before, Text(it.value), it.after, rest, [']']);
  }

  lemma RegroupItem(a: string, b: string, c: string, d: string, e: string)
    ensures (a + b + c + d) + e == (a + b) + (c + (d + e))
  {
  }

  lemma SkipTwice(s: string, p: nat)
    requires p <= |s|
    ensures SkipWs(s, SkipWs(s, p)) == SkipWs(s, p)
  {
  }

  lemma StringSkip(s: string, p: nat)
    requires p <= |s|
    ensures ScanString(s, SkipWs(s, p)) == ScanString(s, p)
  {
    hide ScanChars;
    SkipTwice(s, p);
  }

  lemma MembersSkip(s: string, p: nat, d: nat)
    requires p <= |s|
    ensures ScanMembers(s, SkipWs(s, p), d) == ScanMembers(s, p, d)
  {
    hide ScanValue, ScanString;
    StringSkip(s, p);
  }

  lemma ValueSkip(s: string, p: nat, d: nat)
    requires p <= |s|
    ensures ScanValue(s, SkipWs(s, p), d) == ScanValue(s, p, d)
  {
    hide ScanObject, ScanArray, ScanString, ScanWord, ScanNumber;
    SkipTwice(s, p);
  }

  lemma ItemsSkip(s: string, p: nat, d: nat)
    requires p <= |s|
    ensures ScanItems(s, SkipWs(s, p), d) == ScanItems(s, p, d)
  {
    hide ScanValue;
    ValueSkip(s, p, d + 1);
  }

  /** White space after a value ends at the separator, which also ends a number. */
  lemma AfterValue(s: string, e: nat, w: string)
    requires At(s, e, w) && Ws(w)
    requires var n := e + |w|; n < |s| && (s[n] == ',' || s[n] == '}' || s[n] == ']')
    ensures SkipWs(s, e) == e + |w| && Boundary(s, e)
  {
    SkipsWs(s, e, w);
    if w != [] {
      AtIndex(s, e, w, 0);
    }
  }

  // ----- Every accepted text has a tree -----

  lemma WordSound(s: string, p: nat, word: string) returns (v: Value)
    requires p <= |s| && (word == "true" || word == "false" || word == "null") && ScanWord(s, p, word).Some?
    ensures v == Word(word) && At(s, p, Text(v)) && ScanWord(s, p, word).value == p + |Text(v)|
  {
    v := Word(word);
  }

  lemma LeafSound(s: string, p: nat, d: nat) returns (v: Value)
    requires p < |s| && !IsWs(s[p]) && s[p] != '{' && s[p] != '[' && ScanValue(s, p, d).Some?
    ensures Good(v) && Depth(v) == 0 && At(s, p, Text(v)) && ScanValue(s, p, d).value == p + |Text(v)|
  {
    hide ScanNumber, ScanString, ScanWord, At, ScanObject, ScanArray;
    if s[p] == '"' {
      var w, ps := StringSound(s, p);
      EmptyWs(s, p, w, Quoted(ps));
      v := Str(ps);
    } else if s[p] == 't' {
      v := WordSound(s, p, "true");
    } else if s[p] == 'f' {
      v := WordSound(s, p, "false");
    } else if s[p] == 'n' {
      v := WordSound(s, p, "null");
    } else {
      v := NumberSound(s, p);
    }
  }

  lemma EmptyWs(s: string, p: nat, w: string, t: string)
    requires Ws(w) && At(s, p, w + t) && p < |s| && !IsWs(s[p])
    ensures w == [] && w + t == t && At(s, p, t)
  {
    if w != [] {
      AtIndex(s, p, w + t, 0);
    }
    assert w + t == t;
  }

  lemma {:induction false} ValueSound(s: string, p: nat, d: nat) returns (w: string, v: Value)
    requires p <= |s| && ScanValue(s, p, d).Some?
    ensures Ws(w) && Good(v) && d + Depth(v) <= MAX_DEPTH
    ensures At(s, p, w + Text(v)) && ScanValue(s, p, d).value == p + |w + Text(v)|
    decreases |s| - p, 2
  {
    hide At, Ws, Good, Text, Depth, ScanObject, ScanArray, ScanNumber, ScanString, ScanWord;
    var q := SkipWs(s, p);
    w := s[p..q];
    AtSlice(s, p, q);
    if s[q] == '{' {
      var u;
      u, v := ObjectSound(s, q, d);
      EmptyWs(s, q, u, Text(v));
    } else if s[q] == '[' {
      var u;
      u, v := ArraySound(s, q, d);
      EmptyWs(s, q, u, Text(v));
    } else {
      ValueSkip(s, p, d);
      v := LeafSound(s, q, d);
    }
    AtConcat(s, p, w, Text(v));
  }

  lemma {:induction false} ObjectSound(s: string, p: nat, d: nat) returns (w: string, v: Value)
    requires p <= |s| && ScanObject(s, p, d).Some?
    ensures Ws(w) && (v.Object? || v.EmptyObject?) && Good(v) && d + Depth(v) <= MAX_DEPTH
    ensures At(s, p, w + Text(v)) && ScanObject(s, p, d).value == p + |w + Text(v)|
    decreases |s| - p, 1
  {
    hide At, Ws, ScanMembers, MembersText, GoodMembers, MembersDepth;
    var q := SkipWs(s, p);
    w := s[p..q];
    AtSlice(s, p, q);
    AtChar(s, q, '{');
    var inner := SkipWs(s, q + 1);
    if inner < |s| && s[inner] == '}' {
      var u := s[q + 1..inner];
      AtSlice(s, q + 1, inner);
      AtChar(s, inner, '}');
      v := EmptyObject(u);
      AtConcat(s, q + 1, u, ['}']);
      AtConcat(s, q, ['{'], u + ['}']);
      assert Text(v) == ['{'] + (u + ['}']);
    } else {
      MembersSkip(s, q + 1, d);
      var m := MembersSound(s, q + 1, d);
      v := Object(m);
      AtConcat(s, q, ['{'], MembersText(m) + ['}']);
      assert Text(v) == ['{'] + (MembersText(m) + ['}']);
    }
    AtConcat(s, p, w, Text(v));
  }

  lemma {:induction false} MembersSound(s: string, p: nat, d: nat) returns (m: Members)
    requires p <= |s| && ScanMembers(s, p, d).Some?
    ensures GoodMembers(m) && d + 1 + MembersDepth(m) <= MAX_DEPTH
    ensures At(s, p, MembersText(m) + ['}']) && ScanMembers(s, p, d).value == p + |MembersText(m) + ['}']|
    decreases |s| - p, 0
  {
    hide At, Ws, ScanString, ScanValue, ScanMembers, SkipWs, MembersText, MemberTail, Text, Quoted, GoodPieces;
    hide Good, Depth;
    var k, c, e, n := MembersOpen(s, p, d);
    MembersStep(s, p, d, k, c, e, n);
    var wk, key := StringSound(s, p);
    var wc, wa := s[k..c], s[e..n];
    AtSlice(s, k, c);
    AtChar(s, c, ':');
    var wv, v := ValueSound(s, c + 1, d + 1);
    AtSlice(s, e, n);
    var rest: Option<Members> := None;
    if s[n] == ',' {
      var more := MembersSound(s, n + 1, d);
      rest := Some(more);
    }
    m := Members(wk, key, wc, wv, v, wa, rest);
    TailAt(s, n, m);
    MemberJoins(s, p, m, k, c, e, n);
  }

  lemma {:induction false} ArraySound(s: string, p: nat, d: nat) returns (w: string, v: Value)
    requires p <= |s| && ScanArray(s, p, d).Some?
    ensures Ws(w) && Good(v) && d + Depth(v) <= MAX_DEPTH
    ensures At(s, p, w + Text(v)) && ScanArray(s, p, d).value == p + |w + Text(v)|
    decreases |s| - p, 1
  {
    hide At, Ws, ScanItems, ItemsText, GoodItems, ItemsDepth;
    var q := SkipWs(s, p);
    w := s[p..q];
    AtSlice(s, p, q);
    AtChar(s, q, '[');
    var inner := SkipWs(s, q + 1);
    if inner < |s| && s[inner] == ']' {
      var u := s[q + 1..inner];
      AtSlice(s, q + 1, inner);
      AtChar(s, inner, ']');
      v := EmptyArray(u);
      AtConcat(s, q + 1, u, [']']);
      AtConcat(s, q, ['['], u + [']']);
      assert Text(v) == ['['] + (u + [']']);
    } else {
      ItemsSkip(s, q + 1, d);
      var items := ItemsSound(s, q + 1, d);
      v := Array(items);
      AtConcat(s, q, ['['], ItemsText(items) + [']']);
      assert Text(v) == ['['] + (ItemsText(items) + [']']);
    }
    AtConcat(s, p, w, Text(v));
  }

  lemma {:induction false} ItemsSound(s: string, p: nat, d: nat) returns (it: Items)
    requires p <= |s| && ScanItems(s, p, d).Some?
    ensures GoodItems(it) && d + 1 + ItemsDepth(it) <= MAX_DEPTH
    ensures At(s, p, ItemsText(it) + [']']) && ScanItems(s, p, d).value == p + |ItemsText(it) + [']']|
    decreases |s| - p, 3
  {
    hide At, Ws, ScanValue, ItemsText, Text, Good, Depth;
    var e := ScanValue(s, p, d + 1).value;
    var wv, v := ValueSound(s, p, d + 1);
    var n := SkipWs(s, e);
    var wa := s[e..n];
    AtSlice(s, e, n);
    AtChar(s, n, s[n]);
    if s[n] == ']' {
      it := Items(wv, v, wa, None);
    } else {
      var rest := ItemsSound(s, n + 1, d);
      it := Items(wv, v, wa, Some(rest));
      AtConcat(s, n, [','], ItemsText(rest) + [']']);
    }
    AtConcat(s, e, wa, ItemTail(it));
    AtConcat(s, p, wv + Text(v), wa + ItemTail(it));
    ItemSplit(it);
  }

  // ----- Every tree's text is accepted -----

  lemma LeafComplete(s: string, p: nat, d: nat, v: Value)
    requires !v.Array? && !v.EmptyArray? && !v.Object? && !v.EmptyObject?
    requires Good(v) && d <= MAX_DEPTH && At(s, p, Text(v)) && Boundary(s, p + |Text(v)|)
    ensures ScanValue(s, p, d) == Some(p + |Text(v)|)
    ensures p < |s| && !IsWs(s[p])
  {
    hide ScanNumber, ScanString;
    match v
    case Word(t) => AtIndex(s, p, t, 0);
    case Number(_, _, _, _) => NumberComplete(s, p, v);
    case Str(ps) =>
      AtIndex(s, p, Quoted(ps), 0);
      assert [] + Quoted(ps) == Quoted(ps);
      StringComplete(s, p, [], ps);
    case _ =>
  }

  lemma {:induction false} ValueComplete(s: string, p: nat, d: nat, w: string, v: Value)
    requires Ws(w) && Good(v) && d + Depth(v) <= MAX_DEPTH && At(s, p, w + Text(v)) && Boundary(s, p + |w + Text(v)|)
    ensures ScanValue(s, p, d) == Some(p + |w + Text(v)|)
    decreases v, 1
  {
    hide At, Ws, Good, Depth, ScanObject, ScanArray, Text;
    AtConcat(s, p, w, Text(v));
    var q := p + |w|;
    ValueAt(s, q, d, v);
    SkipsWs(s, p, w);
    ValueSkip(s, p, d);
  }

  lemma {:induction false} ValueAt(s: string, q: nat, d: nat, v: Value)
    requires Good(v) && d + Depth(v) <= MAX_DEPTH && At(s, q, Text(v)) && Boundary(s, q + |Text(v)|)
    ensures q < |s| && !IsWs(s[q]) && ScanValue(s, q, d) == Some(q + |Text(v)|)
    decreases v, 0
  {
    hide At, Ws, ScanObject, ScanArray, ScanString, ScanNumber, ScanWord, ScanValue, Boundary, GoodItems, GoodMembers;
    hide Text;
    match v
    case EmptyArray(u) => EmptyArrayAt(s, q, d, u);
    case EmptyObject(u) => EmptyObjectAt(s, q, d, u);
    case Array(items) => ArrayComplete(s, q, d, items);
    case Object(members) => ObjectComplete(s, q, d, members);
    case _ => LeafComplete(s, q, d, v);
  }

  lemma {:induction false} ArrayComplete(s: string, q: nat, d: nat, items: Items)
    requires GoodItems(items) && d + 1 + ItemsDepth(items) <= MAX_DEPTH && At(s, q, Text(Array(items)))
    ensures q < |s| && s[q] == '[' && ScanValue(s, q, d) == Some(q + |Text(Array(items))|)
    decreases items, 1
  {
    hide At, ItemsText, ScanValue, ScanItems, GoodItems, ItemsDepth;
    var inner := ItemsText(items) + [']'];
    assert Text(Array(items)) == ['['] + inner;
    AtConcat(s, q, ['['], inner);
    AtChar(s, q, '[');
    ItemsComplete(s, q + 1, d, items);
    ArrayAt(s, q, d);
  }

  lemma {:induction false} ObjectComplete(s: string, q: nat, d: nat, members: Members)
    requires GoodMembers(members) && d + 1 + MembersDepth(members) <= MAX_DEPTH && At(s, q, Text(Object(members)))
    ensures q < |s| && s[q] == '{' && ScanValue(s, q, d) == Some(q + |Text(Object(members))|)
    decreases members, 1
  {
    hide At, MembersText, ScanValue, ScanMembers, GoodMembers, MembersDepth;
    var inner := MembersText(members) + ['}'];
    assert Text(Object(members)) == ['{'] + inner;
    AtConcat(s, q, ['{'], inner);
    AtChar(s, q, '{');
    MembersComplete(s, q + 1, d, members);
    ObjectAt(s, q, d);
  }

  lemma EmptyArrayAt(s: string, q: nat, d: nat, u: string)
    requires d <= MAX_DEPTH && Ws(u) && At(s, q, Text(EmptyArray(u)))
    ensures q < |s| && s[q] == '[' && ScanValue(s, q, d) == Some(q + |Text(EmptyArray(u))|)
  {
    hide At, Ws, ScanItems;
    assert Text(EmptyArray(u)) == ['['] + (u + [']']);
    AtConcat(s, q, ['['], u + [']']);
    AtConcat(s, q + 1, u, [']']);
    AtChar(s, q, '[');
    AtChar(s, q + 1 + |u|, ']');
    SkipsWs(s, q + 1, u);
  }

  lemma EmptyObjectAt(s: string, q: nat, d: nat, u: string)
    requires d <= MAX_DEPTH && Ws(u) && At(s, q, Text(EmptyObject(u)))
    ensures q < |s| && s[q] == '{' && ScanValue(s, q, d) == Some(q + |Text(EmptyObject(u))|)
  {
    hide At, Ws, ScanMembers;
    assert Text(EmptyObject(u)) == ['{'] + (u + ['}']);
    AtConcat(s, q, ['{'], u + ['}']);
    AtConcat(s, q + 1, u, ['}']);
    AtChar(s, q, '{');
    AtChar(s, q + 1 + |u|, '}');
    SkipsWs(s, q + 1, u);
  }

  lemma ArrayAt(s: string, q: nat, d: nat)
    requires q < |s| && s[q] == '[' && d <= MAX_DEPTH && ScanItems(s, q + 1, d).Some?
    ensures ScanValue(s, q, d) == ScanItems(s, q + 1, d)
  {
    hide ScanObject, ScanItems, ScanString, ScanWord, ScanNumber, SkipWs;
    ItemsSkip(s, q + 1, d);
    ValueNotClosed(s, q + 1, d);
    SkipNone(s, q);
  }

  lemma SkipNone(s: string, p: nat)
    requires p < |s| && !IsWs(s[p])
    ensures SkipWs(s, p) == p
  {
  }

  lemma ValueNotClosed(s: string, p: nat, d: nat)
    requires p <= |s| && ScanItems(s, p, d).Some?
    ensures var q := SkipWs(s, p); q < |s| && s[q] != ']'
  {
    hide ScanObject, ScanArray, ScanString, ScanWord, SkipWs;
    assert ScanValue(s, p, d + 1).Some?;
  }

  lemma ObjectAt(s: string, q: nat, d: nat)
    requires q < |s| && s[q] == '{' && d <= MAX_DEPTH && ScanMembers(s, q + 1, d).Some?
    ensures ScanValue(s, q, d) == ScanMembers(s, q + 1, d)
  {
    hide ScanArray, ScanChars;
    MembersSkip(s, q + 1, d);
    assert ScanString(s, q + 1).Some?;
  }

  lemma {:induction false} ItemsComplete(s: string, p: nat, d: nat, it: Items)
    requires GoodItems(it) && d + 1 + ItemsDepth(it) <= MAX_DEPTH && At(s, p, ItemsText(it) + [']'])
    ensures ScanItems(s, p, d) == Some(p + |ItemsText(it) + [']']|)
    decreases it, 0
  {
    hide At, Ws, Good, Depth, SkipWs, ScanValue, ItemsText, Text, Boundary;
    ItemSplit(it);
    var value := it.before + Text(it.value);
    var tail := ItemTail(it);
    AtConcat(s, p, value, it.after + tail);
    var e := p + |value|;
    AtConcat(s, e, it.after, tail);
    var n := e + |it.after|;
    AtIndex(s, n, tail, 0);
    AtFits(s, n, tail);
    AfterValue(s, e, it.after);
    ValueComplete(s, p, d + 1, it.before, it.value);
    if it.rest.Some? {
      AtConcat(s, n, [','], ItemsText(it.rest.value) + [']']);
      ItemsComplete(s, n + 1, d, it.rest.value);
    }
  }

  lemma {:induction false} MembersComplete(s: string, p: nat, d: nat, m: Members)
    requires GoodMembers(m) && d + 1 + MembersDepth(m) <= MAX_DEPTH && At(s, p, MembersText(m) + ['}'])
    ensures ScanMembers(s, p, d) == Some(p + |MembersText(m) + ['}']|)
    decreases m, 0
  {
    hide At, Ws, Good, Depth, SkipWs, ScanValue, ScanString, ScanMembers, MembersText, MemberTail, Text, Quoted;
    hide GoodPieces, Boundary;
    var k, c, e, n := MemberParts(s, p, m);
    TailAt(s, n, m);
    AtChar(s, c, ':');
    StringComplete(s, p, m.beforeKey, m.key);
    SkipsWs(s, k, m.afterKey);
    AfterValue(s, e, m.after);
    ValueComplete(s, c + 1, d + 1, m.before, m.value);
    AtFits(s, p, MembersText(m) + ['}']);
    MembersStep(s, p, d, k, c, e, n);
    if m.rest.Some? {
      MembersComplete(s, n + 1, d, m.rest.value);
    }
  }

  // ----- A tree that nests too deep is refused -----

  lemma {:induction false} ValueTooDeep(s: string, p: nat, d: nat, w: string, v: Value)
    requires Ws(w) && Good(v) && d + Depth(v) > MAX_DEPTH && At(s, p, w + Text(v)) && Boundary(s, p + |w + Text(v)|)
    ensures ScanValue(s, p, d).None?
    decreases v, 1
  {
    if d <= MAX_DEPTH {
      hide At, Ws, Text, ScanObject, ScanArray, Boundary, GoodItems, GoodMembers, ItemsDepth, MembersDepth;
      AtConcat(s, p, w, Text(v));
      if v.Array? {
        ArrayTooDeep(s, p, d, w, v.items);
      } else {
        ObjectTooDeep(s, p, d, w, v.members);
      }
    }
  }

  lemma {:induction false} ArrayTooDeep(s: string, p: nat, d: nat, w: string, items: Items)
    requires Ws(w) && GoodItems(items) && d <= MAX_DEPTH < d + 1 + ItemsDepth(items)
    requires At(s, p, w) && At(s, p + |w|, Text(Array(items)))
    ensures ScanValue(s, p, d).None?
    decreases items, 1
  {
    hide At, ItemsText, GoodItems, ItemsDepth, ScanItems, ScanObject, ScanString, ScanNumber, ScanWord;
    var q := p + |w|;
    var inner := ItemsText(items) + [']'];
    assert Text(Array(items)) == ['['] + inner;
    AtConcat(s, q, ['['], inner);
    AtChar(s, q, '[');
    SkipsWs(s, p, w);
    ItemsTooDeep(s, q + 1, d, items);
    ItemsSkip(s, q + 1, d);
    ItemsHead(s, q + 1, d, items);
  }

  lemma ItemsHead(s: string, p: nat, d: nat, it: Items)
    requires GoodItems(it) && At(s, p, ItemsText(it) + [']']) && p <= |s|
    ensures var q := SkipWs(s, p); q < |s| && s[q] != ']'
  {
    hide At, ItemsText, SkipWs;
    ItemSplit(it);
    AtConcat(s, p, it.before + Text(it.value), it.after + ItemTail(it));
    AtConcat(s, p, it.before, Text(it.value));
    var q := p + |it.before|;
    ValueHead(it.value);
    AtFits(s, q, Text(it.value));
    AtIndex(s, q, Text(it.value), 0);
    SkipsWs(s, p, it.before);
  }

  lemma ValueHead(v: Value)
    requires Good(v)
    ensures Text(v) != [] && !IsWs(Text(v)[0]) && Text(v)[0] != ']'
  {
    if v.Number? {
      assert IsDigit(v.whole[0]);
    }
  }

  lemma {:induction false} ObjectTooDeep(s: string, p: nat, d: nat, w: string, members: Members)
    requires Ws(w) && GoodMembers(members) && d <= MAX_DEPTH < d + 1 + MembersDepth(members)
    requires At(s, p, w) && At(s, p + |w|, Text(Object(members)))
    ensures ScanValue(s, p, d).None?
    decreases members, 1
  {
    hide At, MembersText, GoodMembers, MembersDepth, ScanMembers, ScanArray, ScanString, ScanNumber, ScanWord;
    var q := p + |w|;
    var inner := MembersText(members) + ['}'];
    assert Text(Object(members)) == ['{'] + inner;
    AtConcat(s, q, ['{'], inner);
    AtChar(s, q, '{');
    SkipsWs(s, p, w);
    MembersTooDeep(s, q + 1, d, members);
    MembersSkip(s, q + 1, d);
    MembersHead(s, q + 1, members);
  }

  lemma MembersHead(s: string, p: nat, m: Members)
    requires GoodMembers(m) && At(s, p, MembersText(m) + ['}']) && p <= |s|
    ensures var q := SkipWs(s, p); q < |s| && s[q] == '"'
  {
    hide At, MembersText, SkipWs, MemberTail, Text, Good;
    var k, c, e, n := MemberParts(s, p, m);
    AtConcat(s, p, m.beforeKey, Quoted(m.key));
    var q := p + |m.beforeKey|;
    AtFits(s, q, Quoted(m.key));
    AtIndex(s, q, Quoted(m.key), 0);
    SkipsWs(s, p, m.beforeKey);
  }

  lemma {:induction false} ItemsTooDeep(s: string, p: nat, d: nat, it: Items)
    requires GoodItems(it) && d + 1 + ItemsDepth(it) > MAX_DEPTH && At(s, p, ItemsText(it) + [']'])
    ensures ScanItems(s, p, d).None?
    decreases it, 0
  {
    hide At, Ws, Good, Depth, SkipWs, ScanValue, ItemsText, Text, Boundary;
    ItemSplit(it);
    var value := it.before + Text(it.value);
    var tail := ItemTail(it);
    AtConcat(s, p, value, it.after + tail);
    var e := p + |value|;
    AtConcat(s, e, it.after, tail);
    var n := e + |it.after|;
    AtIndex(s, n, tail, 0);
    AtFits(s, n, tail);
    AfterValue(s, e, it.after);
    if d + 1 + Depth(it.value) > MAX_DEPTH {
      ValueTooDeep(s, p, d + 1, it.before, it.value);
    } else {
      ValueComplete(s, p, d + 1, it.before, it.value);
      AtConcat(s, n, [','], ItemsText(it.rest.value) + [']']);
      ItemsTooDeep(s, n + 1, d, it.rest.value);
    }
  }

  lemma {:induction false} MembersTooDeep(s: string, p: nat, d: nat, m: Members)
    requires GoodMembers(m) && d + 1 + MembersDepth(m) > MAX_DEPTH && At(s, p, MembersText(m) + ['}'])
    ensures ScanMembers(s, p, d).None?
    decreases m, 0
  {
    hide At, Ws, Good, Depth, SkipWs, ScanValue, ScanString, ScanMembers, MembersText, MemberTail, Text, Quoted;
    hide GoodPieces, Boundary;
    var k, c, e, n := MemberParts(s, p, m);
    TailAt(s, n, m);
    AtChar(s, c, ':');
    StringComplete(s, p, m.beforeKey, m.key);
    SkipsWs(s, k, m.afterKey);
    AfterValue(s, e, m.after);
    AtFits(s, p, MembersText(m) + ['}']);
    if d + 1 + Depth(m.value) > MAX_DEPTH {
      ValueTooDeep(s, c + 1, d + 1, m.before, m.value);
      if ScanMembers(s, p, d).Some? {
        var k', c', e', n' := MembersOpen(s, p, d);
      }
    } else {
      ValueComplete(s, c + 1, d + 1, m.before, m.value);
      MembersStep(s, p, d, k, c, e, n);
      MembersTooDeep(s, n + 1, d, m.rest.value);
    }
  }

  // ----- Documents -----

  /** The recogniser accepts a text exactly when it is one JSON object that nests no deeper than the bound. */
  lemma AcceptsExactlyObjects(s: string)
    ensures ScanDocument(s) <==> ObjectDocument(s, MAX_DEPTH)
  {
    if ScanDocument(s) {
      DocumentSound(s);
    }
    if ObjectDocument(s, MAX_DEPTH) {
      var before, v, after :| IsDocument(s, MAX_DEPTH, before, v, after);
      DocumentComplete(s, before, v, after);
    }
  }

  lemma DocumentSound(s: string)
    requires ScanDocument(s)
    ensures ObjectDocument(s, MAX_DEPTH)
  {
    hide At, Ws, Good, Text, Depth, ScanObject, SkipWs;
    var p := SkipWs(s, 0);
    var w, v := ObjectSound(s, p, 0);
    var q := ScanObject(s, p, 0).value;
    ObjectBrackets(v);
    EmptyWs(s, p, w, Text(v));
    var before, after := s[0..p], s[q..|s|];
    AtSlice(s, 0, p);
    AtSlice(s, q, |s|);
    AtConcat(s, 0, before, Text(v));
    AtConcat(s, 0, before + Text(v), after);
    AtAll(s, before + Text(v) + after);
    assert IsDocument(s, MAX_DEPTH, before, v, after);
  }

  lemma AtAll(s: string, t: string)
    requires At(s, 0, t) && |t| == |s|
    ensures s == t
  {
  }

  lemma DocumentComplete(s: string, before: string, v: Value, after: string)
    requires IsDocument(s, MAX_DEPTH, before, v, after)
    ensures ScanDocument(s)
  {
    hide At, Ws, Good, Depth, ScanValue, ScanObject, Text, SkipWs, Boundary;
    var p := |before|;
    DocumentParts(s, before, v, after);
    ValueAt(s, p, 0, v);
    ObjectIsValue(s, p, 0);
  }

  lemma DocumentParts(s: string, before: string, v: Value, after: string)
    requires Ws(before) && Ws(after) && (v.Object? || v.EmptyObject?) && s == before + Text(v) + after
    ensures var p := |before|; var q := p + |Text(v)|;
            && p < q <= |s| && At(s, p, Text(v)) && SkipWs(s, 0) == p && s[p] == '{' && Boundary(s, q)
            && SkipWs(s, q) == |s|
  {
    hide At, Ws, Text, SkipWs, Boundary;
    var p := |before|;
    var q := p + |Text(v)|;
    AtWhole(s);
    AtConcat(s, 0, before + Text(v), after);
    AtConcat(s, 0, before, Text(v));
    ObjectBrackets(v);
    AtIndex(s, p, Text(v), 0);
    SkipsWs(s, 0, before);
    AfterDocument(s, q, after);
    SkipsWs(s, q, after);
  }

  /** An object of the grammar is accepted exactly when it is not too deep, whichever way it is read. */
  lemma AcceptsByDepth(before: string, v: Value, after: string)
    requires Ws(before) && Ws(after) && (v.Object? || v.EmptyObject?) && Good(v)
    ensures ScanDocument(before + Text(v) + after) <==> Depth(v) <= MAX_DEPTH
  {
    var s := before + Text(v) + after;
    if Depth(v) <= MAX_DEPTH {
      assert IsDocument(s, MAX_DEPTH, before, v, after);
      DocumentComplete(s, before, v, after);
    } else {
      DocumentTooDeep(s, before, v, after);
    }
  }

  lemma DocumentTooDeep(s: string, before: string, v: Value, after: string)
    requires Ws(before) && Ws(after) && v.Object? && Good(v) && Depth(v) > MAX_DEPTH
    requires s == before + Text(v) + after
    ensures !ScanDocument(s)
  {
    hide At, Ws, Good, Depth, ScanValue, ScanObject, Text, SkipWs, Boundary;
    var p := |before|;
    DocumentParts(s, before, v, after);
    NothingBefore(Text(v));
    ValueTooDeep(s, p, 0, [], v);
    ObjectIsValue(s, p, 0);
  }

  lemma NothingBefore(t: string)
    ensures Ws([]) && [] + t == t
  {
  }

  lemma ObjectIsValue(s: string, p: nat, d: nat)
    requires p < |s| && s[p] == '{'
    ensures ScanValue(s, p, d) == ScanObject(s, p, d)
  {
    hide ScanMembers;
  }

  lemma AtWhole(s: string)
    ensures At(s, 0, s)
  {
  }

  lemma ObjectBrackets(v: Value)
    requires v.Object? || v.EmptyObject?
    ensures |Text(v)| > 1 && Text(v)[0] == '{'
  {
  }

  lemma AfterDocument(s: string, q: nat, after: string)
    requires At(s, q, after) && Ws(after) && q + |after| == |s|
    ensures Boundary(s, q)
  {
    if after != [] {
      AtIndex(s, q, after, 0);
    }
  }
}
