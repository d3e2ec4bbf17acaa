/** JSON objects: the grammar of sections 2 and 4 to 7 of RFC 8259 as concrete syntax trees, and the
    recogniser of pipeline_common.cc. A `char` stands for one byte. */
module Json {
  import opened Payload

  const MAX_DEPTH: nat := 64

  // ----- The grammar -----

  predicate IsWs(c: char) {
    c == ' ' || c == '\t' || c == '\n' || c == '\r'
  }

  predicate IsDigit(c: char) {
    '0' <= c <= '9'
  }

  predicate IsHex(c: char) {
    '0' <= c <= '9' || 'a' <= c <= 'f' || 'A' <= c <= 'F'
  }

  predicate IsShortEscape(c: char) {
    c == '"' || c == '\\' || c == '/' || c == 'b' || c == 'f' || c == 'n' || c == 'r' || c == 't'
  }

  predicate Ws(s: string) {
    forall i :: 0 <= i < |s| ==> IsWs(s[i])
  }

  predicate Digits(s: string) {
    s != [] && forall i :: 0 <= i < |s| ==> IsDigit(s[i])
  }

  datatype Piece = Plain(c: char) | Short(c: char) | Hex(digits: string)

  datatype Exponent = Exponent(mark: char, sign: string, digits: string)

  datatype Value =
    | Word(text: string)
    | Number(negative: bool, whole: string, fraction: Option<string>, exponent: Option<Exponent>)
    | Str(pieces: seq<Piece>)
    | EmptyArray(inner: string)
    | Array(items: Items)
    | EmptyObject(inner: string)
    | Object(members: Members)

  /** A value with the white space around it, and the items after the next comma. */
  datatype Items = Items(before: string, value: Value, after: string, rest: Option<Items>)

  datatype Members = Members(beforeKey: string, key: seq<Piece>, afterKey: string, before: string, value: Value,
                             after: string, rest: Option<Members>)

  predicate GoodPiece(p: Piece) {
    match p
    case Plain(c) => c >= ' ' && c != '"' && c != '\\'
    case Short(c) => IsShortEscape(c)
    case Hex(d) => |d| == 4 && forall i :: 0 <= i < 4 ==> IsHex(d[i])
  }

  predicate GoodPieces(ps: seq<Piece>) {
    forall i :: 0 <= i < |ps| ==> GoodPiece(ps[i])
  }

  predicate GoodExponent(e: Exponent) {
    (e.mark == 'e' || e.mark == 'E') && (e.sign == "" || e.sign == "+" || e.sign == "-") && Digits(e.digits)
  }

  predicate GoodWhole(w: string) {
    Digits(w) && (w[0] == '0' ==> |w| == 1)
  }

  predicate Good(v: Value) {
    match v
    case Word(t) => t == "true" || t == "false" || t == "null"
    case Number(_, w, f, e) => GoodWhole(w) && (f.Some? ==> Digits(f.value)) && (e.Some? ==> GoodExponent(e.value))
    case Str(ps) => GoodPieces(ps)
    case EmptyArray(w) => Ws(w)
    case Array(items) => GoodItems(items)
    case EmptyObject(w) => Ws(w)
    case Object(members) => GoodMembers(members)
  }

  predicate GoodItems(it: Items) {
    Ws(it.before) && Good(it.value) && Ws(it.after) && (it.rest.Some? ==> GoodItems(it.rest.value))
  }

  predicate GoodMembers(m: Members) {
    && Ws(m.beforeKey) && GoodPieces(m.key) && Ws(m.afterKey) && Ws(m.before) && Good(m.value) && Ws(m.after)
    && (m.rest.Some? ==> GoodMembers(m.rest.value))
  }

  function PieceText(p: Piece): string {
    match p
    case Plain(c) => [c]
    case Short(c) => ['\\', c]
    case Hex(d) => ['\\', 'u'] + d
  }

  function PiecesText(ps: seq<Piece>): string {
    if ps == [] then [] else PieceText(ps[0]) + PiecesText(ps[1..])
  }

  function Quoted(ps: seq<Piece>): string {
    ['"'] + PiecesText(ps) + ['"']
  }

  function FractionText(f: Option<string>): string {
    if f.None? then [] else ['.'] + f.value
  }

  function ExponentText(e: Option<Exponent>): string {
    if e.None? then [] else [e.value.mark] + e.value.sign + e.value.digits
  }

  function Text(v: Value): string {
    match v
    case Word(t) => t
    case Number(n, w, f, e) => (if n then ['-'] else []) + w + FractionText(f) + ExponentText(e)
    case Str(ps) => Quoted(ps)
    case EmptyArray(w) => ['['] + w + [']']
    case Array(items) => ['['] + ItemsText(items) + [']']
    case EmptyObject(w) => ['{'] + w + ['}']
    case Object(members) => ['{'] + MembersText(members) + ['}']
  }

  function ItemsText(it: Items): string {
    it.before + Text(it.value) + it.after + if it.rest.None? then [] else [','] + ItemsText(it.rest.value)
  }

  function MembersText(m: Members): string
    decreases m, 1
  {
    m.beforeKey + Quoted(m.key) + m.afterKey + [':'] + m.before + Text(m.value) + m.after
    + if m.rest.None? then [] else [','] + MembersText(m.rest.value)
  }

  /** How deep values nest inside a value. */
  function Depth(v: Value): nat {
    match v
    case Array(items) => 1 + ItemsDepth(items)
    case Object(members) => 1 + MembersDepth(members)
    case _ => 0
  }

  function Max(a: nat, b: nat): nat {
    if a < b then b else a
  }

  function ItemsDepth(it: Items): nat {
    Max(Depth(it.value), if it.rest.None? then 0 else ItemsDepth(it.rest.value))
  }

  function MembersDepth(m: Members): nat {
    Max(Depth(m.value), if m.rest.None? then 0 else MembersDepth(m.rest.value))
  }

  /** A JSON text that is one object nesting no deeper than `limit`. */
  ghost predicate ObjectDocument(s: string, limit: nat) {
    exists before, v, after :: IsDocument(s, limit, before, v, after)
  }

  ghost predicate IsDocument(s: string, limit: nat, before: string, v: Value, after: string) {
    && Ws(before) && Ws(after) && (v.Object? || v.EmptyObject?) && Good(v) && Depth(v) <= limit
    && s == before + Text(v) + after
  }

  // ----- The recogniser, as functions from a position to the position after what was recognised -----

  function SkipWs(s: string, p: nat): (q: nat)
    requires p <= |s|
    ensures p <= q <= |s| && Ws(s[p..q]) && (q < |s| ==> !IsWs(s[q]))
    decreases |s| - p
  {
    if p < |s| && IsWs(s[p]) then
      var q := SkipWs(s, p + 1);
      assert s[p..q] == [s[p]] + s[p + 1..q];
      q
    else p
  }

  function ScanDigits(s: string, p: nat): (q: nat)
    requires p <= |s|
    ensures p <= q <= |s| && (forall i :: p <= i < q ==> IsDigit(s[i])) && (q < |s| ==> !IsDigit(s[q]))
    decreases |s| - p
  {
    if p < |s| && IsDigit(s[p]) then ScanDigits(s, p + 1) else p
  }

  predicate HexAt(s: string, p: nat)
    requires p + 4 <= |s|
  {
    IsHex(s[p]) && IsHex(s[p + 1]) && IsHex(s[p + 2]) && IsHex(s[p + 3])
  }

  /** From inside a string to just behind its closing quote. */
  function ScanChars(s: string, p: nat): (r: Option<nat>)
    requires p <= |s|
    ensures r.Some? ==> p < r.value <= |s|
    decreases |s| - p
  {
    if p >= |s| then None
    else if s[p] == '"' then Some(p + 1)
    else if s[p] < ' ' then None
    else if s[p] != '\\' then ScanChars(s, p + 1)
    else if p + 1 >= |s| then None
    else if IsShortEscape(s[p + 1]) then ScanChars(s, p + 2)
    else if s[p + 1] != 'u' || p + 6 > |s| || !HexAt(s, p + 2) then None
    else ScanChars(s, p + 6)
  }

  function ScanString(s: string, p: nat): (r: Option<nat>)
    requires p <= |s|
    ensures r.Some? ==> p < r.value <= |s|
  {
    var q := SkipWs(s, p);
    if q >= |s| || s[q] != '"' then None else ScanChars(s, q + 1)
  }

  function ScanWhole(s: string, p: nat): (r: Option<nat>)
    requires p <= |s|
    ensures r.Some? ==> p < r.value <= |s|
  {
    if p >= |s| then None
    else if s[p] == '0' then (if p + 1 < |s| && IsDigit(s[p + 1]) then None else Some(p + 1))
    else if !IsDigit(s[p]) then None
    else Some(ScanDigits(s, p))
  }

  function ScanFraction(s: string, p: nat): (r: Option<nat>)
    requires p <= |s|
    ensures r.Some? ==> p <= r.value <= |s|
  {
    if p < |s| && s[p] == '.' then
      var q := ScanDigits(s, p + 1);
      if q == p + 1 then None else Some(q)
    else Some(p)
  }

  function ScanExponent(s: string, p: nat): (r: Option<nat>)
    requires p <= |s|
    ensures r.Some? ==> p <= r.value <= |s|
  {
    if p < |s| && (s[p] == 'e' || s[p] == 'E') then
      var q := if p + 1 < |s| && (s[p + 1] == '+' || s[p + 1] == '-') then p + 2 else p + 1;
      var r := ScanDigits(s, q);
      if r == q then None else Some(r)
    else Some(p)
  }

  function ScanNumber(s: string, p: nat): (r: Option<nat>)
    requires p <= |s|
    ensures r.Some? ==> p < r.value <= |s|
  {
    var whole :- ScanWhole(s, if p < |s| && s[p] == '-' then p + 1 else p);
    var fraction :- ScanFraction(s, whole);
    ScanExponent(s, fraction)
  }

  function ScanWord(s: string, p: nat, word: string): (r: Option<nat>)
    requires p <= |s| && word != []
    ensures r.Some? ==> p < r.value <= |s|
  {
    if p + |word| <= |s| && s[p..p + |word|] == word then Some(p + |word|) else None
  }

  function ScanValue(s: string, p: nat, depth: nat): (r: Option<nat>)
    requires p <= |s|
    ensures r.Some? ==> p < r.value <= |s|
    decreases |s| - p, 2
  {
    if depth > MAX_DEPTH then None
    else
      var q := SkipWs(s, p);
      if q >= |s| then None
      else if s[q] == '{' then ScanObject(s, q, depth)
      else if s[q] == '[' then ScanArray(s, q, depth)
      else if s[q] == '"' then ScanString(s, q)
      else if s[q] == 't' then ScanWord(s, q, "true")
      else if s[q] == 'f' then ScanWord(s, q, "false")
      else if s[q] == 'n' then ScanWord(s, q, "null")
      else ScanNumber(s, q)
  }

  function ScanObject(s: string, p: nat, depth: nat): (r: Option<nat>)
    requires p <= |s|
    ensures r.Some? ==> p < r.value <= |s|
    decreases |s| - p, 1
  {
    var q := SkipWs(s, p);
    if depth > MAX_DEPTH || q >= |s| || s[q] != '{' then None
    else
      var inner := SkipWs(s, q + 1);
      if inner < |s| && s[inner] == '}' then Some(inner + 1) else ScanMembers(s, inner, depth)
  }

  function ScanMembers(s: string, p: nat, depth: nat): (r: Option<nat>)
    requires p <= |s|
    ensures r.Some? ==> p < r.value <= |s|
    decreases |s| - p, 0
  {
    var key :- ScanString(s, p);
    var colon := SkipWs(s, key);
    if colon >= |s| || s[colon] != ':' then None
    else
      var value :- ScanValue(s, colon + 1, depth + 1);
      var next := SkipWs(s, value);
      if next >= |s| then None
      else if s[next] == '}' then Some(next + 1)
      else if s[next] != ',' then None
      else ScanMembers(s, next + 1, depth)
  }

  /** One member up to the end of its value. */
  function ScanMember(s: string, p: nat, depth: nat): (r: Option<nat>)
    requires p <= |s|
    ensures r.Some? ==> p < r.value <= |s|
  {
    var key :- ScanString(s, p);
    var colon := SkipWs(s, key);
    if colon >= |s| || s[colon] != ':' then None else ScanValue(s, colon + 1, depth + 1)
  }

  function ScanArray(s: string, p: nat, depth: nat): (r: Option<nat>)
    requires p <= |s|
    ensures r.Some? ==> p < r.value <= |s|
    decreases |s| - p, 1
  {
    var q := SkipWs(s, p);
    if depth > MAX_DEPTH || q >= |s| || s[q] != '[' then None
    else
      var inner := SkipWs(s, q + 1);
      if inner < |s| && s[inner] == ']' then Some(inner + 1) else ScanItems(s, inner, depth)
  }

  function ScanItems(s: string, p: nat, depth: nat): (r: Option<nat>)
    requires p <= |s|
    ensures r.Some? ==> p < r.value <= |s|
    decreases |s| - p, 3
  {
    var value :- ScanValue(s, p, depth + 1);
    var next := SkipWs(s, value);
    if next >= |s| then None
    else if s[next] == ']' then Some(next + 1)
    else if s[next] != ',' then None
    else ScanItems(s, next + 1, depth)
  }

  function ScanDocument(s: string): bool {
    var r := ScanObject(s, SkipWs(s, 0), 0);
    r.Some? && SkipWs(s, r.value) == |s|
  }
}
