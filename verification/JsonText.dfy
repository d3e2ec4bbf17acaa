/** Writing JSON: escaped strings, decimal numbers and objects laid out field by field. */
module JsonText {
  import opened Payload
  import opened Json
  import opened JsonGrammar

  // ----- Escaping -----

  function HexDigit(n: nat): char
    requires n < 16
  {
    "0123456789abcdef"[n]
  }

  function EscapePiece(c: char): (p: Piece)
    ensures GoodPiece(p)
  {
    if c == '"' || c == '\\' then Short(c)
    else if c == '\U{0008}' then Short('b')
    else if c == '\U{000C}' then Short('f')
    else if c == '\n' then Short('n')
    else if c == '\r' then Short('r')
    else if c == '\t' then Short('t')
    else if c < ' ' then Hex(['0', '0', HexDigit(c as nat / 16), HexDigit(c as nat % 16)])
    else Plain(c)
  }

  function EscapePieces(s: string): (ps: seq<Piece>)
    ensures |ps| == |s| && GoodPieces(ps)
  {
    seq(|s|, i requires 0 <= i < |s| => EscapePiece(s[i]))
  }

  function HexValue(c: char): nat
    requires IsHex(c)
  {
    if c <= '9' then c as nat - '0' as nat
    else if c <= 'F' then c as nat - 'A' as nat + 10
    else c as nat - 'a' as nat + 10
  }

  function ShortValue(c: char): nat
    requires IsShortEscape(c)
  {
    match c
    case 'b' => 8
    case 'f' => 12
    case 'n' => 10
    case 'r' => 13
    case 't' => 9
    case _ => c as nat
  }

  /** What the characters between two quotes stand for, by section 7 of RFC 8259. */
  function Unescape(s: string): Option<seq<nat>> {
    if s == [] then Some([])
    else if s[0] != '\\' then
      var rest :- Unescape(s[1..]);
      Some([s[0] as nat] + rest)
    else if |s| >= 2 && IsShortEscape(s[1]) then
      var rest :- Unescape(s[2..]);
      Some([ShortValue(s[1])] + rest)
    else if |s| >= 6 && s[1] == 'u' && HexAt(s, 2) then
      var rest :- Unescape(s[6..]);
      Some([HexValue(s[2]) * 4096 + HexValue(s[3]) * 256 + HexValue(s[4]) * 16 + HexValue(s[5])] + rest)
    else None
  }

  function Codes(s: string): seq<nat> {
    seq(|s|, i requires 0 <= i < |s| => s[i] as nat)
  }

  lemma UnescapePlain(c: char, rest: string)
    requires c != '\\' && Unescape(rest).Some?
    ensures Unescape([c] + rest) == Some([c as nat] + Unescape(rest).value)
  {
    assert ([c] + rest)[1..] == rest;
  }

  lemma UnescapeShort(c: char, rest: string)
    requires IsShortEscape(c) && Unescape(rest).Some?
    ensures Unescape(['\\', c] + rest) == Some([ShortValue(c)] + Unescape(rest).value)
  {
    assert (['\\', c] + rest)[2..] == rest;
  }

  lemma UnescapeControl(c: char, rest: string)
    requires c < ' ' && Unescape(rest).Some?
    ensures Unescape(['\\', 'u', '0', '0', HexDigit(c as nat / 16), HexDigit(c as nat % 16)] + rest)
            == Some([c as nat] + Unescape(rest).value)
  {
    hide HexDigit, HexValue;
    ControlCode(c);
    var text := ['\\', 'u', '0', '0', HexDigit(c as nat / 16), HexDigit(c as nat % 16)];
    assert (text + rest)[6..] == rest;
    assert !IsShortEscape('u') && HexAt(text + rest, 2);
  }

  lemma UnescapeOne(c: char, rest: string)
    requires Unescape(rest).Some?
    ensures Unescape(PieceText(EscapePiece(c)) + rest) == Some([c as nat] + Unescape(rest).value)
  {
    hide Unescape, HexDigit;
    match EscapePiece(c)
    case Plain(_) => UnescapePlain(c, rest);
    case Short(e) => UnescapeShort(e, rest);
    case Hex(d) =>
      UnescapeControl(c, rest);
      assert ['\\', 'u'] + d == ['\\', 'u', '0', '0', HexDigit(c as nat / 16), HexDigit(c as nat % 16)];
  }

  lemma ControlCode(c: char)
    requires c < ' '
    ensures IsHex('0') && HexValue('0') == 0
    ensures var hi, lo := HexDigit(c as nat / 16), HexDigit(c as nat % 16);
            IsHex(hi) && IsHex(lo) && HexValue(hi) * 16 + HexValue(lo) == c as nat
  {
    HexDigitValue(c as nat / 16);
    HexDigitValue(c as nat % 16);
  }

  lemma HexDigitValue(n: nat)
    requires n < 16
    ensures IsHex(HexDigit(n)) && HexValue(HexDigit(n)) == n
  {
  }

  lemma {:induction false} UnescapeInverts(s: string)
    ensures Unescape(PiecesText(EscapePieces(s))) == Some(Codes(s))
    decreases |s|
  {
    hide EscapePiece, PieceText;
    if s != [] {
      UnescapeInverts(s[1..]);
      assert EscapePieces(s)[1..] == EscapePieces(s[1..]);
      UnescapeOne(s[0], PiecesText(EscapePieces(s[1..])));
      assert Codes(s) == [s[0] as nat] + Codes(s[1..]);
    } else {
      assert Codes(s) == [];
    }
  }

  lemma {:induction false} PiecesTextConcat(a: seq<Piece>, b: seq<Piece>)
    ensures PiecesText(a + b) == PiecesText(a) + PiecesText(b)
    decreases |a|
  {
    if a == [] {
      assert a + b == b;
    } else {
      assert (a + b)[1..] == a[1..] + b;
      PiecesTextConcat(a[1..], b);
    }
  }

  lemma EscapeStep(s: string, i: nat)
    requires i < |s|
    ensures PiecesText(EscapePieces(s[..i + 1])) == PiecesText(EscapePieces(s[..i])) + PieceText(EscapePiece(s[i]))
  {
    hide EscapePiece, PieceText;
    var piece := EscapePiece(s[i]);
    assert EscapePieces(s[..i + 1]) == EscapePieces(s[..i]) + [piece];
    PiecesTextConcat(EscapePieces(s[..i]), [piece]);
    assert PiecesText([piece]) == PieceText(piece);
  }

  lemma NoPieces()
    ensures forall s: string :: PiecesText(EscapePieces(s[..0])) == []
  {
  }

  /** The output is the inside of a JSON string that stands for the input. */
  method JsonEscape(input: string) returns (output: string)
    ensures output == PiecesText(EscapePieces(input))
    ensures ScanString(['"'] + output + ['"'], 0) == Some(|output| + 2)
    ensures Unescape(output) == Some(Codes(input))
  {
    hide EscapePiece, EscapePieces, PiecesText, PieceText, ScanString, Unescape, Codes;
    output := [];
    NoPieces();
    for i := 0 to |input|
      invariant output == PiecesText(EscapePieces(input[..i]))
    {
      EscapeStep(input, i);
      output := output + PieceText(EscapePiece(input[i]));
    }
    assert input[..|input|] == input;
    UnescapeInverts(input);
    EscapedIsString(EscapePieces(input));
  }

  lemma EscapedIsString(ps: seq<Piece>)
    requires GoodPieces(ps)
    ensures ScanString(Quoted(ps), 0) == Some(|Quoted(ps)|)
  {
    hide PiecesText, ScanString, GoodPieces;
    var s := Quoted(ps);
    assert At(s, 0, [] + s);
    StringComplete(s, 0, [], ps);
  }

  // ----- Numbers and plain text -----

  function Decimal(n: nat): (s: string)
    ensures Digits(s) && (n > 0 ==> s[0] != '0') && (n < 10 ==> |s| == 1)
  {
    if n < 10 then [HexDigit(n)] else Decimal(n / 10) + [HexDigit(n % 10)]
  }

  lemma DecimalIsNumber(n: nat)
    ensures Good(Number(false, Decimal(n), None, None)) && Text(Number(false, Decimal(n), None, None)) == Decimal(n)
  {
  }

  predicate PlainChar(c: char) {
    c >= ' ' && c != '"' && c != '\\'
  }

  predicate PlainText(s: string) {
    forall i :: 0 <= i < |s| ==> PlainChar(s[i])
  }

  function PlainPieces(s: string): (ps: seq<Piece>)
    ensures |ps| == |s| && (PlainText(s) ==> GoodPieces(ps))
  {
    seq(|s|, i requires 0 <= i < |s| => Plain(s[i]))
  }

  lemma {:induction false} PlainPiecesText(s: string)
    ensures PiecesText(PlainPieces(s)) == s
    decreases |s|
  {
    if s != [] {
      assert PlainPieces(s)[1..] == PlainPieces(s[1..]);
      PlainPiecesText(s[1..]);
    }
  }

  // ----- Objects -----

  datatype Field = Field(key: string, text: string)

  /** White space before the first key, before every other key, after a colon and before the end. */
  datatype Style = Style(first: string, next: string, colon: string, last: string)

  predicate GoodStyle(style: Style) {
    Ws(style.first) && Ws(style.next) && Ws(style.colon) && Ws(style.last)
  }

  function FieldsText(style: Style, before: string, fields: seq<Field>): string
    requires fields != []
    decreases |fields|
  {
    before + ['"'] + fields[0].key + ['"'] + [':'] + style.colon + fields[0].text
    + if |fields| == 1 then style.last else [','] + FieldsText(style, style.next, fields[1..])
  }

  function ObjectText(style: Style, fields: seq<Field>): string
    requires fields != []
  {
    ['{'] + FieldsText(style, style.first, fields) + ['}']
  }

  /** A value inside white space. */
  datatype Spaced = Spaced(before: string, value: Value, after: string)

  function SpacedText(e: Spaced): string {
    e.before + Text(e.value) + e.after
  }

  predicate GoodSpaced(e: Spaced) {
    Ws(e.before) && Good(e.value) && Ws(e.after)
  }

  ghost predicate Reads(f: Field, e: Spaced) {
    PlainText(f.key) && GoodSpaced(e) && f.text == SpacedText(e)
  }

  ghost predicate ReadsAll(fields: seq<Field>, es: seq<Spaced>) {
    |fields| == |es| && forall i :: 0 <= i < |fields| ==> Reads(fields[i], es[i])
  }

  ghost function Tree(style: Style, before: string, fields: seq<Field>, es: seq<Spaced>): Members
    requires |fields| == |es| > 0
    decreases |fields|
  {
    Members(before, PlainPieces(fields[0].key), [], style.colon + es[0].before, es[0].value,
            es[0].after + (if |fields| == 1 then style.last else []),
            if |fields| == 1 then None else Some(Tree(style, style.next, fields[1..], es[1..])))
  }

  ghost function Deepest(es: seq<Spaced>): nat {
    if es == [] then 0 else Max(Depth(es[0].value), Deepest(es[1..]))
  }

  lemma WsConcat(a: string, b: string)
    requires Ws(a) && Ws(b)
    ensures Ws(a + b)
  {
  }

  lemma {:induction false} TreeIsGood(style: Style, before: string, fields: seq<Field>, es: seq<Spaced>)
    requires ReadsAll(fields, es) && fields != [] && GoodStyle(style) && Ws(before)
    ensures GoodMembers(Tree(style, before, fields, es))
    ensures MembersDepth(Tree(style, before, fields, es)) == Deepest(es)
    decreases |fields|
  {
    hide Good, Depth, Ws, PlainText, GoodPieces;
    assert Reads(fields[0], es[0]);
    WsConcat(style.colon, es[0].before);
    WsEmpty();
    WsConcat(es[0].after, if |fields| == 1 then style.last else []);
    if |fields| > 1 {
      TreeIsGood(style, style.next, fields[1..], es[1..]);
    } else {
      assert Deepest(es[1..]) == 0;
    }
  }

  lemma WsEmpty()
    ensures Ws([])
  {
  }

  lemma {:induction false} TreeText(style: Style, before: string, fields: seq<Field>, es: seq<Spaced>)
    requires ReadsAll(fields, es) && fields != []
    ensures MembersText(Tree(style, before, fields, es)) == FieldsText(style, before, fields)
    decreases |fields|
  {
    hide Good, Text, PlainText, Ws;
    assert Reads(fields[0], es[0]);
    PlainPiecesText(fields[0].key);
    if |fields| > 1 {
      TreeText(style, style.next, fields[1..], es[1..]);
      var rest := [','] + FieldsText(style, style.next, fields[1..]);
      FirstMember(before, fields[0].key, style.colon, es[0].before, Text(es[0].value), es[0].after, [], rest);
    } else {
      FirstMember(before, fields[0].key, style.colon, es[0].before, Text(es[0].value), es[0].after, style.last, []);
    }
  }

  lemma FirstMember(before: string, key: string, colon: string, eb: string, v: string, ea: string, last: string,
                    rest: string)
    ensures before + (['"'] + key + ['"']) + [] + [':'] + (colon + eb) + v + (ea + last) + rest
            == before + ['"'] + key + ['"'] + [':'] + colon + (eb + v + ea) + (last + rest)
    ensures last + [] == last && [] + rest == rest
  {
    var q: string := before + ['"'] + key + ['"'];
    assert before + (['"'] + key + ['"']) + [] == q;
    assert q + [':'] + (colon + eb) + v + (ea + last) + rest == q + [':'] + colon + (eb + v + ea) + (last + rest);
  }

  /** An object written field by field is an object of the grammar, one level deeper than its deepest value. */
  lemma ObjectTextReads(style: Style, fields: seq<Field>, es: seq<Spaced>) returns (v: Value)
    requires ReadsAll(fields, es) && fields != [] && GoodStyle(style)
    ensures v.Object? && Good(v) && Text(v) == ObjectText(style, fields) && Depth(v) == 1 + Deepest(es)
  {
    var m := Tree(style, style.first, fields, es);
    TreeIsGood(style, style.first, fields, es);
    TreeText(style, style.first, fields, es);
    v := Object(m);
  }
}
