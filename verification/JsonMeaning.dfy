/** What a JSON text says: the data of a syntax tree, by sections 3 to 7 of RFC 8259, told apart from any writer. */
module JsonMeaning {
  import opened Payload
  import opened Json
  import opened JsonText
  import JsonUnique

  /** Strings are sequences of character codes; the fields of a record are in the order of the text. */
  datatype Data =
    | Null
    | Truth(b: bool)
    | Quantity(value: real)
    | Characters(codes: seq<nat>)
    | List(items: seq<Data>)
    | Record(entries: seq<Entry>)

  datatype Entry = Entry(key: seq<nat>, value: Data)

  // ----- Numbers -----

  function DigitValue(c: char): nat
    requires IsDigit(c)
  {
    c as nat - '0' as nat
  }

  function Pow10(n: nat): (r: nat)
    ensures r > 0
  {
    if n == 0 then 1 else 10 * Pow10(n - 1)
  }

  predicate AllDigits(s: string) {
    forall i :: 0 <= i < |s| ==> IsDigit(s[i])
  }

  /** Each digit counts as much as its place says. */
  function DigitsValue(s: string): nat
    requires AllDigits(s)
  {
    if s == [] then 0 else DigitValue(s[0]) * Pow10(|s| - 1) + DigitsValue(s[1..])
  }

  function Scale(e: Option<Exponent>): real
    requires e.Some? ==> GoodExponent(e.value)
  {
    if e.None? then 1.0
    else if e.value.sign == "-" then 1.0 / Pow10(DigitsValue(e.value.digits)) as real
    else Pow10(DigitsValue(e.value.digits)) as real
  }

  function NumberValue(v: Value): real
    requires v.Number? && Good(v)
  {
    var fraction := if v.fraction.None? then 0.0
                    else DigitsValue(v.fraction.value) as real / Pow10(|v.fraction.value|) as real;
    var magnitude := (DigitsValue(v.whole) as real + fraction) * Scale(v.exponent);
    if v.negative then -magnitude else magnitude
  }

  // ----- Strings -----

  function HexCode(d: string): nat
    requires |d| == 4 && forall i :: 0 <= i < 4 ==> IsHex(d[i])
  {
    HexValue(d[0]) * 4096 + HexValue(d[1]) * 256 + HexValue(d[2]) * 16 + HexValue(d[3])
  }

  function PieceCode(p: Piece): nat
    requires GoodPiece(p)
  {
    match p
    case Plain(c) => c as nat
    case Short(c) => ShortValue(c)
    case Hex(d) => HexCode(d)
  }

  function PieceCodes(ps: seq<Piece>): seq<nat>
    requires GoodPieces(ps)
  {
    seq(|ps|, i requires 0 <= i < |ps| => PieceCode(ps[i]))
  }

  // ----- Values -----

  function Denote(v: Value): Data
    requires Good(v)
  {
    match v
    case Word(t) => if t == "true" then Truth(true) else if t == "false" then Truth(false) else Null
    case Number(_, _, _, _) => Quantity(NumberValue(v))
    case Str(ps) => Characters(PieceCodes(ps))
    case EmptyArray(_) => List([])
    case Array(items) => List(ItemsData(items))
    case EmptyObject(_) => Record([])
    case Object(members) => Record(MembersData(members))
  }

  function ItemsData(it: Items): seq<Data>
    requires GoodItems(it)
  {
    [Denote(it.value)] + if it.rest.None? then [] else ItemsData(it.rest.value)
  }

  function MembersData(m: Members): seq<Entry>
    requires GoodMembers(m)
  {
    [Entry(PieceCodes(m.key), Denote(m.value))] + if m.rest.None? then [] else MembersData(m.rest.value)
  }

  /** The text is a document, and whoever reads it by the grammar finds `x`. */
  ghost predicate Says(text: string, x: Data) {
    && (exists limit :: ObjectDocument(text, limit))
    && (forall limit, before, v, after :: IsDocument(text, limit, before, v, after) ==> Denote(v) == x)
  }

  /** One reading decides, because there is only one. */
  lemma ReadingDecides(text: string, limit: nat, before: string, v: Value, after: string)
    requires IsDocument(text, limit, before, v, after)
    ensures Says(text, Denote(v))
  {
    hide Good, Depth, Text, Ws, Denote;
    assert ObjectDocument(text, limit);
    forall limit', before', v', after' | IsDocument(text, limit', before', v', after')
      ensures Denote(v') == Denote(v)
    {
      JsonUnique.DocumentUnique(text, limit, before, v, after, limit', before', v', after');
    }
  }

  // ----- What the writers of numbers and strings say -----

  lemma {:induction false} DigitsAppend(s: string, c: char)
    requires AllDigits(s) && IsDigit(c)
    ensures AllDigits(s + [c]) && DigitsValue(s + [c]) == DigitsValue(s) * 10 + DigitValue(c)
    decreases |s|
  {
    if s == [] {
      assert s + [c] == [c] && [c][1..] == s;
    } else {
      DigitsAppend(s[1..], c);
      assert (s + [c])[1..] == s[1..] + [c];
      Shifted(DigitValue(s[0]), Pow10(|s| - 1), DigitsValue(s[1..]), DigitValue(c));
    }
  }

  lemma Shifted(d: nat, place: nat, rest: nat, last: nat)
    ensures d * (10 * place) + (rest * 10 + last) == (d * place + rest) * 10 + last
  {}

  lemma {:induction false} DecimalValue(n: nat)
    ensures AllDigits(Decimal(n)) && DigitsValue(Decimal(n)) == n
    decreases n
  {
    if n < 10 {
      DigitSays(n);
      assert Decimal(n) == [] + [HexDigit(n)];
      DigitsAppend([], HexDigit(n));
    } else {
      DecimalValue(n / 10);
      DigitSays(n % 10);
      DigitsAppend(Decimal(n / 10), HexDigit(n % 10));
    }
  }

  lemma DigitSays(n: nat)
    requires n < 10
    ensures IsDigit(HexDigit(n)) && DigitValue(HexDigit(n)) == n
  {}

  /** A number is written as digits that say this number. */
  lemma DecimalSays(n: nat)
    ensures var v := Number(false, Decimal(n), None, None);
            Good(v) && Denote(v) == Quantity(n as real)
  {
    hide Decimal;
    DecimalIsNumber(n);
    DecimalValue(n);
  }

  lemma EscapeSays(c: char)
    ensures PieceCode(EscapePiece(c)) == c as nat
  {
    if EscapePiece(c).Hex? {
      ControlCode(c);
    }
  }

  lemma StringSays(s: string)
    ensures Good(Str(EscapePieces(s))) && Denote(Str(EscapePieces(s))) == Characters(Codes(s))
  {
    hide EscapePiece, PieceCode;
    forall i | 0 <= i < |s| ensures PieceCodes(EscapePieces(s))[i] == s[i] as nat {
      EscapeSays(s[i]);
    }
    assert PieceCodes(EscapePieces(s)) == Codes(s);
  }

  lemma PlainSays(s: string)
    requires PlainText(s)
    ensures GoodPieces(PlainPieces(s)) && PieceCodes(PlainPieces(s)) == Codes(s)
  {
    assert PieceCodes(PlainPieces(s)) == Codes(s);
  }

  /** The character classes by the codes that RFC 8259 gives for them. */
  lemma ClassesByCode(c: char)
    ensures IsWs(c) <==> c as nat in {0x20, 0x09, 0x0A, 0x0D}
    ensures IsDigit(c) <==> 0x30 <= c as nat <= 0x39
    ensures IsHex(c) <==> 0x30 <= c as nat <= 0x39 || 0x41 <= c as nat <= 0x46 || 0x61 <= c as nat <= 0x66
    ensures GoodPiece(Plain(c)) <==> c as nat >= 0x20 && c as nat !in {0x22, 0x5C}
    ensures IsShortEscape(c) <==> c as nat in {0x22, 0x5C, 0x2F, 0x62, 0x66, 0x6E, 0x72, 0x74}
    ensures IsShortEscape(c) ==>
              PieceCode(Short(c)) == match c as nat case 0x62 => 0x08 case 0x66 => 0x0C case 0x6E => 0x0A
                                     case 0x72 => 0x0D case 0x74 => 0x09 case code => code
  {}

  /** Every code of 16 bits has an escape in digits of either case, and it says that code. */
  lemma HexSaysEveryCode(n: nat, upper: bool)
    requires n < 0x1_0000
    ensures var table := if upper then "0123456789ABCDEF" else "0123456789abcdef";
            var p := Hex([table[n / 4096], table[n / 256 % 16], table[n / 16 % 16], table[n % 16]]);
            GoodPiece(p) && PieceCode(p) == n
  {
    hide HexValue, IsHex;
    TableDigit(n / 4096, upper);
    TableDigit(n / 256 % 16, upper);
    TableDigit(n / 16 % 16, upper);
    TableDigit(n % 16, upper);
    FourDigits(n);
  }

  lemma TableDigit(d: nat, upper: bool)
    requires d < 16
    ensures var c := (if upper then "0123456789ABCDEF" else "0123456789abcdef")[d];
            IsHex(c) && HexValue(c) == d
  {}

  lemma FourDigits(n: nat)
    ensures n == n / 4096 * 4096 + n / 256 % 16 * 256 + n / 16 % 16 * 16 + n % 16
  {
    assert n == n / 16 * 16 + n % 16;
    assert n / 16 == n / 256 * 16 + n / 16 % 16;
    assert n / 256 == n / 4096 * 16 + n / 256 % 16;
  }

  /** Reading the characters between the quotes one by one gives the same codes. */
  lemma {:induction false} UnescapeAgrees(ps: seq<Piece>)
    requires GoodPieces(ps)
    ensures Unescape(PiecesText(ps)) == Some(PieceCodes(ps))
    decreases |ps|
  {
    hide PieceText, PieceCode;
    if ps == [] {
      assert PieceCodes(ps) == [];
    } else {
      UnescapeAgrees(ps[1..]);
      UnescapePiece(ps[0], PiecesText(ps[1..]));
      assert PieceCodes(ps) == [PieceCode(ps[0])] + PieceCodes(ps[1..]);
    }
  }

  lemma UnescapePiece(p: Piece, rest: string)
    requires GoodPiece(p) && Unescape(rest).Some?
    ensures Unescape(PieceText(p) + rest) == Some([PieceCode(p)] + Unescape(rest).value)
  {
    match p
    case Plain(c) => UnescapePlain(c, rest);
    case Short(c) => UnescapeShort(c, rest);
    case Hex(d) =>
      var s := PieceText(p) + rest;
      assert s[6..] == rest && s[2..6] == d;
      assert !IsShortEscape('u') && HexAt(s, 2);
  }

  // ----- What a record written field by field says -----

  /** The text of a field says `x`. */
  ghost predicate FieldSays(f: Field, x: Data) {
    exists e :: Reads(f, e) && Denote(e.value) == x
  }

  ghost function Witness(f: Field, x: Data): (e: Spaced)
    requires FieldSays(f, x)
    ensures Reads(f, e) && Good(e.value) && Denote(e.value) == x
  {
    var e :| Reads(f, e) && Denote(e.value) == x;
    e
  }

  function Entries(fields: seq<Field>, xs: seq<Data>): seq<Entry>
    requires |fields| == |xs|
  {
    seq(|fields|, i requires 0 <= i < |fields| => Entry(Codes(fields[i].key), xs[i]))
  }

  ghost predicate FieldsSay(fields: seq<Field>, xs: seq<Data>) {
    |fields| == |xs| && forall i :: 0 <= i < |fields| ==> FieldSays(fields[i], xs[i])
  }

  lemma {:induction false} TreeSays(style: Style, before: string, fields: seq<Field>, es: seq<Spaced>, xs: seq<Data>)
    requires ReadsAll(fields, es) && fields != [] && GoodStyle(style) && Ws(before) && |xs| == |fields|
    requires forall i :: 0 <= i < |fields| ==> Good(es[i].value) && Denote(es[i].value) == xs[i]
    ensures GoodMembers(Tree(style, before, fields, es))
    ensures MembersData(Tree(style, before, fields, es)) == Entries(fields, xs)
    decreases |fields|
  {
    hide Good, Denote, Ws, PlainText, GoodPieces, PieceCodes;
    TreeIsGood(style, before, fields, es);
    assert Reads(fields[0], es[0]);
    PlainSays(fields[0].key);
    if |fields| > 1 {
      TreeSays(style, style.next, fields[1..], es[1..], xs[1..]);
      assert Entries(fields, xs) == [Entry(Codes(fields[0].key), xs[0])] + Entries(fields[1..], xs[1..]);
    } else {
      assert Entries(fields, xs) == [Entry(Codes(fields[0].key), xs[0])];
    }
  }

  /** An object written field by field says each field's data under its key, in order, and nothing more. */
  lemma ObjectSays(style: Style, fields: seq<Field>, xs: seq<Data>) returns (v: Value)
    requires FieldsSay(fields, xs) && fields != [] && GoodStyle(style)
    ensures v.Object? && Good(v) && Text(v) == ObjectText(style, fields) && Denote(v) == Record(Entries(fields, xs))
  {
    hide FieldSays, Reads, Good, Denote, GoodStyle, Ws, Tree;
    var es := seq(|fields|, i requires 0 <= i < |fields| => Witness(fields[i], xs[i]));
    ObjectTree(style, fields, es, xs);
    v := Object(Tree(style, style.first, fields, es));
  }

  lemma ObjectTree(style: Style, fields: seq<Field>, es: seq<Spaced>, xs: seq<Data>)
    requires ReadsAll(fields, es) && fields != [] && GoodStyle(style) && |xs| == |fields|
    requires forall i :: 0 <= i < |fields| ==> Good(es[i].value) && Denote(es[i].value) == xs[i]
    ensures var v := Object(Tree(style, style.first, fields, es));
            Good(v) && Text(v) == ObjectText(style, fields) && Denote(v) == Record(Entries(fields, xs))
  {
    hide Tree, Reads;
    TreeText(style, style.first, fields, es);
    TreeSays(style, style.first, fields, es, xs);
  }

  // ----- Finding a field -----

  /** The value under the first entry with the key. */
  function Find(entries: seq<Entry>, key: seq<nat>): Option<Data> {
    if entries == [] then None
    else if entries[0].key == key then Some(entries[0].value)
    else Find(entries[1..], key)
  }

  predicate DistinctKeys(entries: seq<Entry>) {
    forall i, j :: 0 <= i < j < |entries| ==> entries[i].key != entries[j].key
  }

  lemma {:induction false} Finds(entries: seq<Entry>, i: nat)
    requires DistinctKeys(entries) && i < |entries|
    ensures Find(entries, entries[i].key) == Some(entries[i].value)
    decreases |entries|
  {
    if i > 0 {
      assert entries[i] == entries[1..][i - 1];
      Finds(entries[1..], i - 1);
    }
  }
}
