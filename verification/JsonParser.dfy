/** The parser that checks backend details before they are embedded in a result. */
module JsonParsing {
  import opened Payload
  import opened Json
  import JsonTheorems

  class JsonParser {
    const input: string
    var position: nat

    constructor (text: string)
      ensures input == text && position == 0
    {
      input := text;
      position := 0;
    }

    /** Accepts exactly the texts that are one JSON object nesting no deeper than the bound. */
    method ParseObjectDocument() returns (ok: bool)
      requires position == 0
      modifies this`position
      ensures ok <==> ObjectDocument(input, MAX_DEPTH)
    {
      hide ObjectDocument, ScanObject, SkipWs;
      JsonTheorems.AcceptsExactlyObjects(input);
      SkipWhitespace();
      ok := ParseObject(0);
      if !ok {
        return;
      }
      SkipWhitespace();
      ok := position == |input|;
    }

    method SkipWhitespace()
      requires position <= |input|
      modifies this`position
      ensures position == SkipWs(input, old(position))
    {
      while position < |input|
        invariant old(position) <= position <= |input| && SkipWs(input, position) == SkipWs(input, old(position))
      {
        if !IsWs(input[position]) {
          break;
        }
        position := position + 1;
      }
    }

    method Consume(expected: char) returns (ok: bool)
      requires position <= |input|
      modifies this`position
      ensures var q := SkipWs(input, old(position));
              ok == (q < |input| && input[q] == expected) && position == if ok then q + 1 else q
    {
      SkipWhitespace();
      if position >= |input| || input[position] != expected {
        return false;
      }
      position := position + 1;
      return true;
    }

    method ParseValue(depth: nat) returns (ok: bool)
      requires position <= |input|
      modifies this`position
      ensures position <= |input| && ok == ScanValue(input, old(position), depth).Some?
      ensures ok ==> position == ScanValue(input, old(position), depth).value
      decreases |input| - position, 2
    {
      hide SkipWs, ScanObject, ScanArray, ScanString, ScanWord, ScanNumber;
      if depth > MAX_DEPTH {
        return false;
      }
      SkipWhitespace();
      if position >= |input| {
        return false;
      }
      if input[position] == '{' {
        ok := ParseObject(depth);
      } else if input[position] == '[' {
        ok := ParseArray(depth);
      } else if input[position] == '"' {
        ok := ParseString();
      } else if input[position] == 't' {
        ok := ParseLiteral("true");
      } else if input[position] == 'f' {
        ok := ParseLiteral("false");
      } else if input[position] == 'n' {
        ok := ParseLiteral("null");
      } else {
        ok := ParseNumber();
      }
    }

    method ParseObject(depth: nat) returns (ok: bool)
      requires position <= |input|
      modifies this`position
      ensures position <= |input| && ok == ScanObject(input, old(position), depth).Some?
      ensures ok ==> position == ScanObject(input, old(position), depth).value
      decreases |input| - position, 1
    {
      hide SkipWs, ScanString, ScanValue;
      if depth > MAX_DEPTH {
        return false;
      }
      ok := Consume('{');
      if !ok {
        return;
      }
      SkipWhitespace();
      if position < |input| && input[position] == '}' {
        position := position + 1;
        return true;
      }
      ghost var expected := ScanMembers(input, position, depth);
      assert ScanObject(input, old(position), depth) == expected;
      hide ScanObject, ScanMembers, ScanMember;
      while true
        invariant old(position) < position <= |input| && ScanMembers(input, position, depth) == expected
        decreases |input| - position
      {
        JsonTheorems.MembersByMember(input, position, depth);
        ok := ParseMember(depth);
        if !ok {
          return false;
        }
        SkipWhitespace();
        if position >= |input| {
          return false;
        }
        if input[position] == '}' {
          position := position + 1;
          return true;
        }
        if input[position] != ',' {
          return false;
        }
        position := position + 1;
      }
    }

    method ParseMember(depth: nat) returns (ok: bool)
      requires position <= |input|
      modifies this`position
      ensures position <= |input| && ok == ScanMember(input, old(position), depth).Some?
      ensures ok ==> position == ScanMember(input, old(position), depth).value
      decreases |input| - position, 0
    {
      hide SkipWs, ScanString, ScanValue;
      ok := ParseString();
      if ok {
        ok := Consume(':');
      }
      if ok {
        ok := ParseValue(depth + 1);
      }
    }

    method ParseArray(depth: nat) returns (ok: bool)
      requires position <= |input|
      modifies this`position
      ensures position <= |input| && ok == ScanArray(input, old(position), depth).Some?
      ensures ok ==> position == ScanArray(input, old(position), depth).value
      decreases |input| - position, 1
    {
      hide SkipWs, ScanValue;
      if depth > MAX_DEPTH {
        return false;
      }
      ok := Consume('[');
      if !ok {
        return;
      }
      SkipWhitespace();
      if position < |input| && input[position] == ']' {
        position := position + 1;
        return true;
      }
      ghost var expected := ScanItems(input, position, depth);
      assert ScanArray(input, old(position), depth) == expected;
      hide ScanArray;
      while true
        invariant old(position) < position <= |input| && ScanItems(input, position, depth) == expected
        decreases |input| - position
      {
        ok := ParseValue(depth + 1);
        if !ok {
          return false;
        }
        SkipWhitespace();
        if position >= |input| {
          return false;
        }
        if input[position] == ']' {
          position := position + 1;
          return true;
        }
        if input[position] != ',' {
          return false;
        }
        position := position + 1;
      }
    }

    method ParseString() returns (ok: bool)
      requires position <= |input|
      modifies this`position
      ensures position <= |input| && ok == ScanString(input, old(position)).Some?
      ensures ok ==> position == ScanString(input, old(position)).value
    {
      hide SkipWs;
      SkipWhitespace();
      if position >= |input| || input[position] != '"' {
        return false;
      }
      position := position + 1;
      while position < |input|
        invariant position <= |input| && ScanString(input, old(position)) == ScanChars(input, position)
        decreases |input| - position
      {
        var value := input[position];
        position := position + 1;
        if value == '"' {
          return true;
        }
        if value < ' ' {
          return false;
        }
        if value != '\\' {
          continue;
        }
        if position >= |input| {
          return false;
        }
        var escape := input[position];
        position := position + 1;
        if IsShortEscape(escape) {
          continue;
        }
        if escape != 'u' || position + 4 > |input| {
          return false;
        }
        for index := 0 to 4
          invariant forall i :: position <= i < position + index ==> IsHex(input[i])
        {
          if !IsHex(input[position + index]) {
            return false;
          }
        }
        position := position + 4;
      }
      return false;
    }

    method ParseLiteral(literal: string) returns (ok: bool)
      requires position <= |input| && literal != []
      modifies this`position
      ensures position <= |input| && ok == ScanWord(input, old(position), literal).Some?
      ensures ok ==> position == ScanWord(input, old(position), literal).value
    {
      if position + |literal| > |input| || input[position..position + |literal|] != literal {
        return false;
      }
      position := position + |literal|;
      return true;
    }

    method SkipDigits()
      requires position <= |input|
      modifies this`position
      ensures position == ScanDigits(input, old(position))
    {
      while position < |input| && IsDigit(input[position])
        invariant position <= |input| && ScanDigits(input, position) == ScanDigits(input, old(position))
      {
        position := position + 1;
      }
    }

    method ParseWhole() returns (ok: bool)
      requires position <= |input|
      modifies this`position
      ensures position <= |input| && ok == ScanWhole(input, old(position)).Some?
      ensures ok ==> position == ScanWhole(input, old(position)).value
    {
      if position >= |input| {
        return false;
      }
      if input[position] == '0' {
        position := position + 1;
        if position < |input| && IsDigit(input[position]) {
          return false;
        }
      } else {
        if !IsDigit(input[position]) {
          return false;
        }
        SkipDigits();
      }
      return true;
    }

    method ParseFraction() returns (ok: bool)
      requires position <= |input|
      modifies this`position
      ensures position <= |input| && ok == ScanFraction(input, old(position)).Some?
      ensures ok ==> position == ScanFraction(input, old(position)).value
    {
      if position < |input| && input[position] == '.' {
        position := position + 1;
        var digits := position;
        SkipDigits();
        if digits == position {
          return false;
        }
      }
      return true;
    }

    method ParseExponent() returns (ok: bool)
      requires position <= |input|
      modifies this`position
      ensures position <= |input| && ok == ScanExponent(input, old(position)).Some?
      ensures ok ==> position == ScanExponent(input, old(position)).value
    {
      if position < |input| && (input[position] == 'e' || input[position] == 'E') {
        position := position + 1;
        if position < |input| && (input[position] == '+' || input[position] == '-') {
          position := position + 1;
        }
        var digits := position;
        SkipDigits();
        if digits == position {
          return false;
        }
      }
      return true;
    }

    method ParseNumber() returns (ok: bool)
      requires position <= |input|
      modifies this`position
      ensures position <= |input| && ok == ScanNumber(input, old(position)).Some?
      ensures ok ==> position == ScanNumber(input, old(position)).value
    {
      hide ScanWhole, ScanFraction, ScanExponent;
      var begin := position;
      if position < |input| && input[position] == '-' {
        position := position + 1;
      }
      ok := ParseWhole();
      if ok {
        ok := ParseFraction();
      }
      if ok {
        ok := ParseExponent();
      }
      if ok {
        ok := position > begin;
      }
    }
  }
}
