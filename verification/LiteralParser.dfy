/** The cursor-moving literal parser, proved against the functions of `LiteralGrammar`. */
module LiteralParser {
  import opened Text
  import opened Ast
  import opened StringCodec
  import G = LiteralGrammar

  class LiteralParser {
    const input: string
    var position: nat

    ghost predicate Valid()
      reads this
    {
      position <= |input|
    }

    /** The text the cursor has not passed yet. */
    ghost function Rest(): string
      reads this
      requires Valid()
    {
      input[position..]
    }

    /** A step that started on `text` returned `r` and left the cursor where the grammar leaves it. */
    ghost predicate Did<T>(p: Parsed<T>, r: Result<T, ErrorKind>)
      reads this
      requires Valid()
    {
      match p
      case Parsed(value, rest) => r == Ok(value) && Rest() == rest
      case Failed(kind) => r == Err(kind)
    }

    constructor (value: string)
      ensures Valid() && input == value && position == 0
    {
      input := value;
      position := 0;
    }

    function Peek(): (c: Option<char>)
      reads this
      requires Valid()
      ensures c == if Rest() == "" then None else Some(Rest()[0])
    {
      if position < |input| then Some(input[position]) else None
    }

    method Advance()
      requires Valid()
      modifies this`position
      ensures Valid() && Rest() == if old(Rest()) == "" then "" else old(Rest())[1..]
      ensures position == old(position) + if old(Rest()) == "" then 0 else 1
    {
      if position < |input| {
        position := position + 1;
      }
    }

    method SkipWhitespace()
      requires Valid()
      modifies this`position
      ensures Valid() && Rest() == TrimStart(old(Rest()))
    {
      while Peek().Some? && IsWhitespace(Peek().value)
        invariant Valid() && TrimStart(Rest()) == TrimStart(old(Rest()))
        decreases |Rest()|
      {
        Advance();
      }
    }

    method ConsumeIf(expected: char) returns (consumed: bool)
      requires Valid()
      modifies this`position
      ensures Valid() && consumed == G.LooksAt(old(Rest()), expected)
      ensures Rest() == if consumed then old(Rest())[1..] else old(Rest())
    {
      consumed := Peek() == Some(expected);
      if consumed {
        Advance();
      }
    }

    method Consume(expected: char) returns (r: Result<(), ErrorKind>)
      requires Valid()
      modifies this`position
      ensures Valid() && Did(G.Consume(old(Rest()), expected), r)
    {
      var consumed := ConsumeIf(expected);
      r := if consumed then Ok(()) else Err(ExpectedCharacter(expected));
    }

    method ParseString() returns (r: Result<string, ErrorKind>)
      requires Valid()
      modifies this`position
      ensures Valid() && Did(G.ParseString(old(Rest())), r)
    {
      var _ :- Consume('"');
      ghost var start := Rest();
      var raw := "";
      while Peek().Some?
        invariant Valid() && G.ParseRaw(Rest(), raw) == G.ParseRaw(start, "")
        decreases |Rest()|
      {
        ghost var here := Rest();
        var character := Peek().value;
        if character == '"' {
          Advance();
          r := DecodeQuotedContent(raw);
          return;
        }
        if character == '\\' {
          raw := raw + [character];
          Advance();
          if Peek().Some? {
            assert here[1..][1..] == here[2..];
            assert raw + [Peek().value] == raw[..|raw| - 1] + [here[0], here[1]];
            raw := raw + [Peek().value];
            Advance();
          } else {
            return Err(StringIncompleteEscape);
          }
        } else {
          if IsControl(character) {
            return Err(StringControlCharacter);
          }
          raw := raw + [character];
          Advance();
        }
      }
      return Err(StringUnclosed);
    }

    /** Move past every character up to a stopping one and return what was passed. */
    method TakeUntil(stop: char -> bool) returns (word: string)
      requires Valid()
      modifies this`position
      ensures Valid()
      ensures word == G.TakeUntil(old(Rest()), stop) && Rest() == old(Rest())[|word|..]
    {
      var start := position;
      while position < |input| && !stop(input[position])
        invariant Valid() && start <= position
        invariant forall i | start <= i < position :: !stop(input[i])
        decreases |input| - position
      {
        Advance();
      }
      word := input[start..position];
      G.TakeUntilUnique(input[start..], word, stop);
    }

    method ParseScalar() returns (r: Result<Literal, ErrorKind>)
      requires Valid()
      modifies this`position
      ensures Valid() && Did(G.ParseScalar(old(Rest())), r)
    {
      var value := TakeUntil(G.EndsScalar);
      if value == "true" {
        return Ok(Boolean(true));
      }
      if value == "false" {
        return Ok(Boolean(false));
      }
      match ParseI64(value)
      case Some(n) => return Ok(Integer(n));
      case None => return Err(UnknownScalar);
    }

    method ParseRepeatCount() returns (r: Result<I64, ErrorKind>)
      requires Valid()
      modifies this`position
      ensures Valid() && Did(G.ParseRepeatCount(old(Rest())), r)
    {
      var value := TakeUntil(G.EndsCount);
      match ParseI64(value)
      case Some(n) => return Ok(n);
      case None => return Err(RepeatCountNotInteger);
    }

    method ParseObjectKey() returns (r: Result<string, ErrorKind>)
      requires Valid()
      modifies this`position
      ensures Valid() && Did(G.ParseObjectKey(old(Rest())), r)
    {
      SkipWhitespace();
      var key: string;
      if Peek() == Some('"') {
        key :- ParseString();
      } else {
        key := TakeUntil(c => !IsNameChar(c));
      }
      if !IsIdentifier(key) {
        return Err(NestedFieldName);
      }
      return Ok(key);
    }

    method ConsumeKeyword() returns (r: Result<(), ErrorKind>)
      requires Valid()
      modifies this`position
      ensures Valid()
      ensures if G.REPEAT <= old(Rest()) then r == Ok(()) && Rest() == old(Rest())[|G.REPEAT|..] else r.Err?
    {
      var i := 0;
      while i < |G.REPEAT|
        invariant 0 <= i <= |G.REPEAT| && Valid()
        invariant G.REPEAT[..i] <= old(Rest()) && Rest() == old(Rest())[i..]
      {
        var _ :- Consume(G.REPEAT[i]);
        i := i + 1;
      }
      return Ok(());
    }

    method ParseRepeat() returns (r: Result<Literal, ErrorKind>)
      requires Valid()
      modifies this`position
      ensures Valid()
      ensures if G.REPEAT <= old(Rest()) then Did(G.ParseRepeat(old(Rest())[|G.REPEAT|..]), r) else r.Err?
    {
      var _ :- ConsumeKeyword();
      SkipWhitespace();
      var _ :- Consume('(');
      SkipWhitespace();
      if Peek() != Some('"') {
        return Err(RepeatValueNotString);
      }
      var value :- ParseString();
      SkipWhitespace();
      var _ :- Consume(',');
      SkipWhitespace();
      var count :- ParseRepeatCount();
      SkipWhitespace();
      var _ :- Consume(')');
      return Ok(Repeat(value, count));
    }

    method ParseValue() returns (r: Result<Literal, ErrorKind>)
      requires Valid()
      modifies this`position
      ensures Valid() && Did(G.ParseValue(old(Rest())), r)
      decreases |Rest()|, 1
    {
      SkipWhitespace();
      match Peek()
      case None => r := Err(EmptyValue);
      case Some(character) =>
        if character == '"' {
          var text :- ParseString();
          r := Ok(String(text));
        } else if character == '[' {
          r := ParseArray();
        } else if character == '{' {
          r := ParseObject();
        } else if IsAsciiAlphabetic(character) && G.REPEAT <= input[position..] {
          r := ParseRepeat();
        } else {
          r := ParseScalar();
        }
    }

    method ParseArray() returns (r: Result<Literal, ErrorKind>)
      requires Valid()
      modifies this`position
      ensures Valid() && Did(G.ParseArray(old(Rest())), r)
      decreases |Rest()|, 0
    {
      var _ :- Consume('[');
      var values := [];
      SkipWhitespace();
      var closed := ConsumeIf(']');
      if closed {
        return Ok(Array(values));
      }
      ghost var start := Rest();
      while true
        invariant Valid() && |Rest()| < |old(Rest())|
        invariant G.ParseElements(Rest(), values) == G.ParseElements(start, [])
        decreases |Rest()|
      {
        var value :- ParseValue();
        values := values + [value];
        SkipWhitespace();
        closed := ConsumeIf(']');
        if closed {
          return Ok(Array(values));
        }
        var _ :- Consume(',');
      }
    }

    /** The key, the colon and the value of one object field. */
    method ParseMember() returns (r: Result<BodyField, ErrorKind>)
      requires Valid()
      modifies this`position
      ensures Valid() && Did(G.ParseMember(old(Rest())), r)
      decreases |Rest()|, 2
    {
      var name :- ParseObjectKey();
      SkipWhitespace();
      var _ :- Consume(':');
      var value :- ParseValue();
      return Ok(BodyField(name, value));
    }

    method ParseObject() returns (r: Result<Literal, ErrorKind>)
      requires Valid()
      modifies this`position
      ensures Valid() && Did(G.ParseObject(old(Rest())), r)
      decreases |Rest()|, 0
    {
      hide G.ParseMember, TrimStart, IsWhitespace;
      var _ :- Consume('{');
      var fields := [];
      SkipWhitespace();
      var closed := ConsumeIf('}');
      if closed {
        return Ok(Object(fields));
      }
      ghost var start := Rest();
      while true
        invariant Valid() && |Rest()| < |old(Rest())|
        invariant G.ParseMembers(Rest(), fields) == G.ParseMembers(start, [])
        decreases |Rest()|
      {
        var field :- ParseMember();
        if exists f <- fields :: f.name == field.name {
          return Err(NestedFieldDuplicated(field.name));
        }
        fields := fields + [field];
        SkipWhitespace();
        closed := ConsumeIf('}');
        if closed {
          return Ok(Object(fields));
        }
        var _ :- Consume(',');
      }
    }
  }

  /** `parse_literal`. */
  method ParseLiteral(value: string) returns (r: Result<Literal, ErrorKind>)
    ensures r == G.ParseLiteral(value)
  {
    var parser := new LiteralParser(value);
    assert parser.Rest() == value;
    var literal :- parser.ParseValue();
    parser.SkipWhitespace();
    if parser.position != |parser.input| {
      return Err(TrailingCharacters);
    }
    return Ok(literal);
  }
}
