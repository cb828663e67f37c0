/** The hand-written printer: every method appends to one string buffer, and what it appends is the
rendering of the JSON value of its argument. */
module IrWriter {
  import opened Text
  import opened Ast
  import opened StringCodec
  import opened LiteralRoundTrip
  import opened J = Json
  import opened Ir
  import IrUnambiguous
  import IrReader

  // ---------------------------------------------------------------------------
  // Rendering grows at the end

  function Comma(i: nat): string { if i > 0 then "," else "" }

  lemma {:induction false} RenderItemsAppend(items: seq<Json>, item: Json)
    ensures RenderItems(items + [item]) == RenderItems(items) + Comma(|items|) + Render(item)
  {
    if items == [] {
      assert items + [item] == [item];
    } else {
      assert (items + [item])[1..] == items[1..] + [item];
      RenderItemsAppend(items[1..], item);
      if |items| == 1 {
        assert items[1..] == [];
      }
    }
  }

  lemma {:induction false} RenderMembersAppend(members: seq<Member>, member: Member)
    ensures RenderMembers(members + [member]) == RenderMembers(members) + Comma(|members|) + RenderMember(member)
  {
    if members == [] {
      assert members + [member] == [member];
    } else {
      assert (members + [member])[1..] == members[1..] + [member];
      RenderMembersAppend(members[1..], member);
      if |members| == 1 {
        assert members[1..] == [];
      }
    }
  }

  lemma NextItem(items: seq<Json>, i: nat)
    requires i < |items|
    ensures RenderItems(items[..i + 1]) == RenderItems(items[..i]) + Comma(i) + Render(items[i])
  {
    assert items[..i + 1] == items[..i] + [items[i]];
    RenderItemsAppend(items[..i], items[i]);
  }

  /** The text of a string that lacks only its closing quote. */
  function OpenedString(base: string, value: string): string { base + ("\"" + Escaped(value)) }

  lemma NothingEscaped(base: string)
    ensures base + "\"" == OpenedString(base, "")
  {
  }

  lemma StepChar(base: string, value: string, i: nat)
    requires i < |value|
    ensures OpenedString(base, value[..i]) + EscapeChar(value[i]) == OpenedString(base, value[..i + 1])
  {
    EscapedAppend(value[..i], value[i]);
    assert value[..i + 1] == value[..i] + [value[i]];
    hide Escaped, EscapeChar;
  }

  lemma ClosedString(base: string, value: string)
    ensures OpenedString(base, value) + "\"" == base + Quoted(value)
  {
    hide Escaped;
  }

  /** The text of an array after its first i items: the invariant of every array loop. */
  function OpenedArray(base: string, items: seq<Json>, i: nat): string
    requires i <= |items|
  {
    base + ("[" + RenderItems(items[..i]))
  }

  /** One pass of an array loop. */
  lemma StepItem(base: string, items: seq<Json>, i: nat)
    requires i < |items|
    ensures var before := OpenedArray(base, items, i);
      (if i > 0 then before + "," else before) + Render(items[i]) == OpenedArray(base, items, i + 1)
  {
    NextItem(items, i);
    Reassociate4(base, "[", RenderItems(items[..i]), Render(items[i]));
  }

  lemma Reassociate4(base: string, open_: string, inner: string, item: string)
    ensures base + (open_ + inner) + "," + item == base + (open_ + (inner + "," + item))
    ensures base + (open_ + inner) + item == base + (open_ + (inner + "" + item))
  {
  }

  /** The first and the last bracket of an array. */
  lemma CloseArray(base: string, items: seq<Json>)
    ensures OpenedArray(base, items, 0) == base + "["
    ensures OpenedArray(base, items, |items|) + "]" == base + Render(Arr(items))
  {
    assert items[..0] == [] && items[..|items|] == items;
    CloseArrayText(base, RenderItems(items));
  }

  lemma CloseArrayText(base: string, inner: string)
    ensures base + ("[" + inner) + "]" == base + ("[" + inner + "]")
  {
  }

  /** One pass of an object loop. */
  lemma StepMember(base: string, members: seq<Member>, i: nat)
    requires i < |members|
    ensures var before := base + ("{" + RenderMembers(members[..i]));
      (if i > 0 then before + "," else before) + Quoted(members[i].name) + ":" + Render(members[i].value)
        == base + ("{" + RenderMembers(members[..i + 1]))
  {
    NextMember(members, i);
    Reassociate4(base, "{", RenderMembers(members[..i]), RenderMember(members[i]));
    var before := base + ("{" + RenderMembers(members[..i]));
    ReassociateKey(if i > 0 then before + "," else before, Quoted(members[i].name), Render(members[i].value));
  }

  lemma ReassociateKey(before: string, key: string, value: string)
    ensures before + key + ":" + value == before + (key + ":" + value)
  {
  }

  lemma NextMember(members: seq<Member>, i: nat)
    requires i < |members|
    ensures RenderMembers(members[..i + 1]) == RenderMembers(members[..i]) + Comma(i) + RenderMember(members[i])
  {
    assert members[..i + 1] == members[..i] + [members[i]];
    RenderMembersAppend(members[..i], members[i]);
  }

  // ---------------------------------------------------------------------------
  // Assembling an object member by member

  /** The text of an object that lacks only its closing brace. */
  function Opened(base: string, members: seq<Member>): string { base + ("{" + RenderMembers(members)) }

  /** The text of an object that is ready for another member. */
  function Pending(base: string, members: seq<Member>): string {
    if members == [] then base + "{" else Opened(base, members) + ","
  }

  lemma Add(base: string, members: seq<Member>, member: Member)
    ensures Pending(base, members) + RenderMember(member) == Opened(base, members + [member])
    ensures Pending(base, members) + (RenderMember(member) + ",") == Pending(base, members + [member])
    ensures Pending(base, members) + (Quoted(member.name) + ":") + Render(member.value)
         == Opened(base, members + [member])
  {
    RenderMembersAppend(members, member);
    hide Render, Quoted;
    KeyThenValue(Pending(base, members), Quoted(member.name), Render(member.value));
    assert members == [] ==> RenderMembers(members) == "";
    hide RenderMembers, RenderMember;
    ThenComma(Pending(base, members), RenderMember(member));
    ThenMember(base, RenderMembers(members), RenderMember(member));
  }

  lemma KeyThenValue(before: string, key: string, value: string)
    ensures before + (key + ":") + value == before + (key + ":" + value)
  {
  }

  lemma ThenComma(before: string, member: string)
    ensures before + (member + ",") == before + member + ","
  {
  }

  lemma ThenMember(base: string, inner: string, member: string)
    ensures base + ("{" + inner) + "," + member == base + ("{" + (inner + "," + member))
    ensures inner == "" ==> base + "{" + member == base + ("{" + (inner + "" + member))
  {
  }

  lemma Separate(base: string, members: seq<Member>)
    requires members != []
    ensures Opened(base, members) + "," == Pending(base, members)
  {
  }

  lemma Start(base: string)
    ensures base + "{" == Pending(base, []) == Opened(base, [])
  {
  }

  lemma Close(base: string, members: seq<Member>)
    ensures Opened(base, members) + "}" == base + Render(Obj(members))
  {
    CloseText(base, RenderMembers(members));
  }

  lemma CloseText(base: string, inner: string)
    ensures base + ("{" + inner) + "}" == base + ("{" + inner + "}")
  {
  }

  function Field(name: string, value: string): Member { Member(name, Str(value)) }

  function Separated(member: string, commaAfter: bool): string { if commaAfter then member + "," else member }

  /** The members after one more; which of the three ways wrote it does not matter. */
  lemma Extend(base: string, members: seq<Member>, member: Member) returns (more: seq<Member>)
    ensures more == members + [member] && more != []
    ensures Pending(base, members) + Separated(RenderMember(member), false) == Opened(base, more)
    ensures Pending(base, members) + Separated(RenderMember(member), true) == Pending(base, more)
    ensures Pending(base, members) + (Quoted(member.name) + ":") + Render(member.value) == Opened(base, more)
  {
    more := members + [member];
    hide Pending, Opened, Render, RenderMember, RenderMembers, Quoted;
    Add(base, members, member);
  }

  lemma FieldText(before: string, key: string, value: string)
    ensures before + key + ":" + value == before + (key + ":" + value)
    ensures before + key + ":" + value + "," == before + (key + ":" + value + ",")
  {
  }

  lemma PlainNameText(before: string, key: string)
    ensures before + "\"" + key + "\":" == before + ("\"" + key + "\"" + ":")
  {
  }

  lemma StringRenders(value: string)
    ensures Render(Str(value)) == Quoted(value)
  {
  }

  lemma NumberRenders(n: int)
    ensures Render(Number(FormatInt(n))) == FormatInt(n)
  {
    FormatIsIntegerLexeme(n);
  }

  lemma TextsRender(values: seq<string>)
    ensures forall i | 0 <= i < |values| :: Render(Map(values, Text_)[i]) == Quoted(values[i])
  {
  }

  /** The object that stands for a generator, without its wrapper. */
  function GeneratorJson(value: string, count: I64): Json {
    Obj([Member("kind", Str("repeat")), Member("value", Str(value)), Member("count", Number(FormatInt(count)))])
  }

  lemma CloseMembers(base: string, members: seq<Member>)
    ensures members[..|members|] == members && RenderMembers(members[..0]) == ""
    ensures base + ("{" + RenderMembers(members)) + "}" == base + Render(Obj(members))
  {
    assert members[..0] == [];
    CloseText(base, RenderMembers(members));
  }

  /** A key of plain characters is its own escaped text. */
  lemma {:induction false} PlainKey(key: string)
    requires forall c <- key :: IsNameChar(c)
    ensures Escaped(key) == key
  {
    if key != "" {
      assert key[0] in key;
      PlainKey(key[1..]);
    }
  }

  // ---------------------------------------------------------------------------
  // The printer

  class Writer {
    var text: string

    constructor ()
      ensures text == ""
    {
      text := "";
    }

    method Push(s: string)
      modifies this
      ensures text == old(text) + s
    {
      text := text + s;
    }

    method WriteJsonString(value: string)
      modifies this
      ensures text == old(text) + Quoted(value)
    {
      hide EscapeChar, Escaped;
      NothingEscaped(old(text));
      Push("\"");
      for i := 0 to |value|
        invariant text == OpenedString(old(text), value[..i])
      {
        WriteChar(value[i]);
        StepChar(old(text), value, i);
      }
      Push("\"");
      assert value[..|value|] == value;
      ClosedString(old(text), value);
    }

    method WriteChar(character: char)
      modifies this
      ensures text == old(text) + EscapeChar(character)
    {
      match character
      case '"' => Push("\\\"");
      case '\\' => Push("\\\\");
      case _ =>
        if character == BACKSPACE {
          Push("\\b");
        } else if character == FORM_FEED {
          Push("\\f");
        } else if character == '\n' {
          Push("\\n");
        } else if character == '\r' {
          Push("\\r");
        } else if character == '\t' {
          Push("\\t");
        } else if IsControl(character) {
          Push("\\u");
          var code := character as int;
          Push([HexDigit(code / 0x1000 % 16)]);
          Push([HexDigit(code / 0x100 % 16)]);
          Push([HexDigit(code / 0x10 % 16)]);
          Push([HexDigit(code % 16)]);
        } else {
          Push([character]);
        }
    }

    method WriteFieldString(name: string, value: string, commaAfter: bool)
      modifies this
      ensures text == old(text) + Separated(RenderMember(Field(name, value)), commaAfter)
    {
      WriteJsonString(name);
      Push(":");
      WriteJsonString(value);
      if commaAfter {
        Push(",");
      }
      FieldText(old(text), Quoted(name), Quoted(value));
    }

    method WriteFieldOptionalString(name: string, value: Option<string>, commaAfter: bool)
      modifies this
      ensures text == old(text) + Separated(RenderMember(Member(name, OptionalText(value))), commaAfter)
    {
      WriteJsonString(name);
      Push(":");
      match value {
        case Some(v) => WriteJsonString(v);
        case None => Push("null");
      }
      if commaAfter {
        Push(",");
      }
      FieldText(old(text), Quoted(name), Render(OptionalText(value)));
    }

    method WriteFieldStringArray(name: string, values: seq<string>, commaAfter: bool)
      modifies this
      ensures text == old(text) + Separated(RenderMember(Member(name, Arr(Map(values, Text_)))), commaAfter)
    {
      WriteJsonString(name);
      Push(":");
      WriteStrings(values);
      if commaAfter {
        Push(",");
      }
      hide Quoted, Render, Map;
      FieldText(old(text), Quoted(name), Render(Arr(Map(values, Text_))));
    }

    /** `"KEY":`, as a literal of the printer. */
    method PushName(key: string)
      requires forall c <- key :: IsNameChar(c)
      modifies this
      ensures text == old(text) + (Quoted(key) + ":")
    {
      Push("\"");
      Push(key);
      Push("\":");
      PlainKey(key);
      PlainNameText(old(text), key);
    }

    method WriteStrings(values: seq<string>)
      modifies this
      ensures text == old(text) + Render(Arr(Map(values, Text_)))
    {
      ghost var items := Map(values, Text_);
      TextsRender(values);
      hide OpenedArray, Render, Map;
      CloseArray(old(text), items);
      Push("[");
      for i := 0 to |values|
        invariant text == OpenedArray(old(text), items, i)
      {
        if i > 0 {
          Push(",");
        }
        WriteJsonString(values[i]);
        StepItem(old(text), items, i);
      }
      Push("]");
    }

    // Literals

    method WriteLiteral(value: Literal)
      modifies this
      ensures text == old(text) + Render(LiteralJson(value))
      decreases value
    {
      match value
      case String(s) => WriteJsonString(s);
      case Integer(n) => Push(FormatInt(n));
      case Boolean(b) => Push(if b then "true" else "false");
      case Object(fields) => WriteObject(fields);
      case Array(values) => WriteValues(values);
      case Repeat(v, count) => WriteRepeat(v, count);
    }

    method WriteRepeat(value: string, count: I64)
      modifies this
      ensures text == old(text) + Render(RepeatJson(value, count))
    {
      hide Render, RenderMember, RenderMembers, RenderItems, Quoted, Pending, Opened;
      ghost var generator := GeneratorJson(value, count);
      Start(old(text));
      Push("{");
      PushName("generated");
      WriteGenerator(value, count);
      ghost var members := Extend(old(text), [], Member("generated", generator));
      assert members == RepeatJson(value, count).members;
      Push("}");
      Close(old(text), members);
    }

    method WriteGenerator(value: string, count: I64)
      modifies this
      ensures text == old(text) + Render(GeneratorJson(value, count))
    {
      hide Render, RenderMember, RenderMembers, RenderItems, Quoted, Pending, Opened;
      ghost var members: seq<Member> := [];
      Start(old(text));
      Push("{");
      PushName("kind");
      WriteJsonString("repeat");
      StringRenders("repeat");
      members := Extend(old(text), members, Member("kind", Str("repeat")));
      Push(",");
      Separate(old(text), members);
      PushName("value");
      WriteJsonString(value);
      StringRenders(value);
      members := Extend(old(text), members, Member("value", Str(value)));
      Push(",");
      Separate(old(text), members);
      PushName("count");
      Push(FormatInt(count));
      NumberRenders(count);
      members := Extend(old(text), members, Member("count", Number(FormatInt(count))));
      assert members == GeneratorJson(value, count).members;
      Push("}");
      Close(old(text), members);
    }

    method WriteValues(values: seq<Literal>)
      modifies this
      ensures text == old(text) + Render(Arr(ValuesJson(values)))
      decreases values
    {
      ghost var items := ValuesJson(values);
      hide OpenedArray, Render;
      CloseArray(old(text), items);
      Push("[");
      for i := 0 to |values|
        invariant text == OpenedArray(old(text), items, i)
      {
        if i > 0 {
          Push(",");
        }
        WriteLiteral(values[i]);
        ValueAt(values, i);
        StepItem(old(text), items, i);
      }
      Push("]");
    }

    /** `write_ast_object`, and `write_ir_object` on the same fields. */
    method WriteObject(fields: seq<BodyField>)
      modifies this
      ensures text == old(text) + Render(Obj(FieldsJson(fields)))
      decreases fields
    {
      ghost var members := FieldsJson(fields);
      hide RenderMembers, Render, RenderMember, Quoted;
      Push("{");
      CloseMembers(old(text), members);
      for i := 0 to |fields|
        invariant text == old(text) + ("{" + RenderMembers(members[..i]))
      {
        if i > 0 {
          Push(",");
        }
        WriteJsonString(fields[i].name);
        Push(":");
        WriteLiteral(fields[i].value);
        FieldAt(fields, i);
        StepMember(old(text), members, i);
      }
      Push("}");
    }

    // The parts of the IR

    method WriteRequest(request: RequestClause)
      modifies this
      ensures text == old(text) + Render(RequestJson(request))
    {
      hide Render, RenderMember, RenderMembers, RenderItems, Quoted, Pending, Opened;
      ghost var members: seq<Member> := [];
      Start(old(text));
      Push("{");
      PushName("body");
      WriteObject(request.body);
      members := Extend(old(text), members, Member("body", Obj(FieldsJson(request.body))));
      assert members == RequestJson(request).members;
      Push("}");
      Close(old(text), members);
    }

    method WriteWhen(w: WhenClause)
      modifies this
      ensures text == old(text) + Render(WhenJson(w))
    {
      hide Render, RenderMember, RenderMembers, RenderItems, Quoted, Pending, Opened;
      ghost var members: seq<Member> := [];
      Start(old(text));
      Push("{");
      WriteFieldString("method", w.method_, true);
      members := Extend(old(text), members, Field("method", w.method_));
      WriteFieldString("path", w.path, false);
      members := Extend(old(text), members, Field("path", w.path));
      assert members == WhenJson(w).members;
      Push("}");
      Close(old(text), members);
    }

    method WriteReset(r: ResetClause)
      modifies this
      ensures text == old(text) + Render(ResetJson(r))
    {
      hide Render, RenderMember, RenderMembers, RenderItems, Quoted, Pending, Opened;
      ghost var members: seq<Member> := [];
      Start(old(text));
      Push("{");
      WriteFieldString("method", r.method_, true);
      members := Extend(old(text), members, Field("method", r.method_));
      WriteFieldString("path", r.path, false);
      members := Extend(old(text), members, Field("path", r.path));
      assert members == ResetJson(r).members;
      Push("}");
      Close(old(text), members);
    }

    method WriteRequirement(r: RequirementIr)
      modifies this
      ensures text == old(text) + Render(RequirementJson(r))
    {
      hide Render, RenderMember, RenderMembers, RenderItems, Quoted, Pending, Opened;
      ghost var members: seq<Member> := [];
      Start(old(text));
      Push("{");
      WriteFieldString("kind", r.kind, true);
      members := Extend(old(text), members, Field("kind", r.kind));
      WriteFieldString("expression", r.expression, false);
      members := Extend(old(text), members, Field("expression", r.expression));
      assert members == RequirementJson(r).members;
      Push("}");
      Close(old(text), members);
    }

    method WriteCapture(c: CaptureClause)
      modifies this
      ensures text == old(text) + Render(CaptureJson(c))
    {
      hide Render, RenderMember, RenderMembers, RenderItems, Quoted, Pending, Opened;
      ghost var members: seq<Member> := [];
      Start(old(text));
      Push("{");
      WriteFieldString("name", c.name, true);
      members := Extend(old(text), members, Field("name", c.name));
      WriteFieldString("selector", c.selector, false);
      members := Extend(old(text), members, Field("selector", c.selector));
      assert members == CaptureJson(c).members;
      Push("}");
      Close(old(text), members);
    }

    method WriteProvenanceRequirement(r: ProvenanceRequirementIr)
      modifies this
      ensures text == old(text) + Render(ProvenanceRequirementJson(r))
    {
      hide Render, RenderMember, RenderMembers, RenderItems, Quoted, Pending, Opened;
      ghost var members: seq<Member> := [];
      Start(old(text));
      Push("{");
      WriteFieldString("kind", r.kind, true);
      members := Extend(old(text), members, Field("kind", r.kind));
      WriteFieldString("field", r.field, false);
      members := Extend(old(text), members, Field("field", r.field));
      assert members == ProvenanceRequirementJson(r).members;
      Push("}");
      Close(old(text), members);
    }

    method WriteFixture(f: FixtureIr)
      modifies this
      ensures text == old(text) + Render(FixtureJson(f))
    {
      hide Render, RenderMember, RenderMembers, RenderItems, Quoted, Pending, Opened;
      ghost var members: seq<Member> := [];
      Start(old(text));
      Push("{");
      WriteFieldString("id", f.id, true);
      members := Extend(old(text), members, Field("id", f.id));
      WriteFieldString("owner", f.owner, true);
      members := Extend(old(text), members, Field("owner", f.owner));
      WriteFieldString("purpose", f.purpose, true);
      members := Extend(old(text), members, Field("purpose", f.purpose));
      WriteFieldString("sha256", f.sha256, false);
      members := Extend(old(text), members, Field("sha256", f.sha256));
      assert members == FixtureJson(f).members;
      Push("}");
      Close(old(text), members);
    }

    method WriteChange(c: MutationChange)
      modifies this
      ensures text == old(text) + Render(ChangeJson(c))
    {
      hide Render, RenderMember, RenderMembers, RenderItems, Quoted, Pending, Opened;
      ghost var members: seq<Member> := [];
      Start(old(text));
      Push("{");
      WriteFieldString("field", c.field, true);
      members := Extend(old(text), members, Field("field", c.field));
      PushName("from");
      Push(FormatInt(c.from));
      NumberRenders(c.from);
      members := Extend(old(text), members, Member("from", Number(FormatInt(c.from))));
      Push(",");
      Separate(old(text), members);
      PushName("to");
      Push(FormatInt(c.to_));
      NumberRenders(c.to_);
      members := Extend(old(text), members, Member("to", Number(FormatInt(c.to_))));
      assert members == ChangeJson(c).members;
      Push("}");
      Close(old(text), members);
    }

    method WriteMutation(m: MutationIr)
      modifies this
      ensures text == old(text) + Render(MutationJson(m))
    {
      hide Render, RenderMember, RenderMembers, RenderItems, Quoted, Pending, Opened;
      ghost var members: seq<Member> := [];
      Start(old(text));
      Push("{");
      WriteFieldString("id", m.id, true);
      members := Extend(old(text), members, Field("id", m.id));
      WriteFieldString("scenario", m.scenario, true);
      members := Extend(old(text), members, Field("scenario", m.scenario));
      PushName("change");
      WriteChange(m.change);
      members := Extend(old(text), members, Member("change", ChangeJson(m.change)));
      Push(",");
      Separate(old(text), members);
      WriteFieldString("expected_rule", m.expectedRule, false);
      members := Extend(old(text), members, Field("expected_rule", m.expectedRule));
      assert members == MutationJson(m).members;
      Push("}");
      Close(old(text), members);
    }

    method WriteProvenance(requirements: seq<ProvenanceRequirementIr>)
      modifies this
      ensures text == old(text) + Render(ProvenanceJson(requirements))
    {
      hide Render, RenderMember, RenderMembers, RenderItems, Quoted, Pending, Opened;
      ghost var members: seq<Member> := [];
      Start(old(text));
      Push("{");
      PushName("requirements");
      WriteProvenanceRequirements(requirements);
      members := Extend(old(text), members, Member("requirements", Arr(Map(requirements, ProvenanceRequirementJson))));
      assert members == ProvenanceJson(requirements).members;
      Push("}");
      Close(old(text), members);
    }

    method WriteIsolation(i: IsolationIr)
      modifies this
      ensures text == old(text) + Render(IsolationJson(i))
    {
      hide Render, RenderMember, RenderMembers, RenderItems, Quoted, Pending, Opened;
      ghost var members: seq<Member> := [];
      Start(old(text));
      Push("{");
      WriteFieldString("scope", i.scope, true);
      members := Extend(old(text), members, Field("scope", i.scope));
      PushName("reset");
      WriteReset(i.reset);
      members := Extend(old(text), members, Member("reset", ResetJson(i.reset)));
      assert members == IsolationJson(i).members;
      Push("}");
      Close(old(text), members);
    }

    method AppendState(state: Option<string>, ghost base: string, ghost members: seq<Member>)
      returns (ghost more: seq<Member>)
      requires text == Opened(base, members) && members != []
      modifies this
      ensures text == Opened(base, more)
      ensures more == members + Optional("state", state, Text_)
    {
      hide Render, RenderMember, RenderMembers, RenderItems, Quoted, Pending, Opened;
      more := members;
      if state.Some? {
        Push(",");
        Separate(base, members);
        PushName("state");
        WriteJsonString(state.value);
        StringRenders(state.value);
        more := Extend(base, members, Member("state", Str(state.value)));
      }
    }

    method AppendRequest(request: Option<RequestClause>, ghost base: string, ghost members: seq<Member>)
      returns (ghost more: seq<Member>)
      requires text == Opened(base, members) && members != []
      modifies this
      ensures text == Opened(base, more)
      ensures more == members + Optional("request", request, RequestJson)
    {
      hide Render, RenderMember, RenderMembers, RenderItems, Quoted, Pending, Opened, RequestJson;
      more := members;
      if request.Some? {
        Push(",");
        Separate(base, members);
        PushName("request");
        WriteRequest(request.value);
        more := Extend(base, members, Member("request", RequestJson(request.value)));
      }
    }

    method AppendWhen(w: WhenClause, ghost base: string, ghost members: seq<Member>) returns (ghost more: seq<Member>)
      requires text == Opened(base, members) && members != []
      modifies this
      ensures text == Opened(base, more)
      ensures more == members + [Member("when", WhenJson(w))]
    {
      hide Render, RenderMember, RenderMembers, RenderItems, Quoted, Pending, Opened, WhenJson;
      Push(",");
      Separate(base, members);
      PushName("when");
      WriteWhen(w);
      more := Extend(base, members, Member("when", WhenJson(w)));
    }

    method AppendRequirements(requirements: seq<RequirementIr>, ghost base: string, ghost members: seq<Member>)
      returns (ghost more: seq<Member>)
      requires text == Opened(base, members) && members != []
      modifies this
      ensures text == Opened(base, more)
      ensures more == members + [Member("requirements", Arr(Map(requirements, RequirementJson)))]
    {
      hide Render, RenderMember, RenderMembers, RenderItems, Quoted, Pending, Opened, Map, RequirementJson;
      Push(",");
      Separate(base, members);
      PushName("requirements");
      WriteRequirements(requirements);
      more := Extend(base, members, Member("requirements", Arr(Map(requirements, RequirementJson))));
    }

    method AppendCaptures(captures: seq<CaptureClause>, ghost base: string, ghost members: seq<Member>)
      returns (ghost more: seq<Member>)
      requires text == Opened(base, members) && members != []
      modifies this
      ensures text == Opened(base, more)
      ensures more == members + [Member("captures", Arr(Map(captures, CaptureJson)))]
    {
      hide Render, RenderMember, RenderMembers, RenderItems, Quoted, Pending, Opened, Map, CaptureJson;
      Push(",");
      Separate(base, members);
      PushName("captures");
      WriteCaptures(captures);
      more := Extend(base, members, Member("captures", Arr(Map(captures, CaptureJson))));
    }

    method AppendSetups(setups: seq<SetupIr>, ghost base: string, ghost members: seq<Member>)
      returns (ghost more: seq<Member>)
      requires text == Opened(base, members) && members != []
      modifies this
      ensures text == Opened(base, more)
      ensures more == members + NonEmpty("setups", setups, SetupJson)
    {
      hide Render, RenderMember, RenderMembers, RenderItems, Quoted, Pending, Opened, Map, SetupJson;
      more := members;
      if setups != [] {
        Push(",");
        Separate(base, members);
        PushName("setups");
        WriteSetups(setups);
        more := Extend(base, members, Member("setups", Arr(Map(setups, SetupJson))));
      }
    }

    method AppendScenarios(scenarios: seq<ScenarioIr>, ghost base: string, ghost members: seq<Member>)
      returns (ghost more: seq<Member>)
      requires text == Opened(base, members) && members != []
      modifies this
      ensures text == Opened(base, more)
      ensures more == members + [Member("scenarios", Arr(Map(scenarios, ScenarioJson)))]
    {
      hide Render, RenderMember, RenderMembers, RenderItems, Quoted, Pending, Opened, Map, ScenarioJson;
      Push(",");
      Separate(base, members);
      PushName("scenarios");
      WriteScenarios(scenarios);
      more := Extend(base, members, Member("scenarios", Arr(Map(scenarios, ScenarioJson))));
    }

    method AppendFixtures(fixtures: seq<FixtureIr>, ghost base: string, ghost members: seq<Member>)
      returns (ghost more: seq<Member>)
      requires text == Opened(base, members) && members != []
      modifies this
      ensures text == Opened(base, more)
      ensures more == members + NonEmpty("fixtures", fixtures, FixtureJson)
    {
      hide Render, RenderMember, RenderMembers, RenderItems, Quoted, Pending, Opened, Map, FixtureJson;
      more := members;
      if fixtures != [] {
        Push(",");
        Separate(base, members);
        PushName("fixtures");
        WriteFixtures(fixtures);
        more := Extend(base, members, Member("fixtures", Arr(Map(fixtures, FixtureJson))));
      }
    }

    method AppendMutations(mutations: seq<MutationIr>, ghost base: string, ghost members: seq<Member>)
      returns (ghost more: seq<Member>)
      requires text == Opened(base, members) && members != []
      modifies this
      ensures text == Opened(base, more)
      ensures more == members + NonEmpty("mutations", mutations, MutationJson)
    {
      hide Render, RenderMember, RenderMembers, RenderItems, Quoted, Pending, Opened, Map, MutationJson;
      more := members;
      if mutations != [] {
        Push(",");
        Separate(base, members);
        PushName("mutations");
        WriteMutations(mutations);
        more := Extend(base, members, Member("mutations", Arr(Map(mutations, MutationJson))));
      }
    }

    method AppendProvenance(
        provenance: Option<seq<ProvenanceRequirementIr>>, ghost base: string, ghost members: seq<Member>)
      returns (ghost more: seq<Member>)
      requires text == Opened(base, members) && members != []
      modifies this
      ensures text == Opened(base, more)
      ensures more == members + Optional("provenance", provenance, ProvenanceJson)
    {
      hide Render, RenderMember, RenderMembers, RenderItems, Quoted, Pending, Opened, ProvenanceJson;
      more := members;
      if provenance.Some? {
        Push(",");
        Separate(base, members);
        PushName("provenance");
        WriteProvenance(provenance.value);
        more := Extend(base, members, Member("provenance", ProvenanceJson(provenance.value)));
      }
    }

    method AppendIsolation(isolation: Option<IsolationIr>, ghost base: string, ghost members: seq<Member>)
      returns (ghost more: seq<Member>)
      requires text == Opened(base, members) && members != []
      modifies this
      ensures text == Opened(base, more)
      ensures more == members + Optional("isolation", isolation, IsolationJson)
    {
      hide Render, RenderMember, RenderMembers, RenderItems, Quoted, Pending, Opened, IsolationJson;
      more := members;
      if isolation.Some? {
        Push(",");
        Separate(base, members);
        PushName("isolation");
        WriteIsolation(isolation.value);
        more := Extend(base, members, Member("isolation", IsolationJson(isolation.value)));
      }
    }

    method WriteSetup(s: SetupIr)
      modifies this
      ensures text == old(text) + Render(SetupJson(s))
    {
      hide Render, RenderMember, RenderMembers, RenderItems, Quoted, Pending, Opened, Optional, NonEmpty, Map;
      hide RequestJson, WhenJson, ScenarioJson, RequirementJson, CaptureJson, FixtureJson, MutationJson;
      hide ProvenanceJson, IsolationJson, Text_, OptionalText;
      ghost var members: seq<Member> := [];
      Start(old(text));
      Push("{");
      WriteFieldString("name", s.name, false);
      members := Extend(old(text), members, Field("name", s.name));
      members := AppendRequest(s.request, old(text), members);
      members := AppendWhen(s.when_, old(text), members);
      members := AppendRequirements(s.requirements, old(text), members);
      members := AppendCaptures(s.captures, old(text), members);
      assert members == SetupJson(s).members;
      Push("}");
      Close(old(text), members);
    }

    method WriteScenario(s: ScenarioIr)
      modifies this
      ensures text == old(text) + Render(ScenarioJson(s))
    {
      hide Render, RenderMember, RenderMembers, RenderItems, Quoted, Pending, Opened, Optional, NonEmpty, Map;
      hide RequestJson, WhenJson, SetupJson, RequirementJson, CaptureJson, FixtureJson, MutationJson, ProvenanceJson;
      hide IsolationJson, Text_, OptionalText;
      ghost var members: seq<Member> := [];
      Start(old(text));
      Push("{");
      WriteFieldString("name", s.name, true);
      members := Extend(old(text), members, Field("name", s.name));
      WriteFieldStringArray("given", s.given, false);
      members := Extend(old(text), members, Member("given", Arr(Map(s.given, Text_))));
      members := AppendState(s.state, old(text), members);
      members := AppendRequest(s.request, old(text), members);
      members := AppendWhen(s.when_, old(text), members);
      members := AppendSetups(s.setups, old(text), members);
      members := AppendRequirements(s.requirements, old(text), members);
      assert members == ScenarioJson(s).members;
      Push("}");
      Close(old(text), members);
    }

    method WriteSpecification(s: SpecificationIr)
      modifies this
      ensures text == old(text) + Render(SpecificationJson(s))
    {
      hide Render, RenderMember, RenderMembers, RenderItems, Quoted, Pending, Opened, Optional, NonEmpty, Map;
      hide RequestJson, WhenJson, SetupJson, ScenarioJson, RequirementJson, CaptureJson, FixtureJson, MutationJson;
      hide ProvenanceJson, IsolationJson, Text_, OptionalText;
      ghost var members: seq<Member> := [];
      Start(old(text));
      Push("{");
      WriteFieldString("name", s.name, true);
      members := Extend(old(text), members, Field("name", s.name));
      WriteFieldOptionalString("version", s.version, true);
      members := Extend(old(text), members, Member("version", OptionalText(s.version)));
      WriteFieldOptionalString("subject", s.subject, false);
      members := Extend(old(text), members, Member("subject", OptionalText(s.subject)));
      members := AppendScenarios(s.scenarios, old(text), members);
      members := AppendFixtures(s.fixtures, old(text), members);
      members := AppendMutations(s.mutations, old(text), members);
      members := AppendProvenance(s.provenance, old(text), members);
      members := AppendIsolation(s.isolation, old(text), members);
      assert members == SpecificationJson(s).members;
      Push("}");
      Close(old(text), members);
    }

    method WriteIr(ir: IntermediateRepresentation)
      modifies this
      ensures text == old(text) + Render(IrJson(ir))
    {
      hide Render, RenderMember, RenderMembers, RenderItems, Quoted, Pending, Opened;
      ghost var members: seq<Member> := [];
      Start(old(text));
      Push("{");
      WriteFieldString("schema", ir.schema, false);
      members := Extend(old(text), members, Field("schema", ir.schema));
      Push(",");
      Separate(old(text), members);
      PushName("specification");
      WriteSpecification(ir.specification);
      members := Extend(old(text), members, Member("specification", SpecificationJson(ir.specification)));
      assert members == IrJson(ir).members;
      Push("}");
      Close(old(text), members);
    }

    method WriteRequirements(requirements: seq<RequirementIr>)
      modifies this
      ensures text == old(text) + Render(Arr(Map(requirements, RequirementJson)))
    {
      ghost var items := Map(requirements, RequirementJson);
      hide OpenedArray, Render, RequirementJson, Map;
      CloseArray(old(text), items);
      Push("[");
      for i := 0 to |requirements|
        invariant text == OpenedArray(old(text), items, i)
      {
        if i > 0 {
          Push(",");
        }
        WriteRequirement(requirements[i]);
        StepItem(old(text), items, i);
      }
      Push("]");
    }

    method WriteCaptures(captures: seq<CaptureClause>)
      modifies this
      ensures text == old(text) + Render(Arr(Map(captures, CaptureJson)))
    {
      ghost var items := Map(captures, CaptureJson);
      hide OpenedArray, Render, CaptureJson, Map;
      CloseArray(old(text), items);
      Push("[");
      for i := 0 to |captures|
        invariant text == OpenedArray(old(text), items, i)
      {
        if i > 0 {
          Push(",");
        }
        WriteCapture(captures[i]);
        StepItem(old(text), items, i);
      }
      Push("]");
    }

    method WriteFixtures(fixtures: seq<FixtureIr>)
      modifies this
      ensures text == old(text) + Render(Arr(Map(fixtures, FixtureJson)))
    {
      ghost var items := Map(fixtures, FixtureJson);
      hide OpenedArray, Render, FixtureJson, Map;
      CloseArray(old(text), items);
      Push("[");
      for i := 0 to |fixtures|
        invariant text == OpenedArray(old(text), items, i)
      {
        if i > 0 {
          Push(",");
        }
        WriteFixture(fixtures[i]);
        StepItem(old(text), items, i);
      }
      Push("]");
    }

    method WriteMutations(mutations: seq<MutationIr>)
      modifies this
      ensures text == old(text) + Render(Arr(Map(mutations, MutationJson)))
    {
      ghost var items := Map(mutations, MutationJson);
      hide OpenedArray, Render, MutationJson, Map;
      CloseArray(old(text), items);
      Push("[");
      for i := 0 to |mutations|
        invariant text == OpenedArray(old(text), items, i)
      {
        if i > 0 {
          Push(",");
        }
        WriteMutation(mutations[i]);
        StepItem(old(text), items, i);
      }
      Push("]");
    }

    method WriteProvenanceRequirements(requirements: seq<ProvenanceRequirementIr>)
      modifies this
      ensures text == old(text) + Render(Arr(Map(requirements, ProvenanceRequirementJson)))
    {
      ghost var items := Map(requirements, ProvenanceRequirementJson);
      hide OpenedArray, Render, ProvenanceRequirementJson, Map;
      CloseArray(old(text), items);
      Push("[");
      for i := 0 to |requirements|
        invariant text == OpenedArray(old(text), items, i)
      {
        if i > 0 {
          Push(",");
        }
        WriteProvenanceRequirement(requirements[i]);
        StepItem(old(text), items, i);
      }
      Push("]");
    }

    method WriteSetups(setups: seq<SetupIr>)
      modifies this
      ensures text == old(text) + Render(Arr(Map(setups, SetupJson)))
    {
      ghost var items := Map(setups, SetupJson);
      hide OpenedArray, Render, SetupJson, Map;
      CloseArray(old(text), items);
      Push("[");
      for i := 0 to |setups|
        invariant text == OpenedArray(old(text), items, i)
      {
        if i > 0 {
          Push(",");
        }
        WriteSetup(setups[i]);
        StepItem(old(text), items, i);
      }
      Push("]");
    }

    method WriteScenarios(scenarios: seq<ScenarioIr>)
      modifies this
      ensures text == old(text) + Render(Arr(Map(scenarios, ScenarioJson)))
    {
      ghost var items := Map(scenarios, ScenarioJson);
      hide OpenedArray, Render, ScenarioJson, Map;
      CloseArray(old(text), items);
      Push("[");
      for i := 0 to |scenarios|
        invariant text == OpenedArray(old(text), items, i)
      {
        if i > 0 {
          Push(",");
        }
        WriteScenario(scenarios[i]);
        StepItem(old(text), items, i);
      }
      Push("]");
    }
  }

  method ToJson(ir: IntermediateRepresentation) returns (json: string)
    ensures json == Render(IrJson(ir))
    ensures ReadText(json) == Some(IrJson(ir))
    ensures IrReader.ReadPrintedIr(json) == Some(IrUnambiguous.NormaliseIr(ir))
  {
    var writer := new Writer();
    hide Render, IrJson;
    writer.WriteIr(ir);
    json := writer.text;
    PrintedIrReads(ir);
    IrReader.PrintedIrReadsBack(ir);
  }

  lemma {:induction false} EscapedAppend(value: string, c: char)
    ensures Escaped(value + [c]) == Escaped(value) + EscapeChar(c)
  {
    if value == "" {
      assert value + [c] == [c] && [c][1..] == "";
    } else {
      assert (value + [c])[1..] == value[1..] + [c];
      EscapedAppend(value[1..], c);
    }
  }

  lemma {:induction false} ValueAt(values: seq<Literal>, i: nat)
    requires i < |values|
    ensures ValuesJson(values)[i] == LiteralJson(values[i])
  {
    if i > 0 {
      ValueAt(values[1..], i - 1);
    }
  }

  lemma {:induction false} FieldAt(fields: seq<BodyField>, i: nat)
    requires i < |fields|
    ensures FieldsJson(fields)[i] == Member(fields[i].name, LiteralJson(fields[i].value))
  {
    if i > 0 {
      FieldAt(fields[1..], i - 1);
    }
  }
}
