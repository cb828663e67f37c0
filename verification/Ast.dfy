/** The syntax tree shared by the Malcolm parser and its IR printer, and the parser's errors. */
module Ast {
  import opened Text

  type I64 = n: int | IsI64(n)

  /** Typed JSON values of a request body. */
  datatype Literal =
    | String(text: string)
    | Integer(n: I64)
    | Boolean(b: bool)
    | Object(fields: seq<BodyField>)
    | Array(values: seq<Literal>)
    | Repeat(value: string, count: I64)

  datatype BodyField = BodyField(name: string, value: Literal)

  datatype RequestClause = RequestClause(body: seq<BodyField>)

  datatype WhenClause = WhenClause(method_: string, path: string)

  datatype RequirementKind = Must | MustNot

  datatype Requirement = Requirement(kind: RequirementKind, expression: string)

  datatype CaptureClause = CaptureClause(name: string, selector: string)

  datatype SetupClause = SetupClause(
    name: string,
    request: Option<RequestClause>,
    when_: Option<WhenClause>,
    requirements: seq<Requirement>,
    captures: seq<CaptureClause>)

  datatype Scenario = Scenario(
    name: string,
    given: seq<string>,
    state: Option<string>,
    request: Option<RequestClause>,
    when_: Option<WhenClause>,
    setups: seq<SetupClause>,
    requirements: seq<Requirement>)

  datatype MutationChange = MutationChange(field: string, from: I64, to_: I64)

  datatype MutationClause = MutationClause(
    id: string, scenario: Option<string>, change: Option<MutationChange>, expectedRule: Option<string>)

  datatype FixtureOwner = Oracle

  datatype FixtureClause = FixtureClause(
    id: string, owner: Option<FixtureOwner>, purpose: Option<string>, sha256: Option<string>)

  datatype ProvenanceRequirementKind = Create

  datatype ProvenanceField = ExecutionId

  datatype ProvenanceRequirement = ProvenanceRequirement(kind: ProvenanceRequirementKind, field: ProvenanceField)

  datatype ProvenanceClause = ProvenanceClause(requirements: seq<ProvenanceRequirement>)

  datatype IsolationScope = PerScenario

  datatype ResetClause = ResetClause(method_: string, path: string)

  datatype IsolationClause = IsolationClause(scope: IsolationScope, reset: Option<ResetClause>)

  datatype Specification = Specification(
    name: string,
    version: Option<string>,
    subject: Option<string>,
    scenarios: seq<Scenario>,
    fixtures: seq<FixtureClause>,
    mutations: seq<MutationClause>,
    provenance: Option<ProvenanceClause>,
    isolation: Option<IsolationClause>)

  // ---------------------------------------------------------------------------
  // Errors: one constructor per message of the parser, without its wording

  datatype ErrorKind =
    // quoted strings
    | NotQuoted | UnescapedQuote | IncompleteEscape | UnsupportedEscape(escaped: char) | ControlCharacter
    // literals
    | EmptyValue | TrailingCharacters | ExpectedCharacter(expected: char)
    | RepeatValueNotString | RepeatCountNotInteger
    | NestedFieldDuplicated(field: string) | NestedFieldName | UnknownScalar
    | StringIncompleteEscape | StringControlCharacter | StringUnclosed
    // body lines
    | BodyFieldExpected | BodyFieldName | BodyFieldDuplicated(field: string)
    // clause lines
    | NotIdentifier | NotInteger | MissingOpenBrace | MissingExpression
    | SpecificationHeader | ScenarioHeader | SetupHeader
    | WhenShape | WhenMethodMissing | CaptureShape | CapturePrefix | CapturePath
    | ChangeShape | ExpectedRuleShape | FixtureOwnerName | ResetShape | ResetMethod
    | RepeatedSubject | RepeatedState | RepeatedWhen | RepeatedBody | RepeatedTarget | RepeatedChange
    | RepeatedRule | RepeatedOwner | RepeatedPurpose | RepeatedSha256 | RepeatedRequirement | RepeatedReset
    | RepeatedProvenance | RepeatedIsolation
    | UnknownSpecificationLine | UnknownScenarioLine | UnknownSetupLine | UnknownMutationLine
    | UnknownFixtureLine | UnknownProvenanceLine | UnknownIsolationLine
    // end of input
    | LiteralUnclosed | MutationUnclosed | FixtureUnclosed | ProvenanceUnclosed | IsolationUnclosed
    | BodyUnclosed | SetupUnclosed | ScenarioUnclosed | SpecificationUnclosed

  datatype ParseError = ParseError(line: nat, kind: ErrorKind)

  datatype Result<+T, +E> = Ok(value: T) | Err(error: E) {
    predicate IsFailure() { Err? }

    function PropagateFailure<U>(): Result<U, E>
      requires Err?
    {
      Err(error)
    }

    function Extract(): T
      requires Ok?
    {
      value
    }
  }

  /** What a recursive-descent step returns: a value and the text it did not consume. */
  datatype Parsed<+T> = Parsed(value: T, rest: string) | Failed(kind: ErrorKind) {
    predicate IsFailure() { Failed? }

    function PropagateFailure<U>(): Parsed<U>
      requires Failed?
    {
      Failed(kind)
    }

    function Extract(): (T, string)
      requires Parsed?
    {
      (value, rest)
    }
  }
}
