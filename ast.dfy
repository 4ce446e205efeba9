/**
 * The Thrift syntax tree the printer consumes, as a closed set of datatypes.
 * Only the parts the printer reads are kept: names and literal texts, the
 * optional parts of declarations, ordered child sequences, annotations, and
 * each node's comments with their position and line span.
 */
module Ast {
  import opened Wrappers

  /** Where the comment attacher placed a comment relative to its node. */
  datatype Position = Pre | InnerPost | Post | OtherPosition

  /** The first and last source line of a comment. */
  datatype Loc = Loc(startLine: int, endLine: int)

  /** The stored lines of a block comment: the scanner keeps one string per physical line, so there is at least one. */
  type BlockLines = s: seq<string> | |s| >= 1 witness [""]

  datatype Comment =
    | CommentLine(text: string, position: Position, loc: Loc)
    | CommentBlock(lines: BlockLines, position: Position, loc: Loc)

  /** An annotation `name = "value"`; the value may be absent. */
  datatype Annotation = Annotation(name: string, value: Option<string>)

  /** The keyword of a base type (`string`, `i32`, `void`, ...). */
  datatype Keyword =
    | StringKeyword | DoubleKeyword | BoolKeyword | I8Keyword | I16Keyword
    | I32Keyword | I64Keyword | BinaryKeyword | ByteKeyword | VoidKeyword

  datatype FieldType =
    | BaseType(keyword: Keyword)
    | ListType(valueType: FieldType)
    | SetType(valueType: FieldType)
    | MapType(keyType: FieldType, valueType: FieldType)
    | TypeName(name: string)

  /** Constant values; integer and double constants keep the literal text as written. */
  datatype ConstValue =
    | StringLiteral(value: string)
    | BooleanLiteral(truth: bool)
    | IntConstant(literal: string)
    | DoubleConstant(literal: string)
    | ConstIdentifier(name: string)
    | ConstList(elements: seq<ConstValue>)
    | ConstMap(properties: seq<PropertyAssignment>)

  datatype PropertyAssignment = PropertyAssignment(key: ConstValue, initializer: ConstValue, comments: seq<Comment>)

  datatype Requiredness = Required | Optional

  datatype Field = Field(
    fieldID: Option<int>,
    requiredness: Option<Requiredness>,
    fieldType: FieldType,
    name: string,
    defaultValue: Option<ConstValue>,
    annotations: Option<seq<Annotation>>,
    comments: seq<Comment>)

  datatype Function = Function(
    oneway: bool,
    returnType: FieldType,
    name: string,
    fields: seq<Field>,
    throws: seq<Field>,
    annotations: Option<seq<Annotation>>,
    comments: seq<Comment>)

  /** An enum member; its initializer is the integer literal's text. */
  datatype EnumMember = EnumMember(
    name: string,
    initializer: Option<string>,
    annotations: Option<seq<Annotation>>,
    comments: seq<Comment>)

  /** Struct, union and exception definitions share one shape and differ only in this kind. */
  datatype StructKind = StructDefinition | UnionDefinition | ExceptionDefinition

  /** A statement of a document's body. `Unsupported` stands for any node kind the printer has no rule for. */
  datatype Definition =
    | Include(path: string, comments: seq<Comment>)
    | Namespace(scope: string, name: string)
    | Typedef(definitionType: FieldType, name: string, annotations: Option<seq<Annotation>>, comments: seq<Comment>)
    | Const(fieldType: FieldType, name: string, initializer: ConstValue, comments: seq<Comment>)
    | Struct(kind: StructKind, name: string, fields: seq<Field>, annotations: Option<seq<Annotation>>, comments: seq<Comment>)
    | Enum(name: string, members: seq<EnumMember>, annotations: Option<seq<Annotation>>, comments: seq<Comment>)
    | Service(name: string, extendsName: Option<string>, functions: seq<Function>, annotations: Option<seq<Annotation>>, comments: seq<Comment>)
    | Unsupported(nodeType: string)

  datatype Document = Document(body: seq<Definition>)

  /** Annotations count as present only when the list exists and is non-empty. */
  predicate Annotated(annotations: Option<seq<Annotation>>) {
    annotations.Some? && |annotations.value| > 0
  }
}
