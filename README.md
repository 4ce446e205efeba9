# Thrift pretty-printer rules, modelled in Dafny

This project models the printing rules of prettier-plugin-thrift (`src/printer.ts`).
The rules turn an already-parsed Thrift syntax tree into a prettier layout
document. The project then proves what text and line structure those documents have.

The model is in eight modules:

- `Wrappers` (`wrappers.dfy`): `Option` and `Result`.
- `Docs` (`doc.dfy`): prettier's document builders as a datatype `Doc`
  (`Text`, `Concat`, `Hardline`, `Indent`, `LineSuffix`, `DedentToRoot`).
  `Join` is prettier's `join`. `Segments` reads a document off as lines of
  text: a line ends at every hard line break, indentation is ignored, and a
  line suffix is read where it stands.
- `Ast` (`ast.dfy`): the syntax tree as closed datatypes. It covers comments
  with their position and source lines, annotations, types, constant values,
  fields, functions, enum members, the eight kinds of document statement, and
  the document itself.
- `Comments` (`comments.dfy`):
  - the two comment printers;
  - the blank-line rule before a comment;
  - `helpers.getCommentsDocs`. This is an imperative method, `GetCommentsDocs`,
    with a loop that pushes onto three buckets. It is proved equal to a
    functional specification, `CommentsDocs`, which is built from the index
    sequences `Bucket`.
- `Numbers` (`numbers.dfy`): the decimal `toString` of a field id.
- `Printer` (`printer.dfy`): one function per `print*` function of the plugin.
  The plugin's single `print` dispatch is split by node kind. Its `default`
  case throws "unsupported node type". In this closed tree that can only
  happen for a document statement (`Definition.Unsupported`). So
  `PrintDefinition`, `PrintBody` and `PrintDocument` return a `Result`.
- `PrinterText` (`printer_text.dfy`): reference texts for the Thrift surface
  syntax of types, constants, annotations, fields and functions. It also
  proves that the printed documents read as those texts on one line.
- `PrinterLayout` (`printer_layout.dfy`): the line structure of block-bodied
  declarations, one-line definitions, constant lists and maps, and the whole
  document.

How some behaviour is modelled:

- The keyword table `REVERSED_KEYWORDS` is a parameter `kw` of type `Printer.KeywordNames` (a function from `Keyword` to `string`).
- `path.previous` for a comment is the comment just before it in the
  node's comment list.
- `path.previous` for the k-th document statement is "k > 0".

How the code behaves on these points:

- The blank-line rule compares a comment only with the comment immediately
  before it in the list. It applies only when that comment has the same
  position (src/printer.ts:278, 291). An earlier same-position comment that is
  separated by a comment of another position does not count.
- Field ids are printed with the number's `toString` (src/printer.ts:128).
  So they are re-derived from the value, not copied as written. `IntRoundTrip`
  proves that this text reads back as the same integer.

Quirks of the documents, kept as the code builds them:

- Union and exception definitions print the keyword `struct`.
- An enum never prints its post comments.
- There is no space between `)` and `throws(`.
- Annotation values are not escaped.
- An empty constant list or map holds one empty line between its brackets.
- The `join(space, …)` that ends a struct or service, a typedef and a
  constant always has a last element: the post comments, or an empty line
  suffix when there are none. So the document has a space after `}`, after
  the typedef and after the constant's value even when there are no
  comments. prettier's printer trims trailing spaces at a line break, and
  that trimming is not modelled.

## Model

| member | source | states |
|---|---|---|
| Comments.CommentSegments | src/printer.ts:272-304 | A printed line or block comment reads as its stored lines, each exactly once and in order. One empty line comes first exactly when the previous comment in the list has the same position and the comment starts at least two lines after that one ends. With no such sibling nothing is added. |
| Comments.MultiLineBlockSegments | src/printer.ts:296-303 | A block comment of several lines reads as the first line and then each remaining line on a line of its own, after the optional blank line. |
| Comments.Bucket | src/printer.ts:512-527 | The bucket of a position holds exactly the indices of the comments at that position, each once, in increasing source order. |
| Comments.GetCommentsDocs | src/printer.ts:505-529 | The loop that pushes each comment's doc onto the array of its position returns exactly the three bucket docs (pre, inner-post, post) of `CommentsDocs`. |
| Comments.BucketsPartition | src/printer.ts:514-526 | A comment with a known position lands in the bucket of that position and in no other bucket. |
| Comments.BucketSizes | src/printer.ts:524-525 | The three buckets together hold every comment except those with another position, which are dropped. |
| Comments.CommentsDocsOrder | src/printer.ts:512-527 | The k-th doc of a bucket is the printed k-th comment of that position, printed with its own previous sibling. |
| Comments.OnePositionBuckets | src/printer.ts:512-527 | When every comment has one position, the buckets of the other positions are empty. |
| PrinterLayout.BucketLines | src/printer.ts:505-529 | A bucket's docs read, in source order, as each comment's optional blank line followed by its stored lines. |
| Numbers.NatToString | src/printer.ts:128 | The decimal text of a natural number is non-empty, all digits, and has no leading zero. |
| Numbers.IntToString | src/printer.ts:128 | The text of an integer starts with `-` exactly when the integer is negative. |
| Numbers.NatRoundTrip | src/printer.ts:128 | The digits of a natural number read back as that number. |
| Numbers.IntRoundTrip | src/printer.ts:128 | The text of a field id reads back as the same integer, negative ids included. |
| Printer.AnnotationsDoc | src/printer.ts:531-541 | The annotations doc list has at most one element. It has exactly one when the annotations are present and non-empty, and none otherwise. |
| PrinterText.AnnotationOneLine | src/printer.ts:314-324 | An annotation reads as `name = "value"`, with `""` when the value is absent. |
| PrinterText.AnnotationsOneLine | src/printer.ts:306-312 | Present annotations read as `(` and the annotations joined by `, ` and `)`, on one line. |
| PrinterText.TypeOneLine | src/printer.ts:326-353 | A type reads as `list<T>` or `set<T>` by node kind, `map<K, V>`, its keyword's spelling, or its name, at any nesting depth. |
| PrinterText.CollectionOneLine | src/printer.ts:326-334 | A list or set type reads as its keyword, `<`, the element type and `>`. |
| PrinterText.MapOneLine | src/printer.ts:336-346 | A map type reads as `map<`, the key type, `, `, the value type and `>`. |
| PrinterText.ScalarOneLine | src/printer.ts:490-498 | A string literal reads between double quotes, a boolean as `true` or `false`, and a number or identifier as written. |
| PrinterText.FieldIdOneLine | src/printer.ts:128 | The id part of a field reads as the id's decimal text and `: ` exactly when the id is present, else as nothing. |
| PrinterText.FieldOneLine | src/printer.ts:117-137 | A field reads on one line as `id: req type name = default (annotations)`. Each optional part appears exactly when present. |
| PrinterText.FieldListOneLine | src/printer.ts:226-226 | A parameter list of fields without comments and with scalar defaults reads as the field texts joined by `, `, on one line. |
| PrinterText.ThrowsPart | src/printer.ts:228-230 | The throws part of any function, whatever its comments and parameters, reads as `throws(`, the exception fields joined by `, ` and `)` exactly when there are exceptions, else as nothing. |
| PrinterText.AnnotationPart | src/printer.ts:134-134 | The annotation part of a field or function reads as a space and the annotations exactly when they are present. |
| PrinterText.FunctionOneLine | src/printer.ts:211-234 | A function reads on one line as `oneway type name(params)throws(exceptions) (annotations)`. `oneway ` appears exactly when one-way, and the throws clause exactly when there are exceptions, with no space before `throws`. |
| PrinterLayout.PreRun | src/printer.ts:84-84 | Leading comments read as each comment's lines in turn, followed by a line break. |
| PrinterLayout.IndentedRun | src/printer.ts:86-88 | A member run reads as a line break, then each member's lines in turn. |
| PrinterLayout.BlockLines | src/printer.ts:82-94 | A block declaration reads as follows. An empty line comes first when it has a previous sibling. Then come the leading comments, then the opening line. If there are members, inner comments or annotations, the members follow in order, then the inner comments, then the closing lines. Otherwise the closing continues the opening line. |
| PrinterLayout.BlockPrevious | src/printer.ts:83-83 | A previous sibling adds exactly one empty line in front of a block declaration and changes nothing else. |
| PrinterLayout.PostClosing | src/printer.ts:73-77 | A struct or service closes with `}`, its annotations and a space, and its post comments continue that line. |
| PrinterLayout.EnumClosing | src/printer.ts:147-150 | An enum closes with `}` and its annotations on one line. |
| PrinterLayout.StructLines | src/printer.ts:64-95 | A struct reads as its leading comments, then `struct name {`, one line per field in source order, the inner comments and the closing line. When it has no fields, inner comments or annotations, it reads as `struct name {}` and its post comments on one line. |
| PrinterLayout.UnionPrintsStruct | src/printer.ts:440-443 | Union and exception definitions print exactly as a struct with the same name, fields, annotations and comments. |
| PrinterLayout.EnumMemberLines | src/printer.ts:250-270 | An enum member reads as its leading comments, then `name = value (annotations)`, where the value and annotations appear exactly when present, then its trailing comments on that line. |
| PrinterLayout.EnumLines | src/printer.ts:139-168 | An enum reads as its leading comments, `enum name {`, each member's lines in order, the inner comments and `}` with annotations. When it has no members, inner comments or annotations, it reads as `enum name {}`. |
| PrinterLayout.EnumDropsPost | src/printer.ts:145-150 | An enum whose comments are all post comments prints exactly as the same enum without comments. |
| PrinterLayout.ServiceOpening | src/printer.ts:178-185 | A service opens with `service name {`, with ` extends base` before ` {` exactly when it extends another service. |
| PrinterLayout.ServiceLines | src/printer.ts:170-209 | A service reads as its leading comments, the opening line, one line per function in source order, the inner comments and the closing line. When it has no functions, inner comments or annotations, the closing is on the opening line. |
| PrinterLayout.ConstLinesCorrect | src/printer.ts:375-410 | Any constant, nested to any depth, reads as follows. A scalar is on one line. A list or map is its opening bracket, then each element's lines with a comma after the last of them (a map property's lines include its own comments), then the closing bracket on a line of its own. An empty list or map has one empty line inside. |
| PrinterLayout.PropertyLinesCorrect | src/printer.ts:412-427 | A map property reads as its leading comments' lines, then its key's lines, then `: `, then its value's lines continuing the key's last line. When it has post comments, a space and those comments continue the value's last line. |
| PrinterLayout.CommentedLines | src/printer.ts:105-114 | `join(hardline, [...preComments, x])` reads as the leading comments' lines, then the lines of `x`. |
| PrinterLayout.TrailingLines | src/printer.ts:60-60 | Trailing comments read as nothing, or as a space and the comments continuing the current line. |
| PrinterLayout.IncludeLines | src/printer.ts:50-62 | An include reads as its leading comments on their own lines, then `include "path"` and its post comments on that line. |
| PrinterLayout.NamespaceLine | src/printer.ts:236-248 | A namespace reads as `namespace scope name` on one line. |
| PrinterLayout.TypedefLines | src/printer.ts:97-115 | A typedef reads as its leading comments, then `typedef type name (annotations) ` with its post comments on that line. |
| PrinterLayout.ConstDefinitionLines | src/printer.ts:355-373 | A constant definition reads as its leading comments, then `const type name = ` followed by the value's lines, a space, and the post comments on the last line. |
| PrinterLayout.PreviousSibling | src/printer.ts:436-457 | Having a previous sibling adds one empty line before a struct, union, exception, enum or service and does not change any other statement. |
| Printer.PrintDefinition | src/printer.ts:434-500 | The print dispatch for a document statement fails exactly for a statement kind with no printing rule. The failure message is "unsupported node type: " followed by the node's type. |
| Printer.FirstUnsupported | src/printer.ts:499-500 | Finds the first statement at or after an index that has no printing rule, or the end of the body. |
| Printer.PrintBody | src/printer.ts:47-47 | Mapping `print` over the body succeeds exactly when no statement lacks a printing rule. A failure carries "unsupported node type: " and the first such statement's type. A success gives one doc per statement in order, each printed with "has a previous sibling" exactly when it is not the first. |
| Printer.PrintDocument | src/printer.ts:42-48 | Printing a document succeeds exactly when every statement has a printing rule. Otherwise it fails with the message naming the first statement without one. |
| PrinterLayout.DocumentLines | src/printer.ts:42-48 | A printed document reads as each statement's lines in turn, each starting on a new line. The first is printed without a previous sibling and every later one with one. The output ends with a line break, and an empty document is a single line break. |

## Left out

- The prettier layout engine is not modelled. `Segments` reads the lines of a document but ignores:
  - indentation widths;
  - the dedent of `dedentToRoot`;
  - the deferral of line suffixes to the end of the line;
  - the trimming of trailing whitespace at each line break.
- `REVERSED_KEYWORDS` (src/printer.ts:29) lives in a file that is not part of this model. It is the parameter `kw`.
- The scanner, parser, comment attacher and diagnostics collector are not part of this model.
- `src/parser.ts`, `src/index.ts`, `src/ast/index.ts` and `test/format/utils.ts` are not modelled. They hold driver code, plugin wiring, re-exports and test I/O.
- The end-to-end idempotence of parsing rendered output is not modelled, because the parser is not part of this model.
- The `options` argument of every print function is unused by the source and left out.
- "Unsupported node type" cannot arise inside types, constants, fields or comments, because the tree is closed. It is modelled only for document statements.
- A block comment always holds at least one line (the type `Ast.BlockLines`). The source would read `value[0]` of an empty value.
- Numbers.IntToString: a field id is an unbounded integer. JavaScript's `toString` of huge or non-integer numbers, including exponent notation, is not modelled.
- PrinterText.FieldOneLine: covers only fields without comments whose default, if any, is a scalar. A field's own leading and post comments are not given a line lemma.
- PrinterText.FieldListOneLine: covers only lists of fields without comments whose default, if any, is a scalar, as `FieldOneLine` does. Such a list is one line; a field with comments adds lines of its own, which `CommentedLines` describes for one document.
- PrinterText.ThrowsPart: the exceptions are the fields `FieldListOneLine` covers.
- PrinterText.FunctionOneLine: covers only functions without comments whose parameters and exceptions are such fields.
- PrinterLayout.StructLines: the fields are those of `FieldOneLine`. The struct's own comments are unrestricted.
- PrinterLayout.ServiceLines: the functions are those of `FunctionOneLine`. The service's own comments are unrestricted.
