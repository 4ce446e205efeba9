/**
 * The printing rules of the Thrift prettier plugin: from a syntax tree to a
 * layout document. Each function follows one `print*` function of the
 * plugin; the plugin's single `print` dispatch on `node.type` is split here
 * by node kind (types, constants, comments, definitions), and its `default`
 * case, which throws "unsupported node type", reaches the document body.
 */
module Printer {
  import opened Wrappers
  import opened Ast
  import opened Docs
  import opened Comments
  import opened Numbers

  /**
   * The Thrift spelling of each base-type keyword (the plugin's
   * `REVERSED_KEYWORDS` table). The table is not part of this model, so it is
   * a parameter of every function that prints a type.
   */
  type KeywordNames = Keyword -> string

  const Quote: string := "\""

  /** The leading comments joined by line breaks and followed by one, or nothing when there are none. */
  function PreCommentsDoc(pre: seq<Doc>): Doc {
    if |pre| > 0 then Concat([Join(Hardline, pre), Hardline]) else Text("")
  }

  /** `lineSuffix([space, postComments])` when there are post comments, else nothing. */
  function TrailingCommentsDoc(post: seq<Doc>): Doc {
    if |post| > 0 then LineSuffix(Concat([Text(" "), Concat(post)])) else Text("")
  }

  // ----- annotations -----

  function PrintAnnotation(a: Annotation): Doc {
    Join(Text(" = "), [Text(a.name), Join(Text(""), [Text(Quote), Text(a.value.GetOr("")), Text(Quote)])])
  }

  function PrintAnnotations(annotations: seq<Annotation>): Doc {
    Join(Text(", "), seq(|annotations|, i requires 0 <= i < |annotations| => PrintAnnotation(annotations[i])))
  }

  /** `helpers.getAnnotationsDoc`: nothing, or the one doc `(` annotations `)`. */
  function AnnotationsDoc(annotations: Option<seq<Annotation>>): (r: seq<Doc>)
    ensures |r| <= 1
    ensures |r| == 1 <==> Annotated(annotations)
  {
    if Annotated(annotations) then
      [Join(Text(""), [Text("("), PrintAnnotations(annotations.value), Text(")")])]
    else []
  }

  // ----- types -----

  function PrintBaseType(kw: KeywordNames, k: Keyword): Doc {
    Text(kw(k))
  }

  function PrintType(kw: KeywordNames, t: FieldType): Doc
    decreases t, 1
  {
    match t
    case BaseType(k) => PrintBaseType(kw, k)
    case ListType(_) => PrintList(kw, t)
    case SetType(_) => PrintList(kw, t)
    case MapType(_, _) => PrintMap(kw, t)
    case TypeName(name) => Text(name)
  }

  /** `printList`, shared by list and set types: the keyword is chosen by the node type. */
  function PrintList(kw: KeywordNames, t: FieldType): Doc
    requires t.ListType? || t.SetType?
    decreases t, 0
  {
    Join(Text(""), [Text(if t.ListType? then "list" else "set"), Text("<"), PrintType(kw, t.valueType), Text(">")])
  }

  function PrintMap(kw: KeywordNames, t: FieldType): Doc
    requires t.MapType?
    decreases t, 0
  {
    Join(Text(""), [Text("map"), Text("<"), PrintType(kw, t.keyType), Text(","), Text(" "), PrintType(kw, t.valueType), Text(">")])
  }

  // ----- constant values -----

  function PrintConst(c: ConstValue): Doc
    decreases c, 1
  {
    match c
    case StringLiteral(value) => Concat([Text(Quote), Text(value), Text(Quote)])
    case BooleanLiteral(truth) => Text(if truth then "true" else "false")
    case IntConstant(literal) => Text(literal)
    case DoubleConstant(literal) => Text(literal)
    case ConstIdentifier(name) => Text(name)
    case ConstList(_) => PrintConstList(c)
    case ConstMap(_) => PrintConstMap(c)
  }

  /** Each element followed by a comma, one per line, indented between `[` and `]`. */
  function PrintConstList(c: ConstValue): Doc
    requires c.ConstList?
    decreases c, 0
  {
    var es := c.elements;
    Concat([Text("["),
            Indent(Concat([Hardline, Join(Hardline, seq(|es|, i requires 0 <= i < |es| => Concat([PrintConst(es[i]), Text(",")])))])),
            Hardline,
            Text("]")])
  }

  /** Each property followed by a comma, one per line, indented between `{` and `}`. */
  function PrintConstMap(c: ConstValue): Doc
    requires c.ConstMap?
    decreases c, 0
  {
    var ps := c.properties;
    Concat([Text("{"),
            Indent(Concat([Hardline, Join(Hardline, seq(|ps|, i requires 0 <= i < |ps| => Concat([PrintPropertyAssignment(ps[i]), Text(",")])))])),
            Hardline,
            Text("}")])
  }

  function PrintPropertyAssignment(p: PropertyAssignment): Doc
    decreases p, 2
  {
    var docs := CommentsDocs(p.comments);
    var pre, post := docs.0, docs.2;
    Join(Hardline, pre + [Concat([PrintConst(p.key), Text(": "), PrintConst(p.initializer)]
                                 + (if |post| > 0 then [LineSuffix(Concat([Text(" "), Concat(post)]))] else []))])
  }

  // ----- fields and functions -----

  function RequirednessName(r: Requiredness): string {
    match r
    case Required => "required"
    case Optional => "optional"
  }

  function PrintField(kw: KeywordNames, f: Field): Doc {
    var docs := CommentsDocs(f.comments);
    var pre, post := docs.0, docs.2;
    var annotations := AnnotationsDoc(f.annotations);
    Concat([PreCommentsDoc(pre),
            if f.fieldID.Some? then Concat([Text(IntToString(f.fieldID.value)), Text(": ")]) else Text(""),
            if f.requiredness.Some? then Text(RequirednessName(f.requiredness.value) + " ") else Text(""),
            PrintType(kw, f.fieldType),
            Text(" "),
            Text(f.name)]
           + (if f.defaultValue.Some? then [Text(" = "), PrintConst(f.defaultValue.value)] else [])
           + (if |annotations| > 0 then [Text(" ")] + annotations else [])
           + (if |post| > 0 then [Text(" "), LineSuffix(Concat(post))] else []))
  }

  /** `path.map(print, "fields")` over a field list. */
  function FieldDocs(kw: KeywordNames, fs: seq<Field>): (r: seq<Doc>)
    ensures |r| == |fs|
  {
    seq(|fs|, i requires 0 <= i < |fs| => PrintField(kw, fs[i]))
  }

  function PrintFunction(kw: KeywordNames, fn: Function): Doc {
    var docs := CommentsDocs(fn.comments);
    var pre, post := docs.0, docs.2;
    var annotations := AnnotationsDoc(fn.annotations);
    Concat((if |pre| > 0 then [Join(Hardline, pre), Hardline] else [])
           + [Text(if fn.oneway then "oneway " else ""),
              PrintType(kw, fn.returnType),
              Text(" "),
              Text(fn.name),
              Text("("),
              Join(Text(", "), FieldDocs(kw, fn.fields)),
              Text(")")]
           + (if |fn.throws| > 0 then [Text("throws"), Text("("), Join(Text(", "), FieldDocs(kw, fn.throws)), Text(")")] else [])
           + (if |annotations| > 0 then [Text(" ")] + annotations else [])
           + [if |post| > 0 then Concat([LineSuffix(Concat([Text(" "), Concat(post)]))]) else Text("")])
  }

  function PrintEnumMember(m: EnumMember): Doc {
    var docs := CommentsDocs(m.comments);
    var pre, post := docs.0, docs.2;
    Join(Hardline, pre + [Concat([Join(Text(" "), [Text(m.name)]
                                                  + (if m.initializer.Some? then [Text("="), Text(m.initializer.value)] else [])
                                                  + AnnotationsDoc(m.annotations)),
                                  TrailingCommentsDoc(post)])])
  }

  // ----- block-bodied definitions -----

  /**
   * The layout shared by `printStruct`, `printEnum` and `printService`: a
   * break before the declaration when it has a previous sibling, the leading
   * comments, the opening line, the members and then the inner comments
   * indented, and a break before the closing line only when the body has
   * inner comments or members, or the declaration has annotations.
   */
  function BlockDecl(hasPrevious: bool, pre: seq<Doc>, start: Doc, members: seq<Doc>,
                     innerPost: seq<Doc>, annotated: bool, end: Doc): Doc {
    Concat([if hasPrevious then Hardline else Text(""),
            PreCommentsDoc(pre),
            start,
            if |members| > 0 then Indent(Concat([Hardline, Join(Hardline, members)])) else Text(""),
            if |innerPost| > 0 then Indent(Concat([Hardline, Join(Hardline, innerPost)])) else Text(""),
            if |innerPost| > 0 || |members| > 0 || annotated then Hardline else Text(""),
            end])
  }

  /** Struct, union and exception definitions alike: the keyword written is always `struct`. */
  function PrintStruct(kw: KeywordNames, d: Definition, hasPrevious: bool): Doc
    requires d.Struct?
  {
    var docs := CommentsDocs(d.comments);
    var start := Concat([Text("struct"), Text(" "), Text(d.name), Text(" "), Text("{")]);
    var end := Join(Text(" "), [Text("}")] + AnnotationsDoc(d.annotations) + [Concat(docs.2)]);
    BlockDecl(hasPrevious, docs.0, start, FieldDocs(kw, d.fields), docs.1, Annotated(d.annotations), end)
  }

  /** Enums print no post comments. */
  function PrintEnum(d: Definition, hasPrevious: bool): Doc
    requires d.Enum?
  {
    var docs := CommentsDocs(d.comments);
    var start := Concat([Text("enum"), Text(" "), Text(d.name), Text(" "), Text("{")]);
    var end := Join(Text(" "), [Text("}")] + AnnotationsDoc(d.annotations));
    var members := seq(|d.members|, i requires 0 <= i < |d.members| => PrintEnumMember(d.members[i]));
    BlockDecl(hasPrevious, docs.0, start, members, docs.1, Annotated(d.annotations), end)
  }

  function PrintService(kw: KeywordNames, d: Definition, hasPrevious: bool): Doc
    requires d.Service?
  {
    var docs := CommentsDocs(d.comments);
    var start := Concat([Text("service"), Text(" "), Text(d.name),
                         if d.extendsName.Some? then Concat([Text(" "), Text("extends"), Text(" "), Text(d.extendsName.value)]) else Text(""),
                         Text(" "), Text("{")]);
    var end := Join(Text(" "), [Text("}")] + AnnotationsDoc(d.annotations) + [Concat(docs.2)]);
    var members := seq(|d.functions|, i requires 0 <= i < |d.functions| => PrintFunction(kw, d.functions[i]));
    BlockDecl(hasPrevious, docs.0, start, members, docs.1, Annotated(d.annotations), end)
  }

  // ----- one-line definitions -----

  function PrintInclude(d: Definition): Doc
    requires d.Include?
  {
    var docs := CommentsDocs(d.comments);
    Concat([PreCommentsDoc(docs.0),
            Join(Text(" "), [Text("include"), Concat([Text(Quote), Text(d.path), Text(Quote)])]),
            TrailingCommentsDoc(docs.2)])
  }

  function PrintNamespace(d: Definition): Doc
    requires d.Namespace?
  {
    Concat([Text("namespace"), Text(" "), Text(d.scope), Text(" "), Text(d.name)])
  }

  function PrintTypedef(kw: KeywordNames, d: Definition): Doc
    requires d.Typedef?
  {
    var docs := CommentsDocs(d.comments);
    Join(Hardline, docs.0 + [Join(Text(" "), [Text("typedef"), PrintType(kw, d.definitionType), Text(d.name)]
                                             + AnnotationsDoc(d.annotations)
                                             + [LineSuffix(Concat(docs.2))])])
  }

  function PrintConstDefinition(kw: KeywordNames, d: Definition): Doc
    requires d.Const?
  {
    var docs := CommentsDocs(d.comments);
    Join(Hardline, docs.0 + [Join(Text(" "), [Text("const"), PrintType(kw, d.fieldType), Text(d.name), Text("="),
                                              PrintConst(d.initializer), LineSuffix(Concat(docs.2))])])
  }

  // ----- dispatch -----

  function UnsupportedMessage(nodeType: string): string {
    "unsupported node type: " + nodeType
  }

  /** The `print` dispatch for a statement of the document body; `hasPrevious` is `path.previous` being set. */
  function PrintDefinition(kw: KeywordNames, d: Definition, hasPrevious: bool): (r: Result<Doc>)
    ensures r.Failure? <==> d.Unsupported?
    ensures r.Failure? ==> r.error == UnsupportedMessage(d.nodeType)
  {
    match d
    case Include(_, _) => Success(PrintInclude(d))
    case Namespace(_, _) => Success(PrintNamespace(d))
    case Typedef(_, _, _, _) => Success(PrintTypedef(kw, d))
    case Const(_, _, _, _) => Success(PrintConstDefinition(kw, d))
    case Struct(_, _, _, _, _) => Success(PrintStruct(kw, d, hasPrevious))
    case Enum(_, _, _, _) => Success(PrintEnum(d, hasPrevious))
    case Service(_, _, _, _, _) => Success(PrintService(kw, d, hasPrevious))
    case Unsupported(nodeType) => Failure(UnsupportedMessage(nodeType))
  }

  /** Index of the first unsupported statement at or after `i`, or `|body|` if there is none. */
  function FirstUnsupported(body: seq<Definition>, i: nat): (j: nat)
    requires i <= |body|
    ensures i <= j <= |body|
    ensures j < |body| ==> body[j].Unsupported?
    ensures forall k :: i <= k < j ==> !body[k].Unsupported?
    decreases |body| - i
  {
    if i == |body| || body[i].Unsupported? then i else FirstUnsupported(body, i + 1)
  }

  /**
   * `path.map(print, "body")` from index `i` on: the statements' docs in
   * order, each told whether it has a previous sibling; the first statement
   * with no rule makes the whole map throw.
   */
  function PrintBody(kw: KeywordNames, body: seq<Definition>, i: nat): (r: Result<seq<Doc>>)
    requires i <= |body|
    ensures r.Success? <==> FirstUnsupported(body, i) == |body|
    ensures r.Failure? ==> r.error == UnsupportedMessage(body[FirstUnsupported(body, i)].nodeType)
    ensures r.Success? ==> |r.value| == |body| - i &&
                           forall k :: i <= k < |body| ==> Success(r.value[k - i]) == PrintDefinition(kw, body[k], k > 0)
    decreases |body| - i
  {
    if i == |body| then Success([])
    else match PrintDefinition(kw, body[i], i > 0)
      case Failure(e) => Failure(e)
      case Success(d) =>
        match PrintBody(kw, body, i + 1)
        case Failure(e) => Failure(e)
        case Success(ds) => Success([d] + ds)
  }

  /** `printDocument`: the statements joined by line breaks, then a final line break. */
  function PrintDocument(kw: KeywordNames, doc: Document): (r: Result<Doc>)
    ensures r.Success? <==> forall k :: 0 <= k < |doc.body| ==> !doc.body[k].Unsupported?
    ensures r.Failure? ==>
              exists j :: 0 <= j < |doc.body| && doc.body[j].Unsupported?
                          && (forall k :: 0 <= k < j ==> !doc.body[k].Unsupported?)
                          && r.error == UnsupportedMessage(doc.body[j].nodeType)
  {
    match PrintBody(kw, doc.body, 0)
    case Failure(e) => Failure(e)
    case Success(ds) => Success(Concat([Join(Hardline, ds), Hardline]))
  }
}
