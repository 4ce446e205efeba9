/**
 * The text the printing rules produce, stated against reference definitions
 * of the Thrift surface syntax: one-line fragments (types, constants,
 * annotations, fields, functions, one-line definitions) and the line
 * structure of block-bodied declarations and constant lists.
 */
module PrinterText {
  import opened Wrappers
  import opened Ast
  import opened Docs
  import opened Comments
  import opened Numbers
  import opened Printer

  // ----- reference texts -----

  function TypeText(kw: KeywordNames, t: FieldType): string {
    match t
    case BaseType(k) => kw(k)
    case ListType(v) => "list<" + TypeText(kw, v) + ">"
    case SetType(v) => "set<" + TypeText(kw, v) + ">"
    case MapType(k, v) => "map<" + TypeText(kw, k) + ", " + TypeText(kw, v) + ">"
    case TypeName(name) => name
  }

  /** Constants that print on one line: all but lists and maps. */
  predicate Scalar(c: ConstValue) {
    !c.ConstList? && !c.ConstMap?
  }

  function ScalarText(c: ConstValue): string
    requires Scalar(c)
  {
    match c
    case StringLiteral(value) => "\"" + value + "\""
    case BooleanLiteral(truth) => if truth then "true" else "false"
    case IntConstant(literal) => literal
    case DoubleConstant(literal) => literal
    case ConstIdentifier(name) => name
  }

  function AnnotationText(a: Annotation): string {
    a.name + " = \"" + a.value.GetOr("") + "\""
  }

  function AnnotationsText(annotations: seq<Annotation>): string {
    "(" + JoinStr(", ", seq(|annotations|, i requires 0 <= i < |annotations| => AnnotationText(annotations[i]))) + ")"
  }

  /** A space and the annotations when there are any, else nothing. */
  function AnnotationSuffix(annotations: Option<seq<Annotation>>): string {
    if Annotated(annotations) then " " + AnnotationsText(annotations.value) else ""
  }

  /** A field with no comments whose default value, if any, is a one-line constant. */
  predicate SimpleField(f: Field) {
    f.comments == [] && (f.defaultValue.Some? ==> Scalar(f.defaultValue.value))
  }

  function FieldIdText(f: Field): string {
    if f.fieldID.Some? then IntToString(f.fieldID.value) + ": " else ""
  }

  function RequirednessText(f: Field): string {
    if f.requiredness.Some? then RequirednessName(f.requiredness.value) + " " else ""
  }

  function DefaultText(f: Field): string
    requires SimpleField(f)
  {
    if f.defaultValue.Some? then " = " + ScalarText(f.defaultValue.value) else ""
  }

  function FieldText(kw: KeywordNames, f: Field): string
    requires SimpleField(f)
  {
    FieldIdText(f) + RequirednessText(f) + TypeText(kw, f.fieldType) + " " + f.name
    + DefaultText(f) + AnnotationSuffix(f.annotations)
  }

  function FieldTexts(kw: KeywordNames, fs: seq<Field>): (r: seq<string>)
    requires forall i :: 0 <= i < |fs| ==> SimpleField(fs[i])
    ensures |r| == |fs|
  {
    seq(|fs|, i requires 0 <= i < |fs| => FieldText(kw, fs[i]))
  }

  /** A function with no comments whose parameters and exceptions are simple fields. */
  predicate SimpleFunction(fn: Function) {
    && fn.comments == []
    && (forall i :: 0 <= i < |fn.fields| ==> SimpleField(fn.fields[i]))
    && (forall i :: 0 <= i < |fn.throws| ==> SimpleField(fn.throws[i]))
  }

  function FunctionText(kw: KeywordNames, fn: Function): string
    requires SimpleFunction(fn)
  {
    (if fn.oneway then "oneway " else "") + TypeText(kw, fn.returnType) + " " + fn.name
    + "(" + JoinStr(", ", FieldTexts(kw, fn.fields)) + ")"
    + (if |fn.throws| > 0 then "throws(" + JoinStr(", ", FieldTexts(kw, fn.throws)) + ")" else "")
    + AnnotationSuffix(fn.annotations)
  }

  // ----- one-line fragments -----

  /** A type prints as its Thrift spelling: `list<T>`, `set<T>`, `map<K, V>`, a keyword or a name. */
  lemma {:induction false} TypeOneLine(kw: KeywordNames, t: FieldType)
    ensures Segments(PrintType(kw, t)) == [TypeText(kw, t)]
  {
    match t
    case BaseType(_) =>
    case TypeName(_) =>
    case ListType(v) =>
      TypeOneLine(kw, v);
      CollectionOneLine(kw, t, "list");
      assert "list" + "<" == "list<";
    case SetType(v) =>
      TypeOneLine(kw, v);
      CollectionOneLine(kw, t, "set");
      assert "set" + "<" == "set<";
    case MapType(k, v) =>
      TypeOneLine(kw, k);
      TypeOneLine(kw, v);
      MapOneLine(kw, t);
  }

  lemma CollectionOneLine(kw: KeywordNames, t: FieldType, keyword: string)
    requires t.ListType? || t.SetType?
    requires keyword == if t.ListType? then "list" else "set"
    requires Segments(PrintType(kw, t.valueType)) == [TypeText(kw, t.valueType)]
    ensures Segments(PrintList(kw, t)) == [keyword + "<" + TypeText(kw, t.valueType) + ">"]
  {
    var ss := [keyword, "<", TypeText(kw, t.valueType), ">"];
    JoinOneLine("", [Text(keyword), Text("<"), PrintType(kw, t.valueType), Text(">")], ss);
    JoinStrNoSeparator(ss);
    Cat4(keyword, "<", TypeText(kw, t.valueType), ">");
  }

  lemma MapOneLine(kw: KeywordNames, t: FieldType)
    requires t.MapType?
    requires Segments(PrintType(kw, t.keyType)) == [TypeText(kw, t.keyType)]
    requires Segments(PrintType(kw, t.valueType)) == [TypeText(kw, t.valueType)]
    ensures Segments(PrintMap(kw, t)) == ["map<" + TypeText(kw, t.keyType) + ", " + TypeText(kw, t.valueType) + ">"]
  {
    var k, v := TypeText(kw, t.keyType), TypeText(kw, t.valueType);
    var ds := [Text("map"), Text("<"), PrintType(kw, t.keyType), Text(","), Text(" "), PrintType(kw, t.valueType), Text(">")];
    var ss := ["map", "<", k, ",", " ", v, ">"];
    JoinOneLine("", ds, ss);
    JoinStrNoSeparator(ss);
    assert ss == ["map", "<", k, ","] + [" ", v, ">"];
    CatAppend(["map", "<", k, ","], [" ", v, ">"]);
    Cat4("map", "<", k, ",");
    Cat3(" ", v, ">");
    assert "map" + "<" == "map<";
    assert "," + " " == ", ";
    assert "map" + "<" + k + "," + (" " + v + ">") == "map<" + k + ", " + v + ">";
  }

  /** A string literal prints between double quotes, a boolean as `true` or `false`, other scalars as written. */
  lemma ScalarOneLine(c: ConstValue)
    requires Scalar(c)
    ensures Segments(PrintConst(c)) == [ScalarText(c)]
  {
    if c.StringLiteral? {
      OneLineParts([Text(Quote), Text(c.value), Text(Quote)], [Quote, c.value, Quote]);
      Cat3(Quote, c.value, Quote);
    }
  }

  lemma AnnotationOneLine(a: Annotation)
    ensures Segments(PrintAnnotation(a)) == [AnnotationText(a)]
  {
    var v := a.value.GetOr("");
    var q := Join(Text(""), [Text(Quote), Text(v), Text(Quote)]);
    JoinOneLine("", [Text(Quote), Text(v), Text(Quote)], [Quote, v, Quote]);
    JoinStrNoSeparator([Quote, v, Quote]);
    Cat3(Quote, v, Quote);
    assert Segments(q) == [Quote + v + Quote];
    JoinOneLine(" = ", [Text(a.name), q], [a.name, Quote + v + Quote]);
    assert JoinStr(" = ", [a.name, Quote + v + Quote]) == a.name + " = " + (Quote + v + Quote) by {
      assert [a.name, Quote + v + Quote][1..] == [Quote + v + Quote];
    }
    assert " = " + Quote == " = \"";
    assert a.name + " = " + (Quote + v + Quote) == a.name + (" = " + Quote) + v + Quote;
  }

  /** A non-empty annotation list prints as `(name = "value", ...)`, an absent value as `""`. */
  lemma AnnotationsOneLine(annotations: Option<seq<Annotation>>)
    requires Annotated(annotations)
    ensures Segments(AnnotationsDoc(annotations)[0]) == [AnnotationsText(annotations.value)]
  {
    var anns := annotations.value;
    var docs := seq(|anns|, i requires 0 <= i < |anns| => PrintAnnotation(anns[i]));
    var texts := seq(|anns|, i requires 0 <= i < |anns| => AnnotationText(anns[i]));
    forall i | 0 <= i < |anns| ensures Segments(docs[i]) == [texts[i]] {
      AnnotationOneLine(anns[i]);
    }
    JoinOneLine(", ", docs, texts);
    var inner := JoinStr(", ", texts);
    assert Segments(PrintAnnotations(anns)) == [inner];
    JoinOneLine("", [Text("("), PrintAnnotations(anns), Text(")")], ["(", inner, ")"]);
    JoinStrNoSeparator(["(", inner, ")"]);
    Cat3("(", inner, ")");
  }

  /** The id doc of a field reads as `id: ` when the id is present and as nothing otherwise. */
  lemma FieldIdOneLine(f: Field)
    ensures Segments(if f.fieldID.Some? then Concat([Text(IntToString(f.fieldID.value)), Text(": ")]) else Text(""))
            == [FieldIdText(f)]
  {
    if f.fieldID.Some? {
      OneLineParts([Text(IntToString(f.fieldID.value)), Text(": ")], [IntToString(f.fieldID.value), ": "]);
      Cat2(IntToString(f.fieldID.value), ": ");
    }
  }

  /** The parts of a field's doc from its (empty) leading comments to its name. */
  function FieldHead(kw: KeywordNames, f: Field): seq<Doc> {
    [Text(""),
     if f.fieldID.Some? then Concat([Text(IntToString(f.fieldID.value)), Text(": ")]) else Text(""),
     if f.requiredness.Some? then Text(RequirednessName(f.requiredness.value) + " ") else Text(""),
     PrintType(kw, f.fieldType), Text(" "), Text(f.name)]
  }

  /** The optional default and annotation parts of a field's doc. */
  function FieldTail(f: Field): seq<Doc> {
    var annotations := AnnotationsDoc(f.annotations);
    (if f.defaultValue.Some? then [Text(" = "), PrintConst(f.defaultValue.value)] else [])
    + (if |annotations| > 0 then [Text(" ")] + annotations else [])
  }

  function FieldHeadText(kw: KeywordNames, f: Field): seq<string> {
    ["", FieldIdText(f), RequirednessText(f), TypeText(kw, f.fieldType), " ", f.name]
  }

  function FieldTailText(f: Field): seq<string>
    requires SimpleField(f)
  {
    (if f.defaultValue.Some? then [" = ", ScalarText(f.defaultValue.value)] else [])
    + (if |AnnotationsDoc(f.annotations)| > 0 then [" ", AnnotationsText(f.annotations.value)] else [])
  }

  /** The default and annotation parts of a simple field, each read as its text. */
  lemma FieldTailReads(f: Field)
    requires SimpleField(f)
    ensures ReadsAs(FieldTail(f), FieldTailText(f))
  {
    var annotations := AnnotationsDoc(f.annotations);
    var dd := if f.defaultValue.Some? then [Text(" = "), PrintConst(f.defaultValue.value)] else [];
    var dt := if f.defaultValue.Some? then [" = ", ScalarText(f.defaultValue.value)] else [];
    var ad := if |annotations| > 0 then [Text(" ")] + annotations else [];
    var at := if |annotations| > 0 then [" ", AnnotationsText(f.annotations.value)] else [];
    if f.defaultValue.Some? {
      ScalarOneLine(f.defaultValue.value);
    }
    if |annotations| > 0 {
      AnnotationsOneLine(f.annotations);
    }
    ReadsAsAppend(dd, dt, ad, at);
  }

  /** The optional parts of a simple field make its default and annotation texts. */
  lemma OptionalText(f: Field)
    requires SimpleField(f)
    ensures Cat(FieldTailText(f)) == DefaultText(f) + AnnotationSuffix(f.annotations)
  {
    var a := if f.defaultValue.Some? then [" = ", ScalarText(f.defaultValue.value)] else [];
    var b := if Annotated(f.annotations) then [" ", AnnotationsText(f.annotations.value)] else [];
    assert FieldTailText(f) == a + b;
    CatAppend(a, b);
    if f.defaultValue.Some? {
      Cat2(" = ", ScalarText(f.defaultValue.value));
    }
    if Annotated(f.annotations) {
      Cat2(" ", AnnotationsText(f.annotations.value));
    }
  }

  lemma Cat6(ss: seq<string>)
    requires |ss| == 6
    ensures Cat(ss) == ss[0] + ss[1] + ss[2] + ss[3] + ss[4] + ss[5]
  {
    assert ss == [ss[0], ss[1], ss[2]] + [ss[3], ss[4], ss[5]];
    CatAppend([ss[0], ss[1], ss[2]], [ss[3], ss[4], ss[5]]);
    Cat3(ss[0], ss[1], ss[2]);
    Cat3(ss[3], ss[4], ss[5]);
  }

  /** The doc of a comment-free field is its head followed by its optional parts. */
  lemma FieldShape(kw: KeywordNames, f: Field)
    requires f.comments == []
    ensures PrintField(kw, f) == Concat(FieldHead(kw, f) + FieldTail(f))
  {
    assert CommentsDocs(f.comments) == ([], [], []);
  }

  /** The head of a simple field reads as its texts, one part each. */
  lemma FieldHeadReads(kw: KeywordNames, f: Field)
    ensures ReadsAs(FieldHead(kw, f), FieldHeadText(kw, f))
  {
    var h, t := FieldHead(kw, f), FieldHeadText(kw, f);
    forall i | 0 <= i < |h| ensures Segments(h[i]) == [t[i]] {
      if i == 1 {
        FieldIdOneLine(f);
      } else if i == 3 {
        TypeOneLine(kw, f.fieldType);
      }
    }
  }

  lemma FieldLineText(kw: KeywordNames, f: Field)
    requires SimpleField(f)
    ensures Cat(FieldHeadText(kw, f)) + Cat(FieldTailText(f)) == FieldText(kw, f)
  {
    Cat6(FieldHeadText(kw, f));
    OptionalText(f);
    RegroupField(FieldIdText(f), RequirednessText(f), TypeText(kw, f.fieldType), f.name,
                 DefaultText(f), AnnotationSuffix(f.annotations));
  }

  /** String concatenation regrouped; a lemma of its own so the solver proves it outside `FieldLineText`. */
  lemma RegroupField(id: string, req: string, t: string, name: string, def: string, ann: string)
    ensures "" + id + req + t + " " + name + (def + ann) == id + req + t + " " + name + def + ann
  {
  }

  /**
   * A comment-free field prints on one line as `id: req type name = default (annotations)`,
   * where the id, the requiredness, the default and the annotations appear exactly when present.
   */
  lemma FieldOneLine(kw: KeywordNames, f: Field)
    requires SimpleField(f)
    ensures Segments(PrintField(kw, f)) == [FieldText(kw, f)]
  {
    FieldShape(kw, f);
    FieldHeadReads(kw, f);
    FieldTailReads(f);
    FieldLineText(kw, f);
    OneLineAssemble(PrintField(kw, f), FieldHead(kw, f), FieldHeadText(kw, f),
                    FieldTail(f), FieldTailText(f), FieldText(kw, f));
  }

  /** The parameter (or exception) list of a simple function reads as the field texts joined by `, `. */
  lemma FieldListOneLine(kw: KeywordNames, fs: seq<Field>)
    requires forall i :: 0 <= i < |fs| ==> SimpleField(fs[i])
    ensures Segments(Join(Text(", "), FieldDocs(kw, fs))) == [JoinStr(", ", FieldTexts(kw, fs))]
  {
    forall i | 0 <= i < |fs| ensures Segments(FieldDocs(kw, fs)[i]) == [FieldTexts(kw, fs)[i]] {
      FieldOneLine(kw, fs[i]);
    }
    JoinOneLine(", ", FieldDocs(kw, fs), FieldTexts(kw, fs));
  }

  lemma Cat7(ss: seq<string>)
    requires |ss| == 7
    ensures Cat(ss) == ss[0] + ss[1] + ss[2] + ss[3] + ss[4] + ss[5] + ss[6]
  {
    assert ss == [ss[0], ss[1], ss[2], ss[3]] + [ss[4], ss[5], ss[6]];
    CatAppend([ss[0], ss[1], ss[2], ss[3]], [ss[4], ss[5], ss[6]]);
    Cat4(ss[0], ss[1], ss[2], ss[3]);
    Cat3(ss[4], ss[5], ss[6]);
  }

  /** The parts of a function's doc up to its parameter list's closing parenthesis. */
  function FunctionHead(kw: KeywordNames, fn: Function): seq<Doc> {
    [Text(if fn.oneway then "oneway " else ""), PrintType(kw, fn.returnType), Text(" "), Text(fn.name),
     Text("("), Join(Text(", "), FieldDocs(kw, fn.fields)), Text(")")]
  }

  /** The optional parts of a comment-free function's doc: throws clause, annotations, empty trailing comments. */
  function FunctionTail(kw: KeywordNames, fn: Function): seq<Doc> {
    var annotations := AnnotationsDoc(fn.annotations);
    (if |fn.throws| > 0 then [Text("throws"), Text("("), Join(Text(", "), FieldDocs(kw, fn.throws)), Text(")")] else [])
    + (if |annotations| > 0 then [Text(" ")] + annotations else [])
    + [Text("")]
  }

  function FunctionHeadText(kw: KeywordNames, fn: Function): seq<string>
    requires SimpleFunction(fn)
  {
    [if fn.oneway then "oneway " else "", TypeText(kw, fn.returnType), " ", fn.name,
     "(", JoinStr(", ", FieldTexts(kw, fn.fields)), ")"]
  }

  function FunctionTailText(kw: KeywordNames, fn: Function): seq<string>
    requires SimpleFunction(fn)
  {
    (if |fn.throws| > 0 then ["throws", "(", JoinStr(", ", FieldTexts(kw, fn.throws)), ")"] else [])
    + (if |AnnotationsDoc(fn.annotations)| > 0 then [" ", AnnotationsText(fn.annotations.value)] else [])
    + [""]
  }

  /** The doc of a comment-free function is its head followed by its optional parts. */
  lemma FunctionShape(kw: KeywordNames, fn: Function)
    requires fn.comments == []
    ensures PrintFunction(kw, fn) == Concat(FunctionHead(kw, fn) + FunctionTail(kw, fn))
  {
    var docs := CommentsDocs(fn.comments);
    assert docs.0 == [] && docs.2 == [] by {
      assert Bucket(fn.comments, Pre, 0) == [];
      assert Bucket(fn.comments, Post, 0) == [];
    }
    var annotations := AnnotationsDoc(fn.annotations);
    var base := FunctionHead(kw, fn);
    var t := if |fn.throws| > 0 then [Text("throws"), Text("("), Join(Text(", "), FieldDocs(kw, fn.throws)), Text(")")] else [];
    var a := if |annotations| > 0 then [Text(" ")] + annotations else [];
    assert PrintFunction(kw, fn) == Concat([] + base + t + a + [Text("")]);
    PartsRegroup(base, t, a, [Text("")]);
  }

  /** Sequence concatenation regrouped; a lemma of its own so the solver proves it outside `FunctionShape`. */
  lemma PartsRegroup(b: seq<Doc>, t: seq<Doc>, a: seq<Doc>, e: seq<Doc>)
    ensures [] + b + t + a + e == b + (t + a + e)
  {
  }

  /** The head of a simple function reads as its texts, one part each. */
  lemma FunctionHeadReads(kw: KeywordNames, fn: Function)
    requires SimpleFunction(fn)
    ensures ReadsAs(FunctionHead(kw, fn), FunctionHeadText(kw, fn))
  {
    var h, t := FunctionHead(kw, fn), FunctionHeadText(kw, fn);
    forall i | 0 <= i < |h| ensures Segments(h[i]) == [t[i]] {
      if i == 1 {
        TypeOneLine(kw, fn.returnType);
      } else if i == 5 {
        FieldListOneLine(kw, fn.fields);
      }
    }
  }

  /** The throws part of a function whose exceptions are simple fields reads as `throws(...)` when there are exceptions, else as nothing. */
  lemma ThrowsPart(kw: KeywordNames, fn: Function)
    requires forall i :: 0 <= i < |fn.throws| ==> SimpleField(fn.throws[i])
    ensures
      var throwsText := JoinStr(", ", FieldTexts(kw, fn.throws));
      && ReadsAs(if |fn.throws| > 0 then [Text("throws"), Text("("), Join(Text(", "), FieldDocs(kw, fn.throws)), Text(")")] else [],
                 if |fn.throws| > 0 then ["throws", "(", throwsText, ")"] else [])
      && Cat(if |fn.throws| > 0 then ["throws", "(", throwsText, ")"] else [])
         == if |fn.throws| > 0 then "throws(" + throwsText + ")" else ""
  {
    if |fn.throws| > 0 {
      FieldListOneLine(kw, fn.throws);
      ThrowsWrap(Join(Text(", "), FieldDocs(kw, fn.throws)), JoinStr(", ", FieldTexts(kw, fn.throws)));
    }
  }

  lemma ThrowsWrap(j: Doc, js: string)
    requires Segments(j) == [js]
    ensures ReadsAs([Text("throws"), Text("("), j, Text(")")], ["throws", "(", js, ")"])
    ensures Cat(["throws", "(", js, ")"]) == "throws(" + js + ")"
  {
    Cat4("throws", "(", js, ")");
    assert "throws" + "(" == "throws(";
  }

  /** The annotation part of a field or function reads as a space and the annotations, or as nothing. */
  lemma AnnotationPart(annotations: Option<seq<Annotation>>)
    ensures
      var docs := AnnotationsDoc(annotations);
      && ReadsAs(if |docs| > 0 then [Text(" ")] + docs else [],
                 if |docs| > 0 then [" ", AnnotationsText(annotations.value)] else [])
      && Cat(if |docs| > 0 then [" ", AnnotationsText(annotations.value)] else []) == AnnotationSuffix(annotations)
  {
    if Annotated(annotations) {
      AnnotationsOneLine(annotations);
      Cat2(" ", AnnotationsText(annotations.value));
    }
  }

  lemma FunctionPartsText(kw: KeywordNames, fn: Function)
    requires SimpleFunction(fn)
    ensures ReadsAs(FunctionTail(kw, fn), FunctionTailText(kw, fn))
    ensures Cat(FunctionTailText(kw, fn))
            == (if |fn.throws| > 0 then "throws(" + JoinStr(", ", FieldTexts(kw, fn.throws)) + ")" else "")
               + AnnotationSuffix(fn.annotations)
  {
    var annotations := AnnotationsDoc(fn.annotations);
    var throwsText := JoinStr(", ", FieldTexts(kw, fn.throws));
    var td := if |fn.throws| > 0 then [Text("throws"), Text("("), Join(Text(", "), FieldDocs(kw, fn.throws)), Text(")")] else [];
    var tt := if |fn.throws| > 0 then ["throws", "(", throwsText, ")"] else [];
    var ad := if |annotations| > 0 then [Text(" ")] + annotations else [];
    var at := if |annotations| > 0 then [" ", AnnotationsText(fn.annotations.value)] else [];
    assert FunctionTail(kw, fn) == td + ad + [Text("")];
    assert FunctionTailText(kw, fn) == tt + at + [""];
    ThrowsPart(kw, fn);
    AnnotationPart(fn.annotations);
    TailAssemble(td, tt, ad, at);
  }

  /** Two one-line runs and an empty text read as their texts, and make the text of both runs. */
  lemma TailAssemble(td: seq<Doc>, tt: seq<string>, ad: seq<Doc>, at: seq<string>)
    requires ReadsAs(td, tt) && ReadsAs(ad, at)
    ensures ReadsAs(td + ad + [Text("")], tt + at + [""])
    ensures Cat(tt + at + [""]) == Cat(tt) + Cat(at)
  {
    ReadsAsAppend(td, tt, ad, at);
    ReadsAsAppend(td + ad, tt + at, [Text("")], [""]);
    CatAppend(tt + at, [""]);
    CatAppend(tt, at);
    CatCons("", []);
  }

  /** Two one-line runs of parts, one after the other, read as one line. */
  lemma OneLineRuns(base: seq<Doc>, baseText: seq<string>, rest: seq<Doc>, restText: seq<string>)
    requires ReadsAs(base, baseText) && ReadsAs(rest, restText)
    ensures Segments(Concat(base + rest)) == [Cat(baseText) + Cat(restText)]
  {
    ReadsAsAppend(base, baseText, rest, restText);
    OneLineParts(base + rest, baseText + restText);
    CatAppend(baseText, restText);
  }

  lemma FunctionLineText(kw: KeywordNames, fn: Function, restCat: string)
    requires SimpleFunction(fn)
    requires restCat == (if |fn.throws| > 0 then "throws(" + JoinStr(", ", FieldTexts(kw, fn.throws)) + ")" else "")
                        + AnnotationSuffix(fn.annotations)
    ensures Cat(FunctionHeadText(kw, fn)) + restCat == FunctionText(kw, fn)
  {
    var head := FunctionHeadText(kw, fn);
    var th := if |fn.throws| > 0 then "throws(" + JoinStr(", ", FieldTexts(kw, fn.throws)) + ")" else "";
    var an := AnnotationSuffix(fn.annotations);
    Cat7(head);
    assert FunctionText(kw, fn) == head[0] + head[1] + head[2] + head[3] + head[4] + head[5] + head[6] + th + an;
    RegroupTail(Cat(head), th, an);
  }

  /** String concatenation regrouped; a lemma of its own so the solver proves it outside `FunctionLineText`. */
  lemma RegroupTail(head: string, th: string, an: string)
    ensures head + (th + an) == head + th + an
  {
  }

  /**
   * A comment-free function prints on one line as
   * `oneway type name(params)throws(exceptions) (annotations)`: `oneway ` exactly
   * when one-way, the parameters joined by `, `, the throws clause exactly when
   * there are exceptions, with no space before `throws`.
   */
  lemma FunctionOneLine(kw: KeywordNames, fn: Function)
    requires SimpleFunction(fn)
    ensures Segments(PrintFunction(kw, fn)) == [FunctionText(kw, fn)]
  {
    FunctionShape(kw, fn);
    FunctionHeadReads(kw, fn);
    FunctionPartsText(kw, fn);
    FunctionLineText(kw, fn, Cat(FunctionTailText(kw, fn)));
    OneLineAssemble(PrintFunction(kw, fn), FunctionHead(kw, fn), FunctionHeadText(kw, fn),
                    FunctionTail(kw, fn), FunctionTailText(kw, fn), FunctionText(kw, fn));
  }

  /** A doc made of two one-line runs reads as the one line their texts make. */
  lemma OneLineAssemble(d: Doc, base: seq<Doc>, baseText: seq<string>, rest: seq<Doc>, restText: seq<string>, line: string)
    requires d == Concat(base + rest)
    requires ReadsAs(base, baseText) && ReadsAs(rest, restText)
    requires Cat(baseText) + Cat(restText) == line
    ensures Segments(d) == [line]
  {
    OneLineRuns(base, baseText, rest, restText);
  }
}
